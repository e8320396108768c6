/**
 * Runs from a start in which a user keeps or regains access after the panel has marked it as synced,
 * one after a failed node lookup and one through the old list of a retry, and one in which a panel
 * clock that is behind skips an expired user.
 */
module KnownGaps {
  import opened Prelude
  import opened Database
  import opened SyncProtocol
  import opened SyncVersions
  import opened SyncSolo
  import opened SyncReplies
  import opened Revocation
  import opened RevocationExact
  import opened NodeManager
  import opened ReconcileAccounts
  import opened TraceFacts

  // --------------------------------------------------------------- for every world

  function MarkOf(u: Id): Action {
    Action.Edit(Edit.MarkExpirySynced(u))
  }

  lemma MarkIsStored(w: World, u: Id)
    requires UserLive(w.db, u)
    ensures MarkedAt(Exec(w, MarkOf(u)).db, u, w.db.now)
  {
  }

  /** What a stored mark does when the agent still holds the user: the user stays, and is not pending. */
  lemma MarkHidesUser(w: World, u: Id, n: Id)
    requires Reachable(w) && Pending(w.db, u) && u in AgentAt(w, n).users
    ensures var w' := Exec(w, MarkOf(u));
      Reachable(w') && !Pending(w'.db, u) && u in AgentAt(w', n).users
  {
    ExecKeepsReachable(w, MarkOf(u));
  }

  /** Nor will it be, whatever happens, until the expiry is moved beyond the mark and comes again. */
  lemma MarkHidesForever(w: World, u: Id, acts: seq<Action>)
    requires UserLive(w.db, u) && Pending(Play(Exec(w, MarkOf(u)), acts).db, u)
    ensures w.db.now < Play(Exec(w, MarkOf(u)), acts).db.users[u].expiresAt.value
  {
    MarkIsStored(w, u);
    MarkOutlastsItsExpiry(Exec(w, MarkOf(u)), acts, u, w.db.now);
  }

  // ------------------------------------------------------------------ the start

  const USER: Id := "u"
  const NODE: Id := "n"
  const EXPIRY := 5
  const SMOOTHLY := Choice(Committed, Answered(true), 0)

  /** One user with an expiry to come, assigned to one node that has never been synced. */
  function Origin(): World {
    World(
      Db(0, map[USER := UserRow(true, true, Some(EXPIRY), None, 0)],
         map[NODE := NodeRow(true, "agent", "node", "http://agent", "naive", true, Connected, OkStatus, 0, 0)],
         map[(USER, NODE) := AccessRow("naive", "name", "secret", true)], []),
      map[], [], [], [], 0)
  }

  lemma OriginIsStart()
    ensures Start(Origin()) && NodeLive(Origin().db, NODE) && USER in ActiveAccess(Origin().db, NODE)
  {
  }

  /** The only user is live and enabled, unmarked and assigned. */
  predicate OneUser(db: Db) {
    && db.users == map[USER := UserRow(true, true, Some(EXPIRY), None, 0)]
    && db.access.Keys == {(USER, NODE)} && db.access[(USER, NODE)].enabled
    && NodeLive(db, NODE) && db.nodes[NODE].apiUrl != ""
  }

  lemma Then(w0: World, first: seq<Action>, w: World, second: seq<Action>)
    requires Play(w0, first) == w
    ensures Play(w0, first + second) == Play(w, second)
  {
    PlayConcat(w0, first, second);
  }

  function TickOf(): Action {
    Action.Edit(Tick(EXPIRY))
  }

  lemma TickExpires(w: World)
    requires OneUser(w.db) && w.db.now >= 0
    ensures var w' := Exec(w, TickOf());
      && OneUser(w'.db) && Pending(w'.db, USER) && Lapsed(w'.db, USER, EXPIRY)
      && w'.agents == w.agents && w'.runs == w.runs && w'.net == w.net
  {
  }

  // ------------------------------------------------------------- a failed lookup

  // The one pending row, its failed lookup, no call, and the mark the code nevertheless makes.
  const GAP_ROWS := [Candidate(USER, UserRow(true, true, Some(EXPIRY), None, 0))]
  const GAP_JOURNAL := Journal([Lookup(USER, None)], [], [Mark(USER, Committed)])
  const GAP_REPORT := Report(1, 0, 0, 1, [LookupFailed(USER)])

  lemma GapAccounts(db: Db)
    requires OneUser(db) && Pending(db, USER)
    ensures Listing(GAP_ROWS, db) && Accounts(GAP_ROWS, db.now, GAP_JOURNAL, GAP_REPORT)
  {
    var rows, lookups := GAP_ROWS, GAP_JOURNAL.lookups;
    forall u | Pending(db, u)
      ensures exists i :: 0 <= i < |rows| && rows[i].id == u
    {
      assert rows[0].id == USER;
    }
    assert rows[..0] == [] && lookups[..0] == [] && GAP_JOURNAL.marks[..0] == [];
    assert NeedsExpirySync(rows[0].row, db.now) && Found(rows, db.now) == [USER];
    assert UsersOf(lookups) == [USER] && UsersMarked(GAP_JOURNAL.marks) == [USER];
    assert MarksDue(lookups, FailedNodes([])) == [USER];
    assert LookupErrors(lookups) == [LookupFailed(USER)] && MarkErrors(GAP_JOURNAL.marks) == [];
  }

  lemma SyncedOrigin()
    ensures var w := Play(Origin(), Solo(Origin(), NODE, SMOOTHLY, 11));
      OneUser(w.db) && w.db.now == 0 && USER in AgentAt(w, NODE).users
  {
    OriginIsStart();
    SoloSyncSucceeds(Origin(), NODE, SMOOTHLY);
  }

  /**
   * The first gap, at a concrete input.  The user is synced to the agent, expires, is listed, and its
   * lookup fails.  The books of the run are as the code keeps them: no node is called and the user is
   * marked.  Afterwards it is not pending, while its agent, a reachable node it is assigned to, still
   * holds it.
   */
  lemma FailedLookupKeepsAccess() returns (acts: seq<Action>)
    ensures Start(Origin())
    ensures var w := Play(Origin(), acts);
      && Listing(GAP_ROWS, w.db) && Accounts(GAP_ROWS, w.db.now, GAP_JOURNAL, GAP_REPORT)
      && NODE in EnabledNodes(w.db, USER)
      && (var w' := Exec(w, MarkOf(USER));
          Reachable(w') && !Pending(w'.db, USER) && NODE in EnabledNodes(w'.db, USER)
          && USER in AgentAt(w', NODE).users)
  {
    var sync := Solo(Origin(), NODE, SMOOTHLY, 11);
    var w1 := Play(Origin(), sync);
    OriginIsStart();
    SyncedOrigin();
    TickExpires(w1);
    acts := sync + [TickOf()];
    Then(Origin(), sync, w1, [TickOf()]);
    PlayOne(w1, TickOf());
    StartIsReachable(Origin());
    PlayKeepsReachable(Origin(), acts);
    GapWorld(Play(Origin(), acts));
  }

  lemma GapWorld(w: World)
    requires Reachable(w) && OneUser(w.db) && Pending(w.db, USER) && USER in AgentAt(w, NODE).users
    ensures Listing(GAP_ROWS, w.db) && Accounts(GAP_ROWS, w.db.now, GAP_JOURNAL, GAP_REPORT)
    ensures NODE in EnabledNodes(w.db, USER)
    ensures var w' := Exec(w, MarkOf(USER));
      && Reachable(w') && !Pending(w'.db, USER) && NODE in EnabledNodes(w'.db, USER)
      && USER in AgentAt(w', NODE).users
  {
    GapAccounts(w.db);
    MarkHidesUser(w, USER, NODE);
  }

  // ------------------------------------------------------------- the list of a retry

  /** From a world in which a first attempt waits for its reply, by way of an agent that has moved on. */
  lemma OvertakenAttempt(w: World, r: nat, c: Choice, n: Id) returns (acts: seq<Action>)
    requires Posted(w, r, n) && w.runs[r].pc.job.mayRetry && Smooth(c)
    requires w.runs[r].pc.job.version >= 0 && AgentAt(w, n).version >= 0
    ensures var w' := Play(w, acts);
      && Around(w, w', r, n)
      && w'.runs[r].pc.RetryBumping? && w'.runs[r].pc.users == w.runs[r].pc.job.users
  {
    var move := AgentMoves(n, w.runs[r].pc.job.version);
    var w1 := Exec(w, move);
    MoveIsAround(w, r, n, w.runs[r].pc.job.version);
    var w2, w3 := Walk(w1, r, c, 3), Walk(w1, r, c, 5);
    assert c == Choice(Committed, Answered(true), c.reported);
    EveryReply(w1, r, n, Answered(true), c.reported);
    RetryToBump(w2, r, n, c);
    WalkOn(w1, r, c, 3, 2);
    AroundTransitive(w, w1, w2, r, n);
    AroundTransitive(w, w2, w3, r, n);
    acts := [move] + Steps(r, c, 5);
    PlayPrepend(w, move, Steps(r, c, 5));
  }

  lemma MoveIsAround(w: World, r: nat, n: Id, delta: nat)
    requires r < |w.runs| && w.runs[r].node == n && NodeLive(w.db, n)
    ensures var w' := Exec(w, AgentMoves(n, delta));
      && Around(w, w', r, n) && w'.runs == w.runs && w'.net == w.net
      && AgentAt(w', n).version == AgentAt(w, n).version + delta
  {
  }

  /** A run that has sent its first payload, from the start. */
  lemma FirstAttempt()
    ensures var w := Play(Origin(), Solo(Origin(), NODE, SMOOTHLY, 8));
      && OneUser(w.db) && w.db.now == 0 && |w.runs| == 1 && w.runs[0].node == NODE
      && Posted(w, 0, NODE) && w.runs[0].pc.job.mayRetry && USER in w.runs[0].pc.job.users
      && w.runs[0].pc.job.version >= 0 && AgentAt(w, NODE).version >= 0
  {
    var w0, w1 := Origin(), Exec(Origin(), Begin(NODE, false));
    OriginIsStart();
    BeginIsFresh(w0, NODE);
    SoloIsWalk(w0, NODE, SMOOTHLY, 8);
    var a := Walk(w1, 0, SMOOTHLY, 4);
    StatusPhase(w1, 0, SMOOTHLY, NODE);
    WalkOn(w1, 0, SMOOTHLY, 4, 4);
    SendPhase(a, 0, SMOOTHLY, NODE);
    ActiveAccessAround(w1, a, 0, NODE);
    AroundTransitive(w1, a, Walk(w1, 0, SMOOTHLY, 8), 0, NODE);
  }

  /** A retry about to be sent with the user in its list, after the user has expired. */
  ghost predicate OldListWaits(w: World) {
    && OneUser(w.db) && Pending(w.db, USER) && Lapsed(w.db, USER, EXPIRY)
    && |w.runs| >= 1 && w.runs[0].node == NODE && w.runs[0].pc.RetryBumping? && USER in w.runs[0].pc.users
  }

  lemma OldListComesToWait() returns (acts: seq<Action>)
    ensures OldListWaits(Play(Origin(), acts))
  {
    var first := Solo(Origin(), NODE, SMOOTHLY, 8);
    var w1 := Play(Origin(), first);
    FirstAttempt();
    var second := OvertakenAttempt(w1, 0, SMOOTHLY, NODE);
    var w2 := Play(w1, second);
    TickExpires(w2);
    PlayOne(w2, TickOf());
    Then(Origin(), first, w1, second);
    Then(Origin(), first + second, w2, [TickOf()]);
    acts := first + second + [TickOf()];
  }

  // The books of a run in which everything succeeds.
  const SYNC_JOURNAL := Journal([Lookup(USER, Some([NODE]))], [Call(NODE, true)], [Mark(USER, Committed)])
  const SYNC_REPORT := Report(1, 1, 1, 1, [])

  lemma SyncAccounts(db: Db)
    requires OneUser(db) && Pending(db, USER)
    ensures Listing(GAP_ROWS, db) && Accounts(GAP_ROWS, db.now, SYNC_JOURNAL, SYNC_REPORT)
    ensures EnabledNodes(db, USER) == {NODE}
  {
    GapAccounts(db);
    var lookups, calls := SYNC_JOURNAL.lookups, SYNC_JOURNAL.calls;
    assert lookups[..0] == [] && calls[..0] == [] && SYNC_JOURNAL.marks[..0] == [];
    assert Wants(lookups[0], NODE) && forall n :: Wanted(lookups, n) ==> n == NODE;
    assert NodesCalled(calls) == [NODE] && FailedNodes(calls) == {};
    assert UsersOf(lookups) == [USER] && UsersMarked(SYNC_JOURNAL.marks) == [USER] == MarksDue(lookups, {});
    assert LookupErrors(lookups) == [] && CallErrors(calls) == [] && MarkErrors(SYNC_JOURNAL.marks) == [];
  }

  /** The user is live, enabled and marked, the agent does not hold it, and the retry still waits. */
  ghost predicate MarkedButHot(w: World) {
    && w.db.users == map[USER := UserRow(true, true, Some(EXPIRY), Some(w.db.now), 0)] && EXPIRY <= w.db.now
    && USER !in AgentAt(w, NODE).users
    && |w.runs| >= 1 && w.runs[0].node == NODE && Hot(w, w.runs[0], USER, AgentAt(w, NODE).version)
  }

  lemma MarkWhileHot(w: World)
    requires OneUser(w.db) && Pending(w.db, USER) && USER !in AgentAt(w, NODE).users
    requires |w.runs| >= 1 && w.runs[0].node == NODE && w.runs[0].pc.RetryBumping? && USER in w.runs[0].pc.users
    ensures MarkedButHot(Exec(w, MarkOf(USER)))
  {
  }

  lemma OneUserAfterSync(w: World)
    requires OldListWaits(w)
    ensures var w' := Play(w, Solo(w, NODE, SMOOTHLY, 11));
      && OneUser(w'.db) && Pending(w'.db, USER) && USER !in AgentAt(w', NODE).users
      && |w'.runs| == |w.runs| + 1 && w'.runs[0] == w.runs[0] && w'.runs[|w.runs|].pc.Done?
  {
    SoloSyncSucceeds(w, NODE, SMOOTHLY);
    KeepsRun(w, NODE, SMOOTHLY, 0);
    LapsedIsNotActive(w.db, USER, NODE, EXPIRY);
  }

  /** Meanwhile a whole sync succeeds without the user, and the user is marked. */
  function SyncAndMark(w: World): seq<Action> {
    Solo(w, NODE, SMOOTHLY, 11) + [MarkOf(USER)]
  }

  lemma SyncedAndMarked(w: World)
    requires OldListWaits(w)
    ensures MarkedButHot(Play(w, SyncAndMark(w)))
  {
    var sync := Solo(w, NODE, SMOOTHLY, 11);
    var w1 := Play(w, sync);
    OneUserAfterSync(w);
    MarkWhileHot(w1);
    Then(w, sync, w1, [MarkOf(USER)]);
    PlayOne(w1, MarkOf(USER));
  }

  lemma Slices(first: seq<Action>, sync: seq<Action>, more: seq<Action>)
    requires sync != []
    ensures var acts, m := first + (sync + more), |first| + |sync|;
      && acts[..|first|] == first && acts[..m] == first + sync && acts[|first|] == sync[0]
      && (more != [] ==> acts[|acts| - 1] == more[|more| - 1])
  {
  }

  lemma DoneIsSync(origin: World, acts: seq<Action>, k: nat, m: nat, w: World, w': World, n: Id)
    requires k < m <= |acts| && acts[k] == Begin(n, false)
    requires w == Play(origin, acts[..k]) && w' == Play(origin, acts[..m])
    requires |w.runs| < |w'.runs| && w'.runs[|w.runs|].pc.Done?
    ensures SyncedSince(origin, acts, k, n)
  {
    assert SyncAt(origin, acts, k, m, n);
  }

  lemma SoloIsDone(w: World, n: Id, c: Choice)
    requires NodeLive(w.db, n) && Smooth(c)
    ensures var w' := Play(w, Solo(w, n, c, 11));
      |w.runs| < |w'.runs| && w'.runs[|w.runs|].pc.Done?
  {
    SoloSyncSucceeds(w, n, c);
  }

  /** An undisturbed sync in the middle of a trace is a successful sync since it began. */
  lemma SoloIsSync(origin: World, first: seq<Action>, w: World, n: Id, c: Choice, more: seq<Action>)
    requires Play(origin, first) == w && NodeLive(w.db, n) && Smooth(c)
    ensures SyncedSince(origin, first + (Solo(w, n, c, 11) + more), |first|, n)
  {
    var sync := Solo(w, n, c, 11);
    Slices(first, sync, more);
    SoloIsDone(w, n, c);
    Then(origin, first, w, sync);
    DoneIsSync(origin, first + (sync + more), |first|, |first| + |sync|, w, Play(w, sync), n);
  }

  lemma HotIsUnclean(w: World, r: nat, u: Id, n: Id, t: int)
    requires r < |w.runs| && w.runs[r].node == n && Hot(w, w.runs[r], u, AgentAt(w, n).version)
    ensures !Clean(w, u, n, t)
  {
  }

  lemma StaysMarked(w: World, acts: seq<Action>)
    requires MarkedButHot(w) && EditFree(acts)
    ensures !Pending(Play(w, acts).db, USER)
  {
    MarkOutlastsItsExpiry(w, acts, USER, EXPIRY);
    RowLeftAlone(w, acts, USER);
  }

  /** What the reconciler does from position `from` on: it lists the expired user, and all it does succeeds. */
  ghost predicate Reconciled(origin: World, acts: seq<Action>, from: nat) {
    && from < |acts| && OneUser(Play(origin, acts[..from]).db) && Pending(Play(origin, acts[..from]).db, USER)
    && ListedAt(origin, acts, from, GAP_ROWS)
    && SawAt(origin, acts, from, SYNC_JOURNAL.lookups[0])
    && Accounts(GAP_ROWS, Play(origin, acts[..from]).db.now, SYNC_JOURNAL, SYNC_REPORT)
    && SyncedSince(origin, acts, from, NODE)
    && acts[|acts| - 1] == MarkOf(USER)
  }

  lemma SucceedsFrom(origin: World, acts: seq<Action>, from: nat, w: World)
    requires from < |acts| && w == Play(origin, acts[..from]) && OneUser(w.db) && Pending(w.db, USER)
    requires SyncedSince(origin, acts, from, NODE) && acts[|acts| - 1] == MarkOf(USER)
    ensures Reconciled(origin, acts, from)
  {
    SyncAccounts(w.db);
  }

  lemma StoryOf(origin: World, first: seq<Action>, sync: seq<Action>, w: World)
    requires w == Play(origin, first) && OneUser(w.db) && Pending(w.db, USER) && sync != []
    requires SyncedSince(origin, first + (sync + [MarkOf(USER)]), |first|, NODE)
    ensures Reconciled(origin, first + (sync + [MarkOf(USER)]), |first|)
  {
    var acts := first + (sync + [MarkOf(USER)]);
    Slices(first, sync, [MarkOf(USER)]);
    SucceedsFrom(origin, acts, |first|, w);
  }

  lemma ReconciledStory(origin: World, first: seq<Action>, w: World)
    requires OldListWaits(w) && w == Play(origin, first)
    ensures Reconciled(origin, first + SyncAndMark(w), |first|)
  {
    SoloIsSync(origin, first, w, NODE, SMOOTHLY, [MarkOf(USER)]);
    StoryOf(origin, first, Solo(w, NODE, SMOOTHLY, 11), w);
  }

  /**
   * The second gap, at a concrete input.  A first attempt is overtaken and waits to send its list again;
   * the user expires; the reconciler lists it, syncs its one node without a failure and marks it.  The
   * live, enabled user is marked and its agent does not hold it, yet the world is not clean: by steps of
   * runs alone the user comes back, and is not pending.
   */
  lemma RetryBringsUserBack() returns (acts: seq<Action>, from: nat, rest: seq<Action>)
    ensures Start(Origin()) && Reconciled(Origin(), acts, from)
    ensures var w := Play(Origin(), acts);
      && w.db.users == map[USER := UserRow(true, true, Some(EXPIRY), Some(w.db.now), 0)]
      && MarkedAt(w.db, USER, EXPIRY) && !Pending(w.db, USER) && USER !in AgentAt(w, NODE).users
      && Lapsed(w.db, USER, EXPIRY) && !Clean(w, USER, NODE, EXPIRY)
    ensures EditFree(rest)
    ensures var w' := Play(Play(Origin(), acts), rest);
      USER in AgentAt(w', NODE).users && !Pending(w'.db, USER)
  {
    var first := OldListComesToWait();
    var w1 := Play(Origin(), first);
    from, acts := |first|, first + SyncAndMark(w1);
    ReconciledStory(Origin(), first, w1);
    SyncedAndMarked(w1);
    Then(Origin(), first, w1, SyncAndMark(w1));
    OriginIsStart();
    StartIsReachable(Origin());
    PlayKeepsReachable(Origin(), acts);
    HotIsUnclean(Play(Origin(), acts), 0, USER, NODE, EXPIRY);
    rest := UncleanRevives(Play(Origin(), acts), USER, NODE, EXPIRY);
    StaysMarked(Play(Origin(), acts), rest);
  }

  // ------------------------------------------------------------ a panel clock that is behind

  /**
   * The third gap, at a concrete input: with the panel's clock one tick behind, a run over the listed
   * user finds nobody, reports no error, and leaves it pending.
   */
  lemma ClockBehindSkipsUser() returns (acts: seq<Action>)
    ensures Start(Origin())
    ensures var db := Play(Origin(), acts).db;
      && Listing(GAP_ROWS, db) && Pending(db, USER)
      && Found(GAP_ROWS, db.now - 1) == []
      && Accounts(GAP_ROWS, db.now - 1, Journal([], [], []), Report(0, 0, 0, 0, []))
  {
    OriginIsStart();
    acts := [TickOf()];
    PlayOne(Origin(), TickOf());
    TickExpires(Origin());
    var db := Play(Origin(), acts).db;
    GapAccounts(db);
    assert GAP_ROWS[..0] == [] && !NeedsExpirySync(GAP_ROWS[0].row, db.now - 1);
    assert Found(GAP_ROWS, db.now - 1) == [];
  }
}
