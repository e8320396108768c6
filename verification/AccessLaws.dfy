/**
 * Who is on a node's list: what each edit does to it, and when an edit has reached the agent.
 *
 * Together the laws say how the list that `SyncNode` sends moves with every edit, starting from tables
 * without assignments, in which every list is empty.
 */
module AccessLaws {
  import opened Prelude
  import opened Database
  import opened SyncProtocol
  import opened SyncVersions
  import opened SyncSolo
  import opened SyncQuiet

  predicate Unexpired(expiresAt: Option<int>, now: int) {
    expiresAt.None? || now < expiresAt.value
  }

  // -------------------------------------------------------------- edits that take a user off

  /** Switching the user off, deleting it, unassigning it, or switching its assignment off. */
  predicate TakesOff(e: Edit, u: Id, n: Id) {
    || e == SetUserEnabled(u, false) || e == DeleteUser(u)
    || e == UnassignNode(u, n) || e == SetAccessEnabled(u, n, false)
    || (e.UpdateUser? && e.user == u && !e.enabled)
  }

  lemma TakenOff(db: Db, e: Edit, u: Id, n: Id)
    requires ProtocolsAgree(db) && TakesOff(e, u, n)
    ensures u !in ActiveAccess(Edited(db, e), n)
  {
  }

  /** Time takes off exactly the users whose expiry it passes. */
  lemma TickTakesOff(db: Db, delta: nat, n: Id)
    ensures var list, list' := ActiveAccess(db, n), ActiveAccess(Edited(db, Tick(delta)), n);
      forall u :: u in list' <==> u in list && Unexpired(list[u].expiresAt, db.now + delta)
    ensures var list, list' := ActiveAccess(db, n), ActiveAccess(Edited(db, Tick(delta)), n);
      forall u :: u in list' && u in list ==> list'[u] == list[u]
  {
  }

  /** Lists are empty where there are no assignments, and for a node that is deleted. */
  lemma EmptyLists(db: Db, n: Id)
    ensures db.access == map[] ==> ActiveAccess(db, n) == map[]
    ensures NodeLive(db, n) ==> ActiveAccess(Edited(db, DeleteNode(n)), n) == map[]
  {
  }

  // ---------------------------------------------------------- edits that put a user on or alter it

  /**
   * An assignment that the constraints let through puts the user on the list exactly if the user is
   * enabled and has not expired, with exactly the given credentials and the user's expiry and quota.
   */
  lemma Assigned(db: Db, u: Id, n: Id, protocol: string, username: string, password: string)
    requires UserLive(db, u) && NodeLive(db, n) && KnownProtocol(protocol) && db.nodes[n].protocol == protocol
    ensures var list, row := ActiveAccess(Edited(db, AssignNode(u, n, protocol, username, password)), n), db.users[u];
      && (u in list <==> row.enabled && Unexpired(row.expiresAt, db.now))
      && (u in list ==> list[u] == Grant(username, password, row.expiresAt, row.quota))
  {
  }

  /** An assignment that the constraints refuse changes no list. */
  lemma RefusedAssignment(db: Db, u: Id, n: Id, m: Id, protocol: string, username: string, password: string)
    requires !UserLive(db, u) || !NodeLive(db, n) || !KnownProtocol(protocol) || db.nodes[n].protocol != protocol
    ensures ActiveAccess(Edited(db, AssignNode(u, n, protocol, username, password)), m) == ActiveAccess(db, m)
  {
  }

  /** A created user is on no list; its expiry and quota are those its first assignment shows. */
  lemma CreatedThenAssigned(db: Db, u: Id, enabled: bool, expiresAt: Option<int>, quota: int,
                            n: Id, protocol: string, username: string, password: string)
    requires ProtocolsAgree(db) && u !in db.users
    requires NodeLive(db, n) && KnownProtocol(protocol) && db.nodes[n].protocol == protocol
    ensures var db1 := Edited(db, CreateUser(u, enabled, expiresAt, quota));
      var list := ActiveAccess(Edited(db1, AssignNode(u, n, protocol, username, password)), n);
      && (forall m :: u !in ActiveAccess(db1, m))
      && (u in list <==> enabled && Unexpired(expiresAt, db.now))
      && (u in list ==> list[u] == Grant(username, password, expiresAt, quota))
  {
    var db1 := Edited(db, CreateUser(u, enabled, expiresAt, quota));
    Assigned(db1, u, n, protocol, username, password);
  }

  /** Updating a user that is on the list keeps its credentials and replaces expiry and quota. */
  lemma Updated(db: Db, u: Id, n: Id, enabled: bool, expiresAt: Option<int>, quota: int)
    requires u in ActiveAccess(db, n)
    ensures var list, e := ActiveAccess(db, n), UpdateUser(u, enabled, expiresAt, quota);
      var list' := ActiveAccess(Edited(db, e), n);
      && (u in list' <==> enabled && Unexpired(expiresAt, db.now))
      && (u in list' ==> list'[u] == list[u].(expiresAt := expiresAt, quota := quota))
  {
  }

  /** It does not matter whether a live user is altered before or after an assignment. */
  lemma AlterThenAssign(db: Db, e: Edit, u: Id, n: Id, protocol: string, username: string, password: string)
    requires UserLive(db, u) && (e.UpdateUser? || e.SetUserEnabled?) && e.user == u
    ensures var assign := AssignNode(u, n, protocol, username, password);
      Edited(Edited(db, assign), e) == Edited(Edited(db, e), assign)
  {
  }

  /** An assignment just made is on; one that is switched off comes on with the next assignment too. */
  lemma AssignedIsOn(db: Db, u: Id, n: Id, enabled: bool, protocol: string, username: string, password: string)
    requires UserLive(db, u) && NodeLive(db, n) && KnownProtocol(protocol) && db.nodes[n].protocol == protocol
    ensures var assign := AssignNode(u, n, protocol, username, password);
      && Edited(Edited(db, assign), SetAccessEnabled(u, n, true)) == Edited(db, assign)
      && Edited(Edited(db, SetAccessEnabled(u, n, enabled)), assign) == Edited(db, assign)
  {
    var db1 := Edited(db, AssignNode(u, n, protocol, username, password));
    assert db1.access[(u, n) := db1.access[(u, n)]] == db1.access;
  }

  /** Switching a user, or one assignment, off and on again restores the tables if it was on. */
  lemma OffAndOn(db: Db, u: Id, n: Id)
    requires ProtocolsAgree(db) && u in ActiveAccess(db, n)
    ensures Edited(Edited(db, SetUserEnabled(u, false)), SetUserEnabled(u, true)) == db
    ensures Edited(Edited(db, SetAccessEnabled(u, n, false)), SetAccessEnabled(u, n, true)) == db
  {
    var db1 := Edited(db, SetUserEnabled(u, false));
    assert db1.users[u := db.users[u]] == db.users;
    var db2 := Edited(db, SetAccessEnabled(u, n, false));
    assert db2.access[(u, n) := db.access[(u, n)]] == db.access;
  }

  // ---------------------------------------------------------------------- what stays as it was

  /** The edit concerns the user, on every node or on this one. */
  predicate Concerns(e: Edit, u: Id, n: Id) {
    match e
    case Tick(_) => true
    case CreateUser(v, _, _, _) => v == u
    case UpdateUser(v, _, _, _) => v == u
    case SetUserEnabled(v, _) => v == u
    case DeleteUser(v) => v == u
    case AssignNode(v, m, _, _, _) => v == u && m == n
    case UnassignNode(v, m) => v == u && m == n
    case SetAccessEnabled(v, m, _) => v == u && m == n
    case DeleteNode(m) => m == n
    case CreateNode(_, _) => false
    case UpdateNode(_, _, _, _, _, _) => false
    case MarkExpirySynced(_) => false
  }

  ghost predicate EntryKept(db: Db, db': Db, u: Id, n: Id) {
    var list, list' := ActiveAccess(db, n), ActiveAccess(db', n);
    && (u in list <==> u in list')
    && (u in list ==> list'[u] == list[u])
  }

  predicate OfUsers(e: Edit) {
    e.CreateUser? || e.UpdateUser? || e.SetUserEnabled? || e.DeleteUser? || e.MarkExpirySynced?
  }

  lemma UserEditKeepsEntry(db: Db, e: Edit, u: Id, n: Id)
    requires !Concerns(e, u, n) && OfUsers(e)
    ensures EntryKept(db, Edited(db, e), u, n)
  {
  }

  lemma OtherEditKeepsEntry(db: Db, e: Edit, u: Id, n: Id)
    requires !Concerns(e, u, n) && !OfUsers(e)
    ensures EntryKept(db, Edited(db, e), u, n)
  {
  }

  /** No edit of one user changes the entry of another, and no edit of one assignment that on another node. */
  lemma OtherEntriesKept(db: Db, e: Edit, u: Id, n: Id)
    requires !Concerns(e, u, n)
    ensures EntryKept(db, Edited(db, e), u, n)
  {
    if OfUsers(e) {
      UserEditKeepsEntry(db, e, u, n);
    } else {
      OtherEditKeepsEntry(db, e, u, n);
    }
  }

  // ------------------------------------------------------------------------ up to the agent

  lemma {:induction false} ListKept(w: World, acts: seq<Action>, n: Id)
    requires AllQuiet(w, acts, n)
    ensures ActiveAccess(Play(w, acts).db, n) == ActiveAccess(w.db, n)
  {
    if acts != [] {
      var init, a := acts[..|acts| - 1], acts[|acts| - 1];
      forall k | 0 <= k < |init|
        ensures Quiet(Play(w, init[..k]), init[k], n)
      {
        assert init[..k] == acts[..k];
        assert Quiet(Play(w, acts[..k]), acts[k], n);
      }
      ListKept(w, init, n);
      assert Quiet(Play(w, acts[..|acts| - 1]), a, n);
      AccessKept(Play(w, init), a, n);
    }
  }

  /** A sync begun after an edit that nothing else at the node overlaps, and that is done. */
  ghost predicate SyncedAfter(w: World, e: Edit, acts: seq<Action>, n: Id) {
    var w1 := Exec(Exec(w, Action.Edit(e)), Begin(n, false));
    && OthersHarmless(w, |w.runs|, n) && AllQuiet(w1, acts, n)
    && |w.runs| < |Play(w1, acts).runs| && Play(w1, acts).runs[|w.runs|].pc.Done?
  }

  ghost function AgentUsers(w: World, e: Edit, acts: seq<Action>, n: Id): map<Id, Grant> {
    AgentAt(Play(Exec(Exec(w, Action.Edit(e)), Begin(n, false)), acts), n).users
  }

  /**
   * An edit reaches the agent with the next sync that nothing else at the node overlaps, whatever happens
   * elsewhere: the agent then holds exactly the list the edit left.
   */
  lemma EditReachesAgent(w: World, e: Edit, acts: seq<Action>, n: Id)
    requires Reachable(w) && SyncedAfter(w, e, acts, n)
    ensures AgentUsers(w, e, acts, n) == ActiveAccess(Edited(w.db, e), n)
  {
    var w0 := Exec(w, Action.Edit(e));
    ExecKeepsReachable(w, Action.Edit(e));
    assert w0.runs == w.runs;
    QuietSyncConverges(w0, acts, n);
    ListKept(Exec(w0, Begin(n, false)), acts, n);
  }

  /** So a user who was taken off is gone from the agent. */
  lemma TakenOffReachesAgent(w: World, e: Edit, acts: seq<Action>, u: Id, n: Id)
    requires Reachable(w) && SyncedAfter(w, e, acts, n) && TakesOff(e, u, n)
    ensures u !in AgentUsers(w, e, acts, n)
  {
    EditReachesAgent(w, e, acts, n);
    TakenOff(w.db, e, u, n);
  }

  /** And a user who was assigned can log in there with exactly the credentials it was given. */
  lemma AssignedReachesAgent(w: World, acts: seq<Action>, u: Id, n: Id, protocol: string, username: string,
                             password: string)
    requires Reachable(w) && SyncedAfter(w, AssignNode(u, n, protocol, username, password), acts, n)
    requires UserLive(w.db, u) && NodeLive(w.db, n) && KnownProtocol(protocol) && w.db.nodes[n].protocol == protocol
    ensures var held, row := AgentUsers(w, AssignNode(u, n, protocol, username, password), acts, n), w.db.users[u];
      && (u in held <==> row.enabled && Unexpired(row.expiresAt, w.db.now))
      && (u in held ==> held[u] == Grant(username, password, row.expiresAt, row.quota))
  {
    EditReachesAgent(w, AssignNode(u, n, protocol, username, password), acts, n);
    Assigned(w.db, u, n, protocol, username, password);
  }

  ghost predicate HoldsAfterSolo(w: World, n: Id, c: Choice, users: map<Id, Grant>) {
    var w' := Play(w, Solo(w, n, c, 11));
    && |w.runs| < |w'.runs| && w'.runs[|w.runs|].pc.Done? && AgentAt(w', n).users == users
  }

  lemma SoloHolds(w: World, db: Db, n: Id, c: Choice)
    requires w.db == db && NodeLive(db, n) && Smooth(c)
    ensures HoldsAfterSolo(w, n, c, ActiveAccess(db, n))
  {
    SoloSyncSucceeds(w, n, c);
  }

  /** Nothing else is needed of the world when the sync runs undisturbed: it succeeds, and the edit has arrived. */
  lemma EditThenSolo(w: World, e: Edit, n: Id, c: Choice)
    requires NodeLive(Edited(w.db, e), n) && Smooth(c)
    ensures HoldsAfterSolo(Exec(w, Action.Edit(e)), n, c, ActiveAccess(Edited(w.db, e), n))
  {
    SoloHolds(Exec(w, Action.Edit(e)), Edited(w.db, e), n, c);
  }

  // ----------------------------------------------------- the lookup against the list

  /** The node is reachable, and was to be sent the user at some moment of the clock before the expiry. */
  ghost predicate WouldServe(db: Db, u: Id, n: Id) {
    && NodeLive(db, n) && db.nodes[n].apiUrl != "" && u in db.users
    && exists t :: Unexpired(db.users[u].expiresAt, t) && u in ActiveAccess(db.(now := t), n)
  }

  /**
   * The lookup of the reconciler and the list of `SyncNode` are two queries.  For a live, enabled user
   * the lookup names exactly the reachable nodes whose list the user is on at some moment before its
   * expiry, which is to say at every such moment.
   */
  lemma LookupCoversLists(db: Db, u: Id, n: Id)
    requires UserLive(db, u) && db.users[u].enabled
    ensures n in EnabledNodes(db, u) <==> WouldServe(db, u, n)
    ensures NodeLive(db, n) && db.nodes[n].apiUrl != "" ==>
      forall t :: Unexpired(db.users[u].expiresAt, t) ==>
        (n in EnabledNodes(db, u) <==> u in ActiveAccess(db.(now := t), n))
  {
    if n in EnabledNodes(db, u) {
      var t := if db.users[u].expiresAt.Some? then db.users[u].expiresAt.value - 1 else 0;
      assert Unexpired(db.users[u].expiresAt, t) && u in ActiveAccess(db.(now := t), n);
    }
  }

  /** No node outside the lookup would be sent the user at any time, whoever the user is. */
  lemma LookupMissesNone(db: Db, u: Id, n: Id)
    requires WouldServe(db, u, n)
    ensures n in EnabledNodes(db, u)
  {
  }

  /** A pending user is on no list any more, and was on those the lookup names until it expired. */
  lemma PendingHasDropped(db: Db, u: Id, n: Id)
    requires Pending(db, u)
    ensures u !in ActiveAccess(db, n)
    ensures NodeLive(db, n) && db.nodes[n].apiUrl != "" ==>
      (n in EnabledNodes(db, u) <==> u in ActiveAccess(db.(now := db.users[u].expiresAt.value - 1), n))
  {
    if NodeLive(db, n) && db.nodes[n].apiUrl != "" {
      LookupCoversLists(db, u, n);
    }
  }

  // ------------------------------------------------------------------------- coming due

  /** A new user comes due exactly if it is enabled, when its expiry has come. */
  lemma NewUserComesDue(db: Db, u: Id, enabled: bool, expiresAt: Option<int>, quota: int, delta: nat)
    requires u !in db.users
    ensures var db' := Edited(Edited(db, CreateUser(u, enabled, expiresAt, quota)), Tick(delta));
      Pending(db', u) <==> enabled && !Unexpired(expiresAt, db.now + delta)
  {
  }

  /** A marked user whose expiry is moved comes due again exactly if it was moved beyond the mark, when it has come. */
  lemma RenewedComesDue(db: Db, u: Id, enabled: bool, expiresAt: Option<int>, quota: int, delta: nat)
    requires UserLive(db, u)
    ensures var db1 := Edited(db, Edit.MarkExpirySynced(u));
      var db' := Edited(Edited(db1, UpdateUser(u, enabled, expiresAt, quota)), Tick(delta));
      Pending(db', u) <==>
        enabled && !Unexpired(expiresAt, db.now + delta) && db.now < expiresAt.value
  {
  }

  // ------------------------------------------------------------------------- new and deleted nodes

  lemma NewNode(w: World, n: Id, row: NodeRow)
    requires n !in w.db.nodes && n in Edited(w.db, CreateNode(n, row)).nodes
    ensures var w' := Exec(w, Action.Edit(CreateNode(n, row)));
      NodeLive(w'.db, n) && w'.db.nodes[n].desired == 0 && w'.agents == w.agents
  {
  }

  lemma FirstVersion(w: World, n: Id, c: Choice)
    requires NodeLive(w.db, n) && w.db.nodes[n].desired == 0 == AgentAt(w, n).version && Smooth(c)
    ensures var w' := Play(w, Solo(w, n, c, 11));
      && NodeLive(w'.db, n) && w'.db.nodes[n].desired == w'.db.nodes[n].applied == AgentAt(w', n).version == 1
  {
    SoloSyncSucceeds(w, n, c);
    assert NewVersion(w, n) == 1 && RecordedVersion(1, c) == 1;
  }

  /** The first undisturbed sync of a new node with a new agent sends version 1. */
  lemma FirstVersionIsOne(w: World, n: Id, row: NodeRow, c: Choice)
    requires n !in w.db.nodes && n in Edited(w.db, CreateNode(n, row)).nodes
    requires AgentAt(w, n).version == 0 && Smooth(c)
    ensures var w1 := Exec(w, Action.Edit(CreateNode(n, row)));
      var w2 := Play(w1, Solo(w1, n, c, 11));
      && NodeLive(w2.db, n) && w2.db.nodes[n].desired == w2.db.nodes[n].applied == AgentAt(w2, n).version == 1
  {
    NewNode(w, n, row);
    FirstVersion(Exec(w, Action.Edit(CreateNode(n, row))), n, c);
  }

  /** A deleted node takes its events with it, and leaves the events of other nodes. */
  lemma EventsGoWithNode(db: Db, n: Id, e: Event)
    requires NodeLive(db, n)
    ensures e in Edited(db, DeleteNode(n)).events <==> e in db.events && e.node != n
  {
    EventsOfOthersMembers(db.events, n);
  }
}
