/**
 * Versions are names: each version handed out for a node is handed out once, in
 * increasing order, and goes into at most one payload and at most one event,
 * whatever the interleaving.
 */
module SyncVersions {
  import opened Prelude
  import opened Database
  import opened SyncProtocol
  import opened SyncSafety

  ghost predicate BumpsIncrease(bumps: seq<Bump>) {
    forall i, j :: 0 <= i < j < |bumps| && bumps[i].node == bumps[j].node ==> bumps[i].version < bumps[j].version
  }

  ghost predicate PacketsDistinct(net: seq<Packet>) {
    forall i, j :: 0 <= i < j < |net| && net[i].node == net[j].node ==> net[i].version != net[j].version
  }

  ghost predicate EventsDistinct(events: seq<Event>) {
    forall i, j :: 0 <= i < j < |events| && events[i].node == events[j].node ==> events[i].version != events[j].version
  }

  /** `v` was handed out for `n`. */
  predicate Handed(w: World, n: Id, v: int) {
    Bump(n, v) in w.bumps
  }

  /** No other run, and no payload or event that would be a second use, names the version a run holds. */
  ghost predicate HoldsAlone(w: World, r: nat)
    requires r < |w.runs|
  {
    var n, held := w.runs[r].node, Held(w.runs[r].pc);
    held.Some? ==>
      && Handed(w, n, held.value)
      && (forall s :: 0 <= s < |w.runs| && s != r && w.runs[s].node == n ==> Held(w.runs[s].pc) != held)
      && (Unsent(w.runs[r].pc) ==>
            forall i :: 0 <= i < |w.net| && w.net[i].node == n ==> w.net[i].version != held.value)
      && (forall k :: 0 <= k < |w.db.events| && w.db.events[k].node == n ==> w.db.events[k].version != held.value)
  }

  ghost predicate WithinDesired(w: World) {
    && (forall k :: 0 <= k < |w.bumps| ==>
          w.bumps[k].node in w.db.nodes && w.bumps[k].version <= w.db.nodes[w.bumps[k].node].desired)
    && (forall i :: 0 <= i < |w.net| ==> Handed(w, w.net[i].node, w.net[i].version))
    && (forall k :: 0 <= k < |w.db.events| ==> Handed(w, w.db.events[k].node, w.db.events[k].version))
  }

  ghost predicate VersionsUnique(w: World) {
    && BumpsIncrease(w.bumps)
    && PacketsDistinct(w.net)
    && EventsDistinct(w.db.events)
    && WithinDesired(w)
    && (forall r :: 0 <= r < |w.runs| ==> HoldsAlone(w, r))
  }

  // --------------------------------------------------- the four kinds of run step

  predicate HandsOut(w: World, w': World, run: Run, run': Run) {
    && run.node in w.db.nodes && run.node in w'.db.nodes
    && Held(run'.pc) == Some(w.db.nodes[run.node].desired + 1)
    && w'.db.nodes[run.node].desired == w.db.nodes[run.node].desired + 1
    && w'.bumps == w.bumps + [Bump(run.node, w.db.nodes[run.node].desired + 1)]
    && w'.net == w.net && w'.db.events == w.db.events
  }

  predicate Sends(w: World, w': World, run: Run, run': Run) {
    && Unsent(run.pc) && !Unsent(run'.pc) && Held(run'.pc) == Held(run.pc) && Held(run.pc).Some?
    && |w'.net| == |w.net| + 1 && w'.net[..|w.net|] == w.net
    && w'.net[|w.net|].node == run.node && w'.net[|w.net|].version == Held(run.pc).value
    && w'.bumps == w.bumps && w'.db.events == w.db.events
  }

  predicate Logs(w: World, w': World, run: Run, run': Run) {
    && Held(run.pc).Some? && Held(run'.pc).None?
    && |w'.db.events| == |w.db.events| + 1 && w'.db.events[..|w.db.events|] == w.db.events
    && w'.db.events[|w.db.events|].node == run.node && w'.db.events[|w.db.events|].version == Held(run.pc).value
    && w'.bumps == w.bumps && w'.net == w.net
  }

  predicate KeepsNames(w: World, w': World, run: Run, run': Run) {
    && (Held(run'.pc).None? || (Held(run'.pc) == Held(run.pc) && (Unsent(run'.pc) ==> Unsent(run.pc))))
    && w'.bumps == w.bumps && w'.net == w.net && w'.db.events == w.db.events
  }

  ghost predicate NameStep(w: World, w': World, r: nat) {
    && r < |w.runs| && |w'.runs| == |w.runs|
    && (forall s :: 0 <= s < |w.runs| && s != r ==> w'.runs[s] == w.runs[s])
    && w'.runs[r].node == w.runs[r].node
    && DbLater(w.db, w'.db)
    && (|| HandsOut(w, w', w.runs[r], w'.runs[r])
        || Sends(w, w', w.runs[r], w'.runs[r])
        || Logs(w, w', w.runs[r], w'.runs[r])
        || KeepsNames(w, w', w.runs[r], w'.runs[r]))
  }

  lemma BumpingHandsOut(w: World, r: nat, c: Choice)
    requires r < |w.runs| && (w.runs[r].pc.Bumping? || w.runs[r].pc.RetryBumping?)
    ensures var w', run, run' := Advanced(w, r, c), w.runs[r], RunAfter(w, w.runs[r], c);
      HandsOut(w, w', run, run') || KeepsNames(w, w', run, run')
  {
  }

  lemma LoggingLogs(w: World, r: nat, c: Choice)
    requires r < |w.runs| && w.runs[r].pc.Logging?
    ensures var w', run, run' := Advanced(w, r, c), w.runs[r], RunAfter(w, w.runs[r], c);
      Logs(w, w', run, run') || KeepsNames(w, w', run, run')
  {
  }

  lemma AdvanceIsNameStep(w: World, r: nat, c: Choice)
    requires r < |w.runs|
    ensures NameStep(w, Advanced(w, r, c), r)
  {
    DbAfterGrows(w.db, w.runs[r], c);
    var w' := Advanced(w, r, c);
    var run, run' := w.runs[r], RunAfter(w, w.runs[r], c);
    assert w'.runs[r] == run' && run'.pc == NextPc(w, run, c);
    if run.pc.Sending? {
      assert Sends(w, w', run, run');
    } else if run.pc.Logging? {
      LoggingLogs(w, r, c);
    } else if run.pc.Bumping? || run.pc.RetryBumping? {
      BumpingHandsOut(w, r, c);
    } else {
      assert KeepsNames(w, w', run, run');
    }
  }

  // --------------------------------------------------------------- preservation

  lemma HandOutKeepsUnique(w: World, w': World, r: nat)
    requires VersionsUnique(w) && Bounded(w) && NameStep(w, w', r) && HandsOut(w, w', w.runs[r], w'.runs[r])
    ensures VersionsUnique(w')
  {
    var n, v := w.runs[r].node, w.db.nodes[w.runs[r].node].desired + 1;
    assert w'.bumps[|w.bumps|] == Bump(n, v);
    forall m, x | Handed(w, m, x)
      ensures Handed(w', m, x) && (m == n ==> x < v)
    {
    }
    forall s | 0 <= s < |w'.runs|
      ensures HoldsAlone(w', s)
    {
      assert HoldsAlone(w, s);
      if s != r && w.runs[s].node == n && Held(w.runs[s].pc).Some? {
        assert Handed(w, n, Held(w.runs[s].pc).value);
      }
    }
  }

  lemma SendKeepsUnique(w: World, w': World, r: nat)
    requires VersionsUnique(w) && NameStep(w, w', r) && Sends(w, w', w.runs[r], w'.runs[r])
    ensures VersionsUnique(w')
  {
    assert HoldsAlone(w, r);
    forall s | 0 <= s < |w'.runs|
      ensures HoldsAlone(w', s)
    {
      assert HoldsAlone(w, s);
    }
  }

  lemma LogKeepsUnique(w: World, w': World, r: nat)
    requires VersionsUnique(w) && NameStep(w, w', r) && Logs(w, w', w.runs[r], w'.runs[r])
    ensures VersionsUnique(w')
  {
    assert HoldsAlone(w, r);
    forall s | 0 <= s < |w'.runs|
      ensures HoldsAlone(w', s)
    {
      assert HoldsAlone(w, s);
    }
  }

  lemma KeepNamesKeepsUnique(w: World, w': World, r: nat)
    requires VersionsUnique(w) && NameStep(w, w', r) && KeepsNames(w, w', w.runs[r], w'.runs[r])
    ensures VersionsUnique(w')
  {
    forall s | 0 <= s < |w'.runs|
      ensures HoldsAlone(w', s)
    {
      assert HoldsAlone(w, s);
    }
  }

  lemma {:induction false} EventsOfOthersMembers(events: seq<Event>, n: Id)
    ensures forall e :: e in EventsOfOthers(events, n) <==> e in events && e.node != n
  {
    if events != [] {
      EventsOfOthersMembers(events[..|events| - 1], n);
      assert events == events[..|events| - 1] + [events[|events| - 1]];
    }
  }

  lemma {:induction false} EventsOfOthersDistinct(events: seq<Event>, n: Id)
    requires EventsDistinct(events)
    ensures EventsDistinct(EventsOfOthers(events, n))
  {
    if events != [] {
      var init, last := events[..|events| - 1], events[|events| - 1];
      EventsOfOthersDistinct(init, n);
      EventsOfOthersMembers(init, n);
      var rest := EventsOfOthers(init, n);
      forall i | 0 <= i < |rest| && rest[i].node == last.node
        ensures rest[i].version != last.version
      {
        assert rest[i] in init;
      }
    }
  }

  lemma EditKeepsEvents(db: Db, e: Edit)
    requires EventsDistinct(db.events)
    ensures EventsDistinct(Edited(db, e).events) && forall x :: x in Edited(db, e).events ==> x in db.events
  {
    if e.DeleteNode? {
      EventsOfOthersDistinct(db.events, e.node);
      EventsOfOthersMembers(db.events, e.node);
    }
  }

  lemma EditKeepsUnique(w: World, e: Edit)
    requires VersionsUnique(w)
    ensures VersionsUnique(Exec(w, Action.Edit(e)))
  {
    var w' := Exec(w, Action.Edit(e));
    EditGrows(w.db, e);
    EditKeepsEvents(w.db, e);
    forall k | 0 <= k < |w'.db.events|
      ensures Handed(w', w'.db.events[k].node, w'.db.events[k].version)
    {
      assert w'.db.events[k] in w.db.events;
    }
    forall s | 0 <= s < |w'.runs|
      ensures HoldsAlone(w', s)
    {
      assert HoldsAlone(w, s);
      forall k | 0 <= k < |w'.db.events|
        ensures w'.db.events[k] in w.db.events
      {
      }
    }
  }

  lemma IdleKeepsUnique(w: World, w': World)
    requires VersionsUnique(w) && w'.db == w.db && w'.net == w.net && w'.bumps == w.bumps && w.runs <= w'.runs
    requires forall s :: |w.runs| <= s < |w'.runs| ==> Held(w'.runs[s].pc).None?
    ensures VersionsUnique(w')
  {
    forall s | 0 <= s < |w'.runs|
      ensures HoldsAlone(w', s)
    {
      if s < |w.runs| {
        assert HoldsAlone(w, s);
      }
    }
  }

  lemma ExecKeepsUnique(w: World, a: Action)
    requires VersionsUnique(w) && Bounded(w)
    ensures VersionsUnique(Exec(w, a))
  {
    var w' := Exec(w, a);
    if a.Edit? {
      EditKeepsUnique(w, a.edit);
    } else if a.Advance? && a.run < |w.runs| {
      var r := a.run;
      AdvanceIsNameStep(w, r, a.choice);
      if HandsOut(w, w', w.runs[r], w'.runs[r]) {
        HandOutKeepsUnique(w, w', r);
      } else if Sends(w, w', w.runs[r], w'.runs[r]) {
        SendKeepsUnique(w, w', r);
      } else if Logs(w, w', w.runs[r], w'.runs[r]) {
        LogKeepsUnique(w, w', r);
      } else {
        KeepNamesKeepsUnique(w, w', r);
      }
    } else {
      IdleKeepsUnique(w, w');
    }
  }

  // ------------------------------------------------------------ what agents accept

  /** The payloads an agent took over: each was sent to it, and their versions rise. */
  ghost predicate AcceptedRise(w: World, n: Id) {
    var accepted := AgentAt(w, n).accepted;
    && (forall k :: 0 <= k < |accepted| ==>
          accepted[k] < |w.net| && w.net[accepted[k]].node == n && w.net[accepted[k]].version <= AgentAt(w, n).version)
    && (forall j, k :: 0 <= j < k < |accepted| ==> w.net[accepted[j]].version < w.net[accepted[k]].version)
  }

  ghost predicate AcceptedSent(w: World) {
    forall n :: AcceptedRise(w, n)
  }

  /** How an action may change one agent: not at all, or by one more payload sent to it, or upwards on its own. */
  predicate AgentStep(w: World, w': World, n: Id) {
    || AgentAt(w', n) == AgentAt(w, n)
    || (&& AgentAt(w', n).version >= AgentAt(w, n).version
        && AgentAt(w', n) == AgentAt(w, n).(version := AgentAt(w', n).version))
    || (exists i :: 0 <= i < |w.net| && w.net[i].node == n && AgentAt(w', n) == Delivered(AgentAt(w, n), w.net[i], i))
  }

  lemma ExecIsAgentStep(w: World, a: Action, n: Id)
    requires Bounded(w)
    ensures AgentStep(w, Exec(w, a), n)
    ensures w.net <= Exec(w, a).net
  {
    if a.Advance? && a.run < |w.runs| {
      assert RunBounded(w, w.runs[a.run]);
    }
  }

  lemma AgentStepKeepsAccepted(w: World, w': World, n: Id)
    requires AcceptedRise(w, n) && AgentStep(w, w', n) && w.net <= w'.net
    ensures AcceptedRise(w', n)
  {
    var accepted, accepted' := AgentAt(w, n).accepted, AgentAt(w', n).accepted;
    assert forall k :: 0 <= k < |accepted| ==> accepted[k] < |w.net| && w'.net[accepted[k]] == w.net[accepted[k]];
    assert accepted <= accepted' && |accepted'| <= |accepted| + 1;
  }

  lemma ExecKeepsAccepted(w: World, a: Action)
    requires AcceptedSent(w) && Bounded(w)
    ensures AcceptedSent(Exec(w, a))
  {
    forall n
      ensures AcceptedRise(Exec(w, a), n)
    {
      ExecIsAgentStep(w, a, n);
      AgentStepKeepsAccepted(w, Exec(w, a), n);
    }
  }

  // ---------------------------------------------------------------------- runs

  /**
   * A panel starting up: no runs, nothing on the wire.  Rows and agents may be in any
   * relation the bounds allow; in particular a restored row may be far behind its agent.
   */
  ghost predicate Start(w: World) {
    && w.net == [] && w.runs == [] && w.bumps == [] && w.db.events == [] && w.steps == 0
    && RowsBounded(w)
    && ProtocolsAgree(w.db)
    && (forall n :: AgentAt(w, n).accepted == [])
  }

  ghost predicate Reachable(w: World) {
    Bounded(w) && VersionsUnique(w) && AcceptedSent(w) && ProtocolsAgree(w.db)
  }

  lemma RowAfterKeepsIdentity(pc: Pc, row: NodeRow)
    ensures var row' := RowAfter(pc, row);
      row'.agentId == row.agentId && row'.protocol == row.protocol && row'.live == row.live
  {
  }

  lemma SameIdentityKeepsProtocols(db: Db, db': Db, n: Id, row: NodeRow)
    requires ProtocolsAgree(db) && NodeLive(db, n)
    requires row.live && row.agentId == db.nodes[n].agentId && row.protocol == db.nodes[n].protocol
    requires db'.nodes == db.nodes[n := row] && db'.users == db.users && db'.access == db.access
    ensures ProtocolsAgree(db')
  {
  }

  lemma DbAfterKeepsProtocols(db: Db, run: Run, c: Choice)
    requires ProtocolsAgree(db)
    ensures ProtocolsAgree(DbAfter(db, run, c))
  {
    if NodeLive(db, run.node) && c.db != RolledBack {
      var row := RowAfter(run.pc, db.nodes[run.node]);
      RowAfterKeepsIdentity(run.pc, db.nodes[run.node]);
      SameIdentityKeepsProtocols(db, DbAfter(db, run, c), run.node, row);
    }
  }

  lemma ExecKeepsReachable(w: World, a: Action)
    requires Reachable(w)
    ensures Reachable(Exec(w, a))
  {
    ExecKeepsBounded(w, a);
    ExecKeepsUnique(w, a);
    ExecKeepsAccepted(w, a);
    match a
    case Edit(e) => EditKeepsProtocols(w.db, e);
    case Advance(r, c) =>
      if r < |w.runs| {
        DbAfterKeepsProtocols(w.db, w.runs[r], c);
      }
    case _ =>
  }

  lemma StartIsReachable(w: World)
    requires Start(w)
    ensures Reachable(w)
  {
    forall n ensures AcceptedRise(w, n) {
      assert AgentAt(w, n).accepted == [];
    }
  }

  /** Every interleaving from a start keeps all of the above. */
  lemma {:induction false} PlayKeepsReachable(w: World, acts: seq<Action>)
    requires Reachable(w)
    ensures Reachable(Play(w, acts))
  {
    if acts != [] {
      PlayKeepsReachable(w, acts[..|acts| - 1]);
      ExecKeepsReachable(Play(w, acts[..|acts| - 1]), acts[|acts| - 1]);
    }
  }

  /**
   * Version safety, for every interleaving of any number of runs with edits and agents.  Desired
   * versions never go back; versions are handed out in increasing order; no two payloads and no
   * two events of a node share a version; what an agent takes over was sent to it, in increasing
   * versions; and no row claims to be applied beyond what was handed out or what its agent has.
   */
  lemma VersionSafety(w0: World, acts: seq<Action>)
    requires Start(w0)
    ensures var w := Play(w0, acts);
      && DbLater(w0.db, w.db)
      && BumpsIncrease(w.bumps) && PacketsDistinct(w.net) && EventsDistinct(w.db.events)
      && (forall i :: 0 <= i < |w.net| ==> Bump(w.net[i].node, w.net[i].version) in w.bumps)
      && (forall n :: AcceptedRise(w, n))
      && (forall n :: n in w.db.nodes ==>
            w.db.nodes[n].applied <= w.db.nodes[n].desired && w.db.nodes[n].applied <= AgentAt(w, n).version)
  {
    StartIsReachable(w0);
    PlayKeepsReachable(w0, acts);
    PlayGrows(w0, acts);
    var w := Play(w0, acts);
    forall i | 0 <= i < |w.net|
      ensures Bump(w.net[i].node, w.net[i].version) in w.bumps
    {
      assert Handed(w, w.net[i].node, w.net[i].version);
    }
    forall n | n in w.db.nodes
      ensures w.db.nodes[n].applied <= w.db.nodes[n].desired && w.db.nodes[n].applied <= AgentAt(w, n).version
    {
      assert RowBounded(w.db.nodes[n], AgentAt(w, n).version);
    }
  }

  /** The statement is MarkSyncSuccess of a live row, it is stored, and it names an older version. */
  predicate MarksOlder(w: World, a: Action, n: Id)
    requires n in w.db.nodes
  {
    && a.Advance? && a.run < |w.runs| && w.runs[a.run].node == n && w.runs[a.run].pc.Succeeding?
    && NodeLive(w.db, n) && a.choice.db != RolledBack
    && w.runs[a.run].pc.version < w.db.nodes[n].applied
  }

  lemma EditKeepsApplied(db: Db, e: Edit, n: Id)
    requires n in db.nodes
    ensures n in Edited(db, e).nodes && Edited(db, e).nodes[n].applied == db.nodes[n].applied
  {
  }

  lemma OwnStepKeepsApplied(w: World, r: nat, c: Choice)
    requires r < |w.runs| && !w.runs[r].pc.Succeeding?
    ensures var n := w.runs[r].node;
      n in w.db.nodes ==> DbAfter(w.db, w.runs[r], c).nodes[n].applied >= w.db.nodes[n].applied
  {
  }

  /**
   * Of all steps only a stored MarkSyncSuccess lowers the applied version.  Why its version can be
   * the older one is a matter of whole runs: see SyncSolo and SyncOverlap.
   */
  lemma AppliedFallsExactly(w: World, a: Action, n: Id)
    requires n in w.db.nodes
    ensures n in Exec(w, a).db.nodes
    ensures Exec(w, a).db.nodes[n].applied < w.db.nodes[n].applied <==> MarksOlder(w, a, n)
  {
    if a.Edit? {
      EditKeepsApplied(w.db, a.edit, n);
    } else if a.Advance? && a.run < |w.runs| && !w.runs[a.run].pc.Succeeding? {
      OwnStepKeepsApplied(w, a.run, a.choice);
    }
  }
}
