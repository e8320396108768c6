/**
 * A sync that nothing else at its node overlaps: whatever happens to other nodes, however
 * slow the wire, however the agent's version moves, success means that the agent holds
 * exactly the current active access.
 */
module SyncQuiet {
  import opened Prelude
  import opened Database
  import opened SyncProtocol
  import opened SyncSafety
  import opened SyncVersions

  /** The run is over, or is a status check, which never sends. */
  predicate Harmless(run: Run) {
    || run.pc.Done? || run.pc.Failed?
    || (run.statusOnly && (run.pc.Loading? || run.pc.AskingStatus? || run.pc.RecordingStatus?
                           || run.pc.RecordingNotOk? || run.pc.Realigning?))
  }

  ghost predicate OthersHarmless(w: World, r: nat, n: Id) {
    forall s :: 0 <= s < |w.runs| && s != r && w.runs[s].node == n ==> Harmless(w.runs[s])
  }

  /** No new sync of the node starts, and no edit changes who is active on it. */
  predicate Quiet(w: World, a: Action, n: Id) {
    match a
    case Begin(m, statusOnly) => m != n || statusOnly
    case Edit(e) => ActiveAccess(Edited(w.db, e), n) == ActiveAccess(w.db, n)
    case _ => true
  }

  ghost predicate AllQuiet(w: World, acts: seq<Action>, n: Id) {
    forall k :: 0 <= k < |acts| ==> Quiet(Play(w, acts[..k]), acts[k], n)
  }

  /** Every payload for the node, other than number `except`, is older than `v`. */
  ghost predicate OlderThan(net: seq<Packet>, n: Id, v: int, except: int) {
    forall i :: 0 <= i < |net| && net[i].node == n && i != except ==> net[i].version < v
  }

  ghost predicate Holds(w: World, n: Id) {
    && AgentAt(w, n).users == ActiveAccess(w.db, n)
    && OlderThan(w.net, n, AgentAt(w, n).version + 1, -1)
  }

  /** What a counter that is on track says about its list, the wire and the agent. */
  ghost predicate PcOnTrack(w: World, pc: Pc, n: Id) {
    var access := ActiveAccess(w.db, n);
    match pc
    case Reading(version, _) => OlderThan(w.net, n, version, -1)
    case Sending(job) => OlderThan(w.net, n, job.version, -1) && job.users == access
    case Awaiting(job, i) => OlderThan(w.net, n, job.version, i) && job.users == access
    case Logging(job, Applied(_)) => Holds(w, n)
    case Logging(job, Stale(_, _)) => job.users == access
    case Stalling(users, _, _, _) => users == access
    case RetryRealigning(users, _, _, _) => users == access
    case RetryReloading(users, _) => users == access
    case RetryBumping(users, _) => users == access
    case Succeeding(_) => Holds(w, n)
    case Done(_) => Holds(w, n)
    case _ => true
  }

  ghost predicate OnTrack(w: World, r: nat, n: Id) {
    && r < |w.runs| && w.runs[r].node == n && !w.runs[r].statusOnly && OthersHarmless(w, r, n)
    && PcOnTrack(w, w.runs[r].pc, n)
  }

  lemma AccessKept(w: World, a: Action, n: Id)
    requires Quiet(w, a, n)
    ensures ActiveAccess(Exec(w, a).db, n) == ActiveAccess(w.db, n)
  {
    if a.Advance? && a.run < |w.runs| {
      var db' := DbAfter(w.db, w.runs[a.run], a.choice);
      assert db'.users == w.db.users && db'.access == w.db.access && db'.now == w.db.now;
    }
  }

  lemma StaysHarmless(w: World, run: Run, c: Choice)
    requires Harmless(run)
    ensures Harmless(RunAfter(w, run, c))
  {
  }

  lemma NodeWireKept(w: World, a: Action, r: nat, n: Id)
    requires r < |w.runs| && OthersHarmless(w, r, n) && !(a.Advance? && a.run == r)
    ensures |w.net| <= |Exec(w, a).net| && Exec(w, a).net[..|w.net|] == w.net
    ensures forall i :: |w.net| <= i < |Exec(w, a).net| ==> Exec(w, a).net[i].node != n
  {
  }

  lemma HoldsKept(w: World, a: Action, n: Id)
    requires Bounded(w) && Holds(w, n) && Quiet(w, a, n)
    requires |w.net| <= |Exec(w, a).net| && Exec(w, a).net[..|w.net|] == w.net
    requires forall i :: |w.net| <= i < |Exec(w, a).net| ==> Exec(w, a).net[i].node != n
    ensures Holds(Exec(w, a), n)
  {
    var w' := Exec(w, a);
    AccessKept(w, a, n);
    ExecIsAgentStep(w, a, n);
    assert forall i :: 0 <= i < |w.net| ==> w'.net[i] == w.net[i];
  }

  lemma OthersKept(w: World, a: Action, r: nat, n: Id)
    requires r < |w.runs| && OthersHarmless(w, r, n) && Quiet(w, a, n)
    ensures OthersHarmless(Exec(w, a), r, n)
  {
    var w' := Exec(w, a);
    forall s | 0 <= s < |w'.runs| && s != r && w'.runs[s].node == n
      ensures Harmless(w'.runs[s])
    {
      if a.Advance? && a.run == s < |w.runs| {
        StaysHarmless(w, w.runs[s], a.choice);
      }
    }
  }

  lemma PcKeptOnTrack(w: World, w': World, pc: Pc, n: Id)
    requires PcOnTrack(w, pc, n) && ActiveAccess(w'.db, n) == ActiveAccess(w.db, n)
    requires |w.net| <= |w'.net| && w'.net[..|w.net|] == w.net
    requires forall i :: |w.net| <= i < |w'.net| ==> w'.net[i].node != n
    requires Holds(w, n) ==> Holds(w', n)
    ensures PcOnTrack(w', pc, n)
  {
    assert forall i :: 0 <= i < |w.net| ==> w'.net[i] == w.net[i];
  }

  lemma ForeignStepOnTrack(w: World, a: Action, r: nat, n: Id)
    requires Bounded(w) && OnTrack(w, r, n) && Quiet(w, a, n) && !(a.Advance? && a.run == r)
    ensures OnTrack(Exec(w, a), r, n)
  {
    OthersKept(w, a, r, n);
    NodeWireKept(w, a, r, n);
    AccessKept(w, a, n);
    if Holds(w, n) {
      HoldsKept(w, a, n);
    }
    assert Exec(w, a).runs[r] == w.runs[r];
    PcKeptOnTrack(w, Exec(w, a), w.runs[r].pc, n);
  }

  lemma AcceptedHolds(w: World, r: nat, c: Choice, n: Id)
    requires Bounded(w) && OnTrack(w, r, n) && w.runs[r].pc.Awaiting? && NextPc(w, w.runs[r], c).outcome.Applied?
    ensures Holds(Advanced(w, r, c), n)
  {
    var run := w.runs[r];
    assert RunBounded(w, run);
    AnswerIsRemote(w, n, w.net[run.pc.packet], c, run.pc.job.version, run.pc.job.mayRetry);
    assert AgentAt(Advanced(w, r, c), n) == Delivered(AgentAt(w, n), w.net[run.pc.packet], run.pc.packet);
    AccessKept(w, Advance(r, c), n);
  }

  lemma ReplyOnTrack(w: World, r: nat, c: Choice, n: Id)
    requires Bounded(w) && OnTrack(w, r, n) && w.runs[r].pc.Awaiting?
    ensures PcOnTrack(Advanced(w, r, c), NextPc(w, w.runs[r], c), n)
  {
    AccessKept(w, Advance(r, c), n);
    assert RunBounded(w, w.runs[r]);
    if NextPc(w, w.runs[r], c).outcome.Applied? {
      AcceptedHolds(w, r, c, n);
    }
  }

  lemma HeldOnTrack(w: World, r: nat, c: Choice, n: Id)
    requires Bounded(w) && OnTrack(w, r, n) && Holds(w, n) && !w.runs[r].pc.Sending? && !w.runs[r].pc.Awaiting?
    ensures Holds(Advanced(w, r, c), n)
  {
    assert Advanced(w, r, c) == Exec(w, Advance(r, c)) && Advanced(w, r, c).net == w.net;
    HoldsKept(w, Advance(r, c), n);
  }

  lemma BumpedPc(w: World, run: Run, c: Choice)
    requires run.pc.Bumping? || run.pc.RetryBumping?
    ensures var pc := NextPc(w, run, c);
      || pc.Failed?
      || (NodeLive(w.db, run.node) && pc.Reading? && pc.version == w.db.nodes[run.node].desired + 1)
      || (NodeLive(w.db, run.node) && run.pc.RetryBumping? && pc.Sending?
          && pc.job.version == w.db.nodes[run.node].desired + 1 && pc.job.users == run.pc.users)
  {
  }

  /** A version handed out now is above every payload for the node. */
  lemma BumpOnTrack(w: World, r: nat, c: Choice, n: Id)
    requires Bounded(w) && OnTrack(w, r, n) && (w.runs[r].pc.Bumping? || w.runs[r].pc.RetryBumping?)
    ensures PcOnTrack(Advanced(w, r, c), NextPc(w, w.runs[r], c), n)
  {
    AccessKept(w, Advance(r, c), n);
    BumpedPc(w, w.runs[r], c);
    assert Advanced(w, r, c).net == w.net;
    if NodeLive(w.db, n) {
      assert OlderThan(w.net, n, w.db.nodes[n].desired + 1, -1);
    }
  }

  lemma ReadOnTrack(w: World, r: nat, c: Choice, n: Id)
    requires Bounded(w) && OnTrack(w, r, n) && w.runs[r].pc.Reading?
    ensures PcOnTrack(Advanced(w, r, c), NextPc(w, w.runs[r], c), n)
  {
    AccessKept(w, Advance(r, c), n);
    assert Advanced(w, r, c).net == w.net;
  }

  lemma PostOnTrack(w: World, r: nat, c: Choice, n: Id)
    requires Bounded(w) && OnTrack(w, r, n) && w.runs[r].pc.Sending?
    ensures PcOnTrack(Advanced(w, r, c), NextPc(w, w.runs[r], c), n)
  {
    AccessKept(w, Advance(r, c), n);
    var job, w' := w.runs[r].pc.job, Advanced(w, r, c);
    assert NextPc(w, w.runs[r], c) == Awaiting(job, |w.net|);
    assert |w'.net| == |w.net| + 1 && forall i :: 0 <= i < |w.net| ==> w'.net[i] == w.net[i];
  }

  /** The list a run carries on without sending it. */
  function Carried(pc: Pc): Option<map<Id, Grant>> {
    match pc
    case Logging(job, outcome) => if outcome.Stale? then Some(job.users) else None
    case Stalling(users, _, _, _) => Some(users)
    case RetryRealigning(users, _, _, _) => Some(users)
    case RetryReloading(users, _) => Some(users)
    case RetryBumping(users, _) => Some(users)
    case _ => None
  }

  /** Counters that promise nothing about the node. */
  predicate Plain(pc: Pc) {
    || pc.Loading? || pc.AskingStatus? || pc.RecordingStatus? || pc.RecordingNotOk? || pc.Realigning? || pc.Reloading?
    || pc.Bumping? || pc.Failing? || pc.Failed? || (pc.Logging? && pc.outcome.Rejected?)
  }

  lemma CarriedNext(w: World, run: Run, c: Choice)
    requires Carried(run.pc).Some? && !run.pc.RetryBumping?
    ensures Plain(NextPc(w, run, c)) || (Carried(NextPc(w, run, c)) == Carried(run.pc) && !NextPc(w, run, c).Logging?)
  {
  }

  lemma PlainNext(w: World, run: Run, c: Choice)
    requires Plain(run.pc) && !run.pc.Bumping? && !run.statusOnly
    ensures Plain(NextPc(w, run, c))
  {
  }

  lemma CarriedOnTrack(w: World, pc: Pc, n: Id)
    requires Plain(pc) || Carried(pc) == Some(ActiveAccess(w.db, n))
    ensures PcOnTrack(w, pc, n)
  {
  }

  lemma ListOnTrack(w: World, r: nat, c: Choice, n: Id)
    requires OnTrack(w, r, n) && Carried(w.runs[r].pc).Some? && !w.runs[r].pc.RetryBumping?
    ensures PcOnTrack(Advanced(w, r, c), NextPc(w, w.runs[r], c), n)
  {
    AccessKept(w, Advance(r, c), n);
    CarriedNext(w, w.runs[r], c);
    CarriedOnTrack(Advanced(w, r, c), NextPc(w, w.runs[r], c), n);
  }

  lemma PcStaysOnTrack(w: World, r: nat, c: Choice, n: Id)
    requires Bounded(w) && OnTrack(w, r, n)
    ensures PcOnTrack(Advanced(w, r, c), NextPc(w, w.runs[r], c), n)
  {
    var pc := w.runs[r].pc;
    if pc.Awaiting? {
      ReplyOnTrack(w, r, c, n);
    } else if pc.Bumping? || pc.RetryBumping? {
      BumpOnTrack(w, r, c, n);
    } else if pc.Reading? {
      ReadOnTrack(w, r, c, n);
    } else if pc.Sending? {
      PostOnTrack(w, r, c, n);
    } else if pc.Succeeding? || pc.Done? || (pc.Logging? && pc.outcome.Applied?) {
      HeldOnTrack(w, r, c, n);
    } else if Carried(pc).Some? {
      ListOnTrack(w, r, c, n);
    } else {
      PlainNext(w, w.runs[r], c);
      CarriedOnTrack(Advanced(w, r, c), NextPc(w, w.runs[r], c), n);
    }
  }

  lemma OwnStepOnTrack(w: World, r: nat, c: Choice, n: Id)
    requires Bounded(w) && OnTrack(w, r, n)
    ensures OnTrack(Advanced(w, r, c), r, n)
  {
    var w' := Advanced(w, r, c);
    assert w' == Exec(w, Advance(r, c));
    OthersKept(w, Advance(r, c), r, n);
    PcStaysOnTrack(w, r, c, n);
    assert w'.runs[r].pc == NextPc(w, w.runs[r], c) && w'.runs[r].node == n && !w'.runs[r].statusOnly;
  }

  lemma {:induction false} PlayOnTrack(w: World, acts: seq<Action>, r: nat, n: Id)
    requires Reachable(w) && OnTrack(w, r, n) && AllQuiet(w, acts, n)
    ensures OnTrack(Play(w, acts), r, n)
  {
    if acts != [] {
      var init, a := acts[..|acts| - 1], acts[|acts| - 1];
      forall k | 0 <= k < |init|
        ensures Quiet(Play(w, init[..k]), init[k], n)
      {
        assert init[..k] == acts[..k];
        assert Quiet(Play(w, acts[..k]), acts[k], n);
      }
      PlayOnTrack(w, init, r, n);
      PlayKeepsReachable(w, init);
      var w1 := Play(w, init);
      assert Quiet(Play(w, acts[..|acts| - 1]), a, n);
      if a.Advance? && a.run == r {
        OwnStepOnTrack(w1, r, a.choice, n);
      } else {
        ForeignStepOnTrack(w1, a, r, n);
      }
    }
  }

  lemma BeginsOnTrack(w: World, n: Id)
    requires OthersHarmless(w, |w.runs|, n)
    ensures OnTrack(Exec(w, Begin(n, false)), |w.runs|, n)
  {
  }

  lemma DoneHolds(w: World, r: nat, n: Id)
    requires OnTrack(w, r, n) && w.runs[r].pc.Done?
    ensures AgentAt(w, n).users == ActiveAccess(w.db, n)
  {
  }

  /** Without overlapping syncs of the node or edits of its access, success means exact contents. */
  lemma QuietSyncConverges(w: World, acts: seq<Action>, n: Id)
    requires Reachable(w) && OthersHarmless(w, |w.runs|, n)
    requires AllQuiet(Exec(w, Begin(n, false)), acts, n)
    ensures var w', r := Play(Exec(w, Begin(n, false)), acts), |w.runs|;
      r < |w'.runs| && (w'.runs[r].pc.Done? ==> AgentAt(w', n).users == ActiveAccess(w'.db, n))
  {
    var w1, r := Exec(w, Begin(n, false)), |w.runs|;
    ExecKeepsReachable(w, Begin(n, false));
    BeginsOnTrack(w, n);
    PlayOnTrack(w1, acts, r, n);
    if Play(w1, acts).runs[r].pc.Done? {
      DoneHolds(Play(w1, acts), r, n);
    }
  }
}
