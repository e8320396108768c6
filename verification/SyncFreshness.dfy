/**
 * What a payload's user list reflects.  A first attempt reads the list after its
 * version was bumped; a retry sends the list of the refused first attempt again,
 * under a fresh version.
 */
module SyncFreshness {
  import opened Database
  import opened SyncProtocol
  import opened SyncSafety
  import opened SyncVersions

  /** The world after the first `k` actions. */
  ghost function At(w0: World, acts: seq<Action>, k: nat): World
    requires k <= |acts|
  {
    Play(w0, acts[..k])
  }

  ghost predicate ReadAt(w0: World, acts: seq<Action>, n: Id, users: map<Id, Grant>, k: nat) {
    k < |acts| && users == ActiveAccess(At(w0, acts, k).db, n)
  }

  ghost predicate BumpedAt(w0: World, acts: seq<Action>, n: Id, version: int, k: nat) {
    k < |acts| && n in At(w0, acts, k).db.nodes && version == At(w0, acts, k).db.nodes[n].desired + 1
  }

  /** A first attempt with this list is on the wire, under a smaller version. */
  ghost predicate FirstSent(net: seq<Packet>, n: Id, users: map<Id, Grant>, readStep: nat, below: int) {
    exists i :: 0 <= i < |net| && net[i].first && net[i].node == n && net[i].users == users
                && net[i].readStep == readStep && net[i].version < below
  }

  ghost predicate JobFresh(w0: World, acts: seq<Action>, net: seq<Packet>, n: Id, job: Job) {
    && BumpedAt(w0, acts, n, job.version, job.bumpStep)
    && ReadAt(w0, acts, n, job.users, job.readStep)
    && if job.mayRetry then job.bumpStep < job.readStep
       else job.readStep < job.bumpStep && FirstSent(net, n, job.users, job.readStep, job.version)
  }

  ghost predicate RetryFresh(w0: World, acts: seq<Action>, w: World, n: Id, users: map<Id, Grant>, readStep: nat) {
    && ReadAt(w0, acts, n, users, readStep)
    && n in w.db.nodes && FirstSent(w.net, n, users, readStep, w.db.nodes[n].desired + 1)
  }

  ghost predicate RunFresh(w0: World, acts: seq<Action>, w: World, run: Run) {
    match run.pc
    case Reading(version, bumpStep) => BumpedAt(w0, acts, run.node, version, bumpStep)
    case Sending(job) => JobFresh(w0, acts, w.net, run.node, job)
    case Awaiting(job, _) => JobFresh(w0, acts, w.net, run.node, job)
    case Logging(job, outcome) =>
      JobFresh(w0, acts, w.net, run.node, job)
      && (outcome.Stale? ==> RetryFresh(w0, acts, w, run.node, job.users, job.readStep))
    case Stalling(users, readStep, _, _) => RetryFresh(w0, acts, w, run.node, users, readStep)
    case RetryRealigning(users, readStep, _, _) => RetryFresh(w0, acts, w, run.node, users, readStep)
    case RetryReloading(users, readStep) => RetryFresh(w0, acts, w, run.node, users, readStep)
    case RetryBumping(users, readStep) => RetryFresh(w0, acts, w, run.node, users, readStep)
    case _ => true
  }

  ghost function JobOf(p: Packet): Job {
    Job(p.version, p.users, p.first, p.bumpStep, p.readStep)
  }

  ghost predicate Fresh(w0: World, acts: seq<Action>, w: World) {
    && w.steps == |acts|
    && (forall i :: 0 <= i < |w.net| ==> JobFresh(w0, acts, w.net, w.net[i].node, JobOf(w.net[i])))
    && (forall r :: 0 <= r < |w.runs| ==> RunFresh(w0, acts, w, w.runs[r]))
  }

  lemma JobFreshLater(w0: World, acts: seq<Action>, a: Action, net: seq<Packet>, net': seq<Packet>, n: Id, job: Job)
    requires JobFresh(w0, acts, net, n, job) && net <= net'
    ensures JobFresh(w0, acts + [a], net', n, job)
  {
    assert (acts + [a])[..job.bumpStep] == acts[..job.bumpStep];
    assert (acts + [a])[..job.readStep] == acts[..job.readStep];
    if !job.mayRetry {
      var i :| 0 <= i < |net| && net[i].first && net[i].node == n && net[i].users == job.users
               && net[i].readStep == job.readStep && net[i].version < job.version;
      assert net'[i] == net[i];
    }
  }

  lemma RetryFreshLater(w0: World, acts: seq<Action>, a: Action, w: World, w': World, n: Id,
                        users: map<Id, Grant>, readStep: nat)
    requires RetryFresh(w0, acts, w, n, users, readStep) && Later(w, w')
    ensures RetryFresh(w0, acts + [a], w', n, users, readStep)
  {
    assert (acts + [a])[..readStep] == acts[..readStep];
    var i :| 0 <= i < |w.net| && w.net[i].first && w.net[i].node == n && w.net[i].users == users
             && w.net[i].readStep == readStep && w.net[i].version < w.db.nodes[n].desired + 1;
    assert w'.net[i] == w.net[i];
  }

  lemma RunFreshLater(w0: World, acts: seq<Action>, a: Action, w: World, w': World, run: Run)
    requires RunFresh(w0, acts, w, run) && Later(w, w')
    ensures RunFresh(w0, acts + [a], w', run)
  {
    match run.pc
    case Reading(_, bumpStep) => assert (acts + [a])[..bumpStep] == acts[..bumpStep];
    case Sending(job) => JobFreshLater(w0, acts, a, w.net, w'.net, run.node, job);
    case Awaiting(job, _) => JobFreshLater(w0, acts, a, w.net, w'.net, run.node, job);
    case Logging(job, outcome) =>
      JobFreshLater(w0, acts, a, w.net, w'.net, run.node, job);
      if outcome.Stale? {
        RetryFreshLater(w0, acts, a, w, w', run.node, job.users, job.readStep);
      }
    case Stalling(users, readStep, _, _) => RetryFreshLater(w0, acts, a, w, w', run.node, users, readStep);
    case RetryRealigning(users, readStep, _, _) => RetryFreshLater(w0, acts, a, w, w', run.node, users, readStep);
    case RetryReloading(users, readStep) => RetryFreshLater(w0, acts, a, w, w', run.node, users, readStep);
    case RetryBumping(users, readStep) => RetryFreshLater(w0, acts, a, w, w', run.node, users, readStep);
    case _ =>
  }

  lemma BumpIsFresh(w0: World, acts: seq<Action>, a: Action, w: World, run: Run, c: Choice)
    requires w == Play(w0, acts) && w.steps == |acts| && run.pc.Bumping?
    ensures var pc := NextPc(w, run, c);
      pc.Reading? ==> BumpedAt(w0, acts + [a], run.node, pc.version, pc.bumpStep)
  {
    assert (acts + [a])[..|acts|] == acts;
  }

  lemma ReadIsFresh(w0: World, acts: seq<Action>, a: Action, w: World, net': seq<Packet>, run: Run, c: Choice)
    requires w == Play(w0, acts) && w.steps == |acts| && run.pc.Reading? && RunFresh(w0, acts, w, run)
    ensures var pc := NextPc(w, run, c);
      pc.Sending? ==> JobFresh(w0, acts + [a], net', run.node, pc.job)
  {
    assert (acts + [a])[..|acts|] == acts;
    assert (acts + [a])[..run.pc.bumpStep] == acts[..run.pc.bumpStep];
  }

  lemma RetryBumpIsFresh(w0: World, acts: seq<Action>, a: Action, w: World, w': World, run: Run, c: Choice)
    requires w == Play(w0, acts) && w.steps == |acts| && run.pc.RetryBumping?
    requires RunFresh(w0, acts, w, run) && Later(w, w')
    ensures var pc := NextPc(w, run, c);
      pc.Sending? ==> JobFresh(w0, acts + [a], w'.net, run.node, pc.job)
  {
    var pc := NextPc(w, run, c);
    if pc.Sending? {
      assert (acts + [a])[..|acts|] == acts;
      assert BumpedAt(w0, acts + [a], run.node, pc.job.version, pc.job.bumpStep);
      assert JobFresh(w0, acts + [a], w.net, run.node, pc.job) by {
        assert (acts + [a])[..pc.job.readStep] == acts[..pc.job.readStep];
      }
      var i :| 0 <= i < |w.net| && w.net[i].first && w.net[i].node == run.node && w.net[i].users == pc.job.users
               && w.net[i].readStep == pc.job.readStep && w.net[i].version < pc.job.version;
      assert w'.net[i] == w.net[i];
    }
  }

  lemma ReplyIsFresh(w0: World, acts: seq<Action>, a: Action, w: World, w': World, run: Run, c: Choice)
    requires RunFresh(w0, acts, w, run) && run.pc.Awaiting? && RunBounded(w, run) && NetBounded(w)
    requires AgentAt(w, run.node).version >= 0 && Later(w, w')
    ensures RunFresh(w0, acts + [a], w', run.(pc := NextPc(w, run, c)))
  {
    var job, i, pc := run.pc.job, run.pc.packet, NextPc(w, run, c);
    JobFreshLater(w0, acts, a, w.net, w'.net, run.node, job);
    AnswerIsRemote(w, run.node, w.net[i], c, job.version, job.mayRetry);
    if pc.outcome.Stale? {
      assert (acts + [a])[..job.readStep] == acts[..job.readStep];
      assert w'.net[i] == w.net[i];
    }
  }

  /** A step that fetches nothing hands its list on as it is. */
  predicate HandsOn(pc: Pc, pc': Pc) {
    match pc'
    case Awaiting(job, _) => pc == Sending(job)
    case Stalling(users, readStep, _, _) =>
      pc.Logging? && pc.outcome.Stale? && pc.job.users == users && pc.job.readStep == readStep
    case RetryRealigning(users, readStep, current, applied) => pc == Stalling(users, readStep, current, applied)
    case RetryReloading(users, readStep) => pc.RetryRealigning? && pc.users == users && pc.readStep == readStep
    case RetryBumping(users, readStep) => pc == RetryReloading(users, readStep)
    case Reading(_, _) => pc == pc'
    case Sending(_) => pc == pc'
    case Logging(_, _) => pc == pc'
    case _ => true
  }

  lemma OtherStepsHandOn(w: World, run: Run, c: Choice)
    requires !run.pc.Bumping? && !run.pc.Reading? && !run.pc.RetryBumping? && !run.pc.Awaiting?
    ensures HandsOn(run.pc, NextPc(w, run, c))
  {
  }

  lemma HandedOnIsFresh(w0: World, acts: seq<Action>, w: World, run: Run, pc: Pc)
    requires RunFresh(w0, acts, w, run) && HandsOn(run.pc, pc)
    ensures RunFresh(w0, acts, w, run.(pc := pc))
  {
  }

  /** The step of the run itself: the statement it performs is the |acts|-th action. */
  lemma NextFresh(w0: World, acts: seq<Action>, a: Action, w: World, w': World, run: Run, c: Choice)
    requires w == Play(w0, acts) && w.steps == |acts| && Bounded(w)
    requires RunFresh(w0, acts, w, run) && RunBounded(w, run) && Later(w, w')
    ensures RunFresh(w0, acts + [a], w', run.(pc := NextPc(w, run, c)))
  {
    if run.pc.Bumping? {
      BumpIsFresh(w0, acts, a, w, run, c);
    } else if run.pc.Reading? {
      ReadIsFresh(w0, acts, a, w, w'.net, run, c);
    } else if run.pc.RetryBumping? {
      RetryBumpIsFresh(w0, acts, a, w, w', run, c);
    } else if run.pc.Awaiting? {
      ReplyIsFresh(w0, acts, a, w, w', run, c);
    } else {
      RunFreshLater(w0, acts, a, w, w', run);
      OtherStepsHandOn(w, run, c);
      HandedOnIsFresh(w0, acts + [a], w', run, NextPc(w, run, c));
    }
  }

  lemma RunsFresh(w0: World, acts: seq<Action>, a: Action, w: World, r: nat)
    requires w == Play(w0, acts) && Fresh(w0, acts, w) && Bounded(w) && r < |Exec(w, a).runs|
    ensures RunFresh(w0, acts + [a], Exec(w, a), Exec(w, a).runs[r])
  {
    if r < |w.runs| {
      ExecGrows(w, a);
      assert RunFresh(w0, acts, w, w.runs[r]) && RunBounded(w, w.runs[r]);
      if a.Advance? && a.run == r {
        NextFresh(w0, acts, a, w, Exec(w, a), w.runs[r], a.choice);
        OwnStep(w, r, a.choice);
      } else {
        OtherStep(w, a, r);
        RunFreshLater(w0, acts, a, w, Exec(w, a), w.runs[r]);
      }
    } else {
      NewRunIsLoading(w, a, r);
    }
  }

  lemma OwnStep(w: World, r: nat, c: Choice)
    requires r < |w.runs|
    ensures var w' := Exec(w, Advance(r, c));
      |w'.runs| == |w.runs| && w'.runs[r].pc == NextPc(w, w.runs[r], c) && w'.runs[r].node == w.runs[r].node
  {
  }

  lemma OtherStep(w: World, a: Action, r: nat)
    requires r < |w.runs| && !(a.Advance? && a.run == r)
    ensures r < |Exec(w, a).runs| && Exec(w, a).runs[r] == w.runs[r]
  {
  }

  lemma NewRunIsLoading(w: World, a: Action, r: nat)
    requires |w.runs| <= r < |Exec(w, a).runs|
    ensures Exec(w, a).runs[r].pc.Loading?
  {
  }

  lemma PacketsFresh(w0: World, acts: seq<Action>, a: Action, w: World)
    requires w == Play(w0, acts) && Fresh(w0, acts, w) && Bounded(w)
    ensures var w' := Exec(w, a);
      forall i :: 0 <= i < |w'.net| ==> JobFresh(w0, acts + [a], w'.net, w'.net[i].node, JobOf(w'.net[i]))
  {
    var w' := Exec(w, a);
    ExecGrows(w, a);
    forall i | 0 <= i < |w'.net|
      ensures JobFresh(w0, acts + [a], w'.net, w'.net[i].node, JobOf(w'.net[i]))
    {
      if i < |w.net| {
        assert w'.net[i] == w.net[i];
        JobFreshLater(w0, acts, a, w.net, w'.net, w.net[i].node, JobOf(w.net[i]));
      } else {
        var run := w.runs[a.run];
        assert RunFresh(w0, acts, w, run) && run.pc.Sending?;
        JobFreshLater(w0, acts, a, w.net, w'.net, run.node, run.pc.job);
        assert JobOf(w'.net[i]) == run.pc.job;
      }
    }
  }

  lemma {:induction false} PlayIsFresh(w0: World, acts: seq<Action>)
    requires Start(w0)
    ensures Fresh(w0, acts, Play(w0, acts))
  {
    if acts != [] {
      var init, a := acts[..|acts| - 1], acts[|acts| - 1];
      var w, w' := Play(w0, init), Play(w0, acts);
      PlayIsFresh(w0, init);
      StartIsReachable(w0);
      PlayKeepsReachable(w0, init);
      assert acts == init + [a];
      PacketsFresh(w0, init, a, w);
      forall r | 0 <= r < |w'.runs|
        ensures RunFresh(w0, acts, w', w'.runs[r])
      {
        RunsFresh(w0, init, a, w, r);
      }
    }
  }

  /**
   * Payload freshness, for every interleaving from a start.  The list of a payload is the
   * active access at the moment of its read.  In a first attempt that moment is after the
   * bump, so every change committed before the bump is in it; in a retry it is before the
   * bump, and the list is the one a first attempt already carried under a smaller version.
   */
  lemma PayloadFreshness(w0: World, acts: seq<Action>, i: nat)
    requires Start(w0) && i < |Play(w0, acts).net|
    ensures var net := Play(w0, acts).net;
      var p := net[i];
      && p.bumpStep < |acts| && p.readStep < |acts|
      && p.node in At(w0, acts, p.bumpStep).db.nodes
      && p.version == At(w0, acts, p.bumpStep).db.nodes[p.node].desired + 1
      && p.users == ActiveAccess(At(w0, acts, p.readStep).db, p.node)
      && (p.first <==> p.bumpStep < p.readStep)
      && (!p.first ==> FirstSent(net, p.node, p.users, p.readStep, p.version))
  {
    PlayIsFresh(w0, acts);
    var p := Play(w0, acts).net[i];
    assert JobFresh(w0, acts, Play(w0, acts).net, p.node, JobOf(p));
  }
}
