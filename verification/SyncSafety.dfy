/**
 * What every interleaving of any number of runs keeps: counters that only grow, and
 * applied versions that stay below what was handed out and below the agent.
 */
module SyncSafety {
  import opened Prelude
  import opened Database
  import opened SyncProtocol

  // ------------------------------------------------------------ what only grows

  /** Rows stay, deleted rows stay deleted, desired versions and the clock never go back. */
  ghost predicate DbLater(db: Db, db': Db) {
    && (forall n :: n in db.nodes ==>
          && n in db'.nodes
          && db.nodes[n].desired <= db'.nodes[n].desired
          && (db'.nodes[n].live ==> db.nodes[n].live))
    && db.now <= db'.now
  }

  ghost predicate Later(w: World, w': World) {
    && DbLater(w.db, w'.db)
    && (forall n :: AgentAt(w, n).version <= AgentAt(w', n).version)
    && w.net <= w'.net
  }

  lemma EditGrows(db: Db, e: Edit)
    ensures DbLater(db, Edited(db, e))
  {
  }

  lemma RowGrows(pc: Pc, row: NodeRow)
    ensures RowAfter(pc, row).desired >= row.desired
    ensures RowAfter(pc, row).live == row.live
  {
  }

  lemma DbAfterGrows(db: Db, run: Run, c: Choice)
    ensures DbLater(db, DbAfter(db, run, c))
  {
    if NodeLive(db, run.node) {
      RowGrows(run.pc, db.nodes[run.node]);
    }
  }

  lemma ExecGrows(w: World, a: Action)
    ensures Later(w, Exec(w, a))
  {
    match a
    case Edit(e) => EditGrows(w.db, e);
    case Advance(r, c) =>
      if r < |w.runs| {
        DbAfterGrows(w.db, w.runs[r], c);
      }
    case _ =>
  }

  lemma {:induction false} PlayGrows(w: World, acts: seq<Action>)
    ensures Later(w, Play(w, acts))
  {
    if acts != [] {
      PlayGrows(w, acts[..|acts| - 1]);
      ExecGrows(Play(w, acts[..|acts| - 1]), acts[|acts| - 1]);
    }
  }

  // -------------------------------------------------------------- version bounds

  /** The version a run was given and has not yet recorded an event for. */
  function Held(pc: Pc): Option<int> {
    match pc
    case Reading(version, _) => Some(version)
    case Sending(job) => Some(job.version)
    case Awaiting(job, _) => Some(job.version)
    case Logging(job, _) => Some(job.version)
    case _ => None
  }

  predicate Unsent(pc: Pc) {
    pc.Reading? || pc.Sending?
  }

  /** A remote state that came from the agent of `n`. */
  predicate Remote(w: World, n: Id, current: int, applied: int) {
    applied <= current && 0 <= current <= AgentAt(w, n).version
  }

  /** What a run's counter says about its node's row and agent. */
  predicate RunBounded(w: World, run: Run) {
    var n := run.node;
    && (run.pc.Loading? || run.pc.Failed? || n in w.db.nodes)
    && (Held(run.pc).Some? ==> Held(run.pc).value <= w.db.nodes[n].desired)
    && match run.pc
       case RecordingStatus(Healthy(current, applied)) => Remote(w, n, current, applied)
       case Realigning(current, applied) => Remote(w, n, current, applied)
       case Stalling(_, _, current, applied) => Remote(w, n, current, applied)
       case RetryRealigning(_, _, current, applied) => Remote(w, n, current, applied)
       case Awaiting(job, i) =>
         i < |w.net| && w.net[i] == Packet(n, job.version, job.users, job.mayRetry, job.bumpStep, job.readStep)
       case Logging(job, Stale(current, applied)) => job.mayRetry && Remote(w, n, current, applied)
       case Logging(job, Applied(version)) => version <= job.version && version <= AgentAt(w, n).version
       case Succeeding(version) => version <= w.db.nodes[n].desired && version <= AgentAt(w, n).version
       case _ => true
  }

  predicate RowBounded(row: NodeRow, agentVersion: int) {
    row.applied <= row.desired && row.applied <= agentVersion
  }

  ghost predicate RowsBounded(w: World) {
    && (forall n :: AgentAt(w, n).version >= 0)
    && (forall n :: n in w.db.nodes ==> RowBounded(w.db.nodes[n], AgentAt(w, n).version))
  }

  ghost predicate NetBounded(w: World) {
    forall i :: 0 <= i < |w.net| ==>
      w.net[i].node in w.db.nodes && w.net[i].version <= w.db.nodes[w.net[i].node].desired
  }

  ghost predicate Bounded(w: World) {
    && RowsBounded(w)
    && NetBounded(w)
    && (forall r :: 0 <= r < |w.runs| ==> RunBounded(w, w.runs[r]))
  }

  lemma RunBoundedLater(w: World, w': World, run: Run)
    requires RunBounded(w, run) && Later(w, w')
    ensures RunBounded(w', run)
  {
  }

  lemma AnswerIsRemote(w: World, n: Id, p: Packet, c: Choice, version: int, mayRetry: bool)
    requires AgentAt(w, n).version >= 0 && p.version == version
    ensures var o := Classify(SyncAnswer(AgentAt(w, n), p, c), version, mayRetry);
      match o
      case Stale(current, applied) => mayRetry && Remote(w, n, current, applied)
      case Applied(v) => v <= version && Reaches(c.call) && p.version > AgentAt(w, n).version
      case Rejected(_) => true
  {
  }

  /** `w'` holds the effect of the step that `run` takes in `w`. */
  ghost predicate HoldsStep(w: World, w': World, run: Run, c: Choice) {
    && Later(w, w')
    && (run.pc.Awaiting? && run.pc.packet < |w.net| && Reaches(c.call) ==>
          AgentAt(w', run.node) == Delivered(AgentAt(w, run.node), w.net[run.pc.packet], run.pc.packet))
    && (run.pc.Sending? ==> w'.net == NetAfter(w.net, run))
    && ((run.pc.Bumping? || run.pc.RetryBumping?) && c.db == Committed && NodeLive(w.db, run.node) ==>
          run.node in w'.db.nodes && w'.db.nodes[run.node].desired == w.db.nodes[run.node].desired + 1)
  }

  lemma ReplyBounded(w: World, w': World, run: Run, c: Choice)
    requires RunBounded(w, run) && run.pc.Awaiting? && HoldsStep(w, w', run, c) && AgentAt(w, run.node).version >= 0
    ensures RunBounded(w', RunAfter(w, run, c))
  {
    var job, i := run.pc.job, run.pc.packet;
    AnswerIsRemote(w, run.node, w.net[i], c, job.version, job.mayRetry);
    var answer := SyncAnswer(AgentAt(w, run.node), w.net[i], c);
    assert RunAfter(w, run, c).pc == Logging(job, Classify(answer, job.version, job.mayRetry));
  }

  lemma AskBounded(w: World, w': World, run: Run, c: Choice)
    requires RunBounded(w, run) && (run.pc.AskingStatus? || run.pc.RecordingStatus?)
    requires HoldsStep(w, w', run, c) && AgentAt(w, run.node).version >= 0
    ensures RunBounded(w', RunAfter(w, run, c))
  {
    assert RunAfter(w, run, c).pc == NextPc(w, run, c);
  }

  lemma LogBounded(w: World, w': World, run: Run, c: Choice)
    requires RunBounded(w, run) && run.pc.Logging? && HoldsStep(w, w', run, c)
    ensures RunBounded(w', RunAfter(w, run, c))
  {
    assert RunAfter(w, run, c).pc == NextPc(w, run, c);
  }

  lemma BumpBounded(w: World, w': World, run: Run, c: Choice)
    requires RunBounded(w, run) && HoldsStep(w, w', run, c) && (run.pc.Bumping? || run.pc.RetryBumping?)
    ensures RunBounded(w', RunAfter(w, run, c))
  {
    assert RunAfter(w, run, c).pc == NextPc(w, run, c);
  }

  lemma ReadSendBounded(w: World, w': World, run: Run, c: Choice)
    requires RunBounded(w, run) && HoldsStep(w, w', run, c) && (run.pc.Reading? || run.pc.Sending?)
    ensures RunBounded(w', RunAfter(w, run, c))
  {
    assert RunAfter(w, run, c).pc == NextPc(w, run, c);
  }

  /** One step of a run, into any later world that holds the step's own effect. */
  lemma NextBounded(w: World, w': World, run: Run, c: Choice)
    requires RunBounded(w, run) && HoldsStep(w, w', run, c) && AgentAt(w, run.node).version >= 0
    ensures RunBounded(w', RunAfter(w, run, c))
  {
    if run.pc.Awaiting? {
      ReplyBounded(w, w', run, c);
    } else if run.pc.AskingStatus? || run.pc.RecordingStatus? {
      AskBounded(w, w', run, c);
    } else if run.pc.Logging? {
      LogBounded(w, w', run, c);
    } else if run.pc.Bumping? || run.pc.RetryBumping? {
      BumpBounded(w, w', run, c);
    } else if run.pc.Reading? || run.pc.Sending? {
      ReadSendBounded(w, w', run, c);
    } else {
      assert RunAfter(w, run, c).pc == NextPc(w, run, c) && RunAfter(w, run, c).node == run.node;
    }
  }

  lemma ExecKeepsRunsBounded(w: World, a: Action, r: nat)
    requires Bounded(w) && r < |Exec(w, a).runs|
    ensures RunBounded(Exec(w, a), Exec(w, a).runs[r])
  {
    var w' := Exec(w, a);
    ExecGrows(w, a);
    if r < |w.runs| {
      assert RunBounded(w, w.runs[r]);
      if a.Advance? && a.run == r {
        NextBounded(w, w', w.runs[r], a.choice);
      } else {
        RunBoundedLater(w, w', w.runs[r]);
      }
    }
  }

  lemma RowAfterBounded(w: World, run: Run, agentVersion: int)
    requires RunBounded(w, run) && run.node in w.db.nodes
    requires RowBounded(w.db.nodes[run.node], agentVersion) && AgentAt(w, run.node).version <= agentVersion
    ensures RowBounded(RowAfter(run.pc, w.db.nodes[run.node]), agentVersion)
  {
  }

  lemma EditKeepsRowsBounded(db: Db, e: Edit, n: Id, agentVersion: int)
    requires n in Edited(db, e).nodes && agentVersion >= 0
    requires n in db.nodes ==> RowBounded(db.nodes[n], agentVersion)
    ensures RowBounded(Edited(db, e).nodes[n], agentVersion)
  {
  }

  lemma AdvanceKeepsRowBounded(w: World, r: nat, c: Choice, n: Id)
    requires Bounded(w) && r < |w.runs| && n in w.db.nodes
    ensures var w' := Exec(w, Advance(r, c));
      n in w'.db.nodes && RowBounded(w'.db.nodes[n], AgentAt(w', n).version)
  {
    ExecGrows(w, Advance(r, c));
    var run, w' := w.runs[r], Exec(w, Advance(r, c));
    assert RunBounded(w, run) && RowBounded(w.db.nodes[n], AgentAt(w, n).version);
    if n == run.node {
      RowAfterBounded(w, run, AgentAt(w', n).version);
    }
  }

  lemma ExecKeepsRowsBounded(w: World, a: Action)
    requires Bounded(w)
    ensures RowsBounded(Exec(w, a))
  {
    var w' := Exec(w, a);
    ExecGrows(w, a);
    forall n | n in w'.db.nodes
      ensures RowBounded(w'.db.nodes[n], AgentAt(w', n).version)
    {
      if a.Edit? {
        EditKeepsRowsBounded(w.db, a.edit, n, AgentAt(w, n).version);
      } else if a.Advance? && a.run < |w.runs| {
        AdvanceKeepsRowBounded(w, a.run, a.choice, n);
      }
    }
  }

  lemma ExecKeepsNetBounded(w: World, a: Action)
    requires Bounded(w)
    ensures NetBounded(Exec(w, a))
  {
    ExecGrows(w, a);
    if a.Advance? && a.run < |w.runs| {
      assert RunBounded(w, w.runs[a.run]);
    }
  }

  /** Every interleaving keeps the bounds on versions. */
  lemma ExecKeepsBounded(w: World, a: Action)
    requires Bounded(w)
    ensures Bounded(Exec(w, a))
  {
    ExecKeepsRowsBounded(w, a);
    ExecKeepsNetBounded(w, a);
    forall r | 0 <= r < |Exec(w, a).runs|
      ensures RunBounded(Exec(w, a), Exec(w, a).runs[r])
    {
      ExecKeepsRunsBounded(w, a, r);
    }
  }
}
