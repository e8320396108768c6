/**
 * When is an expired user gone from an agent for good?
 *
 * The database stops listing the user once the expiry has passed, but a run that read
 * its list earlier, or a payload still on the wire, may bring the user back.  `Clean`
 * is the exact condition under which no interleaving can.
 */
module Revocation {
  import opened Database
  import opened SyncProtocol
  import opened SyncSafety
  import opened SyncVersions

  /** The user's expiry lies at or before `t`, and `t` has come. */
  predicate Lapsed(db: Db, u: Id, t: int) {
    && u in db.users && t <= db.now
    && (!db.users[u].live || (db.users[u].expiresAt.Some? && db.users[u].expiresAt.value <= t))
  }

  /** The action does not move the user's expiry beyond `t`; every other edit is allowed. */
  predicate Calm(a: Action, u: Id, t: int) {
    a.Edit? && a.edit.UpdateUser? && a.edit.user == u ==>
      a.edit.expiresAt.Some? && a.edit.expiresAt.value <= t
  }

  predicate AllCalm(acts: seq<Action>, u: Id, t: int) {
    forall i :: 0 <= i < |acts| ==> Calm(acts[i], u, t)
  }

  /** The run holds a list with the user and may still send it with a version above `b`. */
  predicate Hot(w: World, run: Run, u: Id, b: int) {
    var live := NodeLive(w.db, run.node);
    match run.pc
    case Sending(job) => u in job.users && (job.version > b || (job.mayRetry && live))
    case Awaiting(job, _) => u in job.users && job.mayRetry && live
    case Logging(job, outcome) => u in job.users && outcome.Stale? && live
    case Stalling(users, _, _, _) => u in users && live
    case RetryRealigning(users, _, _, _) => u in users && live
    case RetryReloading(users, _) => u in users && live
    case RetryBumping(users, _) => u in users && live
    case _ => false
  }

  predicate Carries(p: Packet, u: Id, n: Id, b: int) {
    p.node == n && u in p.users && p.version > b
  }

  ghost predicate Threat(w: World, u: Id, n: Id, b: int) {
    || (exists r :: 0 <= r < |w.runs| && w.runs[r].node == n && Hot(w, w.runs[r], u, b))
    || (exists i :: 0 <= i < |w.net| && Carries(w.net[i], u, n, b))
  }

  /** No payload with the user can reach the agent of `n` with a version above `b`, now or later. */
  ghost predicate Settled(w: World, u: Id, n: Id, b: int, t: int) {
    Lapsed(w.db, u, t) && !Threat(w, u, n, b)
  }

  ghost predicate Clean(w: World, u: Id, n: Id, t: int) {
    Settled(w, u, n, AgentAt(w, n).version, t) && u !in AgentAt(w, n).users
  }

  // ------------------------------------------------------------------ stability

  lemma EditKeepsLapsed(db: Db, e: Edit, u: Id, t: int)
    requires Lapsed(db, u, t) && Calm(Action.Edit(e), u, t)
    ensures Lapsed(Edited(db, e), u, t)
  {
  }

  lemma StatementKeepsUsers(db: Db, run: Run, c: Choice)
    ensures DbAfter(db, run, c).users == db.users && DbAfter(db, run, c).now == db.now
  {
  }

  lemma LapsedIsStable(w: World, a: Action, u: Id, t: int)
    requires Lapsed(w.db, u, t) && Calm(a, u, t)
    ensures Lapsed(Exec(w, a).db, u, t)
  {
    match a
    case Advance(r, c) =>
      if r < |w.runs| {
        StatementKeepsUsers(w.db, w.runs[r], c);
      }
    case Edit(e) =>
      EditKeepsLapsed(w.db, e, u, t);
    case _ =>
  }

  lemma LapsedIsNotActive(db: Db, u: Id, n: Id, t: int)
    requires Lapsed(db, u, t)
    ensures u !in ActiveAccess(db, n)
  {
  }

  lemma ReadIsCold(w: World, w': World, run: Run, c: Choice, u: Id, b: int, t: int)
    requires Lapsed(w.db, u, t) && run.pc.Reading?
    ensures !Hot(w', RunAfter(w, run, c), u, b)
  {
    LapsedIsNotActive(w.db, u, run.node, t);
  }

  lemma SendIsCold(w: World, w': World, run: Run, c: Choice, u: Id, b: int)
    requires !Hot(w, run, u, b) && Later(w, w') && run.node in w.db.nodes && run.pc.Sending?
    ensures !Hot(w', RunAfter(w, run, c), u, b)
  {
    assert RunAfter(w, run, c).pc == Awaiting(run.pc.job, |w.net|);
  }

  lemma LogIsCold(w: World, w': World, run: Run, c: Choice, u: Id, b: int)
    requires !Hot(w, run, u, b) && Later(w, w') && run.node in w.db.nodes && run.pc.Logging?
    ensures !Hot(w', RunAfter(w, run, c), u, b)
  {
    assert RunAfter(w, run, c).pc == NextPc(w, run, c) && RunAfter(w, run, c).node == run.node;
  }

  lemma OtherStepIsCold(w: World, w': World, run: Run, c: Choice, u: Id, b: int)
    requires !Hot(w, run, u, b) && Later(w, w') && RunBounded(w, run)
    requires !run.pc.Reading? && !run.pc.Awaiting?
    ensures !Hot(w', RunAfter(w, run, c), u, b)
  {
    if run.pc.Sending? {
      SendIsCold(w, w', run, c, u, b);
    } else if run.pc.Logging? {
      LogIsCold(w, w', run, c, u, b);
    } else {
      assert RunAfter(w, run, c).pc == NextPc(w, run, c) && RunAfter(w, run, c).node == run.node;
    }
  }

  lemma ReplyIsCold(w: World, w': World, run: Run, c: Choice, u: Id, b: int)
    requires !Hot(w, run, u, b) && Later(w, w') && RunBounded(w, run) && run.pc.Awaiting?
    ensures !Hot(w', RunAfter(w, run, c), u, b)
  {
    var pc := NextPc(w, run, c);
    assert RunAfter(w, run, c).pc == pc && RunAfter(w, run, c).node == run.node;
    assert pc.Logging? && pc.job == run.pc.job;
    assert pc.outcome.Stale? ==> run.pc.job.mayRetry;
  }

  /** A run that is not hot does not become hot by its own step. */
  lemma NextIsCold(w: World, w': World, run: Run, c: Choice, u: Id, b: int, t: int)
    requires Lapsed(w.db, u, t) && !Hot(w, run, u, b) && Later(w, w') && RunBounded(w, run)
    ensures !Hot(w', RunAfter(w, run, c), u, b)
  {
    if run.pc.Reading? {
      ReadIsCold(w, w', run, c, u, b, t);
    } else if run.pc.Awaiting? {
      ReplyIsCold(w, w', run, c, u, b);
    } else {
      OtherStepIsCold(w, w', run, c, u, b);
    }
  }

  lemma ColdLater(w: World, w': World, run: Run, u: Id, b: int)
    requires !Hot(w, run, u, b) && Later(w, w') && RunBounded(w, run)
    ensures !Hot(w', run, u, b)
  {
  }

  lemma RunsStayCold(w: World, a: Action, u: Id, n: Id, b: int, t: int, r: nat)
    requires Bounded(w) && Settled(w, u, n, b, t) && r < |Exec(w, a).runs| && Exec(w, a).runs[r].node == n
    ensures !Hot(Exec(w, a), Exec(w, a).runs[r], u, b)
  {
    ExecGrows(w, a);
    if r < |w.runs| {
      assert RunBounded(w, w.runs[r]);
      if a.Advance? && a.run == r {
        NextIsCold(w, Exec(w, a), w.runs[r], a.choice, u, b, t);
      } else {
        ColdLater(w, Exec(w, a), w.runs[r], u, b);
      }
    }
  }

  lemma SettledIsStable(w: World, a: Action, u: Id, n: Id, b: int, t: int)
    requires Bounded(w) && Settled(w, u, n, b, t) && Calm(a, u, t)
    ensures Settled(Exec(w, a), u, n, b, t)
  {
    var w' := Exec(w, a);
    LapsedIsStable(w, a, u, t);
    forall r | 0 <= r < |w'.runs| && w'.runs[r].node == n
      ensures !Hot(w', w'.runs[r], u, b)
    {
      RunsStayCold(w, a, u, n, b, t, r);
    }
    forall i | 0 <= i < |w'.net|
      ensures !Carries(w'.net[i], u, n, b)
    {
      if i < |w.net| {
        assert w'.net[i] == w.net[i];
      } else {
        assert !Hot(w, w.runs[a.run], u, b) || w.runs[a.run].node != n;
      }
    }
  }

  lemma SettledAbove(w: World, u: Id, n: Id, b: int, b': int, t: int)
    requires Settled(w, u, n, b, t) && b <= b'
    ensures Settled(w, u, n, b', t)
  {
    forall r | 0 <= r < |w.runs| && w.runs[r].node == n
      ensures !Hot(w, w.runs[r], u, b')
    {
      assert !Hot(w, w.runs[r], u, b);
    }
    forall i | 0 <= i < |w.net|
      ensures !Carries(w.net[i], u, n, b')
    {
      assert !Carries(w.net[i], u, n, b);
    }
  }

  lemma CleanIsStable(w: World, a: Action, u: Id, n: Id, t: int)
    requires Bounded(w) && Clean(w, u, n, t) && Calm(a, u, t)
    ensures Clean(Exec(w, a), u, n, t)
  {
    var w' := Exec(w, a);
    SettledIsStable(w, a, u, n, AgentAt(w, n).version, t);
    ExecGrows(w, a);
    SettledAbove(w', u, n, AgentAt(w, n).version, AgentAt(w', n).version, t);
    ExecIsAgentStep(w, a, n);
    if exists i :: 0 <= i < |w.net| && w.net[i].node == n && AgentAt(w', n) == Delivered(AgentAt(w, n), w.net[i], i) {
      var i :| 0 <= i < |w.net| && w.net[i].node == n && AgentAt(w', n) == Delivered(AgentAt(w, n), w.net[i], i);
      assert !Carries(w.net[i], u, n, AgentAt(w, n).version);
    }
  }

  /** Once clean, always clean, over every interleaving that leaves the expiry in the past. */
  lemma {:induction false} CleanForever(w: World, acts: seq<Action>, u: Id, n: Id, t: int)
    requires Reachable(w) && Clean(w, u, n, t) && AllCalm(acts, u, t)
    ensures Clean(Play(w, acts), u, n, t)
  {
    if acts != [] {
      var init := acts[..|acts| - 1];
      CleanForever(w, init, u, n, t);
      PlayKeepsReachable(w, init);
      CleanIsStable(Play(w, init), acts[|acts| - 1], u, n, t);
    }
  }

  /** The largest version handed out so far for a node. */
  function Ceiling(w: World, n: Id): int {
    if n in w.db.nodes then w.db.nodes[n].desired else 0
  }

  lemma CeilingGrows(w: World, a: Action, n: Id)
    ensures Ceiling(w, n) <= Ceiling(Exec(w, a), n)
  {
    ExecGrows(w, a);
  }

  lemma {:induction false} SettledForever(w: World, acts: seq<Action>, u: Id, n: Id, b: int, t: int)
    requires Reachable(w) && Settled(w, u, n, b, t) && AllCalm(acts, u, t)
    ensures Settled(Play(w, acts), u, n, b, t)
    ensures Ceiling(w, n) <= Ceiling(Play(w, acts), n)
  {
    if acts != [] {
      var init := acts[..|acts| - 1];
      SettledForever(w, init, u, n, b, t);
      PlayKeepsReachable(w, init);
      SettledIsStable(Play(w, init), acts[|acts| - 1], u, n, b, t);
      CeilingGrows(Play(w, init), acts[|acts| - 1], n);
    }
  }

  // ------------------------------------------------------ what a successful sync gives

  /**
   * A run that began when nothing above `b` could bring the user back.  Its own version is
   * above `b`, so once the agent has taken its payload over, the user is gone for good.
   */
  ghost predicate Guard(w: World, r: nat, u: Id, n: Id, b: int, t: int) {
    && r < |w.runs| && w.runs[r].node == n && !w.runs[r].statusOnly
    && Settled(w, u, n, b, t)
    && b <= Ceiling(w, n)
    && match w.runs[r].pc
       case Reading(version, _) => version > b
       case Sending(job) => job.version > b
       case Awaiting(job, _) => job.version > b
       case Logging(job, outcome) => outcome.Applied? ==> Clean(w, u, n, t)
       case Succeeding(_) => Clean(w, u, n, t)
       case Done(_) => Clean(w, u, n, t)
       case _ => true
  }

  lemma AcceptedIsClean(w: World, r: nat, c: Choice, u: Id, n: Id, b: int, t: int)
    requires Bounded(w) && Guard(w, r, u, n, b, t) && w.runs[r].pc.Awaiting?
    requires NextPc(w, w.runs[r], c).outcome.Applied?
    ensures Clean(Advanced(w, r, c), u, n, t)
  {
    var run, w' := w.runs[r], Advanced(w, r, c);
    assert RunBounded(w, run);
    var job, p := run.pc.job, w.net[run.pc.packet];
    AnswerIsRemote(w, n, p, c, job.version, job.mayRetry);
    assert AgentAt(w', n) == Delivered(AgentAt(w, n), p, run.pc.packet);
    SettledIsStable(w, Advance(r, c), u, n, b, t);
    SettledAbove(w', u, n, b, job.version, t);
    assert !Carries(p, u, n, b);
  }

  lemma OwnStepKeepsGuard(w: World, r: nat, c: Choice, u: Id, n: Id, b: int, t: int)
    requires Bounded(w) && Guard(w, r, u, n, b, t)
    ensures Guard(Advanced(w, r, c), r, u, n, b, t)
  {
    var run, w', a := w.runs[r], Advanced(w, r, c), Advance(r, c);
    SettledIsStable(w, a, u, n, b, t);
    CeilingGrows(w, a, n);
    assert RunBounded(w, run);
    assert w'.runs[r].pc == NextPc(w, run, c);
    match run.pc
    case Awaiting(_, _) =>
      if NextPc(w, run, c).outcome.Applied? {
        AcceptedIsClean(w, r, c, u, n, b, t);
      }
    case Logging(_, outcome) =>
      if outcome.Applied? { CleanIsStable(w, a, u, n, t); }
    case Succeeding(_) => CleanIsStable(w, a, u, n, t);
    case Done(_) => CleanIsStable(w, a, u, n, t);
    case _ =>
  }

  lemma GuardIsStable(w: World, a: Action, r: nat, u: Id, n: Id, b: int, t: int)
    requires Bounded(w) && Guard(w, r, u, n, b, t) && Calm(a, u, t)
    ensures Guard(Exec(w, a), r, u, n, b, t)
  {
    if a.Advance? && a.run == r {
      OwnStepKeepsGuard(w, r, a.choice, u, n, b, t);
    } else {
      var w' := Exec(w, a);
      SettledIsStable(w, a, u, n, b, t);
      CeilingGrows(w, a, n);
      assert w'.runs[r] == w.runs[r];
      if Clean(w, u, n, t) {
        CleanIsStable(w, a, u, n, t);
      }
    }
  }

  lemma {:induction false} PlayKeepsGuard(w: World, acts: seq<Action>, r: nat, u: Id, n: Id, b: int, t: int)
    requires Reachable(w) && Guard(w, r, u, n, b, t) && AllCalm(acts, u, t)
    ensures Guard(Play(w, acts), r, u, n, b, t)
  {
    if acts != [] {
      var init := acts[..|acts| - 1];
      PlayKeepsGuard(w, init, r, u, n, b, t);
      PlayKeepsReachable(w, init);
      GuardIsStable(Play(w, init), acts[|acts| - 1], r, u, n, b, t);
    }
  }

  /**
   * Revocation by one sync.  If the expiry has passed and no run still in flight could send an
   * old list under a new version, then a sync that begins now and succeeds, however it is
   * interleaved, leaves the agent without the user for good.
   */
  lemma SyncRevokes(w: World, acts: seq<Action>, u: Id, n: Id, t: int)
    requires Reachable(w) && Settled(w, u, n, Ceiling(w, n), t) && AllCalm(acts, u, t)
    requires |w.runs| < |Play(Exec(w, Begin(n, false)), acts).runs|
    requires Play(Exec(w, Begin(n, false)), acts).runs[|w.runs|].pc.Done?
    ensures Clean(Play(Exec(w, Begin(n, false)), acts), u, n, t)
  {
    var w1 := Exec(w, Begin(n, false));
    SettledIsStable(w, Begin(n, false), u, n, Ceiling(w, n), t);
    ExecKeepsReachable(w, Begin(n, false));
    PlayKeepsGuard(w1, acts, |w.runs|, u, n, Ceiling(w, n), t);
  }
}
