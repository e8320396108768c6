/**
 * The premise of revocation in terms of time: if every run in flight at the node read its
 * list when the user's expiry had already passed, nothing in flight can bring the user back.
 */
module RevocationTiming {
  import opened Prelude
  import opened Database
  import opened SyncProtocol
  import opened SyncSafety
  import opened SyncVersions
  import opened SyncFreshness
  import opened Revocation
  import opened TraceFacts

  /** When the list a run holds was read. */
  function ListRead(pc: Pc): Option<nat> {
    match pc
    case Sending(job) => Some(job.readStep)
    case Awaiting(job, _) => Some(job.readStep)
    case Logging(job, _) => Some(job.readStep)
    case Stalling(_, readStep, _, _) => Some(readStep)
    case RetryRealigning(_, readStep, _, _) => Some(readStep)
    case RetryReloading(_, readStep) => Some(readStep)
    case RetryBumping(_, readStep) => Some(readStep)
    case _ => None
  }

  function ListHeld(pc: Pc): map<Id, Grant> {
    match pc
    case Sending(job) => job.users
    case Awaiting(job, _) => job.users
    case Logging(job, _) => job.users
    case Stalling(users, _, _, _) => users
    case RetryRealigning(users, _, _, _) => users
    case RetryReloading(users, _) => users
    case RetryBumping(users, _) => users
    case _ => map[]
  }

  /** A list that was read at all was read with the user's expiry in the past. */
  ghost predicate ReadLate(w0: World, acts: seq<Action>, pc: Pc, u: Id, t: int) {
    ListRead(pc).Some? && ListRead(pc).value <= |acts| ==> Lapsed(At(w0, acts, ListRead(pc).value).db, u, t)
  }

  lemma HeldWasRead(w0: World, acts: seq<Action>, w: World, run: Run)
    requires RunFresh(w0, acts, w, run) && ListRead(run.pc).Some?
    ensures ReadAt(w0, acts, run.node, ListHeld(run.pc), ListRead(run.pc).value)
  {
  }

  lemma HotHolds(w: World, run: Run, u: Id, b: int)
    requires Hot(w, run, u, b)
    ensures ListRead(run.pc).Some? && u in ListHeld(run.pc)
  {
  }

  lemma LateReadsAreCold(w0: World, acts: seq<Action>, u: Id, t: int, r: nat, b: int)
    requires Start(w0) && r < |Play(w0, acts).runs| && ReadLate(w0, acts, Play(w0, acts).runs[r].pc, u, t)
    ensures !Hot(Play(w0, acts), Play(w0, acts).runs[r], u, b)
  {
    var w := Play(w0, acts);
    var run := w.runs[r];
    PlayIsFresh(w0, acts);
    assert RunFresh(w0, acts, w, run);
    if ListRead(run.pc).Some? {
      HeldWasRead(w0, acts, w, run);
      LapsedIsNotActive(At(w0, acts, ListRead(run.pc).value).db, u, run.node, t);
    }
    if Hot(w, run, u, b) {
      HotHolds(w, run, u, b);
    }
  }

  /** Without an early read in flight, the world is settled at every version handed out so far. */
  lemma LateReadsSettle(w0: World, acts: seq<Action>, u: Id, n: Id, t: int)
    requires Start(w0) && Lapsed(Play(w0, acts).db, u, t)
    requires var w := Play(w0, acts);
      forall r :: 0 <= r < |w.runs| && w.runs[r].node == n ==> ReadLate(w0, acts, w.runs[r].pc, u, t)
    ensures Settled(Play(w0, acts), u, n, Ceiling(Play(w0, acts), n), t)
  {
    var w := Play(w0, acts);
    StartIsReachable(w0);
    PlayKeepsReachable(w0, acts);
    forall r | 0 <= r < |w.runs| && w.runs[r].node == n
      ensures !Hot(w, w.runs[r], u, Ceiling(w, n))
    {
      LateReadsAreCold(w0, acts, u, t, r, Ceiling(w, n));
    }
    forall i | 0 <= i < |w.net|
      ensures !Carries(w.net[i], u, n, Ceiling(w, n))
    {
      assert NetBounded(w);
    }
  }

  /**
   * What Reconcile asks for, as a condition on time: at some moment before it calls the first node the
   * expiry has passed, no run then in flight at the node read its list before that, and nothing that
   * happens until the run ends moves the expiry on.
   */
  lemma LateReadsAreRevocable(origin: World, trace: seq<Action>, k: nat, u: Id, n: Id, t: int)
    requires Start(origin) && k <= |trace| && AllCalm(trace[k..], u, t)
    requires var w := Play(origin, trace[..k]);
      && Lapsed(w.db, u, t)
      && forall r :: 0 <= r < |w.runs| && w.runs[r].node == n ==> ReadLate(origin, trace[..k], w.runs[r].pc, u, t)
    ensures Revocable(Play(origin, trace[..k]), trace[k..], u, n, t)
  {
    LateReadsSettle(origin, trace[..k], u, n, t);
  }
}
