/**
 * The running flag under any number of concurrent callers: handlers calling RunOnce and
 * the timer calling runIteration, each a goroutine that may be stopped between any two steps.
 */
module ReconcilerLock {

  /** `Swapping` is about to compare-and-swap; `Inside` is in reconcile; `Leaving` has yet to release. */
  datatype Caller = Swapping | Inside | Leaving | Refused | Returned

  /** `acquires`, `releases` and `visits` count successful swaps, releases and repository calls. */
  datatype Lock = Lock(running: bool, callers: seq<Caller>, acquires: nat, releases: nat, visits: seq<nat>)

  datatype Step =
    | Arrive
    | Swap(caller: nat)
    | Visit(caller: nat)      // one repository or sync call inside reconcile
    | Finish(caller: nat)     // reconcile returns, with or without an error
    | Release(caller: nat)

  function Do(l: Lock, s: Step): Lock {
    match s
    case Arrive => l.(callers := l.callers + [Swapping])
    case Swap(i) =>
      if i >= |l.callers| || l.callers[i] != Swapping then l
      else if l.running then l.(callers := l.callers[i := Refused])
      else l.(running := true, callers := l.callers[i := Inside], acquires := l.acquires + 1)
    case Visit(i) =>
      if i >= |l.callers| || l.callers[i] != Inside then l else l.(visits := l.visits + [i])
    case Finish(i) =>
      if i >= |l.callers| || l.callers[i] != Inside then l else l.(callers := l.callers[i := Leaving])
    case Release(i) =>
      if i >= |l.callers| || l.callers[i] != Leaving then l
      else l.(running := false, callers := l.callers[i := Returned], releases := l.releases + 1)
  }

  function Run(l: Lock, steps: seq<Step>): Lock {
    if steps == [] then l else Do(Run(l, steps[..|steps| - 1]), steps[|steps| - 1])
  }

  const IDLE := Lock(false, [], 0, 0, [])

  predicate Holding(c: Caller) {
    c == Inside || c == Leaving
  }

  ghost predicate Exclusive(l: Lock) {
    && (l.running <==> exists i :: 0 <= i < |l.callers| && Holding(l.callers[i]))
    && (forall i, j :: 0 <= i < j < |l.callers| ==> !(Holding(l.callers[i]) && Holding(l.callers[j])))
    && l.acquires == l.releases + (if l.running then 1 else 0)
    && (forall k :: 0 <= k < |l.visits| ==> l.visits[k] < |l.callers|
                                            && l.callers[l.visits[k]] != Swapping && l.callers[l.visits[k]] != Refused)
  }

  lemma SwapKeepsExclusive(l: Lock, i: nat)
    requires Exclusive(l) && i < |l.callers| && l.callers[i] == Swapping
    ensures Exclusive(Do(l, Swap(i)))
  {
    var l' := Do(l, Swap(i));
    if l.running {
      var k :| 0 <= k < |l.callers| && Holding(l.callers[k]);
      assert Holding(l'.callers[k]);
    } else {
      assert Holding(l'.callers[i]);
    }
  }

  lemma ArriveKeepsExclusive(l: Lock)
    requires Exclusive(l)
    ensures Exclusive(Do(l, Arrive))
  {
    if i :| 0 <= i < |l.callers| && Holding(l.callers[i]) {
      assert Holding(Do(l, Arrive).callers[i]);
    }
  }

  lemma DoKeepsExclusive(l: Lock, s: Step)
    requires Exclusive(l)
    ensures Exclusive(Do(l, s))
  {
    var l' := Do(l, s);
    if l' != l {
      match s
      case Arrive => ArriveKeepsExclusive(l);
      case Swap(i) => SwapKeepsExclusive(l, i);
      case Visit(i) =>
      case Finish(i) => assert Holding(l.callers[i]) && Holding(l'.callers[i]);
      case Release(i) => assert Holding(l.callers[i]);
    }
  }

  /**
   * Mutual exclusion for every interleaving.  The flag is up exactly while one caller is between
   * its swap and its release, every acquire is matched by one release, and nobody who was
   * refused, or has not swapped yet, has touched the repository.
   */
  lemma {:induction false} FlagMeansOneInside(steps: seq<Step>)
    ensures Exclusive(Run(IDLE, steps))
  {
    if steps != [] {
      FlagMeansOneInside(steps[..|steps| - 1]);
      DoKeepsExclusive(Run(IDLE, steps[..|steps| - 1]), steps[|steps| - 1]);
    }
  }

  /**
   * Nobody waits: in every state that callers can reach, a caller that swaps is let in at once exactly if
   * no other is inside, and is refused at once otherwise; and one that is inside can always leave.
   */
  lemma SwapDecides(steps: seq<Step>, i: nat)
    ensures var l := Run(IDLE, steps);
      && (i < |l.callers| && l.callers[i] == Swapping ==>
            Do(l, Swap(i)).callers[i] ==
              if exists j :: 0 <= j < |l.callers| && Holding(l.callers[j]) then Refused else Inside)
      && (i < |l.callers| && Holding(l.callers[i]) ==>
            && i < |Do(Do(l, Finish(i)), Release(i)).callers|
            && Do(Do(l, Finish(i)), Release(i)).callers[i] == Returned && !Do(Do(l, Finish(i)), Release(i)).running)
  {
    FlagMeansOneInside(steps);
  }

  predicate StepOf(s: Step, i: nat) {
    match s
    case Arrive => false
    case Swap(k) => k == i
    case Visit(k) => k == i
    case Finish(k) => k == i
    case Release(k) => k == i
  }

  function Without(steps: seq<Step>, i: nat): seq<Step> {
    if steps == [] then []
    else
      var init, last := Without(steps[..|steps| - 1], i), steps[|steps| - 1];
      if StepOf(last, i) then init else init + [last]
  }

  /**
   * A refused caller might as well not be there: over every interleaving, erasing all it still does
   * leaves the flag, the counters, the repository calls and everyone else exactly as they are.
   */
  lemma {:induction false} RefusedCallerErased(l: Lock, i: nat, steps: seq<Step>)
    requires i < |l.callers| && l.callers[i] == Refused
    ensures var l' := Run(l, steps);
      i < |l'.callers| && l'.callers[i] == Refused && l' == Run(l, Without(steps, i))
  {
    if steps != [] {
      var init, last := steps[..|steps| - 1], steps[|steps| - 1];
      RefusedCallerErased(l, i, init);
      var kept := Without(init, i);
      assert (kept + [last])[..|kept|] == kept;
    }
  }
}
