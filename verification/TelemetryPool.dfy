/**
 * fetchNodes: a dispatcher hands jobs over an unbuffered channel to a fixed number of
 * workers, each of which writes its result into the slot of its job; once the context is
 * done the dispatcher may fill a slot itself instead.  Every schedule and every moment of
 * cancellation is a sequence of steps.
 */
module TelemetryPool {
  import opened Prelude
  import opened Telemetry

  /** The arguments of one call; `answers[i]` is what the agent of node `i` replies if left alone. */
  datatype Task = Task(
    nodes: seq<Node>, answers: seq<Answer>, users: map<string, User>, index: FallbackIndex, strict: bool)

  datatype Worker = Idle | Busy(job: nat) | Exited

  /** `writes` counts the writes to each slot. */
  datatype Pool = Pool(
    next: nat, closed: bool, cancelled: bool, returned: bool,
    workers: seq<Worker>, results: seq<Option<NodeView>>, writes: seq<nat>)

  datatype Step =
    | Cancel
    | Skip                                                  // the select takes ctx.Done()
    | HandOff(worker: nat)                                  // the select sends to an idle worker
    | Complete(worker: nat, interrupted: Option<string>)    // a fetch returns, perhaps cut short
    | Close
    | Exit(worker: nat)
    | Return

  const DEFAULT_CONCURRENCY := 6

  function PoolSize(concurrency: int, nodes: nat): nat {
    var size := if concurrency <= 0 then DEFAULT_CONCURRENCY else concurrency;
    if size > nodes then nodes else size
  }

  function Start(t: Task, concurrency: int): Pool {
    Pool(0, false, false, false, seq(PoolSize(concurrency, |t.nodes|), _ => Idle),
         seq(|t.nodes|, _ => None), seq(|t.nodes|, _ => 0))
  }

  function View(t: Task, i: nat, answer: Answer): NodeView
    requires i < |t.nodes|
  {
    FetchNodeView(t.nodes[i], answer, t.users, t.index, t.strict)
  }

  function Written(p: Pool, i: nat, view: NodeView): Pool {
    if i < |p.results| && i < |p.writes| then
      p.(results := p.results[i := Some(view)], writes := p.writes[i := p.writes[i] + 1])
    else p
  }

  function Do(t: Task, p: Pool, s: Step): Pool {
    match s
    case Cancel => p.(cancelled := true)
    case Skip =>
      if p.next < |t.nodes| && p.cancelled then
        Written(p, p.next, CanceledView(t.nodes[p.next])).(next := p.next + 1)
      else p
    case HandOff(k) =>
      if p.next < |t.nodes| && k < |p.workers| && p.workers[k].Idle? then
        p.(workers := p.workers[k := Busy(p.next)], next := p.next + 1)
      else p
    case Complete(k, interrupted) =>
      if k < |p.workers| && p.workers[k].Busy? && p.workers[k].job < |t.nodes| && p.workers[k].job < |t.answers|
         && (interrupted.Some? ==> p.cancelled) then
        var i := p.workers[k].job;
        var answer := if interrupted.Some? then CallFailed(interrupted.value) else t.answers[i];
        Written(p, i, View(t, i, answer)).(workers := p.workers[k := Idle])
      else p
    case Close => if p.next == |t.nodes| && !p.closed then p.(closed := true) else p
    case Exit(k) =>
      if p.closed && k < |p.workers| && p.workers[k].Idle? then p.(workers := p.workers[k := Exited]) else p
    case Return =>
      if p.closed && (forall k :: 0 <= k < |p.workers| ==> p.workers[k].Exited?) && !p.returned then
        p.(returned := true)
      else p
  }

  function Run(t: Task, p: Pool, steps: seq<Step>): Pool {
    if steps == [] then p else Do(t, Run(t, p, steps[..|steps| - 1]), steps[|steps| - 1])
  }

  // ----------------------------------------------------------------- what always holds

  /** A view the pool may put into slot `i`. */
  ghost predicate Describes(t: Task, cancelled: bool, i: nat, view: NodeView)
    requires i < |t.nodes| == |t.answers|
  {
    || view == View(t, i, t.answers[i])
    || (cancelled && (view == CanceledView(t.nodes[i]) || exists e :: view == View(t, i, CallFailed(e))))
  }

  ghost predicate SlotInOrder(t: Task, p: Pool, i: nat)
    requires i < |t.nodes| == |t.answers| == |p.results| == |p.writes|
  {
    && p.writes[i] <= 1
    && (p.writes[i] == 1 <==> p.results[i].Some?)
    && (i >= p.next ==> p.writes[i] == 0)
    && (i < p.next && p.writes[i] == 0 ==> exists k :: 0 <= k < |p.workers| && p.workers[k] == Busy(i))
    && (p.results[i].Some? ==> Describes(t, p.cancelled, i, p.results[i].value))
  }

  ghost predicate InOrder(t: Task, p: Pool, size: nat) {
    && |t.nodes| == |t.answers| == |p.results| == |p.writes| && |p.workers| == size && p.next <= |t.nodes|
    && (forall i :: 0 <= i < |t.nodes| ==> SlotInOrder(t, p, i))
    && (forall k :: 0 <= k < |p.workers| && p.workers[k].Busy? ==>
          p.workers[k].job < p.next && p.writes[p.workers[k].job] == 0)
    && (forall j, k :: 0 <= j < k < |p.workers| && p.workers[j].Busy? ==> p.workers[j] != p.workers[k])
    && (p.closed ==> p.next == |t.nodes|)
    && (forall k :: 0 <= k < |p.workers| && p.workers[k].Exited? ==> p.closed)
    && (p.returned ==> p.closed && forall k :: 0 <= k < |p.workers| ==> p.workers[k].Exited?)
  }

  lemma StartInOrder(t: Task, concurrency: int)
    requires |t.nodes| == |t.answers|
    ensures InOrder(t, Start(t, concurrency), PoolSize(concurrency, |t.nodes|))
  {
  }

  /** A slot whose writes are untouched, and whose worker, if any, is still at it. */
  lemma UntouchedSlot(t: Task, p: Pool, p': Pool, i: nat)
    requires i < |t.nodes| == |t.answers| == |p.results| == |p.writes| == |p'.results| == |p'.writes|
    requires SlotInOrder(t, p, i) && p'.writes[i] == p.writes[i] && p'.results[i] == p.results[i]
    requires p.next <= p'.next && (p.cancelled ==> p'.cancelled)
    requires i < p.next && p.writes[i] == 0 ==> forall k :: 0 <= k < |p.workers| && p.workers[k] == Busy(i) ==>
      k < |p'.workers| && p'.workers[k] == Busy(i)
    requires p.next <= i < p'.next ==> exists k :: 0 <= k < |p'.workers| && p'.workers[k] == Busy(i)
    ensures SlotInOrder(t, p', i)
  {
    if i < p.next && p.writes[i] == 0 {
      var k :| 0 <= k < |p.workers| && p.workers[k] == Busy(i);
      assert p'.workers[k] == Busy(i);
    }
  }

  lemma SlotAfterComplete(t: Task, p: Pool, s: Step, size: nat, i: nat)
    requires InOrder(t, p, size) && i < |t.nodes| && s.Complete?
    ensures |Do(t, p, s).results| == |Do(t, p, s).writes| == |t.nodes|
    ensures SlotInOrder(t, Do(t, p, s), i)
  {
    var p' := Do(t, p, s);
    assert SlotInOrder(t, p, i);
    if p' != p && p.workers[s.worker].job != i {
      UntouchedSlot(t, p, p', i);
    }
  }

  lemma SlotAfterSkip(t: Task, p: Pool, size: nat, i: nat)
    requires InOrder(t, p, size) && i < |t.nodes|
    ensures |Do(t, p, Skip).results| == |Do(t, p, Skip).writes| == |t.nodes|
    ensures SlotInOrder(t, Do(t, p, Skip), i)
  {
    assert SlotInOrder(t, p, i);
    if i != p.next {
      UntouchedSlot(t, p, Do(t, p, Skip), i);
    }
  }

  lemma SlotStaysInOrder(t: Task, p: Pool, s: Step, size: nat, i: nat)
    requires InOrder(t, p, size) && i < |t.nodes|
    ensures |Do(t, p, s).results| == |Do(t, p, s).writes| == |t.nodes|
    ensures SlotInOrder(t, Do(t, p, s), i)
  {
    if s.Complete? {
      SlotAfterComplete(t, p, s, size, i);
    } else if s.Skip? {
      SlotAfterSkip(t, p, size, i);
    } else {
      var p' := Do(t, p, s);
      assert SlotInOrder(t, p, i);
      if s.HandOff? && p' != p {
        assert p'.workers[s.worker] == Busy(p.next);
      }
      UntouchedSlot(t, p, p', i);
    }
  }

  lemma WorkersStayInOrder(t: Task, p: Pool, s: Step, size: nat)
    requires InOrder(t, p, size)
    ensures var p' := Do(t, p, s);
      && |p'.workers| == size && p'.next <= |t.nodes| && |p'.writes| == |t.nodes|
      && forall k :: 0 <= k < |p'.workers| && p'.workers[k].Busy? ==>
           p'.workers[k].job < p'.next && p'.writes[p'.workers[k].job] == 0
  {
    if p.next < |t.nodes| {
      assert SlotInOrder(t, p, p.next);
    }
  }

  lemma WorkersStayApart(t: Task, p: Pool, s: Step, size: nat)
    requires InOrder(t, p, size)
    ensures var p' := Do(t, p, s);
      forall j, k :: 0 <= j < k < |p'.workers| && p'.workers[j].Busy? ==> p'.workers[j] != p'.workers[k]
  {
  }

  lemma DoKeepsOrder(t: Task, p: Pool, s: Step, size: nat)
    requires InOrder(t, p, size)
    ensures InOrder(t, Do(t, p, s), size)
  {
    forall i | 0 <= i < |t.nodes|
      ensures SlotInOrder(t, Do(t, p, s), i)
    {
      SlotStaysInOrder(t, p, s, size, i);
    }
    WorkersStayInOrder(t, p, s, size);
    WorkersStayApart(t, p, s, size);
  }

  lemma {:induction false} RunKeepsOrder(t: Task, concurrency: int, steps: seq<Step>)
    requires |t.nodes| == |t.answers|
    ensures InOrder(t, Run(t, Start(t, concurrency), steps), PoolSize(concurrency, |t.nodes|))
  {
    if steps == [] {
      StartInOrder(t, concurrency);
    } else {
      RunKeepsOrder(t, concurrency, steps[..|steps| - 1]);
      var init, last := steps[..|steps| - 1], steps[|steps| - 1];
      DoKeepsOrder(t, Run(t, Start(t, concurrency), init), last, PoolSize(concurrency, |t.nodes|));
    }
  }

  lemma {:induction false} CancelledOnlyByCancel(t: Task, p: Pool, steps: seq<Step>)
    requires Cancel !in steps && !p.cancelled
    ensures !Run(t, p, steps).cancelled
  {
    if steps != [] {
      assert steps == steps[..|steps| - 1] + [steps[|steps| - 1]];
      CancelledOnlyByCancel(t, p, steps[..|steps| - 1]);
    }
  }

  /**
   * Every schedule, every moment of cancellation: once the pool returns, each slot has been
   * written exactly once and describes its own node; without cancellation the results are
   * fetchNodeView mapped over the nodes, in order.
   */
  lemma EverySlotOnce(t: Task, concurrency: int, steps: seq<Step>)
    requires |t.nodes| == |t.answers|
    ensures var p := Run(t, Start(t, concurrency), steps);
      && |p.results| == |p.writes| == |t.nodes|
      && (p.returned ==> forall i :: 0 <= i < |t.nodes| ==>
            p.writes[i] == 1 && p.results[i].Some? && Describes(t, p.cancelled, i, p.results[i].value))
      && (p.returned && Cancel !in steps ==> forall i :: 0 <= i < |t.nodes| ==>
            p.results[i] == Some(View(t, i, t.answers[i])))
  {
    var p := Run(t, Start(t, concurrency), steps);
    RunKeepsOrder(t, concurrency, steps);
    forall i | 0 <= i < |t.nodes| && p.returned
      ensures p.writes[i] == 1 && p.results[i].Some? && Describes(t, p.cancelled, i, p.results[i].value)
    {
      assert SlotInOrder(t, p, i);
    }
    if Cancel !in steps {
      CancelledOnlyByCancel(t, Start(t, concurrency), steps);
    }
  }

  // ---------------------------------------------------------------------------- progress

  function BusyCount(workers: seq<Worker>): nat {
    if workers == [] then 0
    else BusyCount(workers[..|workers| - 1]) + (if workers[|workers| - 1].Busy? then 1 else 0)
  }

  function LiveCount(workers: seq<Worker>): nat {
    if workers == [] then 0
    else LiveCount(workers[..|workers| - 1]) + (if workers[|workers| - 1].Exited? then 0 else 1)
  }

  lemma {:induction false} CountsAfter(workers: seq<Worker>, k: nat, w: Worker)
    requires k < |workers|
    ensures BusyCount(workers[k := w]) ==
      BusyCount(workers) - (if workers[k].Busy? then 1 else 0) + (if w.Busy? then 1 else 0)
    ensures LiveCount(workers[k := w]) ==
      LiveCount(workers) - (if workers[k].Exited? then 0 else 1) + (if w.Exited? then 0 else 1)
  {
    var init := workers[..|workers| - 1];
    if k < |init| {
      CountsAfter(init, k, w);
      assert workers[k := w][..|workers| - 1] == init[k := w];
    } else {
      assert workers[k := w][..|workers| - 1] == init;
    }
  }

  lemma {:induction false} CountsBounded(workers: seq<Worker>)
    ensures BusyCount(workers) <= LiveCount(workers) <= |workers|
  {
    if workers != [] {
      CountsBounded(workers[..|workers| - 1]);
    }
  }

  /** Undispatched jobs, busy workers, live workers and the three flags still to be set. */
  function Remaining(t: Task, p: Pool): nat
    requires p.next <= |t.nodes|
  {
    2 * (|t.nodes| - p.next) + BusyCount(p.workers) + LiveCount(p.workers)
    + (if p.closed then 0 else 1) + (if p.cancelled then 0 else 1) + (if p.returned then 0 else 1)
  }

  /** At most `min(concurrency, number of nodes)` fetches are in flight. */
  lemma FetchesInFlight(t: Task, concurrency: int, steps: seq<Step>)
    requires |t.nodes| == |t.answers|
    ensures var p := Run(t, Start(t, concurrency), steps);
      && BusyCount(p.workers) <= PoolSize(concurrency, |t.nodes|) <= |t.nodes|
      && (concurrency > 0 ==> BusyCount(p.workers) <= concurrency)
  {
    RunKeepsOrder(t, concurrency, steps);
    CountsBounded(Run(t, Start(t, concurrency), steps).workers);
  }

  function HandOffs(k: nat): seq<Step> {
    seq(k, i requires 0 <= i < k => HandOff(i))
  }

  lemma {:induction false} FirstAreBusy(t: Task, concurrency: int, k: nat)
    requires |t.nodes| == |t.answers| && k <= PoolSize(concurrency, |t.nodes|)
    ensures var p := Run(t, Start(t, concurrency), HandOffs(k));
      && p.next == k && |p.workers| == PoolSize(concurrency, |t.nodes|) && BusyCount(p.workers) == k
      && forall i :: k <= i < |p.workers| ==> p.workers[i].Idle?
  {
    var p0 := Start(t, concurrency);
    if k == 0 {
      NoneBusy(p0.workers);
    } else {
      FirstAreBusy(t, concurrency, k - 1);
      assert HandOffs(k)[..k - 1] == HandOffs(k - 1);
      CountsAfter(Run(t, p0, HandOffs(k - 1)).workers, k - 1, Busy(k - 1));
    }
  }

  lemma {:induction false} NoneBusy(workers: seq<Worker>)
    requires forall i :: 0 <= i < |workers| ==> workers[i].Idle?
    ensures BusyCount(workers) == 0
  {
    if workers != [] {
      NoneBusy(workers[..|workers| - 1]);
    }
  }

  /** The bound is reached: as many fetches as the concurrency allows can be in flight at once. */
  lemma PoolFills(t: Task, concurrency: int) returns (steps: seq<Step>)
    requires |t.nodes| == |t.answers|
    ensures var p, allowed := Run(t, Start(t, concurrency), steps), if concurrency > 0 then concurrency else 6;
      BusyCount(p.workers) == if allowed < |t.nodes| then allowed else |t.nodes|
  {
    steps := HandOffs(PoolSize(concurrency, |t.nodes|));
    FirstAreBusy(t, concurrency, PoolSize(concurrency, |t.nodes|));
  }

  /** Every step that does anything shortens what remains. */
  lemma EveryStepCounts(t: Task, p: Pool, s: Step, size: nat)
    requires InOrder(t, p, size) && Do(t, p, s) != p
    ensures Do(t, p, s).next <= |t.nodes| && Remaining(t, Do(t, p, s)) < Remaining(t, p)
  {
    DoKeepsOrder(t, p, s, size);
    match s
    case HandOff(k) => CountsAfter(p.workers, k, Busy(p.next));
    case Complete(k, _) => CountsAfter(p.workers, k, Idle);
    case Exit(k) => CountsAfter(p.workers, k, Exited);
    case _ =>
  }

  /** How many of the steps do anything. */
  function EffectiveSteps(t: Task, p: Pool, steps: seq<Step>): nat {
    if steps == [] then 0
    else
      var init, last := steps[..|steps| - 1], steps[|steps| - 1];
      EffectiveSteps(t, p, init) + (if Do(t, Run(t, p, init), last) != Run(t, p, init) then 1 else 0)
  }

  lemma {:induction false} EffectiveStepsSpend(t: Task, concurrency: int, steps: seq<Step>)
    requires |t.nodes| == |t.answers|
    ensures var p0 := Start(t, concurrency);
      && Run(t, p0, steps).next <= |t.nodes|
      && EffectiveSteps(t, p0, steps) + Remaining(t, Run(t, p0, steps)) <= Remaining(t, p0)
  {
    var p0 := Start(t, concurrency);
    RunKeepsOrder(t, concurrency, steps);
    if steps != [] {
      var init, last := steps[..|steps| - 1], steps[|steps| - 1];
      EffectiveStepsSpend(t, concurrency, init);
      RunKeepsOrder(t, concurrency, init);
      if Do(t, Run(t, p0, init), last) != Run(t, p0, init) {
        EveryStepCounts(t, Run(t, p0, init), last, PoolSize(concurrency, |t.nodes|));
      }
    }
  }

  lemma {:induction false} IdleCounts(workers: seq<Worker>)
    requires forall k :: 0 <= k < |workers| ==> workers[k].Idle?
    ensures BusyCount(workers) == 0 && LiveCount(workers) == |workers|
  {
    if workers != [] {
      IdleCounts(workers[..|workers| - 1]);
    }
  }

  /** No schedule, however long, has more effective steps than three a node and three for the pool. */
  lemma EveryScheduleEnds(t: Task, concurrency: int, steps: seq<Step>)
    requires |t.nodes| == |t.answers|
    ensures EffectiveSteps(t, Start(t, concurrency), steps) <= 3 * |t.nodes| + 3
  {
    EffectiveStepsSpend(t, concurrency, steps);
    IdleCounts(Start(t, concurrency).workers);
  }

  /** Until it returns, the pool is never stuck: some step other than a cancellation is possible. */
  lemma NeverStuck(t: Task, concurrency: int, steps: seq<Step>) returns (s: Step)
    requires |t.nodes| == |t.answers|
    requires !Run(t, Start(t, concurrency), steps).returned
    ensures s != Cancel && Do(t, Run(t, Start(t, concurrency), steps), s) != Run(t, Start(t, concurrency), steps)
  {
    var p := Run(t, Start(t, concurrency), steps);
    RunKeepsOrder(t, concurrency, steps);
    if k :| 0 <= k < |p.workers| && p.workers[k].Busy? {
      s := Complete(k, None);
      assert p.workers[k := Idle][k] == Idle;
    } else if p.next < |t.nodes| {
      s := HandOff(0);
      assert p.workers[0].Idle?;
    } else if !p.closed {
      s := Close;
    } else if k :| 0 <= k < |p.workers| && !p.workers[k].Exited? {
      s := Exit(k);
      assert p.workers[k := Exited][k] == Exited;
    } else {
      s := Return;
    }
  }
}
