/**
 * A run that nothing disturbs: every statement commits and every call is answered.
 */
module SyncSolo {
  import opened Prelude
  import opened Database
  import opened SyncProtocol
  import opened SyncSafety

  predicate Smooth(c: Choice) {
    c.db == Committed && c.call == Answered(true)
  }

  function Steps(r: nat, c: Choice, k: nat): seq<Action> {
    seq(k, _ => Advance(r, c))
  }

  /** The run performs its next `k` statements, back to back. */
  function Walk(w: World, r: nat, c: Choice, k: nat): World {
    Play(w, Steps(r, c, k))
  }

  lemma WalkNone(w: World, r: nat, c: Choice)
    ensures Walk(w, r, c, 0) == w
  {
  }

  lemma WalkStep(w: World, r: nat, c: Choice, k: nat)
    requires k > 0
    ensures Walk(w, r, c, k) == Exec(Walk(w, r, c, k - 1), Advance(r, c))
  {
    assert Steps(r, c, k)[..k - 1] == Steps(r, c, k - 1);
  }

  lemma WalkOn(w: World, r: nat, c: Choice, j: nat, k: nat)
    ensures Walk(w, r, c, j + k) == Walk(Walk(w, r, c, j), r, c, k)
  {
    assert Steps(r, c, j + k) == Steps(r, c, j) + Steps(r, c, k);
    PlayConcat(w, Steps(r, c, j), Steps(r, c, k));
  }

  /** Only rows, agents, the wire and this run change. */
  ghost predicate Around(w: World, w': World, r: nat, n: Id) {
    && r < |w.runs| == |w'.runs|
    && (forall s :: 0 <= s < |w.runs| && s != r ==> w'.runs[s] == w.runs[s])
    && w'.runs[r].node == w.runs[r].node == n && w'.runs[r].statusOnly == w.runs[r].statusOnly
    && w'.db.users == w.db.users && w'.db.access == w.db.access && w'.db.now == w.db.now
    && NodeLive(w.db, n) && NodeLive(w'.db, n) && w'.db.nodes[n].apiUrl == w.db.nodes[n].apiUrl
    && (forall m :: m != n ==> AgentAt(w', m) == AgentAt(w, m))
  }

  lemma AroundTransitive(w: World, w1: World, w2: World, r: nat, n: Id)
    requires Around(w, w1, r, n) && Around(w1, w2, r, n)
    ensures Around(w, w2, r, n)
  {
  }

  lemma OneStepAround(w: World, r: nat, c: Choice, n: Id)
    requires r < |w.runs| && w.runs[r].node == n && NodeLive(w.db, n) && c.db.Committed?
    requires w.runs[r].pc.Awaiting? ==> w.runs[r].pc.packet < |w.net| && w.net[w.runs[r].pc.packet].node == n
    ensures var w' := Exec(w, Advance(r, c));
      && Around(w, w', r, n) && w'.runs[r].pc == NextPc(w, w.runs[r], c)
      && w'.db.nodes[n] == RowAfter(w.runs[r].pc, w.db.nodes[n])
      && w'.net == NetAfter(w.net, w.runs[r])
      && (!w.runs[r].pc.Awaiting? || !Reaches(c.call) ==> w'.agents == w.agents)
      && (w.runs[r].pc.Awaiting? && Reaches(c.call) ==>
            AgentAt(w', n) == Delivered(AgentAt(w, n), w.net[w.runs[r].pc.packet], w.runs[r].pc.packet))
  {
    RowGrows(w.runs[r].pc, w.db.nodes[n]);
  }

  lemma FourSteps(w: World, r: nat, c: Choice)
    ensures Walk(w, r, c, 2) == Exec(Exec(w, Advance(r, c)), Advance(r, c))
    ensures Walk(w, r, c, 4) == Exec(Exec(Walk(w, r, c, 2), Advance(r, c)), Advance(r, c))
  {
    WalkNone(w, r, c);
    WalkStep(w, r, c, 1);
    WalkStep(w, r, c, 2);
    WalkStep(w, r, c, 3);
    WalkStep(w, r, c, 4);
  }

  /** /status and the realignment: four statements. */
  lemma StatusPhase(w: World, r: nat, c: Choice, n: Id)
    requires r < |w.runs| && w.runs[r].node == n && w.runs[r].pc.Loading? && NodeLive(w.db, n) && Smooth(c)
    ensures var w' := Walk(w, r, c, 4);
      && Around(w, w', r, n) && w'.agents == w.agents && w'.net == w.net
      && w'.db.nodes[n].desired == Max(w.db.nodes[n].desired, AgentAt(w, n).version)
      && w'.runs[r].pc == (if w.runs[r].statusOnly then Done(0) else Reloading)
  {
    FourSteps(w, r, c);
    var w1 := Exec(w, Advance(r, c));
    var w2 := Exec(w1, Advance(r, c));
    var w3 := Exec(w2, Advance(r, c));
    var w4 := Exec(w3, Advance(r, c));
    OneStepAround(w, r, c, n);
    assert w1.runs[r].pc == AskingStatus;
    OneStepAround(w1, r, c, n);
    assert w2.runs[r].pc == RecordingStatus(Healthy(AgentAt(w, n).version, Reported(AgentAt(w, n).version, c)));
    OneStepAround(w2, r, c, n);
    assert w3.runs[r].pc.Realigning? && w3.runs[r].pc.current == AgentAt(w, n).version;
    OneStepAround(w3, r, c, n);
    AroundTransitive(w, w1, w2, r, n);
    AroundTransitive(w, w2, w3, r, n);
    AroundTransitive(w, w3, w4, r, n);
  }

  /** Reload and bump. */
  lemma BumpPhase(w: World, r: nat, c: Choice, n: Id)
    requires r < |w.runs| && w.runs[r].node == n && w.runs[r].pc.Reloading? && NodeLive(w.db, n) && Smooth(c)
    ensures var w', v := Exec(Exec(w, Advance(r, c)), Advance(r, c)), w.db.nodes[n].desired + 1;
      && Around(w, w', r, n) && w'.agents == w.agents && w'.net == w.net
      && w'.db.nodes[n].desired == v && w'.runs[r].pc.Reading? && w'.runs[r].pc.version == v
  {
    var w1 := Exec(w, Advance(r, c));
    var w2 := Exec(w1, Advance(r, c));
    OneStepAround(w, r, c, n);
    assert w1.runs[r].pc == Bumping;
    OneStepAround(w1, r, c, n);
    AroundTransitive(w, w1, w2, r, n);
  }

  /** Read and send. */
  lemma PostPhase(w: World, r: nat, c: Choice, n: Id)
    requires r < |w.runs| && w.runs[r].node == n && w.runs[r].pc.Reading? && NodeLive(w.db, n) && Smooth(c)
    ensures var w', v := Exec(Exec(w, Advance(r, c)), Advance(r, c)), w.runs[r].pc.version;
      && Around(w, w', r, n) && w'.agents == w.agents && w'.db.nodes[n].desired == w.db.nodes[n].desired
      && w'.runs[r].pc.Awaiting? && w'.runs[r].pc.job.version == v && w'.runs[r].pc.job.mayRetry
      && w'.runs[r].pc.job.users == ActiveAccess(w.db, n)
      && w'.runs[r].pc.packet == |w.net| == |w'.net| - 1
      && w'.net[|w.net|].node == n && w'.net[|w.net|].version == v
      && w'.net[|w.net|].users == ActiveAccess(w.db, n)
  {
    var w1 := Exec(w, Advance(r, c));
    var w2 := Exec(w1, Advance(r, c));
    OneStepAround(w, r, c, n);
    assert w1.runs[r].pc.Sending? && w1.runs[r].pc.job.users == ActiveAccess(w.db, n);
    OneStepAround(w1, r, c, n);
    AroundTransitive(w, w1, w2, r, n);
  }

  /** Reload, bump, read and send: four statements. */
  lemma SendPhase(w: World, r: nat, c: Choice, n: Id)
    requires r < |w.runs| && w.runs[r].node == n && w.runs[r].pc.Reloading? && NodeLive(w.db, n) && Smooth(c)
    ensures var w', v := Walk(w, r, c, 4), w.db.nodes[n].desired + 1;
      && Around(w, w', r, n) && w'.agents == w.agents && w'.db.nodes[n].desired == v
      && w'.runs[r].pc.Awaiting? && w'.runs[r].pc.job.version == v && w'.runs[r].pc.job.mayRetry
      && w'.runs[r].pc.job.users == ActiveAccess(w.db, n)
      && w'.runs[r].pc.packet == |w.net| == |w'.net| - 1
      && w'.net[|w.net|].node == n && w'.net[|w.net|].version == v
      && w'.net[|w.net|].users == ActiveAccess(w.db, n)
  {
    FourSteps(w, r, c);
    var w2, w4 := Walk(w, r, c, 2), Walk(w, r, c, 4);
    BumpPhase(w, r, c, n);
    PostPhase(w2, r, c, n);
    ActiveAccessAround(w, w2, r, n);
    AroundTransitive(w, w2, w4, r, n);
  }

  lemma ActiveAccessAround(w: World, w': World, r: nat, n: Id)
    requires Around(w, w', r, n)
    ensures ActiveAccess(w'.db, n) == ActiveAccess(w.db, n)
  {
  }

  /** The version recorded as applied when the agent reports `reported` for an accepted `v`. */
  function RecordedVersion(v: int, c: Choice): int {
    if Reported(v, c) <= 0 then v else Reported(v, c)
  }

  lemma AppliedAnswer(agent: Agent, p: Packet, c: Choice, mayRetry: bool)
    requires Smooth(c) && p.version > agent.version
    ensures Classify(SyncAnswer(agent, p, c), p.version, mayRetry) == Applied(RecordedVersion(p.version, c))
  {
  }

  lemma AnsweredPc(w: World, r: nat, c: Choice, n: Id)
    requires r < |w.runs| && w.runs[r].node == n && w.runs[r].pc.Awaiting? && Smooth(c)
    requires var i := w.runs[r].pc.packet;
      i < |w.net| && w.net[i].version == w.runs[r].pc.job.version > AgentAt(w, n).version
    ensures NextPc(w, w.runs[r], c) == Logging(w.runs[r].pc.job, Applied(RecordedVersion(w.runs[r].pc.job.version, c)))
  {
    AppliedAnswer(AgentAt(w, n), w.net[w.runs[r].pc.packet], c, w.runs[r].pc.job.mayRetry);
  }

  /** The agent takes the payload over and the event is recorded: two statements. */
  lemma ReplyPhase(w: World, r: nat, c: Choice, n: Id)
    requires r < |w.runs| && w.runs[r].node == n && w.runs[r].pc.Awaiting? && NodeLive(w.db, n) && Smooth(c)
    requires var i := w.runs[r].pc.packet;
      i < |w.net| && w.net[i].node == n && w.net[i].version == w.runs[r].pc.job.version > AgentAt(w, n).version
    ensures var w', p := Walk(w, r, c, 2), w.net[w.runs[r].pc.packet];
      && Around(w, w', r, n) && w'.net == w.net && w'.db.nodes[n].desired == w.db.nodes[n].desired
      && AgentAt(w', n).version == p.version && AgentAt(w', n).users == p.users
      && w'.runs[r].pc == Succeeding(RecordedVersion(p.version, c))
  {
    FourSteps(w, r, c);
    var w1 := Exec(w, Advance(r, c));
    OneStepAround(w, r, c, n);
    AnsweredPc(w, r, c, n);
    OneStepAround(w1, r, c, n);
    AroundTransitive(w, w1, Walk(w, r, c, 2), r, n);
  }

  predicate Fresh(w: World, r: nat, n: Id) {
    r < |w.runs| && w.runs[r].node == n && w.runs[r].pc.Loading? && !w.runs[r].statusOnly && NodeLive(w.db, n)
  }

  lemma BeginIsFresh(w: World, n: Id)
    requires NodeLive(w.db, n)
    ensures var w1 := Exec(w, Begin(n, false));
      Fresh(w1, |w.runs|, n) && w1.db == w.db && w1.agents == w.agents && w1.net == w.net
      && |w1.runs| == |w.runs| + 1 && (forall r :: 0 <= r < |w.runs| ==> w1.runs[r] == w.runs[r])
  {
  }

  function NewVersion(w: World, n: Id): int
    requires NodeLive(w.db, n)
  {
    Max(w.db.nodes[n].desired, AgentAt(w, n).version) + 1
  }

  /** A new run, walked to the point where its payload waits for the agent. */
  lemma WalkToReply(w: World, r: nat, n: Id, c: Choice)
    requires Fresh(w, r, n) && Smooth(c)
    ensures var w', v := Walk(w, r, c, 8), NewVersion(w, n);
      && Around(w, w', r, n) && w'.agents == w.agents && w'.db.nodes[n].desired == v
      && w'.runs[r].pc.Awaiting? && w'.runs[r].pc.job.version == v && w'.runs[r].pc.packet < |w'.net|
      && (var p := w'.net[w'.runs[r].pc.packet]; p.node == n && p.version == v && p.users == ActiveAccess(w.db, n))
  {
    var a := Walk(w, r, c, 4);
    StatusPhase(w, r, c, n);
    WalkOn(w, r, c, 4, 4);
    SendPhase(a, r, c, n);
    ActiveAccessAround(w, a, r, n);
    AroundTransitive(w, a, Walk(w, r, c, 8), r, n);
  }

  /** A new run, walked to the point where only MarkSyncSuccess is left. */
  lemma WalkToSuccess(w: World, r: nat, n: Id, c: Choice)
    requires Fresh(w, r, n) && Smooth(c)
    ensures var w', v := Walk(w, r, c, 10), NewVersion(w, n);
      && Around(w, w', r, n)
      && w'.db.nodes[n].desired == v && AgentAt(w', n).version == v
      && AgentAt(w', n).users == ActiveAccess(w.db, n)
      && w'.runs[r].pc == Succeeding(RecordedVersion(v, c))
  {
    var b := Walk(w, r, c, 8);
    WalkToReply(w, r, n, c);
    WalkOn(w, r, c, 8, 2);
    ReplyPhase(b, r, c, n);
    AroundTransitive(w, b, Walk(w, r, c, 10), r, n);
  }

  lemma WalkOne(w: World, r: nat, c: Choice)
    ensures Walk(w, r, c, 1) == Exec(w, Advance(r, c))
  {
    WalkNone(w, r, c);
    WalkStep(w, r, c, 1);
  }

  lemma MarkPhase(w: World, r: nat, n: Id, c: Choice, v: int)
    requires r < |w.runs| && w.runs[r].node == n && w.runs[r].pc == Succeeding(v) && NodeLive(w.db, n) && Smooth(c)
    ensures var w' := Walk(w, r, c, 1);
      && Around(w, w', r, n) && AgentAt(w', n) == AgentAt(w, n) && w'.runs[r].pc == Done(v)
      && w'.db.nodes[n].desired == w.db.nodes[n].desired && w'.db.nodes[n].applied == v
  {
    WalkOne(w, r, c);
    OneStepAround(w, r, c, n);
  }

  lemma WalkToEnd(w: World, r: nat, n: Id, c: Choice)
    requires Fresh(w, r, n) && Smooth(c)
    ensures var w', v := Walk(w, r, c, 11), NewVersion(w, n);
      && Around(w, w', r, n) && w'.runs[r].pc == Done(RecordedVersion(v, c))
      && w'.db.nodes[n].desired == v && w'.db.nodes[n].applied == RecordedVersion(v, c)
      && AgentAt(w', n).version == v && AgentAt(w', n).users == ActiveAccess(w.db, n)
  {
    var w2 := Walk(w, r, c, 10);
    WalkToSuccess(w, r, n, c);
    WalkOn(w, r, c, 10, 1);
    MarkPhase(w2, r, n, c, RecordedVersion(NewVersion(w, n), c));
    AroundTransitive(w, w2, Walk(w, r, c, 11), r, n);
  }

  /** A run begun in `w` and walked `k` statements. */
  function Solo(w: World, n: Id, c: Choice, k: nat): seq<Action> {
    [Begin(n, false)] + Steps(|w.runs|, c, k)
  }

  lemma SoloIsWalk(w: World, n: Id, c: Choice, k: nat)
    ensures Play(w, Solo(w, n, c, k)) == Walk(Exec(w, Begin(n, false)), |w.runs|, c, k)
  {
    PlayConcat(w, [Begin(n, false)], Steps(|w.runs|, c, k));
    PlayOne(w, Begin(n, false));
  }

  /**
   * An undisturbed sync works from every pair of row and agent versions, in particular for a
   * restored row far behind its agent: it ends with the agent holding exactly the active access
   * under a version above both.
   */
  lemma SoloSyncSucceeds(w: World, n: Id, c: Choice)
    requires NodeLive(w.db, n) && Smooth(c)
    ensures var w', r, v := Play(w, Solo(w, n, c, 11)), |w.runs|, NewVersion(w, n);
      && |w'.runs| == r + 1 && w'.runs[r].node == n && w'.runs[r].pc == Done(RecordedVersion(v, c))
      && NodeLive(w'.db, n) && w'.db.nodes[n].desired == v && w'.db.nodes[n].applied == RecordedVersion(v, c)
      && AgentAt(w', n).version == v
      && AgentAt(w', n).users == ActiveAccess(w.db, n) == ActiveAccess(w'.db, n)
      && w'.db.users == w.db.users && w'.db.access == w.db.access && w'.db.now == w.db.now
      && w'.db.nodes[n].apiUrl == w.db.nodes[n].apiUrl
  {
    BeginIsFresh(w, n);
    SoloIsWalk(w, n, c, 11);
    WalkToEnd(Exec(w, Begin(n, false)), |w.runs|, n, c);
    ActiveAccessAround(Exec(w, Begin(n, false)), Play(w, Solo(w, n, c, 11)), |w.runs|, n);
  }

  /** The same run when the agent answers `s` until the payload is sent, and `c` from then on. */
  function SoloAsking(w: World, n: Id, s: Choice, c: Choice): seq<Action> {
    Solo(w, n, s, 8) + Steps(|w.runs|, c, 3)
  }

  lemma ReplyAndMark(w: World, r: nat, n: Id, c: Choice, v: int)
    requires r < |w.runs| && w.runs[r].node == n && w.runs[r].pc.Awaiting? && NodeLive(w.db, n) && Smooth(c)
    requires w.runs[r].pc.job.version == v > AgentAt(w, n).version && w.runs[r].pc.packet < |w.net|
    requires w.net[w.runs[r].pc.packet].node == n && w.net[w.runs[r].pc.packet].version == v
    ensures var w' := Walk(w, r, c, 3);
      && Around(w, w', r, n) && w'.runs[r].pc == Done(RecordedVersion(v, c))
      && w'.db.nodes[n].applied == RecordedVersion(v, c)
      && AgentAt(w', n).version == v && AgentAt(w', n).users == w.net[w.runs[r].pc.packet].users
  {
    var w2 := Walk(w, r, c, 2);
    ReplyPhase(w, r, c, n);
    WalkOn(w, r, c, 2, 1);
    MarkPhase(w2, r, n, c, RecordedVersion(v, c));
    AroundTransitive(w, w2, Walk(w, r, c, 3), r, n);
  }

  /**
   * Even an undisturbed run may lower the applied version: exactly when the agent, on accepting the
   * payload, reports an older applied version that is positive, whatever it had reported in /status.
   */
  lemma SoloLowersExactly(w: World, n: Id, s: Choice, c: Choice)
    requires NodeLive(w.db, n) && Smooth(s) && Smooth(c) && w.db.nodes[n].applied <= w.db.nodes[n].desired
    ensures var w', r := Play(w, SoloAsking(w, n, s, c)), |w.runs|;
      && NodeLive(w'.db, n) && r < |w'.runs| && w'.runs[r].pc.Done?
      && (w'.db.nodes[n].applied < w.db.nodes[n].applied <==> 0 < c.reported < w.db.nodes[n].applied)
  {
    var w1, r := Exec(w, Begin(n, false)), |w.runs|;
    var w2 := Walk(w1, r, s, 8);
    BeginIsFresh(w, n);
    SoloIsWalk(w, n, s, 8);
    WalkToReply(w1, r, n, s);
    ReplyAndMark(w2, r, n, c, NewVersion(w, n));
    PlayConcat(w, Solo(w, n, s, 8), Steps(r, c, 3));
  }

  predicate StepsDown(w: World, a: Action, n: Id) {
    NodeLive(w.db, n) && NodeLive(Exec(w, a).db, n) && Exec(w, a).db.nodes[n].applied < w.db.nodes[n].applied
  }

  lemma LateMark(w: World, r: nat, c: Choice, n: Id, older: int)
    requires r < |w.runs| && w.runs[r].node == n && w.runs[r].pc == Succeeding(older) && NodeLive(w.db, n) && Smooth(c)
    requires older < w.db.nodes[n].applied
    ensures StepsDown(w, Advance(r, c), n)
  {
    OneStepAround(w, r, c, n);
  }

  /** A run waiting to record an older version, overtaken by a whole other sync. */
  lemma OvertakenStepsDown(w: World, n: Id, c: Choice, r: nat, older: int)
    requires NodeLive(w.db, n) && Smooth(c) && c.reported <= 0 && AgentAt(w, n).version >= 0
    requires r < |w.runs| && w.runs[r].node == n && w.runs[r].pc == Succeeding(older) && older <= w.db.nodes[n].desired
    ensures StepsDown(Play(w, Solo(w, n, c, 11)), Advance(r, c), n)
  {
    SoloSyncSucceeds(w, n, c);
    KeepsRun(w, n, c, r);
    LateMark(Play(w, Solo(w, n, c, 11)), r, c, n, older);
  }

  lemma StalledBeforeMark(w: World, n: Id, c: Choice)
    requires NodeLive(w.db, n) && Smooth(c) && c.reported <= 0 && AgentAt(w, n).version >= 0
    ensures var w', r := Play(w, Solo(w, n, c, 10)), |w.runs|;
      && |w'.runs| == r + 1 && w'.runs[r].node == n && NodeLive(w'.db, n) && AgentAt(w', n).version >= 0
      && w'.runs[r].pc == Succeeding(w'.db.nodes[n].desired)
  {
    BeginIsFresh(w, n);
    SoloIsWalk(w, n, c, 10);
    WalkToSuccess(Exec(w, Begin(n, false)), |w.runs|, n, c);
  }

  /** Of two runs of the node the one that began first is about to record its version, and the other is done. */
  predicate Overtaken(w: World, r: nat, n: Id) {
    && |w.runs| == r + 2 && w.runs[r].node == n == w.runs[r + 1].node
    && w.runs[r].pc.Succeeding? && w.runs[r + 1].pc.Done?
  }

  lemma MarkEndsRun(w: World, r: nat, c: Choice)
    requires r < |w.runs| && w.runs[r].pc.Succeeding? && Smooth(c)
    ensures var w' := Exec(w, Advance(r, c));
      r < |w'.runs| && w'.runs[r].pc.Done?
  {
  }

  lemma OvertakenRuns(w: World, n: Id, c: Choice, r: nat)
    requires NodeLive(w.db, n) && Smooth(c) && |w.runs| == r + 1
    requires w.runs[r].node == n && w.runs[r].pc.Succeeding?
    ensures Overtaken(Play(w, Solo(w, n, c, 11)), r, n)
  {
    SoloSyncSucceeds(w, n, c);
    KeepsRun(w, n, c, r);
  }

  /**
   * The applied version may go down.  Two runs begin in the world that follows, one after the other; the
   * second is done before the first, and the first, which then succeeds too, lowers the applied version.
   */
  lemma AppliedCanStepDown(w: World, n: Id) returns (acts: seq<Action>, a: Action)
    requires NodeLive(w.db, n) && AgentAt(w, n).version >= 0
    ensures var w', r := Play(w, acts), |w.runs|;
      && StepsDown(w', a, n)
      && Overtaken(w', r, n) && a.Advance? && a.run == r && Exec(w', a).runs[r].pc.Done?
  {
    var c, r := Choice(Committed, Answered(true), 0), |w.runs|;
    var first := Solo(w, n, c, 10);
    StalledBeforeMark(w, n, c);
    var w2 := Play(w, first);
    var second := Solo(w2, n, c, 11);
    OvertakenStepsDown(w2, n, c, r, w2.db.nodes[n].desired);
    OvertakenRuns(w2, n, c, r);
    MarkEndsRun(Play(w2, second), r, c);
    PlayConcat(w, first, second);
    acts, a := first + second, Advance(r, c);
  }

  lemma KeepsRun(w: World, n: Id, c: Choice, r: nat)
    requires NodeLive(w.db, n) && Smooth(c) && r < |w.runs|
    ensures var w' := Play(w, Solo(w, n, c, 11));
      r < |w'.runs| && w'.runs[r] == w.runs[r]
  {
    BeginIsFresh(w, n);
    SoloIsWalk(w, n, c, 11);
    WalkKeepsOthers(Exec(w, Begin(n, false)), |w.runs|, c, 11, r);
  }

  lemma {:induction false} WalkKeepsOthers(w: World, s: nat, c: Choice, k: nat, r: nat)
    requires r < |w.runs| && r != s
    ensures var w' := Walk(w, s, c, k);
      |w'.runs| == |w.runs| && w'.runs[r] == w.runs[r]
  {
    if k > 0 {
      WalkStep(w, s, c, k);
      WalkKeepsOthers(w, s, c, k - 1, r);
    }
  }
}
