/**
 * What every reply to a payload leads to: the event, the row, and whether the run sends once more.
 *
 * The statements all commit here; which of them fail is the subject of the other modules.
 */
module SyncReplies {
  import opened Prelude
  import opened Database
  import opened SyncProtocol
  import opened SyncSolo

  /** The run's payload is on the wire, and the run waits for the reply. */
  predicate Posted(w: World, r: nat, n: Id) {
    && r < |w.runs| && w.runs[r].node == n && w.runs[r].pc.Awaiting? && NodeLive(w.db, n)
    && w.runs[r].pc.packet < |w.net|
    && var job, p := w.runs[r].pc.job, w.net[w.runs[r].pc.packet];
    p.node == n && p.version == job.version && p.users == job.users
  }

  /** The payload is behind the agent, which will not take it over. */
  predicate Behind(w: World, r: nat, n: Id)
    requires Posted(w, r, n)
  {
    w.runs[r].pc.job.version <= AgentAt(w, n).version
  }

  /** The reply says `stale_version`, rightly or not. */
  predicate SaysStale(w: World, r: nat, n: Id, call: CallOutcome)
    requires Posted(w, r, n)
  {
    (call.Answered? && Behind(w, r, n)) || (call.Refused? && call.status.StaleVersion?)
  }

  // ------------------------------------------------------------------ one statement

  /** What a committed statement of the run adds to the event table and to what the run has sent. */
  lemma StepRecords(w: World, r: nat, c: Choice, n: Id)
    requires r < |w.runs| && w.runs[r].node == n && NodeLive(w.db, n) && c.db.Committed?
    ensures var w', pc := Exec(w, Advance(r, c)), w.runs[r].pc;
      && r < |w'.runs|
      && w'.db.events ==
         w.db.events + (if pc.Logging? then [Event(n, pc.job.version, OutcomeStatus(pc.outcome))] else [])
      && w'.runs[r].sent == w.runs[r].sent + (if pc.Sending? then [pc.job.version] else [])
  {
  }

  /** How the panel reads each reply, by what happened to the call. */
  lemma ReplyIsRead(w: World, r: nat, c: Choice, n: Id)
    requires Posted(w, r, n)
    ensures var pc, job, ahead := NextPc(w, w.runs[r], c), w.runs[r].pc.job, Behind(w, r, n);
      && pc.Logging? && pc.job == job
      && (c.call.Unanswered? ==> pc.outcome == Rejected(HttpError))
      && (c.call.Garbled? ==> pc.outcome == Rejected(DecodeError))
      && (c.call.Refused? && !(c.call.status.StaleVersion? && job.mayRetry) ==>
            pc.outcome == Rejected(RefusalStatus(c.call.http2xx, c.call.status)))
      && (c.call.Refused? && c.call.status.StaleVersion? && job.mayRetry ==>
            pc.outcome.Stale? && pc.outcome.current == AgentAt(w, n).version)
      && (c.call.Answered? && !ahead && c.call.http2xx ==> pc.outcome == Applied(RecordedVersion(job.version, c)))
      && (c.call.Answered? && !ahead && !c.call.http2xx ==> pc.outcome == Rejected(HttpError))
      && (c.call.Answered? && ahead && job.mayRetry ==>
            pc.outcome.Stale? && pc.outcome.current == AgentAt(w, n).version)
      && (c.call.Answered? && ahead && !job.mayRetry ==>
            pc.outcome == Rejected(if c.call.http2xx then StaleVersion else HttpError))
  {
  }

  /** The status recorded for a refusal: `http_error` unless it came with a 2xx code. */
  function RefusalStatus(http2xx: bool, status: Status): Status {
    if !http2xx then HttpError else if status.NoStatus? then ApplyFailed else status
  }

  // ------------------------------------------------------------------ the three statements

  /** Since `w` the one event of this payload was recorded, with the status the row now shows. */
  ghost predicate Records(w: World, w': World, r: nat, n: Id, status: Status)
    requires Posted(w, r, n)
  {
    && Around(w, w', r, n) && w'.runs[r].sent == w.runs[r].sent
    && w'.db.events == w.db.events + [Event(n, w.runs[r].pc.job.version, status)]
    && w'.db.nodes[n].status == status
  }

  ghost predicate FailsWith(w: World, w': World, r: nat, n: Id, status: Status)
    requires Posted(w, r, n)
  {
    && Records(w, w', r, n, status) && w'.runs[r].pc == Failed(AtReply)
    && w'.db.nodes[n].setup == if status.HttpError? then Unreachable else w.db.nodes[n].setup
  }

  ghost predicate Succeeds(w: World, w': World, r: nat, n: Id)
    requires Posted(w, r, n)
  {
    && Records(w, w', r, n, OkStatus) && w'.runs[r].pc.Done?
    && w'.db.nodes[n].setup == Connected && w'.db.nodes[n].applied == w'.runs[r].pc.version
  }

  /** The stale event is recorded and the run holds its list ready for one more attempt. */
  ghost predicate Stalls(w: World, w': World, r: nat, n: Id)
    requires Posted(w, r, n)
  {
    && Records(w, w', r, n, StaleVersion) && w'.db.nodes[n].setup == w.db.nodes[n].setup
    && w'.runs[r].pc.RetryRealigning? && w'.runs[r].pc.users == w.runs[r].pc.job.users
    && w'.runs[r].pc.current == AgentAt(w, n).version
  }

  lemma ReplyArrives(w: World, r: nat, c: Choice, n: Id)
    requires Posted(w, r, n) && c.db.Committed?
    ensures var w' := Walk(w, r, c, 1);
      && Around(w, w', r, n) && w'.runs[r].sent == w.runs[r].sent && w'.db.nodes[n] == w.db.nodes[n]
      && w'.db.events == w.db.events && w'.runs[r].pc == NextPc(w, w.runs[r], c)
      && AgentAt(w', n) == (if Reaches(c.call)
                            then Delivered(AgentAt(w, n), w.net[w.runs[r].pc.packet], w.runs[r].pc.packet)
                            else AgentAt(w, n))
  {
    WalkOne(w, r, c);
    OneStepAround(w, r, c, n);
    StepRecords(w, r, c, n);
  }

  lemma EventIsRecorded(w: World, r: nat, c: Choice, n: Id)
    requires r < |w.runs| && w.runs[r].node == n && NodeLive(w.db, n) && c.db.Committed? && w.runs[r].pc.Logging?
    ensures var w', job := Walk(w, r, c, 1), w.runs[r].pc.job;
      && Around(w, w', r, n) && w'.runs[r].sent == w.runs[r].sent && w'.db.nodes[n] == w.db.nodes[n]
      && w'.db.events == w.db.events + [Event(n, job.version, OutcomeStatus(w.runs[r].pc.outcome))]
      && w'.agents == w.agents
      && match w.runs[r].pc.outcome
         case Applied(version) => w'.runs[r].pc == Succeeding(version)
         case Rejected(status) => w'.runs[r].pc == Failing(status)
         case Stale(current, _) =>
           w'.runs[r].pc.Stalling? && w'.runs[r].pc.users == job.users && w'.runs[r].pc.current == current
  {
    WalkOne(w, r, c);
    OneStepAround(w, r, c, n);
    StepRecords(w, r, c, n);
  }

  /** The update of the row that follows the event. */
  lemma RowMarks(w: World, r: nat, c: Choice, n: Id)
    requires r < |w.runs| && w.runs[r].node == n && NodeLive(w.db, n) && c.db.Committed?
    requires w.runs[r].pc.Succeeding? || w.runs[r].pc.Failing? || w.runs[r].pc.Stalling?
    ensures var w', pc, row := Walk(w, r, c, 1), w.runs[r].pc, w.db.nodes[n];
      && Around(w, w', r, n) && w'.runs[r].sent == w.runs[r].sent && w'.db.events == w.db.events
      && w'.agents == w.agents
      && (pc.Succeeding? ==> w'.runs[r].pc == Done(pc.version) && w'.db.nodes[n].applied == pc.version
                             && w'.db.nodes[n].status == OkStatus && w'.db.nodes[n].setup == Connected)
      && (pc.Failing? ==> w'.runs[r].pc == Failed(AtReply) && w'.db.nodes[n].status == pc.status
                          && w'.db.nodes[n].setup == if pc.status.HttpError? then Unreachable else row.setup)
      && (pc.Stalling? ==>
            && w'.runs[r].pc.RetryRealigning? && w'.runs[r].pc.users == pc.users && w'.runs[r].pc.current == pc.current
            && w'.db.nodes[n].status == StaleVersion && w'.db.nodes[n].setup == row.setup)
  {
    WalkOne(w, r, c);
    OneStepAround(w, r, c, n);
    StepRecords(w, r, c, n);
  }

  /** The reply, its event and the update of the row, for each outcome. */
  lemma OutcomeRecorded(w: World, r: nat, c: Choice, n: Id, o: Outcome)
    requires Posted(w, r, n) && c.db.Committed? && NextPc(w, w.runs[r], c) == Logging(w.runs[r].pc.job, o)
    ensures var w' := Walk(w, r, c, 3);
      && (o.Rejected? ==> FailsWith(w, w', r, n, o.status))
      && (o.Applied? ==> Succeeds(w, w', r, n))
      && (o.Stale? && o.current == AgentAt(w, n).version ==> Stalls(w, w', r, n))
      && AgentAt(w', n) == (if Reaches(c.call)
                            then Delivered(AgentAt(w, n), w.net[w.runs[r].pc.packet], w.runs[r].pc.packet)
                            else AgentAt(w, n))
  {
    var w1, w2, w3 := Walk(w, r, c, 1), Walk(w, r, c, 2), Walk(w, r, c, 3);
    ReplyArrives(w, r, c, n);
    WalkOn(w, r, c, 1, 1);
    EventIsRecorded(w1, r, c, n);
    WalkOn(w, r, c, 2, 1);
    RowMarks(w2, r, c, n);
    AroundTransitive(w, w1, w2, r, n);
    AroundTransitive(w, w2, w3, r, n);
  }

  /** The whole table, from the call to the event, the row and the run. */
  ghost predicate EndsAs(w: World, w': World, r: nat, n: Id, call: CallOutcome)
    requires Posted(w, r, n)
  {
    match call
    case Unanswered(_) => FailsWith(w, w', r, n, HttpError)
    case Garbled(_) => FailsWith(w, w', r, n, DecodeError)
    case Refused(http2xx, status) =>
      if status.StaleVersion? && w.runs[r].pc.job.mayRetry then Stalls(w, w', r, n)
      else FailsWith(w, w', r, n, RefusalStatus(http2xx, status))
    case Answered(http2xx) =>
      if !Behind(w, r, n) then
        if http2xx then Succeeds(w, w', r, n) else FailsWith(w, w', r, n, HttpError)
      else if w.runs[r].pc.job.mayRetry then Stalls(w, w', r, n)
      else FailsWith(w, w', r, n, if http2xx then StaleVersion else HttpError)
  }

  /**
   * Every reply to every payload.  A reply that says `stale_version` leads a first attempt to the retry
   * whatever the HTTP code; an agent that took the payload over but answered with another code than 2xx
   * counts as unreachable although it now holds the list.
   */
  lemma EveryReply(w: World, r: nat, n: Id, call: CallOutcome, reported: int)
    requires Posted(w, r, n)
    ensures var w' := Walk(w, r, Choice(Committed, call, reported), 3);
      && EndsAs(w, w', r, n, call)
      && AgentAt(w', n).users == (if Reaches(call) && !Behind(w, r, n) then w.runs[r].pc.job.users
                                  else AgentAt(w, n).users)
  {
    var c := Choice(Committed, call, reported);
    ReplyIsRead(w, r, c, n);
    OutcomeRecorded(w, r, c, n, NextPc(w, w.runs[r], c).outcome);
  }

  // --------------------------------------------------------------------------- /status

  /** A run that asks for /status, after the three statements this takes. */
  ghost predicate StatusEndsAs(w: World, w': World, r: nat, n: Id, call: CallOutcome)
    requires r < |w.runs| && NodeLive(w.db, n)
  {
    var row, version := w.db.nodes[n], AgentAt(w, n).version;
    && Around(w, w', r, n) && w'.agents == w.agents && w'.db.events == w.db.events
    && (if call == Answered(true) then
          && w'.db.nodes[n].status == OkStatus && w'.db.nodes[n].setup == Connected
          && w'.db.nodes[n].desired == Max(row.desired, version)
          && w'.runs[r].pc == if w.runs[r].statusOnly then Done(0) else Reloading
        else
          && w'.db.nodes[n].status == ErrorStatus && w'.runs[r].pc == Failed(AtStatus)
          && w'.db.nodes[n].setup == (if call.Refused? && call.http2xx then Connected else row.setup)
          && w'.db.nodes[n].desired == row.desired && w'.db.nodes[n].applied == row.applied)
  }

  lemma StatusIsRead(w: World, r: nat, c: Choice, n: Id)
    requires r < |w.runs| && w.runs[r].node == n && NodeLive(w.db, n) && c.db.Committed? && w.runs[r].pc.AskingStatus?
    ensures r < |Walk(w, r, c, 1).runs|
    ensures var w', pc := Walk(w, r, c, 1), Walk(w, r, c, 1).runs[r].pc;
      && Around(w, w', r, n) && w'.agents == w.agents && w'.db.events == w.db.events
      && w'.db.nodes[n] == w.db.nodes[n] && pc.RecordingStatus?
      && (c.call == Answered(true) ==> pc.reply.Healthy? && pc.reply.current == AgentAt(w, n).version)
      && (c.call.Refused? && c.call.http2xx ==> pc.reply.NotOk?)
      && (c.call != Answered(true) && !(c.call.Refused? && c.call.http2xx) ==> pc.reply.CallFailed?)
  {
    WalkOne(w, r, c);
    OneStepAround(w, r, c, n);
    StepRecords(w, r, c, n);
  }

  lemma StatusIsRecorded(w: World, r: nat, c: Choice, n: Id)
    requires r < |w.runs| && w.runs[r].node == n && NodeLive(w.db, n) && c.db.Committed?
    requires w.runs[r].pc.RecordingStatus?
    ensures r < |Walk(w, r, c, 1).runs|
    ensures var w', pc, reply := Walk(w, r, c, 1), Walk(w, r, c, 1).runs[r].pc, w.runs[r].pc.reply;
      && Around(w, w', r, n) && w'.agents == w.agents && w'.db.events == w.db.events
      && w'.db.nodes[n].desired == w.db.nodes[n].desired && w'.db.nodes[n].applied == w.db.nodes[n].applied
      && (reply.Healthy? ==> pc.Realigning? && pc.current == reply.current)
      && (reply.NotOk? ==> pc.RecordingNotOk? && w'.db.nodes[n].setup == Connected)
      && (reply.CallFailed? ==> pc == Failed(AtStatus) && w'.db.nodes[n].status == ErrorStatus
                                && w'.db.nodes[n].setup == w.db.nodes[n].setup)
  {
    WalkOne(w, r, c);
    OneStepAround(w, r, c, n);
    StepRecords(w, r, c, n);
  }

  lemma StatusIsSettled(w: World, r: nat, c: Choice, n: Id)
    requires r < |w.runs| && w.runs[r].node == n && NodeLive(w.db, n) && c.db.Committed?
    requires w.runs[r].pc.Realigning? || w.runs[r].pc.RecordingNotOk? || w.runs[r].pc.Failed?
    ensures var w', pc, row := Walk(w, r, c, 1), w.runs[r].pc, w.db.nodes[n];
      && Around(w, w', r, n) && w'.agents == w.agents && w'.db.events == w.db.events
      && (pc.Realigning? ==>
            && w'.db.nodes[n].status == OkStatus && w'.db.nodes[n].setup == Connected
            && w'.db.nodes[n].desired == Max(row.desired, pc.current)
            && w'.runs[r].pc == if w.runs[r].statusOnly then Done(0) else Reloading)
      && (pc.RecordingNotOk? ==>
            w'.db.nodes[n] == row.(status := ErrorStatus) && w'.runs[r].pc == Failed(AtStatus))
      && (pc.Failed? ==> w'.db.nodes[n] == row && w'.runs[r].pc == pc)
  {
    WalkOne(w, r, c);
    OneStepAround(w, r, c, n);
    StepRecords(w, r, c, n);
  }

  /**
   * Every reply to /status.  An agent that answers but is not ok leaves the node connected and in error;
   * no reply at all leaves the setup state as it was.
   */
  lemma EveryStatusReply(w: World, r: nat, n: Id, call: CallOutcome, reported: int)
    requires r < |w.runs| && w.runs[r].node == n && NodeLive(w.db, n) && w.runs[r].pc.AskingStatus?
    ensures StatusEndsAs(w, Walk(w, r, Choice(Committed, call, reported), 3), r, n, call)
  {
    var c := Choice(Committed, call, reported);
    var w1, w2, w3 := Walk(w, r, c, 1), Walk(w, r, c, 2), Walk(w, r, c, 3);
    StatusIsRead(w, r, c, n);
    WalkOn(w, r, c, 1, 1);
    StatusIsRecorded(w1, r, c, n);
    WalkOn(w, r, c, 2, 1);
    StatusIsSettled(w2, r, c, n);
    AroundTransitive(w, w1, w2, r, n);
    AroundTransitive(w, w2, w3, r, n);
  }

  // ---------------------------------------------------------------------- the second attempt

  /** The realignment with what the stale reply said. */
  lemma RetryRealigns(w: World, r: nat, n: Id, c: Choice)
    requires r < |w.runs| && w.runs[r].node == n && NodeLive(w.db, n) && Smooth(c) && w.runs[r].pc.RetryRealigning?
    ensures var w' := Walk(w, r, c, 1);
      && Around(w, w', r, n) && w'.agents == w.agents
      && w'.db.events == w.db.events && w'.runs[r].sent == w.runs[r].sent
      && w'.runs[r].pc.RetryReloading? && w'.runs[r].pc.users == w.runs[r].pc.users
      && w'.db.nodes[n].desired >= w.runs[r].pc.current
  {
    WalkOne(w, r, c);
    OneStepAround(w, r, c, n);
    StepRecords(w, r, c, n);
  }

  lemma RetryReloads(w: World, r: nat, n: Id, c: Choice)
    requires r < |w.runs| && w.runs[r].node == n && NodeLive(w.db, n) && Smooth(c) && w.runs[r].pc.RetryReloading?
    ensures var w' := Walk(w, r, c, 1);
      && Around(w, w', r, n) && w'.agents == w.agents && w'.db.nodes[n] == w.db.nodes[n]
      && w'.db.events == w.db.events && w'.runs[r].sent == w.runs[r].sent
      && w'.runs[r].pc.RetryBumping? && w'.runs[r].pc.users == w.runs[r].pc.users
  {
    WalkOne(w, r, c);
    OneStepAround(w, r, c, n);
    StepRecords(w, r, c, n);
  }

  /** The fresh version for the same list. */
  lemma RetryBumps(w: World, r: nat, n: Id, c: Choice)
    requires r < |w.runs| && w.runs[r].node == n && NodeLive(w.db, n) && Smooth(c) && w.runs[r].pc.RetryBumping?
    ensures var w' := Walk(w, r, c, 1);
      && Around(w, w', r, n) && w'.agents == w.agents
      && w'.db.events == w.db.events && w'.runs[r].sent == w.runs[r].sent
      && w'.runs[r].pc.Sending? && !w'.runs[r].pc.job.mayRetry && w'.runs[r].pc.job.users == w.runs[r].pc.users
      && w'.runs[r].pc.job.version == w.db.nodes[n].desired + 1
  {
    WalkOne(w, r, c);
    OneStepAround(w, r, c, n);
    StepRecords(w, r, c, n);
  }

  lemma RetryPosts(w: World, r: nat, n: Id, c: Choice)
    requires r < |w.runs| && w.runs[r].node == n && NodeLive(w.db, n) && Smooth(c) && w.runs[r].pc.Sending?
    ensures var w' := Walk(w, r, c, 1);
      && Around(w, w', r, n) && w'.agents == w.agents && w'.db.events == w.db.events
      && w'.runs[r].sent == w.runs[r].sent + [w.runs[r].pc.job.version]
      && Posted(w', r, n) && w'.runs[r].pc.job == w.runs[r].pc.job
  {
    WalkOne(w, r, c);
    OneStepAround(w, r, c, n);
    StepRecords(w, r, c, n);
  }

  /** The realignment and the second read of the row. */
  lemma RetryToBump(w: World, r: nat, n: Id, c: Choice)
    requires r < |w.runs| && w.runs[r].node == n && NodeLive(w.db, n) && Smooth(c) && w.runs[r].pc.RetryRealigning?
    ensures var w' := Walk(w, r, c, 2);
      && Around(w, w', r, n) && w'.agents == w.agents
      && w'.db.events == w.db.events && w'.runs[r].sent == w.runs[r].sent
      && w'.runs[r].pc.RetryBumping? && w'.runs[r].pc.users == w.runs[r].pc.users
      && w'.db.nodes[n].desired >= w.runs[r].pc.current
  {
    var w1 := Walk(w, r, c, 1);
    WalkOn(w, r, c, 1, 1);
    RetryRealigns(w, r, n, c);
    RetryReloads(w1, r, n, c);
    AroundTransitive(w, w1, Walk(w, r, c, 2), r, n);
  }

  lemma BumpToWire(w: World, r: nat, n: Id, c: Choice)
    requires r < |w.runs| && w.runs[r].node == n && NodeLive(w.db, n) && Smooth(c) && w.runs[r].pc.RetryBumping?
    ensures var w' := Walk(w, r, c, 2);
      && Around(w, w', r, n) && w'.agents == w.agents && w'.db.events == w.db.events
      && Posted(w', r, n) && w'.runs[r].pc.job.users == w.runs[r].pc.users
      && w'.runs[r].pc.job.version == w.db.nodes[n].desired + 1
      && w'.runs[r].sent == w.runs[r].sent + [w'.runs[r].pc.job.version]
  {
    var w1 := Walk(w, r, c, 1);
    WalkOn(w, r, c, 1, 1);
    RetryBumps(w, r, n, c);
    RetryPosts(w1, r, n, c);
    AroundTransitive(w, w1, Walk(w, r, c, 2), r, n);
  }

  /** Four statements bring a run that was told the agent's version to its second payload, above that version. */
  lemma RetryToWire(w: World, r: nat, n: Id, c: Choice)
    requires r < |w.runs| && w.runs[r].node == n && NodeLive(w.db, n) && Smooth(c)
    requires w.runs[r].pc.RetryRealigning? && w.runs[r].pc.current >= AgentAt(w, n).version
    ensures var w' := Walk(w, r, c, 4);
      && Around(w, w', r, n) && AgentAt(w', n) == AgentAt(w, n) && w'.db.events == w.db.events
      && Posted(w', r, n) && !Behind(w', r, n) && w'.runs[r].pc.job.users == w.runs[r].pc.users
      && w'.runs[r].sent == w.runs[r].sent + [w'.runs[r].pc.job.version]
  {
    var w2, w4 := Walk(w, r, c, 2), Walk(w, r, c, 4);
    RetryToBump(w, r, n, c);
    BumpToWire(w2, r, n, c);
    WalkOn(w, r, c, 2, 2);
    AroundTransitive(w, w2, w4, r, n);
  }

  /**
   * A first attempt answered with `stale_version`, under any HTTP code: the stale event is recorded, and
   * if nothing disturbs the run it sends the same list once more, under a version above the agent's, and
   * ends with the agent holding it and an ok event.
   */
  lemma StaleRecovers(w: World, r: nat, n: Id, call: CallOutcome, reported: int, c: Choice)
    requires Posted(w, r, n) && SaysStale(w, r, n, call) && w.runs[r].pc.job.mayRetry && Smooth(c)
    ensures var job, w1 := w.runs[r].pc.job, Walk(w, r, Choice(Committed, call, reported), 3);
      var w2 := Walk(w1, r, c, 7);
      var v := AgentAt(w2, n).version;
      && w1.db.events == w.db.events + [Event(n, job.version, StaleVersion)]
      && r < |w2.runs| && w2.runs[r].pc.Done? && w2.runs[r].sent == w.runs[r].sent + [v]
      && v > AgentAt(w, n).version && AgentAt(w2, n).users == job.users
      && w2.db.events == w1.db.events + [Event(n, v, OkStatus)]
  {
    var w1 := Walk(w, r, Choice(Committed, call, reported), 3);
    EveryReply(w, r, n, call, reported);
    AgentUnmoved(w, r, n, call, reported);
    var w4 := Walk(w1, r, c, 4);
    RetryToWire(w1, r, n, c);
    WalkOn(w1, r, c, 4, 3);
    EveryReply(w4, r, n, Answered(true), c.reported);
    AgentTakes(w4, r, n, Answered(true), c.reported);
    assert c == Choice(Committed, Answered(true), c.reported);
  }

  lemma AgentUnmoved(w: World, r: nat, n: Id, call: CallOutcome, reported: int)
    requires Posted(w, r, n) && SaysStale(w, r, n, call)
    ensures AgentAt(Walk(w, r, Choice(Committed, call, reported), 3), n) == AgentAt(w, n)
  {
    var c := Choice(Committed, call, reported);
    ReplyIsRead(w, r, c, n);
    OutcomeRecorded(w, r, c, n, NextPc(w, w.runs[r], c).outcome);
  }

  lemma AgentTakes(w: World, r: nat, n: Id, call: CallOutcome, reported: int)
    requires Posted(w, r, n) && !Behind(w, r, n) && Reaches(call)
    ensures AgentAt(Walk(w, r, Choice(Committed, call, reported), 3), n).version == w.runs[r].pc.job.version
  {
    var c := Choice(Committed, call, reported);
    ReplyIsRead(w, r, c, n);
    OutcomeRecorded(w, r, c, n, NextPc(w, w.runs[r], c).outcome);
  }

  // ------------------------------------------------------------------- never a third attempt

  /** The run has sent its last payload. */
  predicate Spent(pc: Pc) {
    match pc
    case Awaiting(job, _) => !job.mayRetry
    case Logging(_, outcome) => !outcome.Stale?
    case Succeeding(_) => true
    case Failing(_) => true
    case Done(_) => true
    case Failed(_) => true
    case _ => false
  }

  lemma SpentStays(w: World, a: Action, r: nat)
    requires r < |w.runs| && Spent(w.runs[r].pc)
    ensures var w' := Exec(w, a);
      r < |w'.runs| && Spent(w'.runs[r].pc) && w'.runs[r].sent == w.runs[r].sent
  {
    if a.Advance? && a.run == r {
      assert Exec(w, a).runs[r].pc == NextPc(w, w.runs[r], a.choice);
    }
  }

  /** Over every interleaving and for every reply: once a second attempt is on the wire, the run sends no more. */
  lemma {:induction false} RetriedNeverSendsAgain(w: World, acts: seq<Action>, r: nat)
    requires r < |w.runs| && Spent(w.runs[r].pc)
    ensures var w' := Play(w, acts);
      r < |w'.runs| && Spent(w'.runs[r].pc) && w'.runs[r].sent == w.runs[r].sent
  {
    if acts != [] {
      var init := acts[..|acts| - 1];
      RetriedNeverSendsAgain(w, init, r);
      SpentStays(Play(w, init), acts[|acts| - 1], r);
    }
  }

  // --------------------------------------------------------------------- statements that fail

  /** The code returns the error of this statement; the errors of the other updates are ignored. */
  predicate Checked(pc: Pc) {
    || pc.Loading? || pc.Realigning? || pc.Reloading? || pc.Bumping? || pc.Reading?
    || pc.Logging? || pc.Succeeding?
    || pc.RetryRealigning? || pc.RetryReloading? || pc.RetryBumping?
  }

  lemma FailedStays(w: World, a: Action, r: nat)
    requires r < |w.runs| && w.runs[r].pc.Failed?
    ensures r < |Exec(w, a).runs| && Exec(w, a).runs[r].pc.Failed?
  {
  }

  lemma UnacknowledgedFails(w: World, r: nat, c: Choice)
    requires r < |w.runs| && Checked(w.runs[r].pc) && c.db != Committed
    ensures Exec(w, Advance(r, c)).runs[r].pc.Failed?
  {
    assert Exec(w, Advance(r, c)).runs[r].pc == NextPc(w, w.runs[r], c);
  }

  /** Whether an action is an unacknowledged checked statement of the run. */
  predicate Unacknowledged(w: World, a: Action, r: nat) {
    r < |w.runs| && a.Advance? && a.run == r && Checked(w.runs[r].pc) && a.choice.db != Committed
  }

  /**
   * Over every interleaving: a run that is done has had every statement acknowledged whose error the code
   * returns; one rollback or lost acknowledgement among them and it has failed for good.
   */
  lemma {:induction false} DoneIsAcknowledged(w: World, acts: seq<Action>, r: nat, k: nat)
    requires k < |acts| && Unacknowledged(Play(w, acts[..k]), acts[k], r)
    ensures r < |Play(w, acts).runs| && Play(w, acts).runs[r].pc.Failed?
  {
    var init, a := acts[..|acts| - 1], acts[|acts| - 1];
    if k == |init| {
      UnacknowledgedFails(Play(w, init), r, a.choice);
    } else {
      assert init[..k] == acts[..k];
      DoneIsAcknowledged(w, init, r, k);
      FailedStays(Play(w, init), a, r);
    }
  }

  /** A failed update of the status, by contrast, does not change where the run goes. */
  lemma IgnoredStatements(w: World, r: nat, c: Choice, d: Choice)
    requires r < |w.runs| && c == d.(db := c.db) && !Checked(w.runs[r].pc)
    ensures Exec(w, Advance(r, c)).runs[r].pc == Exec(w, Advance(r, d)).runs[r].pc
  {
    assert Exec(w, Advance(r, c)).runs[r].pc == NextPc(w, w.runs[r], c);
    assert Exec(w, Advance(r, d)).runs[r].pc == NextPc(w, w.runs[r], d);
  }
}
