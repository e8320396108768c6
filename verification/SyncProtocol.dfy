/**
 * The versioned sync protocol as a transition system.
 *
 * A world is the database, the node agents, every payload ever put on the wire
 * and every run of `SyncNode` or `FetchNodeStatus`, each with a program counter.
 * Nothing locks a node: between any two statements of one run, any other action
 * may happen.  `Exec` performs one action, and an action that is not possible
 * changes nothing, so a behaviour is any sequence of actions.
 *
 * The agent is not part of the repository.  It is the stated environment: it may
 * refuse any payload with any status, and a payload it does not refuse it accepts
 * exactly when the payload's version exceeds its own; it then replaces its whole
 * user set, its version never decreases, and the applied version it reports is at
 * most its version.  A payload once sent may reach the agent late, repeatedly or
 * never.
 */
module SyncProtocol {
  import opened Database

  /** `accepted` lists the payloads taken over, as positions in the wire log. */
  datatype Agent = Agent(version: int, users: map<Id, Grant>, accepted: seq<nat>)

  /** `bumpStep` and `readStep` record when the version and the users were fetched. */
  datatype Packet = Packet(node: Id, version: int, users: map<Id, Grant>, first: bool, bumpStep: nat, readStep: nat)

  datatype Bump = Bump(node: Id, version: int)

  datatype StatusReply = CallFailed | NotOk | Healthy(current: int, applied: int)

  datatype SyncReply = NoBody | Garbage | Body(http2xx: bool, ok: bool, status: Status, current: int, applied: int)

  datatype Outcome = Applied(version: int) | Stale(current: int, applied: int) | Rejected(status: Status)

  datatype Job = Job(version: int, users: map<Id, Grant>, mayRetry: bool, bumpStep: nat, readStep: nat)

  datatype Stage = AtGet | AtStatus | AtRealign | AtReload | AtBump | AtRead | AtEvent | AtSuccess | AtReply

  /** The statement a run performs next. */
  datatype Pc =
    | Loading
    | AskingStatus
    | RecordingStatus(reply: StatusReply)
    | RecordingNotOk
    | Realigning(current: int, applied: int)
    | Reloading
    | Bumping
    | Reading(version: int, bumpStep: nat)
    | Sending(job: Job)
    | Awaiting(job: Job, packet: nat)
    | Logging(job: Job, outcome: Outcome)
    | Succeeding(version: int)
    | Failing(status: Status)
    | Stalling(users: map<Id, Grant>, readStep: nat, current: int, applied: int)
    | RetryRealigning(users: map<Id, Grant>, readStep: nat, current: int, applied: int)
    | RetryReloading(users: map<Id, Grant>, readStep: nat)
    | RetryBumping(users: map<Id, Grant>, readStep: nat)
    | Done(version: int)
    | Failed(stage: Stage)

  /**
   * `statusOnly` is FetchNodeStatus.  `floor` is the last current version the agent
   * told this run; `sent` and `logged` are the versions it sent and recorded events for.
   */
  datatype Run = Run(node: Id, statusOnly: bool, pc: Pc, floor: int, sent: seq<int>, logged: seq<int>)

  datatype World = World(db: Db, agents: map<Id, Agent>, net: seq<Packet>, runs: seq<Run>, bumps: seq<Bump>, steps: nat)

  /** How a statement or a call can end. */
  datatype DbOutcome = Committed | RolledBack | AckLost
  datatype CallOutcome =
    | Answered(http2xx: bool)
    | Unanswered(reached: bool)
    | Garbled(reached: bool)
    | Refused(http2xx: bool, status: Status)
  datatype Choice = Choice(db: DbOutcome, call: CallOutcome, reported: int)

  datatype Action =
    | Begin(node: Id, statusOnly: bool)
    | Advance(run: nat, choice: Choice)
    | Arrive(packet: nat)
    | AgentMoves(node: Id, delta: nat)
    | Edit(edit: Edit)

  // ------------------------------------------------------------------ the agent

  function AgentAt(w: World, n: Id): Agent {
    if n in w.agents then w.agents[n] else Agent(0, map[], [])
  }

  function Delivered(a: Agent, p: Packet, i: nat): Agent {
    if p.version > a.version then Agent(p.version, p.users, a.accepted + [i]) else a
  }

  predicate Reaches(call: CallOutcome) {
    call.Answered? || (call.Unanswered? && call.reached) || (call.Garbled? && call.reached)
  }

  function Reported(version: int, c: Choice): int {
    if c.reported < version then c.reported else version
  }

  function StatusAnswer(a: Agent, c: Choice): StatusReply {
    match c.call
    case Answered(true) => Healthy(a.version, Reported(a.version, c))
    case Refused(true, _) => NotOk
    case _ => CallFailed
  }

  /** The reply to a payload, formed by the agent as it handles it. */
  function SyncAnswer(a: Agent, p: Packet, c: Choice): SyncReply {
    match c.call
    case Unanswered(_) => NoBody
    case Garbled(_) => Garbage
    case Refused(http2xx, status) =>
      Body(http2xx, false, status, a.version, Reported(a.version, c))
    case Answered(http2xx) =>
      if p.version > a.version then Body(http2xx, true, OkStatus, p.version, Reported(p.version, c))
      else Body(http2xx, false, StaleVersion, a.version, Reported(a.version, c))
  }

  // ------------------------------------------------------------ what a run reads

  function RemoteApplied(current: int, applied: int): int {
    if applied <= 0 then current else applied
  }

  /** The branching of syncNodeAttempt and retryOnStaleVersion over a reply. */
  function Classify(reply: SyncReply, version: int, mayRetry: bool): Outcome {
    match reply
    case NoBody => Rejected(HttpError)
    case Garbage => Rejected(DecodeError)
    case Body(http2xx, ok, status, current, applied) =>
      if !http2xx then
        if mayRetry && status.StaleVersion? then Stale(current, RemoteApplied(current, applied))
        else Rejected(HttpError)
      else if !ok then
        if mayRetry && status.StaleVersion? then Stale(current, RemoteApplied(current, applied))
        else Rejected(if status.NoStatus? then ApplyFailed else status)
      else Applied(if applied <= 0 then version else applied)
  }

  function OutcomeStatus(o: Outcome): Status {
    match o
    case Applied(_) => OkStatus
    case Stale(_, _) => StaleVersion
    case Rejected(status) => status
  }

  // ------------------------------------------------------------------- one step

  /** Where the statement at a run's counter leads it. */
  function NextPc(w: World, run: Run, c: Choice): Pc {
    var ok := c.db == Committed;
    var live := NodeLive(w.db, run.node);
    match run.pc
    case Loading => if ok && live then AskingStatus else Failed(AtGet)
    case AskingStatus => RecordingStatus(StatusAnswer(AgentAt(w, run.node), c))
    case RecordingStatus(reply) =>
      (match reply
       case CallFailed => Failed(AtStatus)
       case NotOk => RecordingNotOk
       case Healthy(current, applied) => Realigning(current, RemoteApplied(current, applied)))
    case RecordingNotOk => Failed(AtStatus)
    case Realigning(_, _) => if !ok then Failed(AtRealign) else if run.statusOnly then Done(0) else Reloading
    case Reloading => if ok && live then Bumping else Failed(AtReload)
    case Bumping => if ok && live then Reading(w.db.nodes[run.node].desired + 1, w.steps) else Failed(AtBump)
    case Reading(version, bumpStep) =>
      if ok then Sending(Job(version, ActiveAccess(w.db, run.node), true, bumpStep, w.steps)) else Failed(AtRead)
    case Sending(job) => Awaiting(job, |w.net|)
    case Awaiting(job, i) =>
      if i < |w.net| then
        Logging(job, Classify(SyncAnswer(AgentAt(w, run.node), w.net[i], c), job.version, job.mayRetry))
      else run.pc
    case Logging(job, outcome) =>
      if !(ok && live) then Failed(AtEvent)
      else (match outcome
            case Applied(version) => Succeeding(version)
            case Rejected(status) => Failing(status)
            case Stale(current, applied) => Stalling(job.users, job.readStep, current, applied))
    case Succeeding(version) => if ok then Done(version) else Failed(AtSuccess)
    case Failing(_) => Failed(AtReply)
    case Stalling(users, readStep, current, applied) => RetryRealigning(users, readStep, current, applied)
    case RetryRealigning(users, readStep, _, _) => if ok then RetryReloading(users, readStep) else Failed(AtRealign)
    case RetryReloading(users, readStep) => if ok && live then RetryBumping(users, readStep) else Failed(AtReload)
    case RetryBumping(users, readStep) =>
      if ok && live then Sending(Job(w.db.nodes[run.node].desired + 1, users, false, w.steps, readStep))
      else Failed(AtBump)
    case Done(_) => run.pc
    case Failed(_) => run.pc
  }

  function RunAfter(w: World, run: Run, c: Choice): Run {
    var next := run.(pc := NextPc(w, run, c));
    match run.pc
    case AskingStatus => next.(floor := AgentAt(w, run.node).version)
    case Sending(job) => next.(sent := run.sent + [job.version])
    case Awaiting(job, i) =>
      if i < |w.net| && next.pc.outcome.Stale? then next.(floor := AgentAt(w, run.node).version) else next
    case Logging(job, _) =>
      if NodeLive(w.db, run.node) && c.db != RolledBack then next.(logged := run.logged + [job.version]) else next
    case _ => next
  }

  /** The update a committed statement makes to its node row. */
  function RowAfter(pc: Pc, row: NodeRow): NodeRow {
    match pc
    case RecordingStatus(reply) => StatusMarked(row, if reply.CallFailed? then ErrorStatus else OkStatus)
    case RecordingNotOk => StatusMarked(row, ErrorStatus)
    case Realigning(current, applied) => Realigned(row, current, applied)
    case RetryRealigning(_, _, current, applied) => Realigned(row, current, applied)
    case Bumping => Bumped(row)
    case RetryBumping(_, _) => Bumped(row)
    case Succeeding(version) => SuccessMarked(row, version)
    case Failing(status) => FailureMarked(row, status)
    case Stalling(_, _, _, _) => FailureMarked(row, StaleVersion)
    case _ => row
  }

  function DbAfter(db: Db, run: Run, c: Choice): Db {
    if !NodeLive(db, run.node) || c.db == RolledBack then db
    else
      var db' := WithNode(db, run.node, RowAfter(run.pc, db.nodes[run.node]));
      match run.pc
      case Logging(job, outcome) => db'.(events := db.events + [Event(run.node, job.version, OutcomeStatus(outcome))])
      case _ => db'
  }

  function AgentsAfter(w: World, run: Run, c: Choice): map<Id, Agent> {
    match run.pc
    case Awaiting(_, i) =>
      if i < |w.net| && Reaches(c.call) then w.agents[run.node := Delivered(AgentAt(w, run.node), w.net[i], i)]
      else w.agents
    case _ => w.agents
  }

  function NetAfter(net: seq<Packet>, run: Run): seq<Packet> {
    match run.pc
    case Sending(job) => net + [Packet(run.node, job.version, job.users, job.mayRetry, job.bumpStep, job.readStep)]
    case _ => net
  }

  /** BumpVersion handed its result to the caller. */
  function BumpsAfter(w: World, run: Run, c: Choice): seq<Bump> {
    if (run.pc.Bumping? || run.pc.RetryBumping?) && c.db == Committed && NodeLive(w.db, run.node)
    then w.bumps + [Bump(run.node, w.db.nodes[run.node].desired + 1)]
    else w.bumps
  }

  function Advanced(w: World, r: nat, c: Choice): World
    requires r < |w.runs|
  {
    var run := w.runs[r];
    World(DbAfter(w.db, run, c), AgentsAfter(w, run, c), NetAfter(w.net, run),
          w.runs[r := RunAfter(w, run, c)], BumpsAfter(w, run, c), w.steps + 1)
  }

  function Exec(w: World, a: Action): World {
    var idle := w.(steps := w.steps + 1);
    match a
    case Begin(n, statusOnly) => idle.(runs := w.runs + [Run(n, statusOnly, Loading, 0, [], [])])
    case Advance(r, c) => if r < |w.runs| then Advanced(w, r, c) else idle
    case Arrive(i) =>
      if i < |w.net| then
        var n := w.net[i].node;
        idle.(agents := w.agents[n := Delivered(AgentAt(w, n), w.net[i], i)])
      else idle
    case AgentMoves(n, delta) =>
      var agent := AgentAt(w, n);
      idle.(agents := w.agents[n := agent.(version := agent.version + delta)])
    case Edit(e) => idle.(db := Edited(w.db, e))
  }

  function Play(w: World, acts: seq<Action>): World {
    if acts == [] then w else Exec(Play(w, acts[..|acts| - 1]), acts[|acts| - 1])
  }

  lemma {:induction false} PlayConcat(w: World, a: seq<Action>, b: seq<Action>)
    ensures Play(w, a + b) == Play(Play(w, a), b)
  {
    if b == [] {
      assert a + b == a;
    } else {
      var init := b[..|b| - 1];
      PlayConcat(w, a, init);
      assert (a + b)[..|a + b| - 1] == a + init;
    }
  }

  lemma PlayOne(w: World, a: Action)
    ensures Play(w, [a]) == Exec(w, a)
  {
    assert [a][..0] == [];
  }
}
