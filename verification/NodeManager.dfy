/**
 * The node manager and its repository as the sequential code they are, run among others.
 *
 * Between any two statements of a run, `Yield` lets the rest of the system act: the plan
 * says which actions happen and how the next statement or call ends, so quantifying over
 * plans quantifies over every interleaving and every failure.  The class invariant says
 * that the state is reached by exactly the recorded actions of the transition system, and
 * each method says where its run's counter stands when it returns.
 */
module NodeManager {
  import opened Prelude
  import opened Database
  import opened SyncProtocol
  import opened SyncSafety
  import opened SyncVersions

  datatype Turn = Turn(before: seq<Action>, choice: Choice)

  datatype Result = Success(version: int) | Failure

  /** One row of UsersPendingExpiryReconcile. */
  datatype Candidate = Candidate(id: Id, row: UserRow)

  /** The rows the query returns: each pending user once, earliest expiry first. */
  ghost predicate Listing(rows: seq<Candidate>, db: Db) {
    && (forall i :: 0 <= i < |rows| ==> Pending(db, rows[i].id) && rows[i].row == db.users[rows[i].id])
    && (forall u :: Pending(db, u) ==> exists i :: 0 <= i < |rows| && rows[i].id == u)
    && (forall i, j :: 0 <= i < j < |rows| ==> rows[i].id != rows[j].id)
    && (forall i, j :: 0 <= i < j < |rows| ==> rows[i].row.expiresAt.value <= rows[j].row.expiresAt.value)
  }

  function ExpiryOf(db: Db, u: Id): int {
    if u in db.users && db.users[u].expiresAt.Some? then db.users[u].expiresAt.value else 0
  }

  ghost predicate Earliest(db: Db, u: Id, users: set<Id>) {
    u in users && forall v :: v in users ==> ExpiryOf(db, u) <= ExpiryOf(db, v)
  }

  lemma {:induction false} EarliestExists(db: Db, users: set<Id>) returns (u: Id)
    requires users != {}
    ensures Earliest(db, u, users)
  {
    u :| u in users;
    if users != {u} {
      var rest := EarliestExists(db, users - {u});
      if ExpiryOf(db, rest) < ExpiryOf(db, u) {
        u := rest;
      }
    }
  }

  /** `list` holds every pending user but those in `rest`, who all expire later. */
  ghost predicate ListedSoFar(list: seq<Candidate>, rest: set<Id>, db: Db) {
    && (forall u :: u in rest ==> Pending(db, u))
    && (forall i :: 0 <= i < |list| ==>
          Pending(db, list[i].id) && list[i].row == db.users[list[i].id] && list[i].id !in rest)
    && (forall u :: Pending(db, u) ==> Lists(list, rest, u))
    && (forall i, j :: 0 <= i < j < |list| ==> list[i].id != list[j].id)
    && (forall i, j :: 0 <= i < j < |list| ==> list[i].row.expiresAt.value <= list[j].row.expiresAt.value)
    && (forall i, u :: 0 <= i < |list| && u in rest ==> list[i].row.expiresAt.value <= ExpiryOf(db, u))
  }

  ghost predicate Lists(list: seq<Candidate>, rest: set<Id>, u: Id) {
    u in rest || exists i :: 0 <= i < |list| && list[i].id == u
  }

  lemma ListsOneMore(list: seq<Candidate>, rest: set<Id>, c: Candidate, v: Id)
    requires Lists(list, rest, v)
    ensures Lists(list + [c], rest - {c.id}, v)
  {
    var list' := list + [c];
    assert list'[|list|] == c;
    if i :| 0 <= i < |list| && list[i].id == v {
      assert list'[i].id == v;
    }
  }

  lemma OrderedOneMore(list: seq<Candidate>, rest: set<Id>, db: Db, c: Candidate)
    requires ListedSoFar(list, rest, db) && c.id in rest && c.row == db.users[c.id]
    ensures var list' := list + [c];
      && (forall i, j :: 0 <= i < j < |list'| ==> list'[i].id != list'[j].id)
      && (forall i :: 0 <= i < |list'| ==> Pending(db, list'[i].id))
      && (forall i, j :: 0 <= i < j < |list'| ==> list'[i].row.expiresAt.value <= list'[j].row.expiresAt.value)
  {
    assert c.row.expiresAt.value == ExpiryOf(db, c.id);
  }

  lemma EarliestIsNext(list: seq<Candidate>, rest: set<Id>, db: Db, u: Id)
    requires ListedSoFar(list, rest, db) && Earliest(db, u, rest)
    ensures ListedSoFar(list + [Candidate(u, db.users[u])], rest - {u}, db)
  {
    var c := Candidate(u, db.users[u]);
    OrderedOneMore(list, rest, db, c);
    forall v | Pending(db, v)
      ensures Lists(list + [c], rest - {u}, v)
    {
      ListsOneMore(list, rest, c, v);
    }
  }

  /** `order by expires_at asc` over the pending rows. */
  method OrderByExpiry(db: Db) returns (list: seq<Candidate>)
    ensures Listing(list, db)
  {
    list := [];
    var rest := set u | u in db.users && Pending(db, u);
    while rest != {}
      invariant ListedSoFar(list, rest, db)
      decreases rest
    {
      ghost var earliest := EarliestExists(db, rest);
      assert exists u :: u in rest && forall v :: v in rest ==> ExpiryOf(db, u) <= ExpiryOf(db, v);
      var u :| u in rest && forall v :: v in rest ==> ExpiryOf(db, u) <= ExpiryOf(db, v);
      EarliestIsNext(list, rest, db, u);
      list, rest := list + [Candidate(u, db.users[u])], rest - {u};
    }
  }

  /** An action the plan schedules in a turn from `from` up to `to`. */
  ghost predicate Scheduled(plan: nat -> Turn, from: nat, to: nat, a: Action) {
    exists k: nat :: from <= k < to && a in plan(k).before
  }

  /** A scheduled action, a step of a run, or the panel's own mark of a user in `marked`. */
  ghost predicate Accounted(plan: nat -> Turn, from: nat, to: nat, marked: set<Id>, a: Action) {
    || a.Begin? || a.Advance? || Scheduled(plan, from, to, a)
    || (a.Edit? && a.edit.MarkExpirySynced? && a.edit.user in marked)
  }

  /** From trace `t` at turn `from` to trace `t'` at turn `to`, by accounted actions only. */
  ghost predicate Growth(plan: nat -> Turn, t: seq<Action>, from: nat, t': seq<Action>, to: nat, marked: set<Id>) {
    && t <= t' && from <= to
    && forall i :: |t| <= i < |t'| ==> Accounted(plan, from, to, marked, t'[i])
  }

  lemma GrowthThen(plan: nat -> Turn, t0: seq<Action>, f0: nat, t1: seq<Action>, f1: nat, t2: seq<Action>, f2: nat,
                   m0: set<Id>, m1: set<Id>, marked: set<Id>)
    requires Growth(plan, t0, f0, t1, f1, m0) && Growth(plan, t1, f1, t2, f2, m1)
    requires m0 <= marked && m1 <= marked
    ensures Growth(plan, t0, f0, t2, f2, marked)
  {
    forall i | |t0| <= i < |t2|
      ensures Accounted(plan, f0, f2, marked, t2[i])
    {
      if i < |t1| {
        assert t2[i] == t1[i] && Accounted(plan, f0, f1, m0, t1[i]);
      } else {
        assert Accounted(plan, f1, f2, m1, t2[i]);
      }
    }
  }

  /** In this world run `r` has a stale reply to its payload of this version in hand. */
  predicate StaleIn(w: World, r: nat, version: int) {
    r < |w.runs| && w.runs[r].pc.Logging? && w.runs[r].pc.job.version == version && w.runs[r].pc.outcome.Stale?
  }

  class Panel {
    var db: Db
    var agents: map<Id, Agent>
    var net: seq<Packet>
    var runs: seq<Run>
    var bumps: seq<Bump>
    var steps: nat
    var turns: nat
    const plan: nat -> Turn
    ghost const origin: World
    ghost var trace: seq<Action>

    function Now(): World
      reads this
    {
      World(db, agents, net, runs, bumps, steps)
    }

    ghost predicate Valid()
      reads this
    {
      Start(origin) && Now() == Play(origin, trace)
    }

    constructor (w: World, plan: nat -> Turn)
      requires Start(w)
      ensures Valid() && Now() == w && this.plan == plan && trace == [] && origin == w
    {
      db, agents, net, runs, bumps, steps := w.db, w.agents, w.net, w.runs, w.bumps, w.steps;
      this.plan, turns := plan, 0;
      origin, trace := w, [];
    }

    /** The trace and the turns have grown from `t` and `from`, with the panel's own marks of users in `marked`. */
    ghost predicate GrownMarking(t: seq<Action>, from: nat, marked: set<Id>)
      reads this
    {
      Growth(plan, t, from, trace, turns, marked)
    }

    ghost predicate Grown(t: seq<Action>, from: nat)
      reads this
    {
      GrownMarking(t, from, {})
    }

    /** The class invariant, the growth of the trace, and run `r` with what it sent and recorded so far. */
    ghost predicate Still(t: seq<Action>, from: nat, r: nat, run: Run)
      reads this
    {
      && Valid() && Grown(t, from)
      && r < |runs| && runs[r].node == run.node && runs[r].statusOnly == run.statusOnly
      && runs[r].sent == run.sent && runs[r].logged == run.logged
    }

    /** Run `r` has just performed one statement, which sent nothing. */
    ghost predicate Stepped(t: seq<Action>, from: nat, r: nat, run: Run, c: Choice)
      reads this
    {
      && Valid() && trace == t + [Advance(r, c)] && turns == from
      && r < |runs| && runs[r].node == run.node && runs[r].statusOnly == run.statusOnly && runs[r].sent == run.sent
    }

    /** A payload with this list was sent to the node under this version. */
    ghost predicate OnWire(n: Id, version: int, access: map<Id, Grant>)
      reads this
    {
      exists i :: 0 <= i < |net| && net[i].node == n && net[i].version == version && net[i].users == access
    }

    /** The version is above that of every payload sent to the node. */
    ghost predicate AboveWire(n: Id, version: int)
      reads this
    {
      forall i :: 0 <= i < |net| && net[i].node == n ==> net[i].version < version
    }

    method Enter(w: World)
      modifies this
      ensures Now() == w && trace == old(trace) && turns == old(turns)
    {
      db, agents, net, runs, bumps, steps := w.db, w.agents, w.net, w.runs, w.bumps, w.steps;
    }

    method Do(a: Action)
      requires Valid()
      modifies this
      ensures Valid() && Now() == Exec(old(Now()), a) && trace == old(trace) + [a] && turns == old(turns)
    {
      PlayOnward(origin, trace, a);
      Enter(Exec(Now(), a));
      trace := trace + [a];
    }

    static lemma PlayOnward(w: World, acts: seq<Action>, a: Action)
      ensures Play(w, acts + [a]) == Exec(Play(w, acts), a)
    {
      assert (acts + [a])[..|acts|] == acts;
    }

    /** Everything scheduled before the next statement of run `r`; only `r` itself advances `r`. */
    method Yield(r: nat) returns (c: Choice)
      requires Valid() && r < |runs|
      modifies this
      ensures Still(old(trace), old(turns), r, old(runs[r])) && runs[r] == old(runs[r])
    {
      var turn := plan(turns);
      turns := turns + 1;
      c := turn.choice;
      for i := 0 to |turn.before|
        invariant turns == old(turns) + 1
        invariant Still(old(trace), old(turns), r, old(runs[r])) && runs[r] == old(runs[r])
      {
        var a := turn.before[i];
        if !(a.Advance? && a.run == r) {
          assert Scheduled(plan, old(turns), turns, a);
          DoScheduled(a, r, old(trace), old(turns));
        }
      }
    }

    /** One scheduled action beside run `r`. */
    method DoScheduled(a: Action, r: nat, ghost t: seq<Action>, ghost from: nat)
      requires Valid() && Grown(t, from) && Scheduled(plan, from, turns, a)
      requires r < |runs| && !(a.Advance? && a.run == r)
      modifies this
      ensures turns == old(turns) && Still(t, from, r, old(runs[r])) && runs[r] == old(runs[r])
    {
      Do(a);
    }

    /** The same for a caller that is not a run. */
    method YieldAll() returns (c: Choice)
      requires Valid()
      modifies this
      ensures Valid() && Grown(old(trace), old(turns))
    {
      var turn := plan(turns);
      turns := turns + 1;
      c := turn.choice;
      for i := 0 to |turn.before|
        invariant turns == old(turns) + 1
        invariant Valid() && Grown(old(trace), old(turns))
      {
        assert Scheduled(plan, old(turns), turns, turn.before[i]);
        Do(turn.before[i]);
      }
    }

    /** Records that run `r` performed its statement, whose effect on tables, agents and wire is in place. */
    method Land(r: nat, c: Choice, before: World)
      requires before == Play(origin, trace) && Start(origin) && r < |runs|
      requires runs == before.runs && bumps == before.bumps && steps == before.steps
      requires db == DbAfter(before.db, before.runs[r], c)
      requires agents == AgentsAfter(before, before.runs[r], c)
      requires net == NetAfter(before.net, before.runs[r])
      modifies this`runs, this`bumps, this`steps, this`trace
      ensures Valid() && trace == old(trace) + [Advance(r, c)]
      ensures runs == before.runs[r := RunAfter(before, before.runs[r], c)]
    {
      bumps := BumpsAfter(before, before.runs[r], c);
      runs := before.runs[r := RunAfter(before, before.runs[r], c)];
      steps := before.steps + 1;
      PlayOnward(origin, trace, Advance(r, c));
      trace := trace + [Advance(r, c)];
    }

    // -------------------------------------------------------------- repository

    /** One update of one row: it changes nothing if it is rolled back or finds no row. */
    method UpdateNode(n: Id, row: NodeRow, outcome: DbOutcome) returns (ok: bool)
      requires NodeLive(db, n)
      modifies this`db
      ensures db == if outcome == RolledBack then old(db) else WithNode(old(db), n, row)
      ensures ok <==> outcome == Committed
    {
      if outcome != RolledBack {
        db := db.(nodes := db.nodes[n := row]);
      }
      ok := outcome == Committed;
    }

    method SyncRemoteState(n: Id, current: int, applied: int, outcome: DbOutcome) returns (ok: bool)
      modifies this`db
      ensures db == if NodeLive(old(db), n) && outcome != RolledBack
                    then WithNode(old(db), n, Realigned(old(db).nodes[n], current, applied)) else old(db)
      ensures ok <==> outcome == Committed
    {
      var remote := applied;
      if remote <= 0 {
        remote := current;
      }
      ok := outcome == Committed;
      if NodeLive(db, n) {
        var row := db.nodes[n];
        if row.desired < current {
          row := row.(desired := current);
        }
        if row.applied < remote {
          row := row.(applied := remote);
        }
        ok := UpdateNode(n, row.(status := OkStatus, setup := Connected), outcome);
      }
    }

    method BumpVersion(n: Id, outcome: DbOutcome) returns (version: Option<int>)
      modifies this`db
      ensures db == if NodeLive(old(db), n) && outcome != RolledBack
                    then WithNode(old(db), n, Bumped(old(db).nodes[n])) else old(db)
      ensures version == if NodeLive(old(db), n) && outcome == Committed
                         then Some(old(db).nodes[n].desired + 1) else None
    {
      version := None;
      if NodeLive(db, n) {
        var row := db.nodes[n].(desired := db.nodes[n].desired + 1);
        var ok := UpdateNode(n, row, outcome);
        if ok {
          version := Some(row.desired);
        }
      }
    }

    method MarkStatus(n: Id, status: Status, outcome: DbOutcome)
      modifies this`db
      ensures db == if NodeLive(old(db), n) && outcome != RolledBack
                    then WithNode(old(db), n, StatusMarked(old(db).nodes[n], status)) else old(db)
    {
      if NodeLive(db, n) {
        var row := db.nodes[n].(status := status);
        if status.OkStatus? {
          row := row.(setup := Connected);
        }
        var _ := UpdateNode(n, row, outcome);
      }
    }

    method MarkSyncSuccess(n: Id, version: int, outcome: DbOutcome) returns (ok: bool)
      modifies this`db
      ensures db == if NodeLive(old(db), n) && outcome != RolledBack
                    then WithNode(old(db), n, SuccessMarked(old(db).nodes[n], version)) else old(db)
      ensures ok <==> outcome == Committed
    {
      ok := outcome == Committed;
      if NodeLive(db, n) {
        ok := UpdateNode(n, db.nodes[n].(applied := version, status := OkStatus, setup := Connected), outcome);
      }
    }

    method MarkSyncFailure(n: Id, status: Status, outcome: DbOutcome)
      modifies this`db
      ensures db == if NodeLive(old(db), n) && outcome != RolledBack
                    then WithNode(old(db), n, FailureMarked(old(db).nodes[n], status)) else old(db)
    {
      if NodeLive(db, n) {
        var row := db.nodes[n].(status := status);
        if status.HttpError? {
          row := row.(setup := Unreachable);
        }
        var _ := UpdateNode(n, row, outcome);
      }
    }

    /** Fails on its foreign key when the node is gone. */
    method InsertSyncEvent(n: Id, version: int, status: Status, outcome: DbOutcome) returns (ok: bool)
      modifies this`db
      ensures db == if NodeLive(old(db), n) && outcome != RolledBack
                    then old(db).(events := old(db).events + [Event(n, version, status)]) else old(db)
      ensures ok <==> NodeLive(old(db), n) && outcome == Committed
    {
      ok := NodeLive(db, n) && outcome == Committed;
      if NodeLive(db, n) && outcome != RolledBack {
        db := db.(events := db.events + [Event(n, version, status)]);
      }
    }

    // ----------------------------------------------------------------- manager

    /** `repo.Get` as the next statement of a run. */
    method GetNode(r: nat) returns (found: bool)
      requires Valid() && r < |runs|
      requires runs[r].pc.Loading? || runs[r].pc.Reloading? || runs[r].pc.RetryReloading?
      modifies this
      ensures Still(old(trace), old(turns), r, old(runs[r]))
      ensures found ==> runs[r].pc == match old(runs[r].pc)
                                      case RetryReloading(users, readStep) => RetryBumping(users, readStep)
                                      case Reloading => Bumping
                                      case _ => AskingStatus
      ensures !found ==> runs[r].pc.Failed?
    {
      var c := Yield(r);
      var before := Now();
      found := c.db == Committed && NodeLive(db, runs[r].node);
      Unchanged(before, r, c);
      Land(r, c, before);
    }

    lemma Unchanged(w: World, r: nat, c: Choice)
      requires r < |w.runs| && !w.runs[r].pc.Logging?
      requires forall row: NodeRow :: RowAfter(w.runs[r].pc, row) == row
      ensures DbAfter(w.db, w.runs[r], c) == w.db
    {
    }

    /** `agent.StatusInfo`. */
    method StatusInfo(r: nat) returns (reply: StatusReply)
      requires Valid() && r < |runs| && runs[r].pc.AskingStatus?
      modifies this
      ensures Still(old(trace), old(turns), r, old(runs[r]))
      ensures runs[r].pc == RecordingStatus(reply)
    {
      var c := Yield(r);
      var before := Now();
      reply := StatusAnswer(AgentAt(before, runs[r].node), c);
      Unchanged(before, r, c);
      Land(r, c, before);
    }

    /** `recordStatus`; its own database error is ignored. */
    method RecordStatus(r: nat, reply: StatusReply)
      requires Valid() && r < |runs| && runs[r].pc == RecordingStatus(reply)
      modifies this
      ensures Still(old(trace), old(turns), r, old(runs[r]))
      ensures runs[r].pc == match reply
                            case CallFailed => Failed(AtStatus)
                            case NotOk => RecordingNotOk
                            case Healthy(current, applied) => Realigning(current, RemoteApplied(current, applied))
    {
      var c := Yield(r);
      RecordStatusNow(r, c, reply);
    }

    method RecordStatusNow(r: nat, c: Choice, reply: StatusReply)
      requires Valid() && r < |runs| && runs[r].pc == RecordingStatus(reply)
      modifies this
      ensures Stepped(old(trace), old(turns), r, old(runs[r]), c) && runs[r].logged == old(runs[r].logged)
      ensures runs[r].pc == match reply
                            case CallFailed => Failed(AtStatus)
                            case NotOk => RecordingNotOk
                            case Healthy(current, applied) => Realigning(current, RemoteApplied(current, applied))
    {
      var before := Now();
      MarkStatus(runs[r].node, if reply.CallFailed? then ErrorStatus else OkStatus, c.db);
      Land(r, c, before);
    }

    method RecordNotOk(r: nat)
      requires Valid() && r < |runs| && runs[r].pc.RecordingNotOk?
      modifies this
      ensures Still(old(trace), old(turns), r, old(runs[r]))
      ensures runs[r].pc.Failed?
    {
      var c := Yield(r);
      var before := Now();
      MarkStatus(runs[r].node, ErrorStatus, c.db);
      Land(r, c, before);
    }

    /** `SyncRemoteState` with what the agent reported, in /status or in a stale reply. */
    method Realign(r: nat, current: int, applied: int) returns (ok: bool)
      requires Valid() && r < |runs|
      requires match runs[r].pc
               case Realigning(cur, app) => cur == current && app == applied
               case RetryRealigning(_, _, cur, app) => cur == current && app == applied
               case _ => false
      modifies this
      ensures Still(old(trace), old(turns), r, old(runs[r]))
      ensures ok && old(runs[r].pc).Realigning? ==> runs[r].pc == if old(runs[r].statusOnly) then Done(0) else Reloading
      ensures ok && old(runs[r].pc).RetryRealigning? ==>
        runs[r].pc == RetryReloading(old(runs[r].pc.users), old(runs[r].pc.readStep))
      ensures !ok ==> runs[r].pc.Failed?
    {
      var c := Yield(r);
      var before := Now();
      ok := SyncRemoteState(runs[r].node, current, applied, c.db);
      Land(r, c, before);
    }

    /** What the two bumping counters do with the statement. */
    static lemma BumpEffect(w: World, run: Run, c: Choice)
      requires run.pc.Bumping? || run.pc.RetryBumping?
      ensures var n, pc := run.node, NextPc(w, run, c);
        && DbAfter(w.db, run, c) == (if NodeLive(w.db, n) && c.db != RolledBack
                                     then WithNode(w.db, n, Bumped(w.db.nodes[n])) else w.db)
        && AgentsAfter(w, run, c) == w.agents && NetAfter(w.net, run) == w.net
        && RunAfter(w, run, c) == run.(pc := pc)
        && (if NodeLive(w.db, n) && c.db == Committed
            then (run.pc.Bumping? ==> pc.Reading? && pc.version == w.db.nodes[n].desired + 1)
              && (run.pc.RetryBumping? ==> pc.Sending? && !pc.job.mayRetry && pc.job.users == run.pc.users
                                           && pc.job.version == w.db.nodes[n].desired + 1)
            else pc.Failed?)
    {
    }

    lemma WireBelowDesired(n: Id)
      requires Valid()
      ensures NodeLive(db, n) ==> AboveWire(n, db.nodes[n].desired + 1)
    {
      StartIsReachable(origin);
      PlayKeepsReachable(origin, trace);
      assert NetBounded(Now());
    }

    /** `BumpVersion`, before a first attempt or a retry: a version above every payload of the node. */
    method Bump(r: nat) returns (version: Option<int>)
      requires Valid() && r < |runs| && (runs[r].pc.Bumping? || runs[r].pc.RetryBumping?)
      modifies this
      ensures Still(old(trace), old(turns), r, old(runs[r]))
      ensures version.Some? && old(runs[r].pc).Bumping? ==> runs[r].pc.Reading? && runs[r].pc.version == version.value
      ensures version.Some? && old(runs[r].pc).RetryBumping? ==>
        && runs[r].pc.Sending? && !runs[r].pc.job.mayRetry
        && runs[r].pc.job.version == version.value && runs[r].pc.job.users == old(runs[r].pc.users)
      ensures version.Some? ==> AboveWire(runs[r].node, version.value)
      ensures version.None? ==> runs[r].pc.Failed?
    {
      var c := Yield(r);
      version := BumpNow(r, c);
    }

    /** The statement of Bump. */
    method BumpNow(r: nat, c: Choice) returns (version: Option<int>)
      requires Valid() && r < |runs| && (runs[r].pc.Bumping? || runs[r].pc.RetryBumping?)
      modifies this
      ensures Stepped(old(trace), old(turns), r, old(runs[r]), c) && runs[r].logged == old(runs[r].logged)
      ensures version.Some? && old(runs[r].pc).Bumping? ==> runs[r].pc.Reading? && runs[r].pc.version == version.value
      ensures version.Some? && old(runs[r].pc).RetryBumping? ==>
        && runs[r].pc.Sending? && !runs[r].pc.job.mayRetry
        && runs[r].pc.job.version == version.value && runs[r].pc.job.users == old(runs[r].pc.users)
      ensures version.Some? ==> AboveWire(runs[r].node, version.value)
      ensures version.None? ==> runs[r].pc.Failed?
    {
      var before := Now();
      WireBelowDesired(runs[r].node);
      BumpEffect(before, runs[r], c);
      version := BumpVersion(runs[r].node, c.db);
      Land(r, c, before);
      assert runs[r] == RunAfter(before, before.runs[r], c);
    }

    /** `ActiveAccessForNode`. */
    method ReadAccess(r: nat) returns (access: Option<map<Id, Grant>>)
      requires Valid() && r < |runs| && runs[r].pc.Reading?
      modifies this
      ensures Still(old(trace), old(turns), r, old(runs[r]))
      ensures access.Some? ==>
        && runs[r].pc.Sending? && runs[r].pc.job.mayRetry
        && runs[r].pc.job.version == old(runs[r].pc.version) && runs[r].pc.job.users == access.value
      ensures access.None? ==> runs[r].pc.Failed?
    {
      var c := Yield(r);
      access := ReadAccessNow(r, c);
    }

    method ReadAccessNow(r: nat, c: Choice) returns (access: Option<map<Id, Grant>>)
      requires Valid() && r < |runs| && runs[r].pc.Reading?
      modifies this
      ensures Stepped(old(trace), old(turns), r, old(runs[r]), c) && runs[r].logged == old(runs[r].logged)
      ensures access.Some? ==>
        && runs[r].pc.Sending? && runs[r].pc.job.mayRetry
        && runs[r].pc.job.version == old(runs[r].pc.version) && runs[r].pc.job.users == access.value
      ensures access.None? ==> runs[r].pc.Failed?
    {
      var before := Now();
      access := if c.db.Committed? then Some(ActiveAccess(db, runs[r].node)) else None;
      Unchanged(before, r, c);
      Land(r, c, before);
    }

    /** The payload leaves for the agent. */
    method Post(r: nat, access: map<Id, Grant>, version: int, allowRetry: bool)
      requires Valid() && r < |runs| && runs[r].pc.Sending?
      requires runs[r].pc.job.version == version && runs[r].pc.job.users == access
      requires runs[r].pc.job.mayRetry == allowRetry
      modifies this
      ensures Still(old(trace), old(turns), r, old(runs[r]).(sent := old(runs[r].sent) + [version]))
      ensures runs[r].pc.Awaiting? && runs[r].pc.job == old(runs[r].pc.job)
      ensures OnWire(runs[r].node, version, access)
    {
      var c := Yield(r);
      var before := Now();
      var job := runs[r].pc.job;
      Unchanged(before, r, c);
      net := net + [Packet(runs[r].node, version, access, allowRetry, job.bumpStep, job.readStep)];
      Land(r, c, before);
      assert net[|before.net|].users == access;
    }

    lemma WireHasPayload(r: nat)
      requires Valid() && r < |runs| && runs[r].pc.Awaiting?
      ensures runs[r].pc.packet < |net|
    {
      StartIsReachable(origin);
      PlayKeepsReachable(origin, trace);
      assert RunBounded(Now(), runs[r]);
    }

    static lemma ReplyEffect(w: World, run: Run, c: Choice)
      requires run.pc.Awaiting? && run.pc.packet < |w.net|
      ensures var n, job, i := run.node, run.pc.job, run.pc.packet;
        && DbAfter(w.db, run, c) == w.db && NetAfter(w.net, run) == w.net
        && AgentsAfter(w, run, c) == (if Reaches(c.call) then w.agents[n := Delivered(AgentAt(w, n), w.net[i], i)]
                                      else w.agents)
        && NextPc(w, run, c) ==
           Logging(job, Classify(SyncAnswer(AgentAt(w, n), w.net[i], c), job.version, job.mayRetry))
        && RunAfter(w, run, c) == run.(pc := NextPc(w, run, c), floor := RunAfter(w, run, c).floor)
    {
    }

    /** The agent handles the payload, if it gets there, and the panel reads the reply. */
    method Reply(r: nat, version: int, allowRetry: bool) returns (outcome: Outcome)
      requires Valid() && r < |runs| && runs[r].pc.Awaiting?
      requires runs[r].pc.job.version == version && runs[r].pc.job.mayRetry == allowRetry
      modifies this
      ensures Still(old(trace), old(turns), r, old(runs[r]))
      ensures runs[r].pc == Logging(old(runs[r].pc.job), outcome)
      ensures outcome.Stale? ==> allowRetry
    {
      var c := Yield(r);
      outcome := ReplyNow(r, c, version, allowRetry);
    }

    /** The call and its reply. */
    method ReplyNow(r: nat, c: Choice, version: int, allowRetry: bool) returns (outcome: Outcome)
      requires Valid() && r < |runs| && runs[r].pc.Awaiting?
      requires runs[r].pc.job.version == version && runs[r].pc.job.mayRetry == allowRetry
      modifies this
      ensures Stepped(old(trace), old(turns), r, old(runs[r]), c) && runs[r].logged == old(runs[r].logged)
      ensures runs[r].pc == Logging(old(runs[r].pc.job), outcome)
      ensures outcome.Stale? ==> allowRetry
    {
      var before := Now();
      WireHasPayload(r);
      ReplyEffect(before, runs[r], c);
      var i, n := runs[r].pc.packet, runs[r].node;
      outcome := Classify(SyncAnswer(AgentAt(before, n), net[i], c), version, allowRetry);
      if Reaches(c.call) {
        agents := agents[n := Delivered(AgentAt(before, n), net[i], i)];
      }
      Land(r, c, before);
      assert runs[r] == RunAfter(before, before.runs[r], c);
    }

    /** `InsertSyncEvent` for the outcome at hand. */
    method RecordEvent(r: nat, version: int, outcome: Outcome) returns (ok: bool)
      requires Valid() && r < |runs| && runs[r].pc.Logging?
      requires runs[r].pc.job.version == version && runs[r].pc.outcome == outcome
      modifies this
      ensures r < |runs|
      ensures Still(old(trace), old(turns), r, old(runs[r]).(logged := runs[r].logged))
      ensures ok ==> runs[r].logged == old(runs[r].logged) + [version]
      ensures ok ==> var job := old(runs[r].pc.job);
        runs[r].pc == match outcome
                      case Applied(v) => Succeeding(v)
                      case Rejected(status) => Failing(status)
                      case Stale(current, applied) => Stalling(job.users, job.readStep, current, applied)
      ensures !ok ==> runs[r].pc.Failed?
    {
      var c := Yield(r);
      ok := RecordEventNow(r, c, version, outcome);
    }

    /** The insert of RecordEvent. */
    method RecordEventNow(r: nat, c: Choice, version: int, outcome: Outcome) returns (ok: bool)
      requires Valid() && r < |runs| && runs[r].pc.Logging?
      requires runs[r].pc.job.version == version && runs[r].pc.outcome == outcome
      modifies this
      ensures Stepped(old(trace), old(turns), r, old(runs[r]), c)
      ensures ok ==> runs[r].logged == old(runs[r].logged) + [version]
      ensures ok ==> var job := old(runs[r].pc.job);
        runs[r].pc == match outcome
                      case Applied(v) => Succeeding(v)
                      case Rejected(status) => Failing(status)
                      case Stale(current, applied) => Stalling(job.users, job.readStep, current, applied)
      ensures !ok ==> runs[r].pc.Failed?
    {
      var before := Now();
      ok := InsertSyncEvent(runs[r].node, version, OutcomeStatus(outcome), c.db);
      assert NodeLive(before.db, runs[r].node) ==>
        before.db.nodes[runs[r].node := before.db.nodes[runs[r].node]] == before.db.nodes;
      Land(r, c, before);
    }

    /** `MarkSyncSuccess`. */
    method RecordSuccess(r: nat, version: int) returns (ok: bool)
      requires Valid() && r < |runs| && runs[r].pc == Succeeding(version)
      modifies this
      ensures Still(old(trace), old(turns), r, old(runs[r]))
      ensures ok ==> runs[r].pc == Done(version)
      ensures !ok ==> runs[r].pc.Failed?
    {
      var c := Yield(r);
      ok := RecordSuccessNow(r, c, version);
    }

    method RecordSuccessNow(r: nat, c: Choice, version: int) returns (ok: bool)
      requires Valid() && r < |runs| && runs[r].pc == Succeeding(version)
      modifies this
      ensures Stepped(old(trace), old(turns), r, old(runs[r]), c) && runs[r].logged == old(runs[r].logged)
      ensures ok ==> runs[r].pc == Done(version)
      ensures !ok ==> runs[r].pc.Failed?
    {
      var before := Now();
      ok := MarkSyncSuccess(runs[r].node, version, c.db);
      Land(r, c, before);
    }

    static lemma FailureEffect(w: World, run: Run, c: Choice, status: Status)
      requires run.pc == Failing(status) || (run.pc.Stalling? && status.StaleVersion?)
      ensures var n, pc := run.node, run.pc;
        && DbAfter(w.db, run, c) == (if NodeLive(w.db, n) && c.db != RolledBack
                                     then WithNode(w.db, n, FailureMarked(w.db.nodes[n], status)) else w.db)
        && AgentsAfter(w, run, c) == w.agents && NetAfter(w.net, run) == w.net
        && RunAfter(w, run, c) == run.(pc := if pc.Failing? then Failed(AtReply)
                                             else RetryRealigning(pc.users, pc.readStep, pc.current, pc.applied))
    {
    }

    /** `MarkSyncFailure`, whose own error is ignored. */
    method RecordFailure(r: nat, status: Status)
      requires Valid() && r < |runs|
      requires runs[r].pc == Failing(status) || (runs[r].pc.Stalling? && status.StaleVersion?)
      modifies this
      ensures Still(old(trace), old(turns), r, old(runs[r]))
      ensures old(runs[r].pc).Failing? ==> runs[r].pc.Failed?
      ensures old(runs[r].pc).Stalling? ==> var pc := old(runs[r].pc);
        runs[r].pc == RetryRealigning(pc.users, pc.readStep, pc.current, pc.applied)
    {
      var c := Yield(r);
      RecordFailureNow(r, c, status);
    }

    method RecordFailureNow(r: nat, c: Choice, status: Status)
      requires Valid() && r < |runs|
      requires runs[r].pc == Failing(status) || (runs[r].pc.Stalling? && status.StaleVersion?)
      modifies this
      ensures Stepped(old(trace), old(turns), r, old(runs[r]), c) && runs[r].logged == old(runs[r].logged)
      ensures old(runs[r].pc).Failing? ==> runs[r].pc.Failed?
      ensures old(runs[r].pc).Stalling? ==> var pc := old(runs[r].pc);
        runs[r].pc == RetryRealigning(pc.users, pc.readStep, pc.current, pc.applied)
    {
      var before := Now();
      FailureEffect(before, runs[r], c, status);
      MarkSyncFailure(runs[r].node, status, c.db);
      Land(r, c, before);
      assert runs[r] == RunAfter(before, before.runs[r], c);
    }

    // ------------------------------------------------------------ users repository

    /** UsersPendingExpiryReconcile: the pending rows, earliest expiry first. */
    method UsersPendingExpiryReconcile() returns (rows: Option<seq<Candidate>>)
      requires Valid()
      modifies this
      ensures Valid() && Grown(old(trace), old(turns))
      ensures rows.Some? ==> Listing(rows.value, db)
    {
      var c := YieldAll();
      if !c.db.Committed? {
        return None;
      }
      var list := OrderByExpiry(db);
      rows := Some(list);
    }

    /** ActiveNodeIDsForExpiredUser: distinct node ids in ascending order. */
    method ActiveNodeIDsForExpiredUser(u: Id) returns (ids: Option<seq<Id>>)
      requires Valid()
      modifies this
      ensures Valid() && Grown(old(trace), old(turns))
      ensures ids.Some? ==> Ascending(ids.value) && forall n :: n in ids.value <==> n in EnabledNodes(db, u)
    {
      var c := YieldAll();
      if c.db.Committed? {
        var list := SortStrings(EnabledNodes(db, u));
        ids := Some(list);
      } else {
        ids := None;
      }
    }

    /** The update of MarkExpirySynced. */
    method MarkExpirySynced(u: Id, outcome: DbOutcome)
      requires Valid()
      modifies this
      ensures Valid() && GrownMarking(old(trace), old(turns), {u})
      ensures db == if outcome == RolledBack then old(db) else Edited(old(db), Edit.MarkExpirySynced(u))
    {
      if outcome != RolledBack {
        Do(Action.Edit(Edit.MarkExpirySynced(u)));
        OwnMark(plan, old(trace), turns, u);
      }
    }

    static lemma OwnMark(plan: nat -> Turn, t: seq<Action>, from: nat, u: Id)
      ensures Growth(plan, t, from, t + [Action.Edit(Edit.MarkExpirySynced(u))], from, {u})
    {
    }

    // ------------------------------------------------------- the manager's methods

    method FetchAndReconcileStatus(r: nat) returns (ok: bool)
      requires Valid() && r < |runs| && runs[r].pc.AskingStatus?
      modifies this
      ensures Still(old(trace), old(turns), r, old(runs[r]))
      ensures ok ==> runs[r].pc == if runs[r].statusOnly then Done(0) else Reloading
      ensures !ok ==> runs[r].pc.Failed?
    {
      var reply := StatusInfo(r);
      RecordStatus(r, reply);
      match reply
      case CallFailed =>
        ok := false;
      case NotOk =>
        RecordNotOk(r);
        ok := false;
      case Healthy(current, applied) =>
        ok := Realign(r, current, RemoteApplied(current, applied));
    }

    lemma WireKept(t: seq<Action>, from: nat, n: Id, version: int, access: map<Id, Grant>)
      requires Valid() && Grown(t, from)
      requires exists i :: 0 <= i < |Play(origin, t).net| && Play(origin, t).net[i].node == n
                           && Play(origin, t).net[i].version == version && Play(origin, t).net[i].users == access
      ensures OnWire(n, version, access)
    {
      var w := Play(origin, t);
      assert trace == t + trace[|t|..];
      PlayConcat(origin, t, trace[|t|..]);
      PlayGrows(w, trace[|t|..]);
      var i :| 0 <= i < |w.net| && w.net[i].node == n && w.net[i].version == version && w.net[i].users == access;
      assert net[i] == w.net[i];
    }

    /** At some moment since the trace had length `from`, the run had a stale reply to its payload `version`. */
    ghost predicate WentStale(from: nat, r: nat, version: int)
      reads this
    {
      exists k :: from <= k <= |trace| && StaleIn(Play(origin, trace[..k]), r, version)
    }

    lemma StaleStays(t: seq<Action>, from: nat, r: nat, version: int)
      requires from <= |t| && t <= trace && StaleIn(Play(origin, t), r, version)
      ensures WentStale(from, r, version)
    {
      assert trace[..|t|] == t;
    }

    /** The payload leaves, and its reply is read. */
    method Exchange(r: nat, access: map<Id, Grant>, version: int, allowRetry: bool) returns (outcome: Outcome)
      requires Valid() && r < |runs| && runs[r].pc.Sending?
      requires runs[r].pc.job.version == version && runs[r].pc.job.users == access
      requires runs[r].pc.job.mayRetry == allowRetry
      modifies this
      ensures Still(old(trace), old(turns), r, old(runs[r]).(sent := old(runs[r].sent) + [version]))
      ensures runs[r].pc == Logging(old(runs[r].pc.job), outcome) && (outcome.Stale? ==> allowRetry)
      ensures OnWire(runs[r].node, version, access)
    {
      Post(r, access, version, allowRetry);
      ghost var t, from, n := trace, turns, runs[r].node;
      outcome := Reply(r, version, allowRetry);
      WireKept(t, from, n, version, access);
    }

    /** What an attempt has sent: its payload, and after a stale reply perhaps the same list under a higher version. */
    ghost predicate Attempted(from: nat, r: nat, sent: seq<int>, access: map<Id, Grant>, version: int, allowRetry: bool)
      reads this
    {
      && r < |runs| && OnWire(runs[r].node, version, access)
      && (|| runs[r].sent == sent + [version]
          || (allowRetry && WentStale(from, r, version) && exists again ::
                again > version && OnWire(runs[r].node, again, access) && runs[r].sent == sent + [version, again]))
    }

    lemma RetryAttempted(from: nat, r: nat, sent: seq<int>, access: map<Id, Grant>, version: int)
      requires r < |runs| && OnWire(runs[r].node, version, access) && WentStale(from, r, version)
      requires || runs[r].sent == sent + [version]
               || exists again :: again > version && OnWire(runs[r].node, again, access)
                                  && runs[r].sent == sent + [version] + [again]
      ensures Attempted(from, r, sent, access, version, true)
    {
      if again :| again > version && OnWire(runs[r].node, again, access) && runs[r].sent == sent + [version] + [again] {
        assert sent + [version] + [again] == sent + [version, again];
      }
    }

    /**
     * syncNodeAttempt; a stale reply to a first attempt leads to one retry with the same list.  The run
     * sends the list under the given version and, only after a stale reply to that, perhaps once more
     * under a higher one; a success means that every payload sent has been recorded.
     */
    method SyncNodeAttempt(r: nat, access: map<Id, Grant>, version: int, allowRetry: bool) returns (result: Result)
      requires Valid() && r < |runs| && runs[r].pc.Sending? && !runs[r].statusOnly
      requires runs[r].pc.job.version == version && runs[r].pc.job.users == access
      requires runs[r].pc.job.mayRetry == allowRetry
      modifies this
      ensures r < |runs|
      ensures Still(old(trace), old(turns), r, old(runs[r]).(sent := runs[r].sent, logged := runs[r].logged))
      ensures result.Success? ==> runs[r].pc == Done(result.version)
      ensures result.Failure? ==> runs[r].pc.Failed?
      ensures Attempted(|old(trace)|, r, old(runs[r].sent), access, version, allowRetry)
      ensures result.Success? ==> runs[r].logged == old(runs[r].logged) + runs[r].sent[|old(runs[r].sent)|..]
      decreases allowRetry, 1
    {
      var outcome := Exchange(r, access, version, allowRetry);
      ghost var t, from := trace, turns;
      if outcome.Stale? {
        result := RetryFromAgentResponse(r, access, version, outcome);
        StaleStays(t, |old(trace)|, r, version);
        RetryAttempted(|old(trace)|, r, old(runs[r].sent), access, version);
      } else {
        result := RecordReply(r, version, outcome);
        WireKept(t, from, runs[r].node, version, access);
      }
      SentTail(old(runs[r].logged), old(runs[r].sent), version, runs[r].sent);
    }

    static lemma SentTail(logged: seq<int>, sent: seq<int>, version: int, after: seq<int>)
      requires sent + [version] <= after
      ensures logged + [version] + after[|sent| + 1..] == logged + after[|sent|..]
    {
      assert after[|sent|..] == [version] + after[|sent| + 1..];
    }

    /** The event of an accepted or rejected payload, and what it does to the row. */
    method RecordReply(r: nat, version: int, outcome: Outcome) returns (result: Result)
      requires Valid() && r < |runs| && runs[r].pc.Logging? && runs[r].pc.outcome == outcome && !outcome.Stale?
      requires runs[r].pc.job.version == version
      modifies this
      ensures r < |runs|
      ensures Still(old(trace), old(turns), r, old(runs[r]).(logged := runs[r].logged))
      ensures result.Success? ==>
        runs[r].pc == Done(result.version) && runs[r].logged == old(runs[r].logged) + [version]
      ensures result.Failure? ==> runs[r].pc.Failed?
    {
      var recorded := RecordEvent(r, version, outcome);
      if !recorded {
        return Failure;
      }
      if outcome.Rejected? {
        RecordFailure(r, outcome.status);
        return Failure;
      }
      var ok := RecordSuccess(r, outcome.version);
      result := if ok then Success(outcome.version) else Failure;
    }

    /** retryFromAgentResponse up to its read of the row. */
    method RecordStale(r: nat, version: int, outcome: Outcome) returns (realigned: bool)
      requires Valid() && r < |runs| && !runs[r].statusOnly && outcome.Stale?
      requires runs[r].pc.Logging? && runs[r].pc.outcome == outcome && runs[r].pc.job.version == version
      modifies this
      ensures r < |runs|
      ensures Still(old(trace), old(turns), r, old(runs[r]).(logged := runs[r].logged))
      ensures realigned ==> runs[r].pc == RetryReloading(old(runs[r].pc.job.users), old(runs[r].pc.job.readStep))
      ensures realigned ==> runs[r].logged == old(runs[r].logged) + [version]
      ensures !realigned ==> runs[r].pc.Failed?
    {
      var recorded := RecordEvent(r, version, outcome);
      if !recorded {
        return false;
      }
      RecordFailure(r, StaleVersion);
      realigned := Realign(r, outcome.current, outcome.applied);
    }

    /** The stale event, the realignment, a fresh version, and the same list once more. */
    method RetryFromAgentResponse(r: nat, access: map<Id, Grant>, version: int, outcome: Outcome)
      returns (result: Result)
      requires Valid() && r < |runs| && !runs[r].statusOnly && outcome.Stale?
      requires runs[r].pc.Logging? && runs[r].pc.outcome == outcome && runs[r].pc.job.mayRetry
      requires runs[r].pc.job.version == version && runs[r].pc.job.users == access
      requires OnWire(runs[r].node, version, access)
      modifies this
      ensures r < |runs|
      ensures Still(old(trace), old(turns), r, old(runs[r]).(sent := runs[r].sent, logged := runs[r].logged))
      ensures result.Success? ==> runs[r].pc == Done(result.version)
      ensures result.Failure? ==> runs[r].pc.Failed?
      ensures OnWire(runs[r].node, version, access)
      ensures || runs[r].sent == old(runs[r].sent)
              || exists again :: again > version && OnWire(runs[r].node, again, access)
                                 && runs[r].sent == old(runs[r].sent) + [again]
      ensures result.Success? ==>
        && |runs[r].sent| == |old(runs[r].sent)| + 1
        && runs[r].logged == old(runs[r].logged) + [version] + runs[r].sent[|old(runs[r].sent)|..]
      decreases true, 0
    {
      ghost var t, from, n := trace, turns, runs[r].node;
      var retryVersion := PrepareRetry(r, version, outcome);
      WireKept(t, from, n, version, access);
      if retryVersion.None? {
        return Failure;
      }
      result := SyncNodeAttempt(r, access, retryVersion.value, false);
      WireKept(t, from, n, version, access);
    }

    method PrepareRetry(r: nat, version: int, outcome: Outcome) returns (retryVersion: Option<int>)
      requires Valid() && r < |runs| && !runs[r].statusOnly && outcome.Stale?
      requires runs[r].pc.Logging? && runs[r].pc.outcome == outcome && runs[r].pc.job.version == version
      modifies this
      ensures r < |runs|
      ensures Still(old(trace), old(turns), r, old(runs[r]).(logged := runs[r].logged))
      ensures retryVersion.None? ==> runs[r].pc.Failed?
      ensures retryVersion.Some? ==>
        && runs[r].logged == old(runs[r].logged) + [version]
        && runs[r].pc.Sending? && !runs[r].pc.job.mayRetry
        && runs[r].pc.job.version == retryVersion.value && runs[r].pc.job.users == old(runs[r].pc.job.users)
        && AboveWire(runs[r].node, retryVersion.value)
    {
      var realigned := RecordStale(r, version, outcome);
      if !realigned {
        return None;
      }
      var found := GetNode(r);
      if !found {
        return None;
      }
      retryVersion := Bump(r);
    }

    /** The head of SyncNode: read the row, reconcile with /status, read the row again. */
    method Prepare(r: nat) returns (ready: bool)
      requires Valid() && r < |runs| && runs[r].pc.Loading? && !runs[r].statusOnly
      modifies this
      ensures Still(old(trace), old(turns), r, old(runs[r]))
      ensures ready ==> runs[r].pc.Bumping?
      ensures !ready ==> runs[r].pc.Failed?
    {
      var found := GetNode(r);
      if !found {
        return false;
      }
      var healthy := FetchAndReconcileStatus(r);
      if !healthy {
        return false;
      }
      ready := GetNode(r);
    }

    /** The run sent this list, first under one version and perhaps once more under a higher one. */
    ghost predicate SentList(r: nat, access: map<Id, Grant>)
      reads this
    {
      && r < |runs| && 1 <= |runs[r].sent| <= 2
      && OnWire(runs[r].node, runs[r].sent[0], access)
      && (|runs[r].sent| == 2 ==> runs[r].sent[0] < runs[r].sent[1] && OnWire(runs[r].node, runs[r].sent[1], access))
    }

    ghost predicate SentOneList(r: nat)
      reads this
    {
      exists access :: SentList(r, access)
    }

    lemma OneListSent(from: nat, r: nat, version: int, access: map<Id, Grant>)
      requires Attempted(from, r, [], access, version, true)
      ensures SentList(r, access)
    {
    }

    /** The rest of SyncNode: a fresh version, then the list, then the payload. */
    method SendCurrent(r: nat) returns (result: Result)
      requires Valid() && r < |runs| && runs[r].pc.Bumping? && !runs[r].statusOnly
      requires runs[r].sent == [] == runs[r].logged
      modifies this
      ensures r < |runs|
      ensures Still(old(trace), old(turns), r, old(runs[r]).(sent := runs[r].sent, logged := runs[r].logged))
      ensures result.Success? ==> runs[r].pc == Done(result.version)
      ensures result.Failure? ==> runs[r].pc.Failed?
      ensures runs[r].sent == [] || SentOneList(r)
      ensures result.Success? ==> runs[r].sent != [] && runs[r].logged == runs[r].sent
    {
      var version := Bump(r);
      if version.None? {
        return Failure;
      }
      var access := ReadAccess(r);
      if access.None? {
        return Failure;
      }
      ghost var t := trace;
      result := SyncNodeAttempt(r, access.value, version.value, true);
      OneListSent(|t|, r, version.value, access.value);
    }

    method BeginRun(n: Id) returns (r: nat)
      requires Valid()
      modifies this
      ensures r == old(|runs|) && trace == old(trace) + [Begin(n, false)]
      ensures Valid() && Grown(old(trace), old(turns))
      ensures r < |runs| && runs[r] == Run(n, false, Loading, 0, [], [])
    {
      r := |runs|;
      Do(Begin(n, false));
    }

    /**
     * SyncNode as a run of the transition system: whatever the plan interleaves and lets fail,
     * the state is reached by recorded actions, and a success is a run that is done, has sent one
     * list under one or two rising versions, and has recorded each.
     */
    method SyncNode(n: Id) returns (r: nat, result: Result)
      requires Valid()
      modifies this
      ensures r == old(|runs|)
      ensures Valid() && Grown(old(trace), old(turns)) && r < |runs| && runs[r].node == n && !runs[r].statusOnly
      ensures |trace| > |old(trace)| && trace[|old(trace)|] == Begin(n, false)
      ensures result.Success? ==> runs[r].pc == Done(result.version)
      ensures result.Failure? ==> runs[r].pc.Failed?
      ensures runs[r].sent == [] || SentOneList(r)
      ensures result.Success? ==> runs[r].sent != [] && runs[r].logged == runs[r].sent
    {
      r := BeginRun(n);
      var ready := Prepare(r);
      if !ready {
        return r, Failure;
      }
      result := SendCurrent(r);
    }
  }
}
