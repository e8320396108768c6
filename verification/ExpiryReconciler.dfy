/**
 * The expiry reconciler: three loops over the panel, among everything else that runs.
 *
 * The books of a run are those of `ReconcileAccounts`.  The hard part is what a mark means:
 * for a user whose lookup succeeded, the mark says that the user is gone from every node
 * that was looked up, for good, unless a sync in flight still held an older list.
 */
module ExpiryReconciler {
  import opened Prelude
  import opened Database
  import opened SyncProtocol
  import opened SyncSafety
  import opened SyncVersions
  import opened Revocation
  import opened AccessLaws
  import opened NodeManager
  import opened ReconcileAccounts
  import opened TraceFacts

  // --------------------------------------------------------------------- the three loops

  method DedupeStrings(values: seq<Id>) returns (result: seq<Id>)
    ensures result == Dedupe(values)
  {
    var seen: set<Id> := {};
    result := [];
    for i := 0 to |values|
      invariant result == Dedupe(values[..i])
      invariant forall x :: x in seen <==> x in result
    {
      assert values[..i + 1][..i] == values[..i];
      if !(values[i] == "" || values[i] in seen) {
        seen := seen + {values[i]};
        result := result + [values[i]];
      }
    }
    assert values[..|values|] == values;
  }

  /** The map `usersToNodes` against the lookups it was filled from. */
  ghost predicate Tabled(lookups: seq<Lookup>, usersToNodes: map<Id, seq<Id>>) {
    forall i :: 0 <= i < |lookups| ==>
      match lookups[i].nodes
      case None => lookups[i].user !in usersToNodes
      case Some(nodes) => lookups[i].user in usersToNodes && usersToNodes[lookups[i].user] == Dedupe(nodes)
  }

  lemma {:induction false} FoundAreRows(rows: seq<Candidate>, now: int)
    ensures forall u :: u in Found(rows, now) <==>
      exists i :: 0 <= i < |rows| && rows[i].id == u && NeedsExpirySync(rows[i].row, now)
  {
    if rows != [] {
      var init := rows[..|rows| - 1];
      FoundAreRows(init, now);
      forall u
        ensures u in Found(rows, now) <==>
          exists i :: 0 <= i < |rows| && rows[i].id == u && NeedsExpirySync(rows[i].row, now)
      {
        if u in Found(init, now) {
          var i :| 0 <= i < |init| && init[i].id == u && NeedsExpirySync(init[i].row, now);
          assert rows[i] == init[i];
        }
        if i :| 0 <= i < |rows| && rows[i].id == u && NeedsExpirySync(rows[i].row, now) {
          if i < |init| { assert init[i] == rows[i]; }
        }
      }
    }
  }

  /** The books after the first loop. */
  datatype Collected = Collected(
    lookups: seq<Lookup>, userIDs: seq<Id>, usersToNodes: map<Id, seq<Id>>, uniqueNodes: set<Id>,
    errors: seq<ReconcileError>)

  ghost predicate CollectedFrom(rows: seq<Candidate>, now: int, c: Collected) {
    && c.userIDs == Found(rows, now) == UsersOf(c.lookups)
    && c.errors == LookupErrors(c.lookups)
    && (forall n :: n in c.uniqueNodes <==> Wanted(c.lookups, n))
    && DistinctUsers(c.lookups)
    && Tabled(c.lookups, c.usersToNodes)
    && (forall u :: u in c.usersToNodes ==> u in c.userIDs)
  }

  lemma CollectedSkip(rows: seq<Candidate>, now: int, i: nat, c: Collected)
    requires i < |rows| && CollectedFrom(rows[..i], now, c) && !NeedsExpirySync(rows[i].row, now)
    ensures CollectedFrom(rows[..i + 1], now, c)
  {
    assert rows[..i + 1][..i] == rows[..i];
  }

  /** One more lookup, into the books as the loop body writes them. */
  function Entered(c: Collected, u: Id, nodes: Option<seq<Id>>): Collected {
    match nodes
    case None =>
      Collected(c.lookups + [Lookup(u, None)], c.userIDs + [u], c.usersToNodes, c.uniqueNodes,
                c.errors + [LookupFailed(u)])
    case Some(list) =>
      Collected(c.lookups + [Lookup(u, nodes)], c.userIDs + [u], c.usersToNodes[u := Dedupe(list)],
                c.uniqueNodes + (set n | n in Dedupe(list)), c.errors)
  }

  lemma NotYetFound(rows: seq<Candidate>, now: int, i: nat)
    requires i < |rows| && forall j :: 0 <= j < i ==> rows[j].id != rows[i].id
    ensures rows[i].id !in Found(rows[..i], now)
  {
    FoundAreRows(rows[..i], now);
  }

  lemma UsersEntered(lookups: seq<Lookup>, l: Lookup)
    requires DistinctUsers(lookups) && l.user !in UsersOf(lookups)
    ensures UsersOf(lookups + [l]) == UsersOf(lookups) + [l.user] && DistinctUsers(lookups + [l])
    ensures LookupErrors(lookups + [l]) ==
            LookupErrors(lookups) + (if l.nodes.None? then [LookupFailed(l.user)] else [])
  {
    assert (lookups + [l])[..|lookups|] == lookups;
    forall j | 0 <= j < |lookups|
      ensures lookups[j].user != l.user
    {
      assert UsersOf(lookups)[j] == lookups[j].user;
    }
  }

  lemma TableEntered(c: Collected, u: Id, nodes: Option<seq<Id>>)
    requires Tabled(c.lookups, c.usersToNodes) && u !in UsersOf(c.lookups) && u !in c.usersToNodes
    ensures Tabled(Entered(c, u, nodes).lookups, Entered(c, u, nodes).usersToNodes)
  {
    forall j | 0 <= j < |c.lookups|
      ensures c.lookups[j].user != u
    {
      assert UsersOf(c.lookups)[j] == c.lookups[j].user;
    }
  }

  lemma NodesEntered(c: Collected, u: Id, nodes: Option<seq<Id>>)
    requires forall n :: n in c.uniqueNodes <==> Wanted(c.lookups, n)
    ensures forall n :: n in Entered(c, u, nodes).uniqueNodes <==> Wanted(Entered(c, u, nodes).lookups, n)
  {
    WantedGrows(c.lookups, Lookup(u, nodes));
    if nodes.Some? {
      DedupeKeepsTheSet(nodes.value);
    }
  }

  lemma CollectedEnter(rows: seq<Candidate>, now: int, i: nat, c: Collected, nodes: Option<seq<Id>>)
    requires i < |rows| && CollectedFrom(rows[..i], now, c) && NeedsExpirySync(rows[i].row, now)
    requires forall j :: 0 <= j < i ==> rows[j].id != rows[i].id
    ensures CollectedFrom(rows[..i + 1], now, Entered(c, rows[i].id, nodes))
  {
    var u := rows[i].id;
    assert rows[..i + 1][..i] == rows[..i];
    NotYetFound(rows, now, i);
    UsersEntered(c.lookups, Lookup(u, nodes));
    TableEntered(c, u, nodes);
    NodesEntered(c, u, nodes);
  }

  lemma WantedGrows(lookups: seq<Lookup>, l: Lookup)
    ensures forall n :: Wanted(lookups + [l], n) <==> Wanted(lookups, n) || Wants(l, n)
  {
    forall n
      ensures Wanted(lookups + [l], n) <==> Wanted(lookups, n) || Wants(l, n)
    {
      if i :| 0 <= i < |lookups| && Wants(lookups[i], n) {
        assert (lookups + [l])[i] == lookups[i];
      }
      if Wants(l, n) {
        assert (lookups + [l])[|lookups|] == l;
      }
      if i :| 0 <= i < |lookups + [l]| && Wants((lookups + [l])[i], n) {
        if i < |lookups| { assert lookups[i] == (lookups + [l])[i]; }
      }
    }
  }

  /** Every call that succeeded is a successful sync since `from`. */
  ghost predicate CallsSynced(origin: World, trace: seq<Action>, from: nat, calls: seq<Call>) {
    forall n :: Call(n, true) in calls ==> SyncedSince(origin, trace, from, n)
  }

  lemma CallsStaySynced(origin: World, t: seq<Action>, t': seq<Action>, from: nat, from': nat, calls: seq<Call>)
    requires CallsSynced(origin, t, from, calls) && t <= t' && from' <= from
    ensures CallsSynced(origin, t', from', calls)
  {
    forall n | Call(n, true) in calls
      ensures SyncedSince(origin, t', from', n)
    {
      SyncedStays(origin, t, t', from, from', n);
    }
  }

  lemma CallSynced(origin: World, t: seq<Action>, t': seq<Action>, from: nat, calls: seq<Call>, call: Call)
    requires CallsSynced(origin, t, from, calls) && t <= t' && from <= |t|
    requires call.ok ==> SyncedSince(origin, t', |t|, call.node)
    ensures CallsSynced(origin, t', from, calls + [call])
  {
    CallsStaySynced(origin, t, t', from, from, calls);
    if call.ok {
      SyncedStays(origin, t', t', |t|, from, call.node);
    }
  }

  function Members(s: seq<Id>): set<Id> {
    set v | v in s
  }

  lemma DueEntered(lookups: seq<Lookup>, i: nat, failed: set<Id>)
    requires i < |lookups|
    ensures MarksDue(lookups[..i + 1], failed) ==
            MarksDue(lookups[..i], failed) + (if MarkDue(lookups[i], failed) then [lookups[i].user] else [])
  {
    assert lookups[..i + 1][..i] == lookups[..i];
  }

  /** Pending before, and only marks may have touched the row: pending after exactly without a stored mark. */
  lemma PendingAfterMarks(db: Db, db': Db, marks: seq<Mark>, u: Id)
    requires Pending(db, u) && RowMarked(db, db', marks, u)
    ensures Pending(db', u) <==> !MarkStored(marks, u)
  {
  }

  lemma {:induction false} NoMarkErrors(marks: seq<Mark>)
    requires MarkErrors(marks) == []
    ensures forall i :: 0 <= i < |marks| ==> marks[i].outcome == Committed
  {
    if marks != [] {
      NoMarkErrors(marks[..|marks| - 1]);
    }
  }

  lemma ErrorFreeStores(rows: seq<Candidate>, now: int, j: Journal, report: Report, u: Id)
    requires Accounts(rows, now, j, report) && report.errors == [] && u in UsersOf(j.lookups)
    ensures MarkStored(j.marks, u)
  {
    FailedNodesCount(j.calls);
    assert FailedNodes(j.calls) == {};
    NoMarkErrors(j.marks);
    MarksDueAre(j.lookups, {});
    var i :| 0 <= i < |j.lookups| && UsersOf(j.lookups)[i] == u;
    assert MarkDue(j.lookups[i], {});
    assert u in UsersMarked(j.marks);
    var k :| 0 <= k < |j.marks| && UsersMarked(j.marks)[k] == u;
    assert j.marks[k].user == u && j.marks[k].outcome != RolledBack;
  }

  lemma OnlyFoundAreMarked(rows: seq<Candidate>, now: int, j: Journal, report: Report, u: Id)
    requires Accounts(rows, now, j, report) && MarkStored(j.marks, u)
    ensures u in UsersOf(j.lookups)
  {
    MarksDueAre(j.lookups, FailedNodes(j.calls));
    var k :| 0 <= k < |j.marks| && j.marks[k].user == u;
    assert UsersMarked(j.marks)[k] == u;
    assert u in MarksDue(j.lookups, FailedNodes(j.calls));
    var i :| 0 <= i < |j.lookups| && j.lookups[i].user == u;
    assert UsersOf(j.lookups)[i] == u;
  }

  /**
   * The code filters twice, by two clocks: a listed user is found exactly if it has expired by the
   * panel's clock too.
   */
  lemma FoundExactly(rows: seq<Candidate>, db: Db, now: int, u: Id)
    requires Listing(rows, db) && Pending(db, u)
    ensures u in Found(rows, now) <==> db.users[u].expiresAt.value <= now
  {
    FoundAreRows(rows, now);
    var i :| 0 <= i < |rows| && rows[i].id == u;
    assert rows[i].row == db.users[u];
    if db.users[u].expiresAt.value <= now {
      assert NeedsExpirySync(rows[i].row, now);
    }
  }

  /** Users are taken up in the order in which they expired. */
  lemma {:induction false} FoundInOrder(rows: seq<Candidate>, db: Db, now: int)
    requires forall i :: 0 <= i < |rows| ==> Pending(db, rows[i].id) && rows[i].row == db.users[rows[i].id]
    requires forall i, j :: 0 <= i < j < |rows| ==> ExpiryOf(db, rows[i].id) <= ExpiryOf(db, rows[j].id)
    ensures forall i, j :: 0 <= i < j < |Found(rows, now)| ==>
      ExpiryOf(db, Found(rows, now)[i]) <= ExpiryOf(db, Found(rows, now)[j])
  {
    if rows != [] {
      var init, last := rows[..|rows| - 1], rows[|rows| - 1];
      FoundInOrder(init, db, now);
      FoundAreRows(init, now);
      forall u | u in Found(init, now)
        ensures ExpiryOf(db, u) <= ExpiryOf(db, last.id)
      {
        var i :| 0 <= i < |init| && init[i].id == u && NeedsExpirySync(init[i].row, now);
        assert rows[i] == init[i];
      }
    }
  }

  lemma TakenUpInOrder(rows: seq<Candidate>, db: Db, now: int, i: nat, j: nat)
    requires Listing(rows, db) && i < j < |Found(rows, now)|
    ensures ExpiryOf(db, Found(rows, now)[i]) <= ExpiryOf(db, Found(rows, now)[j])
  {
    forall k, l | 0 <= k < l < |rows|
      ensures ExpiryOf(db, rows[k].id) <= ExpiryOf(db, rows[l].id)
    {
      assert rows[k].row.expiresAt.value <= rows[l].row.expiresAt.value;
    }
    FoundInOrder(rows, db, now);
  }

  datatype RunResult =
    | AlreadyRunning
    | QueryFailed
    | Ran(rows: seq<Candidate>, now: int, journal: Journal, report: Report)

  /** The loop's test against the lookup itself. */
  lemma DueByTable(l: Lookup, nodeIDs: seq<Id>, failed: set<Id>)
    requires match l.nodes case None => nodeIDs == [] case Some(nodes) => nodeIDs == Dedupe(nodes)
    ensures MarkDue(l, failed) <==> forall j :: 0 <= j < |nodeIDs| ==> nodeIDs[j] !in failed
  {
    if l.nodes.Some? {
      DedupeKeepsTheSet(l.nodes.value);
      if forall j :: 0 <= j < |nodeIDs| ==> nodeIDs[j] !in failed {
        forall n | n in l.nodes.value && n != ""
          ensures n !in failed
        {
          assert n in nodeIDs;
        }
      }
    }
  }

  lemma CallEntered(calls: seq<Call>, call: Call)
    ensures NodesCalled(calls + [call]) == NodesCalled(calls) + [call.node]
    ensures FailedNodes(calls + [call]) == FailedNodes(calls) + (if call.ok then {} else {call.node})
    ensures CallErrors(calls + [call]) == CallErrors(calls) + (if call.ok then [] else [SyncFailed(call.node)])
  {
    assert (calls + [call])[..|calls|] == calls;
  }

  /** The counters and maps of the second loop against the calls made. */
  ghost predicate Booked(calls: seq<Call>, nodeErrors: set<Id>, successes: nat, errors: seq<ReconcileError>) {
    nodeErrors == FailedNodes(calls) && errors == CallErrors(calls) && successes == |calls| - |errors|
  }

  lemma BookedOnward(calls: seq<Call>, nodeErrors: set<Id>, successes: nat, errors: seq<ReconcileError>, call: Call)
    requires Booked(calls, nodeErrors, successes, errors)
    ensures NodesCalled(calls + [call]) == NodesCalled(calls) + [call.node]
    ensures call.ok ==> Booked(calls + [call], nodeErrors, successes + 1, errors)
    ensures !call.ok ==> Booked(calls + [call], nodeErrors + {call.node}, successes, errors + [SyncFailed(call.node)])
  {
    CallEntered(calls, call);
  }

  lemma MarkEntered(marks: seq<Mark>, m: Mark)
    ensures UsersMarked(marks + [m]) == UsersMarked(marks) + [m.user]
    ensures MarkErrors(marks + [m]) == MarkErrors(marks) + (if m.outcome == Committed then [] else [MarkFailed(m.user)])
  {
    assert (marks + [m])[..|marks|] == marks;
  }

  /** What is known of a listed row: its user was pending at some moment up to `now`. */
  predicate PendingRow(row: UserRow, now: int) {
    && row.live && row.enabled && row.expiresAt.Some? && row.expiresAt.value <= now
    && (row.syncedAt.None? || row.syncedAt.value < row.expiresAt.value)
  }

  ghost predicate PendingRows(rows: seq<Candidate>, now: int) {
    forall i :: 0 <= i < |rows| ==> PendingRow(rows[i].row, now)
  }

  /**
   * What one run says of a user pending at its start whose row nothing scheduled writes: it is taken up
   * exactly if expired by the panel's clock, and then left pending exactly if one of its nodes failed or
   * its mark was not stored.
   */
  ghost predicate Settles(db: Db, db': Db, run: RunResult, u: Id)
    requires run.Ran? && Pending(db, u)
  {
    && (u in UsersOf(run.journal.lookups) <==> db.users[u].expiresAt.value <= run.now)
    && (Pending(db', u) <==> !MarkStored(run.journal.marks, u))
    && forall i :: 0 <= i < |run.journal.lookups| && run.journal.lookups[i].user == u ==>
         (Pending(db', u) <==>
          Blocked(run.journal.lookups[i], run.journal.calls) || Mark(u, RolledBack) in run.journal.marks)
  }

  lemma SettlesPending(w: Db, db1: Db, db': Db, run: RunResult, u: Id)
    requires run.Ran? && Pending(w, u) && Accounts(run.rows, run.now, run.journal, run.report)
    requires DistinctUsers(run.journal.lookups) && Listing(run.rows, db1) && SameRow(w, db1, u) && w.now <= db1.now
    requires RowMarked(w, db', run.journal.marks, u)
    ensures Settles(w, db', run, u)
  {
    FoundExactly(run.rows, db1, run.now, u);
    PendingAfterMarks(w, db', run.journal.marks, u);
    forall i | 0 <= i < |run.journal.lookups| && run.journal.lookups[i].user == u
      ensures !MarkStored(run.journal.marks, u) <==>
        Blocked(run.journal.lookups[i], run.journal.calls) || Mark(u, RolledBack) in run.journal.marks
    {
      UnstoredExactly(run.rows, run.now, run.journal, run.report, i);
    }
  }

  lemma ErrorFreeSettles(db: Db, db': Db, run: RunResult, u: Id)
    requires run.Ran? && Pending(db, u) && Accounts(run.rows, run.now, run.journal, run.report)
    requires run.report.errors == [] && Settles(db, db', run, u)
    ensures Pending(db', u) <==> run.now < db.users[u].expiresAt.value
  {
    if u in UsersOf(run.journal.lookups) {
      ErrorFreeStores(run.rows, run.now, run.journal, run.report, u);
    } else if MarkStored(run.journal.marks, u) {
      OnlyFoundAreMarked(run.rows, run.now, run.journal, run.report, u);
    }
  }

  /** The user's expiry came after `from` and by `to`. */
  predicate NewlyDue(db: Db, u: Id, from: int, to: int) {
    u in db.users && db.users[u].expiresAt.Some? && from < db.users[u].expiresAt.value <= to
  }

  /**
   * After an error-free run, a row that is pending once more was skipped by the panel's clock or has
   * just become due.
   */
  lemma PendingOnceMore(db: Db, db1: Db, run: RunResult, u: Id, now: int)
    requires run.Ran? && Accounts(run.rows, run.now, run.journal, run.report) && run.report.errors == []
    requires Pending(db, u) ==> Settles(db, db1, run, u)
    requires RowMarked(db, db1, run.journal.marks, u)
    requires u in db1.users && PendingRow(db1.users[u], now) && db1.now <= now
    ensures NewlyDue(db, u, db.now, now) || (Pending(db, u) && run.now < db.users[u].expiresAt.value)
  {
    if Pending(db, u) {
      ErrorFreeSettles(db, db1, run, u);
    }
  }

  class Reconciler {
    const panel: Panel
    var running: bool

    constructor (panel: Panel)
      ensures this.panel == panel && !running
    {
      this.panel := panel;
      running := false;
    }

    /** First loop: look up the nodes of every user that needs it. */
    method Collect(rows: seq<Candidate>, now: int) returns (c: Collected)
      requires panel.Valid()
      requires forall i, j :: 0 <= i < j < |rows| ==> rows[i].id != rows[j].id
      modifies panel
      ensures panel.Valid() && panel.Grown(old(panel.trace), old(panel.turns))
      ensures CollectedFrom(rows, now, c)
      ensures AllSeenSince(panel.origin, panel.trace, |old(panel.trace)|, c.lookups)
    {
      c := Collected([], [], map[], {}, []);
      for i := 0 to |rows|
        invariant panel.Valid() && panel.Grown(old(panel.trace), old(panel.turns))
        invariant CollectedFrom(rows[..i], now, c)
        invariant AllSeenSince(panel.origin, panel.trace, |old(panel.trace)|, c.lookups)
      {
        if !NeedsExpirySync(rows[i].row, now) {
          CollectedSkip(rows, now, i, c);
          continue;
        }
        ghost var t, f := panel.trace, panel.turns;
        c := LookUpOne(rows, now, i, c, |old(panel.trace)|);
        GrowthThen(panel.plan, old(panel.trace), old(panel.turns), t, f, panel.trace, panel.turns, {}, {}, {});
      }
      assert rows[..|rows|] == rows;
    }

    method LookUpOne(rows: seq<Candidate>, now: int, i: nat, c: Collected, ghost from: nat) returns (d: Collected)
      requires panel.Valid() && from <= |panel.trace|
      requires i < |rows| && CollectedFrom(rows[..i], now, c) && NeedsExpirySync(rows[i].row, now)
      requires forall j :: 0 <= j < i ==> rows[j].id != rows[i].id
      requires AllSeenSince(panel.origin, panel.trace, from, c.lookups)
      modifies panel
      ensures panel.Valid() && panel.Grown(old(panel.trace), old(panel.turns))
      ensures CollectedFrom(rows[..i + 1], now, d)
      ensures AllSeenSince(panel.origin, panel.trace, from, d.lookups)
    {
      ghost var t := panel.trace;
      var found := panel.ActiveNodeIDsForExpiredUser(rows[i].id);
      d := Enter(c, rows[i].id, found);
      CollectedEnter(rows, now, i, c, found);
      SeenWithNew(panel, t, from, c.lookups, Lookup(rows[i].id, found));
    }

    /** The loop body after the lookup. */
    static method Enter(c: Collected, userID: Id, found: Option<seq<Id>>) returns (d: Collected)
      ensures d == Entered(c, userID, found)
    {
      d := c.(lookups := c.lookups + [Lookup(userID, found)], userIDs := c.userIDs + [userID]);
      if found.None? {
        d := d.(errors := c.errors + [LookupFailed(userID)]);
      } else {
        var list := DedupeStrings(found.value);
        d := d.(usersToNodes := c.usersToNodes[userID := list], uniqueNodes := c.uniqueNodes + (set n | n in list));
      }
    }

    /** One SyncNode call. */
    method SyncOne(node: Id) returns (call: Call)
      requires panel.Valid()
      modifies panel
      ensures panel.Valid() && panel.Grown(old(panel.trace), old(panel.turns)) && call.node == node
      ensures call.ok ==> SyncedSince(panel.origin, panel.trace, |old(panel.trace)|, node)
    {
      ghost var t := panel.trace;
      var r, result := panel.SyncNode(node);
      call := Call(node, result.Success?);
      if call.ok {
        CallSyncs(panel, t, r, node);
      }
    }

    /** The same when syncs have been made since the trace was `t`. */
    method SyncNext(node: Id, ghost calls: seq<Call>, ghost t: seq<Action>, ghost from: nat) returns (call: Call)
      requires panel.Valid() && panel.Grown(t, from) && CallsSynced(panel.origin, panel.trace, |t|, calls)
      modifies panel
      ensures panel.Valid() && panel.Grown(t, from) && call.node == node
      ensures CallsSynced(panel.origin, panel.trace, |t|, calls + [call])
    {
      ghost var t1, f1 := panel.trace, panel.turns;
      call := SyncOne(node);
      GrowthThen(panel.plan, t, from, t1, f1, panel.trace, panel.turns, {}, {}, {});
      CallSynced(panel.origin, t1, panel.trace, |t|, calls, call);
    }

    /** Second loop: one sync per distinct node. */
    method SyncAll(nodes: seq<Id>)
      returns (calls: seq<Call>, nodeErrors: set<Id>, successes: nat, errors: seq<ReconcileError>)
      requires panel.Valid()
      modifies panel
      ensures panel.Valid() && panel.Grown(old(panel.trace), old(panel.turns))
      ensures NodesCalled(calls) == nodes && nodeErrors == FailedNodes(calls) && errors == CallErrors(calls)
      ensures successes == |calls| - |errors|
      ensures CallsSynced(panel.origin, panel.trace, |old(panel.trace)|, calls)
    {
      calls, nodeErrors, successes, errors := [], {}, 0, [];
      for i := 0 to |nodes|
        invariant panel.Valid() && panel.Grown(old(panel.trace), old(panel.turns))
        invariant NodesCalled(calls) == nodes[..i] && Booked(calls, nodeErrors, successes, errors)
        invariant CallsSynced(panel.origin, panel.trace, |old(panel.trace)|, calls)
      {
        var call := SyncNext(nodes[i], calls, old(panel.trace), old(panel.turns));
        BookedOnward(calls, nodeErrors, successes, errors, call);
        calls := calls + [call];
        if !call.ok {
          nodeErrors := nodeErrors + {nodes[i]};
          errors := errors + [SyncFailed(nodes[i])];
          continue;
        }
        successes := successes + 1;
      }
    }

    /** MarkExpirySynced for one user: the one change to rows that nothing scheduled writes. */
    method MarkOne(v: Id) returns (m: Mark)
      requires panel.Valid()
      modifies panel
      ensures panel.Valid() && panel.GrownMarking(old(panel.trace), old(panel.turns), {v}) && m.user == v
      ensures RowsMarked(panel.plan, old(panel.turns), panel.turns, old(panel.db), panel.db, [m])
    {
      ghost var t, f := panel.trace, panel.turns;
      var c := panel.YieldAll();
      RowsKept(panel, t, f);
      ghost var t1, f1, db1 := panel.trace, panel.turns, panel.db;
      panel.MarkExpirySynced(v, c.db);
      m := Mark(v, c.db);
      GrowthThen(panel.plan, t, f, t1, f1, panel.trace, panel.turns, {}, {v}, {v});
      MarkChanges(panel.plan, f1, panel.turns, db1, panel.db, m);
      RowsMarkedThen(panel.plan, f, f1, panel.turns, old(panel.db), db1, panel.db, [], [m]);
      assert [] + [m] == [m];
    }

    static lemma MarkChanges(plan: nat -> Turn, from: nat, to: nat, db: Db, db': Db, m: Mark)
      requires db' == if m.outcome == RolledBack then db else Edited(db, Edit.MarkExpirySynced(m.user))
      ensures RowsMarked(plan, from, to, db, db', [m])
    {
      assert [m][0] == m;
    }

    /** The inner loop over a user's nodes. */
    static method AllSynced(nodeIDs: seq<Id>, nodeErrors: set<Id>) returns (all: bool)
      ensures all <==> forall j :: 0 <= j < |nodeIDs| ==> nodeIDs[j] !in nodeErrors
    {
      all := true;
      for k := 0 to |nodeIDs|
        invariant all <==> forall j :: 0 <= j < k ==> nodeIDs[j] !in nodeErrors
      {
        if nodeIDs[k] in nodeErrors {
          all := false;
          break;
        }
      }
    }

    /** The body of the third loop: mark the user unless one of its nodes failed. */
    method MarkIfDue(nodeIDs: seq<Id>, nodeErrors: set<Id>, userID: Id, ghost l: Lookup) returns (m: Option<Mark>)
      requires panel.Valid()
      requires match l.nodes case None => nodeIDs == [] case Some(nodes) => nodeIDs == Dedupe(nodes)
      modifies panel
      ensures panel.Valid() && panel.GrownMarking(old(panel.trace), old(panel.turns), {userID})
      ensures m.Some? <==> MarkDue(l, nodeErrors)
      ensures m.Some? ==> m.value.user == userID
      ensures RowsMarked(panel.plan, old(panel.turns), panel.turns, old(panel.db), panel.db,
                         if m.Some? then [m.value] else [])
    {
      var allSynced := AllSynced(nodeIDs, nodeErrors);
      DueByTable(l, nodeIDs, nodeErrors);
      if !allSynced {
        return None;
      }
      var mark := MarkOne(userID);
      m := Some(mark);
    }

    /** Third loop: mark the users whose lookup failed, found nothing, or whose nodes all synced. */
    method MarkAll(userIDs: seq<Id>, usersToNodes: map<Id, seq<Id>>, nodeErrors: set<Id>, ghost lookups: seq<Lookup>)
      returns (marks: seq<Mark>, usersSynced: nat, errors: seq<ReconcileError>)
      requires panel.Valid()
      requires userIDs == UsersOf(lookups) && Tabled(lookups, usersToNodes)
      modifies panel
      ensures panel.Valid() && panel.GrownMarking(old(panel.trace), old(panel.turns), Members(userIDs))
      ensures UsersMarked(marks) == MarksDue(lookups, nodeErrors)
      ensures errors == MarkErrors(marks) && usersSynced == |marks| - |errors|
      ensures RowsMarked(panel.plan, old(panel.turns), panel.turns, old(panel.db), panel.db, marks)
    {
      marks, usersSynced, errors := [], 0, [];
      for i := 0 to |userIDs|
        invariant panel.Valid() && panel.GrownMarking(old(panel.trace), old(panel.turns), Members(userIDs))
        invariant UsersMarked(marks) == MarksDue(lookups[..i], nodeErrors)
        invariant errors == MarkErrors(marks) && usersSynced == |marks| - |errors|
        invariant RowsMarked(panel.plan, old(panel.turns), panel.turns, old(panel.db), panel.db, marks)
      {
        var userID := userIDs[i];
        var nodeIDs := if userID in usersToNodes then usersToNodes[userID] else [];
        DueEntered(lookups, i, nodeErrors);
        ghost var t, f, db1 := panel.trace, panel.turns, panel.db;
        var m := MarkIfDue(nodeIDs, nodeErrors, userID, lookups[i]);
        GrowthThen(panel.plan, old(panel.trace), old(panel.turns), t, f, panel.trace, panel.turns,
                   Members(userIDs), {userID}, Members(userIDs));
        RowsMarkedThen(panel.plan, old(panel.turns), f, panel.turns, old(panel.db), db1, panel.db,
                       marks, if m.Some? then [m.value] else []);
        if m.None? {
          assert marks + [] == marks;
          continue;
        }
        MarkEntered(marks, m.value);
        marks := marks + [m.value];
        if m.value.outcome != Committed {
          errors := errors + [MarkFailed(userID)];
          continue;
        }
        usersSynced := usersSynced + 1;
      }
      assert lookups[..|userIDs|] == lookups;
    }

    /** The first two loops; the second begins when the trace has length `start`. */
    method CollectAndSync(rows: seq<Candidate>, now: int)
      returns (c: Collected, calls: seq<Call>, nodeErrors: set<Id>, successes: nat, errors: seq<ReconcileError>,
               ghost start: nat)
      requires panel.Valid()
      requires forall i, j :: 0 <= i < j < |rows| ==> rows[i].id != rows[j].id
      modifies panel
      ensures panel.Valid() && panel.Grown(old(panel.trace), old(panel.turns))
      ensures CollectedFrom(rows, now, c)
      ensures AllSeenSince(panel.origin, panel.trace, |old(panel.trace)|, c.lookups)
      ensures Ascending(NodesCalled(calls)) && (forall m :: m in NodesCalled(calls) <==> Wanted(c.lookups, m))
      ensures nodeErrors == FailedNodes(calls) && errors == CallErrors(calls) && successes == |calls| - |errors|
      ensures |old(panel.trace)| <= start <= |panel.trace| && CallsSynced(panel.origin, panel.trace, start, calls)
    {
      ghost var t, f := panel.trace, panel.turns;
      c := Collect(rows, now);
      ghost var t1, f1 := panel.trace, panel.turns;
      var nodes := SortStrings(c.uniqueNodes);
      calls, nodeErrors, successes, errors := SyncAll(nodes);
      GrowthThen(panel.plan, t, f, t1, f1, panel.trace, panel.turns, {}, {}, {});
      AllSeenStay(panel.origin, t1, panel.trace, |t|, |t|, c.lookups);
      start := |t1|;
    }

    /** All three loops over the rows the query returned. */
    method ReconcileRows(rows: seq<Candidate>, now: int)
      returns (journal: Journal, report: Report, ghost start: nat)
      requires panel.Valid()
      requires forall i, j :: 0 <= i < j < |rows| ==> rows[i].id != rows[j].id
      modifies panel
      ensures panel.Valid()
      ensures Accounts(rows, now, journal, report) && DistinctUsers(journal.lookups)
      ensures panel.GrownMarking(old(panel.trace), old(panel.turns), Members(UsersOf(journal.lookups)))
      ensures AllSeenSince(panel.origin, panel.trace, |old(panel.trace)|, journal.lookups)
      ensures |old(panel.trace)| <= start <= |panel.trace|
      ensures CallsSynced(panel.origin, panel.trace, start, journal.calls)
      ensures RowsMarked(panel.plan, old(panel.turns), panel.turns, old(panel.db), panel.db, journal.marks)
    {
      ghost var t, f := panel.trace, panel.turns;
      var c, calls, nodeErrors, successes, callErrors, st := CollectAndSync(rows, now);
      start := st;
      RowsKept(panel, t, f);
      ghost var t1, f1, db1 := panel.trace, panel.turns, panel.db;
      var marks, usersSynced, markErrors := MarkAll(c.userIDs, c.usersToNodes, nodeErrors, c.lookups);
      GrowthThen(panel.plan, t, f, t1, f1, panel.trace, panel.turns, {}, Members(c.userIDs), Members(c.userIDs));
      RowsMarkedThen(panel.plan, f, f1, panel.turns, old(panel.db), db1, panel.db, [], marks);
      assert [] + marks == marks;
      journal := Journal(c.lookups, calls, marks);
      report := Report(|c.userIDs|, |calls|, successes, usersSynced, c.errors + callErrors + markErrors);
      assert |UsersOf(c.lookups)| == |c.lookups|;
      AllSeenStay(panel.origin, t1, panel.trace, |t|, |t|, c.lookups);
      CallsStaySynced(panel.origin, t1, panel.trace, start, start, calls);
    }

    /**
     * A mark on top of a successful lookup that named the node means that the user is gone from its agent
     * for good, if at some moment before the first sync nothing in flight could bring the user back.
     */
    ghost predicate MarksRevoke(start: nat, journal: Journal)
      requires start <= |panel.trace|
      reads panel
    {
      forall k, u, n, time ::
        (&& 0 <= k <= start && Revocable(Play(panel.origin, panel.trace[..k]), panel.trace[k..], u, n, time)
         && Named(journal.lookups, u, n) && u in UsersMarked(journal.marks))
        ==> Clean(panel.Now(), u, n, time)
    }

    lemma MarksDoRevoke(start: nat, rows: seq<Candidate>, now: int, journal: Journal, report: Report)
      requires panel.Valid() && start <= |panel.trace|
      requires Accounts(rows, now, journal, report) && DistinctUsers(journal.lookups)
      requires CallsSynced(panel.origin, panel.trace, start, journal.calls)
      ensures MarksRevoke(start, journal)
    {
      forall k, u, n, time |
        && 0 <= k <= start && Revocable(Play(panel.origin, panel.trace[..k]), panel.trace[k..], u, n, time)
        && Named(journal.lookups, u, n) && u in UsersMarked(journal.marks)
        ensures Clean(panel.Now(), u, n, time)
      {
        MarkedMeansSynced(rows, now, journal, report, u, n);
        SyncedStays(panel.origin, panel.trace, panel.trace, start, k, n);
        SyncedIsClean(panel.origin, panel.trace, k, u, n, time);
      }
    }

    /**
     * At this moment of the trace, every reachable node that was to be sent the user before its expiry is
     * one whose agent has lost the user for good, if nothing in flight before the first sync could undo it.
     */
    ghost predicate CoveredAt(moment: nat, start: nat, u: Id)
      requires moment <= |panel.trace| && start <= |panel.trace|
      reads panel
    {
      forall k, n, time ::
        (&& 0 <= k <= start && Revocable(Play(panel.origin, panel.trace[..k]), panel.trace[k..], u, n, time)
         && WouldServe(Play(panel.origin, panel.trace[..moment]).db, u, n))
        ==> Clean(panel.Now(), u, n, time)
    }

    /** For each marked user whose lookup succeeded there is such a moment since `from`. */
    ghost predicate MarksCover(from: nat, start: nat, journal: Journal)
      requires start <= |panel.trace|
      reads panel
    {
      forall i ::
        (&& 0 <= i < |journal.lookups| && journal.lookups[i].nodes.Some?
         && journal.lookups[i].user in UsersMarked(journal.marks))
        ==> exists moment :: from <= moment <= |panel.trace| && CoveredAt(moment, start, journal.lookups[i].user)
    }

    lemma ServedIsNamed(moment: nat, journal: Journal, i: nat, n: Id)
      requires panel.Valid() && moment <= |panel.trace| && i < |journal.lookups| && journal.lookups[i].nodes.Some?
      requires SawAt(panel.origin, panel.trace, moment, journal.lookups[i])
      requires WouldServe(Play(panel.origin, panel.trace[..moment]).db, journal.lookups[i].user, n)
      ensures Named(journal.lookups, journal.lookups[i].user, n)
    {
      var db := Play(panel.origin, panel.trace[..moment]).db;
      StartIsReachable(panel.origin);
      PlayKeepsReachable(panel.origin, panel.trace[..moment]);
      LookupMissesNone(db, journal.lookups[i].user, n);
      assert n in db.nodes && "" !in db.nodes;
      assert Wants(journal.lookups[i], n);
    }

    lemma MarksDoCover(from: nat, start: nat, journal: Journal)
      requires panel.Valid() && start <= |panel.trace| && MarksRevoke(start, journal)
      requires AllSeenSince(panel.origin, panel.trace, from, journal.lookups)
      ensures MarksCover(from, start, journal)
    {
      forall i | 0 <= i < |journal.lookups| && journal.lookups[i].nodes.Some?
                 && journal.lookups[i].user in UsersMarked(journal.marks)
        ensures exists moment :: from <= moment <= |panel.trace| && CoveredAt(moment, start, journal.lookups[i].user)
      {
        var u := journal.lookups[i].user;
        assert SeenSince(panel.origin, panel.trace, from, journal.lookups[i]);
        var moment :| from <= moment <= |panel.trace|
                      && SawAt(panel.origin, panel.trace, moment, journal.lookups[i]);
        forall k, n, time |
          && 0 <= k <= start && Revocable(Play(panel.origin, panel.trace[..k]), panel.trace[k..], u, n, time)
          && WouldServe(Play(panel.origin, panel.trace[..moment]).db, u, n)
          ensures Clean(panel.Now(), u, n, time)
        {
          ServedIsNamed(moment, journal, i, n);
        }
        assert CoveredAt(moment, start, u);
      }
    }

    /**
     * One reconcile run.  `skew` is how far the panel's clock is ahead of the database's.  The books
     * balance for every pattern of failures.  For all users and nodes, a mark on top of a successful
     * lookup that named the node means the user is gone from that node's agent for good, provided at
     * some moment before the first sync no run in flight could still send an older list, and nothing
     * moved the expiry on since; and the lookup misses no reachable node that was to be sent the user before
     * it expired.  A user pending at the start, whose row nothing scheduled writes, is
     * taken up exactly if it has expired by the panel's clock too, and is then left pending exactly if
     * one of its nodes failed or its mark was not stored.
     */
    method Reconcile(skew: int) returns (run: RunResult, ghost start: nat)
      requires panel.Valid()
      modifies panel
      ensures panel.Valid() && !run.AlreadyRunning? && |old(panel.trace)| <= |panel.trace|
      ensures run.QueryFailed? ==> panel.Grown(old(panel.trace), old(panel.turns))
      ensures run.Ran? ==>
        && Accounts(run.rows, run.now, run.journal, run.report)
        && DistinctUsers(run.journal.lookups)
        && panel.GrownMarking(old(panel.trace), old(panel.turns), Members(UsersOf(run.journal.lookups)))
        && ListedSince(panel.origin, panel.trace, |old(panel.trace)|, run.rows)
        && AllSeenSince(panel.origin, panel.trace, |old(panel.trace)|, run.journal.lookups)
        && |old(panel.trace)| <= start <= |panel.trace|
        && MarksRevoke(start, run.journal) && MarksCover(|old(panel.trace)|, start, run.journal)
      ensures run.Ran? ==>
        && PendingRows(run.rows, panel.db.now)
        && RowsAsIn(panel.plan, old(panel.turns), panel.turns, old(panel.db), run.rows)
        && RowsMarked(panel.plan, old(panel.turns), panel.turns, old(panel.db), panel.db, run.journal.marks)
        && forall u :: LeavesUser(panel.plan, old(panel.turns), panel.turns, u) && Pending(old(panel.db), u) ==>
             Settles(old(panel.db), panel.db, run, u)
    {
      ghost var t, f := panel.trace, panel.turns;
      var pending := panel.UsersPendingExpiryReconcile();
      if pending.None? {
        return QueryFailed, 0;
      }
      RowsKept(panel, t, f);
      ghost var t1, f1, db1 := panel.trace, panel.turns, panel.db;
      var rows, now := pending.value, panel.db.now + skew;
      RowsSeen(panel, t, f, rows);
      var journal, report, st := ReconcileRows(rows, now);
      start := st;
      run := Ran(rows, now, journal, report);
      GrowthThen(panel.plan, t, f, t1, f1, panel.trace, panel.turns,
                 {}, Members(UsersOf(journal.lookups)), Members(UsersOf(journal.lookups)));
      RowsMarkedThen(panel.plan, f, f1, panel.turns, old(panel.db), db1, panel.db, [], journal.marks);
      assert [] + journal.marks == journal.marks;
      ListedStays(panel.origin, t1, panel.trace, |t|, rows);
      AllSeenStay(panel.origin, panel.trace, panel.trace, |t1|, |t|, journal.lookups);
      MarksDoRevoke(start, rows, now, journal, report);
      MarksDoCover(|t|, start, journal);
      PlayLater(panel, t1);
      Conclude(f, f1, panel.turns, old(panel.db), db1, panel.db, run);
    }

    lemma RowsSeen(p: Panel, t: seq<Action>, f: nat, rows: seq<Candidate>)
      requires p.Valid() && p.Grown(t, f) && Listing(rows, p.db)
      ensures RowsAsIn(p.plan, f, p.turns, Play(p.origin, t).db, rows) && PendingRows(rows, p.db.now)
    {
      forall i | 0 <= i < |rows| && LeavesUser(p.plan, f, p.turns, rows[i].id)
        ensures rows[i].id in Play(p.origin, t).db.users && rows[i].row == Play(p.origin, t).db.users[rows[i].id]
      {
        RowKept(p, t, f, rows[i].id);
      }
    }

    lemma PlayLater(p: Panel, t: seq<Action>)
      requires p.Valid() && t <= p.trace
      ensures Play(p.origin, t).db.now <= p.db.now
    {
      assert p.trace == t + p.trace[|t|..];
      PlayConcat(p.origin, t, p.trace[|t|..]);
      PlayGrows(Play(p.origin, t), p.trace[|t|..]);
    }

    lemma Conclude(f: nat, f1: nat, f2: nat, db: Db, db1: Db, db2: Db, run: RunResult)
      requires f <= f1 <= f2 && run.Ran? && Accounts(run.rows, run.now, run.journal, run.report)
      requires DistinctUsers(run.journal.lookups) && Listing(run.rows, db1) && db1.now <= db2.now
      requires RowsMarked(panel.plan, f, f1, db, db1, []) && RowsMarked(panel.plan, f, f2, db, db2, run.journal.marks)
      requires RowsAsIn(panel.plan, f, f1, db, run.rows)
      ensures PendingRows(run.rows, db2.now) && RowsAsIn(panel.plan, f, f2, db, run.rows)
      ensures forall u :: LeavesUser(panel.plan, f, f2, u) && Pending(db, u) ==> Settles(db, db2, run, u)
    {
      forall i | 0 <= i < |run.rows| && LeavesUser(panel.plan, f, f2, run.rows[i].id)
        ensures run.rows[i].id in db.users && run.rows[i].row == db.users[run.rows[i].id]
      {
        assert LeavesUser(panel.plan, f, f1, run.rows[i].id);
      }
      forall u | LeavesUser(panel.plan, f, f2, u) && Pending(db, u)
        ensures Settles(db, db2, run, u)
      {
        assert LeavesUser(panel.plan, f, f1, u);
        assert RowMarked(db, db1, [], u) && RowMarked(db, db2, run.journal.marks, u);
        SettlesPending(db, db1, db2, run, u);
      }
    }

    /** RunOnce: a compare-and-swap on the flag around one run. */
    method RunOnce(skew: int) returns (run: RunResult, ghost start: nat)
      requires panel.Valid()
      modifies this`running, panel
      ensures panel.Valid() && running == old(running)
      ensures |old(panel.trace)| <= |panel.trace| && old(panel.turns) <= panel.turns
      ensures old(running) ==> run.AlreadyRunning? && panel.trace == old(panel.trace) && panel.Now() == old(panel.Now())
      ensures !old(running) ==> !run.AlreadyRunning?
      ensures run.Ran? ==>
        && Accounts(run.rows, run.now, run.journal, run.report)
        && DistinctUsers(run.journal.lookups)
        && panel.GrownMarking(old(panel.trace), old(panel.turns), Members(UsersOf(run.journal.lookups)))
        && ListedSince(panel.origin, panel.trace, |old(panel.trace)|, run.rows)
        && AllSeenSince(panel.origin, panel.trace, |old(panel.trace)|, run.journal.lookups)
        && |old(panel.trace)| <= start <= |panel.trace|
        && MarksRevoke(start, run.journal) && MarksCover(|old(panel.trace)|, start, run.journal)
      ensures run.Ran? ==>
        && PendingRows(run.rows, panel.db.now)
        && RowsAsIn(panel.plan, old(panel.turns), panel.turns, old(panel.db), run.rows)
        && RowsMarked(panel.plan, old(panel.turns), panel.turns, old(panel.db), panel.db, run.journal.marks)
        && forall u :: LeavesUser(panel.plan, old(panel.turns), panel.turns, u) && Pending(old(panel.db), u) ==>
             Settles(old(panel.db), panel.db, run, u)
      ensures run.Ran? && run.report.errors == [] ==>
        forall u :: LeavesUser(panel.plan, old(panel.turns), panel.turns, u) && Pending(old(panel.db), u) ==>
          (Pending(panel.db, u) <==> run.now < old(panel.db).users[u].expiresAt.value)
    {
      if running {
        return AlreadyRunning, 0;
      }
      running := true;
      ghost var st: nat;
      run, st := Reconcile(skew);
      start := st;
      running := false;
      if run.Ran? && run.report.errors == [] {
        forall u | LeavesUser(panel.plan, old(panel.turns), panel.turns, u) && Pending(old(panel.db), u)
          ensures Pending(panel.db, u) <==> run.now < old(panel.db).users[u].expiresAt.value
        {
          ErrorFreeSettles(old(panel.db), panel.db, run, u);
        }
      }
    }

    /**
     * Two iterations of the timer loop, one right after the other.  After an error-free first run the
     * second lists, among users whose rows nothing scheduled writes, only those whose expiry has come
     * since the first began, and those the first skipped because the panel's clock had not reached
     * their expiry.  If there are neither and nothing scheduled writes users at all, it finds none.
     */
    method RunTwice(skew1: int, skew2: int) returns (first: RunResult, second: RunResult)
      requires panel.Valid() && !running
      modifies this`running, panel
      ensures panel.Valid() && !running
      ensures first.Ran? && first.report.errors == [] && second.Ran? ==>
        forall i ::
          0 <= i < |second.rows| && LeavesUser(panel.plan, old(panel.turns), panel.turns, second.rows[i].id) ==>
          var u := second.rows[i].id;
          || NewlyDue(old(panel.db), u, old(panel.db).now, panel.db.now)
          || (Pending(old(panel.db), u) && first.now < old(panel.db).users[u].expiresAt.value)
      ensures (&& first.Ran? && first.report.errors == [] && second.Ran?
               && (forall u :: LeavesUser(panel.plan, old(panel.turns), panel.turns, u))
               && (forall u :: !NewlyDue(old(panel.db), u, old(panel.db).now, panel.db.now))
               && (forall u :: Pending(old(panel.db), u) ==> old(panel.db).users[u].expiresAt.value <= first.now))
        ==> second.rows == [] && second.report.usersFound == 0
    {
      ghost var start: nat;
      first, start := RunOnce(skew1);
      ghost var f1, db1 := panel.turns, panel.db;
      second, start := RunOnce(skew2);
      if first.Ran? && first.report.errors == [] && second.Ran? {
        SecondLists(old(panel.turns), f1, panel.turns, old(panel.db), db1, panel.db, first, second);
      }
    }

    lemma SecondLists(f: nat, f1: nat, f2: nat, db: Db, db1: Db, db2: Db, first: RunResult, second: RunResult)
      requires f <= f1 <= f2 && first.Ran? && second.Ran? && first.report.errors == []
      requires Accounts(first.rows, first.now, first.journal, first.report)
      requires Accounts(second.rows, second.now, second.journal, second.report)
      requires RowsMarked(panel.plan, f, f1, db, db1, first.journal.marks)
      requires RowsMarked(panel.plan, f1, f2, db1, db2, second.journal.marks)
      requires forall u :: LeavesUser(panel.plan, f, f1, u) && Pending(db, u) ==> Settles(db, db1, first, u)
      requires RowsAsIn(panel.plan, f1, f2, db1, second.rows) && PendingRows(second.rows, db2.now)
      ensures forall i :: 0 <= i < |second.rows| && LeavesUser(panel.plan, f, f2, second.rows[i].id) ==>
        var u := second.rows[i].id;
        NewlyDue(db, u, db.now, db2.now) || (Pending(db, u) && first.now < db.users[u].expiresAt.value)
      ensures second.rows == [] ==> second.report.usersFound == 0
    {
      forall i | 0 <= i < |second.rows| && LeavesUser(panel.plan, f, f2, second.rows[i].id)
        ensures var u := second.rows[i].id;
          NewlyDue(db, u, db.now, db2.now) || (Pending(db, u) && first.now < db.users[u].expiresAt.value)
      {
        var u := second.rows[i].id;
        assert LeavesUser(panel.plan, f, f1, u) && LeavesUser(panel.plan, f1, f2, u);
        assert RowMarked(db1, db2, second.journal.marks, u);
        PendingOnceMore(db, db1, first, u, db2.now);
      }
      assert |UsersOf(second.journal.lookups)| == |second.journal.lookups|;
    }
  }
}
