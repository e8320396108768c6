/**
 * What one reconcile run must have done, given how its lookups, syncs and marks ended.
 */
module ReconcileAccounts {
  import opened Prelude
  import opened Database
  import opened SyncProtocol
  import opened NodeManager

  /** One node lookup for a found user; `None` is a failed query. */
  datatype Lookup = Lookup(user: Id, nodes: Option<seq<Id>>)

  datatype Call = Call(node: Id, ok: bool)

  datatype Mark = Mark(user: Id, outcome: DbOutcome)

  datatype Journal = Journal(lookups: seq<Lookup>, calls: seq<Call>, marks: seq<Mark>)

  datatype ReconcileError = LookupFailed(user: Id) | SyncFailed(node: Id) | MarkFailed(user: Id)

  datatype Report = Report(
    usersFound: nat, nodesAffected: nat, syncSuccessCount: nat, usersSynced: nat, errors: seq<ReconcileError>)

  // ---------------------------------------------------------------- dedupeStrings

  function Dedupe(values: seq<Id>): seq<Id> {
    if values == [] then []
    else
      var init, last := Dedupe(values[..|values| - 1]), values[|values| - 1];
      if last == "" || last in init then init else init + [last]
  }

  lemma {:induction false} DedupeKeepsTheSet(values: seq<Id>)
    ensures forall x :: x in Dedupe(values) <==> x in values && x != ""
    ensures forall i, j :: 0 <= i < j < |Dedupe(values)| ==> Dedupe(values)[i] != Dedupe(values)[j]
  {
    if values != [] {
      DedupeKeepsTheSet(values[..|values| - 1]);
      assert values == values[..|values| - 1] + [values[|values| - 1]];
    }
  }

  /** The query already returns distinct, non-empty ids; on those the function changes nothing. */
  lemma {:induction false} DedupeIsIdentity(values: seq<Id>)
    requires forall i, j :: 0 <= i < j < |values| ==> values[i] != values[j]
    requires "" !in values
    ensures Dedupe(values) == values
  {
    if values != [] {
      var init := values[..|values| - 1];
      DedupeIsIdentity(init);
      assert values[|values| - 1] !in init;
      assert values == init + [values[|values| - 1]];
    }
  }

  // ------------------------------------------------------------- the run's decisions

  function Found(rows: seq<Candidate>, now: int): seq<Id> {
    if rows == [] then []
    else
      var init, last := Found(rows[..|rows| - 1], now), rows[|rows| - 1];
      if NeedsExpirySync(last.row, now) then init + [last.id] else init
  }

  function UsersOf(lookups: seq<Lookup>): seq<Id> {
    seq(|lookups|, i requires 0 <= i < |lookups| => lookups[i].user)
  }

  function NodesCalled(calls: seq<Call>): seq<Id> {
    seq(|calls|, i requires 0 <= i < |calls| => calls[i].node)
  }

  predicate Wants(l: Lookup, n: Id) {
    l.nodes.Some? && n in l.nodes.value && n != ""
  }

  predicate Wanted(lookups: seq<Lookup>, n: Id) {
    exists i :: 0 <= i < |lookups| && Wants(lookups[i], n)
  }

  function FailedNodes(calls: seq<Call>): set<Id> {
    set c | c in calls && !c.ok :: c.node
  }

  /** A mark is due if the lookup failed, found nothing, or all its nodes were synced. */
  predicate MarkDue(l: Lookup, failed: set<Id>) {
    l.nodes.None? || forall n :: n in l.nodes.value && n != "" ==> n !in failed
  }

  function MarksDue(lookups: seq<Lookup>, failed: set<Id>): seq<Id> {
    if lookups == [] then []
    else
      var init, last := MarksDue(lookups[..|lookups| - 1], failed), lookups[|lookups| - 1];
      if MarkDue(last, failed) then init + [last.user] else init
  }

  function UsersMarked(marks: seq<Mark>): seq<Id> {
    seq(|marks|, i requires 0 <= i < |marks| => marks[i].user)
  }

  function LookupErrors(lookups: seq<Lookup>): seq<ReconcileError> {
    if lookups == [] then []
    else
      var init, last := LookupErrors(lookups[..|lookups| - 1]), lookups[|lookups| - 1];
      if last.nodes.None? then init + [LookupFailed(last.user)] else init
  }

  function CallErrors(calls: seq<Call>): seq<ReconcileError> {
    if calls == [] then []
    else
      var init, last := CallErrors(calls[..|calls| - 1]), calls[|calls| - 1];
      if !last.ok then init + [SyncFailed(last.node)] else init
  }

  function MarkErrors(marks: seq<Mark>): seq<ReconcileError> {
    if marks == [] then []
    else
      var init, last := MarkErrors(marks[..|marks| - 1]), marks[|marks| - 1];
      if last.outcome != Committed then init + [MarkFailed(last.user)] else init
  }

  /** The books of one run, for every pattern of lookup, sync and mark failures. */
  ghost predicate Accounts(rows: seq<Candidate>, now: int, j: Journal, report: Report) {
    && UsersOf(j.lookups) == Found(rows, now)
    && Ascending(NodesCalled(j.calls))
    && (forall n :: n in NodesCalled(j.calls) <==> Wanted(j.lookups, n))
    && UsersMarked(j.marks) == MarksDue(j.lookups, FailedNodes(j.calls))
    && report.usersFound == |j.lookups|
    && report.nodesAffected == |j.calls|
    && report.syncSuccessCount == |j.calls| - |CallErrors(j.calls)|
    && report.usersSynced == |j.marks| - |MarkErrors(j.marks)|
    && report.errors == LookupErrors(j.lookups) + CallErrors(j.calls) + MarkErrors(j.marks)
  }

  // ----------------------------------------------------------------- consequences

  lemma {:induction false} FailedNodesCount(calls: seq<Call>)
    requires Ascending(NodesCalled(calls))
    ensures |CallErrors(calls)| == |FailedNodes(calls)|
  {
    if calls != [] {
      var init, last := calls[..|calls| - 1], calls[|calls| - 1];
      assert calls == init + [last];
      assert NodesCalled(init) == NodesCalled(calls)[..|init|];
      FailedNodesCount(init);
      assert last.node !in FailedNodes(init) by {
        if last.node in FailedNodes(init) {
          var c :| c in init && !c.ok && c.node == last.node;
          var i :| 0 <= i < |init| && init[i] == c;
          assert NodesCalled(calls)[i] == NodesCalled(calls)[|init|];
          AscendingHasNoDuplicates(NodesCalled(calls), i, |init|);
        }
      }
      assert FailedNodes(calls) == if last.ok then FailedNodes(init) else FailedNodes(init) + {last.node};
    }
  }

  /** Successes and failed nodes add up to the nodes affected. */
  lemma CallsBalance(rows: seq<Candidate>, now: int, j: Journal, report: Report)
    requires Accounts(rows, now, j, report)
    ensures report.syncSuccessCount + |FailedNodes(j.calls)| == report.nodesAffected
  {
    FailedNodesCount(j.calls);
  }

  lemma {:induction false} DueWithoutFailures(lookups: seq<Lookup>)
    requires LookupErrors(lookups) == []
    ensures |MarksDue(lookups, {})| == |lookups|
    ensures forall l :: l in lookups ==> l.nodes.Some?
  {
    if lookups != [] {
      DueWithoutFailures(lookups[..|lookups| - 1]);
      assert lookups == lookups[..|lookups| - 1] + [lookups[|lookups| - 1]];
    }
  }

  lemma NoErrorMarksEveryone(rows: seq<Candidate>, now: int, j: Journal, report: Report)
    requires Accounts(rows, now, j, report) && report.errors == []
    ensures report.usersSynced == report.usersFound == |Found(rows, now)|
  {
    FailedNodesCount(j.calls);
    DueWithoutFailures(j.lookups);
    assert |UsersMarked(j.marks)| == |j.marks| && |UsersOf(j.lookups)| == |j.lookups|;
    assert FailedNodes(j.calls) == {};
  }

  lemma {:induction false} MarksDueAre(lookups: seq<Lookup>, failed: set<Id>)
    ensures forall u :: u in MarksDue(lookups, failed) <==>
      exists i :: 0 <= i < |lookups| && lookups[i].user == u && MarkDue(lookups[i], failed)
  {
    if lookups != [] {
      var init, last := lookups[..|lookups| - 1], lookups[|lookups| - 1];
      MarksDueAre(init, failed);
      forall u
        ensures u in MarksDue(lookups, failed) <==>
          exists i :: 0 <= i < |lookups| && lookups[i].user == u && MarkDue(lookups[i], failed)
      {
        if u in MarksDue(init, failed) {
          var i :| 0 <= i < |init| && init[i].user == u && MarkDue(init[i], failed);
          assert lookups[i] == init[i];
        }
        if i :| 0 <= i < |lookups| && lookups[i].user == u && MarkDue(lookups[i], failed) {
          if i < |init| {
            assert init[i] == lookups[i];
          }
        }
      }
    }
  }

  /** Who was found but not marked: exactly users with a failed node, when lookups name distinct users. */
  lemma UnmarkedAreBlocked(rows: seq<Candidate>, now: int, j: Journal, report: Report, i: nat)
    requires Accounts(rows, now, j, report) && i < |j.lookups|
    requires forall k, l :: 0 <= k < l < |j.lookups| ==> j.lookups[k].user != j.lookups[l].user
    ensures j.lookups[i].user !in UsersMarked(j.marks) <==>
      exists n :: Wants(j.lookups[i], n) && n in FailedNodes(j.calls)
  {
    MarksDueAre(j.lookups, FailedNodes(j.calls));
    var failed := FailedNodes(j.calls);
    assert j.lookups[i].user in MarksDue(j.lookups, failed) <==> MarkDue(j.lookups[i], failed);
    if !MarkDue(j.lookups[i], FailedNodes(j.calls)) {
      var n :| n in j.lookups[i].nodes.value && n != "" && n in FailedNodes(j.calls);
      assert Wants(j.lookups[i], n);
    }
  }

  // ----------------------------------------------------------------- what a mark means

  ghost predicate DistinctUsers(lookups: seq<Lookup>) {
    forall i, j :: 0 <= i < j < |lookups| ==> lookups[i].user != lookups[j].user
  }

  /** Some lookup of the user succeeded and named the node. */
  predicate Named(lookups: seq<Lookup>, u: Id, n: Id) {
    exists i :: 0 <= i < |lookups| && lookups[i].user == u && Wants(lookups[i], n)
  }

  lemma CallCounts(calls: seq<Call>, k: nat)
    requires k < |calls|
    ensures calls[k].ok || calls[k].node in FailedNodes(calls)
  {
    assert calls[k] in calls;
  }

  lemma MarkedMeansSynced(rows: seq<Candidate>, now: int, j: Journal, report: Report, u: Id, n: Id)
    requires Accounts(rows, now, j, report) && DistinctUsers(j.lookups)
    requires Named(j.lookups, u, n) && u in UsersMarked(j.marks)
    ensures Call(n, true) in j.calls
  {
    var i :| 0 <= i < |j.lookups| && j.lookups[i].user == u && Wants(j.lookups[i], n);
    MarksDueAre(j.lookups, FailedNodes(j.calls));
    assert MarkDue(j.lookups[i], FailedNodes(j.calls));
    assert n in NodesCalled(j.calls);
    var k :| 0 <= k < |j.calls| && NodesCalled(j.calls)[k] == n;
    CallCounts(j.calls, k);
    assert j.calls[k] == Call(n, true);
  }


  /** Some node that the lookup named was called and failed. */
  predicate Blocked(l: Lookup, calls: seq<Call>) {
    l.nodes.Some? && exists n :: n in l.nodes.value && n != "" && n in FailedNodes(calls)
  }

  predicate MarkStored(marks: seq<Mark>, u: Id) {
    exists i :: 0 <= i < |marks| && marks[i].user == u && marks[i].outcome != RolledBack
  }

  lemma {:induction false} MarksDueAreDistinct(lookups: seq<Lookup>, failed: set<Id>)
    requires DistinctUsers(lookups)
    ensures forall i, j :: 0 <= i < j < |MarksDue(lookups, failed)| ==>
      MarksDue(lookups, failed)[i] != MarksDue(lookups, failed)[j]
  {
    if lookups != [] {
      var init, last := lookups[..|lookups| - 1], lookups[|lookups| - 1];
      MarksDueAreDistinct(init, failed);
      MarksDueAre(init, failed);
      assert last.user !in MarksDue(init, failed);
    }
  }

  /** Marks name distinct users, so a mark that was rolled back is the user's only one. */
  lemma MarkedOnce(rows: seq<Candidate>, now: int, j: Journal, report: Report, u: Id)
    requires Accounts(rows, now, j, report) && DistinctUsers(j.lookups)
    ensures MarkStored(j.marks, u) <==> u in UsersMarked(j.marks) && Mark(u, RolledBack) !in j.marks
  {
    MarksDueAreDistinct(j.lookups, FailedNodes(j.calls));
    var users := UsersMarked(j.marks);
    forall i, k | 0 <= i < |j.marks| && 0 <= k < |j.marks| && j.marks[i].user == j.marks[k].user
      ensures i == k
    {
      assert users[i] == users[k];
    }
    if u in users {
      var k :| 0 <= k < |users| && users[k] == u;
      assert j.marks[k].user == u;
      assert j.marks[k].outcome == RolledBack ==> j.marks[k] == Mark(u, RolledBack);
    }
    if i :| 0 <= i < |j.marks| && j.marks[i].user == u && j.marks[i].outcome != RolledBack {
      assert users[i] == u;
    }
  }

  /** A found user has no stored mark exactly if one of its nodes failed or its mark was not stored. */
  lemma UnstoredExactly(rows: seq<Candidate>, now: int, j: Journal, report: Report, i: nat)
    requires Accounts(rows, now, j, report) && DistinctUsers(j.lookups) && i < |j.lookups|
    ensures !MarkStored(j.marks, j.lookups[i].user) <==>
            Blocked(j.lookups[i], j.calls) || Mark(j.lookups[i].user, RolledBack) in j.marks
  {
    MarkedOnce(rows, now, j, report, j.lookups[i].user);
    UnmarkedAreBlocked(rows, now, j, report, i);
    assert Blocked(j.lookups[i], j.calls) <==> exists n :: Wants(j.lookups[i], n) && n in FailedNodes(j.calls) by {
      if n :| Wants(j.lookups[i], n) && n in FailedNodes(j.calls) {
        assert n in j.lookups[i].nodes.value;
      }
      if Blocked(j.lookups[i], j.calls) {
        var n :| n in j.lookups[i].nodes.value && n != "" && n in FailedNodes(j.calls);
        assert Wants(j.lookups[i], n);
      }
    }
  }

  // A run over given lookups in which every sync fails.

  const DUE_ROW := UserRow(true, true, Some(0), None, 0)

  function RowsFor(lookups: seq<Lookup>): seq<Candidate> {
    seq(|lookups|, i requires 0 <= i < |lookups| => Candidate(lookups[i].user, DUE_ROW))
  }

  lemma {:induction false} RowsAreFound(lookups: seq<Lookup>)
    ensures Found(RowsFor(lookups), 0) == UsersOf(lookups)
  {
    if lookups != [] {
      var init := lookups[..|lookups| - 1];
      RowsAreFound(init);
      assert RowsFor(lookups)[..|lookups| - 1] == RowsFor(init);
      assert UsersOf(lookups) == UsersOf(init) + [lookups[|lookups| - 1].user];
    }
  }

  function WantedNodes(lookups: seq<Lookup>): set<Id> {
    set i, n | 0 <= i < |lookups| && lookups[i].nodes.Some? && n in lookups[i].nodes.value && Wants(lookups[i], n) :: n
  }

  lemma {:induction false} InAscendingOrder(s: set<Id>) returns (out: seq<Id>)
    ensures Ascending(out) && forall x :: x in out <==> x in s
    decreases s
  {
    out := [];
    if s != {} {
      var x := LeastExists(s);
      var rest := InAscendingOrder(s - {x});
      out := [x] + rest;
      forall i, j | 0 <= i < j < |out|
        ensures Less(out[i], out[j])
      {
        if i == 0 {
          assert out[j] == rest[j - 1] && rest[j - 1] in rest;
          LessConnected(x, out[j]);
        }
      }
    }
  }

  function Failing(nodes: seq<Id>): seq<Call> {
    seq(|nodes|, i requires 0 <= i < |nodes| => Call(nodes[i], false))
  }

  function Stored(users: seq<Id>): seq<Mark> {
    seq(|users|, i requires 0 <= i < |users| => Mark(users[i], Committed))
  }

  lemma {:induction false} StoredHasNoErrors(users: seq<Id>)
    ensures MarkErrors(Stored(users)) == []
  {
    if users != [] {
      StoredHasNoErrors(users[..|users| - 1]);
      assert Stored(users)[..|users| - 1] == Stored(users[..|users| - 1]);
    }
  }

  lemma AllFailing(lookups: seq<Lookup>) returns (rows: seq<Candidate>, j: Journal, report: Report)
    ensures Accounts(rows, 0, j, report) && j.lookups == lookups
    ensures forall n :: Call(n, true) !in j.calls
  {
    rows := RowsFor(lookups);
    RowsAreFound(lookups);
    var nodes := InAscendingOrder(WantedNodes(lookups));
    var calls := Failing(nodes);
    assert NodesCalled(calls) == nodes;
    forall n
      ensures n in nodes <==> Wanted(lookups, n)
    {
      if i :| 0 <= i < |lookups| && Wants(lookups[i], n) {
        assert n in WantedNodes(lookups);
      }
    }
    var due := MarksDue(lookups, FailedNodes(calls));
    StoredHasNoErrors(due);
    assert UsersMarked(Stored(due)) == due;
    j := Journal(lookups, calls, Stored(due));
    var failed := CallErrors(calls);
    CallErrorsAtMost(calls);
    report := Report(|lookups|, |calls|, |calls| - |failed|, |due|, LookupErrors(lookups) + failed + []);
  }

  lemma {:induction false} CallErrorsAtMost(calls: seq<Call>)
    ensures |CallErrors(calls)| <= |calls|
  {
    if calls != [] {
      CallErrorsAtMost(calls[..|calls| - 1]);
    }
  }

  /** In every run over these lookups in which the user is marked, every one of the nodes has been synced. */
  ghost predicate MarkMeansSynced(lookups: seq<Lookup>, u: Id, nodes: seq<Id>) {
    forall rows, now, j, report ::
      Accounts(rows, now, j, report) && j.lookups == lookups && u in UsersMarked(j.marks) ==>
        forall n :: n in nodes ==> Call(n, true) in j.calls
  }

  /**
   * A mark is meant to say that the nodes the user is on have been synced.  For a user on `nodes` that
   * is so of every run exactly if the user's lookup succeeded or there are no such nodes.
   */
  lemma MarkMeansSyncedExactly(lookups: seq<Lookup>, i: nat, nodes: seq<Id>)
    requires i < |lookups| && DistinctUsers(lookups)
    requires "" !in nodes && (lookups[i].nodes.Some? ==> lookups[i].nodes.value == nodes)
    ensures MarkMeansSynced(lookups, lookups[i].user, nodes) <==> lookups[i].nodes.Some? || nodes == []
  {
    var u := lookups[i].user;
    if lookups[i].nodes.Some? {
      forall rows, now, j, report, n |
        Accounts(rows, now, j, report) && j.lookups == lookups && u in UsersMarked(j.marks) && n in nodes
        ensures Call(n, true) in j.calls
      {
        assert Wants(lookups[i], n);
        assert Named(j.lookups, u, n);
        MarkedMeansSynced(rows, now, j, report, u, n);
      }
    } else if nodes != [] {
      var rows, j, report := AllFailing(lookups);
      MarksDueAre(lookups, FailedNodes(j.calls));
      assert MarkDue(lookups[i], FailedNodes(j.calls));
      assert u in UsersMarked(j.marks) && Call(nodes[0], true) !in j.calls;
    }
  }
}
