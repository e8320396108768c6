/**
 * sortSessions and filterSessions: a four-key order with missing times, a stable sort,
 * and a filter that may run before or after it.
 */
module TelemetrySort {
  import opened Prelude
  import opened Text
  import opened Telemetry

  // ------------------------------------------------------------------------ the order

  function IncludesText(a: string, b: string): string {
    if !Blank(a) then a else if !Blank(b) then b else ""
  }

  function UserText(row: SessionView): string {
    IncludesText(row.backendUsername, row.maskedProtocolUsername)
  }

  /** The comparison given to sort.SliceStable, branch by branch. */
  predicate Before(a: SessionView, b: SessionView) {
    if a.active != b.active then a.active
    else if a.lastSeenAt.None? && b.lastSeenAt.Some? then false
    else if a.lastSeenAt.Some? && b.lastSeenAt.None? then true
    else if a.lastSeenAt.Some? && b.lastSeenAt.Some? && a.lastSeenAt.value != b.lastSeenAt.value then
      a.lastSeenAt.value > b.lastSeenAt.value
    else if a.nodeName != b.nodeName then Less(a.nodeName, b.nodeName)
    else Less(UserText(a), UserText(b))
  }

  /** The comparison sees nothing but these four keys. */
  predicate SameKeys(a: SessionView, b: SessionView) {
    a.active == b.active && a.lastSeenAt == b.lastSeenAt && a.nodeName == b.nodeName && UserText(a) == UserText(b)
  }

  lemma BeforeIrreflexive(a: SessionView)
    ensures !Before(a, a)
  {
    LessIrreflexive(UserText(a));
  }

  lemma BeforeTransitive(a: SessionView, b: SessionView, c: SessionView)
    requires Before(a, b) && Before(b, c)
    ensures Before(a, c)
  {
    if Less(a.nodeName, b.nodeName) && Less(b.nodeName, c.nodeName) {
      LessTransitive(a.nodeName, b.nodeName, c.nodeName);
      LessIrreflexive(a.nodeName);
    }
    if Less(UserText(a), UserText(b)) && Less(UserText(b), UserText(c)) {
      LessTransitive(UserText(a), UserText(b), UserText(c));
    }
  }

  /** Incomparable rows are exactly those with the same keys, so incomparability is an equivalence. */
  lemma BeforeIsWeakOrder(a: SessionView, b: SessionView)
    ensures !Before(a, b) && !Before(b, a) <==> SameKeys(a, b)
  {
    if SameKeys(a, b) {
      LessIrreflexive(UserText(a));
    } else {
      LessConnected(a.nodeName, b.nodeName);
      LessConnected(UserText(a), UserText(b));
    }
  }

  lemma NotBeforeTransitive(a: SessionView, b: SessionView, c: SessionView)
    requires !Before(b, a) && !Before(c, b)
    ensures !Before(c, a)
  {
    if Before(c, a) {
      BeforeIsWeakOrder(a, b);
      if Before(a, b) {
        BeforeTransitive(c, a, b);
      }
    }
  }

  // ---------------------------------------------------------------- sorted and stable

  ghost predicate Sorted(rows: seq<SessionView>) {
    forall i, j :: 0 <= i < j < |rows| ==> !Before(rows[j], rows[i])
  }

  /** The rows with the keys of `key`, in their order. */
  function Group(rows: seq<SessionView>, key: SessionView): seq<SessionView> {
    if rows == [] then []
    else
      var init, last := Group(rows[..|rows| - 1], key), rows[|rows| - 1];
      if SameKeys(last, key) then init + [last] else init
  }

  /** Same rows, and rows with equal keys in the order they had. */
  ghost predicate StableRearrangement(rows: seq<SessionView>, out: seq<SessionView>) {
    multiset(rows) == multiset(out) && forall key :: Group(rows, key) == Group(out, key)
  }

  /** Insert behind every row that is not after `row`. */
  function Insert(rows: seq<SessionView>, row: SessionView): seq<SessionView> {
    if rows == [] || !Before(row, rows[|rows| - 1]) then rows + [row]
    else Insert(rows[..|rows| - 1], row) + [rows[|rows| - 1]]
  }

  function StableSort(rows: seq<SessionView>): seq<SessionView> {
    if rows == [] then [] else Insert(StableSort(rows[..|rows| - 1]), rows[|rows| - 1])
  }

  lemma {:induction false} GroupConcat(a: seq<SessionView>, b: seq<SessionView>, key: SessionView)
    ensures Group(a + b, key) == Group(a, key) + Group(b, key)
  {
    if b == [] {
      assert a + b == a;
    } else {
      GroupConcat(a, b[..|b| - 1], key);
      assert (a + b)[..|a + b| - 1] == a + b[..|b| - 1];
    }
  }

  lemma {:induction false} InsertKeepsOrder(rows: seq<SessionView>, row: SessionView)
    requires Sorted(rows)
    ensures Sorted(Insert(rows, row)) && multiset(Insert(rows, row)) == multiset(rows) + multiset{row}
  {
    if rows == [] || !Before(row, rows[|rows| - 1]) {
      SortedWithLast(rows, row);
    } else {
      var init, last := rows[..|rows| - 1], rows[|rows| - 1];
      InsertKeepsOrder(init, row);
      assert rows == init + [last];
      LastStaysLast(init, last, row, Insert(init, row));
    }
  }

  lemma SortedWithLast(rows: seq<SessionView>, row: SessionView)
    requires Sorted(rows) && (rows == [] || !Before(row, rows[|rows| - 1]))
    ensures Sorted(rows + [row])
  {
    forall i | 0 <= i < |rows|
      ensures !Before(row, rows[i])
    {
      if i < |rows| - 1 {
        NotBeforeTransitive(rows[i], rows[|rows| - 1], row);
      }
    }
  }

  lemma NotBothBefore(a: SessionView, b: SessionView)
    ensures !(Before(a, b) && Before(b, a))
  {
    if Before(a, b) && Before(b, a) {
      BeforeTransitive(a, b, a);
      BeforeIrreflexive(a);
    }
  }

  lemma LastStaysLast(init: seq<SessionView>, last: SessionView, row: SessionView, placed: seq<SessionView>)
    requires Sorted(init + [last]) && Sorted(placed) && Before(row, last)
    requires multiset(placed) == multiset(init) + multiset{row}
    ensures Sorted(placed + [last])
  {
    NotBothBefore(row, last);
    forall i | 0 <= i < |placed|
      ensures !Before(last, placed[i])
    {
      assert placed[i] in multiset(placed);
      if placed[i] != row {
        assert placed[i] in multiset(init);
        var k :| 0 <= k < |init| && init[k] == placed[i];
        assert (init + [last])[k] == placed[i] && (init + [last])[|init|] == last;
      }
    }
  }

  lemma GroupOfOne(row: SessionView, key: SessionView)
    ensures Group([row], key) == if SameKeys(row, key) then [row] else []
  {
    assert [row][..0] == [];
  }

  /** Rows with different keys may change places. */
  lemma GroupSwap(rows: seq<SessionView>, a: SessionView, b: SessionView, key: SessionView)
    requires !SameKeys(a, b)
    ensures Group(rows, key) + Group([a], key) + Group([b], key) == Group(rows, key) + Group([b], key) + Group([a], key)
  {
    GroupOfOne(a, key);
    GroupOfOne(b, key);
    var g := Group(rows, key);
    assert g + [] == g;
  }

  lemma {:induction false} InsertIsStable(rows: seq<SessionView>, row: SessionView, key: SessionView)
    ensures Group(Insert(rows, row), key) == Group(rows + [row], key)
  {
    if rows != [] && Before(row, rows[|rows| - 1]) {
      var init, last := rows[..|rows| - 1], rows[|rows| - 1];
      InsertIsStable(init, row, key);
      BeforeIsWeakOrder(row, last);
      LastPassed(init, last, row, Insert(init, row), key);
      assert rows == init + [last];
    }
  }

  lemma LastPassed(init: seq<SessionView>, last: SessionView, row: SessionView, placed: seq<SessionView>,
                   key: SessionView)
    requires Group(placed, key) == Group(init + [row], key) && !SameKeys(row, last)
    ensures Group(placed + [last], key) == Group(init + [last] + [row], key)
  {
    GroupConcat(placed, [last], key);
    GroupConcat(init, [row], key);
    GroupConcat(init, [last], key);
    GroupConcat(init + [last], [row], key);
    GroupSwap(init, row, last, key);
  }

  lemma {:induction false} SortedAndStable(rows: seq<SessionView>)
    ensures Sorted(StableSort(rows)) && StableRearrangement(rows, StableSort(rows))
  {
    if rows != [] {
      var init, last := rows[..|rows| - 1], rows[|rows| - 1];
      SortedAndStable(init);
      InsertKeepsOrder(StableSort(init), last);
      assert rows == init + [last];
      forall key
        ensures Group(rows, key) == Group(StableSort(rows), key)
      {
        InsertIsStable(StableSort(init), last, key);
        GroupConcat(init, [last], key);
        GroupConcat(StableSort(init), [last], key);
      }
    }
  }

  // ------------------------------------------------------------------------ uniqueness

  lemma {:induction false} GroupMembers(rows: seq<SessionView>, key: SessionView)
    ensures forall x :: x in Group(rows, key) <==> x in rows && SameKeys(x, key)
  {
    if rows != [] {
      GroupMembers(rows[..|rows| - 1], key);
      assert rows == rows[..|rows| - 1] + [rows[|rows| - 1]];
    }
  }

  lemma GroupOfPrefix(rows: seq<SessionView>, key: SessionView)
    requires rows != []
    ensures Group(rows[..|rows| - 1], key) ==
      if SameKeys(rows[|rows| - 1], key) then Group(rows, key)[..|Group(rows, key)| - 1] else Group(rows, key)
  {
  }

  lemma SameGroupsSameMembers(a: seq<SessionView>, b: seq<SessionView>, x: SessionView)
    requires (forall key :: Group(a, key) == Group(b, key)) && x in b
    ensures x in a && x in Group(a, x)
  {
    GroupMembers(b, x);
    GroupMembers(a, x);
    assert Group(a, x) == Group(b, x);
  }

  /** There is only one sorted stable rearrangement, so any stable sort computes this one. */
  lemma {:induction false} StableSortUnique(a: seq<SessionView>, b: seq<SessionView>)
    requires Sorted(a) && Sorted(b) && (forall key :: Group(a, key) == Group(b, key))
    ensures a == b
  {
    if a != [] {
      SameGroupsSameMembers(b, a, a[|a| - 1]);
    }
    if b != [] {
      SameGroupsSameMembers(a, b, b[|b| - 1]);
    }
    if a != [] && b != [] {
      var x, y := a[|a| - 1], b[|b| - 1];
      LastNotBefore(a, y);
      LastNotBefore(b, x);
      BeforeIsWeakOrder(x, y);
      assert Group(a, x) == Group(b, x);
      assert Group(a, x)[|Group(a, x)| - 1] == x;
      assert Group(b, x)[|Group(b, x)| - 1] == y;
      var a0, b0 := a[..|a| - 1], b[..|b| - 1];
      forall key
        ensures Group(a0, key) == Group(b0, key)
      {
        GroupOfPrefix(a, key);
        GroupOfPrefix(b, key);
      }
      assert Sorted(a0) && Sorted(b0);
      StableSortUnique(a0, b0);
    }
  }

  lemma LastNotBefore(rows: seq<SessionView>, x: SessionView)
    requires Sorted(rows) && x in rows
    ensures !Before(rows[|rows| - 1], x)
  {
    BeforeIrreflexive(x);
  }

  /** Active rows come first. */
  lemma ActiveFirst(rows: seq<SessionView>, i: nat, j: nat)
    requires i < j < |StableSort(rows)| && StableSort(rows)[j].active
    ensures StableSort(rows)[i].active
  {
    SortedAndStable(rows);
    assert !Before(StableSort(rows)[j], StableSort(rows)[i]);
  }

  /** The name a page shows for a row: that of the user, or else the masked protocol username. */
  predicate ShowsName(row: SessionView, name: string) {
    || (!Blank(row.backendUsername) && name == row.backendUsername)
    || (Blank(row.backendUsername) && !Blank(row.maskedProtocolUsername) && name == row.maskedProtocolUsername)
    || (Blank(row.backendUsername) && Blank(row.maskedProtocolUsername) && name == "")
  }

  lemma NotLaterThan(a: SessionView, b: SessionView)
    requires !Before(b, a) && a.active == b.active
    ensures b.lastSeenAt.Some? ==> a.lastSeenAt.Some? && a.lastSeenAt.value >= b.lastSeenAt.value
    ensures a.lastSeenAt == b.lastSeenAt ==> !Less(b.nodeName, a.nodeName)
    ensures a.lastSeenAt == b.lastSeenAt && a.nodeName == b.nodeName ==>
      forall x, y :: ShowsName(a, x) && ShowsName(b, y) ==> !Less(y, x)
  {
    LessIrreflexive(a.nodeName);
  }

  /**
   * What a sorted page looks like.  Active rows come first; with equal activity, rows with a time come
   * before rows without one, latest first; with equal times, node names ascend; with equal node names
   * too, the names shown ascend.
   */
  lemma PageOrder(rows: seq<SessionView>, i: nat, j: nat)
    requires i < j < |StableSort(rows)|
    ensures var a, b := StableSort(rows)[i], StableSort(rows)[j];
      && (b.active ==> a.active)
      && (a.active == b.active ==>
            && (b.lastSeenAt.Some? ==> a.lastSeenAt.Some? && a.lastSeenAt.value >= b.lastSeenAt.value)
            && (a.lastSeenAt == b.lastSeenAt ==>
                  && !Less(b.nodeName, a.nodeName)
                  && (a.nodeName == b.nodeName ==>
                        forall x, y :: ShowsName(a, x) && ShowsName(b, y) ==> !Less(y, x))))
  {
    SortedAndStable(rows);
    var a, b := StableSort(rows)[i], StableSort(rows)[j];
    assert !Before(b, a);
    if a.active == b.active {
      NotLaterThan(a, b);
    }
  }

  /** Where an insertion ends up: behind everything it is not before. */
  lemma {:induction false} InsertSplits(rows: seq<SessionView>, row: SessionView, k: nat)
    requires k <= |rows| && (k == 0 || !Before(row, rows[k - 1]))
    requires forall i :: k <= i < |rows| ==> Before(row, rows[i])
    ensures Insert(rows, row) == rows[..k] + [row] + rows[k..]
    decreases |rows|
  {
    if k == |rows| {
      assert rows[..k] == rows;
    } else {
      var init := rows[..|rows| - 1];
      InsertSplits(init, row, k);
      assert init[..k] == rows[..k] && init[k..] + [rows[|rows| - 1]] == rows[k..];
    }
  }

  /** The inner loop: shift the rows that come after `row`, and put it in the gap. */
  method ShiftIn(rows: array<SessionView>, n: nat) returns (k: nat)
    requires n < rows.Length
    modifies rows
    ensures k <= n && rows[k] == old(rows[n])
    ensures forall i :: 0 <= i < k ==> rows[i] == old(rows[i])
    ensures forall i :: k < i <= n ==> rows[i] == old(rows[i - 1])
    ensures forall i :: n < i < rows.Length ==> rows[i] == old(rows[i])
    ensures k == 0 || !Before(old(rows[n]), old(rows[k - 1]))
    ensures forall i :: k <= i < n ==> Before(old(rows[n]), old(rows[i]))
  {
    var row := rows[n];
    k := n;
    while k > 0 && Before(row, rows[k - 1])
      invariant 0 <= k <= n
      invariant forall i :: 0 <= i < k ==> rows[i] == old(rows[i])
      invariant forall i :: k < i <= n ==> rows[i] == old(rows[i - 1])
      invariant forall i :: n < i < rows.Length ==> rows[i] == old(rows[i])
      invariant forall i :: k <= i < n ==> Before(row, old(rows[i]))
    {
      rows[k] := rows[k - 1];
      k := k - 1;
    }
    rows[k] := row;
  }

  method InsertInPlace(rows: array<SessionView>, n: nat)
    requires n < rows.Length
    modifies rows
    ensures rows[..n + 1] == Insert(old(rows[..n]), old(rows[n]))
    ensures rows[n + 1..] == old(rows[n + 1..])
  {
    ghost var was, row := rows[..], rows[n];
    var k := ShiftIn(rows, n);
    InsertSplits(was[..n], row, k);
    Shifted(was, rows[..], n, k);
    assert was[..n] == old(rows[..n]) && rows[..][..n + 1] == rows[..n + 1];
    assert was[n + 1..] == old(rows[n + 1..]) && rows[..][n + 1..] == rows[n + 1..];
  }

  lemma Shifted(was: seq<SessionView>, rows: seq<SessionView>, n: nat, k: nat)
    requires k <= n < |was| == |rows| && rows[k] == was[n]
    requires forall i :: 0 <= i < k || n < i < |was| ==> rows[i] == was[i]
    requires forall i :: k < i <= n ==> rows[i] == was[i - 1]
    ensures rows[..n + 1] == was[..n][..k] + [was[n]] + was[..n][k..]
    ensures rows[n + 1..] == was[n + 1..]
  {
  }

  /** sortSessions, in place. */
  method SortSessions(rows: array<SessionView>)
    modifies rows
    ensures rows[..] == StableSort(old(rows[..]))
  {
    ghost var was := rows[..];
    for n := 0 to rows.Length
      invariant rows[..n] == StableSort(was[..n])
      invariant rows[n..] == was[n..]
    {
      assert rows[n] == rows[n..][0] && rows[n + 1..] == rows[n..][1..];
      InsertInPlace(rows, n);
      assert was[..n + 1][..n] == was[..n];
    }
    assert was[..rows.Length] == was && rows[..rows.Length] == rows[..];
  }

  // ------------------------------------------------------------------------- the filter

  datatype Query = Query(search: string, protocol: string, status: string)

  predicate Contains(text: string, search: string) {
    search <= text || (text != [] && Contains(text[1..], search))
  }

  predicate MatchesSearch(row: SessionView, search: string) {
    || Contains(ToLower(row.backendUsername), search)
    || Contains(ToLower(row.searchBackendDisplay), search)
    || Contains(ToLower(row.nodeName), search)
    || Contains(ToLower(row.clientIp), search)
    || Contains(ToLower(row.searchProtocolUsername), search)
  }

  /** The test of filterSessions on one row. */
  predicate Passes(row: SessionView, query: Query) {
    var search, protocol := ToLower(TrimSpace(query.search)), ToLower(TrimSpace(query.protocol));
    var status := ToLower(TrimSpace(query.status));
    && (protocol == "" || protocol == "all" || ToLower(row.nodeProtocol) == protocol)
    && (if status == "recent" then !row.active else if status == "all" then true else row.active)
    && (search == "" || MatchesSearch(row, search))
  }

  function Passing(query: Query): SessionView -> bool {
    (row: SessionView) => Passes(row, query)
  }

  function Filtered(rows: seq<SessionView>, query: Query): seq<SessionView> {
    Where(rows, Passing(query))
  }

  method FilterSessions(rows: seq<SessionView>, query: Query) returns (filtered: seq<SessionView>)
    ensures filtered == Filtered(rows, query)
  {
    var search, protocol := ToLower(TrimSpace(query.search)), ToLower(TrimSpace(query.protocol));
    var status := ToLower(TrimSpace(query.status));
    if status == "" {
      status := "active";
    }
    filtered := [];
    for i := 0 to |rows|
      invariant filtered == Filtered(rows[..i], query)
    {
      var row := rows[i];
      assert rows[..i + 1][..i] == rows[..i];
      if protocol != "" && protocol != "all" && ToLower(row.nodeProtocol) != protocol {
        continue;
      }
      if status == "recent" {
        if row.active {
          continue;
        }
      } else if status != "all" && !row.active {
        continue;
      }
      if search != "" && !MatchesSearch(row, search) {
        continue;
      }
      filtered := filtered + [row];
    }
    assert rows[..|rows|] == rows;
  }

  lemma {:induction false} WhereMembers(rows: seq<SessionView>, keep: SessionView -> bool)
    ensures forall x :: x in Where(rows, keep) <==> x in rows && keep(x)
  {
    if rows != [] {
      WhereMembers(rows[..|rows| - 1], keep);
      assert rows == rows[..|rows| - 1] + [rows[|rows| - 1]];
    }
  }

  lemma {:induction false} WhereKeepsSorted(rows: seq<SessionView>, keep: SessionView -> bool)
    requires Sorted(rows)
    ensures Sorted(Where(rows, keep))
  {
    if rows != [] {
      var init, last := rows[..|rows| - 1], rows[|rows| - 1];
      WhereKeepsSorted(init, keep);
      WhereMembers(init, keep);
      forall i | 0 <= i < |Where(init, keep)|
        ensures !Before(last, Where(init, keep)[i])
      {
        assert Where(init, keep)[i] in init;
      }
    }
  }

  lemma {:induction false} GroupOfWhere(rows: seq<SessionView>, keep: SessionView -> bool, key: SessionView)
    ensures Group(Where(rows, keep), key) == Where(Group(rows, key), keep)
  {
    if rows != [] {
      var init, last := rows[..|rows| - 1], rows[|rows| - 1];
      GroupOfWhere(init, keep, key);
      assert (Where(init, keep) + [last])[..|Where(init, keep)|] == Where(init, keep);
      assert (Group(init, key) + [last])[..|Group(init, key)|] == Group(init, key);
    }
  }

  lemma SortCommutesWithWhere(rows: seq<SessionView>, keep: SessionView -> bool)
    ensures StableSort(Where(rows, keep)) == Where(StableSort(rows), keep)
  {
    SortedAndStable(rows);
    SortedAndStable(Where(rows, keep));
    WhereKeepsSorted(StableSort(rows), keep);
    var a, b := StableSort(Where(rows, keep)), Where(StableSort(rows), keep);
    forall key
      ensures Group(a, key) == Group(b, key)
    {
      GroupOfWhere(rows, keep, key);
      GroupOfWhere(StableSort(rows), keep, key);
    }
    StableSortUnique(a, b);
  }

  /** Filtering then sorting is sorting then filtering. */
  lemma SortCommutesWithFilter(rows: seq<SessionView>, query: Query)
    ensures StableSort(Filtered(rows, query)) == Filtered(StableSort(rows), query)
  {
    SortCommutesWithWhere(rows, Passing(query));
  }
}
