/**
 * What a query selects, in its own words: the search text anywhere in a row whatever the case, the
 * protocol, and the three statuses.
 */
module TelemetryQuery {
  import opened Text
  import opened Telemetry
  import opened TelemetrySort

  predicate Occurs(text: string, search: string, i: int) {
    0 <= i <= |text| - |search| && text[i..i + |search|] == search
  }

  lemma OccursFirst(text: string, search: string)
    ensures Occurs(text, search, 0) <==> search <= text
  {
    if search <= text {
      assert text[0..0 + |search|] == search;
    }
  }

  lemma OccursLater(text: string, search: string, i: int)
    requires text != [] && i > 0
    ensures Occurs(text, search, i) <==> Occurs(text[1..], search, i - 1)
  {
    if i <= |text| - |search| {
      assert text[i..i + |search|] == text[1..][i - 1..i - 1 + |search|];
    }
  }

  lemma {:induction false} ContainsExactly(text: string, search: string)
    ensures Contains(text, search) <==> exists i :: Occurs(text, search, i)
  {
    OccursFirst(text, search);
    if !(search <= text) && text != [] {
      ContainsExactly(text[1..], search);
      if i :| Occurs(text[1..], search, i) {
        OccursLater(text, search, i + 1);
      }
      if i :| Occurs(text, search, i) {
        OccursLater(text, search, i);
      }
    }
  }

  /** The search text stands somewhere in the text, whatever the case of either. */
  ghost predicate Holds(text: string, search: string) {
    exists i :: Occurs(ToLower(text), ToLower(search), i)
  }

  /** Some text of the row holds the search text: a name of the user or node, the address, the protocol username. */
  ghost predicate Mentions(row: SessionView, search: string) {
    || Holds(row.backendUsername, search) || Holds(row.searchBackendDisplay, search)
    || Holds(row.nodeName, search) || Holds(row.clientIp, search) || Holds(row.searchProtocolUsername, search)
  }

  lemma MatchesExactly(row: SessionView, search: string)
    ensures MatchesSearch(row, ToLower(search)) <==> Mentions(row, search)
  {
    ContainsExactly(ToLower(row.backendUsername), ToLower(search));
    ContainsExactly(ToLower(row.searchBackendDisplay), ToLower(search));
    ContainsExactly(ToLower(row.nodeName), ToLower(search));
    ContainsExactly(ToLower(row.clientIp), ToLower(search));
    ContainsExactly(ToLower(row.searchProtocolUsername), ToLower(search));
  }

  /** The value is this word, whatever its case and the spaces around it. */
  predicate Says(value: string, word: string) {
    ToLower(TrimSpace(value)) == word
  }

  lemma BlankIsEmpty(value: string)
    ensures Blank(value) <==> Says(value, "")
  {
    assert |ToLower(TrimSpace(value))| == |TrimSpace(value)|;
  }

  /**
   * Which rows a query selects: the active ones, or the others if it says `recent`, or both if it says
   * `all`; of these the ones of the protocol it names, unless that is blank or `all`; and of these the ones
   * that mention its search text.
   */
  lemma SelectedExactly(rows: seq<SessionView>, query: Query, row: SessionView)
    ensures row in Filtered(rows, query) <==>
      && row in rows
      && (Says(query.status, "all") || (row.active <==> !Says(query.status, "recent")))
      && (Blank(query.protocol) || Says(query.protocol, "all")
          || ToLower(row.nodeProtocol) == ToLower(TrimSpace(query.protocol)))
      && (Blank(query.search) || Mentions(row, TrimSpace(query.search)))
  {
    WhereMembers(rows, Passing(query));
    MatchesExactly(row, TrimSpace(query.search));
    BlankIsEmpty(query.search);
    BlankIsEmpty(query.protocol);
  }

  lemma PlainStatus(word: string)
    requires word != "" && forall i :: 0 <= i < |word| ==> 'a' <= word[i] <= 'z'
    ensures Says(word, word)
  {
  }

  lemma StatusOfRow(row: SessionView, search: string, protocol: string)
    ensures Passes(row, Query(search, protocol, "all")) <==>
      Passes(row, Query(search, protocol, "active")) || Passes(row, Query(search, protocol, "recent"))
    ensures !(Passes(row, Query(search, protocol, "active")) && Passes(row, Query(search, protocol, "recent")))
  {
    PlainStatus("all");
    PlainStatus("active");
    PlainStatus("recent");
  }

  lemma {:induction false} WherePartitions(rows: seq<SessionView>, p: SessionView -> bool, q: SessionView -> bool,
                                           r: SessionView -> bool)
    requires forall row :: (p(row) <==> q(row) || r(row)) && !(q(row) && r(row))
    ensures multiset(Where(rows, p)) == multiset(Where(rows, q)) + multiset(Where(rows, r))
  {
    if rows != [] {
      WherePartitions(rows[..|rows| - 1], p, q, r);
    }
  }

  /** `all` shows each row that `active` or `recent` shows, and no row is shown by both. */
  lemma StatusesPartition(rows: seq<SessionView>, search: string, protocol: string)
    ensures multiset(Filtered(rows, Query(search, protocol, "all"))) ==
            multiset(Filtered(rows, Query(search, protocol, "active")))
            + multiset(Filtered(rows, Query(search, protocol, "recent")))
  {
    var all, active, recent :=
      Query(search, protocol, "all"), Query(search, protocol, "active"), Query(search, protocol, "recent");
    forall row
      ensures (Passing(all)(row) <==> Passing(active)(row) || Passing(recent)(row))
           && !(Passing(active)(row) && Passing(recent)(row))
    {
      StatusOfRow(row, search, protocol);
    }
    WherePartitions(rows, Passing(all), Passing(active), Passing(recent));
  }
}
