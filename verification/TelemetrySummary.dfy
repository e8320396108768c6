/** buildSummary: the counters of a page, and why they add up. */
module TelemetrySummary {
  import opened Prelude
  import opened Text
  import opened Telemetry
  import opened TelemetryPool
  import opened TelemetrySort

  datatype Summary = Summary(activeSessions: nat, uniqueActiveIps: nat, collectorsOk: nat, collectorsIssues: nat)

  function NormalizedWarnings(warnings: seq<string>): seq<string> {
    if warnings == [] then []
    else
      var init, last := NormalizedWarnings(warnings[..|warnings| - 1]), TrimSpace(warnings[|warnings| - 1]);
      if last == "" then init else init + [last]
  }

  function NodeIssueCode(view: NodeView): string {
    if view.skippedReason == "planned" then ""
    else if view.skippedReason == "missing_api_url" || view.skippedReason == "missing_node_id"
            || view.skippedReason == "missing_node_secret" then view.skippedReason
    else if !Blank(view.error) then "collector_unavailable"
    else if NormalizedWarnings(view.warnings) != [] then "collector_warning"
    else if !Blank(view.configurationIssue) then view.configurationIssue
    else
      var status := ToLower(TrimSpace(view.status));
      if status == "partial" then "collector_partial"
      else if status == "unavailable" then "collector_unavailable"
      else if status == "disabled" then "collector_disabled"
      else ""
  }

  predicate HasIssue(view: NodeView) {
    NodeIssueCode(view) != ""
  }

  predicate IsHealthy(view: NodeView) {
    !HasIssue(view) && view.status == "ok"
  }

  predicate IsPlannedSkip(view: NodeView) {
    view.skippedReason == "planned"
  }

  /** The views a pool can hold for a node. */
  ghost predicate Produced(t: Task, i: nat, view: NodeView)
    requires i < |t.nodes| == |t.answers|
  {
    Describes(t, true, i, view)
  }

  lemma PlainWord(s: string)
    requires s != "" && forall i :: 0 <= i < |s| ==> 'a' <= s[i] <= 'z'
    ensures TrimSpace(s) == s && ToLower(s) == s
  {
  }

  function Indicator(b: bool): nat {
    if b then 1 else 0
  }

  predicate KnownStatus(status: string) {
    status == "ok" || status == "partial" || status == "disabled" || status == "unavailable"
  }

  lemma KnownStatusIsPlain(status: string)
    requires KnownStatus(status)
    ensures ToLower(TrimSpace(status)) == status
  {
    PlainWord(status);
  }

  lemma AskedViewsFallInOneClass(view: NodeView)
    requires view.skippedReason == "" && KnownStatus(view.status)
    ensures HasIssue(view) <==> !IsHealthy(view)
  {
    KnownStatusIsPlain(view.status);
  }

  lemma SkippedViewsFallInOneClass(node: Node, view: NodeView)
    requires SkipReason(node) != "" && view.skippedReason == SkipReason(node) && view.status == "disabled"
    ensures !IsHealthy(view) && (HasIssue(view) <==> !IsPlannedSkip(view))
  {
  }

  lemma FetchedStatus(node: Node, answer: Answer, users: map<string, User>, index: FallbackIndex, strict: bool)
    ensures var view := FetchNodeView(node, answer, users, index, strict);
      if SkipReason(node) == "" then view.skippedReason == "" && KnownStatus(view.status)
      else view.skippedReason == SkipReason(node) && view.status == "disabled"
  {
  }

  /** Every view the pool produces is exactly one of healthy, issue or planned skip. */
  lemma ViewsFallInOneClass(t: Task, i: nat, view: NodeView)
    requires i < |t.nodes| == |t.answers| && Produced(t, i, view)
    ensures Indicator(IsHealthy(view)) + Indicator(HasIssue(view)) + Indicator(IsPlannedSkip(view)) == 1
  {
    if view != CanceledView(t.nodes[i]) {
      var answer :| view == View(t, i, answer);
      FetchedStatus(t.nodes[i], answer, t.users, t.index, t.strict);
      if SkipReason(t.nodes[i]) != "" {
        SkippedViewsFallInOneClass(t.nodes[i], view);
        return;
      }
    }
    AskedViewsFallInOneClass(view);
  }

  // -------------------------------------------------------------------- which views are issues

  lemma {:induction false} WarningsExactly(warnings: seq<string>)
    ensures NormalizedWarnings(warnings) != [] <==> exists w :: w in warnings && !Blank(w)
  {
    if warnings != [] {
      var init, last := warnings[..|warnings| - 1], warnings[|warnings| - 1];
      WarningsExactly(init);
      assert warnings == init + [last];
      assert last in warnings;
      if w :| w in init && !Blank(w) {
        assert w in warnings;
      } else {
        assert forall w :: w in warnings && !Blank(w) ==> w == last;
      }
    }
  }

  /** The issue a node has, by how it is set up and what its agent answers. */
  ghost function IssueOf(node: Node, answer: Answer): string {
    if node.setup.Planned? then ""
    else if Blank(node.apiUrl) then "missing_api_url"
    else if Blank(node.nodeId) then "missing_node_id"
    else if Blank(node.secret) then "missing_node_secret"
    else if answer.CallFailed? then "collector_unavailable"
    else if exists w :: w in answer.warnings && !Blank(w) then "collector_warning"
    else StatusIssue(ToLower(TrimSpace(answer.status)))
  }

  /** A status the code does not know counts as unavailable. */
  function StatusIssue(status: string): string {
    if status == "ok" then ""
    else if status == "partial" then "collector_partial"
    else if status == "disabled" then "collector_disabled"
    else "collector_unavailable"
  }

  lemma SkippedIssue(node: Node, answer: Answer, users: map<string, User>, index: FallbackIndex, strict: bool)
    requires SkipReason(node) != ""
    ensures NodeIssueCode(FetchNodeView(node, answer, users, index, strict)) == IssueOf(node, answer)
  {
  }

  lemma IssueOfView(view: NodeView)
    requires view.skippedReason == "" && Blank(view.error) && Blank(view.configurationIssue)
    requires KnownStatus(view.status)
    ensures NodeIssueCode(view) ==
      if exists w :: w in view.warnings && !Blank(w) then "collector_warning" else StatusIssue(view.status)
  {
    WarningsExactly(view.warnings);
    KnownStatusIsPlain(view.status);
  }

  lemma NormalizedIssue(status: string)
    ensures KnownStatus(NormalizedCollectorStatus(status))
    ensures StatusIssue(NormalizedCollectorStatus(status)) == StatusIssue(ToLower(TrimSpace(status)))
  {
  }

  lemma FailedIssue(view: NodeView)
    requires view.skippedReason == "" && view.status == "unavailable" && view.warnings == []
    requires Blank(view.configurationIssue)
    ensures NodeIssueCode(view) == "collector_unavailable"
  {
    KnownStatusIsPlain(view.status);
  }

  lemma AskedIssue(node: Node, answer: Answer, users: map<string, User>, index: FallbackIndex, strict: bool)
    requires SkipReason(node) == ""
    ensures NodeIssueCode(FetchNodeView(node, answer, users, index, strict)) == IssueOf(node, answer)
  {
    if answer.Response? {
      AnsweredIssue(node, answer, FetchNodeView(node, answer, users, index, strict));
    } else {
      FailedIssue(FetchNodeView(node, answer, users, index, strict));
    }
  }

  lemma AnsweredIssue(node: Node, answer: Answer, view: NodeView)
    requires SkipReason(node) == "" && answer.Response? && view.skippedReason == ""
    requires Blank(view.error) && Blank(view.configurationIssue)
    requires view.warnings == answer.warnings && view.status == NormalizedCollectorStatus(answer.status)
    ensures NodeIssueCode(view) == IssueOf(node, answer)
  {
    NormalizedIssue(answer.status);
    IssueOfView(view);
  }

  /** The code shown for a node is its issue, and a node cut off by cancellation counts as unavailable. */
  lemma IssueExactly(node: Node, answer: Answer, users: map<string, User>, index: FallbackIndex, strict: bool)
    ensures NodeIssueCode(FetchNodeView(node, answer, users, index, strict)) == IssueOf(node, answer)
    ensures NodeIssueCode(CanceledView(node)) == "collector_unavailable"
  {
    if SkipReason(node) == "" {
      AskedIssue(node, answer, users, index, strict);
    } else {
      SkippedIssue(node, answer, users, index, strict);
    }
    FailedIssue(CanceledView(node));
  }

  // ------------------------------------------------------------------------ the counters

  function CountActive(rows: seq<SessionView>): nat {
    if rows == [] then 0
    else CountActive(rows[..|rows| - 1]) + Indicator(rows[|rows| - 1].active)
  }

  function ActiveIps(rows: seq<SessionView>): set<string> {
    set i | 0 <= i < |rows| && rows[i].active && rows[i].clientIp != "" :: rows[i].clientIp
  }

  function CountIssues(views: seq<NodeView>): nat {
    if views == [] then 0
    else CountIssues(views[..|views| - 1]) + Indicator(HasIssue(views[|views| - 1]))
  }

  function CountHealthy(views: seq<NodeView>): nat {
    if views == [] then 0
    else CountHealthy(views[..|views| - 1]) + Indicator(IsHealthy(views[|views| - 1]))
  }

  function CountPlanned(views: seq<NodeView>): nat {
    if views == [] then 0
    else CountPlanned(views[..|views| - 1]) + Indicator(IsPlannedSkip(views[|views| - 1]))
  }

  /** The active sessions counted are the rows a page shows when it is asked for nothing in particular. */
  lemma {:induction false} ActiveAreShown(rows: seq<SessionView>)
    ensures CountActive(rows) == |Filtered(rows, Query("", "", ""))|
  {
    if rows != [] {
      ActiveAreShown(rows[..|rows| - 1]);
      assert Passes(rows[|rows| - 1], Query("", "", "")) <==> rows[|rows| - 1].active;
    }
  }

  method BuildSummary(rows: seq<SessionView>, views: seq<NodeView>) returns (s: Summary)
    ensures s == Summary(CountActive(rows), |ActiveIps(rows)|, CountHealthy(views), CountIssues(views))
  {
    var ips: set<string> := {};
    var active := 0;
    for i := 0 to |rows|
      invariant active == CountActive(rows[..i]) && ips == ActiveIps(rows[..i])
    {
      assert rows[..i + 1][..i] == rows[..i];
      if rows[i].active {
        active := active + 1;
        if rows[i].clientIp != "" {
          ips := ips + {rows[i].clientIp};
        }
      }
      ActiveIpsOnward(rows, i);
    }
    assert rows[..|rows|] == rows;
    var ok, issues := 0, 0;
    for i := 0 to |views|
      invariant ok == CountHealthy(views[..i]) && issues == CountIssues(views[..i])
    {
      assert views[..i + 1][..i] == views[..i];
      if HasIssue(views[i]) {
        issues := issues + 1;
        continue;
      }
      if views[i].status == "ok" {
        ok := ok + 1;
      }
    }
    assert views[..|views|] == views;
    s := Summary(active, |ips|, ok, issues);
  }

  lemma ActiveIpsOnward(rows: seq<SessionView>, i: nat)
    requires i < |rows|
    ensures ActiveIps(rows[..i + 1]) ==
      ActiveIps(rows[..i]) + (if rows[i].active && rows[i].clientIp != "" then {rows[i].clientIp} else {})
  {
    var a, b := rows[..i], rows[..i + 1];
    forall ip | ip in ActiveIps(a)
      ensures ip in ActiveIps(b)
    {
      var k :| 0 <= k < |a| && a[k].active && a[k].clientIp != "" && a[k].clientIp == ip;
      assert b[k] == a[k];
    }
    forall ip | ip in ActiveIps(b)
      ensures ip in ActiveIps(a) || (rows[i].active && ip == rows[i].clientIp)
    {
      var k :| 0 <= k < |b| && b[k].active && b[k].clientIp != "" && b[k].clientIp == ip;
      if k < i { assert a[k] == b[k]; }
    }
    if rows[i].active && rows[i].clientIp != "" {
      assert b[i] == rows[i];
    }
  }

  lemma {:induction false} ClassesAddUp(t: Task, views: seq<NodeView>)
    requires |views| <= |t.nodes| == |t.answers|
    requires forall i :: 0 <= i < |views| ==> Produced(t, i, views[i])
    ensures CountHealthy(views) + CountIssues(views) + CountPlanned(views) == |views|
  {
    if views != [] {
      ClassesAddUp(t, views[..|views| - 1]);
      ViewsFallInOneClass(t, |views| - 1, views[|views| - 1]);
    }
  }

  /** The views of a pool that has returned. */
  function Views(results: seq<Option<NodeView>>): seq<NodeView>
    requires forall i :: 0 <= i < |results| ==> results[i].Some?
  {
    seq(|results|, i requires 0 <= i < |results| => results[i].value)
  }

  /**
   * Conservation on every page: whatever the schedule, the cancellation and the agents' replies,
   * healthy collectors, issues and planned skips add up to the nodes asked.
   */
  lemma SummaryConservation(t: Task, concurrency: int, steps: seq<Step>)
    requires |t.nodes| == |t.answers| && Run(t, Start(t, concurrency), steps).returned
    ensures var results := Run(t, Start(t, concurrency), steps).results;
      && (forall i :: 0 <= i < |results| ==> results[i].Some?)
      && CountHealthy(Views(results)) + CountIssues(Views(results)) + CountPlanned(Views(results)) == |t.nodes|
  {
    EverySlotOnce(t, concurrency, steps);
    var p := Run(t, Start(t, concurrency), steps);
    forall i | 0 <= i < |p.results|
      ensures Produced(t, i, Views(p.results)[i])
    {
      assert Describes(t, p.cancelled, i, p.results[i].value);
    }
    ClassesAddUp(t, Views(p.results));
  }
}
