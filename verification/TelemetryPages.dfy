/**
 * The two session pages: all sessions of all nodes, and the sessions of one user on the nodes it
 * is assigned to.  The second is the first restricted to the user, up to the order of rows with
 * equal keys, exactly if no other node's agent names the user in a session.
 */
module TelemetryPages {
  import opened Prelude
  import Database
  import opened Telemetry
  import opened TelemetryPool
  import opened TelemetrySort

  /** What each node's agent answers. */
  type Answers = Node -> Answer

  type RowsOf = Node -> seq<SessionView>

  /** The rows fetchNodeView keeps for a node. */
  function Sessions(answers: Answers, users: map<string, User>, index: FallbackIndex, strict: bool): RowsOf {
    (node: Node) => FetchNodeView(node, answers(node), users, index, strict).sessions
  }

  /** The rows of a page, node by node. */
  function PageRows(nodes: seq<Node>, rows: RowsOf): seq<SessionView> {
    if nodes == [] then [] else PageRows(nodes[..|nodes| - 1], rows) + rows(nodes[|nodes| - 1])
  }

  // -------------------------------------------------------------------- from the pool

  /** The loop that appends the sessions of the node views. */
  method AppendRows(views: seq<NodeView>) returns (rows: seq<SessionView>)
    ensures rows == Appended(views)
  {
    rows := [];
    for i := 0 to |views|
      invariant rows == Appended(views[..i])
    {
      assert views[..i + 1][..i] == views[..i];
      rows := rows + views[i].sessions;
    }
    assert views[..|views|] == views;
  }

  function Appended(views: seq<NodeView>): seq<SessionView> {
    if views == [] then [] else Appended(views[..|views| - 1]) + views[|views| - 1].sessions
  }

  lemma {:induction false} AppendedArePageRows(nodes: seq<Node>, rows: RowsOf, views: seq<NodeView>)
    requires |nodes| == |views| && forall i :: 0 <= i < |nodes| ==> views[i].sessions == rows(nodes[i])
    ensures Appended(views) == PageRows(nodes, rows)
  {
    if nodes != [] {
      AppendedArePageRows(nodes[..|nodes| - 1], rows, views[..|nodes| - 1]);
    }
  }

  /** The views in the slots of a pool. */
  function InSlots(results: seq<Option<NodeView>>): seq<NodeView>
    requires forall i :: 0 <= i < |results| ==> results[i].Some?
  {
    seq(|results|, i requires 0 <= i < |results| => results[i].value)
  }

  /** Whatever the schedule, a pool that was not cancelled yields the rows of its page. */
  lemma PoolYieldsPage(t: Task, answers: Answers, concurrency: int, steps: seq<Step>)
    requires |t.nodes| == |t.answers| && forall i :: 0 <= i < |t.nodes| ==> t.answers[i] == answers(t.nodes[i])
    requires Run(t, Start(t, concurrency), steps).returned && Cancel !in steps
    ensures var results := Run(t, Start(t, concurrency), steps).results;
      && (forall i :: 0 <= i < |results| ==> results[i].Some?)
      && Appended(InSlots(results)) == PageRows(t.nodes, Sessions(answers, t.users, t.index, t.strict))
  {
    EverySlotOnce(t, concurrency, steps);
    var results, rows := Run(t, Start(t, concurrency), steps).results, Sessions(answers, t.users, t.index, t.strict);
    forall i | 0 <= i < |t.nodes|
      ensures results[i].value.sessions == rows(t.nodes[i])
    {
      assert results[i] == Some(View(t, i, t.answers[i]));
    }
    AppendedArePageRows(t.nodes, rows, InSlots(results));
  }

  // ------------------------------------------------------- nodes the user is not assigned to

  predicate Names(sessions: seq<Session>, u: string) {
    exists k :: 0 <= k < |sessions| && sessions[k].userId == u
  }

  /** The node's agent is asked, and reports a session under the user's id. */
  predicate Reports(node: Node, answer: Answer, u: string) {
    SkipReason(node) == "" && answer.Response? && Names(answer.sessions, u)
  }

  ghost predicate NotIndexed(index: FallbackIndex, node: string, u: string) {
    forall name :: u !in Find(index, node, name)
  }

  lemma StrangerRow(node: Node, session: Session, users: map<string, User>, index: FallbackIndex, u: string)
    requires Keyed(users) && u in users && NotIndexed(index, node.id, u)
    ensures var rows := Kept(node, session, users, index, false);
      |rows| == 1 && (rows[0].backendUserId == u <==> session.userId == u)
  {
    assert u !in Find(index, node.id, session.protocolUsername);
  }

  lemma NamesGrows(sessions: seq<Session>, u: string)
    requires sessions != []
    ensures Names(sessions, u) <==> Names(sessions[..|sessions| - 1], u) || sessions[|sessions| - 1].userId == u
  {
    var init := sessions[..|sessions| - 1];
    if k :| 0 <= k < |init| && init[k].userId == u {
      assert sessions[k].userId == u;
    }
    if k :| 0 <= k < |sessions| && sessions[k].userId == u {
      assert k < |init| ==> init[k].userId == u;
    }
  }

  lemma {:induction false} StrangerRows(node: Node, sessions: seq<Session>, users: map<string, User>,
                                        index: FallbackIndex, u: string)
    requires Keyed(users) && u in users && NotIndexed(index, node.id, u)
    ensures OfUser(KeptRows(node, sessions, users, index, false), u) == [] <==> !Names(sessions, u)
  {
    if sessions != [] {
      var init, last := sessions[..|sessions| - 1], sessions[|sessions| - 1];
      StrangerRows(node, init, users, index, u);
      StrangerRow(node, last, users, index, u);
      WhereConcat(KeptRows(node, init, users, index, false), Kept(node, last, users, index, false), BackendIs(u));
      assert Kept(node, last, users, index, false)[..0] == [];
      NamesGrows(sessions, u);
    }
  }

  // ------------------------------------------------------------------- bags of rows

  /** The rows of one user among those of each node. */
  function OnlyUser(rows: RowsOf, u: string): RowsOf {
    (node: Node) => OfUser(rows(node), u)
  }

  function Bag(nodes: seq<Node>, rows: RowsOf): multiset<SessionView> {
    if nodes == [] then multiset{} else Bag(nodes[..|nodes| - 1], rows) + multiset(rows(nodes[|nodes| - 1]))
  }

  lemma {:induction false} BagOfPage(nodes: seq<Node>, rows: RowsOf)
    ensures multiset(PageRows(nodes, rows)) == Bag(nodes, rows)
  {
    if nodes != [] {
      BagOfPage(nodes[..|nodes| - 1], rows);
    }
  }

  lemma {:induction false} UserOfPage(nodes: seq<Node>, rows: RowsOf, u: string)
    ensures OfUser(PageRows(nodes, rows), u) == PageRows(nodes, OnlyUser(rows, u))
  {
    if nodes != [] {
      var init, last := nodes[..|nodes| - 1], nodes[|nodes| - 1];
      UserOfPage(init, rows, u);
      WhereConcat(PageRows(init, rows), rows(last), BackendIs(u));
    }
  }

  lemma {:induction false} SamePage(nodes: seq<Node>, a: RowsOf, b: RowsOf)
    requires forall i :: 0 <= i < |nodes| ==> a(nodes[i]) == b(nodes[i])
    ensures PageRows(nodes, a) == PageRows(nodes, b)
  {
    if nodes != [] {
      SamePage(nodes[..|nodes| - 1], a, b);
    }
  }

  lemma {:induction false} BagWithout(nodes: seq<Node>, rows: RowsOf, i: nat)
    requires i < |nodes|
    ensures Bag(nodes, rows) == Bag(nodes[..i] + nodes[i + 1..], rows) + multiset(rows(nodes[i]))
  {
    var last := |nodes| - 1;
    if i == last {
      assert nodes[..i] + nodes[i + 1..] == nodes[..last];
    } else {
      BagWithout(nodes[..last], rows, i);
      var less := nodes[..i] + nodes[i + 1..];
      assert less[..|less| - 1] == nodes[..last][..i] + nodes[..last][i + 1..];
    }
  }

  ghost predicate Distinct(nodes: seq<Node>) {
    forall i, j :: 0 <= i < j < |nodes| ==> nodes[i] != nodes[j]
  }

  /** The nodes of a list that are, or are not, among the targets. */
  function Rest(nodes: seq<Node>, targets: seq<Node>): seq<Node> {
    if nodes == [] then []
    else
      var init, last := Rest(nodes[..|nodes| - 1], targets), nodes[|nodes| - 1];
      if last in targets then init else init + [last]
  }

  lemma {:induction false} RestIsUntargeted(nodes: seq<Node>, targets: seq<Node>)
    ensures forall n :: n in Rest(nodes, targets) <==> n in nodes && n !in targets
  {
    if nodes != [] {
      RestIsUntargeted(nodes[..|nodes| - 1], targets);
      assert nodes == nodes[..|nodes| - 1] + [nodes[|nodes| - 1]];
    }
  }

  lemma BagOfLast(init: seq<Node>, last: Node, rows: RowsOf)
    ensures Bag(init + [last], rows) == Bag(init, rows) + multiset(rows(last))
  {
    assert (init + [last])[..|init|] == init;
  }

  lemma RestOfLast(init: seq<Node>, last: Node, targets: seq<Node>)
    ensures Rest(init + [last], targets) == Rest(init, targets) + if last in targets then [] else [last]
  {
    assert (init + [last])[..|init|] == init;
  }

  ghost predicate Within(targets: seq<Node>, nodes: seq<Node>) {
    Distinct(nodes) && Distinct(targets) && forall t :: t in targets ==> t in nodes
  }

  lemma WithinNone(targets: seq<Node>)
    requires Within(targets, [])
    ensures targets == []
  {
    HeadIsMember(targets);
  }

  lemma HeadIsMember(nodes: seq<Node>)
    ensures nodes == [] || nodes[0] in nodes
  {
  }

  lemma WithinInit(init: seq<Node>, last: Node, targets: seq<Node>)
    requires Within(targets, init + [last]) && last !in targets
    ensures Within(targets, init)
  {
    assert forall i :: 0 <= i < |init| ==> (init + [last])[i] == init[i];
  }

  lemma BagWithTarget(init: seq<Node>, last: Node, targets: seq<Node>, rows: RowsOf, i: nat)
    requires i < |targets| && targets[i] == last
    requires var fewer := targets[..i] + targets[i + 1..];
      Bag(init, rows) == Bag(fewer, rows) + Bag(Rest(init, targets), rows)
    ensures Bag(init + [last], rows) == Bag(targets, rows) + Bag(Rest(init + [last], targets), rows)
  {
    BagOfLast(init, last, rows);
    RestOfLast(init, last, targets);
    BagWithout(targets, rows, i);
  }

  lemma BagWithOther(init: seq<Node>, last: Node, targets: seq<Node>, rows: RowsOf)
    requires last !in targets && Bag(init, rows) == Bag(targets, rows) + Bag(Rest(init, targets), rows)
    ensures Bag(init + [last], rows) == Bag(targets, rows) + Bag(Rest(init + [last], targets), rows)
  {
    BagOfLast(init, last, rows);
    RestOfLast(init, last, targets);
    BagOfLast(Rest(init, targets), last, rows);
  }

  lemma {:induction false} BagSplits(nodes: seq<Node>, targets: seq<Node>, rows: RowsOf)
    requires Within(targets, nodes)
    ensures Bag(nodes, rows) == Bag(targets, rows) + Bag(Rest(nodes, targets), rows)
    decreases |nodes|
  {
    if nodes == [] {
      WithinNone(targets);
    } else {
      var init, last := nodes[..|nodes| - 1], nodes[|nodes| - 1];
      assert nodes == init + [last];
      if last in targets {
        var i :| 0 <= i < |targets| && targets[i] == last;
        FewerTargets(init, last, targets, i);
        BagSplits(init, targets[..i] + targets[i + 1..], rows);
        BagWithTarget(init, last, targets, rows, i);
      } else {
        WithinInit(init, last, targets);
        BagSplits(init, targets, rows);
        BagWithOther(init, last, targets, rows);
      }
    }
  }

  lemma FewerTargets(init: seq<Node>, last: Node, targets: seq<Node>, i: nat)
    requires Within(targets, init + [last]) && i < |targets| && targets[i] == last
    ensures var fewer := targets[..i] + targets[i + 1..];
      Within(fewer, init) && Rest(init, fewer) == Rest(init, targets)
  {
    var fewer := targets[..i] + targets[i + 1..];
    LastIsNew(init, last);
    WithoutOne(targets, i);
    forall t | t in fewer
      ensures t in init
    {
      assert t in targets && t != last;
    }
    SameRest(init, targets, fewer, last);
  }

  lemma LastIsNew(init: seq<Node>, last: Node)
    requires Distinct(init + [last])
    ensures Distinct(init) && last !in init
  {
    assert forall k :: 0 <= k < |init| ==> (init + [last])[k] == init[k];
    assert (init + [last])[|init|] == last;
  }

  lemma WithoutOne(targets: seq<Node>, i: nat)
    requires Distinct(targets) && i < |targets|
    ensures var fewer := targets[..i] + targets[i + 1..];
      Distinct(fewer) && forall t :: t in fewer <==> t in targets && t != targets[i]
  {
    var fewer := targets[..i] + targets[i + 1..];
    forall k | 0 <= k < |fewer|
      ensures fewer[k] == targets[if k < i then k else k + 1] && fewer[k] != targets[i]
    {
    }
    forall k | 0 <= k < |targets| && k != i
      ensures targets[k] in fewer
    {
      assert fewer[if k < i then k else k - 1] == targets[k];
    }
  }

  lemma {:induction false} SameRest(nodes: seq<Node>, targets: seq<Node>, fewer: seq<Node>, last: Node)
    requires last !in nodes && forall n :: n != last ==> (n in targets <==> n in fewer)
    ensures Rest(nodes, fewer) == Rest(nodes, targets)
  {
    if nodes != [] {
      assert nodes == nodes[..|nodes| - 1] + [nodes[|nodes| - 1]];
      SameRest(nodes[..|nodes| - 1], targets, fewer, last);
    }
  }

  lemma {:induction false} EmptyBag(nodes: seq<Node>, rows: RowsOf)
    ensures Bag(nodes, rows) == multiset{} <==> forall n :: n in nodes ==> rows(n) == []
  {
    if nodes != [] {
      var init, last := nodes[..|nodes| - 1], nodes[|nodes| - 1];
      EmptyBag(init, rows);
      assert nodes == init + [last];
      assert multiset(rows(last)) == multiset{} <==> rows(last) == [] by {
        if rows(last) != [] { assert rows(last)[0] in multiset(rows(last)); }
      }
    }
  }

  // ------------------------------------------------------------------------ the pages

  /** What both pages are computed from: the nodes, the assignments, the users and the agents' answers. */
  datatype Inputs = Inputs(nodes: seq<Node>, lookups: seq<SessionLookup>, users: map<string, User>, answers: Answers)

  function Ids(nodes: seq<Node>): set<string> {
    set n | n in nodes :: n.id
  }

  ghost predicate IndexOf(index: FallbackIndex, lookups: seq<SessionLookup>, nodes: seq<Node>) {
    forall node, name :: Find(index, node, name) == Scan(OfNodes(lookups, Ids(nodes)), node, name)
  }

  predicate AssignedTo(lookups: seq<SessionLookup>, u: string, node: string) {
    exists i :: 0 <= i < |lookups| && lookups[i].userId == u && lookups[i].nodeId == node
  }

  /** The nodes the user page asks: those of the list that the user is assigned to, each once. */
  ghost predicate TargetsOf(p: Inputs, u: string, targets: seq<Node>) {
    && (forall i, j :: 0 <= i < j < |targets| ==> targets[i].id != targets[j].id)
    && forall n :: n in targets <==> n in p.nodes && AssignedTo(p.lookups, u, n.id)
  }

  ghost predicate Coherent(p: Inputs) {
    Keyed(p.users) && forall i, j :: 0 <= i < j < |p.nodes| ==> p.nodes[i].id != p.nodes[j].id
  }

  /** The global page before its filter, and the user page, sorted. */
  function GlobalRows(p: Inputs, all: FallbackIndex): seq<SessionView> {
    PageRows(p.nodes, Sessions(p.answers, p.users, all, false))
  }

  function UserRows(p: Inputs, u: string, targets: seq<Node>, own: FallbackIndex): seq<SessionView>
    requires u in p.users
  {
    PageRows(targets, Sessions(p.answers, map[u := p.users[u]], own, true))
  }

  lemma UnassignedHasNoLookup(lookups: seq<SessionLookup>, u: string, node: string, name: string)
    requires !AssignedTo(lookups, u, node)
    ensures SessionLookup(u, node, name) !in lookups
  {
    forall i | 0 <= i < |lookups|
      ensures lookups[i] != SessionLookup(u, node, name)
    {
    }
  }

  lemma UnassignedIsNotIndexed(p: Inputs, index: FallbackIndex, u: string, n: Node)
    requires IndexOf(index, p.lookups, p.nodes) && n in p.nodes && !AssignedTo(p.lookups, u, n.id)
    ensures NotIndexed(index, n.id, u)
  {
    forall name
      ensures u !in Find(index, n.id, name)
    {
      assert n.id in Ids(p.nodes);
      ScanOfNodes(p.lookups, Ids(p.nodes), n.id, name);
      ScanIsTheAssignedUsers(p.lookups, n.id, name);
      UnassignedHasNoLookup(p.lookups, u, n.id, name);
    }
  }

  lemma IndexesAgree(p: Inputs, u: string, targets: seq<Node>, all: FallbackIndex, own: FallbackIndex, n: Node)
    requires TargetsOf(p, u, targets) && IndexOf(all, p.lookups, p.nodes) && IndexOf(own, p.lookups, targets)
    requires n in targets
    ensures AgreeAt(all, own, n.id)
  {
    assert n.id in Ids(p.nodes) && n.id in Ids(targets);
    PagesAgree(p.lookups, Ids(targets), Ids(p.nodes), all, own, n.id);
  }

  /** The rows of a node: those kept of its sessions, if it is asked and answers. */
  function RowsAt(node: Node, answer: Answer, users: map<string, User>, index: FallbackIndex,
                  strict: bool): seq<SessionView>
  {
    if SkipReason(node) == "" && answer.Response? then KeptRows(node, answer.sessions, users, index, strict) else []
  }

  lemma SessionsAreRowsAt(answers: Answers, users: map<string, User>, index: FallbackIndex, strict: bool, n: Node)
    ensures Sessions(answers, users, index, strict)(n) == RowsAt(n, answers(n), users, index, strict)
  {
  }

  lemma ScopedAt(n: Node, answer: Answer, users: map<string, User>, u: string, all: FallbackIndex, own: FallbackIndex)
    requires Keyed(users) && u in users && AgreeAt(all, own, n.id)
    ensures RowsAt(n, answer, map[u := users[u]], own, true) == OfUser(RowsAt(n, answer, users, all, false), u)
  {
    if answer.Response? {
      ScopedRows(n, answer.sessions, users, u, all, own);
    }
  }

  lemma StrangersAt(n: Node, answer: Answer, users: map<string, User>, u: string, all: FallbackIndex)
    requires Keyed(users) && u in users && NotIndexed(all, n.id, u)
    ensures OfUser(RowsAt(n, answer, users, all, false), u) == [] <==> !Reports(n, answer, u)
  {
    if answer.Response? {
      StrangerRows(n, answer.sessions, users, all, u);
    }
  }

  lemma OwnIsFiltered(p: Inputs, u: string, all: FallbackIndex, own: FallbackIndex, n: Node)
    requires Keyed(p.users) && u in p.users && AgreeAt(all, own, n.id)
    ensures Sessions(p.answers, map[u := p.users[u]], own, true)(n)
         == OnlyUser(Sessions(p.answers, p.users, all, false), u)(n)
  {
    SessionsAreRowsAt(p.answers, map[u := p.users[u]], own, true, n);
    SessionsAreRowsAt(p.answers, p.users, all, false, n);
    ScopedAt(n, p.answers(n), p.users, u, all, own);
  }

  lemma StrangersRows(p: Inputs, u: string, all: FallbackIndex, n: Node)
    requires Keyed(p.users) && u in p.users && NotIndexed(all, n.id, u)
    ensures OnlyUser(Sessions(p.answers, p.users, all, false), u)(n) == [] <==> !Reports(n, p.answers(n), u)
  {
    SessionsAreRowsAt(p.answers, p.users, all, false, n);
    StrangersAt(n, p.answers(n), p.users, u, all);
  }

  /** No agent of a node the user is not assigned to reports a session under the user's id. */
  ghost predicate NoStrangers(p: Inputs, u: string) {
    forall n :: n in p.nodes && !AssignedTo(p.lookups, u, n.id) ==> !Reports(n, p.answers(n), u)
  }

  lemma DistinctByIds(nodes: seq<Node>)
    requires forall i, j :: 0 <= i < j < |nodes| ==> nodes[i].id != nodes[j].id
    ensures Distinct(nodes)
  {
  }

  lemma UserBags(p: Inputs, u: string, targets: seq<Node>, all: FallbackIndex, own: FallbackIndex)
    requires Coherent(p) && u in p.users && TargetsOf(p, u, targets)
    requires IndexOf(all, p.lookups, p.nodes) && IndexOf(own, p.lookups, targets)
    ensures var mine := OnlyUser(Sessions(p.answers, p.users, all, false), u);
      && multiset(UserRows(p, u, targets, own)) == Bag(targets, mine)
      && multiset(OfUser(GlobalRows(p, all), u)) == Bag(targets, mine) + Bag(Rest(p.nodes, targets), mine)
  {
    var mine := OnlyUser(Sessions(p.answers, p.users, all, false), u);
    forall i | 0 <= i < |targets|
      ensures Sessions(p.answers, map[u := p.users[u]], own, true)(targets[i]) == mine(targets[i])
    {
      assert targets[i] in targets;
      IndexesAgree(p, u, targets, all, own, targets[i]);
      OwnIsFiltered(p, u, all, own, targets[i]);
    }
    SamePage(targets, Sessions(p.answers, map[u := p.users[u]], own, true), mine);
    BagOfPage(targets, mine);
    UserOfPage(p.nodes, Sessions(p.answers, p.users, all, false), u);
    BagOfPage(p.nodes, mine);
    DistinctByIds(p.nodes);
    DistinctByIds(targets);
    BagSplits(p.nodes, targets, mine);
  }

  lemma NoStrangersExactly(p: Inputs, u: string, targets: seq<Node>, all: FallbackIndex)
    requires Coherent(p) && u in p.users && TargetsOf(p, u, targets) && IndexOf(all, p.lookups, p.nodes)
    ensures Bag(Rest(p.nodes, targets), OnlyUser(Sessions(p.answers, p.users, all, false), u)) == multiset{}
       <==> NoStrangers(p, u)
  {
    var mine, rest := OnlyUser(Sessions(p.answers, p.users, all, false), u), Rest(p.nodes, targets);
    EmptyBag(rest, mine);
    RestIsUntargeted(p.nodes, targets);
    forall n | n in p.nodes && !AssignedTo(p.lookups, u, n.id)
      ensures n in rest && (mine(n) == [] <==> !Reports(n, p.answers(n), u))
    {
      UnassignedIsNotIndexed(p, all, u, n);
      StrangersRows(p, u, all, n);
    }
  }

  /**
   * The user page against the global one, over the whole node list.  They hold the same rows of the
   * user if and only if no agent of a node the user is not assigned to names the user.
   */
  lemma UserPageExactly(p: Inputs, u: string, targets: seq<Node>, all: FallbackIndex, own: FallbackIndex)
    requires Coherent(p) && u in p.users && TargetsOf(p, u, targets)
    requires IndexOf(all, p.lookups, p.nodes) && IndexOf(own, p.lookups, targets)
    ensures multiset(UserRows(p, u, targets, own)) == multiset(OfUser(GlobalRows(p, all), u)) <==> NoStrangers(p, u)
  {
    UserBags(p, u, targets, all, own);
    NoStrangersExactly(p, u, targets, all);
  }

  /** What TargetNodes returns for the user's own lookups are the targets of its page. */
  lemma LookedUpAreTargets(p: Inputs, u: string, mine: seq<SessionLookup>, byId: map<string, Node>, targets: seq<Node>)
    requires Coherent(p) && (forall l :: l in mine <==> l in p.lookups && l.userId == u)
    requires (forall n :: n in p.nodes ==> n.id in byId && byId[n.id] == n)
          && (forall id :: id in byId ==> byId[id] in p.nodes && byId[id].id == id)
    requires forall n :: n in targets <==>
      n.id in byId && byId[n.id] == n && exists i :: 0 <= i < |mine| && mine[i].nodeId == n.id
    requires forall i, j :: 0 <= i < j < |targets| ==> FirstAt(mine, targets[i].id) < FirstAt(mine, targets[j].id)
    ensures TargetsOf(p, u, targets)
  {
    forall n | n in p.nodes
      ensures (exists i :: 0 <= i < |mine| && mine[i].nodeId == n.id) <==> AssignedTo(p.lookups, u, n.id)
    {
      if i :| 0 <= i < |mine| && mine[i].nodeId == n.id {
        assert mine[i] in mine;
        var k :| 0 <= k < |p.lookups| && p.lookups[k] == mine[i];
        assert p.lookups[k].userId == u && p.lookups[k].nodeId == n.id;
      }
      if k :| 0 <= k < |p.lookups| && p.lookups[k].userId == u && p.lookups[k].nodeId == n.id {
        assert p.lookups[k] in mine;
        var i :| 0 <= i < |mine| && mine[i] == p.lookups[k];
        assert mine[i].nodeId == n.id;
      }
    }
  }

  // An agent that reports a session of a user who is not assigned to its node.

  const STRANGE_NODE := Node("1", "a", "node", "naive", true, Database.Connected, "x", "s")
  const STRANGE_SESSION := Session("u", "", None, true, None, None, 0, 0)

  function StrangeInputs(): Inputs {
    Inputs([STRANGE_NODE], [], map["u" := User("u", "user", None)], (n: Node) => Response("ok", [], [STRANGE_SESSION]))
  }

  /** So the two pages do differ: this user is seen on the global page and not on its own. */
  lemma StrangerShows()
    ensures var p := StrangeInputs();
      && Coherent(p) && TargetsOf(p, "u", []) && IndexOf(map[], p.lookups, p.nodes) && IndexOf(map[], p.lookups, [])
      && multiset(UserRows(p, "u", [], map[])) != multiset(OfUser(GlobalRows(p, map[]), "u"))
  {
    var p := StrangeInputs();
    assert p.nodes[0] == STRANGE_NODE && [STRANGE_SESSION][0].userId == "u";
    assert SkipReason(STRANGE_NODE) == "" && Reports(STRANGE_NODE, p.answers(STRANGE_NODE), "u");
    UserPageExactly(p, "u", [], map[], map[]);
  }

  // -------------------------------------------------------------- as the pages are shown

  lemma {:induction false} WhereBag(rows: seq<SessionView>, keep: SessionView -> bool, x: SessionView)
    ensures multiset(Where(rows, keep))[x] == if keep(x) then multiset(rows)[x] else 0
  {
    if rows != [] {
      var init, last := rows[..|rows| - 1], rows[|rows| - 1];
      assert rows == init + [last];
      WhereBag(init, keep, x);
    }
  }

  lemma SameBagsFiltered(a: seq<SessionView>, b: seq<SessionView>, keep: SessionView -> bool)
    requires multiset(a) == multiset(b)
    ensures multiset(Where(a, keep)) == multiset(Where(b, keep))
  {
    forall x
      ensures multiset(Where(a, keep))[x] == multiset(Where(b, keep))[x]
    {
      WhereBag(a, keep, x);
      WhereBag(b, keep, x);
    }
  }

  lemma SortKeepsBag(rows: seq<SessionView>)
    ensures multiset(StableSort(rows)) == multiset(rows)
  {
    SortedAndStable(rows);
  }

  /**
   * The pages as shown.  Restricting the sorted global page to the user is sorting the user's rows of
   * it, so the two sorted pages hold the same rows exactly under the same condition; and under it the
   * global page under any query, restricted to the user, is the user page under that query.
   */
  lemma ShownPagesExactly(p: Inputs, u: string, targets: seq<Node>, all: FallbackIndex, own: FallbackIndex,
                          query: Query)
    requires Coherent(p) && u in p.users && TargetsOf(p, u, targets)
    requires IndexOf(all, p.lookups, p.nodes) && IndexOf(own, p.lookups, targets)
    ensures OfUser(StableSort(GlobalRows(p, all)), u) == StableSort(OfUser(GlobalRows(p, all), u))
    ensures multiset(StableSort(UserRows(p, u, targets, own))) == multiset(OfUser(StableSort(GlobalRows(p, all)), u))
       <==> NoStrangers(p, u)
    ensures NoStrangers(p, u) ==>
      multiset(Filtered(StableSort(UserRows(p, u, targets, own)), query))
      == multiset(OfUser(StableSort(Filtered(GlobalRows(p, all), query)), u))
  {
    var mine, global := UserRows(p, u, targets, own), GlobalRows(p, all);
    UserPageExactly(p, u, targets, all, own);
    SortCommutesWithWhere(global, BackendIs(u));
    SortKeepsBag(mine);
    SortKeepsBag(OfUser(global, u));
    if NoStrangers(p, u) {
      SameBagsFiltered(StableSort(mine), OfUser(global, u), Passing(query));
      SortKeepsBag(Filtered(global, query));
      SameBagsFiltered(StableSort(Filtered(global, query)), Filtered(global, query), BackendIs(u));
      FiltersCommute(global, query, u);
    }
  }

  lemma FiltersCommute(rows: seq<SessionView>, query: Query, u: string)
    ensures multiset(OfUser(Filtered(rows, query), u)) == multiset(Filtered(OfUser(rows, u), query))
  {
    var a, b := OfUser(Filtered(rows, query), u), Filtered(OfUser(rows, u), query);
    forall x
      ensures multiset(a)[x] == multiset(b)[x]
    {
      WhereBag(Filtered(rows, query), BackendIs(u), x);
      WhereBag(rows, Passing(query), x);
      WhereBag(OfUser(rows, u), Passing(query), x);
      WhereBag(rows, BackendIs(u), x);
    }
  }
}
