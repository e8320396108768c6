/**
 * Session telemetry: matching the sessions an agent reports to backend users, globally
 * or in the scope of one user.
 */
module Telemetry {
  import opened Prelude
  import opened Text
  import Database

  datatype Node = Node(
    id: string, nodeId: string, name: string, protocol: string, enabled: bool,
    setup: Database.SetupState, apiUrl: string, secret: string)

  datatype User = User(id: string, username: string, displayName: Option<string>)

  datatype SessionLookup = SessionLookup(userId: string, nodeId: string, protocolUsername: string)

  datatype Session = Session(
    userId: string, protocolUsername: string, clientIp: Option<string>, active: bool,
    firstSeenAt: Option<int>, lastSeenAt: Option<int>, uploadBytes: int, downloadBytes: int)

  datatype SessionView = SessionView(
    nodeDbId: string, nodeId: string, nodeName: string, nodeProtocol: string,
    backendUserId: string, backendUsername: string, backendDisplayName: Option<string>, userKnown: bool,
    maskedProtocolUsername: string, clientIp: string, active: bool,
    firstSeenAt: Option<int>, lastSeenAt: Option<int>, uploadBytes: int, downloadBytes: int,
    searchProtocolUsername: string, searchBackendDisplay: string)

  datatype NodeView = NodeView(
    nodeDbId: string, nodeId: string, nodeName: string, nodeProtocol: string, nodeEnabled: bool,
    status: string, warnings: seq<string>, error: string, configurationIssue: string,
    sessions: seq<SessionView>, skippedReason: string)

  /** What `TelemetrySessions` returns: an error, or a decoded and checked response. */
  datatype Answer = CallFailed(error: string) | Response(status: string, warnings: seq<string>, sessions: seq<Session>)

  // -------------------------------------------------------------- the fallback index

  type FallbackIndex = map<string, map<string, seq<string>>>

  function Find(index: FallbackIndex, node: string, name: string): seq<string> {
    if node in index && name in index[node] then index[node][name] else []
  }

  /** The users assigned to a node under a protocol username, in order of first appearance. */
  function Scan(lookups: seq<SessionLookup>, node: string, name: string): seq<string> {
    if lookups == [] then []
    else
      var init, last := Scan(lookups[..|lookups| - 1], node, name), lookups[|lookups| - 1];
      if last.nodeId == node && last.protocolUsername == name && last.userId !in init then init + [last.userId]
      else init
  }

  lemma {:induction false} ScanIsTheAssignedUsers(lookups: seq<SessionLookup>, node: string, name: string)
    ensures forall u :: u in Scan(lookups, node, name) <==> SessionLookup(u, node, name) in lookups
    ensures forall i, j :: 0 <= i < j < |Scan(lookups, node, name)| ==>
      Scan(lookups, node, name)[i] != Scan(lookups, node, name)[j]
  {
    if lookups != [] {
      ScanIsTheAssignedUsers(lookups[..|lookups| - 1], node, name);
      assert lookups == lookups[..|lookups| - 1] + [lookups[|lookups| - 1]];
    }
  }

  method BuildFallbackIndex(lookups: seq<SessionLookup>) returns (index: FallbackIndex)
    ensures forall node, name :: Find(index, node, name) == Scan(lookups, node, name)
  {
    index := map[];
    for i := 0 to |lookups|
      invariant forall node, name :: Find(index, node, name) == Scan(lookups[..i], node, name)
    {
      var item := lookups[i];
      assert lookups[..i + 1][..i] == lookups[..i];
      if item.nodeId !in index {
        index := index[item.nodeId := map[]];
      }
      var existing := Find(index, item.nodeId, item.protocolUsername);
      var known := false;
      for k := 0 to |existing|
        invariant known <==> item.userId in existing[..k]
      {
        if existing[k] == item.userId {
          known := true;
        }
      }
      assert existing[..|existing|] == existing;
      if !known {
        index := index[item.nodeId := index[item.nodeId][item.protocolUsername := existing + [item.userId]]];
      }
    }
    assert lookups[..|lookups|] == lookups;
  }

  /** SessionLookupForNodes: the assignments of some nodes. */
  function OfNodes(lookups: seq<SessionLookup>, nodes: set<string>): seq<SessionLookup> {
    if lookups == [] then []
    else
      var init, last := OfNodes(lookups[..|lookups| - 1], nodes), lookups[|lookups| - 1];
      if last.nodeId in nodes then init + [last] else init
  }

  lemma {:induction false} ScanOfNodes(lookups: seq<SessionLookup>, nodes: set<string>, node: string, name: string)
    requires node in nodes
    ensures Scan(OfNodes(lookups, nodes), node, name) == Scan(lookups, node, name)
  {
    if lookups != [] {
      var init, last := OfNodes(lookups[..|lookups| - 1], nodes), lookups[|lookups| - 1];
      ScanOfNodes(lookups[..|lookups| - 1], nodes, node, name);
      assert (init + [last])[..|init|] == init;
    }
  }

  // -------------------------------------------------------------- resolving sessions

  datatype Resolution = Excluded | Unknown | Matched(user: User)

  function Unresolved(strict: bool): Resolution {
    if strict then Excluded else Unknown
  }

  function ResolveSessionUser(node: Node, session: Session, users: map<string, User>, index: FallbackIndex,
                              strict: bool): Resolution
  {
    if session.userId != "" then
      if session.userId !in users then Unresolved(strict) else Matched(users[session.userId])
    else if node.id !in index || index[node.id] == map[] then Unresolved(strict)
    else
      var userIds := Find(index, node.id, session.protocolUsername);
      if |userIds| != 1 then Unresolved(strict)
      else if userIds[0] !in users then Unresolved(strict)
      else Matched(users[userIds[0]])
  }

  function MaskSecret(secret: string): string {
    if |secret| <= 8 then "********"
    else secret[..4] + seq(|secret| - 8, _ => '*') + secret[|secret| - 4..]
  }

  function BuildSessionView(node: Node, session: Session, user: Option<User>): SessionView {
    var view := SessionView(
      node.id, node.nodeId, node.name, node.protocol, "", "", None, false,
      MaskSecret(session.protocolUsername),
      TrimSpace(if session.clientIp.Some? then session.clientIp.value else ""), session.active,
      session.firstSeenAt, session.lastSeenAt, session.uploadBytes, session.downloadBytes,
      ToLower(TrimSpace(session.protocolUsername)), "");
    match user
    case None => view
    case Some(u) =>
      view.(backendUserId := u.id, backendUsername := u.username, backendDisplayName := u.displayName,
            userKnown := true,
            searchBackendDisplay := if u.displayName.Some? then ToLower(TrimSpace(u.displayName.value)) else "")
  }

  /** The rows fetchNodeView keeps for one session. */
  function Kept(node: Node, session: Session, users: map<string, User>, index: FallbackIndex,
                strict: bool): seq<SessionView>
  {
    match ResolveSessionUser(node, session, users, index, strict)
    case Excluded => []
    case Unknown => [BuildSessionView(node, session, None)]
    case Matched(u) => [BuildSessionView(node, session, Some(u))]
  }

  function KeptRows(node: Node, sessions: seq<Session>, users: map<string, User>, index: FallbackIndex,
                    strict: bool): seq<SessionView>
  {
    if sessions == [] then []
    else
      var init, last := sessions[..|sessions| - 1], sessions[|sessions| - 1];
      KeptRows(node, init, users, index, strict) + Kept(node, last, users, index, strict)
  }

  // -------------------------------------------------------------------- one node view

  function SkipReason(node: Node): string {
    if node.setup.Planned? then "planned"
    else if Blank(node.apiUrl) then "missing_api_url"
    else if Blank(node.nodeId) then "missing_node_id"
    else if Blank(node.secret) then "missing_node_secret"
    else ""
  }

  function ConfigurationIssueForReason(reason: string): string {
    if reason == "planned" then "" else reason
  }

  function NormalizedCollectorStatus(value: string): string {
    var status := ToLower(TrimSpace(value));
    if status == "ok" || status == "partial" || status == "disabled" then status else "unavailable"
  }

  function BaseView(node: Node, status: string): NodeView {
    NodeView(node.id, node.nodeId, node.name, node.protocol, node.enabled, status, [], "", "", [], "")
  }

  function FetchNodeView(node: Node, answer: Answer, users: map<string, User>, index: FallbackIndex,
                         strict: bool): NodeView
  {
    var reason := SkipReason(node);
    if reason != "" then
      BaseView(node, "disabled").(skippedReason := reason, configurationIssue := ConfigurationIssueForReason(reason))
    else
      match answer
      case CallFailed(error) => BaseView(node, "unavailable").(error := error)
      case Response(status, warnings, sessions) =>
        BaseView(node, NormalizedCollectorStatus(status)).(
          warnings := warnings, sessions := KeptRows(node, sessions, users, index, strict))
  }

  /** The loop of fetchNodeView over a response. */
  method CollectRows(node: Node, sessions: seq<Session>, users: map<string, User>, index: FallbackIndex, strict: bool)
    returns (rows: seq<SessionView>)
    ensures rows == KeptRows(node, sessions, users, index, strict)
  {
    rows := [];
    for i := 0 to |sessions|
      invariant rows == KeptRows(node, sessions[..i], users, index, strict)
    {
      assert sessions[..i + 1][..i] == sessions[..i];
      match ResolveSessionUser(node, sessions[i], users, index, strict)
      case Matched(u) => rows := rows + [BuildSessionView(node, sessions[i], Some(u))];
      case Unknown => rows := rows + [BuildSessionView(node, sessions[i], None)];
      case Excluded =>
    }
    assert sessions[..|sessions|] == sessions;
  }

  /** The view written for a node whose job was never taken. */
  function CanceledView(node: Node): NodeView {
    BaseView(node, "unavailable").(error := "telemetry request canceled")
  }

  // ------------------------------------------------------------- the scope of one user

  /** The rows that pass a test, in their order. */
  function Where(rows: seq<SessionView>, keep: SessionView -> bool): seq<SessionView> {
    if rows == [] then []
    else
      var init, last := Where(rows[..|rows| - 1], keep), rows[|rows| - 1];
      if keep(last) then init + [last] else init
  }

  lemma {:induction false} WhereConcat(a: seq<SessionView>, b: seq<SessionView>, keep: SessionView -> bool)
    ensures Where(a + b, keep) == Where(a, keep) + Where(b, keep)
  {
    if b == [] {
      assert a + b == a;
    } else {
      WhereConcat(a, b[..|b| - 1], keep);
      assert (a + b)[..|a + b| - 1] == a + b[..|b| - 1];
    }
  }

  function BackendIs(user: string): SessionView -> bool {
    (row: SessionView) => row.backendUserId == user
  }

  function OfUser(rows: seq<SessionView>, user: string): seq<SessionView> {
    Where(rows, BackendIs(user))
  }

  /** The user map of AllSessions: each user under its own id, which is never empty. */
  ghost predicate Keyed(users: map<string, User>) {
    forall id :: id in users ==> users[id].id == id && id != ""
  }

  ghost predicate AgreeAt(a: FallbackIndex, b: FallbackIndex, node: string) {
    forall name :: Find(a, node, name) == Find(b, node, name)
  }

  lemma ScopedSession(node: Node, session: Session, users: map<string, User>, u: string,
                      all: FallbackIndex, own: FallbackIndex)
    requires Keyed(users) && u in users && AgreeAt(all, own, node.id)
    ensures Kept(node, session, map[u := users[u]], own, true) == OfUser(Kept(node, session, users, all, false), u)
  {
    var rows := Kept(node, session, users, all, false);
    assert |rows| == 1 && OfUser(rows[..0], u) == [];
    assert Find(all, node.id, session.protocolUsername) == Find(own, node.id, session.protocolUsername);
  }

  lemma {:induction false} ScopedRows(node: Node, sessions: seq<Session>, users: map<string, User>, u: string,
                                      all: FallbackIndex, own: FallbackIndex)
    requires Keyed(users) && u in users && AgreeAt(all, own, node.id)
    ensures KeptRows(node, sessions, map[u := users[u]], own, true)
         == OfUser(KeptRows(node, sessions, users, all, false), u)
  {
    if sessions != [] {
      var init, last := sessions[..|sessions| - 1], sessions[|sessions| - 1];
      ScopedRows(node, init, users, u, all, own);
      ScopedSession(node, last, users, u, all, own);
      WhereConcat(KeptRows(node, init, users, all, false), Kept(node, last, users, all, false), BackendIs(u));
    }
  }

  /** The rows of several node views, one after the other. */
  function AllRows(nodes: seq<Node>, answers: seq<Answer>, users: map<string, User>, index: FallbackIndex,
                   strict: bool): seq<SessionView>
    requires |nodes| == |answers|
  {
    if nodes == [] then []
    else
      var k := |nodes| - 1;
      AllRows(nodes[..k], answers[..k], users, index, strict)
      + FetchNodeView(nodes[k], answers[k], users, index, strict).sessions
  }

  lemma ScopedView(node: Node, answer: Answer, users: map<string, User>, u: string,
                   all: FallbackIndex, own: FallbackIndex)
    requires Keyed(users) && u in users && AgreeAt(all, own, node.id)
    ensures FetchNodeView(node, answer, map[u := users[u]], own, true).sessions
         == OfUser(FetchNodeView(node, answer, users, all, false).sessions, u)
  {
    if answer.Response? {
      ScopedRows(node, answer.sessions, users, u, all, own);
    }
  }

  /**
   * On any nodes and answers, the strict rows under the one-user map are exactly, in order, the
   * non-strict rows of those same nodes whose backend user is that user.
   */
  lemma {:induction false} UserScopeIsFilter(nodes: seq<Node>, answers: seq<Answer>, users: map<string, User>,
                                             u: string, all: FallbackIndex, own: FallbackIndex)
    requires |nodes| == |answers| && Keyed(users) && u in users
    requires forall i :: 0 <= i < |nodes| ==> AgreeAt(all, own, nodes[i].id)
    ensures AllRows(nodes, answers, map[u := users[u]], own, true)
         == OfUser(AllRows(nodes, answers, users, all, false), u)
  {
    if nodes != [] {
      var k := |nodes| - 1;
      UserScopeIsFilter(nodes[..k], answers[..k], users, u, all, own);
      ScopedView(nodes[k], answers[k], users, u, all, own);
      WhereConcat(AllRows(nodes[..k], answers[..k], users, all, false),
                  FetchNodeView(nodes[k], answers[k], users, all, false).sessions, BackendIs(u));
    }
  }

  /** The position of the first lookup at a node. */
  function FirstAt(lookups: seq<SessionLookup>, node: string): nat {
    if lookups == [] || lookups[0].nodeId == node then 0 else 1 + FirstAt(lookups[1..], node)
  }

  lemma {:induction false} FirstAtHere(lookups: seq<SessionLookup>, i: nat)
    requires i < |lookups| && forall k :: 0 <= k < i ==> lookups[k].nodeId != lookups[i].nodeId
    ensures FirstAt(lookups, lookups[i].nodeId) == i
  {
    if i > 0 {
      FirstAtHere(lookups[1..], i - 1);
    }
  }

  /** UserSessions: the distinct known nodes among the user's lookups, in lookup order. */
  method TargetNodes(lookups: seq<SessionLookup>, nodes: map<string, Node>) returns (targets: seq<Node>)
    requires forall id :: id in nodes ==> nodes[id].id == id
    ensures forall n :: n in targets <==>
      n.id in nodes && nodes[n.id] == n && exists i :: 0 <= i < |lookups| && lookups[i].nodeId == n.id
    ensures forall i, j :: 0 <= i < j < |targets| ==> FirstAt(lookups, targets[i].id) < FirstAt(lookups, targets[j].id)
  {
    targets := [];
    var seen: set<string> := {};
    for i := 0 to |lookups|
      invariant forall n :: n in targets <==>
        n.id in nodes && nodes[n.id] == n && exists k :: 0 <= k < i && lookups[k].nodeId == n.id
      invariant forall n :: n in targets ==> n.id in seen && FirstAt(lookups, n.id) < i
      invariant forall id :: id in seen ==> id in nodes && nodes[id] in targets
      invariant forall k, l :: 0 <= k < l < |targets| ==>
        FirstAt(lookups, targets[k].id) < FirstAt(lookups, targets[l].id)
    {
      var id := lookups[i].nodeId;
      if id in seen || id !in nodes {
        continue;
      }
      assert nodes[id] !in targets;
      FirstAtHere(lookups, i);
      targets := targets + [nodes[id]];
      seen := seen + {id};
    }
  }

  /** The two indexes the pages build agree on every node of the user. */
  lemma PagesAgree(lookups: seq<SessionLookup>, targets: set<string>, nodes: set<string>,
                   all: FallbackIndex, own: FallbackIndex, n: string)
    requires n in targets && n in nodes
    requires forall node, name :: Find(all, node, name) == Scan(OfNodes(lookups, nodes), node, name)
    requires forall node, name :: Find(own, node, name) == Scan(OfNodes(lookups, targets), node, name)
    ensures AgreeAt(all, own, n)
  {
    forall name
      ensures Find(all, n, name) == Find(own, n, name)
    {
      ScanOfNodes(lookups, nodes, n, name);
      ScanOfNodes(lookups, targets, n, name);
    }
  }

  /**
   * The same with the indexes the two pages build: the user page's rows are, in order, the rows of
   * that user which the global page gets from the user's nodes.  What it gets from other nodes is
   * the subject of TelemetryPages.
   */
  lemma UserPageIsFilter(lookups: seq<SessionLookup>, targets: seq<Node>, nodes: set<string>, answers: seq<Answer>,
                         users: map<string, User>, u: string, all: FallbackIndex, own: FallbackIndex)
    requires |targets| == |answers| && Keyed(users) && u in users
    requires forall i :: 0 <= i < |targets| ==> targets[i].id in nodes
    requires forall node, name :: Find(all, node, name) == Scan(OfNodes(lookups, nodes), node, name)
    requires forall node, name ::
      Find(own, node, name) == Scan(OfNodes(lookups, set n | n in targets :: n.id), node, name)
    ensures AllRows(targets, answers, map[u := users[u]], own, true)
         == OfUser(AllRows(targets, answers, users, all, false), u)
  {
    forall i | 0 <= i < |targets|
      ensures AgreeAt(all, own, targets[i].id)
    {
      assert targets[i] in targets;
      PagesAgree(lookups, set n | n in targets :: n.id, nodes, all, own, targets[i].id);
    }
    UserScopeIsFilter(targets, answers, users, u, all, own);
  }
}
