/**
 * The sing-box config of a user: node outbounds behind one selector, with DNS servers and
 * routes that refer to outbounds by tag.
 */
module SingboxConfig {
  import opened Database
  import opened SyncProtocol
  import opened SyncVersions
  import opened OutboundTag
  import opened Text

  // ------------------------------------------------------------------- assignments

  /** `server` and the settings are what nodeServer and the settings JSON of the node give. */
  datatype Settings = Settings(
    server: string, naivePort: int, mieruPort: int, mieruProtocol: string, multiplexing: string)

  datatype Assignment = Assignment(
    node: Id, agentId: string, name: string, protocol: string,
    username: string, password: string, settings: Settings)

  ghost predicate Enabled(db: Db, u: Id, n: Id) {
    && NodeLive(db, n) && db.nodes[n].enabled
    && (u, n) in db.access && db.access[(u, n)].enabled
  }

  predicate Joins(db: Db, u: Id, a: Assignment)
    requires NodeLive(db, a.node) && (u, a.node) in db.access
  {
    var row, access := db.nodes[a.node], db.access[(u, a.node)];
    && a.agentId == row.agentId && a.name == row.name && a.protocol == row.protocol
    && a.username == access.username && a.password == access.password
  }

  /** A possible result of ActiveAccessForSubscription: each enabled node once, in an order left open. */
  ghost predicate Listed(db: Db, u: Id, assignments: seq<Assignment>) {
    && (forall i :: 0 <= i < |assignments| ==>
          Enabled(db, u, assignments[i].node) && Joins(db, u, assignments[i]))
    && (forall i, j :: 0 <= i < j < |assignments| ==> assignments[i].node != assignments[j].node)
    && (forall n :: Enabled(db, u, n) ==> exists i :: 0 <= i < |assignments| && assignments[i].node == n)
  }

  // --------------------------------------------------------------------- the config

  datatype Outbound =
    | Selector(tag: string, outbounds: seq<string>)
    | Naive(tag: string, server: string, port: int, username: string, password: string, tlsName: string)
    | Mieru(tag: string, server: string, port: int, transport: string, username: string, password: string,
            multiplexing: string)
    | Direct(tag: string)
    | Dns(tag: string)

  datatype DnsServer = DnsServer(tag: string, address: string, detour: string)
  datatype DnsRule = DnsRule(outbound: string, server: string)
  datatype RouteRule = RouteRule(protocol: string, outbound: string)

  datatype Config = Config(
    servers: seq<DnsServer>, dnsRules: seq<DnsRule>, dnsFinal: string,
    outbounds: seq<Outbound>, rules: seq<RouteRule>, final: string)

  function TagOf(a: Assignment): string {
    Tag(a.protocol, Source(a.agentId, a.node, a.name))
  }

  /** defaultString: blank text counts as missing. */
  function OrElse(value: string, fallback: string): string {
    if Blank(value) then fallback else value
  }

  /** The outbounds one assignment adds; a protocol the switch does not know adds none. */
  function NodeOutbound(a: Assignment): seq<Outbound> {
    if a.protocol == "naive" then
      [Naive(TagOf(a), a.settings.server, a.settings.naivePort, a.username, a.password, a.settings.server)]
    else if a.protocol == "mieru" then
      [Mieru(TagOf(a), a.settings.server, a.settings.mieruPort, OrElse(a.settings.mieruProtocol, "TCP"),
             a.username, a.password, OrElse(a.settings.multiplexing, "MULTIPLEXING_HIGH"))]
    else []
  }

  function NodeOutbounds(assignments: seq<Assignment>): seq<Outbound> {
    if assignments == [] then []
    else
      NodeOutbounds(assignments[..|assignments| - 1]) + NodeOutbound(assignments[|assignments| - 1])
  }

  function Tags(assignments: seq<Assignment>): seq<string> {
    seq(|assignments|, i requires 0 <= i < |assignments| => TagOf(assignments[i]))
  }

  function ConfigOf(assignments: seq<Assignment>): Config {
    Config(
      [DnsServer("remote", "tls://8.8.8.8", "proxy"), DnsServer("local", "https://223.5.5.5/dns-query", "direct")],
      [DnsRule("any", "local")],
      "remote",
      [Selector("proxy", if assignments == [] then ["direct"] else Tags(assignments))]
        + NodeOutbounds(assignments) + [Direct("direct"), Dns("dns-out")],
      [RouteRule("dns", "dns-out")],
      "proxy")
  }

  /** The loop over the assignments. */
  method BuildNodes(assignments: seq<Assignment>) returns (proxyTags: seq<string>, outbounds: seq<Outbound>)
    ensures proxyTags == Tags(assignments) && outbounds == NodeOutbounds(assignments)
  {
    proxyTags, outbounds := [], [];
    for i := 0 to |assignments|
      invariant proxyTags == Tags(assignments[..i])
      invariant outbounds == NodeOutbounds(assignments[..i])
    {
      var a := assignments[i];
      var tag := TagOf(a);
      proxyTags := proxyTags + [tag];
      if a.protocol == "naive" {
        outbounds := outbounds + [Naive(tag, a.settings.server, a.settings.naivePort, a.username, a.password,
                                        a.settings.server)];
      } else if a.protocol == "mieru" {
        outbounds := outbounds + [Mieru(tag, a.settings.server, a.settings.mieruPort,
                                        OrElse(a.settings.mieruProtocol, "TCP"),
                                        a.username, a.password, OrElse(a.settings.multiplexing, "MULTIPLEXING_HIGH"))];
      }
      OneMoreNode(assignments, i);
    }
    assert assignments[..|assignments|] == assignments;
  }

  lemma OneMoreNode(assignments: seq<Assignment>, i: nat)
    requires i < |assignments|
    ensures Tags(assignments[..i + 1]) == Tags(assignments[..i]) + [TagOf(assignments[i])]
    ensures NodeOutbounds(assignments[..i + 1]) == NodeOutbounds(assignments[..i]) + NodeOutbound(assignments[i])
  {
    assert assignments[..i + 1][..i] == assignments[..i];
  }

  method BuildSingbox(assignments: seq<Assignment>) returns (cfg: Config)
    ensures cfg == ConfigOf(assignments)
  {
    var proxyTags, outbounds := BuildNodes(assignments);
    if |proxyTags| == 0 {
      proxyTags := ["direct"];
    }
    var servers := [DnsServer("remote", "tls://8.8.8.8", "proxy"),
                    DnsServer("local", "https://223.5.5.5/dns-query", "direct")];
    outbounds := [Selector("proxy", proxyTags)] + outbounds;
    outbounds := outbounds + [Direct("direct"), Dns("dns-out")];
    cfg := Config(servers, [DnsRule("any", "local")], "remote", outbounds, [RouteRule("dns", "dns-out")], "proxy");
  }

  // ---------------------------------------------------------------- what resolves

  ghost predicate Defines(cfg: Config, tag: string) {
    exists k :: 0 <= k < |cfg.outbounds| && cfg.outbounds[k].tag == tag
  }

  ghost predicate Serves(cfg: Config, tag: string) {
    exists k :: 0 <= k < |cfg.servers| && cfg.servers[k].tag == tag
  }

  ghost predicate SelectorsResolve(cfg: Config) {
    forall k, j ::
      0 <= k < |cfg.outbounds| && cfg.outbounds[k].Selector? && 0 <= j < |cfg.outbounds[k].outbounds| ==>
      Defines(cfg, cfg.outbounds[k].outbounds[j])
  }

  /** Every other reference: the detours, the rules and the two finals. */
  ghost predicate OthersResolve(cfg: Config) {
    && (forall k :: 0 <= k < |cfg.servers| ==> Defines(cfg, cfg.servers[k].detour))
    && (forall k :: 0 <= k < |cfg.rules| ==> Defines(cfg, cfg.rules[k].outbound))
    && Defines(cfg, cfg.final)
    && (forall k :: 0 <= k < |cfg.dnsRules| ==> Serves(cfg, cfg.dnsRules[k].server))
    && Serves(cfg, cfg.dnsFinal)
  }

  /** Every tag the config refers to is defined in it; `any` is a word of the format, not a tag. */
  ghost predicate Resolves(cfg: Config) {
    SelectorsResolve(cfg) && OthersResolve(cfg)
  }

  ghost predicate TagsUnique(cfg: Config) {
    forall j, k :: 0 <= j < k < |cfg.outbounds| ==> cfg.outbounds[j].tag != cfg.outbounds[k].tag
  }

  predicate Known(assignments: seq<Assignment>) {
    forall i :: 0 <= i < |assignments| ==> KnownProtocol(assignments[i].protocol)
  }

  lemma OneOutbound(a: Assignment)
    requires KnownProtocol(a.protocol)
    ensures |NodeOutbound(a)| == 1
  {
  }

  /** Outbound `i` is the only one that `f` gives for assignment `i`. */
  predicate OneEach(f: Assignment -> seq<Outbound>, assignments: seq<Assignment>, nodes: seq<Outbound>) {
    |nodes| == |assignments| && forall i :: 0 <= i < |nodes| ==> f(assignments[i]) == [nodes[i]]
  }

  lemma OneEachOnward(f: Assignment -> seq<Outbound>, init: seq<Assignment>, last: Assignment, nodes: seq<Outbound>)
    requires OneEach(f, init, nodes) && |f(last)| == 1
    ensures OneEach(f, init + [last], nodes + f(last))
  {
  }

  /** With known protocols outbound `i` is the one of assignment `i`. */
  lemma {:induction false} OneOutboundEach(assignments: seq<Assignment>)
    requires Known(assignments)
    ensures OneEach(NodeOutbound, assignments, NodeOutbounds(assignments))
  {
    if assignments != [] {
      var init, last := assignments[..|assignments| - 1], assignments[|assignments| - 1];
      OneOutboundEach(init);
      OneOutbound(last);
      OneEachOnward(NodeOutbound, init, last, NodeOutbounds(init));
      assert assignments == init + [last];
    }
  }

  /** Where each outbound of a config stands. */
  ghost predicate Laid(out: seq<Outbound>, assignments: seq<Assignment>) {
    var n := |assignments|;
    && |out| == n + 3
    && out[0] == Selector("proxy", if assignments == [] then ["direct"] else Tags(assignments))
    && (forall k :: 1 <= k <= n ==> out[k].tag == TagOf(assignments[k - 1]) && !out[k].Selector?)
    && out[n + 1] == Direct("direct") && out[n + 2] == Dns("dns-out")
  }

  lemma NodeTag(a: Assignment, o: Outbound)
    requires NodeOutbound(a) == [o]
    ensures o.tag == TagOf(a) && !o.Selector?
  {
    assert [o][0] == o;
  }

  lemma NodeOutboundTags(assignments: seq<Assignment>)
    requires Known(assignments)
    ensures var nodes := NodeOutbounds(assignments);
      && |nodes| == |assignments|
      && forall i :: 0 <= i < |nodes| ==> nodes[i].tag == TagOf(assignments[i]) && !nodes[i].Selector?
  {
    OneOutboundEach(assignments);
    forall i | 0 <= i < |assignments|
      ensures NodeOutbounds(assignments)[i].tag == TagOf(assignments[i]) && !NodeOutbounds(assignments)[i].Selector?
    {
      NodeTag(assignments[i], NodeOutbounds(assignments)[i]);
    }
  }

  lemma ConfigIsLaid(assignments: seq<Assignment>)
    requires Known(assignments)
    ensures Laid(ConfigOf(assignments).outbounds, assignments)
  {
    ConfigParts(assignments);
    NodeOutboundTags(assignments);
  }

  // ------------------------------------------------- the exact condition, for every list

  /** Some assignment of a known protocol has the tag. */
  ghost predicate Backed(assignments: seq<Assignment>, tag: string) {
    exists j :: 0 <= j < |assignments| && KnownProtocol(assignments[j].protocol) && TagOf(assignments[j]) == tag
  }

  ghost predicate AmongNodes(assignments: seq<Assignment>, tag: string) {
    exists k :: 0 <= k < |NodeOutbounds(assignments)| && NodeOutbounds(assignments)[k].tag == tag
  }

  lemma {:induction false} NodesAreNotSelectors(assignments: seq<Assignment>)
    ensures forall k :: 0 <= k < |NodeOutbounds(assignments)| ==> !NodeOutbounds(assignments)[k].Selector?
  {
    if assignments != [] {
      NodesAreNotSelectors(assignments[..|assignments| - 1]);
    }
  }

  lemma BackedGrows(assignments: seq<Assignment>, tag: string)
    requires assignments != []
    ensures var init, last := assignments[..|assignments| - 1], assignments[|assignments| - 1];
      Backed(assignments, tag) <==> Backed(init, tag) || (KnownProtocol(last.protocol) && TagOf(last) == tag)
  {
    var init := assignments[..|assignments| - 1];
    if Backed(init, tag) {
      var j :| 0 <= j < |init| && KnownProtocol(init[j].protocol) && TagOf(init[j]) == tag;
      assert assignments[j] == init[j];
    }
    if Backed(assignments, tag) {
      var j :| 0 <= j < |assignments| && KnownProtocol(assignments[j].protocol) && TagOf(assignments[j]) == tag;
      assert j < |init| ==> init[j] == assignments[j];
    }
  }

  lemma AmongNodesGrows(assignments: seq<Assignment>, tag: string)
    requires assignments != []
    ensures var init, last := assignments[..|assignments| - 1], assignments[|assignments| - 1];
      AmongNodes(assignments, tag) <==> AmongNodes(init, tag) || (KnownProtocol(last.protocol) && TagOf(last) == tag)
  {
    var init, last := assignments[..|assignments| - 1], assignments[|assignments| - 1];
    var a, b := NodeOutbounds(init), NodeOutbounds(assignments);
    assert b == a + NodeOutbound(last);
    if AmongNodes(init, tag) {
      var k :| 0 <= k < |a| && a[k].tag == tag;
      assert b[k] == a[k];
    }
    if KnownProtocol(last.protocol) && TagOf(last) == tag {
      assert b[|a|] == NodeOutbound(last)[0];
    }
    if AmongNodes(assignments, tag) {
      var k :| 0 <= k < |b| && b[k].tag == tag;
      assert k < |a| ==> a[k] == b[k];
    }
  }

  lemma {:induction false} NodesAreTheBacked(assignments: seq<Assignment>, tag: string)
    ensures AmongNodes(assignments, tag) <==> Backed(assignments, tag)
  {
    if assignments != [] {
      NodesAreTheBacked(assignments[..|assignments| - 1], tag);
      AmongNodesGrows(assignments, tag);
      BackedGrows(assignments, tag);
    }
  }

  ghost predicate Framed(out: seq<Outbound>, head: Outbound, nodes: seq<Outbound>, a: Outbound, b: Outbound) {
    && |out| == |nodes| + 3 && out[0] == head && out[|nodes| + 1] == a && out[|nodes| + 2] == b
    && forall k :: 1 <= k <= |nodes| ==> out[k] == nodes[k - 1]
  }

  lemma FrameUnfolds(head: Outbound, nodes: seq<Outbound>, a: Outbound, b: Outbound)
    ensures Framed([head] + nodes + [a, b], head, nodes, a, b)
  {
  }

  /** A config as its head, its nodes and its two closing outbounds. */
  lemma ConfigParts(assignments: seq<Assignment>)
    ensures var head := Selector("proxy", if assignments == [] then ["direct"] else Tags(assignments));
      Framed(ConfigOf(assignments).outbounds, head, NodeOutbounds(assignments), Direct("direct"), Dns("dns-out"))
  {
    FrameUnfolds(Selector("proxy", if assignments == [] then ["direct"] else Tags(assignments)),
                 NodeOutbounds(assignments), Direct("direct"), Dns("dns-out"));
  }

  lemma DefinedAmong(cfg: Config, nodes: seq<Outbound>, tag: string)
    requires |cfg.outbounds| == |nodes| + 3 && forall k :: 1 <= k <= |nodes| ==> cfg.outbounds[k] == nodes[k - 1]
    requires cfg.outbounds[0].tag != tag
    requires cfg.outbounds[|nodes| + 1].tag != tag && cfg.outbounds[|nodes| + 2].tag != tag
    ensures Defines(cfg, tag) <==> exists k :: 0 <= k < |nodes| && nodes[k].tag == tag
  {
    if k :| 0 <= k < |nodes| && nodes[k].tag == tag {
      assert cfg.outbounds[k + 1].tag == tag;
    }
    if k :| 0 <= k < |cfg.outbounds| && cfg.outbounds[k].tag == tag {
      assert nodes[k - 1].tag == tag;
    }
  }

  /** A tag of a node is defined in the config exactly if a node outbound has it. */
  lemma DefinedTag(assignments: seq<Assignment>, a: Assignment)
    ensures Defines(ConfigOf(assignments), TagOf(a)) <==> AmongNodes(assignments, TagOf(a))
  {
    ConfigParts(assignments);
    NodeTagIsOwn(a);
    DefinedAmong(ConfigOf(assignments), NodeOutbounds(assignments), TagOf(a));
  }

  /** All references but those of the selector always resolve. */
  lemma FixedReferences(assignments: seq<Assignment>)
    ensures var cfg := ConfigOf(assignments); OthersResolve(cfg) && Defines(cfg, "direct")
  {
    ConfigParts(assignments);
    var cfg, n := ConfigOf(assignments), |NodeOutbounds(assignments)|;
    assert cfg.outbounds[0].tag == "proxy";
    assert cfg.outbounds[n + 1].tag == "direct" && cfg.outbounds[n + 2].tag == "dns-out";
    assert cfg.servers[0].tag == "remote" && cfg.servers[1].tag == "local";
  }

  lemma OnlyTheHeadSelects(assignments: seq<Assignment>)
    ensures var out := ConfigOf(assignments).outbounds; forall k :: 1 <= k < |out| ==> !out[k].Selector?
  {
    ConfigParts(assignments);
    NodesAreNotSelectors(assignments);
  }

  lemma HeadDecides(cfg: Config, tags: seq<string>)
    requires OthersResolve(cfg) && |cfg.outbounds| > 0 && cfg.outbounds[0] == Selector("proxy", tags)
    requires forall k :: 1 <= k < |cfg.outbounds| ==> !cfg.outbounds[k].Selector?
    ensures Resolves(cfg) <==> forall i :: 0 <= i < |tags| ==> Defines(cfg, tags[i])
  {
    if Resolves(cfg) {
      forall i | 0 <= i < |tags|
        ensures Defines(cfg, tags[i])
      {
        assert cfg.outbounds[0].outbounds[i] == tags[i];
      }
    }
  }

  lemma ResolvesByTheSelector(assignments: seq<Assignment>)
    ensures Resolves(ConfigOf(assignments)) <==>
            forall i :: 0 <= i < |assignments| ==> Defines(ConfigOf(assignments), TagOf(assignments[i]))
  {
    FixedReferences(assignments);
    OnlyTheHeadSelects(assignments);
    if assignments == [] {
      HeadDecides(ConfigOf(assignments), ["direct"]);
    } else {
      HeadDecides(ConfigOf(assignments), Tags(assignments));
      assert forall i :: 0 <= i < |assignments| ==> Tags(assignments)[i] == TagOf(assignments[i]);
    }
  }

  /**
   * The switch has no default case, so an assignment of another protocol adds a tag without an
   * outbound.  For every list, the config resolves exactly if each tag is that of some assignment
   * of a known protocol.
   */
  lemma ConfigResolvesExactly(assignments: seq<Assignment>)
    ensures Resolves(ConfigOf(assignments)) <==>
            forall i :: 0 <= i < |assignments| ==> Backed(assignments, TagOf(assignments[i]))
  {
    ResolvesByTheSelector(assignments);
    forall i | 0 <= i < |assignments|
      ensures Defines(ConfigOf(assignments), TagOf(assignments[i])) <==> Backed(assignments, TagOf(assignments[i]))
    {
      DefinedTag(assignments, assignments[i]);
      NodesAreTheBacked(assignments, TagOf(assignments[i]));
    }
  }

  /** For a lone assignment that is to say that its protocol is known. */
  lemma LoneConfigResolvesExactly(a: Assignment)
    ensures Resolves(ConfigOf([a])) <==> KnownProtocol(a.protocol)
  {
    ConfigResolvesExactly([a]);
    assert [a][0] == a;
  }

  lemma KnownConfigResolves(assignments: seq<Assignment>)
    requires Known(assignments)
    ensures Resolves(ConfigOf(assignments))
  {
    forall i | 0 <= i < |assignments|
      ensures Backed(assignments, TagOf(assignments[i]))
    {
    }
    ConfigResolvesExactly(assignments);
  }

  // ------------------------------------------------- from the database to the config

  lemma ListedIsKnown(db: Db, u: Id, assignments: seq<Assignment>)
    requires ProtocolsAgree(db) && Listed(db, u, assignments)
    ensures Known(assignments)
  {
  }

  /** Whatever syncs, edits and assignments came before, a generated config refers to nothing undefined. */
  lemma ReachableConfigResolves(w: World, acts: seq<Action>, u: Id, assignments: seq<Assignment>)
    requires Start(w) && Listed(Play(w, acts).db, u, assignments)
    ensures Resolves(ConfigOf(assignments))
    ensures |ConfigOf(assignments).outbounds| == |assignments| + 3
  {
    StartIsReachable(w);
    PlayKeepsReachable(w, acts);
    ListedIsKnown(Play(w, acts).db, u, assignments);
    KnownConfigResolves(assignments);
    ConfigIsLaid(assignments);
  }

  predicate SameTag(a: Assignment, b: Assignment) {
    a.protocol == b.protocol && Slug(Source(a.agentId, a.node, a.name)) == Slug(Source(b.agentId, b.node, b.name))
  }

  lemma CollideExactly(a: Assignment, b: Assignment)
    requires KnownProtocol(a.protocol) && KnownProtocol(b.protocol)
    ensures TagOf(a) == TagOf(b) <==> SameTag(a, b)
  {
    TagsCollideExactly(a.protocol, Source(a.agentId, a.node, a.name), b.protocol, Source(b.agentId, b.node, b.name));
  }

  lemma NodeTagIsOwn(a: Assignment)
    ensures TagOf(a) != "proxy" && TagOf(a) != "direct" && TagOf(a) != "dns-out"
  {
    TagIsNotReserved(a.protocol, Source(a.agentId, a.node, a.name));
  }

  /** The tag of each outbound. */
  function TagAt(assignments: seq<Assignment>, k: nat): string {
    if k == 0 then "proxy"
    else if k <= |assignments| then TagOf(assignments[k - 1])
    else if k == |assignments| + 1 then "direct"
    else "dns-out"
  }

  lemma LaidTag(out: seq<Outbound>, assignments: seq<Assignment>, k: nat)
    requires Laid(out, assignments) && k < |out|
    ensures out[k].tag == TagAt(assignments, k)
  {
  }

  lemma ReservedAreDistinct()
    ensures "proxy" != "direct" && "proxy" != "dns-out" && "direct" != "dns-out"
  {
    assert |"proxy"| == 5 && |"direct"| == 6 && |"dns-out"| == 7;
  }

  lemma TagsDiffer(assignments: seq<Assignment>, j: nat, k: nat)
    requires j < k < |assignments| + 3 && TagAt(assignments, j) == TagAt(assignments, k)
    ensures 1 <= j && k <= |assignments|
  {
    ReservedAreDistinct();
    if 1 <= j <= |assignments| {
      NodeTagIsOwn(assignments[j - 1]);
    }
    if 1 <= k <= |assignments| {
      NodeTagIsOwn(assignments[k - 1]);
    }
  }

  /** Outbound tags are unique exactly if no two assignments share protocol and slug. */
  lemma TagsUniqueExactly(assignments: seq<Assignment>)
    requires Known(assignments)
    ensures TagsUnique(ConfigOf(assignments)) <==>
            forall i, j :: 0 <= i < j < |assignments| ==> !SameTag(assignments[i], assignments[j])
  {
    var out := ConfigOf(assignments).outbounds;
    ConfigIsLaid(assignments);
    forall i, j | 0 <= i < j < |assignments|
      ensures SameTag(assignments[i], assignments[j]) ==> out[i + 1].tag == out[j + 1].tag
    {
      CollideExactly(assignments[i], assignments[j]);
    }
    forall j, k | 0 <= j < k < |out| && out[j].tag == out[k].tag
      ensures 1 <= j && k <= |assignments| && SameTag(assignments[j - 1], assignments[k - 1])
    {
      LaidTag(out, assignments, j);
      LaidTag(out, assignments, k);
      TagsDiffer(assignments, j, k);
      CollideExactly(assignments[j - 1], assignments[k - 1]);
    }
  }

  /** When node ids are in canonical form, no two outbounds of a generated config share a tag. */
  lemma CanonicalIdsGiveUniqueTags(w: World, acts: seq<Action>, u: Id, assignments: seq<Assignment>)
    requires Start(w) && Listed(Play(w, acts).db, u, assignments)
    requires forall i :: 0 <= i < |assignments| ==> Canonical(assignments[i].agentId)
    ensures TagsUnique(ConfigOf(assignments))
  {
    var db := Play(w, acts).db;
    StartIsReachable(w);
    PlayKeepsReachable(w, acts);
    ListedIsKnown(db, u, assignments);
    forall i, j | 0 <= i < j < |assignments|
      ensures !SameTag(assignments[i], assignments[j])
    {
      SlugIsIdentityOnCanonical(assignments[i].agentId);
      SlugIsIdentityOnCanonical(assignments[j].agentId);
      assert db.nodes[assignments[i].node].agentId != db.nodes[assignments[j].node].agentId;
    }
    TagsUniqueExactly(assignments);
  }
}
