/**
 * What a client gets out of a subscription: where its config sends it and with which credentials, and
 * what the reader of a `mierus://` link finds under each name.
 */
module SubscriptionClient {
  import opened Text
  import opened Database
  import opened SingboxConfig

  // --------------------------------------------------------------------- the node outbounds

  /** The outbound connects to the node of the assignment, with the credentials of the assignment. */
  predicate ConnectsTo(o: Outbound, a: Assignment) {
    match o
    case Naive(_, server, port, username, password, tlsName) =>
      && a.protocol == "naive" && server == a.settings.server == tlsName && port == a.settings.naivePort
      && username == a.username && password == a.password
    case Mieru(_, server, port, transport, username, password, multiplexing) =>
      && a.protocol == "mieru" && server == a.settings.server && port == a.settings.mieruPort
      && username == a.username && password == a.password
      && transport == (if Blank(a.settings.mieruProtocol) then "TCP" else a.settings.mieruProtocol)
      && multiplexing == (if Blank(a.settings.multiplexing) then "MULTIPLEXING_HIGH" else a.settings.multiplexing)
    case _ => false
  }

  lemma NodeConnects(a: Assignment)
    requires KnownProtocol(a.protocol)
    ensures |NodeOutbound(a)| == 1 && ConnectsTo(NodeOutbound(a)[0], a) && NodeOutbound(a)[0].tag == TagOf(a)
  {
  }

  /** With known protocols, the outbound behind the selector's i-th choice connects to the i-th assignment. */
  lemma ChoicesConnect(assignments: seq<Assignment>, i: nat)
    requires Known(assignments) && i < |assignments|
    ensures var out := ConfigOf(assignments).outbounds;
      && |out| == |assignments| + 3 && out[0].Selector? && |out[0].outbounds| == |assignments|
      && out[i + 1].tag == out[0].outbounds[i] && ConnectsTo(out[i + 1], assignments[i])
  {
    ConfigParts(assignments);
    OneOutboundEach(assignments);
    NodeConnects(assignments[i]);
    assert NodeOutbound(assignments[i]) == [NodeOutbounds(assignments)[i]];
  }

  /** A tag is made from the agent id, or without one from the node's id, or else from its name; nothing else counts. */
  lemma TagKeepsItsSource(a: Assignment, b: Assignment)
    requires a.protocol == b.protocol && a.agentId == b.agentId
    requires a.agentId != "" || (a.node == b.node && (a.node != "" || a.name == b.name))
    ensures TagOf(a) == TagOf(b)
    ensures a.agentId == "" ==> TagOf(a) == TagOf(a.(agentId := a.node)) || a.node == ""
    ensures a.agentId == "" == a.node ==> TagOf(a) == TagOf(a.(agentId := a.name))
  {
  }

  // ------------------------------------------------------------------------------ the routes

  predicate AllTagged(out: seq<Outbound>, tag: string, o: Outbound) {
    forall k :: 0 <= k < |out| && out[k].tag == tag ==> out[k] == o
  }

  lemma ReservedTags(assignments: seq<Assignment>, k: nat)
    requires k < |ConfigOf(assignments).outbounds|
    ensures var out := ConfigOf(assignments).outbounds;
      && (out[k].tag == "proxy" ==> k == 0)
      && (out[k].tag == "direct" ==> k == |out| - 2)
      && (out[k].tag == "dns-out" ==> k == |out| - 1)
  {
    ConfigParts(assignments);
    ReservedAreDistinct();
    if 1 <= k <= |NodeOutbounds(assignments)| {
      var tag := NodeOutbounds(assignments)[k - 1].tag;
      assert AmongNodes(assignments, tag);
      NodesAreTheBacked(assignments, tag);
      var j :| 0 <= j < |assignments| && KnownProtocol(assignments[j].protocol) && TagOf(assignments[j]) == tag;
      NodeTagIsOwn(assignments[j]);
    }
  }

  /**
   * Where traffic goes, for every list of assignments.  By default to the selector, whose choices are the
   * tags of the assignments in order, or the direct outbound if there are none; the default DNS server is
   * asked through that selector too, the DNS server of the node addresses directly; DNS traffic itself
   * goes to the DNS outbound.
   */
  lemma Routes(assignments: seq<Assignment>)
    ensures var cfg := ConfigOf(assignments);
      && AllTagged(cfg.outbounds, cfg.final,
                   Selector(cfg.final, if assignments == [] then ["direct"] else Tags(assignments)))
      && (forall i :: 0 <= i < |cfg.servers| && cfg.servers[i].tag == cfg.dnsFinal ==>
            cfg.servers[i].address == "tls://8.8.8.8" && cfg.servers[i].detour == cfg.final)
      && (forall i, j :: 0 <= i < |cfg.servers| && 0 <= j < |cfg.dnsRules|
                         && cfg.servers[i].tag == cfg.dnsRules[j].server ==>
            cfg.dnsRules[j].outbound == "any" && cfg.servers[i].address == "https://223.5.5.5/dns-query"
            && AllTagged(cfg.outbounds, cfg.servers[i].detour, Direct(cfg.servers[i].detour)))
      && (forall j :: 0 <= j < |cfg.rules| ==>
            cfg.rules[j].protocol == "dns"
            && AllTagged(cfg.outbounds, cfg.rules[j].outbound, Dns(cfg.rules[j].outbound)))
      && AllTagged(cfg.outbounds, "direct", Direct("direct"))
  {
    ConfigParts(assignments);
    var cfg := ConfigOf(assignments);
    forall k | 0 <= k < |cfg.outbounds|
      ensures (cfg.outbounds[k].tag == "proxy" ==> k == 0)
           && (cfg.outbounds[k].tag == "direct" ==> k == |cfg.outbounds| - 2)
           && (cfg.outbounds[k].tag == "dns-out" ==> k == |cfg.outbounds| - 1)
    {
      ReservedTags(assignments, k);
    }
  }

  // ------------------------------------------------------- the config against the agent's list

  lemma ListedCredentials(db: Db, u: Id, assignments: seq<Assignment>, i: nat)
    requires Listed(db, u, assignments) && i < |assignments|
    ensures var n := assignments[i].node;
      && n in db.nodes && (u, n) in db.access
      && assignments[i].username == db.access[(u, n)].username
      && assignments[i].password == db.access[(u, n)].password
      && assignments[i].protocol == db.nodes[n].protocol
  {
  }

  /**
   * The config and the payload are two queries.  At every node to which the payload grants the user access
   * and that is switched on, the config has an outbound, and it logs in with exactly the credentials the
   * payload gives the agent.
   */
  lemma ClientLogsIn(db: Db, u: Id, assignments: seq<Assignment>, n: Id)
    requires ProtocolsAgree(db) && Listed(db, u, assignments)
    requires u in ActiveAccess(db, n) && NodeLive(db, n) && db.nodes[n].enabled
    ensures exists i :: 0 <= i < |assignments| && assignments[i].node == n
                        && LogsIn(ConfigOf(assignments).outbounds, i + 1, ActiveAccess(db, n)[u])
  {
    assert Enabled(db, u, n);
    var i :| 0 <= i < |assignments| && assignments[i].node == n;
    ListedIsKnown(db, u, assignments);
    ListedCredentials(db, u, assignments, i);
    ChoicesConnect(assignments, i);
    assert LogsIn(ConfigOf(assignments).outbounds, i + 1, ActiveAccess(db, n)[u]);
  }

  predicate LogsIn(out: seq<Outbound>, k: nat, grant: Grant) {
    && k < |out|
    && match out[k]
       case Naive(_, _, _, username, password, _) => username == grant.username && password == grant.password
       case Mieru(_, _, _, _, username, password, _) => username == grant.username && password == grant.password
       case _ => false
  }

  /** Conversely a node in the config grants a live user access unless the user is off or has expired. */
  lemma ConfiguredIsGranted(db: Db, u: Id, assignments: seq<Assignment>, i: nat)
    requires Listed(db, u, assignments) && i < |assignments| && UserLive(db, u)
    ensures u in ActiveAccess(db, assignments[i].node) <==>
      db.users[u].enabled && (db.users[u].expiresAt.None? || db.now < db.users[u].expiresAt.value)
  {
  }

  /** Unassigning the user, switching its assignment off, deleting the node, or switching the node off. */
  predicate Unlists(db: Db, e: Edit, u: Id, n: Id) {
    || e == UnassignNode(u, n) || e == SetAccessEnabled(u, n, false) || e == DeleteNode(n)
    || (&& e.UpdateNode? && e.node == n && !e.enabled && NodeLive(db, n)
        && KnownProtocol(e.protocol) && AgentIdFree(db, e.agentId, n) && ProtocolChangeOk(db, n, e.protocol))
  }

  /** Afterwards no config of the user has the node. */
  lemma Unlisted(db: Db, e: Edit, u: Id, n: Id, assignments: seq<Assignment>, i: nat)
    requires ProtocolsAgree(db) && Unlists(db, e, u, n)
    requires Listed(Edited(db, e), u, assignments) && i < |assignments|
    ensures assignments[i].node != n
  {
    assert Enabled(Edited(db, e), u, assignments[i].node);
  }
}
