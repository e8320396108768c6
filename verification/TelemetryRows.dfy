/**
 * What the rows of a page say, in terms of what the agent reported and who is assigned to the node:
 * whom a session is attributed to, what is shown of it, and what is hidden.
 */
module TelemetryRows {
  import opened Text
  import opened Telemetry

  // ---------------------------------------------------------------------------- attribution

  /** The user is the only one assigned to the node under the protocol username. */
  ghost predicate SoleAssigned(lookups: seq<SessionLookup>, node: string, name: string, u: string) {
    && SessionLookup(u, node, name) in lookups
    && forall v :: SessionLookup(v, node, name) in lookups ==> v == u
  }

  /** The session is the user's: by the id it names, or else by the protocol username. */
  ghost predicate Belongs(session: Session, node: string, users: map<string, User>, lookups: seq<SessionLookup>,
                          u: string)
  {
    && u in users
    && if session.userId != "" then session.userId == u
       else SoleAssigned(lookups, node, session.protocolUsername, u)
  }

  /** The index answers for the node as the assignments do. */
  ghost predicate Indexes(index: FallbackIndex, lookups: seq<SessionLookup>, node: string) {
    forall name :: Find(index, node, name) == Scan(lookups, node, name)
  }

  lemma OnlyOne(s: seq<string>, u: string)
    requires u in s && forall x :: x in s ==> x == u
    requires forall i, j :: 0 <= i < j < |s| ==> s[i] != s[j]
    ensures s == [u]
  {
    assert s[0] in s && s[|s| - 1] in s;
    assert s == [s[0]];
  }

  lemma SoleIsFound(index: FallbackIndex, lookups: seq<SessionLookup>, node: string, name: string, u: string)
    requires Indexes(index, lookups, node)
    ensures Find(index, node, name) == [u] <==> SoleAssigned(lookups, node, name, u)
  {
    ScanIsTheAssignedUsers(lookups, node, name);
    var found := Find(index, node, name);
    assert found == Scan(lookups, node, name);
    if found == [u] {
      assert u in found;
    }
    if SoleAssigned(lookups, node, name, u) {
      OnlyOne(found, u);
    }
  }

  lemma BelongsToOne(session: Session, node: string, users: map<string, User>, lookups: seq<SessionLookup>,
                     u: string, v: string)
    requires Belongs(session, node, users, lookups, u) && Belongs(session, node, users, lookups, v)
    ensures u == v
  {
  }

  /**
   * Whom a session is matched to, for every index, user map, session and scope: the user it belongs to,
   * if there is one.  An ambiguous or unassigned username, or a user that is not in the map, is matched
   * to nobody, which is unknown on the global page and excluded from the page of a user.
   */
  lemma ResolvedExactly(node: Node, session: Session, users: map<string, User>, lookups: seq<SessionLookup>,
                        index: FallbackIndex, strict: bool)
    requires Indexes(index, lookups, node.id)
    ensures var res := ResolveSessionUser(node, session, users, index, strict);
      && (forall u :: Belongs(session, node.id, users, lookups, u) ==> res == Matched(users[u]))
      && ((forall u :: !Belongs(session, node.id, users, lookups, u)) ==> res == if strict then Excluded else Unknown)
  {
    var name := session.protocolUsername;
    if session.userId != "" {
      if session.userId in users {
        assert Belongs(session, node.id, users, lookups, session.userId);
      }
    } else {
      forall u
        ensures Find(index, node.id, name) == [u] <==> SoleAssigned(lookups, node.id, name, u)
      {
        SoleIsFound(index, lookups, node.id, name, u);
      }
      var found := Find(index, node.id, name);
      if |found| == 1 && found[0] in users {
        assert found == [found[0]];
        assert Belongs(session, node.id, users, lookups, found[0]);
      }
    }
  }

  // --------------------------------------------------------------------------------- the rows

  /** The row shows the session as the agent of the node reported it. */
  predicate Shows(row: SessionView, node: Node, session: Session) {
    && row.nodeDbId == node.id && row.nodeId == node.nodeId
    && row.nodeName == node.name && row.nodeProtocol == node.protocol
    && row.active == session.active
    && row.firstSeenAt == session.firstSeenAt && row.lastSeenAt == session.lastSeenAt
    && row.uploadBytes == session.uploadBytes && row.downloadBytes == session.downloadBytes
    && row.maskedProtocolUsername == MaskSecret(session.protocolUsername)
    && row.searchProtocolUsername == ToLower(TrimSpace(session.protocolUsername))
    && (session.clientIp.None? ==> row.clientIp == "")
    && (session.clientIp.Some? ==> row.clientIp == TrimSpace(session.clientIp.value))
  }

  predicate ShowsUser(row: SessionView, user: User) {
    && row.userKnown && row.backendUserId == user.id && row.backendUsername == user.username
    && row.backendDisplayName == user.displayName
    && row.searchBackendDisplay == if user.displayName.Some? then ToLower(TrimSpace(user.displayName.value)) else ""
  }

  predicate ShowsNobody(row: SessionView) {
    !row.userKnown && row.backendUserId == "" && row.backendUsername == "" && row.backendDisplayName.None?
  }

  /** The row shows the session and, if it belongs to a user, that user. */
  ghost predicate RowOf(row: SessionView, node: Node, session: Session, users: map<string, User>,
                        lookups: seq<SessionLookup>)
  {
    && Shows(row, node, session)
    && (forall u :: Belongs(session, node.id, users, lookups, u) ==> ShowsUser(row, users[u]))
    && ((forall u :: !Belongs(session, node.id, users, lookups, u)) ==> ShowsNobody(row))
  }

  lemma KeptOnce(node: Node, session: Session, users: map<string, User>, lookups: seq<SessionLookup>,
                 index: FallbackIndex)
    requires Indexes(index, lookups, node.id)
    ensures var rows := Kept(node, session, users, index, false);
      |rows| == 1 && RowOf(rows[0], node, session, users, lookups)
  {
    ResolvedExactly(node, session, users, lookups, index, false);
    if u :| Belongs(session, node.id, users, lookups, u) {
      forall v | Belongs(session, node.id, users, lookups, v)
        ensures v == u
      {
        BelongsToOne(session, node.id, users, lookups, u, v);
      }
    }
  }

  ghost predicate RowsOf(rows: seq<SessionView>, node: Node, sessions: seq<Session>, users: map<string, User>,
                         lookups: seq<SessionLookup>)
  {
    && |rows| == |sessions|
    && forall i :: 0 <= i < |rows| ==> RowOf(rows[i], node, sessions[i], users, lookups)
  }

  lemma OneMoreRow(rows: seq<SessionView>, more: seq<SessionView>, node: Node, init: seq<Session>, last: Session,
                   users: map<string, User>, lookups: seq<SessionLookup>)
    requires RowsOf(rows, node, init, users, lookups)
    requires |more| == 1 && RowOf(more[0], node, last, users, lookups)
    ensures RowsOf(rows + more, node, init + [last], users, lookups)
  {
  }

  /** The global page has one row for each session, in order, which shows it and the user it belongs to. */
  lemma {:induction false} GlobalRows(node: Node, sessions: seq<Session>, users: map<string, User>,
                                      lookups: seq<SessionLookup>, index: FallbackIndex)
    requires Indexes(index, lookups, node.id)
    ensures RowsOf(KeptRows(node, sessions, users, index, false), node, sessions, users, lookups)
  {
    if sessions != [] {
      var init, last := sessions[..|sessions| - 1], sessions[|sessions| - 1];
      GlobalRows(node, init, users, lookups, index);
      KeptOnce(node, last, users, lookups, index);
      OneMoreRow(KeptRows(node, init, users, index, false), Kept(node, last, users, index, false),
                 node, init, last, users, lookups);
      assert sessions == init + [last];
    }
  }

  function Known(): SessionView -> bool {
    (row: SessionView) => row.userKnown
  }

  lemma StrictSession(node: Node, session: Session, users: map<string, User>, index: FallbackIndex)
    ensures Kept(node, session, users, index, true) == Where(Kept(node, session, users, index, false), Known())
  {
    var rows := Kept(node, session, users, index, false);
    assert |rows| == 1 && Where(rows[..0], Known()) == [];
  }

  /** A strict scope keeps, in order, exactly the rows whose user is known. */
  lemma {:induction false} StrictRows(node: Node, sessions: seq<Session>, users: map<string, User>,
                                      index: FallbackIndex)
    ensures KeptRows(node, sessions, users, index, true)
         == Where(KeptRows(node, sessions, users, index, false), Known())
  {
    if sessions != [] {
      var init, last := sessions[..|sessions| - 1], sessions[|sessions| - 1];
      StrictRows(node, init, users, index);
      StrictSession(node, last, users, index);
      WhereConcat(KeptRows(node, init, users, index, false), Kept(node, last, users, index, false), Known());
    }
  }

  // ---------------------------------------------------------------------------------- the view

  /** What a node view shows besides its rows: the node itself, and why it has no rows, if it has none. */
  lemma NodeViewShows(node: Node, answer: Answer, users: map<string, User>, index: FallbackIndex, strict: bool)
    ensures var view := FetchNodeView(node, answer, users, index, strict);
      && view.nodeDbId == node.id && view.nodeId == node.nodeId && view.nodeName == node.name
      && view.nodeProtocol == node.protocol && view.nodeEnabled == node.enabled
      && (view.skippedReason != "" ==> view.sessions == [] && view.error == "" && view.warnings == [])
      && (view.skippedReason == "" ==> view.configurationIssue == "")
      && (view.skippedReason == "planned" <==> node.setup.Planned?)
      && (view.skippedReason != "" && !node.setup.Planned? ==> view.configurationIssue == view.skippedReason)
      && (node.setup.Planned? ==> view.configurationIssue == "")
      && (view.skippedReason == "" && answer.CallFailed? ==> view.error == answer.error && view.sessions == [])
      && (view.skippedReason == "" && answer.Response? ==> view.error == "" && view.warnings == answer.warnings)
  {
  }

  // ------------------------------------------------------------------------------ what is hidden

  /**
   * A masked secret gives away its length and four characters at either end, and nothing at all of a
   * secret of eight characters or less.
   */
  lemma MaskHides(a: string, b: string)
    ensures MaskSecret(a) == MaskSecret(b) <==>
      || (|a| <= 8 && |b| <= 8)
      || (|a| == |b| && |a| > 8 && a[..4] == b[..4] && a[|a| - 4..] == b[|b| - 4..])
  {
    MaskShape(a);
    MaskShape(b);
  }

  lemma MaskShape(s: string)
    ensures |MaskSecret(s)| == if |s| <= 8 then 8 else |s|
    ensures |s| > 8 ==> MaskSecret(s)[..4] == s[..4] && MaskSecret(s)[|s| - 4..] == s[|s| - 4..]
    ensures forall i :: 0 <= i < |MaskSecret(s)| && (|s| <= 8 || 4 <= i < |s| - 4) ==> MaskSecret(s)[i] == '*'
  {
  }
}
