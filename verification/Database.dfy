/**
 * The panel's tables and the SQL statements that change or select their rows.
 *
 * Every statement is one atomic step.  A deleted row stays as a tombstone
 * (`live == false`), which is how the model says that `gen_random_uuid()`
 * never hands out a key twice.
 */
module Database {
  import opened Prelude

  type Id = string

  datatype SetupState = Planned | Connected | Unreachable | Disabled

  /** The texts stored in `last_status`; any other text an agent may send is `Other`. */
  datatype Status =
    NoStatus | OkStatus | ErrorStatus | HttpError | DecodeError | ApplyFailed | StaleVersion | Other(text: string)

  datatype NodeRow = NodeRow(
    live: bool, agentId: string, name: string, apiUrl: string, protocol: string,
    enabled: bool, setup: SetupState, status: Status, desired: int, applied: int)

  datatype UserRow = UserRow(
    live: bool, enabled: bool, expiresAt: Option<int>, syncedAt: Option<int>, quota: int)

  datatype AccessRow = AccessRow(protocol: string, username: string, password: string, enabled: bool)

  datatype Event = Event(node: Id, version: int, status: Status)

  datatype Db = Db(
    now: int,
    users: map<Id, UserRow>,
    nodes: map<Id, NodeRow>,
    access: map<(Id, Id), AccessRow>,   // keyed (user, node): unique(user_id, node_id)
    events: seq<Event>)

  predicate UserLive(db: Db, u: Id) {
    u in db.users && db.users[u].live
  }

  predicate NodeLive(db: Db, n: Id) {
    n in db.nodes && db.nodes[n].live
  }

  // ---------------------------------------------------------------- node rows

  /** SyncRemoteState: both counters only go up. */
  function Realigned(row: NodeRow, current: int, applied: int): NodeRow {
    var remote := if applied <= 0 then current else applied;
    row.(desired := Max(row.desired, current), applied := Max(row.applied, remote),
         status := OkStatus, setup := Connected)
  }

  function Bumped(row: NodeRow): NodeRow {
    row.(desired := row.desired + 1)
  }

  function StatusMarked(row: NodeRow, status: Status): NodeRow {
    row.(status := status, setup := if status.OkStatus? then Connected else row.setup)
  }

  /** MarkSyncSuccess overwrites the applied version, without `greatest`. */
  function SuccessMarked(row: NodeRow, version: int): NodeRow {
    row.(applied := version, status := OkStatus, setup := Connected)
  }

  function FailureMarked(row: NodeRow, status: Status): NodeRow {
    row.(status := status, setup := if status.HttpError? then Unreachable else row.setup)
  }

  // --------------------------------------------------------------- selections

  /** What one payload says about one user. */
  datatype Grant = Grant(username: string, password: string, expiresAt: Option<int>, quota: int)

  predicate Active(db: Db, u: Id, n: Id) {
    && UserLive(db, u)
    && (u, n) in db.access && db.access[(u, n)].enabled
    && db.users[u].enabled
    && (db.users[u].expiresAt.None? || db.users[u].expiresAt.value > db.now)
  }

  /** ActiveAccessForNode, without its `order by`. */
  function ActiveAccess(db: Db, n: Id): map<Id, Grant> {
    map u | u in db.users && Active(db, u, n) ::
      Grant(db.access[(u, n)].username, db.access[(u, n)].password,
            db.users[u].expiresAt, db.users[u].quota)
  }

  /** activeNodeIDsForExpiredUserQuery, before its `order by`. */
  function EnabledNodes(db: Db, u: Id): set<Id> {
    set n | n in db.nodes && db.nodes[n].live && db.nodes[n].apiUrl != ""
            && (u, n) in db.access && db.access[(u, n)].enabled
  }

  /** The Go test on a fetched row, `needsExpirySync`. */
  predicate NeedsExpirySync(row: UserRow, now: int) {
    if !row.enabled || row.expiresAt.None? then false
    else if row.expiresAt.value > now then false
    else if row.syncedAt.None? then true
    else row.syncedAt.value < row.expiresAt.value
  }

  /** The `where` clause of UsersPendingExpiryReconcile. */
  predicate Pending(db: Db, u: Id) {
    && UserLive(db, u)
    && var row := db.users[u];
    && row.enabled
    && row.expiresAt.Some?
    && row.expiresAt.value <= db.now
    && (row.syncedAt.None? || row.syncedAt.value < row.expiresAt.value)
  }

  // -------------------------------------------------------------------- edits

  datatype Edit =
    | Tick(delta: nat)
    | CreateUser(user: Id, enabled: bool, expiresAt: Option<int>, quota: int)
    | UpdateUser(user: Id, enabled: bool, expiresAt: Option<int>, quota: int)
    | SetUserEnabled(user: Id, enabled: bool)
    | DeleteUser(user: Id)
    | AssignNode(user: Id, node: Id, protocol: string, username: string, password: string)
    | UnassignNode(user: Id, node: Id)
    | SetAccessEnabled(user: Id, node: Id, enabled: bool)
    | CreateNode(node: Id, row: NodeRow)
    | UpdateNode(node: Id, agentId: string, name: string, apiUrl: string, protocol: string, enabled: bool)
    | DeleteNode(node: Id)
    | MarkExpirySynced(user: Id)

  /** The check constraint on both `protocol_type` columns. */
  predicate KnownProtocol(protocol: string) {
    protocol == "naive" || protocol == "mieru"
  }

  predicate AgentIdFree(db: Db, agentId: string, n: Id) {
    forall m :: m in db.nodes && m != n && db.nodes[m].live ==> db.nodes[m].agentId != agentId
  }

  /** Trigger enforce_access_protocol. */
  predicate AccessProtocolOk(db: Db, n: Id, protocol: string) {
    NodeLive(db, n) && db.nodes[n].protocol == protocol
  }

  predicate HasAccess(db: Db, n: Id) {
    exists key :: key in db.access && key.1 == n
  }

  /** Trigger prevent_node_protocol_change_with_access. */
  predicate ProtocolChangeOk(db: Db, n: Id, protocol: string)
    requires n in db.nodes
  {
    db.nodes[n].protocol == protocol || !HasAccess(db, n)
  }

  function WithUser(db: Db, u: Id, row: UserRow): Db {
    db.(users := db.users[u := row])
  }

  function WithNode(db: Db, n: Id, row: NodeRow): Db {
    db.(nodes := db.nodes[n := row])
  }

  /** A statement whose constraint or trigger raises leaves the tables as they were. */
  function Edited(db: Db, e: Edit): Db {
    match e
    case Tick(delta) => db.(now := db.now + delta)
    case CreateUser(u, enabled, expiresAt, quota) =>
      if u in db.users then db
      else WithUser(db, u, UserRow(true, enabled, expiresAt, None, quota))
    case UpdateUser(u, enabled, expiresAt, quota) =>
      if !UserLive(db, u) then db
      else WithUser(db, u, db.users[u].(enabled := enabled, expiresAt := expiresAt, quota := quota))
    case SetUserEnabled(u, enabled) =>
      if !UserLive(db, u) then db else WithUser(db, u, db.users[u].(enabled := enabled))
    case DeleteUser(u) =>
      if !UserLive(db, u) then db
      else WithUser(db, u, db.users[u].(live := false)).(
        access := map key | key in db.access && key.0 != u :: db.access[key])
    case AssignNode(u, n, protocol, username, password) =>
      if !UserLive(db, u) || !KnownProtocol(protocol) || !AccessProtocolOk(db, n, protocol) then db
      else db.(access := db.access[(u, n) := AccessRow(protocol, username, password, true)])
    case UnassignNode(u, n) =>
      db.(access := db.access - {(u, n)})
    case SetAccessEnabled(u, n, enabled) =>
      if (u, n) !in db.access || !AccessProtocolOk(db, n, db.access[(u, n)].protocol) then db
      else db.(access := db.access[(u, n) := db.access[(u, n)].(enabled := enabled)])
    case CreateNode(n, row) =>
      if n == "" || n in db.nodes || !KnownProtocol(row.protocol) || !AgentIdFree(db, row.agentId, n) then db
      else WithNode(db, n, row.(live := true, desired := 0, applied := 0))
    case UpdateNode(n, agentId, name, apiUrl, protocol, enabled) =>
      if !NodeLive(db, n) || !KnownProtocol(protocol) || !AgentIdFree(db, agentId, n)
         || !ProtocolChangeOk(db, n, protocol) then db
      else
        var row := db.nodes[n];
        var setup := if !enabled then Disabled else if row.setup.Disabled? then Planned else row.setup;
        WithNode(db, n, row.(agentId := agentId, name := name, apiUrl := apiUrl, protocol := protocol,
                             enabled := enabled, setup := setup))
    case DeleteNode(n) =>
      if !NodeLive(db, n) then db
      else WithNode(db, n, db.nodes[n].(live := false)).(
        access := map key | key in db.access && key.1 != n :: db.access[key],
        events := EventsOfOthers(db.events, n))
    case MarkExpirySynced(u) =>
      if !UserLive(db, u) then db else WithUser(db, u, db.users[u].(syncedAt := Some(db.now)))
  }

  /** `on delete cascade` on node_sync_events. */
  function EventsOfOthers(events: seq<Event>, n: Id): seq<Event> {
    if events == [] then []
    else
      var rest := EventsOfOthers(events[..|events| - 1], n);
      if events[|events| - 1].node == n then rest else rest + [events[|events| - 1]]
  }

  // ------------------------------------------------- what the triggers maintain

  ghost predicate ProtocolsAgree(db: Db) {
    && (forall n :: NodeLive(db, n) ==> KnownProtocol(db.nodes[n].protocol))
    && (forall u, n :: (u, n) in db.access ==>
          UserLive(db, u) && NodeLive(db, n) && db.access[(u, n)].protocol == db.nodes[n].protocol)
    && (forall m, n :: NodeLive(db, m) && NodeLive(db, n) && m != n ==>
          db.nodes[m].agentId != db.nodes[n].agentId)
    && "" !in db.nodes
  }

  lemma NodeUpdateKeepsProtocols(db: Db, e: Edit)
    requires ProtocolsAgree(db) && e.UpdateNode?
    ensures ProtocolsAgree(Edited(db, e))
  {
    if Edited(db, e) != db {
      forall u | (u, e.node) in db.access
        ensures db.access[(u, e.node)].protocol == e.protocol
      {
        assert (u, e.node).1 == e.node;
      }
    }
  }

  lemma UserDeleteKeepsProtocols(db: Db, u: Id)
    requires ProtocolsAgree(db)
    ensures ProtocolsAgree(Edited(db, DeleteUser(u)))
  {
  }

  lemma NodeDeleteKeepsProtocols(db: Db, n: Id)
    requires ProtocolsAgree(db)
    ensures ProtocolsAgree(Edited(db, DeleteNode(n)))
  {
  }

  /** The triggers and constraints keep every assignment's protocol that of its node, whatever is edited. */
  lemma EditKeepsProtocols(db: Db, e: Edit)
    requires ProtocolsAgree(db)
    ensures ProtocolsAgree(Edited(db, e))
  {
    if e.UpdateNode? {
      NodeUpdateKeepsProtocols(db, e);
    } else if e.DeleteUser? {
      UserDeleteKeepsProtocols(db, e.user);
    } else if e.DeleteNode? {
      NodeDeleteKeepsProtocols(db, e.node);
    }
  }

  /** Without the guard on node updates the invariant would fail: the guard is needed exactly when access exists. */
  lemma ProtocolGuardIsExact(db: Db, n: Id, protocol: string)
    requires ProtocolsAgree(db) && NodeLive(db, n) && KnownProtocol(protocol)
    ensures ProtocolsAgree(WithNode(db, n, db.nodes[n].(protocol := protocol))) <==> ProtocolChangeOk(db, n, protocol)
  {
    var db' := WithNode(db, n, db.nodes[n].(protocol := protocol));
    if !ProtocolChangeOk(db, n, protocol) {
      var key :| key in db.access && key.1 == n;
      assert (key.0, n) in db'.access;
    } else {
      forall u, m | (u, m) in db'.access
        ensures UserLive(db', u) && NodeLive(db', m) && db'.access[(u, m)].protocol == db'.nodes[m].protocol
      {
        assert (u, m).1 == m;
      }
    }
  }

  lemma UpdateStored(db: Db, n: Id, agentId: string, name: string, apiUrl: string, protocol: string, enabled: bool)
    requires NodeLive(db, n) && KnownProtocol(protocol) && AgentIdFree(db, agentId, n)
    requires ProtocolChangeOk(db, n, protocol)
    ensures var row, db' := db.nodes[n], Edited(db, UpdateNode(n, agentId, name, apiUrl, protocol, enabled));
      && n in db'.nodes
      && db' == WithNode(db, n, db'.nodes[n])
      && db'.nodes[n] == row.(agentId := agentId, name := name, apiUrl := apiUrl, protocol := protocol,
                              enabled := enabled, setup := db'.nodes[n].setup)
      && (!enabled ==> db'.nodes[n].setup == Disabled)
      && (enabled ==> db'.nodes[n].setup == if row.setup.Disabled? then Planned else row.setup)
  {
  }

  lemma OldFieldsFit(db: Db, n: Id, row: NodeRow)
    requires ProtocolsAgree(db) && NodeLive(db, n) && row.live
    requires ProtocolChangeOk(db, n, row.protocol)
    ensures var was, db' := db.nodes[n], WithNode(db, n, row);
      && KnownProtocol(was.protocol) && AgentIdFree(db', was.agentId, n) && ProtocolChangeOk(db', n, was.protocol)
  {
    assert forall key :: key in WithNode(db, n, row).access <==> key in db.access;
  }

  /**
   * A stored update of a node and its undoing: everything is as before, but a node that was switched off
   * in between, or that was marked disabled, comes back as planned.
   */
  lemma UpdateAndBack(db: Db, n: Id, agentId: string, name: string, apiUrl: string, protocol: string, enabled: bool)
    requires ProtocolsAgree(db) && NodeLive(db, n)
    requires KnownProtocol(protocol) && AgentIdFree(db, agentId, n) && ProtocolChangeOk(db, n, protocol)
    ensures var row := db.nodes[n];
      var db1 := Edited(db, UpdateNode(n, agentId, name, apiUrl, protocol, enabled));
      var db2 := Edited(db1, UpdateNode(n, row.agentId, row.name, row.apiUrl, row.protocol, row.enabled));
      && n in db2.nodes && db2 == WithNode(db, n, row.(setup := db2.nodes[n].setup))
      && (!row.enabled ==> db2.nodes[n].setup == Disabled)
      && (row.enabled ==> db2.nodes[n].setup == if enabled && !row.setup.Disabled? then row.setup else Planned)
  {
    var row, db1 := db.nodes[n], Edited(db, UpdateNode(n, agentId, name, apiUrl, protocol, enabled));
    UpdateStored(db, n, agentId, name, apiUrl, protocol, enabled);
    OldFieldsFit(db, n, db1.nodes[n]);
    UpdateStored(db1, n, row.agentId, row.name, row.apiUrl, row.protocol, row.enabled);
  }

  lemma SqlFilterAgreesWithGo(db: Db, u: Id)
    requires UserLive(db, u)
    ensures Pending(db, u) <==> NeedsExpirySync(db.users[u], db.now)
  {
  }
}
