/**
 * What a stretch of a panel's trace says afterwards: syncs that succeeded in it and what they
 * revoked, rows of users nothing else wrote, and what a query saw at some moment of it.
 */
module TraceFacts {
  import opened Prelude
  import opened Database
  import opened SyncProtocol
  import opened SyncSafety
  import opened SyncVersions
  import opened Revocation
  import opened NodeManager
  import opened ReconcileAccounts

  lemma Cut(origin: World, trace: seq<Action>, i: nat, j: nat)
    requires i <= j <= |trace|
    ensures Play(origin, trace[..j]) == Play(Play(origin, trace[..i]), trace[i..j])
  {
    assert trace[..j] == trace[..i] + trace[i..j];
    PlayConcat(origin, trace[..i], trace[i..j]);
  }

  // --------------------------------------------------------------- successful syncs

  /** The run begun at `k` is done at `m`. */
  ghost predicate SyncAt(origin: World, trace: seq<Action>, k: nat, m: nat, n: Id)
    requires k < m <= |trace|
  {
    var w, r := Play(origin, trace[..m]), |Play(origin, trace[..k]).runs|;
    trace[k] == Begin(n, false) && r < |w.runs| && w.runs[r].pc.Done?
  }

  /** Since position `from`, a sync of the node began and succeeded. */
  ghost predicate SyncedSince(origin: World, trace: seq<Action>, from: nat, n: Id) {
    exists k, m :: from <= k < m <= |trace| && SyncAt(origin, trace, k, m, n)
  }

  lemma SyncedStays(origin: World, t: seq<Action>, t': seq<Action>, from: nat, from': nat, n: Id)
    requires SyncedSince(origin, t, from, n) && t <= t' && from' <= from
    ensures SyncedSince(origin, t', from', n)
  {
    var k, m :| from <= k < m <= |t| && SyncAt(origin, t, k, m, n);
    assert t'[..k] == t[..k] && t'[..m] == t[..m];
    assert SyncAt(origin, t', k, m, n);
  }

  /** A call of SyncNode that succeeded is a successful sync since the trace was `t`. */
  lemma CallSyncs(p: Panel, t: seq<Action>, r: nat, n: Id)
    requires p.Valid() && t <= p.trace && |t| < |p.trace| && p.trace[|t|] == Begin(n, false)
    requires r == |Play(p.origin, t).runs| && r < |p.runs| && p.runs[r].pc.Done?
    ensures SyncedSince(p.origin, p.trace, |t|, n)
  {
    assert p.trace[..|t|] == t && p.trace[..|p.trace|] == p.trace;
    assert SyncAt(p.origin, p.trace, |t|, |p.trace|, n);
  }

  lemma CalmSlice(trace: seq<Action>, from: nat, i: nat, j: nat, u: Id, time: int)
    requires from <= i <= j <= |trace| && AllCalm(trace[from..], u, time)
    ensures AllCalm(trace[i..j], u, time)
  {
    forall l | 0 <= l < |trace[i..j]|
      ensures Calm(trace[i..j][l], u, time)
    {
      assert trace[i..j][l] == trace[from..][i + l - from];
    }
  }

  /** Nothing in flight can bring the user back, and none of the actions moves the expiry beyond `time`. */
  ghost predicate Revocable(w: World, acts: seq<Action>, u: Id, n: Id, time: int) {
    AllCalm(acts, u, time) && Settled(w, u, n, Ceiling(w, n), time)
  }

  lemma SettledUntil(origin: World, trace: seq<Action>, from: nat, k: nat, u: Id, n: Id, time: int)
    requires Start(origin) && from <= k <= |trace|
    requires Revocable(Play(origin, trace[..from]), trace[from..], u, n, time)
    ensures var w := Play(origin, trace[..k]);
      Reachable(w) && Settled(w, u, n, Ceiling(w, n), time)
  {
    var w0, w := Play(origin, trace[..from]), Play(origin, trace[..k]);
    StartIsReachable(origin);
    PlayKeepsReachable(origin, trace[..from]);
    PlayKeepsReachable(origin, trace[..k]);
    Cut(origin, trace, from, k);
    CalmSlice(trace, from, from, k, u, time);
    SettledForever(w0, trace[from..k], u, n, Ceiling(w0, n), time);
    SettledAbove(w, u, n, Ceiling(w0, n), Ceiling(w, n), time);
  }

  lemma FromBegin(origin: World, trace: seq<Action>, k: nat, m: nat, a: Action)
    requires k < m <= |trace| && trace[k] == a
    ensures Play(origin, trace[..m]) == Play(Exec(Play(origin, trace[..k]), a), trace[k + 1..m])
  {
    Cut(origin, trace, k, k + 1);
    Cut(origin, trace, k + 1, m);
    assert trace[k..k + 1] == [a];
    PlayOne(Play(origin, trace[..k]), a);
  }

  lemma CleanWhenDone(origin: World, trace: seq<Action>, from: nat, k: nat, m: nat, u: Id, n: Id, time: int)
    requires Start(origin) && from <= k < m <= |trace| && SyncAt(origin, trace, k, m, n)
    requires Revocable(Play(origin, trace[..from]), trace[from..], u, n, time)
    ensures Clean(Play(origin, trace[..m]), u, n, time)
  {
    SettledUntil(origin, trace, from, k, u, n, time);
    FromBegin(origin, trace, k, m, Begin(n, false));
    CalmSlice(trace, from, k + 1, m, u, time);
    SyncRevokes(Play(origin, trace[..k]), trace[k + 1..m], u, n, time);
  }

  /** A sync since `from` that succeeded leaves the user gone from the agent for good. */
  lemma SyncedIsClean(origin: World, trace: seq<Action>, from: nat, u: Id, n: Id, time: int)
    requires Start(origin) && from <= |trace| && SyncedSince(origin, trace, from, n)
    requires Revocable(Play(origin, trace[..from]), trace[from..], u, n, time)
    ensures Clean(Play(origin, trace), u, n, time)
  {
    var k, m :| from <= k < m <= |trace| && SyncAt(origin, trace, k, m, n);
    CleanWhenDone(origin, trace, from, k, m, u, n, time);
    SettledUntil(origin, trace, from, m, u, n, time);
    CalmSlice(trace, from, m, |trace|, u, time);
    Cut(origin, trace, m, |trace|);
    assert trace[..|trace|] == trace;
    CleanForever(Play(origin, trace[..m]), trace[m..|trace|], u, n, time);
  }

  // ------------------------------------------------------------------- rows of users

  predicate TouchesUser(a: Action, u: Id) {
    a.Edit? && match a.edit
               case CreateUser(v, _, _, _) => v == u
               case UpdateUser(v, _, _, _) => v == u
               case SetUserEnabled(v, _) => v == u
               case DeleteUser(v) => v == u
               case MarkExpirySynced(v) => v == u
               case _ => false
  }

  /** No turn taken from `from` up to `to` schedules a write of the user's row. */
  ghost predicate LeavesUser(plan: nat -> Turn, from: nat, to: nat, u: Id) {
    forall k: nat, a :: from <= k < to && a in plan(k).before ==> !TouchesUser(a, u)
  }

  ghost predicate SameRow(db: Db, db': Db, u: Id) {
    (u in db.users <==> u in db'.users) && (u in db.users ==> db'.users[u] == db.users[u])
  }

  lemma RowLeftAloneOnce(w: World, a: Action, u: Id)
    requires !TouchesUser(a, u)
    ensures SameRow(w.db, Exec(w, a).db, u)
  {
    if a.Advance? && a.run < |w.runs| {
      assert DbAfter(w.db, w.runs[a.run], a.choice).users == w.db.users;
    }
  }

  lemma {:induction false} RowLeftAlone(w: World, acts: seq<Action>, u: Id)
    requires forall i :: 0 <= i < |acts| ==> !TouchesUser(acts[i], u)
    ensures SameRow(w.db, Play(w, acts).db, u) && w.db.now <= Play(w, acts).db.now
  {
    if acts != [] {
      var init, a := acts[..|acts| - 1], acts[|acts| - 1];
      RowLeftAlone(w, init, u);
      ExecGrows(Play(w, init), a);
      RowLeftAloneOnce(Play(w, init), a, u);
    }
  }

  lemma RowKept(p: Panel, t: seq<Action>, from: nat, u: Id)
    requires p.Valid() && p.Grown(t, from) && LeavesUser(p.plan, from, p.turns, u)
    ensures SameRow(Play(p.origin, t).db, p.db, u) && Play(p.origin, t).db.now <= p.db.now
  {
    var acts := p.trace[|t|..];
    assert p.trace == t + acts;
    PlayConcat(p.origin, t, acts);
    forall i | 0 <= i < |acts|
      ensures !TouchesUser(acts[i], u)
    {
      assert acts[i] == p.trace[|t| + i];
    }
    RowLeftAlone(Play(p.origin, t), acts, u);
  }

  /** A stored mark sets `syncedAt` to some moment of the run; without one the row is as before. */
  ghost predicate RowMarked(db: Db, db': Db, marks: seq<Mark>, u: Id) {
    && (u in db.users <==> u in db'.users) && db.now <= db'.now
    && (u in db.users ==>
          if db.users[u].live && MarkStored(marks, u)
          then db'.users[u].syncedAt.Some? && db.now <= db'.users[u].syncedAt.value <= db'.now
            && db'.users[u] == db.users[u].(syncedAt := db'.users[u].syncedAt)
          else db'.users[u] == db.users[u])
  }

  lemma MarksAdded(marks: seq<Mark>, more: seq<Mark>, u: Id)
    ensures MarkStored(marks + more, u) <==> MarkStored(marks, u) || MarkStored(more, u)
  {
    var all := marks + more;
    if i :| 0 <= i < |marks| && marks[i].user == u && marks[i].outcome != RolledBack {
      assert all[i] == marks[i];
    }
    if i :| 0 <= i < |more| && more[i].user == u && more[i].outcome != RolledBack {
      assert all[|marks| + i] == more[i];
    }
    if i :| 0 <= i < |all| && all[i].user == u && all[i].outcome != RolledBack {
      if i < |marks| { assert marks[i] == all[i]; } else { assert more[i - |marks|] == all[i]; }
    }
  }

  lemma RowMarkedThen(db: Db, db1: Db, db2: Db, marks: seq<Mark>, more: seq<Mark>, u: Id)
    requires RowMarked(db, db1, marks, u) && RowMarked(db1, db2, more, u)
    ensures RowMarked(db, db2, marks + more, u)
  {
    MarksAdded(marks, more, u);
  }

  /** The marks account for every change of a row that nothing scheduled writes. */
  ghost predicate RowsMarked(plan: nat -> Turn, from: nat, to: nat, db: Db, db': Db, marks: seq<Mark>) {
    forall u :: LeavesUser(plan, from, to, u) ==> RowMarked(db, db', marks, u)
  }

  lemma RowsMarkedThen(plan: nat -> Turn, t0: nat, t1: nat, t2: nat, db: Db, db1: Db, db2: Db,
                       marks: seq<Mark>, more: seq<Mark>)
    requires t0 <= t1 <= t2 && RowsMarked(plan, t0, t1, db, db1, marks) && RowsMarked(plan, t1, t2, db1, db2, more)
    ensures RowsMarked(plan, t0, t2, db, db2, marks + more)
  {
    forall u | LeavesUser(plan, t0, t2, u)
      ensures RowMarked(db, db2, marks + more, u)
    {
      assert LeavesUser(plan, t0, t1, u) && LeavesUser(plan, t1, t2, u);
      RowMarkedThen(db, db1, db2, marks, more, u);
    }
  }

  lemma RowsKept(p: Panel, t: seq<Action>, from: nat)
    requires p.Valid() && p.Grown(t, from)
    ensures RowsMarked(p.plan, from, p.turns, Play(p.origin, t).db, p.db, [])
  {
    forall u | LeavesUser(p.plan, from, p.turns, u)
      ensures RowMarked(Play(p.origin, t).db, p.db, [], u)
    {
      RowKept(p, t, from, u);
    }
  }

  // ----------------------------------------------------------------- what a mark lasts

  predicate MarkedAt(db: Db, u: Id, mark: int) {
    u in db.users && db.users[u].syncedAt.Some? && mark <= db.users[u].syncedAt.value <= db.now
  }

  lemma EditKeepsMark(db: Db, e: Edit, u: Id, mark: int)
    requires MarkedAt(db, u, mark)
    ensures MarkedAt(Edited(db, e), u, mark)
  {
  }

  lemma ExecKeepsMark(w: World, a: Action, u: Id, mark: int)
    requires MarkedAt(w.db, u, mark)
    ensures MarkedAt(Exec(w, a).db, u, mark)
  {
    if a.Edit? {
      EditKeepsMark(w.db, a.edit, u, mark);
    } else {
      RowLeftAloneOnce(w, a, u);
      ExecGrows(w, a);
    }
  }

  /**
   * A stored mark stands for the expiry it was made for: over every later interleaving the user
   * becomes pending again only once `expires_at` was moved beyond the mark and that time has come.
   */
  lemma {:induction false} MarkOutlastsItsExpiry(w: World, acts: seq<Action>, u: Id, mark: int)
    requires MarkedAt(w.db, u, mark)
    ensures MarkedAt(Play(w, acts).db, u, mark)
    ensures Pending(Play(w, acts).db, u) ==> mark < Play(w, acts).db.users[u].expiresAt.value <= Play(w, acts).db.now
  {
    if acts != [] {
      MarkOutlastsItsExpiry(w, acts[..|acts| - 1], u, mark);
      ExecKeepsMark(Play(w, acts[..|acts| - 1]), acts[|acts| - 1], u, mark);
    }
  }

  // ------------------------------------------------------------------ what queries saw

  ghost predicate SawAt(origin: World, trace: seq<Action>, k: nat, l: Lookup)
    requires k <= |trace| && l.nodes.Some?
  {
    forall n :: n in l.nodes.value <==> n in EnabledNodes(Play(origin, trace[..k]).db, l.user)
  }

  /** At some moment since `from`, the lookup saw exactly the user's enabled, reachable nodes. */
  ghost predicate SeenSince(origin: World, trace: seq<Action>, from: nat, l: Lookup) {
    l.nodes.Some? ==>
      && Ascending(l.nodes.value)
      && exists k :: from <= k <= |trace| && SawAt(origin, trace, k, l)
  }

  ghost predicate AllSeenSince(origin: World, trace: seq<Action>, from: nat, lookups: seq<Lookup>) {
    forall i :: 0 <= i < |lookups| ==> SeenSince(origin, trace, from, lookups[i])
  }

  lemma SeenStays(origin: World, t: seq<Action>, t': seq<Action>, from: nat, from': nat, l: Lookup)
    requires SeenSince(origin, t, from, l) && t <= t' && from' <= from
    ensures SeenSince(origin, t', from', l)
  {
    if l.nodes.Some? {
      var k :| from <= k <= |t| && SawAt(origin, t, k, l);
      assert t'[..k] == t[..k];
      assert SawAt(origin, t', k, l);
    }
  }

  lemma AllSeenStay(origin: World, t: seq<Action>, t': seq<Action>, from: nat, from': nat, lookups: seq<Lookup>)
    requires AllSeenSince(origin, t, from, lookups) && t <= t' && from' <= from
    ensures AllSeenSince(origin, t', from', lookups)
  {
    forall i | 0 <= i < |lookups|
      ensures SeenSince(origin, t', from', lookups[i])
    {
      SeenStays(origin, t, t', from, from', lookups[i]);
    }
  }

  lemma SeenJustNow(p: Panel, from: nat, l: Lookup)
    requires p.Valid() && from <= |p.trace|
    requires l.nodes.Some? ==>
      Ascending(l.nodes.value) && forall n :: n in l.nodes.value <==> n in EnabledNodes(p.db, l.user)
    ensures SeenSince(p.origin, p.trace, from, l)
  {
    assert p.trace[..|p.trace|] == p.trace;
    assert l.nodes.Some? ==> SawAt(p.origin, p.trace, |p.trace|, l);
  }

  /** The lookups made until `t`, and one that has just been made. */
  lemma SeenWithNew(p: Panel, t: seq<Action>, from: nat, lookups: seq<Lookup>, l: Lookup)
    requires p.Valid() && from <= |t| && t <= p.trace && AllSeenSince(p.origin, t, from, lookups)
    requires l.nodes.Some? ==>
      Ascending(l.nodes.value) && forall n :: n in l.nodes.value <==> n in EnabledNodes(p.db, l.user)
    ensures AllSeenSince(p.origin, p.trace, from, lookups + [l])
  {
    AllSeenStay(p.origin, t, p.trace, from, from, lookups);
    SeenJustNow(p, from, l);
  }

  ghost predicate ListedAt(origin: World, trace: seq<Action>, k: nat, rows: seq<Candidate>)
    requires k <= |trace|
  {
    Listing(rows, Play(origin, trace[..k]).db)
  }

  /** At some moment since `from`, the query listed exactly the pending users. */
  ghost predicate ListedSince(origin: World, trace: seq<Action>, from: nat, rows: seq<Candidate>) {
    exists k :: from <= k <= |trace| && ListedAt(origin, trace, k, rows)
  }

  lemma ListedStays(origin: World, t: seq<Action>, t': seq<Action>, from: nat, rows: seq<Candidate>)
    requires from <= |t| && t <= t' && Listing(rows, Play(origin, t).db)
    ensures ListedSince(origin, t', from, rows)
  {
    assert t'[..|t|] == t;
    assert ListedAt(origin, t', |t|, rows);
  }

  /** A listed user whose row nothing scheduled writes was listed with the row of `db`. */
  ghost predicate RowsAsIn(plan: nat -> Turn, from: nat, to: nat, db: Db, rows: seq<Candidate>) {
    forall i :: 0 <= i < |rows| && LeavesUser(plan, from, to, rows[i].id) ==>
      rows[i].id in db.users && rows[i].row == db.users[rows[i].id]
  }
}
