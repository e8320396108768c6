/**
 * When overlapping syncs lower the applied version: a statement about the stretch between a run's
 * bump and its mark.
 */
module SyncOverlap {
  import opened Database
  import opened SyncProtocol
  import opened SyncSafety
  import opened SyncVersions

  /** The action is a stored statement of some run at the node. */
  predicate StoredAt(w: World, a: Action, n: Id) {
    && a.Advance? && a.run < |w.runs| && w.runs[a.run].node == n
    && NodeLive(w.db, n) && a.choice.db != RolledBack
  }

  /** The action records a version above `v` as applied: by a mark, or by realigning with the agent. */
  predicate RecordsNewer(w: World, a: Action, n: Id, v: int) {
    && StoredAt(w, a, n)
    && match w.runs[a.run].pc
       case Succeeding(version) => version > v
       case Realigning(current, applied) => RemoteApplied(current, applied) > v
       case RetryRealigning(_, _, current, applied) => RemoteApplied(current, applied) > v
       case _ => false
  }

  /** The action stores a mark that is not above `v`. */
  predicate MarksNoNewer(w: World, a: Action, n: Id, v: int) {
    StoredAt(w, a, n) && w.runs[a.run].pc.Succeeding? && w.runs[a.run].pc.version <= v
  }

  lemma RowAfterAbove(pc: Pc, row: NodeRow, v: int)
    ensures RowAfter(pc, row).applied > v <==>
      (match pc
       case Succeeding(version) => version > v
       case Realigning(current, applied) => RemoteApplied(current, applied) > v || row.applied > v
       case RetryRealigning(_, _, current, applied) => RemoteApplied(current, applied) > v || row.applied > v
       case _ => row.applied > v)
  {
  }

  lemma StoredStepAbove(w: World, a: Action, n: Id, v: int)
    requires StoredAt(w, a, n)
    ensures n in Exec(w, a).db.nodes
    ensures Exec(w, a).db.nodes[n].applied > v <==>
            RecordsNewer(w, a, n, v) || (w.db.nodes[n].applied > v && !MarksNoNewer(w, a, n, v))
  {
    var run := w.runs[a.run];
    assert DbAfter(w.db, run, a.choice).nodes[n] == RowAfter(run.pc, w.db.nodes[n]);
    RowAfterAbove(run.pc, w.db.nodes[n], v);
  }

  lemma OtherStepKeepsApplied(w: World, a: Action, n: Id)
    requires n in w.db.nodes && !StoredAt(w, a, n)
    ensures n in Exec(w, a).db.nodes && Exec(w, a).db.nodes[n].applied == w.db.nodes[n].applied
  {
    if a.Edit? {
      EditKeepsApplied(w.db, a.edit, n);
    }
  }

  lemma StepAbove(w: World, a: Action, n: Id, v: int)
    requires n in w.db.nodes
    ensures n in Exec(w, a).db.nodes
    ensures Exec(w, a).db.nodes[n].applied > v <==>
            RecordsNewer(w, a, n, v) || (w.db.nodes[n].applied > v && !MarksNoNewer(w, a, n, v))
  {
    if StoredAt(w, a, n) {
      StoredStepAbove(w, a, n, v);
    } else {
      OtherStepKeepsApplied(w, a, n);
    }
  }

  /** Which actions of a stretch record a newer version, and which take such a record back. */
  ghost function Newer(w: World, acts: seq<Action>, n: Id, v: int): seq<bool> {
    seq(|acts|, k requires 0 <= k < |acts| => RecordsNewer(Play(w, acts[..k]), acts[k], n, v))
  }

  ghost function TakenBack(w: World, acts: seq<Action>, n: Id, v: int): seq<bool> {
    seq(|acts|, k requires 0 <= k < |acts| => MarksNoNewer(Play(w, acts[..k]), acts[k], n, v))
  }

  /** Some entry is set and no later one is taken back. */
  predicate Stands(newer: seq<bool>, back: seq<bool>)
    requires |newer| == |back|
  {
    exists k :: 0 <= k < |newer| && newer[k] && forall l :: k < l < |back| ==> !back[l]
  }

  /** Somewhere in the stretch a newer version is recorded, and no mark after it takes that back. */
  ghost predicate NewerStands(w: World, acts: seq<Action>, n: Id, v: int) {
    Stands(Newer(w, acts, n, v), TakenBack(w, acts, n, v))
  }

  lemma StandsOnward(newer: seq<bool>, back: seq<bool>, x: bool, y: bool)
    requires |newer| == |back|
    ensures Stands(newer + [x], back + [y]) <==> x || (Stands(newer, back) && !y)
  {
    var newer', back' := newer + [x], back + [y];
    assert newer'[|newer|] == x && back'[|back|] == y;
    if Stands(newer', back') {
      var k :| 0 <= k < |newer'| && newer'[k] && forall l :: k < l < |back'| ==> !back'[l];
      if k < |newer| {
        assert newer[k] && forall l :: k < l < |back| ==> back[l] == back'[l];
      }
    }
    if Stands(newer, back) && !y {
      var k :| 0 <= k < |newer| && newer[k] && forall l :: k < l < |back| ==> !back[l];
      assert newer'[k] && forall l :: k < l < |back| ==> back'[l] == back[l];
    }
  }

  lemma StandsOneMore(w: World, init: seq<Action>, a: Action, n: Id, v: int)
    ensures NewerStands(w, init + [a], n, v) <==>
      RecordsNewer(Play(w, init), a, n, v) || (NewerStands(w, init, n, v) && !MarksNoNewer(Play(w, init), a, n, v))
  {
    var acts := init + [a];
    assert acts[..|init|] == init;
    forall k | 0 <= k < |init|
      ensures acts[..k] == init[..k] && acts[k] == init[k]
    {
    }
    assert Newer(w, acts, n, v) == Newer(w, init, n, v) + [RecordsNewer(Play(w, init), a, n, v)];
    assert TakenBack(w, acts, n, v) == TakenBack(w, init, n, v) + [MarksNoNewer(Play(w, init), a, n, v)];
    StandsOnward(Newer(w, init, n, v), TakenBack(w, init, n, v),
                 RecordsNewer(Play(w, init), a, n, v), MarksNoNewer(Play(w, init), a, n, v));
  }

  /** No mark of the stretch takes a record above `v` back. */
  ghost predicate NoneTakenBack(w: World, acts: seq<Action>, n: Id, v: int) {
    forall k :: 0 <= k < |acts| ==> !TakenBack(w, acts, n, v)[k]
  }

  lemma NoneTakenBackOneMore(w: World, init: seq<Action>, a: Action, n: Id, v: int)
    ensures NoneTakenBack(w, init + [a], n, v) <==>
      NoneTakenBack(w, init, n, v) && !MarksNoNewer(Play(w, init), a, n, v)
  {
    var acts := init + [a];
    assert acts[..|init|] == init;
    forall k | 0 <= k < |init|
      ensures TakenBack(w, acts, n, v)[k] == TakenBack(w, init, n, v)[k]
    {
      assert acts[..k] == init[..k];
    }
    assert TakenBack(w, acts, n, v)[|init|] == MarksNoNewer(Play(w, init), a, n, v);
  }

  /** The applied version ends above `x` exactly if a newer one, recorded in the stretch or before it, stands. */
  lemma {:induction false} AppliedAbove(w: World, acts: seq<Action>, n: Id, x: int)
    requires n in w.db.nodes
    ensures n in Play(w, acts).db.nodes
    ensures Play(w, acts).db.nodes[n].applied > x <==>
            NewerStands(w, acts, n, x) || (w.db.nodes[n].applied > x && NoneTakenBack(w, acts, n, x))
  {
    if acts != [] {
      var init, a := acts[..|acts| - 1], acts[|acts| - 1];
      assert acts == init + [a];
      AppliedAbove(w, init, n, x);
      StepAbove(Play(w, init), a, n, x);
      StandsOneMore(w, init, a, n, x);
      NoneTakenBackOneMore(w, init, a, n, x);
    }
  }

  /** Run `r` is about to store `x` as the applied version of its live node. */
  predicate AboutToMark(w: World, r: nat, n: Id, x: int) {
    r < |w.runs| && w.runs[r].node == n && w.runs[r].pc == Succeeding(x) && NodeLive(w.db, n)
  }

  /**
   * When a mark lowers the applied version, for every version it may store and looked at over any
   * stretch that leads up to it: exactly if in the stretch some run, this one by its own realigning
   * included, recorded a newer version, or a newer one was there at its start, and no mark in between
   * took that back.
   */
  lemma MarkLowersExactly(w: World, acts: seq<Action>, r: nat, n: Id, x: int, mark: Choice)
    requires n in w.db.nodes && AboutToMark(Play(w, acts), r, n, x) && mark.db != RolledBack
    ensures var w' := Play(w, acts);
      && n in Exec(w', Advance(r, mark)).db.nodes
      && (Exec(w', Advance(r, mark)).db.nodes[n].applied < w'.db.nodes[n].applied <==>
          NewerStands(w, acts, n, x) || (w.db.nodes[n].applied > x && NoneTakenBack(w, acts, n, x)))
  {
    AppliedAbove(w, acts, n, x);
    AppliedFallsExactly(Play(w, acts), Advance(r, mark), n);
  }

  lemma BumpedAbove(w: World, r: nat, c: Choice)
    requires Bounded(w) && r < |w.runs| && (w.runs[r].pc.Bumping? || w.runs[r].pc.RetryBumping?)
    requires NodeLive(w.db, w.runs[r].node) && c.db == Committed
    ensures var n, w1 := w.runs[r].node, Exec(w, Advance(r, c));
      n in w1.db.nodes && w1.db.nodes[n].applied < w1.db.nodes[n].desired == w.db.nodes[n].desired + 1
  {
    assert RowBounded(w.db.nodes[w.runs[r].node], AgentAt(w, w.runs[r].node).version);
  }

  /**
   * Looked at from a bump: a mark that stores the version handed out there lowers the applied version
   * exactly if since then a newer version was recorded and stands.
   */
  lemma ConfirmedLowersExactly(w: World, r: nat, c: Choice, acts: seq<Action>, mark: Choice)
    requires Bounded(w) && r < |w.runs| && (w.runs[r].pc.Bumping? || w.runs[r].pc.RetryBumping?)
    requires NodeLive(w.db, w.runs[r].node) && c.db == Committed && mark.db != RolledBack
    requires var n := w.runs[r].node;
      AboutToMark(Play(Exec(w, Advance(r, c)), acts), r, n, w.db.nodes[n].desired + 1)
    ensures var w1, n := Exec(w, Advance(r, c)), w.runs[r].node;
      var w2 := Play(w1, acts);
      && n in Exec(w2, Advance(r, mark)).db.nodes
      && (Exec(w2, Advance(r, mark)).db.nodes[n].applied < w2.db.nodes[n].applied <==>
          NewerStands(w1, acts, n, w.db.nodes[n].desired + 1))
  {
    var n := w.runs[r].node;
    BumpedAbove(w, r, c);
    MarkLowersExactly(Exec(w, Advance(r, c)), acts, r, n, w.db.nodes[n].desired + 1, mark);
  }
}
