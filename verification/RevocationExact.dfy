/**
 * `Clean` is not merely sufficient: whenever it fails, some interleaving without any
 * edit puts the user back on the agent.
 */
module RevocationExact {
  import opened Database
  import opened SyncProtocol
  import opened SyncSafety
  import opened SyncVersions
  import opened SyncSolo
  import opened Revocation

  const SMOOTH := Choice(Committed, Answered(true), 0)

  predicate EditFree(acts: seq<Action>) {
    forall i :: 0 <= i < |acts| ==> !acts[i].Edit?
  }

  lemma PlayPrepend(w: World, a: Action, acts: seq<Action>)
    ensures Play(w, [a] + acts) == Play(Exec(w, a), acts)
  {
    PlayOne(w, a);
    PlayConcat(w, [a], acts);
  }

  /** A FetchNodeStatus run, undisturbed, lifts the desired version to the agent's. */
  lemma StatusRunCatchesUp(w: World, n: Id) returns (acts: seq<Action>)
    requires NodeLive(w.db, n)
    ensures EditFree(acts)
    ensures var w' := Play(w, acts);
      && NodeLive(w'.db, n) && AgentAt(w', n).version <= w'.db.nodes[n].desired
      && w'.agents == w.agents && w'.net == w.net
      && |w.runs| < |w'.runs| && (forall r :: 0 <= r < |w.runs| ==> w'.runs[r] == w.runs[r])
  {
    var r, w1 := |w.runs|, Exec(w, Begin(n, true));
    acts := [Begin(n, true)] + Steps(r, SMOOTH, 4);
    StatusPhase(w1, r, SMOOTH, n);
    assert NodeLive(w1.db, n) && w1.runs[..r] == w.runs;
    PlayPrepend(w, Begin(n, true), Steps(r, SMOOTH, 4));
  }

  lemma SendRevives(w: World, r: nat, u: Id, n: Id) returns (acts: seq<Action>)
    requires r < |w.runs| && w.runs[r].node == n && w.runs[r].pc.Sending?
    requires u in w.runs[r].pc.job.users && w.runs[r].pc.job.version > AgentAt(w, n).version
    ensures EditFree(acts) && u in AgentAt(Play(w, acts), n).users
  {
    var a, b := Advance(r, SMOOTH), Arrive(|w.net|);
    acts := [a, b];
    PlayPrepend(w, a, [b]);
    PlayOne(Exec(w, a), b);
    assert [a] + [b] == acts;
    assert Exec(w, a).net[|w.net|].users == w.runs[r].pc.job.users;
  }

  lemma RetryBumpRevives(w: World, r: nat, u: Id, n: Id) returns (acts: seq<Action>)
    requires r < |w.runs| && w.runs[r].node == n && w.runs[r].pc.RetryBumping?
    requires u in w.runs[r].pc.users && NodeLive(w.db, n)
    ensures EditFree(acts) && u in AgentAt(Play(w, acts), n).users
  {
    var lift := StatusRunCatchesUp(w, n);
    var w1 := Play(w, lift);
    var w2 := Exec(w1, Advance(r, SMOOTH));
    assert w1.runs[r] == w.runs[r];
    assert w2.runs[r].pc.Sending? && w2.runs[r].pc.job.version > AgentAt(w2, n).version;
    var send := SendRevives(w2, r, u, n);
    PlayPrepend(w1, Advance(r, SMOOTH), send);
    PlayConcat(w, lift, [Advance(r, SMOOTH)] + send);
    acts := lift + ([Advance(r, SMOOTH)] + send);
  }

  /** How far a run with an old list is from bumping for its retry. */
  function Distance(pc: Pc): nat {
    match pc
    case Sending(_) => 6
    case Awaiting(_, _) => 5
    case Logging(_, _) => 4
    case Stalling(_, _, _, _) => 3
    case RetryRealigning(_, _, _, _) => 2
    case RetryReloading(_, _) => 1
    case _ => 0
  }

  /** One smooth step of a hot run that is refused brings it closer to its retry. */
  lemma HotMovesOn(w: World, r: nat, u: Id)
    requires r < |w.runs| && RunBounded(w, w.runs[r]) && !w.runs[r].pc.RetryBumping?
    requires Hot(w, w.runs[r], u, AgentAt(w, w.runs[r].node).version) && NodeLive(w.db, w.runs[r].node)
    requires w.runs[r].pc.Sending? ==> w.runs[r].pc.job.version <= AgentAt(w, w.runs[r].node).version
    requires w.runs[r].pc.Awaiting? ==> w.net[w.runs[r].pc.packet].version <= AgentAt(w, w.runs[r].node).version
    ensures var w', n := Exec(w, Advance(r, SMOOTH)), w.runs[r].node;
      && AgentAt(w', n) == AgentAt(w, n) && w'.runs[r].node == n
      && Distance(w'.runs[r].pc) < Distance(w.runs[r].pc)
      && Hot(w', w'.runs[r], u, AgentAt(w', n).version)
  {
    var w' := Exec(w, Advance(r, SMOOTH));
    assert w'.runs[r].pc == NextPc(w, w.runs[r], SMOOTH);
    assert NodeLive(w'.db, w.runs[r].node);
  }

  lemma {:induction false} HotRevives(w: World, r: nat, u: Id, n: Id) returns (acts: seq<Action>)
    requires Reachable(w) && r < |w.runs| && w.runs[r].node == n
    requires Hot(w, w.runs[r], u, AgentAt(w, n).version)
    ensures EditFree(acts) && u in AgentAt(Play(w, acts), n).users
    decreases Distance(w.runs[r].pc)
  {
    var run, b := w.runs[r], AgentAt(w, n).version;
    assert RunBounded(w, run);
    if run.pc.Sending? && run.pc.job.version > b {
      acts := SendRevives(w, r, u, n);
    } else if run.pc.Awaiting? && w.net[run.pc.packet].version > b {
      acts := [Arrive(run.pc.packet)];
      PlayOne(w, Arrive(run.pc.packet));
    } else if run.pc.RetryBumping? {
      acts := RetryBumpRevives(w, r, u, n);
    } else {
      HotMovesOn(w, r, u);
      ExecKeepsReachable(w, Advance(r, SMOOTH));
      var rest := HotRevives(Exec(w, Advance(r, SMOOTH)), r, u, n);
      PlayPrepend(w, Advance(r, SMOOTH), rest);
      acts := [Advance(r, SMOOTH)] + rest;
    }
  }

  lemma UncleanRevives(w: World, u: Id, n: Id, t: int) returns (acts: seq<Action>)
    requires Reachable(w) && Lapsed(w.db, u, t) && !Clean(w, u, n, t)
    ensures EditFree(acts) && u in AgentAt(Play(w, acts), n).users
  {
    var b := AgentAt(w, n).version;
    if u in AgentAt(w, n).users {
      acts := [];
    } else if r :| 0 <= r < |w.runs| && w.runs[r].node == n && Hot(w, w.runs[r], u, b) {
      acts := HotRevives(w, r, u, n);
    } else {
      var i :| 0 <= i < |w.net| && Carries(w.net[i], u, n, b);
      acts := [Arrive(i)];
      PlayOne(w, Arrive(i));
    }
  }

  /** The user is gone for good exactly in the clean worlds. */
  lemma CleanIsExact(w: World, u: Id, n: Id, t: int)
    requires Reachable(w) && Lapsed(w.db, u, t)
    ensures Clean(w, u, n, t) <==>
      forall acts :: AllCalm(acts, u, t) ==> u !in AgentAt(Play(w, acts), n).users
  {
    if Clean(w, u, n, t) {
      forall acts | AllCalm(acts, u, t)
        ensures u !in AgentAt(Play(w, acts), n).users
      {
        CleanForever(w, acts, u, n, t);
      }
    } else {
      var acts := UncleanRevives(w, u, n, t);
      assert AllCalm(acts, u, t);
    }
  }
}
