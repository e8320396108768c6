/**
 * One run of SyncNode among all others: the versions it sends recover from any
 * difference between row and agent, it sends at most twice, and it records one
 * event per payload.
 */
module SyncRuns {
  import opened Database
  import opened SyncProtocol
  import opened SyncSafety
  import opened SyncVersions

  ghost predicate EventFor(db: Db, n: Id, version: int) {
    exists k :: 0 <= k < |db.events| && db.events[k].node == n && db.events[k].version == version
  }

  ghost predicate PacketFor(net: seq<Packet>, n: Id, version: int) {
    exists i :: 0 <= i < |net| && net[i].node == n && net[i].version == version
  }

  /** The row has caught up with what the agent told this run. */
  predicate CaughtUp(w: World, run: Run) {
    NodeLive(w.db, run.node) ==> run.floor <= w.db.nodes[run.node].desired
  }

  /** What a run has sent and recorded so far, and how its version relates to the agent's last word. */
  predicate Tidy(w: World, run: Run) {
    match run.pc
    case Loading => run.sent == [] == run.logged
    case AskingStatus => run.sent == [] == run.logged
    case RecordingStatus(reply) => run.sent == [] == run.logged && (reply.Healthy? ==> reply.current == run.floor)
    case RecordingNotOk => run.sent == [] == run.logged
    case Realigning(current, _) => run.sent == [] == run.logged && current == run.floor
    case Reloading => run.sent == [] == run.logged && CaughtUp(w, run)
    case Bumping => run.sent == [] == run.logged && CaughtUp(w, run)
    case Reading(version, _) => run.sent == [] == run.logged && run.floor < version
    case Sending(job) =>
      run.floor < job.version && run.logged == run.sent && |run.sent| == (if job.mayRetry then 0 else 1)
    case Awaiting(job, _) =>
      && run.floor < job.version && run.sent == run.logged + [job.version]
      && |run.logged| == (if job.mayRetry then 0 else 1)
    case Logging(job, outcome) =>
      && run.sent == run.logged + [job.version] && |run.logged| == (if job.mayRetry then 0 else 1)
      && (outcome.Stale? ==> outcome.current == run.floor)
    case Stalling(_, _, current, _) => run.sent == run.logged && |run.sent| == 1 && current == run.floor
    case RetryRealigning(_, _, current, _) => run.sent == run.logged && |run.sent| == 1 && current == run.floor
    case RetryReloading(_, _) => run.sent == run.logged && |run.sent| == 1 && CaughtUp(w, run)
    case RetryBumping(_, _) => run.sent == run.logged && |run.sent| == 1 && CaughtUp(w, run)
    case Succeeding(_) => run.sent == run.logged && 1 <= |run.sent| <= 2
    case Failing(_) => run.sent == run.logged && 1 <= |run.sent| <= 2
    case Done(_) => run.sent == run.logged && |run.sent| <= 2 && (!run.statusOnly ==> 1 <= |run.sent|)
    case Failed(stage) =>
      |run.sent| <= 2 && (run.sent == run.logged
                          || (&& stage.AtEvent? && |run.sent| == |run.logged| + 1
                              && run.logged == run.sent[..|run.logged|]))
  }

  /** The events and payloads a run counts are really in the table and on the wire. */
  ghost predicate Recorded(w: World, run: Run) {
    && (run.logged != [] ==> run.node in w.db.nodes)
    && (NodeLive(w.db, run.node) ==> forall v :: v in run.logged ==> EventFor(w.db, run.node, v))
    && (forall v :: v in run.sent ==> PacketFor(w.net, run.node, v))
  }

  lemma TidyLater(w: World, w': World, run: Run)
    requires Tidy(w, run) && RunBounded(w, run) && Later(w, w')
    ensures Tidy(w', run)
  {
  }

  lemma RealignCatchesUp(w: World, w': World, run: Run, c: Choice, current: int, applied: int)
    requires run.pc == Realigning(current, applied)
          || (run.pc.RetryRealigning? && run.pc.current == current && run.pc.applied == applied)
    requires current == run.floor && c.db == Committed && w'.db == DbAfter(w.db, run, c)
    ensures CaughtUp(w', run)
  {
  }

  lemma FetchKeepsTidy(w: World, w': World, run: Run, c: Choice)
    requires Tidy(w, run) && RunBounded(w, run) && Later(w, w') && Held(run.pc).None?
    requires run.pc.Realigning? || run.pc.RetryRealigning? ==> c.db == Committed ==> CaughtUp(w', run)
    ensures Tidy(w', RunAfter(w, run, c))
  {
    TidyLater(w, w', run);
  }

  lemma LogKeepsTidy(w: World, w': World, run: Run, c: Choice)
    requires Tidy(w, run) && RunBounded(w, run) && run.pc.Logging?
    ensures Tidy(w', RunAfter(w, run, c))
  {
    assert RunAfter(w, run, c).pc == NextPc(w, run, c) && RunAfter(w, run, c).sent == run.sent;
  }

  lemma ReplyKeepsTidy(w: World, w': World, run: Run, c: Choice)
    requires Tidy(w, run) && RunBounded(w, run) && run.pc.Awaiting?
    ensures Tidy(w', RunAfter(w, run, c))
  {
    var p := w.net[run.pc.packet];
    AnswerIsCurrent(AgentAt(w, run.node), p, c, run.pc.job.version, run.pc.job.mayRetry);
  }

  /** A stale reply names the agent's own version. */
  lemma AnswerIsCurrent(agent: Agent, p: Packet, c: Choice, version: int, mayRetry: bool)
    ensures var o := Classify(SyncAnswer(agent, p, c), version, mayRetry);
      o.Stale? ==> o.current == agent.version
  {
  }

  lemma SendKeepsTidy(w: World, w': World, run: Run, c: Choice)
    requires Tidy(w, run) && RunBounded(w, run) && Held(run.pc).Some?
    ensures Tidy(w', RunAfter(w, run, c))
  {
    if run.pc.Logging? {
      LogKeepsTidy(w, w', run, c);
    } else if run.pc.Awaiting? {
      ReplyKeepsTidy(w, w', run, c);
    }
  }

  lemma NextTidy(w: World, r: nat, c: Choice)
    requires r < |w.runs| && Tidy(w, w.runs[r]) && RunBounded(w, w.runs[r])
    ensures Tidy(Advanced(w, r, c), RunAfter(w, w.runs[r], c))
  {
    var run, w' := w.runs[r], Advanced(w, r, c);
    if Held(run.pc).Some? {
      SendKeepsTidy(w, w', run, c);
    } else {
      if (run.pc.Realigning? || run.pc.RetryRealigning?) && c.db == Committed {
        RealignCatchesUp(w, w', run, c, run.pc.current, run.pc.applied);
      }
      ExecGrows(w, Advance(r, c));
      FetchKeepsTidy(w, w', run, c);
    }
  }

  lemma EventSurvives(w: World, a: Action, e: Event)
    requires e in w.db.events && NodeLive(Exec(w, a).db, e.node) && e.node in w.db.nodes
    ensures e in Exec(w, a).db.events
  {
    if a.Edit? && a.edit.DeleteNode? {
      EventsOfOthersMembers(w.db.events, a.edit.node);
    } else if a.Advance? && a.run < |w.runs| {
      assert w.db.events <= DbAfter(w.db, w.runs[a.run], a.choice).events;
    }
  }

  lemma RecordedLater(w: World, a: Action, run: Run)
    requires Recorded(w, run)
    ensures Recorded(Exec(w, a), run)
  {
    var w', n := Exec(w, a), run.node;
    ExecGrows(w, a);
    forall v | v in run.logged && NodeLive(w'.db, n)
      ensures EventFor(w'.db, n, v)
    {
      var k :| 0 <= k < |w.db.events| && w.db.events[k].node == n && w.db.events[k].version == v;
      EventSurvives(w, a, w.db.events[k]);
    }
    forall v | v in run.sent
      ensures PacketFor(w'.net, n, v)
    {
      var i :| 0 <= i < |w.net| && w.net[i].node == n && w.net[i].version == v;
      assert w'.net[i] == w.net[i];
    }
  }

  lemma NextRecorded(w: World, r: nat, c: Choice)
    requires r < |w.runs| && Recorded(w, w.runs[r]) && RunBounded(w, w.runs[r])
    ensures Recorded(Advanced(w, r, c), RunAfter(w, w.runs[r], c))
  {
    var run, w' := w.runs[r], Advanced(w, r, c);
    var run' := RunAfter(w, run, c);
    assert w' == Exec(w, Advance(r, c));
    RecordedLater(w, Advance(r, c), run);
    match run.pc
    case Sending(job) =>
      assert w'.net[|w.net|].node == run.node && w'.net[|w.net|].version == job.version;
      assert run'.sent == run.sent + [job.version] && run'.logged == run.logged;
    case Logging(job, outcome) =>
      assert run'.sent == run.sent;
      if run'.logged != run.logged {
        assert w'.db.events[|w.db.events|] == Event(run.node, job.version, OutcomeStatus(outcome));
        assert EventFor(w'.db, run.node, job.version);
      }
    case _ => assert run'.sent == run.sent && run'.logged == run.logged;
  }

  ghost predicate RunsTidy(w: World) {
    forall r :: 0 <= r < |w.runs| ==> Tidy(w, w.runs[r]) && Recorded(w, w.runs[r])
  }

  lemma ExecKeepsRunsTidy(w: World, a: Action)
    requires Bounded(w) && RunsTidy(w)
    ensures RunsTidy(Exec(w, a))
  {
    var w' := Exec(w, a);
    ExecGrows(w, a);
    forall r | 0 <= r < |w'.runs|
      ensures Tidy(w', w'.runs[r]) && Recorded(w', w'.runs[r])
    {
      if r < |w.runs| {
        assert Tidy(w, w.runs[r]) && Recorded(w, w.runs[r]) && RunBounded(w, w.runs[r]);
        if a.Advance? && a.run == r {
          NextTidy(w, r, a.choice);
          NextRecorded(w, r, a.choice);
        } else {
          assert w'.runs[r] == w.runs[r];
          TidyLater(w, w', w.runs[r]);
          RecordedLater(w, a, w.runs[r]);
        }
      }
    }
  }

  lemma {:induction false} PlayKeepsRunsTidy(w: World, acts: seq<Action>)
    requires Reachable(w) && RunsTidy(w)
    ensures RunsTidy(Play(w, acts))
  {
    if acts != [] {
      var init := acts[..|acts| - 1];
      PlayKeepsRunsTidy(w, init);
      PlayKeepsReachable(w, init);
      ExecKeepsRunsTidy(Play(w, init), acts[|acts| - 1]);
    }
  }

  // ------------------------------------------------------------ what runs achieve

  /**
   * Version recovery.  Every version a run sends exceeds what the agent last told that run:
   * the first attempt exceeds the version in the /status reply, the retry the version in the
   * stale reply.  So the agent takes the payload over unless it moved in between.
   */
  lemma VersionRecovery(w0: World, acts: seq<Action>, r: nat)
    requires Start(w0) && r < |Play(w0, acts).runs|
    ensures var w := Play(w0, acts);
      var run := w.runs[r];
      && (run.pc.Sending? ==> run.floor < run.pc.job.version)
      && (run.pc.Awaiting? ==>
            run.pc.packet < |w.net|
            && var p := w.net[run.pc.packet];
            && p.node == run.node && p.version == run.pc.job.version && p.users == run.pc.job.users
            && run.floor < p.version
            && (AgentAt(w, run.node).version <= run.floor ==>
                  Delivered(AgentAt(w, run.node), p, run.pc.packet).users == p.users))
  {
    StartIsReachable(w0);
    PlayKeepsReachable(w0, acts);
    PlayKeepsRunsTidy(w0, acts);
    assert RunBounded(Play(w0, acts), Play(w0, acts).runs[r]);
  }

  /**
   * Bookkeeping.  A finished run sent at most two payloads, in the order of its events; each
   * is on the wire and, unless the event insert itself reported an error, each has exactly one
   * event as long as the node exists.
   */
  lemma OneEventPerSend(w0: World, acts: seq<Action>, r: nat)
    requires Start(w0) && r < |Play(w0, acts).runs|
    ensures var w := Play(w0, acts);
      var run := w.runs[r];
      && |run.sent| <= 2
      && (forall v :: v in run.sent ==> PacketFor(w.net, run.node, v))
      && (run.pc.Done? || (run.pc.Failed? && run.pc.stage != AtEvent) ==> run.logged == run.sent)
      && (NodeLive(w.db, run.node) ==> forall v :: v in run.logged ==>
            exists k :: 0 <= k < |w.db.events| && w.db.events[k].node == run.node && w.db.events[k].version == v
                        && forall l :: 0 <= l < |w.db.events| && l != k && w.db.events[l].node == run.node ==>
                             w.db.events[l].version != v)
  {
    StartIsReachable(w0);
    PlayKeepsReachable(w0, acts);
    PlayKeepsRunsTidy(w0, acts);
    var w := Play(w0, acts);
    var run := w.runs[r];
    assert Tidy(w, run) && Recorded(w, run);
    assert |run.sent| <= 2;
    if NodeLive(w.db, run.node) {
      forall v | v in run.logged
        ensures exists k :: 0 <= k < |w.db.events| && w.db.events[k].node == run.node && w.db.events[k].version == v
                        && forall l :: 0 <= l < |w.db.events| && l != k && w.db.events[l].node == run.node ==>
                             w.db.events[l].version != v
      {
        var k :| 0 <= k < |w.db.events| && w.db.events[k].node == run.node && w.db.events[k].version == v;
        forall l | 0 <= l < |w.db.events| && l != k && w.db.events[l].node == run.node
          ensures w.db.events[l].version != v
        {
          assert EventsDistinct(w.db.events);
        }
      }
    }
  }
}
