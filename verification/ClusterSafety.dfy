/** Safety over every run of a cluster of odd size that rechecks the term of a vote when it
    counts it and commits at followers as the comment at the commit rule says. */
module ClusterSafety {
  import opened Quorums
  import opened RaftNode
  import opened Cluster
  import opened ClusterInvariant
  import opened ClusterQuiet
  import opened ClusterVotes
  import opened ClusterLogs

  predicate Sound(r: Rules) {
    r.nodes % 2 == 1 && r.recheckVote && r.commitToLastNew
  }

  // ---- every step keeps the invariant ----

  lemma InitialInv(nodes: nat)
    requires nodes % 2 == 1
    ensures Inv(Initial(nodes))
  {
    var s := Initial(nodes);
    forall j | 0 <= j < |s.nodes| ensures NodeOk(j, s.nodes[j], s.msgs, s.elections, s.commits) {
    }
  }

  lemma SendAppendStep(s: Cluster, c: nat, to: nat, prev: nat, full: bool, round: nat)
    requires Inv(s) && CanSend(s, c, to) && prev < |s.nodes[c].log|
    requires round == 0 || (round in s.samples && s.samples[round].node == c)
    ensures Inv(Send(s, AppendRequest(to, Request(s.nodes[c], c, prev, full), round)))
  {
    var m := AppendRequest(to, Request(s.nodes[c], c, prev, full), round);
    assert NodeOk(c, s.nodes[c], s.msgs, s.elections, s.commits);
    LeaderFacts(s, c);
    SendLogs(s, m);
    SendVotes(s, m);
    SendReads(s, m);
  }

  lemma SendSnapshotStep(s: Cluster, c: nat, to: nat)
    requires Inv(s) && CanSend(s, c, to) && s.nodes[c].snap < |s.nodes[c].log|
    ensures var n := s.nodes[c];
            Inv(Send(s, SnapRequest(to, SnapArgs(n.term, c, n.snap, n.log[n.snap].term))))
  {
    var n := s.nodes[c];
    var m := SnapRequest(to, SnapArgs(n.term, c, n.snap, n.log[n.snap].term));
    assert NodeOk(c, n, s.msgs, s.elections, s.commits);
    LeaderFacts(s, c);
    assert n.log[..n.snap + 1] == n.log[..n.commit + 1][..n.snap + 1];
    CommittedPrefix(s.elections, s.commits, n.log, n.log, n.commit, n.snap, n.term);
    SendLogs(s, m);
    SendVotes(s, m);
    SendReads(s, m);
  }

  lemma SampleStep(s: Cluster, c: nat, round: nat)
    requires Inv(s) && c < |s.nodes| && s.nodes[c].role.Leader? && round !in s.samples
    ensures var n := s.nodes[c];
            Inv(s.(samples := s.samples[round := Sample(c, n.term, n.commit, n.log, s.elections, s.commits)]))
  {
    var n := s.nodes[c];
    var x := Sample(c, n.term, n.commit, n.log, s.elections, s.commits);
    var s' := s.(samples := s.samples[round := x]);
    assert NodeOk(c, n, s.msgs, s.elections, s.commits);
    LeaderFacts(s, c);
    forall k | k in x.commits ensures k.0 in x.elections {
      CommitAcked(|s.nodes|, s.msgs, s.elections, s.commits, k);
    }
    forall t | t in x.elections && c in x.elections[t].voters ensures t <= n.term {
      VoterSaved(s, t, c);
    }
    forall y | y in s'.samples ensures SampleOk(s', s'.samples[y]) {
      assert y in s.samples ==> SampleOk(s, s.samples[y]);
    }
    forall m | m in s.msgs ensures RoundOk(s', m) {
      assert RoundOk(s, m);
    }
    forall b | b in s.passed ensures PassedOk(s', b) {
      assert PassedOk(s, b);
    }
  }

  /** History is never rewritten. */
  predicate Keeps(s: Cluster, s': Cluster) {
    && Extends(s.elections, s'.elections) && Recorded(s.commits, s'.commits)
    && forall x :: x in s.samples ==> x in s'.samples && s'.samples[x] == s.samples[x]
  }

  predicate ElectionEvent(e: Event) {
    e.Timeout? || e.DeliverVote? || e.DeliverVoteAnswer? || e.Count?
  }

  predicate ReplicationEvent(e: Event) {
    e.ClientCommand? || e.SendAppend? || e.DeliverAppend? || e.DeliverAppendAnswer?
  }

  lemma ElectionStep(r: Rules, s: Cluster, e: Event)
    requires Sound(r) && Inv(s) && |s.nodes| == r.nodes && ElectionEvent(e)
    ensures Inv(Apply(r, s, e)) && Keeps(s, Apply(r, s, e))
  {
    if e.Timeout? || e.DeliverVote? {
      CanvassStep(r, s, e);
    } else if e.DeliverVoteAnswer? {
      BallotStep(r, s, e.msg);
    } else {
      TallyStep(r, s, e.ballot, e.late);
    }
  }

  lemma CanvassStep(r: Rules, s: Cluster, e: Event)
    requires Sound(r) && Inv(s) && |s.nodes| == r.nodes && (e.Timeout? || e.DeliverVote?)
    ensures Inv(Apply(r, s, e)) && Keeps(s, Apply(r, s, e))
  {
    match e
    case Timeout(c) =>
      if c < |s.nodes| { TimeoutStep(s, c); }
    case DeliverVote(j, a) =>
      if VoteRequest(a) in s.msgs && j < |s.nodes| { VoteStep(s, j, a); }
  }

  lemma BallotStep(r: Rules, s: Cluster, m: Msg)
    requires Sound(r) && Inv(s) && |s.nodes| == r.nodes
    ensures Inv(Apply(r, s, DeliverVoteAnswer(m))) && Keeps(s, Apply(r, s, DeliverVoteAnswer(m)))
  {
    if m in s.msgs && m.VoteAnswer? && m.vote.candidate < |s.nodes|
       && Call(m.vote.candidate, m.vote.term, m.from) in s.calls {
      VoteAnswerStep(s, m);
    }
  }

  lemma TallyStep(r: Rules, s: Cluster, b: Ballot, late: bool)
    requires Sound(r) && Inv(s) && |s.nodes| == r.nodes
    ensures Inv(Apply(r, s, Count(b, late))) && Keeps(s, Apply(r, s, Count(b, late)))
  {
    if b in s.passed && b.call.candidate < |s.nodes| { CountStep(r, s, b, late); }
  }

  lemma ReplicationStep(r: Rules, s: Cluster, e: Event)
    requires Sound(r) && Inv(s) && |s.nodes| == r.nodes && ReplicationEvent(e)
    ensures Inv(Apply(r, s, e)) && Keeps(s, Apply(r, s, e))
  {
    if e.ClientCommand? || e.SendAppend? {
      LeaderStep(r, s, e);
    } else if e.DeliverAppend? {
      DeliveryStep(r, s, e.msg);
    } else {
      AnswerStep(r, s, e.msg);
    }
  }

  lemma LeaderStep(r: Rules, s: Cluster, e: Event)
    requires Sound(r) && Inv(s) && |s.nodes| == r.nodes && (e.ClientCommand? || e.SendAppend?)
    ensures Inv(Apply(r, s, e)) && Keeps(s, Apply(r, s, e))
  {
    match e
    case ClientCommand(c, command) =>
      if c < |s.nodes| { CommandStep(s, c, command); }
    case SendAppend(c, to, prev, full, round) =>
      if CanSend(s, c, to) && prev < |s.nodes[c].log|
         && (round == 0 || (round in s.samples && s.samples[round].node == c)) {
        SendAppendStep(s, c, to, prev, full, round);
      }
  }

  lemma DeliveryStep(r: Rules, s: Cluster, m: Msg)
    requires Sound(r) && Inv(s) && |s.nodes| == r.nodes
    ensures Inv(Apply(r, s, DeliverAppend(m))) && Keeps(s, Apply(r, s, DeliverAppend(m)))
  {
    if m in s.msgs && m.AppendRequest? && m.to < |s.nodes| { AppendStep(r, s, m); }
  }

  lemma AnswerStep(r: Rules, s: Cluster, m: Msg)
    requires Sound(r) && Inv(s) && |s.nodes| == r.nodes
    ensures Inv(Apply(r, s, DeliverAppendAnswer(m))) && Keeps(s, Apply(r, s, DeliverAppendAnswer(m)))
  {
    if m in s.msgs && m.AppendAnswer? && m.args.leader < |s.nodes| { AppendAnswerStep(s, m); }
  }

  lemma LocalStep(r: Rules, s: Cluster, e: Event)
    requires Sound(r) && Inv(s) && |s.nodes| == r.nodes && !ElectionEvent(e) && !ReplicationEvent(e)
    ensures Inv(Apply(r, s, e)) && Keeps(s, Apply(r, s, e))
  {
    if e.Save? || e.Crash? {
      NodeStep(r, s, e);
    } else if e.SampleRead? {
      ReadStep(r, s, e.node, e.round);
    } else if e.TakeSnapshot? || e.SendSnapshot? {
      CompactionStep(r, s, e);
    } else {
      SnapshotDeliveryStep(r, s, e);
    }
  }

  lemma NodeStep(r: Rules, s: Cluster, e: Event)
    requires Sound(r) && Inv(s) && |s.nodes| == r.nodes && (e.Save? || e.Crash?)
    ensures Inv(Apply(r, s, e)) && Keeps(s, Apply(r, s, e))
  {
    match e
    case Save(j) =>
      if j < |s.nodes| { PersistStep(s, j); }
    case Crash(j, snap) =>
      if j < |s.nodes| && snap <= s.nodes[j].saved.snap { CrashStep(r, s, j, snap); }
  }

  lemma ReadStep(r: Rules, s: Cluster, c: nat, round: nat)
    requires Sound(r) && Inv(s) && |s.nodes| == r.nodes
    ensures Inv(Apply(r, s, SampleRead(c, round))) && Keeps(s, Apply(r, s, SampleRead(c, round)))
  {
    if c < |s.nodes| && s.nodes[c].role.Leader? && round !in s.samples { SampleStep(s, c, round); }
  }

  lemma CompactionStep(r: Rules, s: Cluster, e: Event)
    requires Sound(r) && Inv(s) && |s.nodes| == r.nodes && (e.TakeSnapshot? || e.SendSnapshot?)
    ensures Inv(Apply(r, s, e)) && Keeps(s, Apply(r, s, e))
  {
    match e
    case TakeSnapshot(j, index) =>
      if j < |s.nodes| { CompactStep(s, j, index); }
    case SendSnapshot(c, to) =>
      if CanSend(s, c, to) && s.nodes[c].snap < |s.nodes[c].log| { SendSnapshotStep(s, c, to); }
  }

  lemma SnapshotDeliveryStep(r: Rules, s: Cluster, e: Event)
    requires Sound(r) && Inv(s) && |s.nodes| == r.nodes && (e.DeliverSnapshot? || e.DeliverSnapshotAnswer?)
    ensures Inv(Apply(r, s, e)) && Keeps(s, Apply(r, s, e))
  {
    match e
    case DeliverSnapshot(m) =>
      if m in s.msgs && m.SnapRequest? && m.to < |s.nodes| { SnapshotStep(s, m); }
    case DeliverSnapshotAnswer(m) =>
      if m in s.msgs && m.SnapAnswer? && m.snap.leader < |s.nodes| {
        InstallReplyStep(s, m.snap.leader, m.from, m.term);
      }
  }

  lemma SnapshotStep(s: Cluster, m: Msg)
    requires Inv(s) && m in s.msgs && m.SnapRequest? && m.to < |s.nodes|
    ensures var n := Install(s.nodes[m.to], m.snap);
            Inv(Send(Put(s, m.to, n), SnapAnswer(m.to, m.snap, n.term)))
  {
    assert SnapOk(s.elections, s.commits, m.snap);
    InstallStep(s, m.to, m.snap);
    var n := Install(s.nodes[m.to], m.snap);
    SendNoise(Put(s, m.to, n), SnapAnswer(m.to, m.snap, n.term));
  }

  lemma Step(r: Rules, s: Cluster, e: Event)
    requires Sound(r) && Inv(s) && |s.nodes| == r.nodes
    ensures Inv(Apply(r, s, e)) && Keeps(s, Apply(r, s, e))
  {
    if ElectionEvent(e) {
      ElectionStep(r, s, e);
    } else if ReplicationEvent(e) {
      ReplicationStep(r, s, e);
    } else {
      LocalStep(r, s, e);
    }
  }

  lemma {:induction false} RunInv(r: Rules, events: seq<Event>)
    requires Sound(r)
    ensures Inv(Run(r, events))
    decreases |events|
  {
    if events == [] {
      InitialInv(r.nodes);
    } else {
      RunInv(r, events[..|events| - 1]);
      Step(r, Run(r, events[..|events| - 1]), events[|events| - 1]);
    }
  }

  /** A run extended by more events keeps its history. */
  lemma KeepsTrans(s: Cluster, s1: Cluster, s2: Cluster)
    requires Keeps(s, s1) && Keeps(s1, s2)
    ensures Keeps(s, s2)
  {
    ExtendsTrans(s.elections, s1.elections, s2.elections);
  }

  lemma LastStepKeeps(r: Rules, events: seq<Event>)
    requires Sound(r) && events != []
    ensures Keeps(Run(r, events[..|events| - 1]), Run(r, events))
  {
    var front := events[..|events| - 1];
    RunInv(r, front);
    Step(r, Run(r, front), events[|events| - 1]);
  }

  lemma {:induction false} RunKeeps(r: Rules, events: seq<Event>, more: seq<Event>)
    requires Sound(r)
    ensures Keeps(Run(r, events), Run(r, events + more))
    decreases |more|
  {
    if more == [] {
      assert events + more == events;
    } else {
      var all := events + more;
      assert all[..|all| - 1] == events + more[..|more| - 1];
      var s0, s1 := Run(r, events), Run(r, events + more[..|more| - 1]);
      RunKeeps(r, events, more[..|more| - 1]);
      LastStepKeeps(r, all);
      KeepsTrans(s0, s1, Run(r, all));
    }
  }

  // ---- the theorems ----

  /** Log matching: two logs with an entry of the same term at one index agree up to it. */
  lemma LogsMatch(r: Rules, events: seq<Event>, a: nat, b: nat, i: nat)
    requires Sound(r) && a < r.nodes && b < r.nodes
    requires var (x, y) := (Run(r, events).nodes[a].log, Run(r, events).nodes[b].log);
             i < |x| && i < |y| && x[i].term == y[i].term
    ensures Run(r, events).nodes[a].log[..i + 1] == Run(r, events).nodes[b].log[..i + 1]
  {
    var s := Run(r, events);
    RunInv(r, events);
    assert NodeOk(a, s.nodes[a], s.msgs, s.elections, s.commits);
    assert NodeOk(b, s.nodes[b], s.msgs, s.elections, s.commits);
    LogMatching(s.elections, s.nodes[a].log, s.nodes[b].log, i);
  }

  lemma CommittedOrder(nodes: nat, msgs: set<Msg>, E: Elections, C: Commits,
                       x: seq<Entry>, c: nat, y: seq<Entry>, d: nat, i: nat, k: (nat, nat), l: (nat, nat))
    requires HistoryOk(nodes, msgs, E, C) && k in C && l in C && k.0 in E && l.0 in E && k.0 <= l.0
    requires i <= c <= k.1 && Agree(x, E[k.0].log, c) && i <= d <= l.1 && Agree(y, E[l.0].log, d)
    requires x[0] == Placeholder
    ensures Agree(x, y, i)
  {
    assert Committed(E, C, x, c, k.0);
    CommittedInLeader(nodes, msgs, E, C, x, c, k.0, l.0);
    AgreeDown(x, E[l.0].log, c, i);
    AgreeDown(y, E[l.0].log, d, i);
  }

  lemma CommittedAgree(nodes: nat, msgs: set<Msg>, E: Elections, C: Commits,
                       x: seq<Entry>, c: nat, t: nat, y: seq<Entry>, d: nat, u: nat, i: nat)
    requires HistoryOk(nodes, msgs, E, C) && Committed(E, C, x, c, t) && Committed(E, C, y, d, u)
    requires i <= c < |x| && i <= d < |y| && x[0] == y[0] == Placeholder
    ensures Agree(x, y, i)
  {
    if i == 0 {
      assert x[..1] == y[..1];
    } else {
      var k :| k in C && k.0 in E && k.0 <= t && c <= k.1 && Agree(x, E[k.0].log, c);
      var l :| l in C && l.0 in E && l.0 <= u && d <= l.1 && Agree(y, E[l.0].log, d);
      if k.0 <= l.0 {
        CommittedOrder(nodes, msgs, E, C, x, c, y, d, i, k, l);
      } else {
        CommittedOrder(nodes, msgs, E, C, y, d, x, c, i, l, k);
      }
    }
  }

  /** State machine safety: no two nodes, at any two moments of a run, commit different entries
      at one index; all that comes before is the same as well. */
  lemma StateMachineSafety(r: Rules, events: seq<Event>, more: seq<Event>, a: nat, b: nat, i: nat)
    requires Sound(r) && a < r.nodes && b < r.nodes
    requires i <= Run(r, events).nodes[a].commit && i <= Run(r, events + more).nodes[b].commit
    ensures var (x, y) := (Run(r, events).nodes[a].log, Run(r, events + more).nodes[b].log);
            i < |x| && i < |y| && x[..i + 1] == y[..i + 1]
  {
    var s0, s1 := Run(r, events), Run(r, events + more);
    RunInv(r, events);
    RunInv(r, events + more);
    RunKeeps(r, events, more);
    var x, y := s0.nodes[a], s1.nodes[b];
    CommitSurvives(s0, s1, a);
    assert NodeOk(b, y, s1.msgs, s1.elections, s1.commits);
    CommittedAgree(r.nodes, s1.msgs, s1.elections, s1.commits, x.log, x.commit, x.term, y.log, y.commit, y.term, i);
  }

  lemma LeaderHas(s: Cluster, b: nat, log: seq<Entry>, c: nat, t: nat)
    requires Inv(s) && b < |s.nodes| && s.nodes[b].role.Leader? && t <= s.nodes[b].term
    requires Committed(s.elections, s.commits, log, c, t) && c < |log| && log[0] == Placeholder
    ensures Agree(log, s.nodes[b].log, c)
  {
    assert NodeOk(b, s.nodes[b], s.msgs, s.elections, s.commits);
    LeaderFacts(s, b);
    CommittedInLeader(|s.nodes|, s.msgs, s.elections, s.commits, log, c, t, s.nodes[b].term);
  }

  /** Leader completeness: what a node has committed is in the log of every leader that leads,
      then or later, in that node's term or a later one. */
  lemma LaterLeadersHave(r: Rules, events: seq<Event>, more: seq<Event>, a: nat, b: nat, term: nat)
    requires Sound(r) && a < r.nodes
    requires IsLeader(Run(r, events + more), b, term) && Run(r, events).nodes[a].term <= term
    ensures var (x, y) := (Run(r, events).nodes[a], Run(r, events + more).nodes[b].log);
            x.commit < |x.log| && x.commit < |y| && x.log[..x.commit + 1] == y[..x.commit + 1]
  {
    RunInv(r, events);
    RunInv(r, events + more);
    RunKeeps(r, events, more);
    CommitSurvives(Run(r, events), Run(r, events + more), a);
    var x := Run(r, events).nodes[a];
    LeaderHas(Run(r, events + more), b, x.log, x.commit, x.term);
  }

  lemma CommitSurvives(s: Cluster, s': Cluster, a: nat)
    requires Inv(s) && Keeps(s, s') && a < |s.nodes|
    ensures var x := s.nodes[a];
            && Committed(s'.elections, s'.commits, x.log, x.commit, x.term)
            && x.commit < |x.log| && x.log[0] == Placeholder
  {
    var x := s.nodes[a];
    assert NodeOk(a, x, s.msgs, s.elections, s.commits);
    CommittedGrow(s.elections, s'.elections, s.commits, s'.commits, x.log, x.commit, x.term, x.term);
  }
}
