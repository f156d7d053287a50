/** Over whole runs, a leader's next request to a peer starts within its log, and what the leader
    and the peer then hold is what settles the probing. */
module Probes {
  import opened Basics
  import opened RaftNode
  import opened Cluster
  import opened ClusterInvariant
  import opened ClusterQuiet
  import opened ClusterLogs
  import opened ClusterSafety
  import opened BackOff

  // ---- the leader's log reaches every probe ----

  predicate Within(n: Node, p: nat) { Get(n.nextIndex, p) <= |n.log| }

  ghost predicate Reaches(n: Node) {
    n.role.Leader? ==> forall p: nat {:trigger Within(n, p)} :: Within(n, p)
  }

  /** A refusal in the term of its request points into that term's log. */
  predicate HintOk(E: Elections, m: Msg)
    requires m.AppendAnswer?
  {
    var (t, r) := (m.args.term, m.reply);
    !r.success && r.term == t ==>
      t in E && r.xIndex <= |E[t].log| && (r.xTerm == -1 ==> r.xLen <= |E[t].log|)
  }

  ghost predicate NextOk(s: Cluster) {
    && (forall j {:trigger Reaches(s.nodes[j])} :: 0 <= j < |s.nodes| ==> Reaches(s.nodes[j]))
    && (forall m {:trigger HintOk(s.elections, m)} :: m in s.msgs && m.AppendAnswer? ==> HintOk(s.elections, m))
  }

  /** What a step may change: one node, the messages by one, and the history by growth. */
  predicate Changes(s: Cluster, s': Cluster, j: nat, n: Node) {
    && j < |s.nodes| && s'.nodes == s.nodes[j := n] && Extends(s.elections, s'.elections)
  }

  lemma ChangeKeeps(s: Cluster, s': Cluster, j: nat, n: Node)
    requires NextOk(s) && Changes(s, s', j, n) && Reaches(n)
    requires forall m :: m in s'.msgs && m.AppendAnswer? ==> m in s.msgs || HintOk(s'.elections, m)
    ensures NextOk(s')
  {
    forall k | 0 <= k < |s'.nodes| ensures Reaches(s'.nodes[k]) {
      assert k != j ==> Reaches(s.nodes[k]);
    }
    forall m | m in s'.msgs && m.AppendAnswer? ensures HintOk(s'.elections, m) {
      assert m in s.msgs ==> HintOk(s.elections, m);
    }
  }

  /** A node that does not become leader, and keeps its indices and its log if it is one. */
  lemma StillReaches(n: Node, n': Node)
    requires Reaches(n)
    requires n'.role.Leader? ==> n.role.Leader? && n'.nextIndex == n.nextIndex && |n.log| <= |n'.log|
    ensures Reaches(n')
  {
    forall p: nat | n'.role.Leader? ensures Within(n', p) {
      assert Within(n, p);
    }
  }

  lemma LeaderReaches(n: Node)
    ensures Reaches(BecomeLeader(n))
  {
  }

  lemma CountReaches(r: Rules, n: Node, term: nat, late: bool)
    requires Reaches(n)
    ensures Reaches(CountVote(r, n, term, late))
  {
    var m := n.(voteCount := n.voteCount + 1);
    StillReaches(n, m);
    LeaderReaches(m);
  }

  /** Moving the probe of one peer to a place within the log. */
  lemma MoveReaches(n: Node, n': Node, server: nat, next: int)
    requires Reaches(n) && n'.role == n.role && n'.log == n.log && n'.nextIndex == n.nextIndex[server := next]
    requires n.role.Leader? ==> next <= |n.log|
    ensures Reaches(n')
  {
    forall p: nat | n'.role.Leader? ensures Within(n', p) {
      assert Within(n, p);
    }
  }

  // ---- hints ----

  lemma RefusalHints(n: Node, a: AppendArgs, log: seq<Entry>)
    requires n.snap < |log| && 0 <= a.prev < |log|
    ensures var r := Refusal(n, a);
            r.Some? ==> r.value.xIndex <= |log| && (r.value.xTerm == -1 ==> r.value.xLen <= |log|)
  {
  }

  lemma AppendHints(r: Rules, s: Cluster, m: Msg)
    requires Inv(s) && m in s.msgs && m.AppendRequest? && m.to < |s.nodes|
    ensures HintOk(s.elections, AppendAnswer(m.to, m.args, HandleAppend(r, s.nodes[m.to], m.args).1, m.round))
  {
    var n, a := s.nodes[m.to], m.args;
    if a.term >= n.term {
      assert AppendOk(|s.nodes|, s.elections, s.commits, m.to, m.args);
      assert NodeOk(m.to, n, s.msgs, s.elections, s.commits);
      CommittedInLeader(|s.nodes|, s.msgs, s.elections, s.commits, n.log, n.commit, n.term, a.term);
      RefusalHints(CatchUp(n, a.term), a, s.elections[a.term].log);
    }
  }

  // ---- the leader's moves ----

  lemma {:induction false} ProbeDownBound(n: Node, term: nat, i: int)
    ensures ProbeDown(n, term, i) <= i
    decreases i - n.snap
  {
    if i > n.snap && TermAt(n.log, i) > term {
      ProbeDownBound(n, term, i - 1);
    }
  }

  lemma BackoffWithin(n: Node, next: int, r: AppendReply, snapTerm: nat)
    requires n.snap < |n.log| && next <= |n.log|
    requires r.xIndex <= |n.log| && (r.xTerm == -1 ==> r.xLen <= |n.log|)
    ensures Backoff(n, next, r, snapTerm) <= |n.log|
  {
    if r.xTerm != -1 {
      ProbeDownBound(n, r.term, Max(next - 1, n.snap));
    }
  }

  /** What a peer is known to hold is in the leader's log. */
  lemma MatchWithin(s: Cluster, c: nat, p: nat)
    requires Inv(s) && c < |s.nodes| && s.nodes[c].role.Leader?
    ensures Get(s.nodes[c].matchIndex, p) < |s.nodes[c].log|
  {
    var n := s.nodes[c];
    assert NodeOk(c, n, s.msgs, s.elections, s.commits);
    LeaderFacts(s, c);
    if p in n.matchIndex && n.matchIndex[p] > n.commit {
      var m :| m in s.msgs && IsAck(m, p, n.term, n.matchIndex[p]);
      assert AnswerOk(s.nodes, s.msgs, m);
      var q := AppendRequest(m.from, m.args, m.round);
      assert AppendOk(|s.nodes|, s.elections, s.commits, q.to, q.args);
    }
  }

  lemma SuccessReaches(s: Cluster, m: Msg)
    requires Inv(s) && NextOk(s) && m in s.msgs && m.AppendAnswer? && m.args.leader < |s.nodes|
    requires m.reply.success && m.args.term == s.nodes[m.args.leader].term
    ensures Reaches(HandleAppendReply(|s.nodes|, s.nodes[m.args.leader], m.args.leader, m.from, m.args, m.reply))
  {
    var c, a := m.args.leader, m.args;
    var n := s.nodes[c];
    var n' := HandleAppendReply(|s.nodes|, n, c, m.from, a, m.reply);
    assert Reaches(n);
    if n.role.Leader? {
      MatchWithin(s, c, m.from);
      assert NodeOk(c, n, s.msgs, s.elections, s.commits);
      LeaderFacts(s, c);
      assert AnswerOk(s.nodes, s.msgs, m);
      var q := AppendRequest(m.from, m.args, m.round);
      assert AppendOk(|s.nodes|, s.elections, s.commits, q.to, q.args);
    }
    MoveReaches(n, n', m.from, Max(Get(n.matchIndex, m.from), a.prev + |a.entries|) + 1);
  }

  lemma RefusedReaches(s: Cluster, m: Msg)
    requires Inv(s) && NextOk(s) && m in s.msgs && m.AppendAnswer? && m.args.leader < |s.nodes|
    requires !m.reply.success && m.args.term == s.nodes[m.args.leader].term
    ensures Reaches(HandleAppendReply(|s.nodes|, s.nodes[m.args.leader], m.args.leader, m.from, m.args, m.reply))
  {
    var c := m.args.leader;
    var n := s.nodes[c];
    assert Reaches(n);
    assert HintOk(s.elections, m);
    assert NodeOk(c, n, s.msgs, s.elections, s.commits);
    if m.reply.term == n.term && n.role.Leader? {
      LeaderFacts(s, c);
      var next, snapTerm := Get(n.nextIndex, m.from), Max(0, TermAt(n.log, n.snap));
      assert Within(n, m.from);
      BackoffWithin(n, next, m.reply, snapTerm);
      var n' := n.(nextIndex := n.nextIndex[m.from := Backoff(n, next, m.reply, snapTerm)]);
      MoveReaches(n, n', m.from, Backoff(n, next, m.reply, snapTerm));
    }
  }

  lemma AnswerReaches(s: Cluster, m: Msg)
    requires Inv(s) && NextOk(s) && m in s.msgs && m.AppendAnswer? && m.args.leader < |s.nodes|
    ensures Reaches(HandleAppendReply(|s.nodes|, s.nodes[m.args.leader], m.args.leader, m.from, m.args, m.reply))
  {
    if m.args.term != s.nodes[m.args.leader].term {
      assert Reaches(s.nodes[m.args.leader]);
    } else if m.reply.success {
      SuccessReaches(s, m);
    } else {
      RefusedReaches(s, m);
    }
  }

  lemma InstallReplyReaches(s: Cluster, c: nat, server: nat, term: nat)
    requires Inv(s) && NextOk(s) && c < |s.nodes|
    ensures Reaches(InstallReply(s.nodes[c], server, term))
  {
    var n := s.nodes[c];
    assert Reaches(n);
    assert NodeOk(c, n, s.msgs, s.elections, s.commits);
    if term > n.term {
      StillReaches(n, StepDown(n, term));
    } else {
      assert n.role.Leader? ==> Within(n, server);
      MoveReaches(n, InstallReply(n, server, term), server, Max(n.snap + 1, Get(n.nextIndex, server)));
    }
  }

  lemma AppendReaches(r: Rules, n: Node, a: AppendArgs)
    requires Reaches(n)
    ensures Reaches(HandleAppend(r, n, a).0)
  {
    var m := CatchUp(n, a.term);
    StillReaches(n, m);
    if a.term >= n.term && Refusal(m, a).None? {
      StillReaches(m, Accept(r, m, a));
    }
  }

  // ---- every step ----

  /** The step of one node, given what it does to that node and that it sends no refusal. */
  lemma ActorNext(r: Rules, s: Cluster, e: Event, n: Node)
    requires Sound(r) && Inv(s) && NextOk(s) && |s.nodes| == r.nodes && Actor(e) < r.nodes
    requires var s' := Apply(r, s, e);
             && s'.nodes == s.nodes[Actor(e) := n] && Reaches(n)
             && forall m :: m in s'.msgs && m.AppendAnswer? ==> m in s.msgs || HintOk(s'.elections, m)
    ensures NextOk(Apply(r, s, e))
  {
    Step(r, s, e);
    ChangeKeeps(s, Apply(r, s, e), Actor(e), n);
  }

  lemma CampaignNext(r: Rules, s: Cluster, e: Event)
    requires Sound(r) && Inv(s) && NextOk(s) && |s.nodes| == r.nodes && ElectionEvent(e)
    ensures NextOk(Apply(r, s, e))
  {
    var s', c := Apply(r, s, e), Actor(e);
    if s' != s {
      assert Reaches(s.nodes[c]);
      if e.Count? {
        CountReaches(r, s.nodes[c], e.ballot.call.term, e.late);
      } else {
        StillReaches(s.nodes[c], s'.nodes[c]);
      }
      ActorNext(r, s, e, s'.nodes[c]);
    }
  }

  lemma ReplicateNext(r: Rules, s: Cluster, e: Event)
    requires Sound(r) && Inv(s) && NextOk(s) && |s.nodes| == r.nodes && ReplicationEvent(e)
    ensures NextOk(Apply(r, s, e))
  {
    var s', c := Apply(r, s, e), Actor(e);
    if s' != s {
      assert Reaches(s.nodes[c]);
      if e.DeliverAppend? {
        AppendReaches(r, s.nodes[c], e.msg.args);
        AppendHints(r, s, e.msg);
      } else if e.DeliverAppendAnswer? {
        AnswerReaches(s, e.msg);
      } else {
        StillReaches(s.nodes[c], s'.nodes[c]);
      }
      ActorNext(r, s, e, s'.nodes[c]);
    }
  }

  lemma LocalNext(r: Rules, s: Cluster, e: Event)
    requires Sound(r) && Inv(s) && NextOk(s) && |s.nodes| == r.nodes && !ElectionEvent(e) && !ReplicationEvent(e)
    ensures NextOk(Apply(r, s, e))
  {
    var s', c := Apply(r, s, e), Actor(e);
    if s' != s {
      assert Reaches(s.nodes[c]);
      if e.DeliverSnapshotAnswer? {
        InstallReplyReaches(s, c, e.msg.from, e.msg.term);
      } else {
        StillReaches(s.nodes[c], s'.nodes[c]);
      }
      ActorNext(r, s, e, s'.nodes[c]);
    }
  }

  lemma {:induction false} RunNext(r: Rules, events: seq<Event>)
    requires Sound(r)
    ensures NextOk(Run(r, events))
    decreases |events|
  {
    if events != [] {
      var front, e := events[..|events| - 1], events[|events| - 1];
      RunNext(r, front);
      RunInv(r, front);
      if ElectionEvent(e) {
        CampaignNext(r, Run(r, front), e);
      } else if ReplicationEvent(e) {
        ReplicateNext(r, Run(r, front), e);
      } else {
        LocalNext(r, Run(r, front), e);
      }
    }
  }

  /** In every run a leader's probes, and what it knows its peers hold, lie within its log. */
  lemma ProbesWithin(r: Rules, events: seq<Event>, c: nat, p: nat)
    requires Sound(r) && c < r.nodes && Run(r, events).nodes[c].role.Leader?
    ensures var n := Run(r, events).nodes[c];
            && Get(n.nextIndex, p) <= |n.log| && Get(n.matchIndex, p) < |n.log|
            && n.snap <= n.commit < |n.log|
  {
    var s := Run(r, events);
    RunInv(r, events);
    RunNext(r, events);
    assert Reaches(s.nodes[c]) && Within(s.nodes[c], p);
    MatchWithin(s, c, p);
    assert NodeOk(c, s.nodes[c], s.msgs, s.elections, s.commits);
  }

  /** In every run a leader and any peer that is not ahead of it hold what probing assumes. */
  lemma LeaderKnows(r: Rules, events: seq<Event>, c: nat, p: nat, term: nat)
    requires Sound(r) && IsLeader(Run(r, events), c, term) && p < r.nodes && Run(r, events).nodes[p].term <= term
    ensures Known(Run(r, events).nodes[c], Run(r, events).nodes[p]) && Ordered(Run(r, events).nodes[c].log)
  {
    var s := Run(r, events);
    var n, f := s.nodes[c], s.nodes[p];
    RunInv(r, events);
    assert NodeOk(c, n, s.msgs, s.elections, s.commits) && NodeOk(p, f, s.msgs, s.elections, s.commits);
    LeaderHas(s, c, f.log, f.commit, f.term);
    forall i | 0 <= i <= f.commit ensures n.log[i].term == f.log[i].term {
      AgreeDown(f.log, n.log, f.commit, i);
    }
  }

  /** In every run, a leader's probing of a peer that is not ahead of it settles, where the two hold
      still, exactly when it does not land on a conflict with an entry of the leader's own term. */
  lemma ProbingInRuns(r: Rules, events: seq<Event>, c: nat, p: nat, term: nat)
    requires Sound(r) && IsLeader(Run(r, events), c, term) && p < r.nodes && Run(r, events).nodes[p].term <= term
    ensures var (n, f) := (Run(r, events).nodes[c], Run(r, events).nodes[p]);
            && n.snap < |n.log|
            && var next := Max(0, Get(n.nextIndex, p));
               Settles(n, f, c, next) <==> !Stuck(n, f, Landing(n, f, next))
  {
    var n, f := Run(r, events).nodes[c], Run(r, events).nodes[p];
    ProbesWithin(r, events, c, p);
    LeaderKnows(r, events, c, p, term);
    SettlesExactly(n, f, c, Max(0, Get(n.nextIndex, p)));
  }
}
