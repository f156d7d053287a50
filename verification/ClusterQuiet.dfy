/** Steps that leave every log, winner and commitment as it was. */
module ClusterQuiet {
  import opened Quorums
  import opened RaftNode
  import opened Cluster
  import opened ClusterInvariant

  lemma FromLeadersGrow(E: Elections, F: Elections, log: seq<Entry>)
    requires Extends(E, F) && FromLeaders(E, log)
    ensures FromLeaders(F, log)
  {
    forall i | 0 < i < |log| ensures FromLeader(F, log, i) {
      var t := log[i].term;
      assert FromLeader(E, log, i);
      assert F[t].log[..i + 1] == E[t].log[..i + 1];
    }
  }

  lemma CommittedGrow(E: Elections, F: Elections, C: Commits, D: Commits,
                      log: seq<Entry>, c: nat, term: nat, term': nat)
    requires Extends(E, F) && Recorded(C, D) && term <= term' && Committed(E, C, log, c, term)
    ensures Committed(F, D, log, c, term')
  {
    if c > 0 {
      var k :| k in C && k.0 in E && k.0 <= term && c <= k.1 && Agree(log, E[k.0].log, c);
      assert F[k.0].log[..c + 1] == E[k.0].log[..c + 1];
      assert k in D && Agree(log, F[k.0].log, c);
    }
  }

  /** A winner voted for itself and saved that vote. */
  lemma LeaderSaved(s: Cluster, t: nat)
    requires Inv(s) && t in s.elections
    ensures s.elections[t].leader < |s.nodes| && t <= s.nodes[s.elections[t].leader].saved.term
  {
    var e := s.elections[t];
    assert ElectionOk(|s.nodes|, s.msgs, s.elections, t);
    var m :| m in s.msgs && IsBallot(m) && m.from == e.leader && m.vote.term == t;
    assert BallotOk(s.nodes, s.msgs, s.elections, m);
  }

  /** The node's ballots and its standing as a candidate are as before. */
  predicate QuietVote(n: Node, n': Node) {
    && n'.saved.term >= n.saved.term
    && (n'.saved.term == n.saved.term ==> n'.saved.vote == n.saved.vote || n.saved.vote == NoVote)
    && (n'.role.Candidate? ==>
          n.role.Candidate? && n'.term == n.term && n'.vote == n.vote && n'.voteCount == n.voteCount
          && (n'.saved.term == n'.term || n'.saved.term == n.saved.term))
  }

  predicate Quiet(n: Node, n': Node) {
    n'.log == n.log && QuietVote(n, n')
  }

  lemma QuietLogs(s: Cluster, j: nat, n': Node)
    requires Inv(s) && j < |s.nodes| && Quiet(s.nodes[j], n')
    requires NodeOk(j, n', s.msgs, s.elections, s.commits)
    ensures LogsOk(Put(s, j, n'))
  {
    var nodes := s.nodes[j := n'];
    forall k | 0 <= k < |nodes| ensures NodeOk(k, nodes[k], s.msgs, s.elections, s.commits) {
      assert NodeOk(k, s.nodes[k], s.msgs, s.elections, s.commits);
    }
    forall p, t, i | Acked(s.msgs, s.elections, p, t, i) ensures AckOk(nodes, s.elections, p, t, i) {
      assert AckOk(s.nodes, s.elections, p, t, i);
    }
    forall m | m in s.msgs && m.AppendAnswer? && m.reply.success ensures AnswerOk(nodes, s.msgs, m) {
      assert AnswerOk(s.nodes, s.msgs, m);
    }
  }

  lemma QuietVotes(s: Cluster, j: nat, n': Node)
    requires Inv(s) && j < |s.nodes| && QuietVote(s.nodes[j], n')
    requires n'.log == s.nodes[j].log || n'.term in s.elections
    ensures VotesOk(Put(s, j, n'))
  {
    var nodes := s.nodes[j := n'];
    forall m | m in s.msgs && IsBallot(m) ensures BallotOk(nodes, s.msgs, s.elections, m) {
      assert BallotOk(s.nodes, s.msgs, s.elections, m);
    }
    forall m | m in s.msgs && m.VoteRequest? ensures RequestOk(nodes, s.elections, m.vote) {
      assert RequestOk(s.nodes, s.elections, m.vote);
    }
    forall k | 0 <= k < |nodes| ensures CandidateOk(|nodes|, k, nodes[k], s.tally[k], s.msgs, s.elections) {
      assert CandidateOk(|s.nodes|, k, s.nodes[k], s.tally[k], s.msgs, s.elections);
    }
    forall k | k in s.calls ensures CallOk(nodes, s.tally, k) {
      assert CallOk(s.nodes, s.tally, k);
    }
    forall b | b in s.passed ensures PassedOk(Put(s, j, n'), b) {
      assert PassedOk(s, b);
    }
  }

  lemma QuietStep(s: Cluster, j: nat, n': Node)
    requires Inv(s) && j < |s.nodes| && Quiet(s.nodes[j], n')
    requires NodeOk(j, n', s.msgs, s.elections, s.commits)
    ensures Inv(Put(s, j, n'))
  {
    QuietLogs(s, j, n');
    QuietVotes(s, j, n');
    assert ReadsOk(Put(s, j, n')) by { QuietReads(s, Put(s, j, n')); }
  }

  lemma QuietReads(s: Cluster, s': Cluster)
    requires ReadsOk(s) && s'.samples == s.samples && s'.msgs == s.msgs
    requires Extends(s.elections, s'.elections) && Recorded(s.commits, s'.commits)
    ensures ReadsOk(s')
  {
    forall x | x in s'.samples ensures SampleOk(s', s'.samples[x]) {
      assert SampleOk(s, s.samples[x]);
      ExtendsTrans(s.samples[x].elections, s.elections, s'.elections);
    }
    forall m | m in s'.msgs ensures RoundOk(s', m) {
      assert RoundOk(s, m);
    }
  }

  lemma ExtendsTrans(E: Elections, F: Elections, G: Elections)
    requires Extends(E, F) && Extends(F, G)
    ensures Extends(E, G)
  {
    forall t | t in E ensures t in G && E[t].log <= G[t].log {
      assert E[t].log <= F[t].log && F[t].log <= G[t].log;
    }
  }

  // ---- handlers that are quiet ----

  lemma NoLeadAhead(s: Cluster, j: nat, t: nat)
    requires Inv(s) && j < |s.nodes| && s.nodes[j].saved.term < t
    ensures !Leads(s.elections, j, t)
  {
    if Leads(s.elections, j, t) {
      LeaderSaved(s, t);
    }
  }

  lemma CatchUpStep(s: Cluster, j: nat, t: nat)
    requires Inv(s) && j < |s.nodes|
    ensures Inv(Put(s, j, CatchUp(s.nodes[j], t)))
  {
    var n := s.nodes[j];
    assert NodeOk(j, n, s.msgs, s.elections, s.commits);
    if t > n.term {
      NoLeadAhead(s, j, t);
      CommittedGrow(s.elections, s.elections, s.commits, s.commits, n.log, n.commit, n.term, t);
      QuietStep(s, j, StepDown(n, t));
    } else {
      assert s.nodes[j := n] == s.nodes;
    }
  }

  lemma PersistStep(s: Cluster, j: nat)
    requires Inv(s) && j < |s.nodes|
    ensures Inv(Put(s, j, Persist(s.nodes[j])))
  {
    var n := s.nodes[j];
    assert NodeOk(j, n, s.msgs, s.elections, s.commits);
    if n.saved.term < n.term {
      NoLeadAhead(s, j, n.term);
    }
    QuietStep(s, j, Persist(n));
  }

  lemma CompactStep(s: Cluster, j: nat, index: nat)
    requires Inv(s) && j < |s.nodes|
    ensures Inv(Put(s, j, Compact(s.nodes[j], index)))
  {
    var n := s.nodes[j];
    assert NodeOk(j, n, s.msgs, s.elections, s.commits);
    if n.saved.term < n.term {
      NoLeadAhead(s, j, n.term);
    }
    QuietStep(s, j, Compact(n, index));
  }

  lemma CrashStep(r: Rules, s: Cluster, j: nat, snap: nat)
    requires Inv(s) && j < |s.nodes| && snap <= s.nodes[j].saved.snap
    ensures Inv(Apply(r, s, Crash(j, snap)))
  {
    var n := s.nodes[j];
    assert NodeOk(j, n, s.msgs, s.elections, s.commits);
    QuietStep(s, j, Restart(n, snap));
    var s1, s2 := Put(s, j, Restart(n, snap)), Apply(r, s, Crash(j, snap));
    forall k | k in s2.calls ensures CallOk(s2.nodes, s2.tally, k) {
      assert CallOk(s1.nodes, s1.tally, k);
    }
    forall b | b in s2.passed ensures PassedOk(s2, b) {
      assert PassedOk(s1, b);
    }
    QuietReads(s1, s2);
  }

  lemma InstallReplyStep(s: Cluster, j: nat, server: nat, t: nat)
    requires Inv(s) && j < |s.nodes|
    ensures Inv(Put(s, j, InstallReply(s.nodes[j], server, t)))
  {
    var n := s.nodes[j];
    assert NodeOk(j, n, s.msgs, s.elections, s.commits);
    CatchUpStep(s, j, t);
    if t <= n.term {
      QuietStep(s, j, InstallReply(n, server, t));
    }
  }

  /** The snapshot request's last entry, found in the log, makes the whole prefix the leader's. */
  lemma InstallStep(s: Cluster, j: nat, a: SnapArgs)
    requires Inv(s) && j < |s.nodes| && SnapOk(s.elections, s.commits, a)
    ensures Inv(Put(s, j, Install(s.nodes[j], a)))
  {
    if a.term >= s.nodes[j].term {
      InstalledNode(s, j, a);
      QuietStep(s, j, Install(s.nodes[j], a));
    } else {
      assert s.nodes[j := s.nodes[j]] == s.nodes;
    }
  }

  lemma FollowingNode(s: Cluster, j: nat, term: nat)
    requires Inv(s) && j < |s.nodes| && term >= s.nodes[j].term
    ensures NodeOk(j, Following(s.nodes[j], term), s.msgs, s.elections, s.commits)
  {
    var E, n := s.elections, s.nodes[j];
    assert NodeOk(j, n, s.msgs, E, s.commits);
    if term > n.term {
      NoLeadAhead(s, j, term);
      CommittedGrow(E, E, s.commits, s.commits, n.log, n.commit, n.term, term);
    }
  }

  lemma InstalledNode(s: Cluster, j: nat, a: SnapArgs)
    requires Inv(s) && j < |s.nodes| && SnapOk(s.elections, s.commits, a) && a.term >= s.nodes[j].term
    ensures NodeOk(j, Install(s.nodes[j], a), s.msgs, s.elections, s.commits)
    ensures Quiet(s.nodes[j], Install(s.nodes[j], a))
  {
    FollowingNode(s, j, a.term);
    var m, n' := Following(s.nodes[j], a.term), Install(s.nodes[j], a);
    if n' != m {
      InstalledCommit(s, m.log, a);
    }
  }

  lemma InstalledCommit(s: Cluster, log: seq<Entry>, a: SnapArgs)
    requires Inv(s) && SnapOk(s.elections, s.commits, a)
    requires FromLeaders(s.elections, log) && |log| > 0 && log[0] == Placeholder
    requires Contains(log, a.indexTerm, a.index)
    ensures Committed(s.elections, s.commits, log, a.index, a.term)
  {
    var E := s.elections;
    assert ElectionOk(|s.nodes|, s.msgs, E, a.term);
    LogMatching(E, log, E[a.term].log, a.index);
    if a.index > 0 {
      var k :| k in s.commits && k.0 in E && k.0 <= a.term && a.index <= k.1
               && Agree(E[a.term].log, E[k.0].log, a.index);
      assert Agree(log, E[k.0].log, a.index);
    }
  }

  // ---- messages that promise nothing ----

  predicate Noise(s: Cluster, m: Msg) {
    || (m.VoteAnswer? && !m.granted.granted)
    || (m.AppendAnswer? && !m.reply.success
        && (m.round > 0 ==> m.round in s.samples && m.args.leader == s.samples[m.round].node))
    || m.SnapAnswer?
  }

  lemma SendNoise(s: Cluster, m: Msg)
    requires Inv(s) && Noise(s, m)
    ensures Inv(Send(s, m))
  {
    var msgs := s.msgs + {m};
    SendLogs(s, m);
    SendVotes(s, m);
    SendReads(s, m);
  }

  lemma SendReads(s: Cluster, m: Msg)
    requires Sized(s) && ReadsOk(s) && RoundOk(s, m)
    ensures ReadsOk(Send(s, m))
  {
    forall x | x in s.samples ensures SampleOk(Send(s, m), s.samples[x]) {
      assert SampleOk(s, s.samples[x]);
    }
    forall a | a in s.msgs + {m} ensures RoundOk(Send(s, m), a) {
      assert RoundOk(s, a);
    }
  }

  /** A new message that is neither a ballot nor an acknowledgement. */
  lemma SendLogs(s: Cluster, m: Msg)
    requires Inv(s) && !IsBallot(m) && !(m.AppendAnswer? && m.reply.success)
    requires m.AppendRequest? ==> AppendOk(|s.nodes|, s.elections, s.commits, m.to, m.args)
    requires m.SnapRequest? ==> SnapOk(s.elections, s.commits, m.snap)
    ensures LogsOk(Send(s, m))
  {
    var E, msgs := s.elections, s.msgs + {m};
    AcksSame(s.msgs, msgs, E, m);
    ElectionsHearMore(|s.nodes|, s.msgs, msgs, E);
    NodesHearMore(s.nodes, s.msgs, msgs, E, s.commits);
    KeepsSame(s.msgs, msgs, E, m);
    assert AcksOk(s.nodes, msgs, E);
    CommitsHearMore(|s.nodes|, s.msgs, msgs, E, s.commits);
    AnswersHearMore(s.nodes, s.msgs, msgs);
    assert AppendsOk(|s.nodes|, msgs, E, s.commits);
    assert SnapsOk(msgs, E, s.commits);
  }

  lemma ElectionsHearMore(nodes: nat, before: set<Msg>, msgs: set<Msg>, E: Elections)
    requires before <= msgs && ElectionsOk(nodes, before, E)
    ensures ElectionsOk(nodes, msgs, E)
  {
    VotedGrows(before, msgs);
    forall t | t in E ensures ElectionOk(nodes, msgs, E, t) {
      assert ElectionOk(nodes, before, E, t);
    }
  }

  lemma NodesHearMore(nodes: seq<Node>, before: set<Msg>, msgs: set<Msg>, E: Elections, C: Commits)
    requires before <= msgs && NodesOk(nodes, before, E, C)
    ensures NodesOk(nodes, msgs, E, C)
  {
    AckSentGrows(before, msgs);
    forall j | 0 <= j < |nodes| ensures NodeOk(j, nodes[j], msgs, E, C) {
      assert NodeOk(j, nodes[j], before, E, C);
    }
  }

  lemma CommitsHearMore(nodes: nat, before: set<Msg>, msgs: set<Msg>, E: Elections, C: Commits)
    requires before <= msgs && CommitsOk(nodes, before, E, C)
    ensures CommitsOk(nodes, msgs, E, C)
  {
    AckSentGrows(before, msgs);
    forall k | k in C ensures CommitOk(nodes, msgs, E, k, C[k]) {
      assert CommitOk(nodes, before, E, k, C[k]);
    }
  }

  lemma AnswersHearMore(nodes: seq<Node>, before: set<Msg>, msgs: set<Msg>)
    requires before <= msgs && AnswersOk(nodes, before)
    requires forall m :: m in msgs && m !in before && m.AppendAnswer? && m.reply.success ==> AnswerOk(nodes, msgs, m)
    ensures AnswersOk(nodes, msgs)
  {
    forall m | m in msgs && m.AppendAnswer? && m.reply.success ensures AnswerOk(nodes, msgs, m) {
      assert m in before ==> AnswerOk(nodes, before, m);
    }
  }

  lemma KeepsSame(before: set<Msg>, msgs: set<Msg>, E: Elections, m: Msg)
    requires msgs == before + {m} && !IsBallot(m)
    requires forall p, t, i :: Acked(msgs, E, p, t, i) <==> Acked(before, E, p, t, i)
    requires BallotsKeep(before, E) && VotersKeep(before, E)
    ensures BallotsKeep(msgs, E) && VotersKeep(msgs, E)
  {
    forall b | b in msgs && IsBallot(b) ensures Keeps(msgs, E, b.from, b.seen, b.vote.term, b.vote.term) {
      assert Keeps(before, E, b.from, b.seen, b.vote.term, b.vote.term);
    }
    forall t, p | t in E && p in E[t].voters ensures Keeps(msgs, E, p, E[t].voters[p], t, t - 1) {
      assert Keeps(before, E, p, E[t].voters[p], t, t - 1);
    }
  }

  lemma AcksSame(before: set<Msg>, msgs: set<Msg>, E: Elections, m: Msg)
    requires msgs == before + {m} && !(m.AppendAnswer? && m.reply.success)
    ensures forall p, t, i :: Acked(msgs, E, p, t, i) <==> Acked(before, E, p, t, i)
  {
  }

  lemma AckSentGrows(before: set<Msg>, msgs: set<Msg>)
    requires before <= msgs
    ensures forall p, t, i :: AckSent(before, p, t, i) ==> AckSent(msgs, p, t, i)
  {
  }

  lemma VotedGrows(before: set<Msg>, msgs: set<Msg>)
    requires before <= msgs
    ensures forall p, t, c, seen :: Voted(before, p, t, c, seen) ==> Voted(msgs, p, t, c, seen)
  {
  }

  lemma SendVotes(s: Cluster, m: Msg)
    requires Sized(s) && VotesOk(s) && !IsBallot(m)
    requires m.VoteRequest? ==> RequestOk(s.nodes, s.elections, m.vote)
    ensures VotesOk(Send(s, m))
  {
    var msgs := s.msgs + {m};
    forall b | b in msgs && IsBallot(b) ensures BallotOk(s.nodes, msgs, s.elections, b) {
      assert BallotOk(s.nodes, s.msgs, s.elections, b);
    }
    forall a | a in msgs && a.VoteRequest? ensures RequestOk(s.nodes, s.elections, a.vote) {
      assert a in s.msgs ==> RequestOk(s.nodes, s.elections, a.vote);
    }
    CandidatesHearMore(s, m);
  }

  lemma CandidatesHearMore(s: Cluster, m: Msg)
    requires Sized(s) && CandidatesOk(s.nodes, s.tally, s.msgs, s.elections) && CallsOk(s)
    ensures CandidatesOk(s.nodes, s.tally, Send(s, m).msgs, s.elections) && CallsOk(Send(s, m))
  {
    var msgs := s.msgs + {m};
    VotedGrows(s.msgs, msgs);
    forall k | 0 <= k < |s.nodes| ensures CandidateOk(|s.nodes|, k, s.nodes[k], s.tally[k], msgs, s.elections) {
      assert CandidateOk(|s.nodes|, k, s.nodes[k], s.tally[k], s.msgs, s.elections);
    }
    forall b | b in s.passed ensures PassedOk(Send(s, m), b) {
      assert PassedOk(s, b);
    }
  }
}
