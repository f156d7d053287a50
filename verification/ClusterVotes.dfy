/** Steps of an election. */
module ClusterVotes {
  import opened Quorums
  import opened RaftNode
  import opened Cluster
  import opened ClusterInvariant
  import opened ClusterQuiet

  lemma AddRequest(s: Cluster, a: VoteArgs)
    requires Inv(s) && RequestOk(s.nodes, s.elections, a)
    ensures Inv(Send(s, VoteRequest(a)))
  {
    SendLogs(s, VoteRequest(a));
    SendVotes(s, VoteRequest(a));
    SendReads(s, VoteRequest(a));
  }

  /** A vote is saved before it is sent, so it is the node's only one in its term. */
  lemma AddBallot(s: Cluster, m: Msg)
    requires Inv(s) && IsBallot(m) && m.from < |s.nodes|
    requires m.vote.term == s.nodes[m.from].saved.term && m.vote.candidate == s.nodes[m.from].saved.vote
    requires VoteRequest(m.vote) in s.msgs && UpToDate(m.vote, m.seen) && m.seen == s.nodes[m.from].log
    ensures Inv(Send(s, m))
  {
    AddBallotLogs(s, m);
    assert NodeOk(m.from, s.nodes[m.from], s.msgs, s.elections, s.commits);
    AddBallotVotes(s, m);
    SendReads(s, m);
  }

  lemma AddBallotVotes(s: Cluster, m: Msg)
    requires Sized(s) && VotesOk(s) && IsBallot(m)
    requires BallotOk(s.nodes, s.msgs, s.elections, m) && m.vote.term == s.nodes[m.from].saved.term
    ensures VotesOk(Send(s, m))
  {
    var E, msgs := s.elections, s.msgs + {m};
    CandidatesHearMore(s, m);
    forall b | b in msgs && IsBallot(b) ensures BallotOk(s.nodes, msgs, E, b) {
      assert BallotOk(s.nodes, s.msgs, E, b);
    }
    forall b, b' | b in msgs && b' in msgs && SameBallot(b, b') ensures b.vote.candidate == b'.vote.candidate {
      assert BallotOk(s.nodes, msgs, E, b) && BallotOk(s.nodes, msgs, E, b');
    }
    forall q | q in msgs && q.VoteRequest? ensures RequestOk(s.nodes, E, q.vote) {
      assert RequestOk(s.nodes, E, q.vote);
    }
  }

  lemma AddBallotLogs(s: Cluster, m: Msg)
    requires Inv(s) && IsBallot(m) && m.from < |s.nodes|
    requires m.vote.term == s.nodes[m.from].saved.term && m.seen == s.nodes[m.from].log
    ensures LogsOk(Send(s, m))
  {
    var E, msgs := s.elections, s.msgs + {m};
    AcksSame(s.msgs, msgs, E, m);
    ElectionsHearMore(|s.nodes|, s.msgs, msgs, E);
    NodesHearMore(s.nodes, s.msgs, msgs, E, s.commits);
    CommitsHearMore(|s.nodes|, s.msgs, msgs, E, s.commits);
    AnswersHearMore(s.nodes, s.msgs, msgs);
    forall b | b in msgs && IsBallot(b) ensures Keeps(msgs, E, b.from, b.seen, b.vote.term, b.vote.term) {
      if b == m {
        forall t, i | Acked(msgs, E, m.from, t, i) ensures Contains(m.seen, t, i) || Lacked(E, t, i, m.vote.term) {
          assert AckOk(s.nodes, E, m.from, t, i);
        }
      } else {
        assert Keeps(s.msgs, E, b.from, b.seen, b.vote.term, b.vote.term);
      }
    }
    forall t: nat, p | t in E && p in E[t].voters ensures Keeps(msgs, E, p, E[t].voters[p], t, t - 1) {
      assert Keeps(s.msgs, E, p, E[t].voters[p], t, t - 1);
    }
    assert AppendsOk(|s.nodes|, msgs, E, s.commits);
    assert SnapsOk(msgs, E, s.commits);
  }

  lemma VoteStep(s: Cluster, j: nat, a: VoteArgs)
    requires Inv(s) && j < |s.nodes| && VoteRequest(a) in s.msgs
    ensures Inv(ApplyVote(s, j, a))
  {
    var n := s.nodes[j];
    if a.term < n.term {
      assert s.nodes[j := n] == s.nodes;
      SendNoise(s, VoteAnswer(j, a, VoteReply(n.term, false), n.log));
    } else {
      CatchUpStep(s, j, a.term);
      var s1 := Put(s, j, CatchUp(n, a.term));
      if Grants(s1.nodes[j], a) {
        GrantStep(s1, j, a);
        assert s.nodes[j := Grant(s1.nodes[j], a)] == s1.nodes[j := Grant(s1.nodes[j], a)];
      } else {
        SendNoise(s1, VoteAnswer(j, a, VoteReply(a.term, false), n.log));
      }
    }
  }

  lemma GrantStep(s: Cluster, j: nat, a: VoteArgs)
    requires Inv(s) && j < |s.nodes| && VoteRequest(a) in s.msgs
    requires s.nodes[j].term == a.term && Grants(s.nodes[j], a)
    ensures Inv(Send(Put(s, j, Grant(s.nodes[j], a)), VoteAnswer(j, a, VoteReply(a.term, true), s.nodes[j].log)))
  {
    var n := s.nodes[j];
    assert NodeOk(j, n, s.msgs, s.elections, s.commits);
    if n.saved.term < n.term {
      NoLeadAhead(s, j, n.term);
    }
    if n.role.Leader? && n.vote == NoVote {
      LeaderVoted(s, j);
    }
    QuietStep(s, j, Grant(n, a));
    AddBallot(Put(s, j, Grant(n, a)), VoteAnswer(j, a, VoteReply(a.term, true), n.log));
  }

  lemma LeaderVoted(s: Cluster, j: nat)
    requires Inv(s) && j < |s.nodes| && s.nodes[j].role.Leader?
    ensures s.nodes[j].vote == j
  {
    var E, n := s.elections, s.nodes[j];
    assert NodeOk(j, n, s.msgs, E, s.commits);
    assert ElectionOk(|s.nodes|, s.msgs, E, n.term);
    var m :| m in s.msgs && IsBallot(m) && m.from == j && m.vote.term == n.term && m.vote.candidate == j;
    assert BallotOk(s.nodes, s.msgs, E, m);
  }

  /** Between the two halves of a time-out: term and vote are taken, request and vote are out. */
  function Declared(s: Cluster, c: nat): (s': Cluster)
    requires Sized(s) && c < |s.nodes|
    ensures Sized(s')
  {
    var (n, a) := StartElection(s.nodes[c], c);
    Send(Send(Put(s, c, n.(role := Follower)), VoteRequest(a)),
         VoteAnswer(c, a, VoteReply(a.term, true), n.log))
  }

  lemma DeclareStep(s: Cluster, c: nat)
    requires Inv(s) && c < |s.nodes|
    ensures Inv(Declared(s, c)) && !Leads(s.elections, c, s.nodes[c].term + 1)
  {
    var n := s.nodes[c];
    var (n', a) := StartElection(n, c);
    assert NodeOk(c, n, s.msgs, s.elections, s.commits);
    NoLeadAhead(s, c, n.term + 1);
    CommittedGrow(s.elections, s.elections, s.commits, s.commits, n.log, n.commit, n.term, n.term + 1);
    QuietStep(s, c, n'.(role := Follower));
    var s1 := Put(s, c, n'.(role := Follower));
    AddRequest(s1, a);
    AddBallot(Send(s1, VoteRequest(a)), VoteAnswer(c, a, VoteReply(a.term, true), n'.log));
  }

  lemma TimeoutIsStand(s: Cluster, c: nat)
    requires Sized(s) && c < |s.nodes|
    ensures ApplyTimeout(s, c) == Stand(Declared(s, c), c, s.nodes[c].term + 1)
  {
    var t, u := ApplyTimeout(s, c), Stand(Declared(s, c), c, s.nodes[c].term + 1);
    assert t.nodes == u.nodes;
    assert t.msgs == u.msgs;
    assert t.calls == u.calls;
    assert t.tally == u.tally;
  }

  lemma TimeoutStep(s: Cluster, c: nat)
    requires Inv(s) && c < |s.nodes|
    ensures Inv(ApplyTimeout(s, c))
  {
    var (n', a) := StartElection(s.nodes[c], c);
    DeclareStep(s, c);
    FirstInTerm(s, c);
    assert VoteAnswer(c, a, VoteReply(a.term, true), n'.log) in Declared(s, c).msgs;
    StandStep(Declared(s, c), c, a);
    TimeoutIsStand(s, c);
  }

  lemma FirstInTerm(s: Cluster, c: nat)
    requires Inv(s) && c < |s.nodes|
    ensures forall k :: k in s.calls && k.candidate == c ==> k.term <= s.nodes[c].term
    ensures forall b :: b in s.passed && b.call.candidate == c ==> b.call.term <= s.nodes[c].term
    ensures forall q :: q in s.msgs && q.VoteRequest? && q.vote.candidate == c ==> q.vote.term <= s.nodes[c].term
  {
    assert NodeOk(c, s.nodes[c], s.msgs, s.elections, s.commits);
    forall k | k in s.calls && k.candidate == c ensures k.term <= s.nodes[c].term {
      assert CallOk(s.nodes, s.tally, k);
    }
    forall b | b in s.passed && b.call.candidate == c ensures b.call.term <= s.nodes[c].term {
      assert PassedOk(s, b);
    }
    forall q | q in s.msgs && q.VoteRequest? && q.vote.candidate == c ensures q.vote.term <= s.nodes[c].term {
      assert RequestOk(s.nodes, s.elections, q.vote);
    }
  }

  /** The node has taken the new term and its own vote, and has done nothing else in that term. */
  ghost predicate ReadyToStand(s: Cluster, c: nat, a: VoteArgs) {
    && c < |s.nodes|
    && var n := s.nodes[c];
    && n.role.Follower? && n.term == n.saved.term == a.term && n.vote == c
    && n.voteCount == 1 && n.term >= 1 && !Leads(s.elections, c, n.term)
    && a.lastIndex == LastIndex(n.log) && a.lastTerm == LastTerm(n.log)
    && Voted(s.msgs, c, a.term, c, n.log)
    && (forall k :: k in s.calls && k.candidate == c ==> k.term < a.term)
    && (forall b :: b in s.passed && b.call.candidate == c ==> b.call.term < a.term)
    && (forall q :: q in s.msgs && q.VoteRequest? && q.vote.candidate == c && q.vote.term == a.term ==> q.vote == a)
  }

  function Stand(s: Cluster, c: nat, term: nat): Cluster
    requires Sized(s) && c < |s.nodes|
  {
    Put(s, c, s.nodes[c].(role := Candidate)).(
      calls := s.calls + CallPeers(|s.nodes|, c, term),
      tally := s.tally[c := map[c := s.nodes[c].log]])
  }

  lemma StandStep(s: Cluster, c: nat, a: VoteArgs)
    requires Inv(s) && ReadyToStand(s, c, a)
    ensures Inv(Stand(s, c, a.term))
  {
    var s' := Stand(s, c, a.term);
    var n, n' := s.nodes[c], s'.nodes[c];
    assert NodeOk(c, n, s.msgs, s.elections, s.commits);
    assert NodeOk(c, n', s.msgs, s.elections, s.commits);
    forall k | 0 <= k < |s'.nodes| ensures NodeOk(k, s'.nodes[k], s'.msgs, s'.elections, s'.commits) {
      assert NodeOk(k, s.nodes[k], s.msgs, s.elections, s.commits);
    }
    assert AcksOk(s'.nodes, s'.msgs, s'.elections) by {
      forall p, t, i | Acked(s.msgs, s.elections, p, t, i) ensures AckOk(s'.nodes, s.elections, p, t, i) {
        assert AckOk(s.nodes, s.elections, p, t, i);
      }
    }
    forall m | m in s.msgs && m.AppendAnswer? && m.reply.success ensures AnswerOk(s'.nodes, s.msgs, m) {
      assert AnswerOk(s.nodes, s.msgs, m);
    }
    StandVotes(s, c, a);
    QuietReads(s, s');
  }

  lemma StandVotes(s: Cluster, c: nat, a: VoteArgs)
    requires Sized(s) && VotesOk(s) && ReadyToStand(s, c, a)
    ensures VotesOk(Stand(s, c, a.term))
  {
    var s' := Stand(s, c, a.term);
    StandMessages(s, c, a);
    forall k | 0 <= k < |s'.nodes| ensures CandidateOk(|s'.nodes|, k, s'.nodes[k], s'.tally[k], s.msgs, s.elections) {
      assert CandidateOk(|s.nodes|, k, s.nodes[k], s.tally[k], s.msgs, s.elections);
    }
    forall k | k in s'.calls ensures CallOk(s'.nodes, s'.tally, k) {
      assert k in s.calls ==> CallOk(s.nodes, s.tally, k);
    }
    forall b | b in s'.passed ensures PassedOk(s', b) {
      assert PassedOk(s, b);
    }
  }

  lemma StandMessages(s: Cluster, c: nat, a: VoteArgs)
    requires Sized(s) && VotesOk(s) && ReadyToStand(s, c, a)
    ensures var nodes := Stand(s, c, a.term).nodes;
            && (forall m {:trigger BallotOk(nodes, s.msgs, s.elections, m)} ::
                  m in s.msgs && IsBallot(m) ==> BallotOk(nodes, s.msgs, s.elections, m))
            && (forall m {:trigger RequestOk(nodes, s.elections, m.vote)} ::
                  m in s.msgs && m.VoteRequest? ==> RequestOk(nodes, s.elections, m.vote))
  {
    var s' := Stand(s, c, a.term);
    forall m | m in s.msgs && IsBallot(m) ensures BallotOk(s'.nodes, s.msgs, s.elections, m) {
      assert BallotOk(s.nodes, s.msgs, s.elections, m);
    }
    forall m | m in s.msgs && m.VoteRequest? ensures RequestOk(s'.nodes, s.elections, m.vote) {
      assert RequestOk(s.nodes, s.elections, m.vote);
    }
  }

  lemma VoteAnswerStep(s: Cluster, m: Msg)
    requires Inv(s) && m in s.msgs && m.VoteAnswer? && m.vote.candidate < |s.nodes|
    requires Call(m.vote.candidate, m.vote.term, m.from) in s.calls
    ensures Inv(ApplyVoteAnswer(s, m))
  {
    var c := m.vote.candidate;
    var call := Call(c, m.vote.term, m.from);
    var (n, pass) := HandleVoteReply(s.nodes[c], m.vote.term, m.granted);
    var s1 := Put(s, c, n);
    CatchUpStep(s, c, m.granted.term);
    assert s.nodes[c := s.nodes[c]] == s.nodes;
    assert Inv(s1);
    var s2 := ApplyVoteAnswer(s, m);
    assert pass ==> Voted(s2.msgs, m.from, m.vote.term, c, m.seen);
    assert CallOk(s1.nodes, s1.tally, call);
    assert CallsOk(s2) by {
      forall k | k in s2.calls ensures CallOk(s2.nodes, s2.tally, k) {
        assert CallOk(s1.nodes, s1.tally, k);
      }
      forall b | b in s2.passed ensures PassedOk(s2, b) {
        assert b in s1.passed ==> PassedOk(s1, b);
      }
      forall b, b' | b in s2.passed && b' in s2.passed && SameCall(b, b') ensures b == b' {
        assert b in s1.passed ==> PassedOk(s1, b);
        assert b' in s1.passed ==> PassedOk(s1, b');
      }
    }
    QuietReads(s1, s2);
  }

  lemma CountStep(r: Rules, s: Cluster, b: Ballot, late: bool)
    requires Inv(s) && r.recheckVote && r.nodes == |s.nodes| && b in s.passed && b.call.candidate < |s.nodes|
    ensures Inv(ApplyCount(r, s, b, late)) && Extends(s.elections, ApplyCount(r, s, b, late).elections)
  {
    var c := b.call.candidate;
    var n := s.nodes[c];
    var s' := ApplyCount(r, s, b, late);
    if !(n.role.Candidate? && n.term == b.call.term) || Enough(r.nodes, n.voteCount) {
      assert s'.nodes == s.nodes && s'.tally == s.tally;
      DropBallot(s, b);
      QuietReads(s, s');
    } else {
      var s1 := Tallied(s, b);
      TallyStep(s, b);
      CountIsTally(r, s, b, late);
      if s' != s1 {
        ElectStep(s1, c);
      }
    }
  }

  lemma CountIsTally(r: Rules, s: Cluster, b: Ballot, late: bool)
    requires Sized(s) && b.call.candidate < |s.nodes|
    requires s.nodes[b.call.candidate].role.Candidate? && s.nodes[b.call.candidate].term == b.call.term
    requires !Enough(r.nodes, s.nodes[b.call.candidate].voteCount)
    ensures var s1 := Tallied(s, b); var c := b.call.candidate;
            ApplyCount(r, s, b, late) ==
              if Enough(r.nodes, s1.nodes[c].voteCount) && !late then Elected(s1, c) else s1
  {
    var c, s1, s' := b.call.candidate, Tallied(s, b), ApplyCount(r, s, b, late);
    if Enough(r.nodes, s1.nodes[c].voteCount) && !late {
      assert s'.nodes == Elected(s1, c).nodes;
      assert s'.elections == Elected(s1, c).elections;
    } else {
      assert s'.nodes == s1.nodes;
    }
  }

  lemma DropBallot(s: Cluster, b: Ballot)
    requires Sized(s) && CallsOk(s)
    ensures CallsOk(s.(passed := s.passed - {b}))
  {
    forall d | d in s.passed - {b} ensures PassedOk(s.(passed := s.passed - {b}), d) {
      assert PassedOk(s, d);
    }
  }

  function Tallied(s: Cluster, b: Ballot): Cluster
    requires Sized(s) && b.call.candidate < |s.nodes|
  {
    var c := b.call.candidate;
    var tally: map<nat, seq<Entry>> := s.tally[c][b.call.peer := b.seen];
    Put(s, c, s.nodes[c].(voteCount := s.nodes[c].voteCount + 1)).(
      passed := s.passed - {b},
      tally := s.tally[c := tally])
  }

  lemma TallyStep(s: Cluster, b: Ballot)
    requires Inv(s) && b in s.passed && b.call.candidate < |s.nodes|
    requires s.nodes[b.call.candidate].role.Candidate? && s.nodes[b.call.candidate].term == b.call.term
    ensures Inv(Tallied(s, b))
  {
    var c := b.call.candidate;
    var s' := Tallied(s, b);
    var n := s.nodes[c];
    assert NodeOk(c, n, s.msgs, s.elections, s.commits);
    forall k | 0 <= k < |s'.nodes| ensures NodeOk(k, s'.nodes[k], s'.msgs, s'.elections, s'.commits) {
      assert NodeOk(k, s.nodes[k], s.msgs, s.elections, s.commits);
    }
    assert AcksOk(s'.nodes, s'.msgs, s'.elections) by {
      forall p, t, i | Acked(s.msgs, s.elections, p, t, i) ensures AckOk(s'.nodes, s.elections, p, t, i) {
        assert AckOk(s.nodes, s.elections, p, t, i);
      }
    }
    forall m | m in s.msgs && m.AppendAnswer? && m.reply.success ensures AnswerOk(s'.nodes, s.msgs, m) {
      assert AnswerOk(s.nodes, s.msgs, m);
    }
    TallyVotes(s, b);
    QuietReads(s, s');
  }

  lemma TallyCandidates(s: Cluster, b: Ballot)
    requires Sized(s) && CandidatesOk(s.nodes, s.tally, s.msgs, s.elections) && PassedOk(s, b)
    requires s.nodes[b.call.candidate].role.Candidate? && s.nodes[b.call.candidate].term == b.call.term
    ensures CandidatesOk(Tallied(s, b).nodes, Tallied(s, b).tally, s.msgs, s.elections)
  {
    var c, s' := b.call.candidate, Tallied(s, b);
    assert s'.tally[c].Keys == s.tally[c].Keys + {b.call.peer};
    assert |s'.tally[c]| == |s'.tally[c].Keys| && |s.tally[c]| == |s.tally[c].Keys|;
    forall k | 0 <= k < |s'.nodes| ensures CandidateOk(|s'.nodes|, k, s'.nodes[k], s'.tally[k], s.msgs, s.elections) {
      assert CandidateOk(|s.nodes|, k, s.nodes[k], s.tally[k], s.msgs, s.elections);
    }
  }

  lemma TallyCalls(s: Cluster, b: Ballot)
    requires Sized(s) && CallsOk(s) && b in s.passed && b.call.candidate < |s.nodes|
    requires s.nodes[b.call.candidate].role.Candidate? && s.nodes[b.call.candidate].term == b.call.term
    ensures CallsOk(Tallied(s, b))
  {
    var s' := Tallied(s, b);
    assert PassedOk(s, b);
    forall k | k in s'.calls ensures CallOk(s'.nodes, s'.tally, k) {
      assert CallOk(s.nodes, s.tally, k);
    }
    forall d | d in s'.passed ensures PassedOk(s', d) {
      assert PassedOk(s, d);
      assert SameCall(d, b) ==> d == b;
    }
    forall d, d' | d in s'.passed && d' in s'.passed && SameCall(d, d') ensures d == d' {
      assert SameCall(d, d');
    }
  }

  lemma TallyVotes(s: Cluster, b: Ballot)
    requires Sized(s) && VotesOk(s) && b in s.passed && b.call.candidate < |s.nodes|
    requires s.nodes[b.call.candidate].role.Candidate? && s.nodes[b.call.candidate].term == b.call.term
    ensures VotesOk(Tallied(s, b))
  {
    assert PassedOk(s, b);
    TallyBallots(s, b.call.candidate);
    TallyCandidates(s, b);
    TallyCalls(s, b);
  }

  lemma TallyBallots(s: Cluster, c: nat)
    requires c < |s.nodes| && BallotsOk(s.nodes, s.msgs, s.elections) && RequestsOk(s.nodes, s.msgs, s.elections)
    ensures var nodes := s.nodes[c := s.nodes[c].(voteCount := s.nodes[c].voteCount + 1)];
            BallotsOk(nodes, s.msgs, s.elections) && RequestsOk(nodes, s.msgs, s.elections)
  {
    var nodes := s.nodes[c := s.nodes[c].(voteCount := s.nodes[c].voteCount + 1)];
    forall m | m in s.msgs && IsBallot(m) ensures BallotOk(nodes, s.msgs, s.elections, m) {
      assert BallotOk(s.nodes, s.msgs, s.elections, m);
    }
    forall m | m in s.msgs && m.VoteRequest? ensures RequestOk(nodes, s.elections, m.vote) {
      assert RequestOk(s.nodes, s.elections, m.vote);
    }
  }

  // ---- winning ----

  ghost function Elected(s: Cluster, c: nat): Cluster
    requires Sized(s) && c < |s.nodes|
  {
    var n := s.nodes[c];
    Put(s, c, BecomeLeader(n)).(
      elections := s.elections[n.term := Election(c, s.tally[c], |n.log|, n.log)])
  }

  /** Two quorums of votes in one term share a voter, who voted once. */
  lemma NoOtherWinner(s: Cluster, c: nat)
    requires Inv(s) && c < |s.nodes| && s.nodes[c].role.Candidate? && Enough(|s.nodes|, s.nodes[c].voteCount)
    ensures s.nodes[c].term !in s.elections
  {
    var E, n := s.elections, s.nodes[c];
    assert CandidateOk(|s.nodes|, c, n, s.tally[c], s.msgs, E);
    if n.term in E {
      assert ElectionOk(|s.nodes|, s.msgs, E, n.term);
      var p := QuorumsMeet(|s.nodes|, s.tally[c].Keys, E[n.term].voters.Keys);
      var m :| m in s.msgs && IsBallot(m) && m.from == p && m.vote.term == n.term && m.vote.candidate == c;
      var m' :| m' in s.msgs && IsBallot(m') && m'.from == p && m'.vote.term == n.term
                && m'.vote.candidate == E[n.term].leader;
      assert SameBallot(m, m');
      assert false;
    }
  }

  lemma WinnerAdds(s: Cluster, c: nat)
    requires Inv(s) && c < |s.nodes| && s.nodes[c].role.Candidate? && s.nodes[c].term !in s.elections
    ensures Adds(s.elections, Elected(s, c).elections, s.nodes[c].term)
    ensures Extends(s.elections, Elected(s, c).elections)
  {
    var E, n := s.elections, s.nodes[c];
    assert CandidateOk(|s.nodes|, c, n, s.tally[c], s.msgs, E);
    assert NodeOk(c, n, s.msgs, E, s.commits);
    OlderEntries(E, n.log, n.term);
    AddWinner(E, n.term, Election(c, s.tally[c], |n.log|, n.log));
  }

  lemma OlderEntries(E: Elections, log: seq<Entry>, T: nat)
    requires LogOk(log, T) && FromLeaders(E, log) && T !in E && T > 0
    ensures forall i :: 0 <= i < |log| ==> log[i].term < T
  {
    forall i | 0 <= i < |log| ensures log[i].term < T {
      assert i > 0 ==> FromLeader(E, log, i);
    }
  }

  lemma AddWinner(E: Elections, T: nat, e: Election)
    requires T !in E && forall i :: 0 <= i < |e.log| ==> e.log[i].term < T
    ensures Adds(E, E[T := e], T) && Extends(E, E[T := e])
  {
  }

  lemma WinnerVoter(s: Cluster, c: nat, p: nat)
    requires Inv(s) && c < |s.nodes| && s.nodes[c].role.Candidate? && s.nodes[c].term !in s.elections
    requires p in s.tally[c]
    ensures var (n, seen) := (s.nodes[c], s.tally[c][p]);
            && Voted(s.msgs, p, n.term, c, seen) && |n.log| > 0 && Covers(n.log, |n.log|, seen)
            && LogOk(seen, n.term) && FromLeaders(s.elections, seen)
  {
    var E, n := s.elections, s.nodes[c];
    assert CandidateOk(|s.nodes|, c, n, s.tally[c], s.msgs, E);
    assert NodeOk(c, n, s.msgs, E, s.commits);
    assert Voted(s.msgs, p, n.term, c, s.tally[c][p]);
    var m :| m in s.msgs && IsBallot(m) && m.from == p && m.vote.term == n.term && m.vote.candidate == c
             && m.seen == s.tally[c][p];
    assert BallotOk(s.nodes, s.msgs, E, m);
    assert VoteRequest(m.vote) in s.msgs && RequestOk(s.nodes, E, VoteRequest(m.vote).vote);
  }

  lemma WinnerOk(s: Cluster, c: nat)
    requires Inv(s) && c < |s.nodes| && s.nodes[c].role.Candidate? && Enough(|s.nodes|, s.nodes[c].voteCount)
    requires Adds(s.elections, Elected(s, c).elections, s.nodes[c].term)
    requires Extends(s.elections, Elected(s, c).elections)
    ensures ElectionOk(|s.nodes|, s.msgs, Elected(s, c).elections, s.nodes[c].term)
  {
    var E, n, F := s.elections, s.nodes[c], Elected(s, c).elections;
    assert CandidateOk(|s.nodes|, c, n, s.tally[c], s.msgs, E);
    assert NodeOk(c, n, s.msgs, E, s.commits);
    FromLeadersGrow(E, F, n.log);
    forall p | p in F[n.term].voters
      ensures Voted(s.msgs, p, n.term, c, F[n.term].voters[p]) && Covers(n.log, |n.log|, F[n.term].voters[p])
              && LogOk(F[n.term].voters[p], n.term) && FromLeaders(F, F[n.term].voters[p])
    {
      WinnerVoter(s, c, p);
      FromLeadersGrow(E, F, s.tally[c][p]);
    }
  }

  lemma ElectStep(s: Cluster, c: nat)
    requires Inv(s) && c < |s.nodes| && s.nodes[c].role.Candidate? && Enough(|s.nodes|, s.nodes[c].voteCount)
    ensures Inv(Elected(s, c)) && Extends(s.elections, Elected(s, c).elections)
  {
    NoOtherWinner(s, c);
    WinnerAdds(s, c);
    WinnerOk(s, c);
    ElectLogs(s, c);
    ElectVotes(s, c);
    QuietReads(s, Elected(s, c));
  }

  lemma ElectLogs(s: Cluster, c: nat)
    requires Inv(s) && c < |s.nodes| && s.nodes[c].role.Candidate?
    requires Adds(s.elections, Elected(s, c).elections, s.nodes[c].term)
    requires ElectionOk(|s.nodes|, s.msgs, Elected(s, c).elections, s.nodes[c].term)
    ensures LogsOk(Elected(s, c))
  {
    ElectHistory(s, c);
    ElectMessages(s, c);
    ElectNodes(s, c);
  }

  lemma LackedGrows(E: Elections, F: Elections)
    requires forall t :: t in E ==> t in F && F[t] == E[t]
    ensures forall t, i, hi :: Lacked(E, t, i, hi) ==> Lacked(F, t, i, hi)
  {
  }

  /** F is E with a winner for term T added, who has made no entry yet. */
  predicate Adds(E: Elections, F: Elections, T: nat) {
    && T !in E && F.Keys == E.Keys + {T} && (forall t :: t in E ==> F[t] == E[t])
    && (forall i :: 0 <= i < |F[T].log| ==> F[T].log[i].term < T)
  }

  lemma AcksAfterWin(msgs: set<Msg>, E: Elections, F: Elections, T: nat)
    requires Adds(E, F, T)
    ensures forall p, t, i :: Acked(msgs, F, p, t, i) <==> Acked(msgs, E, p, t, i)
  {
  }

  lemma ElectAcks(s: Cluster, c: nat)
    requires Inv(s) && c < |s.nodes| && Adds(s.elections, Elected(s, c).elections, s.nodes[c].term)
    requires ElectionOk(|s.nodes|, s.msgs, Elected(s, c).elections, s.nodes[c].term)
    ensures AcksOk(Elected(s, c).nodes, s.msgs, Elected(s, c).elections)
  {
    var E, F, msgs, T := s.elections, Elected(s, c).elections, s.msgs, s.nodes[c].term;
    LackedGrows(E, F);
    AcksAfterWin(msgs, E, F, T);
    forall p, t, i | Acked(msgs, F, p, t, i) ensures AckOk(Elected(s, c).nodes, F, p, t, i) {
      assert AckOk(s.nodes, E, p, t, i);
    }
  }

  lemma ElectHistory(s: Cluster, c: nat)
    requires Inv(s) && c < |s.nodes| && Adds(s.elections, Elected(s, c).elections, s.nodes[c].term)
    requires ElectionOk(|s.nodes|, s.msgs, Elected(s, c).elections, s.nodes[c].term)
    ensures var s' := Elected(s, c);
            && ElectionsOk(|s.nodes|, s.msgs, s'.elections) && AcksOk(s'.nodes, s.msgs, s'.elections)
            && BallotsKeep(s.msgs, s'.elections) && VotersKeep(s.msgs, s'.elections)
            && CommitsOk(|s.nodes|, s.msgs, s'.elections, s.commits)
  {
    var E, F, msgs, T := s.elections, Elected(s, c).elections, s.msgs, s.nodes[c].term;
    LackedGrows(E, F);
    AcksAfterWin(msgs, E, F, T);
    WinElections(|s.nodes|, msgs, E, F, T);
    WinKeeps(msgs, E, F, T);
    ElectAcks(s, c);
    forall k | k in s.commits ensures CommitOk(|s.nodes|, msgs, F, k, s.commits[k]) {
      assert CommitOk(|s.nodes|, msgs, E, k, s.commits[k]);
    }
  }

  lemma WinElections(nodes: nat, msgs: set<Msg>, E: Elections, F: Elections, T: nat)
    requires Adds(E, F, T) && ElectionsOk(nodes, msgs, E) && ElectionOk(nodes, msgs, F, T)
    ensures ElectionsOk(nodes, msgs, F)
  {
    forall t | t in F ensures ElectionOk(nodes, msgs, F, t) {
      if t != T {
        assert ElectionOk(nodes, msgs, E, t);
        FromLeadersGrow(E, F, E[t].log);
        forall p | p in E[t].voters ensures FromLeaders(F, E[t].voters[p]) {
          FromLeadersGrow(E, F, E[t].voters[p]);
        }
      }
    }
  }

  lemma WinKeeps(msgs: set<Msg>, E: Elections, F: Elections, T: nat)
    requires Adds(E, F, T) && BallotsKeep(msgs, E) && VotersKeep(msgs, E)
    requires forall p :: p in F[T].voters ==> Voted(msgs, p, T, F[T].leader, F[T].voters[p])
    ensures BallotsKeep(msgs, F) && VotersKeep(msgs, F)
  {
    LackedGrows(E, F);
    AcksAfterWin(msgs, E, F, T);
    forall b | b in msgs && IsBallot(b) ensures Keeps(msgs, F, b.from, b.seen, b.vote.term, b.vote.term) {
      assert Keeps(msgs, E, b.from, b.seen, b.vote.term, b.vote.term);
    }
    forall t: nat, p | t in F && p in F[t].voters ensures Keeps(msgs, F, p, F[t].voters[p], t, t - 1) {
      if t != T {
        assert Keeps(msgs, E, p, E[t].voters[p], t, t - 1);
      } else {
        WinnerKeeps(msgs, E, F, T, p);
      }
    }
  }

  lemma WinnerKeeps(msgs: set<Msg>, E: Elections, F: Elections, T: nat, p: nat)
    requires BallotsKeep(msgs, E) && T !in E && T in F && p in F[T].voters
    requires Voted(msgs, p, T, F[T].leader, F[T].voters[p])
    requires forall t :: t in E ==> t in F && F[t] == E[t]
    requires forall p, t, i :: Acked(msgs, F, p, t, i) <==> Acked(msgs, E, p, t, i)
    ensures Keeps(msgs, F, p, F[T].voters[p], T, T - 1)
  {
    var m :| m in msgs && IsBallot(m) && m.from == p && m.vote.term == T && m.seen == F[T].voters[p];
    assert Keeps(msgs, E, m.from, m.seen, m.vote.term, m.vote.term);
    forall t: nat, i: nat | Acked(msgs, F, p, t, i) && t < T
      ensures Contains(m.seen, t, i) || Lacked(F, t, i, T - 1)
    {
      if !Contains(m.seen, t, i) {
        var u :| u in E && t < u <= T && !Contains(E[u].log, t, i);
        assert u in F && F[u] == E[u] && u <= T - 1;
      }
    }
  }

  lemma ElectMessages(s: Cluster, c: nat)
    requires Inv(s) && c < |s.nodes| && s.nodes[c].term !in s.elections
    ensures var s' := Elected(s, c);
            && AppendsOk(|s.nodes|, s.msgs, s'.elections, s.commits) && AnswersOk(s'.nodes, s.msgs)
            && SnapsOk(s.msgs, s'.elections, s.commits)
  {
    var E, F, C := s.elections, Elected(s, c).elections, s.commits;
    forall m | m in s.msgs && m.AppendAnswer? && m.reply.success ensures AnswerOk(Elected(s, c).nodes, s.msgs, m) {
      assert AnswerOk(s.nodes, s.msgs, m);
    }
    forall m | m in s.msgs && m.AppendRequest? ensures AppendOk(|s.nodes|, F, C, m.to, m.args) {
      assert AppendOk(|s.nodes|, E, C, m.to, m.args);
      CommittedGrow(E, F, C, C, E[m.args.term].log, m.args.leaderCommit, m.args.term, m.args.term);
    }
    forall m | m in s.msgs && m.SnapRequest? ensures SnapOk(F, C, m.snap) {
      assert SnapOk(E, C, m.snap);
      CommittedGrow(E, F, C, C, E[m.snap.term].log, m.snap.index, m.snap.term, m.snap.term);
    }
  }

  lemma NodeSeesElections(s: Cluster, F: Elections, k: nat, n: Node)
    requires Inv(s) && k < |s.nodes| && n == s.nodes[k] && Extends(s.elections, F)
    requires Leads(F, k, n.saved.term) ==> n.log == F[n.saved.term].log
    requires Leads(F, k, n.term) ==> Leads(s.elections, k, n.term)
    ensures NodeOk(k, n, s.msgs, F, s.commits)
  {
    assert NodeOk(k, n, s.msgs, s.elections, s.commits);
    FromLeadersGrow(s.elections, F, n.log);
    CommittedGrow(s.elections, F, s.commits, s.commits, n.log, n.commit, n.term, n.term);
    CommittedGrow(s.elections, F, s.commits, s.commits, n.log, n.saved.commit, n.saved.term, n.saved.term);
  }

  lemma ElectNode(s: Cluster, c: nat)
    requires Inv(s) && c < |s.nodes| && s.nodes[c].role.Candidate? && s.nodes[c].term !in s.elections
    ensures NodeOk(c, Elected(s, c).nodes[c], s.msgs, Elected(s, c).elections, s.commits)
  {
    var E, F := s.elections, Elected(s, c).elections;
    var n, n' := s.nodes[c], Elected(s, c).nodes[c];
    assert CandidateOk(|s.nodes|, c, n, s.tally[c], s.msgs, E);
    assert NodeOk(c, n, s.msgs, E, s.commits);
    FromLeadersGrow(E, F, n.log);
    CommittedGrow(E, F, s.commits, s.commits, n.log, n.commit, n.term, n.term);
    CommittedGrow(E, F, s.commits, s.commits, n.log, n.saved.commit, n.saved.term, n.saved.term);
    assert forall p :: p in n'.matchIndex ==> n'.matchIndex[p] == n.snap;
    forall k | k in s.commits ensures k.0 != n.term {
      CommitAcked(|s.nodes|, s.msgs, E, s.commits, k);
    }
  }

  lemma ElectNodes(s: Cluster, c: nat)
    requires Inv(s) && c < |s.nodes| && s.nodes[c].role.Candidate? && s.nodes[c].term !in s.elections
    ensures NodesOk(Elected(s, c).nodes, s.msgs, Elected(s, c).elections, s.commits)
  {
    var E, s' := s.elections, Elected(s, c);
    var F := s'.elections;
    assert CandidateOk(|s.nodes|, c, s.nodes[c], s.tally[c], s.msgs, E);
    forall k | 0 <= k < |s'.nodes| ensures NodeOk(k, s'.nodes[k], s.msgs, F, s.commits) {
      var n, n' := s.nodes[k], s'.nodes[k];
      assert NodeOk(k, n, s.msgs, E, s.commits);
      if k != c {
        NodeSeesElections(s, F, k, n);
      } else {
        ElectNode(s, c);
      }
    }
  }

  lemma ElectVotes(s: Cluster, c: nat)
    requires Sized(s) && VotesOk(s) && c < |s.nodes| && s.nodes[c].role.Candidate? && s.nodes[c].term !in s.elections
    ensures VotesOk(Elected(s, c))
  {
    var E, s' := s.elections, Elected(s, c);
    var F := s'.elections;
    forall m | m in s.msgs && IsBallot(m) ensures BallotOk(s'.nodes, s.msgs, F, m) {
      assert BallotOk(s.nodes, s.msgs, E, m);
      FromLeadersGrow(E, F, m.seen);
    }
    forall m | m in s.msgs && m.VoteRequest? ensures RequestOk(s'.nodes, F, m.vote) {
      assert RequestOk(s.nodes, E, m.vote);
    }
    forall k | 0 <= k < |s'.nodes| ensures CandidateOk(|s'.nodes|, k, s'.nodes[k], s'.tally[k], s.msgs, F) {
      assert CandidateOk(|s.nodes|, k, s.nodes[k], s.tally[k], s.msgs, E);
    }
    forall k | k in s.calls ensures CallOk(s'.nodes, s'.tally, k) {
      assert CallOk(s.nodes, s.tally, k);
    }
    forall b | b in s.passed ensures PassedOk(s', b) {
      assert PassedOk(s, b);
    }
  }
}
