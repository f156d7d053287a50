/** Votes, for every size of cluster and every rule: a node votes once in a term. With an odd
    number of nodes and votes rechecked when they are counted, a term has one leader. Neither
    depends on how followers commit. */
module Voting {
  import opened Quorums
  import opened RaftNode
  import opened Cluster
  import opened ClusterInvariant
  import opened ClusterVotes

  // ---- one vote per term ----

  /** The saved state never runs ahead, and in its own term it has the vote. */
  predicate Durable(n: Node) {
    n.saved.term <= n.term && (n.saved.term == n.term ==> n.saved.vote == n.vote)
  }

  /** The saved term never falls, and a saved vote stays for as long as its term. */
  predicate Onward(n: Node, n': Node) {
    && n.saved.term <= n'.saved.term
    && (n.saved.term == n'.saved.term && n.saved.vote != NoVote ==> n'.saved.vote == n.saved.vote)
  }

  predicate BallotSaved(nodes: seq<Node>, m: Msg)
    requires IsBallot(m)
  {
    && m.from < |nodes| && m.vote.term <= nodes[m.from].saved.term
    && (m.vote.term == nodes[m.from].saved.term ==> nodes[m.from].saved.vote == m.vote.candidate)
  }

  ghost predicate OneVote(nodes: seq<Node>, msgs: set<Msg>) {
    && (forall j {:trigger Durable(nodes[j])} :: 0 <= j < |nodes| ==> Durable(nodes[j]))
    && (forall m {:trigger BallotSaved(nodes, m)} :: m in msgs && IsBallot(m) ==> BallotSaved(nodes, m))
    && (forall m, m' {:trigger SameBallot(m, m')} :: m in msgs && m' in msgs && SameBallot(m, m') ==>
          m.vote.candidate == m'.vote.candidate)
  }

  lemma PutKeepsVotes(nodes: seq<Node>, msgs: set<Msg>, j: nat, n: Node)
    requires OneVote(nodes, msgs) && j < |nodes| && Onward(nodes[j], n) && Durable(n)
    ensures OneVote(nodes[j := n], msgs)
  {
    var nodes' := nodes[j := n];
    forall k | 0 <= k < |nodes'| ensures Durable(nodes'[k]) {
      assert k != j ==> Durable(nodes[k]);
    }
    forall m | m in msgs && IsBallot(m) ensures BallotSaved(nodes', m) {
      assert BallotSaved(nodes, m);
    }
  }

  /** A vote goes out only when it is what the sender has saved. */
  lemma SendKeepsVotes(nodes: seq<Node>, msgs: set<Msg>, m: Msg)
    requires OneVote(nodes, msgs)
    requires IsBallot(m) ==>
      && m.from < |nodes| && nodes[m.from].saved.term == m.vote.term
      && nodes[m.from].saved.vote == m.vote.candidate
    ensures OneVote(nodes, msgs + {m})
  {
    forall x | x in msgs + {m} && IsBallot(x) ensures BallotSaved(nodes, x) {
      assert x in msgs ==> BallotSaved(nodes, x);
    }
    forall x, y | x in msgs + {m} && y in msgs + {m} && SameBallot(x, y)
      ensures x.vote.candidate == y.vote.candidate
    {
      assert x in msgs ==> BallotSaved(nodes, x);
      assert y in msgs ==> BallotSaved(nodes, y);
      assert x in msgs && y in msgs ==> SameBallot(x, y);
    }
  }

  lemma VoteOnward(n: Node, a: VoteArgs)
    requires Durable(n)
    ensures var (n', reply) := HandleVote(n, a);
            && Onward(n, n') && Durable(n')
            && (reply.granted ==> n'.saved.term == a.term && n'.saved.vote == a.candidate)
  {
  }

  lemma CountOnward(r: Rules, n: Node, term: nat, late: bool)
    requires Durable(n)
    ensures Onward(n, CountVote(r, n, term, late)) && Durable(CountVote(r, n, term, late))
  {
  }

  lemma AppendOnward(r: Rules, n: Node, a: AppendArgs)
    requires Durable(n)
    ensures Onward(n, HandleAppend(r, n, a).0) && Durable(HandleAppend(r, n, a).0)
  {
  }

  lemma ReplyOnward(nodes: nat, n: Node, me: nat, server: nat, a: AppendArgs, reply: AppendReply)
    requires Durable(n)
    ensures Onward(n, HandleAppendReply(nodes, n, me, server, a, reply))
    ensures Durable(HandleAppendReply(nodes, n, me, server, a, reply))
  {
  }

  lemma VotingVotes(r: Rules, s: Cluster, e: Event)
    requires Sized(s) && OneVote(s.nodes, s.msgs) && (e.Timeout? || e.DeliverVote?)
    ensures OneVote(Apply(r, s, e).nodes, Apply(r, s, e).msgs)
  {
    match e
    case Timeout(c) =>
      if c < |s.nodes| {
        assert Durable(s.nodes[c]);
        var (n, a) := StartElection(s.nodes[c], c);
        PutKeepsVotes(s.nodes, s.msgs, c, n);
        var nodes, m := s.nodes[c := n], VoteAnswer(c, a, VoteReply(a.term, true), n.log);
        SendKeepsVotes(nodes, s.msgs, VoteRequest(a));
        SendKeepsVotes(nodes, s.msgs + {VoteRequest(a)}, m);
        assert s.msgs + {VoteRequest(a), m} == s.msgs + {VoteRequest(a)} + {m};
      }
    case DeliverVote(j, a) =>
      if j < |s.nodes| {
        assert Durable(s.nodes[j]);
        var (n, reply) := HandleVote(s.nodes[j], a);
        VoteOnward(s.nodes[j], a);
        PutKeepsVotes(s.nodes, s.msgs, j, n);
        SendKeepsVotes(s.nodes[j := n], s.msgs, VoteAnswer(j, a, reply, s.nodes[j].log));
      }
  }

  lemma TallyVotes(r: Rules, s: Cluster, e: Event)
    requires Sized(s) && OneVote(s.nodes, s.msgs) && (e.DeliverVoteAnswer? || e.Count? || e.ClientCommand?)
    ensures OneVote(Apply(r, s, e).nodes, Apply(r, s, e).msgs)
  {
    match e
    case DeliverVoteAnswer(m) =>
      if m.VoteAnswer? && m.vote.candidate < |s.nodes| {
        var c := m.vote.candidate;
        assert Durable(s.nodes[c]);
        PutKeepsVotes(s.nodes, s.msgs, c, HandleVoteReply(s.nodes[c], m.vote.term, m.granted).0);
      }
    case Count(b, late) =>
      var c := b.call.candidate;
      if c < |s.nodes| {
        assert Durable(s.nodes[c]);
        CountOnward(r, s.nodes[c], b.call.term, late);
        PutKeepsVotes(s.nodes, s.msgs, c, CountVote(r, s.nodes[c], b.call.term, late));
      }
    case ClientCommand(c, command) =>
      if c < |s.nodes| {
        assert Durable(s.nodes[c]);
        PutKeepsVotes(s.nodes, s.msgs, c, Submit(s.nodes[c], command));
      }
  }

  lemma AppendVotes(r: Rules, s: Cluster, e: Event)
    requires Sized(s) && OneVote(s.nodes, s.msgs) && (e.SendAppend? || e.DeliverAppend? || e.DeliverAppendAnswer?)
    ensures OneVote(Apply(r, s, e).nodes, Apply(r, s, e).msgs)
  {
    match e
    case SendAppend(c, to, prev, full, round) =>
      if CanSend(s, c, to) && prev < |s.nodes[c].log| {
        SendKeepsVotes(s.nodes, s.msgs, AppendRequest(to, Request(s.nodes[c], c, prev, full), round));
      }
    case DeliverAppend(m) =>
      if m.AppendRequest? && m.to < |s.nodes| {
        assert Durable(s.nodes[m.to]);
        var (n, reply) := HandleAppend(r, s.nodes[m.to], m.args);
        AppendOnward(r, s.nodes[m.to], m.args);
        PutKeepsVotes(s.nodes, s.msgs, m.to, n);
        SendKeepsVotes(s.nodes[m.to := n], s.msgs, AppendAnswer(m.to, m.args, reply, m.round));
      }
    case DeliverAppendAnswer(m) =>
      if m.AppendAnswer? && m.args.leader < |s.nodes| {
        var c := m.args.leader;
        assert Durable(s.nodes[c]);
        ReplyOnward(|s.nodes|, s.nodes[c], c, m.from, m.args, m.reply);
        PutKeepsVotes(s.nodes, s.msgs, c, HandleAppendReply(|s.nodes|, s.nodes[c], c, m.from, m.args, m.reply));
      }
  }

  lemma SnapshotVotes(r: Rules, s: Cluster, e: Event)
    requires Sized(s) && OneVote(s.nodes, s.msgs)
    requires e.TakeSnapshot? || e.SendSnapshot? || e.DeliverSnapshot? || e.DeliverSnapshotAnswer?
    ensures OneVote(Apply(r, s, e).nodes, Apply(r, s, e).msgs)
  {
    match e
    case TakeSnapshot(j, index) =>
      if j < |s.nodes| {
        assert Durable(s.nodes[j]);
        PutKeepsVotes(s.nodes, s.msgs, j, Compact(s.nodes[j], index));
      }
    case SendSnapshot(c, to) =>
      if CanSend(s, c, to) && s.nodes[c].snap < |s.nodes[c].log| {
        var n := s.nodes[c];
        SendKeepsVotes(s.nodes, s.msgs, SnapRequest(to, SnapArgs(n.term, c, n.snap, n.log[n.snap].term)));
      }
    case DeliverSnapshot(m) =>
      if m.SnapRequest? && m.to < |s.nodes| {
        assert Durable(s.nodes[m.to]);
        var n := Install(s.nodes[m.to], m.snap);
        PutKeepsVotes(s.nodes, s.msgs, m.to, n);
        SendKeepsVotes(s.nodes[m.to := n], s.msgs, SnapAnswer(m.to, m.snap, n.term));
      }
    case DeliverSnapshotAnswer(m) =>
      if m.SnapAnswer? && m.snap.leader < |s.nodes| {
        assert Durable(s.nodes[m.snap.leader]);
        PutKeepsVotes(s.nodes, s.msgs, m.snap.leader, InstallReply(s.nodes[m.snap.leader], m.from, m.term));
      }
  }

  /** Every event, under any rules, keeps the votes single. */
  lemma StepKeepsVotes(r: Rules, s: Cluster, e: Event)
    requires Sized(s) && OneVote(s.nodes, s.msgs)
    ensures OneVote(Apply(r, s, e).nodes, Apply(r, s, e).msgs)
  {
    match e
    case Timeout(_) => VotingVotes(r, s, e);
    case DeliverVote(_, _) => VotingVotes(r, s, e);
    case DeliverVoteAnswer(_) => TallyVotes(r, s, e);
    case Count(_, _) => TallyVotes(r, s, e);
    case ClientCommand(_, _) => TallyVotes(r, s, e);
    case SendAppend(_, _, _, _, _) => AppendVotes(r, s, e);
    case DeliverAppend(_) => AppendVotes(r, s, e);
    case DeliverAppendAnswer(_) => AppendVotes(r, s, e);
    case TakeSnapshot(_, _) => SnapshotVotes(r, s, e);
    case SendSnapshot(_, _) => SnapshotVotes(r, s, e);
    case DeliverSnapshot(_) => SnapshotVotes(r, s, e);
    case DeliverSnapshotAnswer(_) => SnapshotVotes(r, s, e);
    case Save(j) =>
      if j < |s.nodes| {
        assert Durable(s.nodes[j]);
        PutKeepsVotes(s.nodes, s.msgs, j, Persist(s.nodes[j]));
      }
    case Crash(j, snap) =>
      if j < |s.nodes| {
        assert Durable(s.nodes[j]);
        PutKeepsVotes(s.nodes, s.msgs, j, Restart(s.nodes[j], snap));
      }
    case SampleRead(_, _) =>
  }

  lemma {:induction false} RunKeepsVotes(r: Rules, events: seq<Event>)
    ensures OneVote(Run(r, events).nodes, Run(r, events).msgs)
    decreases |events|
  {
    if events != [] {
      RunKeepsVotes(r, events[..|events| - 1]);
      StepKeepsVotes(r, Run(r, events[..|events| - 1]), events[|events| - 1]);
    }
  }

  /** One vote per term: in no run, of any size and under any rules, does a node answer two
      candidates of one term with a vote, however often it restarts in between. A candidate's
      own vote counts as an answer to itself. */
  lemma OneVotePerTerm(r: Rules, events: seq<Event>, m: Msg, m': Msg)
    requires m in Run(r, events).msgs && m' in Run(r, events).msgs
    requires IsBallot(m) && IsBallot(m') && m.from == m'.from && m.vote.term == m'.vote.term
    ensures m.vote.candidate == m'.vote.candidate
  {
    RunKeepsVotes(r, events);
    assert SameBallot(m, m');
  }

  // ---- one leader per term ----

  ghost predicate WinnerOk(nodes: nat, msgs: set<Msg>, E: Elections, term: nat)
    requires term in E
  {
    && E[term].leader in E[term].voters && IsQuorum(nodes, E[term].voters.Keys)
    && forall p :: p in E[term].voters ==> Voted(msgs, p, term, E[term].leader, E[term].voters[p])
  }

  ghost predicate WinnersOk(nodes: nat, msgs: set<Msg>, E: Elections) {
    forall term {:trigger WinnerOk(nodes, msgs, E, term)} :: term in E ==> WinnerOk(nodes, msgs, E, term)
  }

  predicate LeaderOk(nodes: seq<Node>, E: Elections, j: nat)
    requires j < |nodes|
  {
    nodes[j].role.Leader? ==> Leads(E, j, nodes[j].term)
  }

  ghost predicate LeadersOk(nodes: seq<Node>, E: Elections) {
    forall j {:trigger LeaderOk(nodes, E, j)} :: 0 <= j < |nodes| ==> LeaderOk(nodes, E, j)
  }

  ghost predicate PollsOk(s: Cluster) {
    && Sized(s) && OneVote(s.nodes, s.msgs)
    && CandidatesOk(s.nodes, s.tally, s.msgs, s.elections) && CallsOk(s)
    && WinnersOk(|s.nodes|, s.msgs, s.elections) && LeadersOk(s.nodes, s.elections)
  }

  /** Terms only gain a leader. */
  predicate Gains(E: Elections, F: Elections) {
    forall t :: t in E ==> t in F && F[t].leader == E[t].leader
  }

  /** A change that takes no part in an election, other than giving up. */
  predicate Idle(n: Node, n': Node) {
    && Onward(n, n') && Durable(n')
    && (n'.role.Candidate? ==>
          n.role.Candidate? && n'.term == n.term && n'.vote == n.vote && n'.voteCount == n.voteCount)
    && (n'.role.Leader? ==> n.role.Leader? && n'.term == n.term)
  }

  lemma IdleStep(s: Cluster, j: nat, n: Node)
    requires PollsOk(s) && j < |s.nodes| && Idle(s.nodes[j], n)
    ensures PollsOk(Put(s, j, n))
  {
    var s' := Put(s, j, n);
    PutKeepsVotes(s.nodes, s.msgs, j, n);
    forall k | 0 <= k < |s.nodes|
      ensures CandidateOk(|s.nodes|, k, s'.nodes[k], s'.tally[k], s.msgs, s.elections)
      ensures LeaderOk(s'.nodes, s.elections, k)
    {
      assert CandidateOk(|s.nodes|, k, s.nodes[k], s.tally[k], s.msgs, s.elections);
      assert LeaderOk(s.nodes, s.elections, k);
    }
    forall k | k in s.calls ensures CallOk(s'.nodes, s.tally, k) {
      assert CallOk(s.nodes, s.tally, k);
    }
    forall b | b in s.passed ensures PassedOk(s', b) {
      assert PassedOk(s, b);
    }
  }

  lemma VotedStays(msgs: set<Msg>, m: Msg, p: nat, term: nat, c: nat, seen: seq<Entry>)
    requires Voted(msgs, p, term, c, seen)
    ensures Voted(msgs + {m}, p, term, c, seen)
  {
    var x :| x in msgs && IsBallot(x) && x.from == p && x.vote.term == term && x.vote.candidate == c && x.seen == seen;
    assert x in msgs + {m};
  }

  lemma SendStep(s: Cluster, m: Msg)
    requires PollsOk(s)
    requires IsBallot(m) ==>
      && m.from < |s.nodes| && s.nodes[m.from].saved.term == m.vote.term
      && s.nodes[m.from].saved.vote == m.vote.candidate
    ensures PollsOk(Send(s, m))
  {
    var s' := Send(s, m);
    SendKeepsVotes(s.nodes, s.msgs, m);
    forall p, t, c, seen | Voted(s.msgs, p, t, c, seen) ensures Voted(s'.msgs, p, t, c, seen) {
      VotedStays(s.msgs, m, p, t, c, seen);
    }
    forall k | 0 <= k < |s.nodes| ensures CandidateOk(|s.nodes|, k, s.nodes[k], s.tally[k], s'.msgs, s.elections) {
      assert CandidateOk(|s.nodes|, k, s.nodes[k], s.tally[k], s.msgs, s.elections);
    }
    forall t | t in s.elections ensures WinnerOk(|s.nodes|, s'.msgs, s.elections, t) {
      assert WinnerOk(|s.nodes|, s.msgs, s.elections, t);
    }
    forall b | b in s.passed ensures PassedOk(s', b) {
      assert PassedOk(s, b);
    }
  }

  /** A node has saved the terms it has led. */
  lemma LedIsSaved(s: Cluster, c: nat, term: nat)
    requires PollsOk(s) && c < |s.nodes| && Leads(s.elections, c, term)
    ensures term <= s.nodes[c].saved.term
  {
    assert WinnerOk(|s.nodes|, s.msgs, s.elections, term);
    var m :| m in s.msgs && IsBallot(m) && m.from == c && m.vote.term == term;
    assert BallotSaved(s.nodes, m);
  }

  /** The node has saved its candidacy and voted for itself; only the role is missing. */
  lemma StandStep(s: Cluster, c: nat, n: Node, seen: seq<Entry>)
    requires PollsOk(s) && c < |s.nodes| && !s.nodes[c].role.Candidate? && !Leads(s.elections, c, n.term)
    requires n == s.nodes[c].(role := Candidate, voteCount := 1) && n.term == n.saved.term >= 1 && n.vote == c
    requires Voted(s.msgs, c, n.term, c, seen)
    requires forall k :: k in s.calls && k.candidate == c ==> k.term < n.term
    requires forall b :: b in s.passed && b.call.candidate == c ==> b.call.term < n.term
    ensures PollsOk(Put(s, c, n).(tally := s.tally[c := map[c := seen]],
                                  calls := s.calls + CallPeers(|s.nodes|, c, n.term)))
  {
    var s' := Put(s, c, n).(tally := s.tally[c := map[c := seen]], calls := s.calls + CallPeers(|s.nodes|, c, n.term));
    assert Durable(s.nodes[c]);
    PutKeepsVotes(s.nodes, s.msgs, c, n);
    forall k | 0 <= k < |s.nodes|
      ensures CandidateOk(|s.nodes|, k, s'.nodes[k], s'.tally[k], s.msgs, s.elections)
      ensures LeaderOk(s'.nodes, s.elections, k)
    {
      assert CandidateOk(|s.nodes|, k, s.nodes[k], s.tally[k], s.msgs, s.elections);
      assert LeaderOk(s.nodes, s.elections, k);
    }
    forall k | k in s'.calls ensures CallOk(s'.nodes, s'.tally, k) {
      assert k in s.calls ==> CallOk(s.nodes, s.tally, k);
    }
    forall b | b in s.passed ensures PassedOk(s', b) {
      assert PassedOk(s, b);
    }
  }

  lemma TimeoutPolls(s: Cluster, c: nat)
    requires PollsOk(s) && c < |s.nodes|
    ensures PollsOk(ApplyTimeout(s, c))
  {
    var (n, a) := StartElection(s.nodes[c], c);
    var m := VoteAnswer(c, a, VoteReply(a.term, true), n.log);
    var saved := n.(role := Follower);
    assert Durable(s.nodes[c]);
    var s1 := Put(s, c, saved);
    IdleStep(s, c, saved);
    var s2 := Send(s1, VoteRequest(a));
    SendStep(s1, VoteRequest(a));
    var s3 := Send(s2, m);
    SendStep(s2, m);
    assert m in s3.msgs;
    FreshTerm(s, c, a.term);
    StandStep(s3, c, n, n.log);
    assert s.nodes[c := saved][c := n] == s.nodes[c := n];
    assert s.msgs + {VoteRequest(a)} + {m} == s.msgs + {VoteRequest(a), m};
  }

  lemma FreshTerm(s: Cluster, c: nat, term: nat)
    requires PollsOk(s) && c < |s.nodes| && term > s.nodes[c].saved.term
    ensures !Leads(s.elections, c, term)
    ensures forall k :: k in s.calls && k.candidate == c ==> k.term < term
    ensures forall b :: b in s.passed && b.call.candidate == c ==> b.call.term < term
  {
    if Leads(s.elections, c, term) { LedIsSaved(s, c, term); }
    forall k | k in s.calls && k.candidate == c ensures k.term < term {
      assert CallOk(s.nodes, s.tally, k);
    }
    forall b | b in s.passed && b.call.candidate == c ensures b.call.term < term {
      assert PassedOk(s, b);
    }
  }

  lemma VoteAnswerPolls(s: Cluster, m: Msg)
    requires PollsOk(s) && m in s.msgs && m.VoteAnswer? && m.vote.candidate < |s.nodes|
    requires Call(m.vote.candidate, m.vote.term, m.from) in s.calls
    ensures PollsOk(ApplyVoteAnswer(s, m))
  {
    var c := m.vote.candidate;
    var call := Call(c, m.vote.term, m.from);
    var (n, pass) := HandleVoteReply(s.nodes[c], m.vote.term, m.granted);
    assert Durable(s.nodes[c]);
    assert CallOk(s.nodes, s.tally, call);
    var s1 := Put(s, c, n);
    IdleStep(s, c, n);
    var s2 := s1.(calls := s.calls - {call}, passed := s.passed + if pass then {Ballot(call, m.seen)} else {});
    forall k | k in s2.calls ensures CallOk(s2.nodes, s2.tally, k) {
      assert CallOk(s1.nodes, s1.tally, k);
    }
    forall b | b in s2.passed ensures PassedOk(s2, b) {
      if b in s.passed {
        assert PassedOk(s1, b);
      } else {
        assert CallOk(s1.nodes, s1.tally, call);
      }
    }
    forall b, b' | b in s2.passed && b' in s2.passed && SameCall(b, b') ensures b == b' {
      assert b in s.passed ==> PassedOk(s1, b);
      assert b' in s.passed ==> PassedOk(s1, b');
      assert b in s.passed && b' in s.passed ==> SameCall(b, b');
    }
  }

  lemma CountedPolls(s: Cluster, b: Ballot)
    requires PollsOk(s) && b in s.passed && b.call.candidate < |s.nodes|
    requires s.nodes[b.call.candidate].role.Candidate? && s.nodes[b.call.candidate].term == b.call.term
    ensures PollsOk(Tallied(s, b))
  {
    var c, s' := b.call.candidate, Tallied(s, b);
    assert PassedOk(s, b);
    assert Durable(s.nodes[c]);
    PutKeepsVotes(s.nodes, s.msgs, c, s'.nodes[c]);
    TallyCandidates(s, b);
    TallyCalls(s, b);
    forall k | 0 <= k < |s.nodes| ensures LeaderOk(s'.nodes, s.elections, k) {
      assert LeaderOk(s.nodes, s.elections, k);
    }
  }

  /** Enough votes mean that nobody has won the term. */
  lemma TermIsOpen(s: Cluster, c: nat)
    requires PollsOk(s) && |s.nodes| % 2 == 1 && c < |s.nodes|
    requires s.nodes[c].role.Candidate? && Enough(|s.nodes|, s.nodes[c].voteCount)
    ensures s.nodes[c].term !in s.elections
  {
    var term := s.nodes[c].term;
    assert CandidateOk(|s.nodes|, c, s.nodes[c], s.tally[c], s.msgs, s.elections);
    if term in s.elections {
      assert WinnerOk(|s.nodes|, s.msgs, s.elections, term);
      assert |s.tally[c]| == |s.tally[c].Keys|;
      var e := s.elections[term];
      var p := QuorumsMeet(|s.nodes|, s.tally[c].Keys, e.voters.Keys);
      var m :| m in s.msgs && IsBallot(m) && m.from == p && m.vote.term == term && m.vote.candidate == c;
      var m' :| m' in s.msgs && IsBallot(m') && m'.from == p && m'.vote.term == term && m'.vote.candidate == e.leader;
      assert SameBallot(m, m');
    }
  }

  function Won(s: Cluster, c: nat, n: Node): Cluster
    requires Sized(s) && c < |s.nodes|
  {
    Put(s, c, n).(elections := s.elections[n.term := Election(c, s.tally[c], |n.log|, n.log)])
  }

  lemma WonPolls(s: Cluster, c: nat, n: Node)
    requires PollsOk(s) && |s.nodes| % 2 == 1 && c < |s.nodes|
    requires s.nodes[c].role.Candidate? && Enough(|s.nodes|, s.nodes[c].voteCount)
    requires n == s.nodes[c].(role := Leader, nextIndex := n.nextIndex, matchIndex := n.matchIndex)
    ensures PollsOk(Won(s, c, n)) && Gains(s.elections, Won(s, c, n).elections)
  {
    TermIsOpen(s, c);
    var s' := Won(s, c, n);
    var E, F := s.elections, s'.elections;
    assert Durable(s.nodes[c]);
    assert CandidateOk(|s.nodes|, c, s.nodes[c], s.tally[c], s.msgs, E);
    assert |s.tally[c]| == |s.tally[c].Keys|;
    PutKeepsVotes(s.nodes, s.msgs, c, n);
    forall k | 0 <= k < |s.nodes|
      ensures CandidateOk(|s.nodes|, k, s'.nodes[k], s'.tally[k], s.msgs, F)
      ensures LeaderOk(s'.nodes, F, k)
    {
      assert CandidateOk(|s.nodes|, k, s.nodes[k], s.tally[k], s.msgs, E);
      assert LeaderOk(s.nodes, E, k);
    }
    forall t | t in F ensures WinnerOk(|s.nodes|, s.msgs, F, t) {
      assert t != n.term ==> WinnerOk(|s.nodes|, s.msgs, E, t);
    }
    forall k | k in s.calls ensures CallOk(s'.nodes, s.tally, k) {
      assert CallOk(s.nodes, s.tally, k);
    }
    forall b | b in s.passed ensures PassedOk(s', b) {
      assert PassedOk(s, b);
    }
  }

  lemma DropBallot(s: Cluster, b: Ballot)
    requires PollsOk(s)
    ensures PollsOk(s.(passed := s.passed - {b}))
  {
    var s' := s.(passed := s.passed - {b});
    forall d | d in s'.passed ensures PassedOk(s', d) {
      assert PassedOk(s, d);
    }
  }

  lemma CountPolls(r: Rules, s: Cluster, b: Ballot, late: bool)
    requires PollsOk(s) && |s.nodes| == r.nodes && r.nodes % 2 == 1 && r.recheckVote
    requires b in s.passed && b.call.candidate < |s.nodes|
    ensures PollsOk(ApplyCount(r, s, b, late)) && Gains(s.elections, ApplyCount(r, s, b, late).elections)
  {
    var c := b.call.candidate;
    var before := s.nodes[c];
    var n := CountVote(r, before, b.call.term, late);
    if n.voteCount == before.voteCount {
      assert s.nodes[c := n] == s.nodes && s.tally[c := s.tally[c]] == s.tally;
      DropBallot(s, b);
    } else {
      CountedPolls(s, b);
      var s1 := Tallied(s, b);
      if n.role.Leader? {
        WonPolls(s1, c, n);
        assert s1.nodes[c := n] == s.nodes[c := n];
      }
    }
  }

  lemma CommandPolls(s: Cluster, c: nat, command: Op)
    requires PollsOk(s) && c < |s.nodes|
    ensures PollsOk(ApplyCommand(s, c, command)) && Gains(s.elections, ApplyCommand(s, c, command).elections)
  {
    var n := Submit(s.nodes[c], command);
    assert Durable(s.nodes[c]);
    IdleStep(s, c, n);
    var s1, s' := Put(s, c, n), ApplyCommand(s, c, command);
    var E, F := s.elections, s'.elections;
    forall k | 0 <= k < |s1.nodes|
      ensures CandidateOk(|s1.nodes|, k, s1.nodes[k], s1.tally[k], s1.msgs, F)
      ensures LeaderOk(s1.nodes, F, k)
    {
      assert CandidateOk(|s1.nodes|, k, s1.nodes[k], s1.tally[k], s1.msgs, E);
      assert LeaderOk(s1.nodes, E, k);
    }
    forall t | t in F ensures WinnerOk(|s1.nodes|, s1.msgs, F, t) {
      assert WinnerOk(|s1.nodes|, s1.msgs, E, t);
    }
    forall b | b in s1.passed ensures PassedOk(s', b) {
      assert PassedOk(s1, b);
    }
  }

  lemma CrashPolls(s: Cluster, j: nat, snap: nat)
    requires PollsOk(s) && j < |s.nodes|
    ensures PollsOk(Put(s, j, Restart(s.nodes[j], snap)).(
                      calls := (set k | k in s.calls && k.candidate != j),
                      passed := (set b | b in s.passed && b.call.candidate != j)))
  {
    var n := Restart(s.nodes[j], snap);
    assert Durable(s.nodes[j]);
    IdleStep(s, j, n);
    var s1 := Put(s, j, n);
    var s' := s1.(calls := (set k | k in s.calls && k.candidate != j),
                  passed := (set b | b in s.passed && b.call.candidate != j));
    forall k | k in s'.calls ensures CallOk(s'.nodes, s'.tally, k) {
      assert CallOk(s1.nodes, s1.tally, k);
    }
    forall b | b in s'.passed ensures PassedOk(s', b) {
      assert PassedOk(s1, b);
    }
  }

  lemma PollEvents(r: Rules, s: Cluster, e: Event)
    requires PollsOk(s) && |s.nodes| == r.nodes && r.nodes % 2 == 1 && r.recheckVote
    requires e.Timeout? || e.DeliverVote? || e.DeliverVoteAnswer? || e.Count?
    ensures PollsOk(Apply(r, s, e)) && Gains(s.elections, Apply(r, s, e).elections)
  {
    match e
    case Timeout(c) =>
      if c < |s.nodes| { TimeoutPolls(s, c); }
    case DeliverVote(j, a) =>
      if j < |s.nodes| {
        assert Durable(s.nodes[j]);
        var (n, reply) := HandleVote(s.nodes[j], a);
        VoteOnward(s.nodes[j], a);
        IdleStep(s, j, n);
        SendStep(Put(s, j, n), VoteAnswer(j, a, reply, s.nodes[j].log));
      }
    case DeliverVoteAnswer(m) =>
      if m in s.msgs && m.VoteAnswer? && m.vote.candidate < |s.nodes|
         && Call(m.vote.candidate, m.vote.term, m.from) in s.calls { VoteAnswerPolls(s, m); }
    case Count(b, late) =>
      if b in s.passed && b.call.candidate < |s.nodes| { CountPolls(r, s, b, late); }
  }

  lemma LogEvents(r: Rules, s: Cluster, e: Event)
    requires PollsOk(s)
    requires e.ClientCommand? || e.SendAppend? || e.DeliverAppend? || e.DeliverAppendAnswer?
    ensures PollsOk(Apply(r, s, e)) && Gains(s.elections, Apply(r, s, e).elections)
  {
    match e
    case ClientCommand(c, command) =>
      if c < |s.nodes| { CommandPolls(s, c, command); }
    case SendAppend(c, to, prev, full, round) =>
      if CanSend(s, c, to) && prev < |s.nodes[c].log| {
        SendStep(s, AppendRequest(to, Request(s.nodes[c], c, prev, full), round));
      }
    case DeliverAppend(m) =>
      if m.AppendRequest? && m.to < |s.nodes| {
        assert Durable(s.nodes[m.to]);
        var (n, reply) := HandleAppend(r, s.nodes[m.to], m.args);
        AppendOnward(r, s.nodes[m.to], m.args);
        IdleStep(s, m.to, n);
        SendStep(Put(s, m.to, n), AppendAnswer(m.to, m.args, reply, m.round));
      }
    case DeliverAppendAnswer(m) =>
      if m.AppendAnswer? && m.args.leader < |s.nodes| { ReplyPolls(s, m); }
  }

  lemma ReplyPolls(s: Cluster, m: Msg)
    requires PollsOk(s) && m.AppendAnswer? && m.args.leader < |s.nodes|
    ensures PollsOk(ApplyAppendAnswer(s, m))
  {
    var c := m.args.leader;
    assert Durable(s.nodes[c]);
    var n := HandleAppendReply(|s.nodes|, s.nodes[c], c, m.from, m.args, m.reply);
    ReplyOnward(|s.nodes|, s.nodes[c], c, m.from, m.args, m.reply);
    IdleStep(s, c, n);
    forall b | b in s.passed ensures PassedOk(ApplyAppendAnswer(s, m), b) {
      assert PassedOk(Put(s, c, n), b);
    }
  }

  lemma SnapshotEvents(r: Rules, s: Cluster, e: Event)
    requires PollsOk(s) && (e.SendSnapshot? || e.DeliverSnapshot? || e.DeliverSnapshotAnswer?)
    ensures PollsOk(Apply(r, s, e)) && Gains(s.elections, Apply(r, s, e).elections)
  {
    match e
    case SendSnapshot(c, to) =>
      if CanSend(s, c, to) && s.nodes[c].snap < |s.nodes[c].log| {
        var n := s.nodes[c];
        SendStep(s, SnapRequest(to, SnapArgs(n.term, c, n.snap, n.log[n.snap].term)));
      }
    case DeliverSnapshot(m) =>
      if m.SnapRequest? && m.to < |s.nodes| {
        assert Durable(s.nodes[m.to]);
        var n := Install(s.nodes[m.to], m.snap);
        IdleStep(s, m.to, n);
        SendStep(Put(s, m.to, n), SnapAnswer(m.to, m.snap, n.term));
      }
    case DeliverSnapshotAnswer(m) =>
      if m.SnapAnswer? && m.snap.leader < |s.nodes| {
        assert Durable(s.nodes[m.snap.leader]);
        IdleStep(s, m.snap.leader, InstallReply(s.nodes[m.snap.leader], m.from, m.term));
      }
  }

  lemma OtherEvents(r: Rules, s: Cluster, e: Event)
    requires PollsOk(s) && (e.TakeSnapshot? || e.Save? || e.Crash? || e.SampleRead?)
    ensures PollsOk(Apply(r, s, e)) && Gains(s.elections, Apply(r, s, e).elections)
  {
    match e
    case TakeSnapshot(j, index) =>
      if j < |s.nodes| {
        assert Durable(s.nodes[j]);
        IdleStep(s, j, Compact(s.nodes[j], index));
      }
    case Save(j) =>
      if j < |s.nodes| {
        assert Durable(s.nodes[j]);
        IdleStep(s, j, Persist(s.nodes[j]));
      }
    case Crash(j, snap) =>
      if j < |s.nodes| { CrashPolls(s, j, snap); }
    case SampleRead(c, round) =>
      forall b | b in s.passed ensures PassedOk(Apply(r, s, e), b) {
        assert PassedOk(s, b);
      }
  }

  lemma PollsStep(r: Rules, s: Cluster, e: Event)
    requires PollsOk(s) && |s.nodes| == r.nodes && r.nodes % 2 == 1 && r.recheckVote
    ensures PollsOk(Apply(r, s, e)) && Gains(s.elections, Apply(r, s, e).elections)
  {
    if e.Timeout? || e.DeliverVote? || e.DeliverVoteAnswer? || e.Count? {
      PollEvents(r, s, e);
    } else if e.ClientCommand? || e.SendAppend? || e.DeliverAppend? || e.DeliverAppendAnswer? {
      LogEvents(r, s, e);
    } else if e.SendSnapshot? || e.DeliverSnapshot? || e.DeliverSnapshotAnswer? {
      SnapshotEvents(r, s, e);
    } else {
      OtherEvents(r, s, e);
    }
  }

  lemma {:induction false} RunPolls(r: Rules, events: seq<Event>)
    requires r.nodes % 2 == 1 && r.recheckVote
    ensures PollsOk(Run(r, events))
    decreases |events|
  {
    if events != [] {
      RunPolls(r, events[..|events| - 1]);
      PollsStep(r, Run(r, events[..|events| - 1]), events[|events| - 1]);
    }
  }

  lemma LastGains(r: Rules, events: seq<Event>)
    requires r.nodes % 2 == 1 && r.recheckVote && events != []
    ensures Gains(Run(r, events[..|events| - 1]).elections, Run(r, events).elections)
  {
    var front := events[..|events| - 1];
    RunPolls(r, front);
    PollsStep(r, Run(r, front), events[|events| - 1]);
  }

  lemma {:induction false} RunGains(r: Rules, events: seq<Event>, more: seq<Event>)
    requires r.nodes % 2 == 1 && r.recheckVote
    ensures Gains(Run(r, events).elections, Run(r, events + more).elections)
    decreases |more|
  {
    if more == [] {
      assert events + more == events;
    } else {
      var all := events + more;
      assert all[..|all| - 1] == events + more[..|more| - 1];
      RunGains(r, events, more[..|more| - 1]);
      LastGains(r, all);
    }
  }

  /** Election safety: two nodes that lead in the same term, at any two moments of a run, are
      the same node. How followers commit does not matter. */
  lemma ElectionSafety(r: Rules, events: seq<Event>, more: seq<Event>, a: nat, b: nat, term: nat)
    requires r.nodes % 2 == 1 && r.recheckVote
    requires IsLeader(Run(r, events), a, term) && IsLeader(Run(r, events + more), b, term)
    ensures a == b
  {
    var s0, s1 := Run(r, events), Run(r, events + more);
    RunPolls(r, events);
    RunPolls(r, events + more);
    RunGains(r, events, more);
    assert LeaderOk(s0.nodes, s0.elections, a) && LeaderOk(s1.nodes, s1.elections, b);
  }

  // ---- how leaders come about ----

  /** The event is a vote, counted in time, that takes a standing candidate past the count. */
  predicate Decides(r: Rules, s: Cluster, e: Event, j: nat)
    requires j < |s.nodes|
  {
    && e.Count? && !e.late && e.ballot in s.passed && e.ballot.call.candidate == j
    && s.nodes[j].role.Candidate? && (r.recheckVote ==> s.nodes[j].term == e.ballot.call.term)
    && s.nodes[j].voteCount <= (r.nodes - 1) / 2 < s.nodes[j].voteCount + 1
  }

  /** In every run, exactly such a vote makes a leader. */
  lemma LeaderBeginsExactly(r: Rules, events: seq<Event>, e: Event, j: nat)
    requires j < r.nodes && !Run(r, events).nodes[j].role.Leader?
    ensures Run(r, events + [e]).nodes[j].role.Leader? <==> Decides(r, Run(r, events), e, j)
  {
    RunSnoc(r, events, e);
    BeginsNow(r, Run(r, events), e, j);
  }

  lemma BeginsNow(r: Rules, s: Cluster, e: Event, j: nat)
    requires Sized(s) && |s.nodes| == r.nodes && j < r.nodes && !s.nodes[j].role.Leader?
    ensures Apply(r, s, e).nodes[j].role.Leader? <==> Decides(r, s, e, j)
  {
    if e.Count? {
      CountBegins(r, s, e, j);
    } else if e.DeliverAppend? {
      AppendBegins(r, s, e, j);
    } else {
      OthersBegin(r, s, e, j);
    }
  }

  lemma CountBegins(r: Rules, s: Cluster, e: Event, j: nat)
    requires Sized(s) && |s.nodes| == r.nodes && j < r.nodes && !s.nodes[j].role.Leader? && e.Count?
    ensures Apply(r, s, e).nodes[j].role.Leader? <==> Decides(r, s, e, j)
  {
  }

  lemma AppendBegins(r: Rules, s: Cluster, e: Event, j: nat)
    requires Sized(s) && j < |s.nodes| && !s.nodes[j].role.Leader? && e.DeliverAppend?
    ensures !Apply(r, s, e).nodes[j].role.Leader?
  {
    if e.msg.AppendRequest? && e.msg.to == j {
      NoPromotion(r, s.nodes[j], e.msg.args);
    }
  }

  lemma OthersBegin(r: Rules, s: Cluster, e: Event, j: nat)
    requires Sized(s) && j < |s.nodes| && !s.nodes[j].role.Leader? && !e.Count? && !e.DeliverAppend?
    ensures !Apply(r, s, e).nodes[j].role.Leader?
  {
  }

  lemma NoPromotion(r: Rules, n: Node, a: AppendArgs)
    requires !n.role.Leader?
    ensures !HandleAppend(r, n, a).0.role.Leader?
  {
  }
}
