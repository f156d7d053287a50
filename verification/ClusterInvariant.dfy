/** The invariant of the cluster and what follows from it in a single state: log matching,
    leader completeness, agreement of committed prefixes. */
module ClusterInvariant {
  import opened Quorums
  import opened RaftNode
  import opened Cluster

  // ---- logs ----

  predicate Agree(a: seq<Entry>, b: seq<Entry>, i: nat) {
    i < |a| && i < |b| && a[..i + 1] == b[..i + 1]
  }

  predicate Contains(log: seq<Entry>, term: nat, i: nat) {
    i < |log| && log[i].term == term
  }

  predicate LogOk(log: seq<Entry>, bound: nat) {
    && |log| > 0 && log[0] == Placeholder
    && (forall i :: 0 < i < |log| ==> 1 <= log[i].term <= bound)
    && (forall i, j :: 0 <= i <= j < |log| ==> log[i].term <= log[j].term)
  }

  /** The entry was made by the winner of its term, and the log up to it is the winner's. */
  predicate FromLeader(E: Elections, log: seq<Entry>, i: nat) {
    i < |log| && log[i].term in E && Agree(log, E[log[i].term].log, i)
  }

  predicate FromLeaders(E: Elections, log: seq<Entry>) {
    forall i {:trigger FromLeader(E, log, i)} :: 0 < i < |log| ==> FromLeader(E, log, i)
  }

  // ---- votes ----

  predicate IsBallot(m: Msg) { m.VoteAnswer? && m.granted.granted }

  ghost predicate Voted(msgs: set<Msg>, p: nat, term: nat, c: nat, seen: seq<Entry>) {
    exists m :: m in msgs && IsBallot(m) && m.from == p && m.vote.term == term && m.vote.candidate == c
                && m.seen == seen
  }

  /** The winner's log at the election is at least as up to date as a voter's. */
  predicate Covers(log: seq<Entry>, start: nat, seen: seq<Entry>)
    requires 1 <= start <= |log|
  {
    log[start - 1].term > LastTerm(seen) || (log[start - 1].term == LastTerm(seen) && start >= |seen|)
  }

  ghost predicate ElectionOk(nodes: nat, msgs: set<Msg>, E: Elections, term: nat)
    requires term in E
  {
    var e := E[term];
    && term >= 1
    && e.leader in e.voters && IsQuorum(nodes, e.voters.Keys)
    && LogOk(e.log, term) && FromLeaders(E, e.log)
    && 1 <= e.start <= |e.log|
    && (forall i :: 0 <= i < e.start ==> e.log[i].term < term)
    && (forall i :: e.start <= i < |e.log| ==> e.log[i].term == term)
    && (forall p :: p in e.voters ==>
          && Voted(msgs, p, term, e.leader, e.voters[p]) && Covers(e.log, e.start, e.voters[p])
          && LogOk(e.voters[p], term) && FromLeaders(E, e.voters[p]))
  }

  ghost predicate ElectionsOk(nodes: nat, msgs: set<Msg>, E: Elections) {
    forall term {:trigger ElectionOk(nodes, msgs, E, term)} :: term in E ==> ElectionOk(nodes, msgs, E, term)
  }

  predicate BallotOk(nodes: seq<Node>, msgs: set<Msg>, E: Elections, m: Msg)
    requires IsBallot(m)
  {
    && m.from < |nodes| && m.vote.term <= nodes[m.from].saved.term
    && (m.vote.term == nodes[m.from].saved.term ==> nodes[m.from].saved.vote == m.vote.candidate)
    && VoteRequest(m.vote) in msgs && UpToDate(m.vote, m.seen)
    && LogOk(m.seen, m.vote.term) && FromLeaders(E, m.seen)
  }

  /** Two votes of one node in one term. */
  predicate SameBallot(m: Msg, m': Msg) {
    IsBallot(m) && IsBallot(m') && m.from == m'.from && m.vote.term == m'.vote.term
  }

  ghost predicate BallotsOk(nodes: seq<Node>, msgs: set<Msg>, E: Elections) {
    && (forall m {:trigger BallotOk(nodes, msgs, E, m)} :: m in msgs && IsBallot(m) ==> BallotOk(nodes, msgs, E, m))
    && (forall m, m' {:trigger SameBallot(m, m')} ::
          m in msgs && m' in msgs && SameBallot(m, m') ==> m.vote.candidate == m'.vote.candidate)
  }

  predicate RequestOk(nodes: seq<Node>, E: Elections, a: VoteArgs) {
    && a.candidate < |nodes| && a.term <= nodes[a.candidate].saved.term
    && (nodes[a.candidate].role.Candidate? && nodes[a.candidate].term == a.term && a.term !in E ==>
          a.lastIndex == LastIndex(nodes[a.candidate].log) && a.lastTerm == LastTerm(nodes[a.candidate].log))
  }

  ghost predicate RequestsOk(nodes: seq<Node>, msgs: set<Msg>, E: Elections) {
    forall m {:trigger RequestOk(nodes, E, m.vote)} :: m in msgs && m.VoteRequest? ==> RequestOk(nodes, E, m.vote)
  }

  // ---- acknowledgements ----

  predicate IsAck(m: Msg, p: nat, term: nat, i: int) {
    m.AppendAnswer? && m.reply.success && m.from == p && m.args.term == term
    && i <= m.args.prev + |m.args.entries|
  }

  ghost predicate AckSent(msgs: set<Msg>, p: nat, term: nat, i: int) {
    exists m :: m in msgs && IsAck(m, p, term, i)
  }

  /** Node p has acknowledged the entry the leader of `term` made in its own term at i;
      the leader itself counts from the start. */
  ghost predicate Acked(msgs: set<Msg>, E: Elections, p: nat, term: nat, i: nat) {
    && term in E && i >= 1 && Contains(E[term].log, term, i)
    && (E[term].leader == p || AckSent(msgs, p, term, i))
  }

  /** Some later leader, up to term `hi`, does not have the entry. */
  ghost predicate Lacked(E: Elections, term: nat, i: nat, hi: int) {
    exists t :: t in E && term < t <= hi && !Contains(E[t].log, term, i)
  }

  ghost predicate AckOk(nodes: seq<Node>, E: Elections, p: nat, term: nat, i: nat) {
    && p < |nodes| && term <= nodes[p].saved.term
    && (Contains(nodes[p].log, term, i) || Lacked(E, term, i, nodes[p].saved.term))
  }

  ghost predicate AcksOk(nodes: seq<Node>, msgs: set<Msg>, E: Elections) {
    forall p, term, i :: Acked(msgs, E, p, term, i) ==> AckOk(nodes, E, p, term, i)
  }

  /** What p acknowledged before it voted is in the log it voted with, unless a leader up to
      term `hi` already lacked it. */
  ghost predicate Keeps(msgs: set<Msg>, E: Elections, p: nat, seen: seq<Entry>, term: nat, hi: int) {
    forall t: nat, i: nat :: Acked(msgs, E, p, t, i) && t < term ==> Contains(seen, t, i) || Lacked(E, t, i, hi)
  }

  ghost predicate BallotsKeep(msgs: set<Msg>, E: Elections) {
    forall m {:trigger Keeps(msgs, E, m.from, m.seen, m.vote.term, m.vote.term)} ::
      m in msgs && IsBallot(m) ==> Keeps(msgs, E, m.from, m.seen, m.vote.term, m.vote.term)
  }

  ghost predicate VotersKeep(msgs: set<Msg>, E: Elections) {
    forall term, p {:trigger Keeps(msgs, E, p, E[term].voters[p], term, term - 1)} ::
      term in E && p in E[term].voters ==> Keeps(msgs, E, p, E[term].voters[p], term, term - 1)
  }

  // ---- commitment ----

  ghost predicate CommitOk(nodes: nat, msgs: set<Msg>, E: Elections, k: (nat, nat), q: set<nat>) {
    IsQuorum(nodes, q) && forall p :: p in q ==> Acked(msgs, E, p, k.0, k.1)
  }

  ghost predicate CommitsOk(nodes: nat, msgs: set<Msg>, E: Elections, C: Commits) {
    forall k {:trigger CommitOk(nodes, msgs, E, k, C[k])} :: k in C ==> CommitOk(nodes, msgs, E, k, C[k])
  }

  /** The log through c is what some leader up to `term` committed. */
  ghost predicate Committed(E: Elections, C: Commits, log: seq<Entry>, c: nat, term: nat) {
    c == 0 || exists k :: k in C && k.0 in E && k.0 <= term && c <= k.1 && Agree(log, E[k.0].log, c)
  }

  // ---- replication messages ----

  ghost predicate AppendOk(nodes: nat, E: Elections, C: Commits, to: nat, a: AppendArgs) {
    && a.term in E && a.leader == E[a.term].leader && to < nodes && to != a.leader
    && var log := E[a.term].log;
       && 0 <= a.prev && a.prev + |a.entries| < |log|
       && log[a.prev].term == a.prevTerm
       && log[a.prev + 1..a.prev + 1 + |a.entries|] == a.entries
       && a.leaderCommit < |log| && Committed(E, C, log, a.leaderCommit, a.term)
  }

  ghost predicate AppendsOk(nodes: nat, msgs: set<Msg>, E: Elections, C: Commits) {
    forall m {:trigger AppendOk(nodes, E, C, m.to, m.args)} ::
      m in msgs && m.AppendRequest? ==> AppendOk(nodes, E, C, m.to, m.args)
  }

  predicate AnswerOk(nodes: seq<Node>, msgs: set<Msg>, m: Msg)
    requires m.AppendAnswer?
  {
    && AppendRequest(m.from, m.args, m.round) in msgs
    && m.from < |nodes| && m.args.term <= nodes[m.from].saved.term
  }

  ghost predicate AnswersOk(nodes: seq<Node>, msgs: set<Msg>) {
    forall m {:trigger AnswerOk(nodes, msgs, m)} ::
      m in msgs && m.AppendAnswer? && m.reply.success ==> AnswerOk(nodes, msgs, m)
  }

  ghost predicate SnapOk(E: Elections, C: Commits, a: SnapArgs) {
    && a.term in E && Contains(E[a.term].log, a.indexTerm, a.index)
    && Committed(E, C, E[a.term].log, a.index, a.term)
  }

  ghost predicate SnapsOk(msgs: set<Msg>, E: Elections, C: Commits) {
    forall m {:trigger SnapOk(E, C, m.snap)} :: m in msgs && m.SnapRequest? ==> SnapOk(E, C, m.snap)
  }

  // ---- nodes ----

  predicate Leads(E: Elections, j: nat, term: nat) {
    term in E && E[term].leader == j
  }

  ghost predicate MatchOk(msgs: set<Msg>, n: Node) {
    forall p :: p in n.matchIndex ==> n.matchIndex[p] <= n.commit || AckSent(msgs, p, n.term, n.matchIndex[p])
  }

  ghost predicate NodeOk(j: nat, n: Node, msgs: set<Msg>, E: Elections, C: Commits) {
    && LogOk(n.log, n.saved.term) && FromLeaders(E, n.log)
    && n.saved.term <= n.term && (n.saved.term == n.term ==> n.saved.vote == n.vote)
    && n.snap <= n.commit < |n.log| && n.saved.snap <= n.saved.commit < |n.log|
    && Committed(E, C, n.log, n.commit, n.term) && Committed(E, C, n.log, n.saved.commit, n.saved.term)
    && (Leads(E, j, n.saved.term) ==> n.log == E[n.saved.term].log)
    && (n.role.Leader? ==> Leads(E, j, n.term) && forall k :: k in C && k.0 == n.term ==> k.1 <= n.commit)
    && (Leads(E, j, n.term) ==> MatchOk(msgs, n)) && n.matchIndex.Keys <= n.nextIndex.Keys
  }

  ghost predicate NodesOk(nodes: seq<Node>, msgs: set<Msg>, E: Elections, C: Commits) {
    forall j {:trigger NodeOk(j, nodes[j], msgs, E, C)} ::
      0 <= j < |nodes| ==> NodeOk(j, nodes[j], msgs, E, C)
  }

  ghost predicate CandidateOk(nodes: nat, j: nat, n: Node, tally: map<nat, seq<Entry>>, msgs: set<Msg>, E: Elections) {
    n.role.Candidate? ==>
      && n.term == n.saved.term && n.term >= 1 && n.vote == j && !Leads(E, j, n.term)
      && n.voteCount == |tally| && j in tally && Members(nodes, tally.Keys)
      && forall p :: p in tally ==> Voted(msgs, p, n.term, j, tally[p])
  }

  ghost predicate CandidatesOk(nodes: seq<Node>, tally: seq<map<nat, seq<Entry>>>, msgs: set<Msg>, E: Elections)
    requires |nodes| == |tally|
  {
    forall j {:trigger CandidateOk(|nodes|, j, nodes[j], tally[j], msgs, E)} ::
      0 <= j < |nodes| ==> CandidateOk(|nodes|, j, nodes[j], tally[j], msgs, E)
  }

  /** A call that is still open, or whose vote is on its way, has not been counted yet. */
  ghost predicate CallOk(nodes: seq<Node>, tally: seq<map<nat, seq<Entry>>>, k: Call)
    requires |nodes| == |tally|
  {
    && k.candidate < |nodes| && k.peer < |nodes| && k.term <= nodes[k.candidate].saved.term
    && (nodes[k.candidate].role.Candidate? && nodes[k.candidate].term == k.term ==> k.peer !in tally[k.candidate])
  }

  ghost predicate PassedOk(s: Cluster, b: Ballot)
    requires Sized(s)
  {
    && CallOk(s.nodes, s.tally, b.call) && b.call !in s.calls
    && Voted(s.msgs, b.call.peer, b.call.term, b.call.candidate, b.seen)
  }

  predicate SameCall(b: Ballot, b': Ballot) { b.call == b'.call }

  ghost predicate CallsOk(s: Cluster)
    requires Sized(s)
  {
    && (forall k {:trigger CallOk(s.nodes, s.tally, k)} :: k in s.calls ==> CallOk(s.nodes, s.tally, k))
    && (forall b {:trigger PassedOk(s, b)} :: b in s.passed ==> PassedOk(s, b))
    && (forall b, b' {:trigger SameCall(b, b')} :: b in s.passed && b' in s.passed && SameCall(b, b') ==> b == b')
  }

  // ---- reads ----

  /** Elections only gain winners, and a winner's log only grows. */
  predicate Extends(E: Elections, F: Elections) {
    forall t :: t in E ==>
      && t in F && F[t].leader == E[t].leader && F[t].voters == E[t].voters && F[t].start == E[t].start
      && E[t].log <= F[t].log
  }

  predicate Recorded(C: Commits, D: Commits) {
    forall k :: k in C ==> k in D
  }

  predicate SampleOk(s: Cluster, x: Sample) {
    && Extends(x.elections, s.elections) && Recorded(x.commits, s.commits)
    && x.term in x.elections && x.elections[x.term].leader == x.node && x.elections[x.term].log == x.log
    && x.commit < |x.log|
    && (forall k :: k in x.commits && k.0 == x.term ==> k.1 <= x.commit)
    && (forall k :: k in x.commits ==> k.0 in x.elections)
    && (forall t :: t in x.elections && x.node in x.elections[t].voters ==> t <= x.term)
  }

  /** The heartbeats of a read's round come from the node that sampled. A success answer came
      after the sample, so its sender had not voted in any election of a later term that the
      sample already knew of. */
  ghost predicate RoundOk(s: Cluster, m: Msg) {
    && ((m.AppendRequest? || m.AppendAnswer?) && m.round > 0 ==>
          m.round in s.samples && m.args.leader == s.samples[m.round].node)
    && (m.AppendAnswer? && m.reply.success && m.round > 0 ==>
          forall t :: t in s.samples[m.round].elections && m.from in s.samples[m.round].elections[t].voters ==>
            t <= m.args.term)
  }

  ghost predicate ReadsOk(s: Cluster) {
    && (forall x {:trigger SampleOk(s, s.samples[x])} :: x in s.samples ==> SampleOk(s, s.samples[x]))
    && (forall m {:trigger RoundOk(s, m)} :: m in s.msgs ==> RoundOk(s, m))
  }

  ghost predicate LogsOk(s: Cluster) {
    && ElectionsOk(|s.nodes|, s.msgs, s.elections)
    && AcksOk(s.nodes, s.msgs, s.elections)
    && BallotsKeep(s.msgs, s.elections) && VotersKeep(s.msgs, s.elections)
    && CommitsOk(|s.nodes|, s.msgs, s.elections, s.commits)
    && AppendsOk(|s.nodes|, s.msgs, s.elections, s.commits)
    && AnswersOk(s.nodes, s.msgs)
    && SnapsOk(s.msgs, s.elections, s.commits)
    && NodesOk(s.nodes, s.msgs, s.elections, s.commits)
  }

  ghost predicate VotesOk(s: Cluster)
    requires Sized(s)
  {
    && BallotsOk(s.nodes, s.msgs, s.elections)
    && RequestsOk(s.nodes, s.msgs, s.elections)
    && CandidatesOk(s.nodes, s.tally, s.msgs, s.elections)
    && CallsOk(s)
  }

  ghost predicate Inv(s: Cluster) {
    && Sized(s) && |s.nodes| % 2 == 1
    && LogsOk(s) && VotesOk(s) && ReadsOk(s)
  }

  // ---- consequences ----

  lemma AgreeDown(a: seq<Entry>, b: seq<Entry>, i: nat, k: nat)
    requires Agree(a, b, i) && k <= i
    ensures Agree(a, b, k) && a[k] == b[k]
  {
    assert a[..k + 1] == a[..i + 1][..k + 1] && b[..k + 1] == b[..i + 1][..k + 1];
    assert a[k] == a[..k + 1][k] && b[k] == b[..k + 1][k];
  }

  /** Log matching: an entry with the same index and term fixes everything before it. */
  lemma LogMatching(E: Elections, a: seq<Entry>, b: seq<Entry>, i: nat)
    requires FromLeaders(E, a) && FromLeaders(E, b)
    requires i < |a| && i < |b| && a[i].term == b[i].term
    requires i == 0 ==> a[0] == b[0]
    ensures Agree(a, b, i)
  {
    if i > 0 {
      assert FromLeader(E, a, i) && FromLeader(E, b, i);
    }
  }

  /** The heart of leader completeness: a winner whose voter held a committed entry has it too. */
  lemma WinnerHas(E: Elections, term: nat, i: nat, t: nat, seen: seq<Entry>)
    requires term in E && t in E && term < t && i >= 1
    requires LogOk(seen, t) && FromLeaders(E, seen) && Contains(seen, term, i)
    requires LogOk(E[t].log, t) && FromLeaders(E, E[t].log) && 1 <= E[t].start <= |E[t].log|
    requires Covers(E[t].log, E[t].start, seen)
    requires E[t].log[E[t].start - 1].term < t
    requires forall u :: u in E ==> LogOk(E[u].log, u)
    requires forall u :: u in E && term <= u < t ==> Contains(E[u].log, term, i)
    ensures Contains(E[t].log, term, i)
  {
    var log, last := E[t].log, E[t].start - 1;
    var lt := log[last].term;
    assert LastTerm(seen) >= term;
    if lt == LastTerm(seen) {
      LogMatchingAt(E, seen, |seen| - 1, i);
      LogMatchingAt(E, log, last, i);
    } else {
      assert last > 0;
      assert FromLeader(E, log, last);
      AgreeDown(log, E[lt].log, last, last);
      assert last >= i;
      AgreeDown(log, E[lt].log, last, i);
    }
  }

  lemma LogMatchingAt(E: Elections, log: seq<Entry>, last: nat, i: nat)
    requires FromLeaders(E, log) && 0 < last < |log| && i <= last
    ensures log[last].term in E && i < |E[log[last].term].log| && E[log[last].term].log[i] == log[i]
  {
    assert FromLeader(E, log, last);
    AgreeDown(log, E[log[last].term].log, last, i);
  }

  /** What leader completeness rests on. */
  ghost predicate HistoryOk(nodes: nat, msgs: set<Msg>, E: Elections, C: Commits) {
    && nodes % 2 == 1 && ElectionsOk(nodes, msgs, E) && VotersKeep(msgs, E) && CommitsOk(nodes, msgs, E, C)
  }

  lemma CommitAcked(nodes: nat, msgs: set<Msg>, E: Elections, C: Commits, k: (nat, nat))
    requires HistoryOk(nodes, msgs, E, C) && k in C
    ensures k.0 in E && k.1 >= 1 && Contains(E[k.0].log, k.0, k.1)
  {
    assert CommitOk(nodes, msgs, E, k, C[k]);
    assert C[k] != {};
    var q :| q in C[k];
    assert Acked(msgs, E, q, k.0, k.1);
  }

  /** Leader completeness: what any leader committed is in the log of every later leader. */
  lemma LeaderCompleteness(nodes: nat, msgs: set<Msg>, E: Elections, C: Commits, k: (nat, nat), t: nat)
    requires HistoryOk(nodes, msgs, E, C) && k in C && t in E && k.0 <= t
    ensures Contains(E[t].log, k.0, k.1)
    decreases t
  {
    CommitAcked(nodes, msgs, E, C, k);
    if k.0 < t {
      assert ElectionOk(nodes, msgs, E, t) && CommitOk(nodes, msgs, E, k, C[k]);
      var p := QuorumsMeet(nodes, C[k], E[t].voters.Keys);
      assert Acked(msgs, E, p, k.0, k.1);
      forall u | u in E && k.0 <= u < t ensures Contains(E[u].log, k.0, k.1) {
        LeaderCompleteness(nodes, msgs, E, C, k, u);
      }
      forall u | u in E ensures LogOk(E[u].log, u) {
        assert ElectionOk(nodes, msgs, E, u);
      }
      assert Keeps(msgs, E, p, E[t].voters[p], t, t - 1);
      WinnerHas(E, k.0, k.1, t, E[t].voters[p]);
    }
  }

  /** A committed prefix is a prefix of every later leader's log. */
  lemma CommittedInLeader(nodes: nat, msgs: set<Msg>, E: Elections, C: Commits,
                          log: seq<Entry>, c: nat, term: nat, t: nat)
    requires HistoryOk(nodes, msgs, E, C) && t in E && term <= t
    requires Committed(E, C, log, c, term)
    requires c < |log| && log[0] == Placeholder
    ensures Agree(log, E[t].log, c)
  {
    assert ElectionOk(nodes, msgs, E, t);
    if c == 0 {
      assert log[..1] == [Placeholder] == E[t].log[..1];
    } else {
      var k :| k in C && k.0 in E && k.0 <= term && c <= k.1 && Agree(log, E[k.0].log, c);
      LeaderCompleteness(nodes, msgs, E, C, k, t);
      CommitAcked(nodes, msgs, E, C, k);
      assert ElectionOk(nodes, msgs, E, k.0);
      LogMatching(E, E[t].log, E[k.0].log, k.1);
      AgreeDown(E[t].log, E[k.0].log, k.1, c);
    }
  }
}
