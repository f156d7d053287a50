/** Steps of log replication and commitment. */
module ClusterLogs {
  import opened Basics
  import opened Quorums
  import opened RaftNode
  import opened Cluster
  import opened ClusterInvariant
  import opened ClusterQuiet

  // ---- a leader appends ----

  /** F is E with one more entry of term T in the log of the winner of T. */
  predicate Appends(E: Elections, F: Elections, T: nat, e: Entry) {
    && T in E && e.term == T && F == E[T := E[T].(log := E[T].log + [e])]
  }

  lemma AppendExtends(E: Elections, F: Elections, T: nat, e: Entry)
    requires Appends(E, F, T, e)
    ensures Extends(E, F)
    ensures forall t, i, hi :: Lacked(E, t, i, hi) ==> Lacked(F, t, i, hi)
  {
    forall t, i, hi | Lacked(E, t, i, hi) ensures Lacked(F, t, i, hi) {
      var u :| u in E && t < u <= hi && !Contains(E[u].log, t, i);
      assert u in F && !Contains(F[u].log, t, i);
    }
  }

  /** An acknowledgement never reaches past the leader's log. */
  lemma AckInLog(s: Cluster, m: Msg)
    requires Inv(s) && m in s.msgs && m.AppendAnswer? && m.reply.success
    ensures m.args.term in s.elections && m.args.prev + |m.args.entries| < |s.elections[m.args.term].log|
  {
    assert AnswerOk(s.nodes, s.msgs, m);
    var q := AppendRequest(m.from, m.args, m.round);
    assert AppendOk(|s.nodes|, s.elections, s.commits, q.to, q.args);
  }

  lemma AppendAcks(s: Cluster, F: Elections, T: nat, e: Entry, p: nat, t: nat, i: nat)
    requires Inv(s) && Appends(s.elections, F, T, e) && Acked(s.msgs, F, p, t, i)
    ensures Acked(s.msgs, s.elections, p, t, i)
            || (t == T && i == |s.elections[T].log| && p == s.elections[T].leader)
  {
    if p != s.elections[t].leader {
      var m :| m in s.msgs && IsAck(m, p, t, i);
      AckInLog(s, m);
    }
  }

  lemma AppendElections(nodes: nat, msgs: set<Msg>, E: Elections, F: Elections, T: nat, e: Entry)
    requires Appends(E, F, T, e) && ElectionsOk(nodes, msgs, E)
    ensures ElectionsOk(nodes, msgs, F)
  {
    forall t | t in F ensures ElectionOk(nodes, msgs, F, t) {
      assert ElectionOk(nodes, msgs, E, t);
      AppendElection(nodes, msgs, E, F, T, e, t);
    }
  }

  lemma AppendElection(nodes: nat, msgs: set<Msg>, E: Elections, F: Elections, T: nat, e: Entry, t: nat)
    requires Appends(E, F, T, e) && t in E && ElectionOk(nodes, msgs, E, t)
    ensures ElectionOk(nodes, msgs, F, t)
  {
    AppendExtends(E, F, T, e);
    FromLeadersGrow(E, F, E[t].log);
    forall p | p in E[t].voters ensures FromLeaders(F, E[t].voters[p]) {
      FromLeadersGrow(E, F, E[t].voters[p]);
    }
    if t == T {
      AppendedLog(E, F, T, e);
    }
  }

  lemma AppendedLog(E: Elections, F: Elections, T: nat, e: Entry)
    requires Appends(E, F, T, e) && LogOk(E[T].log, T) && T >= 1 && FromLeaders(F, E[T].log)
    ensures LogOk(F[T].log, T) && FromLeaders(F, F[T].log)
  {
    var log := F[T].log;
    forall i | 0 < i < |log| ensures FromLeader(F, log, i) {
      if i < |E[T].log| {
        assert FromLeader(F, E[T].log, i);
        assert log[i] == E[T].log[i];
        assert log[..i + 1] == E[T].log[..i + 1];
      }
    }
  }

  lemma CommittedPrefix(E: Elections, C: Commits, log: seq<Entry>, log': seq<Entry>, c: nat, d: nat, term: nat)
    requires Committed(E, C, log, c, term) && d <= c && Agree(log', log, d)
    ensures Committed(E, C, log', d, term)
  {
    if d > 0 {
      var k :| k in C && k.0 in E && k.0 <= term && c <= k.1 && Agree(log, E[k.0].log, c);
      AgreeDown(log, E[k.0].log, c, d);
      assert Agree(log', E[k.0].log, d);
    }
  }

  lemma AppendMessages(s: Cluster, F: Elections, T: nat, e: Entry)
    requires Inv(s) && Appends(s.elections, F, T, e)
    ensures AppendsOk(|s.nodes|, s.msgs, F, s.commits) && SnapsOk(s.msgs, F, s.commits)
  {
    var E, C := s.elections, s.commits;
    AppendExtends(E, F, T, e);
    forall m | m in s.msgs && m.AppendRequest? ensures AppendOk(|s.nodes|, F, C, m.to, m.args) {
      var a := m.args;
      assert AppendOk(|s.nodes|, E, C, m.to, a);
      GrowCommitted(E, F, C, a.term, a.leaderCommit);
      assert F[a.term].log[a.prev + 1..a.prev + 1 + |a.entries|] == E[a.term].log[a.prev + 1..a.prev + 1 + |a.entries|];
    }
    forall m | m in s.msgs && m.SnapRequest? ensures SnapOk(F, C, m.snap) {
      assert SnapOk(E, C, m.snap);
      GrowCommitted(E, F, C, m.snap.term, m.snap.index);
    }
  }

  lemma GrowCommitted(E: Elections, F: Elections, C: Commits, t: nat, c: nat)
    requires Extends(E, F) && t in E && c < |E[t].log| && Committed(E, C, E[t].log, c, t)
    ensures Committed(F, C, F[t].log, c, t)
  {
    CommittedGrow(E, F, C, C, E[t].log, c, t, t);
    assert F[t].log[..c + 1] == E[t].log[..c + 1];
    CommittedPrefix(F, C, E[t].log, F[t].log, c, c, t);
  }

  lemma AppendKeeps(s: Cluster, F: Elections, T: nat, e: Entry)
    requires Inv(s) && Appends(s.elections, F, T, e)
    requires s.elections[T].leader < |s.nodes| && s.nodes[s.elections[T].leader].saved.term == T
    ensures BallotsKeep(s.msgs, F) && VotersKeep(s.msgs, F) && CommitsOk(|s.nodes|, s.msgs, F, s.commits)
  {
    var E, msgs := s.elections, s.msgs;
    AppendExtends(E, F, T, e);
    forall b | b in msgs && IsBallot(b) ensures Keeps(msgs, F, b.from, b.seen, b.vote.term, b.vote.term) {
      assert Keeps(msgs, E, b.from, b.seen, b.vote.term, b.vote.term);
      assert BallotOk(s.nodes, msgs, E, b);
      forall t: nat, i: nat | Acked(msgs, F, b.from, t, i) && t < b.vote.term ensures Acked(msgs, E, b.from, t, i) {
        AppendAcks(s, F, T, e, b.from, t, i);
      }
    }
    forall u: nat, p | u in F && p in F[u].voters ensures Keeps(msgs, F, p, F[u].voters[p], u, u - 1) {
      assert Keeps(msgs, E, p, E[u].voters[p], u, u - 1);
      VoterSaved(s, u, p);
      forall t: nat, i: nat | Acked(msgs, F, p, t, i) && t < u ensures Acked(msgs, E, p, t, i) {
        AppendAcks(s, F, T, e, p, t, i);
      }
    }
    forall k | k in s.commits ensures CommitOk(|s.nodes|, msgs, F, k, s.commits[k]) {
      assert CommitOk(|s.nodes|, msgs, E, k, s.commits[k]);
    }
  }

  lemma VoterSaved(s: Cluster, u: nat, p: nat)
    requires Inv(s) && u in s.elections && p in s.elections[u].voters
    ensures p < |s.nodes| && u <= s.nodes[p].saved.term
  {
    assert ElectionOk(|s.nodes|, s.msgs, s.elections, u);
    var m :| m in s.msgs && IsBallot(m) && m.from == p && m.vote.term == u;
    assert BallotOk(s.nodes, s.msgs, s.elections, m);
  }

  lemma LeaderFacts(s: Cluster, c: nat)
    requires Inv(s) && c < |s.nodes| && Leads(s.elections, c, s.nodes[c].term)
    ensures var n := s.nodes[c];
            n.saved.term == n.term && n.term >= 1 && n.log == s.elections[n.term].log
  {
    assert NodeOk(c, s.nodes[c], s.msgs, s.elections, s.commits);
    LeaderSaved(s, s.nodes[c].term);
    assert ElectionOk(|s.nodes|, s.msgs, s.elections, s.nodes[c].term);
  }

  lemma CommandNodes(s: Cluster, c: nat, command: Op)
    requires Inv(s) && c < |s.nodes| && s.nodes[c].role.Leader?
    requires Leads(s.elections, c, s.nodes[c].term)
    ensures var s' := ApplyCommand(s, c, command);
            NodesOk(s'.nodes, s'.msgs, s'.elections, s'.commits) && AcksOk(s'.nodes, s'.msgs, s'.elections)
  {
    var s' := ApplyCommand(s, c, command);
    var E, F, C, T, e := s.elections, s'.elections, s.commits, s.nodes[c].term, Entry(s.nodes[c].term, Some(command));
    LeaderFacts(s, c);
    assert Appends(E, F, T, e);
    AppendExtends(E, F, T, e);
    forall k | 0 <= k < |s'.nodes| ensures NodeOk(k, s'.nodes[k], s.msgs, F, C) {
      var n := s.nodes[k];
      assert NodeOk(k, n, s.msgs, E, C);
      if k == c {
        CommandNode(s, c, command);
      } else {
        FromLeadersGrow(E, F, n.log);
        CommittedGrow(E, F, C, C, n.log, n.commit, n.term, n.term);
        CommittedGrow(E, F, C, C, n.log, n.saved.commit, n.saved.term, n.saved.term);
      }
    }
    CommandAcks(s, c, command);
  }

  lemma CommandNode(s: Cluster, c: nat, command: Op)
    requires Inv(s) && c < |s.nodes| && s.nodes[c].role.Leader?
    requires Leads(s.elections, c, s.nodes[c].term)
    ensures var s' := ApplyCommand(s, c, command); NodeOk(c, s'.nodes[c], s'.msgs, s'.elections, s'.commits)
  {
    var s' := ApplyCommand(s, c, command);
    var E, F, C, T, e := s.elections, s'.elections, s.commits, s.nodes[c].term, Entry(s.nodes[c].term, Some(command));
    var n, n' := s.nodes[c], s'.nodes[c];
    LeaderFacts(s, c);
    assert Appends(E, F, T, e);
    AppendExtends(E, F, T, e);
    assert NodeOk(c, n, s.msgs, E, C);
    FromLeadersGrow(E, F, n.log);
    CommittedGrow(E, F, C, C, n.log, n.commit, n.term, n.term);
    CommittedGrow(E, F, C, C, n.log, n.saved.commit, n.saved.term, n.saved.term);
    AppendedLog(E, F, T, e);
    assert n'.log[..n.commit + 1] == n.log[..n.commit + 1];
    CommittedPrefix(F, C, n.log, n'.log, n.commit, n.commit, n.term);
  }

  lemma CommandAcks(s: Cluster, c: nat, command: Op)
    requires Inv(s) && c < |s.nodes| && s.nodes[c].role.Leader?
    requires Leads(s.elections, c, s.nodes[c].term)
    ensures var s' := ApplyCommand(s, c, command); AcksOk(s'.nodes, s'.msgs, s'.elections)
  {
    var s' := ApplyCommand(s, c, command);
    var E, F, T, e := s.elections, s'.elections, s.nodes[c].term, Entry(s.nodes[c].term, Some(command));
    LeaderFacts(s, c);
    assert Appends(E, F, T, e);
    AppendExtends(E, F, T, e);
    assert s'.nodes[c].log == F[T].log by { assert NodeOk(c, s.nodes[c], s.msgs, E, s.commits); }
    forall p, t, i | Acked(s.msgs, F, p, t, i) ensures AckOk(s'.nodes, F, p, t, i) {
      AppendAcks(s, F, T, e, p, t, i);
      if Acked(s.msgs, E, p, t, i) {
        assert AckOk(s.nodes, E, p, t, i);
      }
    }
  }

  lemma CommandStep(s: Cluster, c: nat, command: Op)
    requires Inv(s) && c < |s.nodes|
    ensures Inv(ApplyCommand(s, c, command)) && Extends(s.elections, ApplyCommand(s, c, command).elections)
  {
    var s', n := ApplyCommand(s, c, command), s.nodes[c];
    var E, F := s.elections, s'.elections;
    if !n.role.Leader? {
      assert s'.nodes == s.nodes;
    } else {
      assert NodeOk(c, n, s.msgs, E, s.commits);
      LeaderFacts(s, c);
      var e := Entry(n.term, Some(command));
      AppendExtends(E, F, n.term, e);
      AppendElections(|s.nodes|, s.msgs, E, F, n.term, e);
      AppendMessages(s, F, n.term, e);
      AppendKeeps(s, F, n.term, e);
      CommandNodes(s, c, command);
      CommandVotes(s, c, command);
      QuietReads(s, s');
    }
  }

  lemma CommandVotes(s: Cluster, c: nat, command: Op)
    requires Inv(s) && c < |s.nodes| && s.nodes[c].role.Leader? && Leads(s.elections, c, s.nodes[c].term)
    ensures VotesOk(ApplyCommand(s, c, command)) && AnswersOk(ApplyCommand(s, c, command).nodes, s.msgs)
  {
    var s', n := ApplyCommand(s, c, command), s.nodes[c];
    var E, F := s.elections, s'.elections;
    LeaderFacts(s, c);
    assert NodeOk(c, n, s.msgs, E, s.commits);
    AppendExtends(E, F, n.term, Entry(n.term, Some(command)));
    forall m | m in s.msgs && IsBallot(m) ensures BallotOk(s'.nodes, s.msgs, F, m) {
      assert BallotOk(s.nodes, s.msgs, E, m);
      FromLeadersGrow(E, F, m.seen);
    }
    forall m | m in s.msgs && m.VoteRequest? ensures RequestOk(s'.nodes, F, m.vote) {
      assert RequestOk(s.nodes, E, m.vote);
    }
    forall k | 0 <= k < |s'.nodes| ensures CandidateOk(|s'.nodes|, k, s'.nodes[k], s'.tally[k], s.msgs, F) {
      assert CandidateOk(|s.nodes|, k, s.nodes[k], s.tally[k], s.msgs, E);
    }
    forall k | k in s.calls ensures CallOk(s'.nodes, s'.tally, k) {
      assert CallOk(s.nodes, s.tally, k);
    }
    forall b | b in s.passed ensures PassedOk(s', b) {
      assert PassedOk(s, b);
    }
    forall m | m in s.msgs && m.AppendAnswer? && m.reply.success ensures AnswerOk(s'.nodes, s.msgs, m) {
      assert AnswerOk(s.nodes, s.msgs, m);
    }
  }

  // ---- a follower merges ----

  /** The accepted log, related to the leader's. */
  ghost predicate Follows(log: seq<Entry>, log': seq<Entry>, lead: seq<Entry>, last: int) {
    && last >= 0 && Agree(log', lead, last)
    && (log' == log || log' == lead[..last + 1])
    && forall c: nat :: Agree(log, lead, c) ==> Agree(log', lead, c)
  }

  /** Merging a slice of a leader's log into a log that agrees with it at `prev`: the result is
      the old log if nothing conflicts, otherwise exactly the leader's prefix, and agreement
      with the leader is never lost. */
  lemma MergeWithLeader(E: Elections, log: seq<Entry>, lead: seq<Entry>, prev: nat, entries: seq<Entry>)
    requires Agree(log, lead, prev) && FromLeaders(E, log) && FromLeaders(E, lead)
    requires prev + |entries| < |lead| && entries == lead[prev + 1..prev + 1 + |entries|]
    ensures Follows(log, Merge(log, prev, entries), lead, prev + |entries|)
  {
    var k := Matching(log, prev, entries);
    assert k > 0 ==> log[prev + k].term == entries[k - 1].term && entries[k - 1] == lead[prev + k];
    if k > 0 {
      LogMatching(E, log, lead, prev + k);
    }
    if k < |entries| {
      MergeConflict(log, lead, prev, entries, k);
    }
  }

  lemma MergeConflict(log: seq<Entry>, lead: seq<Entry>, prev: nat, entries: seq<Entry>, k: nat)
    requires prev + |entries| < |lead| && entries == lead[prev + 1..prev + 1 + |entries|]
    requires k < |entries| && Agree(log, lead, prev + k)
    requires prev + 1 + k < |log| ==> log[prev + 1 + k].term != entries[k].term
    ensures log[..prev + 1 + k] + entries[k..] == lead[..prev + 1 + |entries|]
    ensures forall c: nat :: Agree(log, lead, c) ==> Agree(lead[..prev + 1 + |entries|], lead, c)
  {
    assert entries[k] == lead[prev + 1 + k];
    forall c: nat | Agree(log, lead, c) ensures Agree(lead[..prev + 1 + |entries|], lead, c) {
      if c > prev + k {
        AgreeDown(log, lead, c, prev + k + 1);
      }
      assert lead[..prev + 1 + |entries|][..c + 1] == lead[..c + 1];
    }
    assert log[..prev + 1 + k] == lead[..prev + 1 + k];
    assert entries[k..] == lead[prev + 1 + k..prev + 1 + |entries|];
  }

  /** The consistency check, shortcut included, establishes agreement with the leader at `prev`. */
  lemma CheckedPrev(s: Cluster, j: nat, a: AppendArgs)
    requires Inv(s) && j < |s.nodes| && AppendOk(|s.nodes|, s.elections, s.commits, j, a)
    requires s.nodes[j].term == a.term && Refusal(s.nodes[j], a).None?
    ensures a.prev < |s.nodes[j].log| && Agree(s.nodes[j].log, s.elections[a.term].log, a.prev)
    ensures s.nodes[j].snap <= a.prev
  {
    var E, n, lead := s.elections, s.nodes[j], s.elections[a.term].log;
    assert NodeOk(j, n, s.msgs, E, s.commits);
    assert ElectionOk(|s.nodes|, s.msgs, E, a.term);
    if n.commit == a.prev {
      CommittedInLeader(|s.nodes|, s.msgs, E, s.commits, n.log, n.commit, n.term, a.term);
    } else {
      LogMatching(E, n.log, lead, a.prev);
    }
  }

  lemma PrefixOk(E: Elections, lead: seq<Entry>, bound: nat, k: nat)
    requires LogOk(lead, bound) && FromLeaders(E, lead) && 0 < k <= |lead|
    ensures LogOk(lead[..k], bound) && FromLeaders(E, lead[..k])
  {
    var log := lead[..k];
    forall i | 0 < i < |log| ensures FromLeader(E, log, i) {
      assert FromLeader(E, lead, i) && log[i] == lead[i];
      assert log[..i + 1] == lead[..i + 1];
    }
  }

  lemma MergedLog(E: Elections, log: seq<Entry>, lead: seq<Entry>, prev: nat, entries: seq<Entry>, b: nat, T: nat)
    requires Agree(log, lead, prev) && FromLeaders(E, log) && FromLeaders(E, lead)
    requires prev + |entries| < |lead| && entries == lead[prev + 1..prev + 1 + |entries|]
    requires LogOk(log, b) && b <= T && LogOk(lead, T)
    ensures var merged := Merge(log, prev, entries);
            Follows(log, merged, lead, prev + |entries|) && LogOk(merged, T) && FromLeaders(E, merged)
  {
    MergeWithLeader(E, log, lead, prev, entries);
    PrefixOk(E, lead, T, prev + |entries| + 1);
  }

  /** The node's log and the leader's are fit to be merged. */
  ghost predicate Mergeable(E: Elections, n: Node, lead: seq<Entry>, a: AppendArgs) {
    && 0 <= a.prev < |n.log| && n.snap <= a.prev && !n.role.Leader?
    && Agree(n.log, lead, a.prev) && FromLeaders(E, n.log) && FromLeaders(E, lead)
    && a.prev + |a.entries| < |lead| && a.entries == lead[a.prev + 1..a.prev + 1 + |a.entries|]
    && LogOk(n.log, n.saved.term) && n.saved.term <= a.term && LogOk(lead, a.term)
  }

  lemma ReadyToMerge(s: Cluster, j: nat, a: AppendArgs)
    requires Inv(s) && j < |s.nodes| && AppendOk(|s.nodes|, s.elections, s.commits, j, a)
    requires s.nodes[j].term == a.term && Refusal(s.nodes[j], a).None?
    ensures Mergeable(s.elections, s.nodes[j], s.elections[a.term].log, a)
  {
    CheckedPrev(s, j, a);
    assert NodeOk(j, s.nodes[j], s.msgs, s.elections, s.commits);
    assert ElectionOk(|s.nodes|, s.msgs, s.elections, a.term);
  }

  lemma MergeAccepted(r: Rules, E: Elections, n: Node, lead: seq<Entry>, a: AppendArgs)
    requires Mergeable(E, n, lead, a)
    ensures var log := Accept(r, n, a).log;
            Follows(n.log, log, lead, a.prev + |a.entries|) && LogOk(log, a.term) && FromLeaders(E, log)
  {
    assert Accept(r, n, a).log == Merge(n.log, a.prev, a.entries);
    MergedLog(E, n.log, lead, a.prev, a.entries, n.saved.term, a.term);
  }

  lemma AcceptLog(r: Rules, s: Cluster, j: nat, a: AppendArgs)
    requires Inv(s) && j < |s.nodes| && AppendOk(|s.nodes|, s.elections, s.commits, j, a)
    requires s.nodes[j].term == a.term && Refusal(s.nodes[j], a).None?
    ensures a.prev < |s.nodes[j].log| && s.nodes[j].snap <= a.prev && !s.nodes[j].role.Leader?
    ensures var n, log := s.nodes[j], Accept(r, s.nodes[j], a).log;
            && Follows(n.log, log, s.elections[a.term].log, a.prev + |a.entries|)
            && LogOk(log, a.term) && FromLeaders(s.elections, log)
  {
    ReadyToMerge(s, j, a);
    MergeAccepted(r, s.elections, s.nodes[j], s.elections[a.term].log, a);
  }

  lemma AcceptAgrees(s: Cluster, j: nat, a: AppendArgs)
    requires Inv(s) && j < |s.nodes| && AppendOk(|s.nodes|, s.elections, s.commits, j, a) && s.nodes[j].term == a.term
    ensures Agree(s.nodes[j].log, s.elections[a.term].log, s.nodes[j].commit)
  {
    var n := s.nodes[j];
    assert NodeOk(j, n, s.msgs, s.elections, s.commits);
    CommittedInLeader(|s.nodes|, s.msgs, s.elections, s.commits, n.log, n.commit, n.term, a.term);
  }

  /** Node j may take the state n', whose log agrees with the winner of T up to `last`. */
  ghost predicate Merged(s: Cluster, j: nat, n': Node, T: nat, last: int)
    requires j < |s.nodes|
  {
    && T in s.elections && NodeOk(j, n', s.msgs, s.elections, s.commits) && QuietVote(s.nodes[j], n')
    && n'.term == s.nodes[j].term == n'.saved.term == T
    && Follows(s.nodes[j].log, n'.log, s.elections[T].log, last)
  }

  lemma AcceptNode(r: Rules, s: Cluster, j: nat, a: AppendArgs)
    requires Inv(s) && r.commitToLastNew && j < |s.nodes| && AppendOk(|s.nodes|, s.elections, s.commits, j, a)
    requires s.nodes[j].term == a.term && Refusal(s.nodes[j], a).None?
    ensures a.prev < |s.nodes[j].log|
    ensures Merged(s, j, Accept(r, s.nodes[j], a), a.term, a.prev + |a.entries|)
  {
    AcceptLog(r, s, j, a);
    AcceptAgrees(s, j, a);
    assert NodeOk(j, s.nodes[j], s.msgs, s.elections, s.commits);
    AcceptCommit(r, s.elections, s.commits, s.nodes[j], a, s.elections[a.term].log);
  }

  lemma AcceptCommit(r: Rules, E: Elections, C: Commits, n: Node, a: AppendArgs, lead: seq<Entry>)
    requires r.commitToLastNew && !n.role.Leader?
    requires 0 <= a.prev < |n.log| && n.snap <= a.prev && n.snap <= n.commit < |n.log|
    requires n.term == a.term
    requires Follows(n.log, Merge(n.log, a.prev, a.entries), lead, a.prev + |a.entries|) && Agree(n.log, lead, n.commit)
    requires Committed(E, C, n.log, n.commit, n.term) && Committed(E, C, lead, a.leaderCommit, a.term)
    requires a.leaderCommit < |lead|
    ensures var n' := Accept(r, n, a);
            && n'.snap <= n'.commit < |n'.log| && n'.saved.snap <= n'.saved.commit < |n'.log|
            && Committed(E, C, n'.log, n'.commit, n'.term) && Committed(E, C, n'.log, n'.saved.commit, n'.saved.term)
  {
    var n', last := Accept(r, n, a), a.prev + |a.entries|;
    assert Agree(n'.log, n.log, n.commit);
    CommittedPrefix(E, C, n.log, n'.log, n.commit, n.commit, n.term);
    if a.leaderCommit > n.commit {
      AgreeDown(n'.log, lead, last, n'.commit);
      CommittedPrefix(E, C, lead, n'.log, a.leaderCommit, n'.commit, a.term);
    }
  }

  /** What the node had acknowledged it still holds, or the leader it now follows lacks it. */
  lemma AcceptAcks(s: Cluster, j: nat, n': Node, T: nat, last: int)
    requires Inv(s) && j < |s.nodes| && T in s.elections && n'.saved.term == T >= s.nodes[j].saved.term
    requires Follows(s.nodes[j].log, n'.log, s.elections[T].log, last)
    ensures AcksOk(s.nodes[j := n'], s.msgs, s.elections)
  {
    var E, n, nodes := s.elections, s.nodes[j], s.nodes[j := n'];
    assert NodeOk(j, n, s.msgs, E, s.commits);
    assert ElectionOk(|s.nodes|, s.msgs, E, T);
    forall p, t, i | Acked(s.msgs, E, p, t, i) ensures AckOk(nodes, E, p, t, i) {
      assert AckOk(s.nodes, E, p, t, i);
      if p == j && Contains(n.log, t, i) && Contains(E[T].log, t, i) {
        LogMatching(E, n.log, E[T].log, i);
        AgreeDown(n'.log, E[T].log, i, i);
      }
    }
  }

  lemma AcceptStep(r: Rules, s: Cluster, j: nat, a: AppendArgs, round: nat, reply: AppendReply)
    requires Inv(s) && r.commitToLastNew && j < |s.nodes| && AppendRequest(j, a, round) in s.msgs
    requires s.nodes[j].term == a.term && Refusal(s.nodes[j], a).None? && reply.success
    ensures 0 <= a.prev < |s.nodes[j].log|
    ensures Inv(Send(Put(s, j, Accept(r, s.nodes[j], a)), AppendAnswer(j, a, reply, round)))
  {
    var q := AppendRequest(j, a, round);
    assert AppendOk(|s.nodes|, s.elections, s.commits, q.to, q.args);
    AcceptedStep(r, s, j, a);
    AddAck(Put(s, j, Accept(r, s.nodes[j], a)), AppendAnswer(j, a, reply, round));
  }

  lemma AcceptedStep(r: Rules, s: Cluster, j: nat, a: AppendArgs)
    requires Inv(s) && r.commitToLastNew && j < |s.nodes| && AppendOk(|s.nodes|, s.elections, s.commits, j, a)
    requires s.nodes[j].term == a.term && Refusal(s.nodes[j], a).None?
    ensures a.prev < |s.nodes[j].log|
    ensures var n' := Accept(r, s.nodes[j], a);
            && Inv(Put(s, j, n')) && n'.saved.term == a.term
            && Agree(n'.log, s.elections[a.term].log, a.prev + |a.entries|)
  {
    AcceptNode(r, s, j, a);
    MergedStep(s, j, Accept(r, s.nodes[j], a), a.term, a.prev + |a.entries|);
  }

  lemma MergedStep(s: Cluster, j: nat, n': Node, T: nat, last: int)
    requires Inv(s) && j < |s.nodes| && Merged(s, j, n', T, last)
    ensures Inv(Put(s, j, n')) && n'.saved.term == T && Agree(n'.log, s.elections[T].log, last)
  {
    assert NodeOk(j, s.nodes[j], s.msgs, s.elections, s.commits);
    AcceptPut(s, j, n', T, last);
  }

  lemma AcceptPut(s: Cluster, j: nat, n': Node, T: nat, last: int)
    requires Inv(s) && j < |s.nodes| && T in s.elections && n'.saved.term == T >= s.nodes[j].saved.term
    requires NodeOk(j, n', s.msgs, s.elections, s.commits) && QuietVote(s.nodes[j], n') && n'.term == T
    requires Follows(s.nodes[j].log, n'.log, s.elections[T].log, last)
    ensures Inv(Put(s, j, n'))
  {
    AcceptAcks(s, j, n', T, last);
    var nodes := s.nodes[j := n'];
    forall k | 0 <= k < |nodes| ensures NodeOk(k, nodes[k], s.msgs, s.elections, s.commits) {
      assert NodeOk(k, s.nodes[k], s.msgs, s.elections, s.commits);
    }
    forall m | m in s.msgs && m.AppendAnswer? && m.reply.success ensures AnswerOk(nodes, s.msgs, m) {
      assert AnswerOk(s.nodes, s.msgs, m);
    }
    QuietVotes(s, j, n');
    QuietReads(s, Put(s, j, n'));
  }

  /** An acknowledgement of term T goes out when the log holds all that was sent. */
  lemma AddAck(s: Cluster, m: Msg)
    requires Inv(s) && m.AppendAnswer? && m.reply.success && AppendRequest(m.from, m.args, m.round) in s.msgs
    requires m.from < |s.nodes| && s.nodes[m.from].saved.term == m.args.term && m.args.term in s.elections
    requires m.args.prev >= 0
    requires Agree(s.nodes[m.from].log, s.elections[m.args.term].log, m.args.prev + |m.args.entries|)
    ensures Inv(Send(s, m))
  {
    AddAckLogs(s, m);
    SendVotes(s, m);
    AddAckReads(s, m);
  }

  lemma AddAckReads(s: Cluster, m: Msg)
    requires Inv(s) && m.AppendAnswer? && AppendRequest(m.from, m.args, m.round) in s.msgs
    requires m.from < |s.nodes| && s.nodes[m.from].saved.term == m.args.term
    ensures ReadsOk(Send(s, m))
  {
    assert RoundOk(s, AppendRequest(m.from, m.args, m.round));
    if m.round > 0 {
      var x := s.samples[m.round];
      assert SampleOk(s, s.samples[m.round]);
      forall t | t in x.elections && m.from in x.elections[t].voters ensures t <= m.args.term {
        VoterSaved(s, t, m.from);
      }
    }
    SendReads(s, m);
  }

  lemma NewAcks(s: Cluster, m: Msg, p: nat, t: nat, i: nat)
    requires Acked(s.msgs + {m}, s.elections, p, t, i) && m.AppendAnswer?
    ensures Acked(s.msgs, s.elections, p, t, i)
            || (p == m.from && t == m.args.term && i <= m.args.prev + |m.args.entries|)
  {
  }

  lemma AddAckLogs(s: Cluster, m: Msg)
    requires Inv(s) && m.AppendAnswer? && m.reply.success && AppendRequest(m.from, m.args, m.round) in s.msgs
    requires m.from < |s.nodes| && s.nodes[m.from].saved.term == m.args.term && m.args.term in s.elections
    requires m.args.prev >= 0
    requires Agree(s.nodes[m.from].log, s.elections[m.args.term].log, m.args.prev + |m.args.entries|)
    ensures LogsOk(Send(s, m))
  {
    var E, msgs := s.elections, s.msgs + {m};
    ElectionsHearMore(|s.nodes|, s.msgs, msgs, E);
    NodesHearMore(s.nodes, s.msgs, msgs, E, s.commits);
    CommitsHearMore(|s.nodes|, s.msgs, msgs, E, s.commits);
    AnswersHearMore(s.nodes, s.msgs, msgs);
    AddAckKeeps(s, m);
    forall p: nat, t: nat, i: nat | Acked(msgs, E, p, t, i) ensures AckOk(s.nodes, E, p, t, i) {
      NewAcks(s, m, p, t, i);
      if Acked(s.msgs, E, p, t, i) {
        assert AckOk(s.nodes, E, p, t, i);
      } else {
        AgreeDown(s.nodes[p].log, E[t].log, m.args.prev + |m.args.entries|, i);
      }
    }
    assert AppendsOk(|s.nodes|, msgs, E, s.commits);
    assert SnapsOk(msgs, E, s.commits);
  }

  lemma AddAckKeeps(s: Cluster, m: Msg)
    requires Inv(s) && m.AppendAnswer? && m.from < |s.nodes| && s.nodes[m.from].saved.term == m.args.term
    ensures BallotsKeep(s.msgs + {m}, s.elections) && VotersKeep(s.msgs + {m}, s.elections)
  {
    var E, msgs := s.elections, s.msgs + {m};
    forall b | b in msgs && IsBallot(b) ensures Keeps(msgs, E, b.from, b.seen, b.vote.term, b.vote.term) {
      assert Keeps(s.msgs, E, b.from, b.seen, b.vote.term, b.vote.term);
      assert BallotOk(s.nodes, s.msgs, E, b);
      forall t: nat, i: nat | Acked(msgs, E, b.from, t, i) && t < b.vote.term ensures Acked(s.msgs, E, b.from, t, i) {
        NewAcks(s, m, b.from, t, i);
      }
    }
    forall u: nat, p | u in E && p in E[u].voters ensures Keeps(msgs, E, p, E[u].voters[p], u, u - 1) {
      assert Keeps(s.msgs, E, p, E[u].voters[p], u, u - 1);
      VoterSaved(s, u, p);
      forall t: nat, i: nat | Acked(msgs, E, p, t, i) && t < u ensures Acked(s.msgs, E, p, t, i) {
        NewAcks(s, m, p, t, i);
      }
    }
  }

  lemma AppendStep(r: Rules, s: Cluster, m: Msg)
    requires Inv(s) && r.commitToLastNew && m in s.msgs && m.AppendRequest? && m.to < |s.nodes|
    ensures Inv(ApplyAppend(r, s, m))
  {
    var j, a, n := m.to, m.args, s.nodes[m.to];
    assert RoundOk(s, m);
    if a.term < n.term {
      assert s.nodes[j := n] == s.nodes;
      SendNoise(s, AppendAnswer(j, a, AppendReply(n.term, false, 0, 0, 0), m.round));
    } else {
      CatchUpStep(s, j, a.term);
      var s1, n1 := Put(s, j, CatchUp(n, a.term)), CatchUp(n, a.term);
      var refusal := Refusal(n1, a);
      if refusal.Some? {
        SendNoise(s1, AppendAnswer(j, a, refusal.value, m.round));
      } else {
        AcceptStep(r, s1, j, a, m.round, AppendReply(n1.term, true, 0, n1.snap, 0));
        assert s.nodes[j := Accept(r, n1, a)] == s1.nodes[j := Accept(r, n1, a)];
      }
    }
  }

  // ---- a leader commits ----

  lemma MoreCommits(s: Cluster, k: (nat, nat), q: set<nat>)
    requires Inv(s) && CommitOk(|s.nodes|, s.msgs, s.elections, k, q)
    requires forall j :: 0 <= j < |s.nodes| && s.nodes[j].role.Leader? && s.nodes[j].term == k.0 ==>
               k.1 <= s.nodes[j].commit
    ensures Inv(s.(commits := s.commits[k := q]))
  {
    var s', E, C, D := s.(commits := s.commits[k := q]), s.elections, s.commits, s.commits[k := q];
    forall l | l in D ensures CommitOk(|s.nodes|, s.msgs, E, l, D[l]) {
      assert l != k ==> CommitOk(|s.nodes|, s.msgs, E, l, C[l]);
    }
    forall m | m in s.msgs && m.AppendRequest? ensures AppendOk(|s.nodes|, E, D, m.to, m.args) {
      assert AppendOk(|s.nodes|, E, C, m.to, m.args);
      CommittedGrow(E, E, C, D, E[m.args.term].log, m.args.leaderCommit, m.args.term, m.args.term);
    }
    forall m | m in s.msgs && m.SnapRequest? ensures SnapOk(E, D, m.snap) {
      assert SnapOk(E, C, m.snap);
      CommittedGrow(E, E, C, D, E[m.snap.term].log, m.snap.index, m.snap.term, m.snap.term);
    }
    forall j | 0 <= j < |s.nodes| ensures NodeOk(j, s.nodes[j], s.msgs, E, D) {
      var n := s.nodes[j];
      assert NodeOk(j, n, s.msgs, E, C);
      CommittedGrow(E, E, C, D, n.log, n.commit, n.term, n.term);
      CommittedGrow(E, E, C, D, n.log, n.saved.commit, n.saved.term, n.saved.term);
    }
    assert VotesOk(s') by {
      forall b | b in s.passed ensures PassedOk(s', b) {
        assert PassedOk(s, b);
      }
    }
    QuietReads(s, s');
  }

  lemma MatchAfterAnswer(msgs: set<Msg>, n: Node, n': Node, m: Msg)
    requires m in msgs && m.AppendAnswer? && m.reply.success && m.args.term == n.term && MatchOk(msgs, n)
    requires n'.commit >= n.commit && n'.term == n.term
    requires n'.matchIndex == n.matchIndex[m.from := Max(Get(n.matchIndex, m.from), m.args.prev + |m.args.entries|)]
    ensures MatchOk(msgs, n')
  {
    assert IsAck(m, m.from, n.term, m.args.prev + |m.args.entries|);
    assert AckSent(msgs, m.from, n.term, m.args.prev + |m.args.entries|);
  }

  /** The nodes counted for a commit have acknowledged the entry. */
  lemma HoldersAcked(s: Cluster, c: nat, matchIndex: map<nat, int>, i: nat)
    requires Inv(s) && |s.nodes| >= 3 && c < |s.nodes| && Leads(s.elections, c, s.nodes[c].term)
    requires i < |s.nodes[c].log| && i > s.nodes[c].commit
    requires MatchOk(s.msgs, s.nodes[c].(matchIndex := matchIndex))
    requires Committable(|s.nodes|, s.nodes[c], c, matchIndex, i)
    ensures CommitOk(|s.nodes|, s.msgs, s.elections, (s.nodes[c].term, i), Holders(|s.nodes|, c, matchIndex, i))
  {
    var n, q := s.nodes[c], Holders(|s.nodes|, c, matchIndex, i);
    LeaderFacts(s, c);
    forall p | p in q ensures Acked(s.msgs, s.elections, p, n.term, i) {
      if p != c {
        var m :| m in s.msgs && IsAck(m, p, n.term, matchIndex[p]);
        assert IsAck(m, p, n.term, i);
      }
    }
  }

  lemma AnswerFacts(s: Cluster, m: Msg)
    requires Inv(s) && m in s.msgs && m.AppendAnswer? && m.reply.success
    ensures m.from < |s.nodes| && m.from != m.args.leader && Leads(s.elections, m.args.leader, m.args.term)
  {
    assert AnswerOk(s.nodes, s.msgs, m);
    var q := AppendRequest(m.from, m.args, m.round);
    assert AppendOk(|s.nodes|, s.elections, s.commits, q.to, q.args);
  }

  lemma OtherLeaders(s: Cluster, c: nat)
    requires Inv(s) && c < |s.nodes| && Leads(s.elections, c, s.nodes[c].term)
    ensures forall j :: 0 <= j < |s.nodes| && s.nodes[j].role.Leader? && s.nodes[j].term == s.nodes[c].term ==> j == c
  {
    forall j | 0 <= j < |s.nodes| && s.nodes[j].role.Leader? && s.nodes[j].term == s.nodes[c].term ensures j == c {
      assert NodeOk(j, s.nodes[j], s.msgs, s.elections, s.commits);
    }
  }

  lemma AppendAnswerStep(s: Cluster, m: Msg)
    requires Inv(s) && m in s.msgs && m.AppendAnswer? && m.args.leader < |s.nodes|
    ensures Inv(ApplyAppendAnswer(s, m)) && Recorded(s.commits, ApplyAppendAnswer(s, m).commits)
  {
    var c := m.args.leader;
    var n := s.nodes[c];
    var n' := HandleAppendReply(|s.nodes|, n, c, m.from, m.args, m.reply);
    assert NodeOk(c, n, s.msgs, s.elections, s.commits);
    if m.args.term != n.term {
      assert s.nodes[c := n] == s.nodes;
    } else if m.reply.success {
      SuccessStep(s, m);
    } else if m.reply.term > n.term {
      CatchUpStep(s, c, m.reply.term);
    } else {
      QuietStep(s, c, n');
    }
  }

  /** What a leader knows after a success: the new match index stands for an answer, and the
      commit index only moves to an index that passes the count. */
  lemma SuccessFacts(s: Cluster, m: Msg, n': Node)
    requires Inv(s) && m in s.msgs && m.AppendAnswer? && m.args.leader < |s.nodes|
    requires m.reply.success && m.args.term == s.nodes[m.args.leader].term
    requires n' == HandleAppendReply(|s.nodes|, s.nodes[m.args.leader], m.args.leader, m.from, m.args, m.reply)
    ensures var n := s.nodes[m.args.leader];
            && n' == n.(matchIndex := n'.matchIndex, nextIndex := n'.nextIndex, commit := n'.commit)
            && n.commit <= n'.commit < |n.log| && n'.matchIndex.Keys <= n'.nextIndex.Keys && |s.nodes| >= 3
            && Leads(s.elections, m.args.leader, n.term) && MatchOk(s.msgs, n')
            && MatchOk(s.msgs, n.(matchIndex := n'.matchIndex))
            && (n.commit < n'.commit ==> Committable(|s.nodes|, n, m.args.leader, n'.matchIndex, n'.commit))
  {
    var c := m.args.leader;
    var n := s.nodes[c];
    assert NodeOk(c, n, s.msgs, s.elections, s.commits);
    AnswerFacts(s, m);
    LeaderFacts(s, c);
    CommitSearchOk(|s.nodes|, n, c, n'.matchIndex, LastIndex(n.log));
    MatchAfterAnswer(s.msgs, n, n.(matchIndex := n'.matchIndex), m);
    MatchAfterAnswer(s.msgs, n, n', m);
  }

  lemma SuccessStep(s: Cluster, m: Msg)
    requires Inv(s) && m in s.msgs && m.AppendAnswer? && m.args.leader < |s.nodes|
    requires m.reply.success && m.args.term == s.nodes[m.args.leader].term
    ensures Inv(ApplyAppendAnswer(s, m)) && Recorded(s.commits, ApplyAppendAnswer(s, m).commits)
  {
    var c := m.args.leader;
    var n := s.nodes[c];
    var n' := HandleAppendReply(|s.nodes|, n, c, m.from, m.args, m.reply);
    SuccessFacts(s, m, n');
    if n'.commit == n.commit {
      IndicesStep(s, c, n');
    } else {
      HoldersAcked(s, c, n'.matchIndex, n'.commit);
      CommitNewStep(s, c, n');
    }
  }

  lemma IndicesStep(s: Cluster, c: nat, n': Node)
    requires Inv(s) && c < |s.nodes| && MatchOk(s.msgs, n') && n'.matchIndex.Keys <= n'.nextIndex.Keys
    requires n' == s.nodes[c].(matchIndex := n'.matchIndex, nextIndex := n'.nextIndex)
    ensures Inv(Put(s, c, n'))
  {
    assert NodeOk(c, s.nodes[c], s.msgs, s.elections, s.commits);
    QuietStep(s, c, n');
  }

  /** The leader's new commit index and the record of it appear together: the record is added
      while the node does not count as a leader. */
  lemma CommitNewStep(s: Cluster, c: nat, n': Node)
    requires Inv(s) && c < |s.nodes| && Leads(s.elections, c, s.nodes[c].term)
    requires var n := s.nodes[c]; n' == n.(matchIndex := n'.matchIndex, nextIndex := n'.nextIndex, commit := n'.commit)
    requires s.nodes[c].commit < n'.commit < |n'.log| && n'.matchIndex.Keys <= n'.nextIndex.Keys
    requires MatchOk(s.msgs, n')
    requires CommitOk(|s.nodes|, s.msgs, s.elections, (n'.term, n'.commit),
                      Holders(|s.nodes|, c, n'.matchIndex, n'.commit))
    ensures Inv(Put(s, c, n').(
                  commits := s.commits[(n'.term, n'.commit) := Holders(|s.nodes|, c, n'.matchIndex, n'.commit)]))
  {
    var k, q := (n'.term, n'.commit), Holders(|s.nodes|, c, n'.matchIndex, n'.commit);
    var s1 := Aside(s, c).(commits := s.commits[k := q]);
    RecordAside(s, c, k, q);
    NodeAfterRecord(s, s1, c, n');
    QuietStep(s1, c, n');
    PutAside(s, s1, c, n', s.commits[k := q]);
  }

  lemma PutAside(s: Cluster, s1: Cluster, c: nat, n': Node, C: Commits)
    requires Sized(s) && c < |s.nodes| && s1 == Aside(s, c).(commits := C)
    ensures Put(s1, c, n') == Put(s, c, n').(commits := C)
  {
    assert s.nodes[c := n'] == s1.nodes[c := n'];
  }

  lemma RecordAside(s: Cluster, c: nat, k: (nat, nat), q: set<nat>)
    requires Inv(s) && c < |s.nodes| && Leads(s.elections, c, s.nodes[c].term) && k.0 == s.nodes[c].term
    requires CommitOk(|s.nodes|, s.msgs, s.elections, k, q)
    ensures Inv(Aside(s, c).(commits := s.commits[k := q]))
  {
    AsideStep(s, c);
    MoreCommits(Aside(s, c), k, q);
  }

  lemma NodeAfterRecord(s: Cluster, s1: Cluster, c: nat, n': Node)
    requires Inv(s) && c < |s.nodes| && Leads(s.elections, c, s.nodes[c].term)
    requires var n := s.nodes[c]; n' == n.(matchIndex := n'.matchIndex, nextIndex := n'.nextIndex, commit := n'.commit)
    requires s.nodes[c].commit < n'.commit < |n'.log| && n'.matchIndex.Keys <= n'.nextIndex.Keys
    requires MatchOk(s.msgs, n') && Inv(s1)
    requires s1 == Aside(s, c).(commits := s1.commits) && (n'.term, n'.commit) in s1.commits
    requires s1.commits == s.commits[(n'.term, n'.commit) := s1.commits[(n'.term, n'.commit)]]
    ensures NodeOk(c, n', s1.msgs, s1.elections, s1.commits)
  {
    assert NodeOk(c, s1.nodes[c], s1.msgs, s1.elections, s1.commits);
    LeaderFacts(s, c);
    if n'.role.Leader? {
      CommitsBelow(s, c, n'.commit);
    }
    CommitNewNode(s.elections, s1.commits, c, s1.nodes[c], n', s.msgs);
  }

  function Aside(s: Cluster, c: nat): Cluster
    requires Sized(s) && c < |s.nodes|
  {
    Put(s, c, s.nodes[c].(role := if s.nodes[c].role.Leader? then Follower else s.nodes[c].role))
  }

  lemma AsideStep(s: Cluster, c: nat)
    requires Inv(s) && c < |s.nodes| && Leads(s.elections, c, s.nodes[c].term)
    ensures Inv(Aside(s, c))
    ensures forall j :: 0 <= j < |s.nodes| && Aside(s, c).nodes[j].role.Leader? ==>
              Aside(s, c).nodes[j].term != s.nodes[c].term
  {
    assert NodeOk(c, s.nodes[c], s.msgs, s.elections, s.commits);
    QuietStep(s, c, Aside(s, c).nodes[c]);
    OtherLeaders(s, c);
  }

  lemma CommitsBelow(s: Cluster, c: nat, i: nat)
    requires Inv(s) && c < |s.nodes| && i >= s.nodes[c].commit && s.nodes[c].role.Leader?
    ensures forall k :: k in s.commits && k.0 == s.nodes[c].term ==> k.1 <= i
  {
    assert NodeOk(c, s.nodes[c], s.msgs, s.elections, s.commits);
  }

  lemma CommitNewNode(E: Elections, D: Commits, c: nat, n: Node, n': Node, msgs: set<Msg>)
    requires NodeOk(c, n, msgs, E, D) && Leads(E, c, n.term) && n'.log == n.log == E[n.term].log
    requires n'.term == n.term && n'.vote == n.vote && n'.saved == n.saved && n'.snap == n.snap
    requires n.commit < n'.commit < |n.log| && n'.matchIndex.Keys <= n'.nextIndex.Keys && MatchOk(msgs, n')
    requires (n'.term, n'.commit) in D
    requires n'.role.Leader? ==> forall k :: k in D && k.0 == n'.term ==> k.1 <= n'.commit
    ensures NodeOk(c, n', msgs, E, D)
  {
    var k := (n'.term, n'.commit);
    assert k in D && k.0 in E && Agree(n'.log, E[k.0].log, n'.commit);
  }
}
