/** Reads through the leader: the commit index is sampled, leadership is confirmed by a round of
    heartbeats, and the read is served once everything up to the sample has been applied. */
module ReadIndex {
  import opened Quorums
  import opened RaftNode
  import opened Cluster
  import opened ClusterInvariant
  import opened ClusterQuiet
  import opened ClusterLogs
  import opened ClusterSafety

  /** The heartbeats of the round that node p answered with success. */
  ghost predicate Answered(s: Cluster, round: nat, p: nat, term: nat) {
    exists m :: m in s.msgs && m.AppendAnswer? && m.reply.success && m.round == round && m.from == p
                && m.args.term == term
  }

  /** Leadership confirmed in `term`: the reader and the nodes that answered pass the counting
      rule. */
  ghost predicate ConfirmedIn(s: Cluster, round: nat, q: set<nat>, term: nat)
    requires round in s.samples
  {
    var c := s.samples[round].node;
    c in q && IsQuorum(|s.nodes|, q) && forall p :: p in q && p != c ==> Answered(s, round, p, term)
  }

  /** The leader had committed an entry of its own term when it sampled. */
  predicate OwnTermCommitted(x: Sample) {
    x.commit < |x.log| && x.log[x.commit].term == x.term
  }

  /** A node that answered a heartbeat of the round was led by the reader in the heartbeat's term,
      and had not voted in a later one that the sample knew of. */
  lemma AnswerTells(s: Cluster, round: nat, p: nat, term: nat, t: nat)
    requires Inv(s) && round in s.samples && round > 0 && Answered(s, round, p, term)
    requires t in s.samples[round].elections && p in s.samples[round].elections[t].voters
    ensures t <= term && Leads(s.elections, s.samples[round].node, term)
  {
    var m :| m in s.msgs && m.AppendAnswer? && m.reply.success && m.round == round && m.from == p
             && m.args.term == term;
    assert RoundOk(s, m) && AnswerOk(s.nodes, s.msgs, m);
    var q := AppendRequest(m.from, m.args, m.round);
    assert AppendOk(|s.nodes|, s.elections, s.commits, q.to, q.args);
  }

  /** Confirmed in the term of the sample or the one after it, no later term had a winner when
      the sample was taken: a winner of the next term would be the reader itself. */
  lemma NoLaterWinner(s: Cluster, round: nat, q: set<nat>, term: nat, t: nat)
    requires Inv(s) && round in s.samples && round > 0 && ConfirmedIn(s, round, q, term)
    requires term <= s.samples[round].term + 1 && t in s.samples[round].elections
    ensures t <= s.samples[round].term
  {
    var x := s.samples[round];
    assert SampleOk(s, s.samples[round]);
    assert ElectionOk(|s.nodes|, s.msgs, s.elections, t);
    var p := QuorumsMeet(|s.nodes|, q, s.elections[t].voters.Keys);
    if p != x.node {
      AnswerTells(s, round, p, term, t);
      assert t == term ==> x.node in x.elections[t].voters;
    }
  }

  /** Nothing beyond the sampled commit index was committed by anyone when it was sampled. */
  lemma SampleCoversCommits(s: Cluster, round: nat, q: set<nat>, term: nat, k: (nat, nat))
    requires Inv(s) && round in s.samples && round > 0 && ConfirmedIn(s, round, q, term)
    requires term <= s.samples[round].term + 1
    requires OwnTermCommitted(s.samples[round]) && k in s.samples[round].commits
    ensures k.1 <= s.samples[round].commit
  {
    var x, E := s.samples[round], s.elections;
    assert SampleOk(s, s.samples[round]);
    NoLaterWinner(s, round, q, term, k.0);
    if k.0 < x.term {
      LeaderCompleteness(|s.nodes|, s.msgs, E, s.commits, k, x.term);
      assert ElectionOk(|s.nodes|, s.msgs, E, x.term);
      var log := E[x.term].log;
      assert log[x.commit] == x.log[x.commit];
      assert log[k.1].term < log[x.commit].term;
    }
  }

  /** A read in a run: sampled at `node` after `events`, confirmed by the quorum `q` in the course
      of `more`, and then served from the entries up to `applied`. */
  datatype Read = Read(events: seq<Event>, more: seq<Event>, node: nat, round: nat, q: set<nat>, applied: nat)

  ghost function Before(r: Rules, x: Read): Cluster { Run(r, x.events) }

  function Whole(x: Read): seq<Event> { x.events + ([SampleRead(x.node, x.round)] + x.more) }

  ghost function After(r: Rules, x: Read): Cluster { Run(r, Whole(x)) }

  function SampleOf(s: Cluster, x: Read): Sample
    requires x.node < |s.nodes|
  {
    var n := s.nodes[x.node];
    Sample(x.node, n.term, n.commit, n.log, s.elections, s.commits)
  }

  /** The term in which the commit index was sampled. */
  ghost function SampleTerm(r: Rules, x: Read): nat
    requires x.node < r.nodes
  {
    Before(r, x).nodes[x.node].term
  }

  /** A read as the code serves it: sampled by a leader, confirmed by heartbeats of `term`, and
      served once what the sample covers has been applied. */
  ghost predicate ServedIn(r: Rules, x: Read, term: nat) {
    && x.node < r.nodes && x.round > 0
    && var (s0, s) := (Before(r, x), After(r, x));
    && s0.nodes[x.node].role.Leader? && x.round !in s0.samples
    && x.round in s.samples && ConfirmedIn(s, x.round, x.q, term)
    && s0.nodes[x.node].commit <= x.applied <= s.nodes[x.node].commit
  }

  /** The leader had committed an entry of its own term when it sampled, which the code does not
      look at. */
  ghost predicate Settled(r: Rules, x: Read)
    requires x.node < r.nodes
  {
    OwnTermCommitted(SampleOf(Before(r, x), x))
  }

  /** Entry i, committed by node j when the sample was taken, is among those the read is served
      from, and so is everything before it. */
  ghost predicate Reflects(r: Rules, x: Read, j: nat, i: nat)
    requires x.node < r.nodes && j < r.nodes
  {
    var (a, b) := (Before(r, x).nodes[j].log, After(r, x).nodes[x.node].log);
    i <= x.applied && i < |a| && i < |b| && a[..i + 1] == b[..i + 1]
  }

  ghost predicate Fresh(r: Rules, x: Read)
    requires x.node < r.nodes
  {
    forall j: nat, i: nat :: j < r.nodes && i <= Before(r, x).nodes[j].commit ==> Reflects(r, x, j, i)
  }

  lemma SampleTaken(r: Rules, x: Read)
    requires Sound(r) && x.node < r.nodes && x.round > 0
    requires Before(r, x).nodes[x.node].role.Leader? && x.round !in Before(r, x).samples
    ensures x.round in After(r, x).samples && After(r, x).samples[x.round] == SampleOf(Before(r, x), x)
  {
    var e := SampleRead(x.node, x.round);
    assert x.events + [e] + x.more == Whole(x);
    SampleNow(r, x);
    SampleStays(r, x.events + [e], x.more, x.round);
  }

  lemma SampleNow(r: Rules, x: Read)
    requires Sound(r) && x.node < r.nodes && x.round > 0
    requires Before(r, x).nodes[x.node].role.Leader? && x.round !in Before(r, x).samples
    ensures var s := Run(r, x.events + [SampleRead(x.node, x.round)]);
            x.round in s.samples && s.samples[x.round] == SampleOf(Before(r, x), x)
  {
    RunSnoc(r, x.events, SampleRead(x.node, x.round));
    SampleApplied(r, Before(r, x), x);
  }

  lemma SampleStays(r: Rules, events: seq<Event>, more: seq<Event>, round: nat)
    requires Sound(r) && round in Run(r, events).samples
    ensures round in Run(r, events + more).samples
    ensures Run(r, events + more).samples[round] == Run(r, events).samples[round]
  {
    RunKeeps(r, events, more);
  }

  lemma SampleApplied(r: Rules, s: Cluster, x: Read)
    requires Sized(s) && x.node < |s.nodes| && x.round > 0 && s.nodes[x.node].role.Leader? && x.round !in s.samples
    ensures Apply(r, s, SampleRead(x.node, x.round)).samples == s.samples[x.round := SampleOf(s, x)]
  {
  }

  /** Read freshness: a read by a leader with a commit of its own term, confirmed in the term of its
      sample or in the next, reflects every entry that any node had committed when the sample was
      taken. */
  lemma ReadReflectsCommitted(r: Rules, x: Read, term: nat)
    requires Sound(r) && ServedIn(r, x, term) && Settled(r, x) && term <= SampleTerm(r, x) + 1
    ensures Fresh(r, x)
  {
    forall j: nat, i: nat | j < r.nodes && i <= Before(r, x).nodes[j].commit ensures Reflects(r, x, j, i) {
      ReflectsOne(r, x, term, j, i);
    }
  }

  lemma ReflectsOne(r: Rules, x: Read, term: nat, j: nat, i: nat)
    requires Sound(r) && ServedIn(r, x, term) && Settled(r, x) && term <= SampleTerm(r, x) + 1
    requires j < r.nodes && i <= Before(r, x).nodes[j].commit
    ensures Reflects(r, x, j, i)
  {
    SampleTaken(r, x);
    RunInv(r, x.events);
    RunInv(r, Whole(x));
    CommitIsSampled(Before(r, x), After(r, x), x.round, x.q, term, j);
    StateMachineSafety(r, x.events, [SampleRead(x.node, x.round)] + x.more, j, x.node, i);
  }

  lemma CommitIsSampled(s0: Cluster, s: Cluster, round: nat, q: set<nat>, term: nat, j: nat)
    requires Inv(s0) && Inv(s) && j < |s0.nodes| && round in s.samples && round > 0
    requires ConfirmedIn(s, round, q, term) && term <= s.samples[round].term + 1
    requires OwnTermCommitted(s.samples[round]) && s.samples[round].commits == s0.commits
    ensures s0.nodes[j].commit <= s.samples[round].commit
  {
    var n := s0.nodes[j];
    assert NodeOk(j, n, s0.msgs, s0.elections, s0.commits);
    if n.commit > 0 {
      var k :| k in s0.commits && k.0 in s0.elections && k.0 <= n.term && n.commit <= k.1
               && Agree(n.log, s0.elections[k.0].log, n.commit);
      SampleCoversCommits(s, round, q, term, k);
    }
  }

  lemma AppliedInLog(r: Rules, x: Read, term: nat)
    requires Sound(r) && ServedIn(r, x, term)
    ensures x.applied < |After(r, x).nodes[x.node].log|
  {
    var s := After(r, x);
    RunInv(r, Whole(x));
    assert NodeOk(x.node, s.nodes[x.node], s.msgs, s.elections, s.commits);
  }
}
