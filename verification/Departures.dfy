/** Where the code departs from the protocol: runs that show what goes wrong, and the exact
    conditions under which the code does what the protocol asks. */
module Departures {
  import opened Basics
  import opened Quorums
  import opened RaftNode
  import opened Cluster
  import opened ClusterInvariant
  import opened ClusterSafety
  import opened Voting
  import opened Scenarios

  /** Over all runs, or only over those of the code. */
  ghost predicate Ranges(r: Rules, events: seq<Event>, coded: bool) {
    coded ==> CodeRun(r, events)
  }

  ghost predicate ElectionsSafe(r: Rules, coded: bool) {
    forall events, more, a, b, term :: Ranges(r, events + more, coded) ==>
      IsLeader(Run(r, events), a, term) && IsLeader(Run(r, events + more), b, term) ==> a == b
  }

  /** Two nodes that have both committed index i hold the same entry there. */
  predicate SameAt(x: Node, y: Node, i: nat) {
    i <= x.commit && i <= y.commit ==> i < |x.log| && i < |y.log| && x.log[i] == y.log[i]
  }

  ghost predicate CommitsSafe(r: Rules, coded: bool) {
    forall events, more, a: nat, b: nat, i: nat :: a < r.nodes && b < r.nodes && Ranges(r, events + more, coded) ==>
      SameAt(Run(r, events).nodes[a], Run(r, events + more).nodes[b], i)
  }

  // ---- clusters of even size ----

  /** Two nodes that lead one term, the second then or later. */
  lemma TwoLeaders(r: Rules, es: seq<Event>, es': seq<Event>, a: nat, b: nat, term: nat, coded: bool)
    requires Longer(r, es, es') && a != b && IsLeader(Run(r, es), a, term) && IsLeader(Run(r, es'), b, term)
    ensures !ElectionsSafe(r, coded)
  {
    assert es' == es + es'[|es|..] && Ranges(r, es + es'[|es|..], coded);
    assert IsLeader(Run(r, es), a, term) && IsLeader(Run(r, es + es'[|es|..]), b, term);
  }

  /** The upper half of an even cluster, as long as it has not been asked. */
  lemma UpperHalf(r: Rules, s: Cluster, h: nat)
    requires r.nodes == 2 * h >= 4 && Sized(s) && |s.nodes| == r.nodes
    requires forall j :: 0 < j < r.nodes && j !in Supporters(0, h - 1) ==> s.nodes[j] == NewNode()
    ensures CanWin(r, s, h, Supporters(h, h - 1)) && forall j :: h <= j < r.nodes ==> s.nodes[j] == NewNode()
  {
    forall j | h <= j < r.nodes ensures s.nodes[j] == NewNode() {
      assert j !in Supporters(0, h - 1);
    }
  }

  /** In a cluster of even size, from four nodes on, each half can elect a leader of its own. */
  lemma EvenSplits(r: Rules, coded: bool)
    requires r.nodes % 2 == 0 && r.nodes >= 4
    ensures !ElectionsSafe(r, coded)
  {
    var h := r.nodes / 2;
    var es := Campaign(r, [], 0, Supporters(0, h - 1));
    UpperHalf(r, Run(r, es), h);
    var es' := Campaign(r, es, h, Supporters(h, h - 1));
    TwoLeaders(r, es, es', 0, h, 1, coded);
  }

  /** In a cluster of two a candidate already has more votes than half its peers, so the code
      never reaches the point where it would become leader. */
  predicate NoLeader(n: Node) {
    !n.role.Leader? && (n.role.Candidate? ==> n.voteCount >= 1)
  }

  predicate NoLeaders(s: Cluster) {
    forall j :: 0 <= j < |s.nodes| ==> NoLeader(s.nodes[j])
  }

  lemma PairStep(r: Rules, s: Cluster, e: Event)
    requires Sized(s) && |s.nodes| == r.nodes <= 2 && NoLeaders(s)
    ensures NoLeaders(Apply(r, s, e))
  {
    if ElectionEvent(e) {
      PairVotes(r, s, e);
    } else if ReplicationEvent(e) {
      PairAppends(r, s, e);
    }
  }

  lemma PairVotes(r: Rules, s: Cluster, e: Event)
    requires Sized(s) && |s.nodes| == r.nodes <= 2 && NoLeaders(s) && ElectionEvent(e)
    ensures NoLeaders(Apply(r, s, e))
  {
  }

  lemma PairAppends(r: Rules, s: Cluster, e: Event)
    requires Sized(s) && |s.nodes| == r.nodes <= 2 && NoLeaders(s) && ReplicationEvent(e)
    ensures NoLeaders(Apply(r, s, e))
  {
  }

  lemma {:induction false} PairNeverLeads(r: Rules, events: seq<Event>)
    requires r.nodes <= 2
    ensures NoLeaders(Run(r, events))
    decreases |events|
  {
    if events != [] {
      PairNeverLeads(r, events[..|events| - 1]);
      PairStep(r, Run(r, events[..|events| - 1]), events[|events| - 1]);
    }
  }

  // ---- a vote counted after its term has passed ----

  predicate CanAsk(s: Cluster, c: nat, a: VoteArgs, p: nat) {
    && Sized(s) && c < |s.nodes| && a.candidate == c && p < |s.nodes| && p != c
    && s.nodes[c].role.Candidate? && s.nodes[c].term == a.term && VoteRequest(a) in s.msgs
    && Call(c, a.term, p) in s.calls && s.nodes[p].term < a.term && UpToDate(a, s.nodes[p].log)
  }

  /** A node votes, and its vote passes the first check without being counted yet. */
  lemma PassOne(r: Rules, es: seq<Event>, c: nat, a: VoteArgs, p: nat) returns (es': seq<Event>)
    requires CanAsk(Run(r, es), c, a, p) && CodeRun(r, es)
    ensures var (s, s') := (Run(r, es), Run(r, es'));
            && Longer(r, es, es') && s'.nodes == s.nodes[p := Grant(StepDown(s.nodes[p], a.term), a)]
            && s'.passed == s.passed + {Ballot(Call(c, a.term, p), s.nodes[p].log)}
            && s'.calls == s.calls - {Call(c, a.term, p)} && s.msgs <= s'.msgs
  {
    var s := Run(r, es);
    var m := VoteAnswer(p, a, VoteReply(a.term, true), s.nodes[p].log);
    var e1 := Do(r, es, DeliverVote(p, a));
    var s1 := Run(r, e1);
    assert s1 == ApplyVote(s, p, a) && m in s1.msgs;
    assert s1.nodes == s.nodes[p := Grant(StepDown(s.nodes[p], a.term), a)];
    es' := Do(r, e1, DeliverVoteAnswer(m));
    assert Run(r, es') == ApplyVoteAnswer(s1, m);
    assert s1.nodes[c := s1.nodes[c]] == s1.nodes;
  }

  /** A node with nothing in its log that has never led. */
  predicate Blank(n: Node) { n.log == [Placeholder] && Untried(n) }

  function FirstBallot(p: nat): Ballot { Ballot(Call(0, 1, p), [Placeholder]) }

  predicate Balloted(n: Node) { n.term == 1 && n.role.Follower? && Blank(n) }

  /** Node 0 stands in term 1; the votes of nodes 1 to k have passed the check, and nodes after k
      have done nothing. */
  predicate Polled(r: Rules, s: Cluster, k: nat) {
    && Sized(s) && |s.nodes| == r.nodes && k < r.nodes
    && s.nodes[0].role.Candidate? && s.nodes[0].term == 1 && Blank(s.nodes[0])
    && VoteRequest(VoteArgs(1, 0, 0, 0)) in s.msgs
    && (forall p :: 1 <= p <= k ==> FirstBallot(p) in s.passed && Balloted(s.nodes[p]))
    && (forall p :: k < p < r.nodes ==> s.nodes[p] == NewNode() && Call(0, 1, p) in s.calls)
  }

  lemma {:induction false} PollUpTo(r: Rules, k: nat) returns (es: seq<Event>)
    requires k < r.nodes
    ensures Polled(r, Run(r, es), k) && CodeRun(r, es)
    decreases k
  {
    if k == 0 {
      es := Do(r, [], Timeout(0));
      assert Run(r, es) == ApplyTimeout(Initial(r.nodes), 0);
      forall p | 0 < p < r.nodes ensures Call(0, 1, p) in Run(r, es).calls {
        assert p in All(r.nodes);
      }
    } else {
      var e1 := PollUpTo(r, k - 1);
      es := PassOne(r, e1, 0, VoteArgs(1, 0, 0, 0), k);
    }
  }

  /** Node 0 stands in term 2 and has counted k of the votes of term 1; they are enough when
      there are half of the others. */
  predicate Recount(r: Rules, s: Cluster, k: nat) {
    && Sized(s) && |s.nodes| == r.nodes && 2 * k < r.nodes
    && s.nodes[0].term == 2 && s.nodes[0].voteCount == k + 1 && Blank(s.nodes[0])
    && s.nodes[0].role == (if k == (r.nodes - 1) / 2 then Leader else Candidate)
    && (forall p :: k < p <= (r.nodes - 1) / 2 ==> FirstBallot(p) in s.passed)
    && (forall p :: 1 <= p <= (r.nodes - 1) / 2 ==> Balloted(s.nodes[p]))
    && (forall p :: (r.nodes - 1) / 2 < p < r.nodes ==> s.nodes[p] == NewNode())
  }

  lemma RecountStep(r: Rules, s: Cluster, k: nat)
    requires r.nodes >= 3 && r.nodes % 2 == 1 && !r.recheckVote && 2 * (k + 1) < r.nodes && Recount(r, s, k)
    ensures Recount(r, ApplyCount(r, s, FirstBallot(k + 1), false), k + 1)
  {
    var n := s.nodes[0];
    var s' := ApplyCount(r, s, FirstBallot(k + 1), false);
    assert Fill(n.nextIndex.Keys, |n.log|) == map[] && Fill(n.nextIndex.Keys, n.snap) == map[];
    forall p | k + 1 < p <= (r.nodes - 1) / 2 ensures FirstBallot(p) in s'.passed {
      assert FirstBallot(p) != FirstBallot(k + 1);
    }
  }

  lemma RecountStarts(r: Rules, s: Cluster)
    requires r.nodes >= 3 && r.nodes % 2 == 1 && Polled(r, s, (r.nodes - 1) / 2)
    ensures Recount(r, ApplyTimeout(s, 0), 0)
  {
  }

  lemma RecountNext(r: Rules, es: seq<Event>, k: nat) returns (es': seq<Event>)
    requires r.nodes >= 3 && r.nodes % 2 == 1 && !r.recheckVote && 2 * (k + 1) < r.nodes && Recount(r, Run(r, es), k)
    requires CodeRun(r, es)
    ensures Recount(r, Run(r, es'), k + 1) && Longer(r, es, es')
  {
    var b := FirstBallot(k + 1);
    assert b in Run(r, es).passed;
    es' := Do(r, es, Count(b, false));
    assert Run(r, es') == ApplyCount(r, Run(r, es), b, false);
    RecountStep(r, Run(r, es), k);
  }

  lemma {:induction false} RecountUpTo(r: Rules, k: nat) returns (es: seq<Event>)
    requires r.nodes >= 3 && r.nodes % 2 == 1 && !r.recheckVote && 2 * k < r.nodes
    ensures Recount(r, Run(r, es), k) && CodeRun(r, es)
    decreases k
  {
    if k == 0 {
      var e1 := PollUpTo(r, (r.nodes - 1) / 2);
      es := Do(r, e1, Timeout(0));
      RecountStarts(r, Run(r, e1));
    } else {
      var e1 := RecountUpTo(r, k - 1);
      es := RecountNext(r, e1, k - 1);
    }
  }

  /** The other half can elect node 1. */
  lemma RecountOpen(r: Rules, s: Cluster, h: nat)
    requires r.nodes == 2 * h + 1 >= 3 && Recount(r, s, h)
    ensures CanWin(r, s, 1, Supporters(h, h)) && Balloted(s.nodes[1])
    ensures Unasked(s, Supporters(h, h))
  {
    assert Balloted(s.nodes[1]);
  }

  /** Nodes that have done nothing yet. */
  predicate Unasked(s: Cluster, ps: seq<nat>) {
    forall i :: 0 <= i < |ps| ==> ps[i] < |s.nodes| && s.nodes[ps[i]] == NewNode()
  }

  lemma RecountRun(r: Rules) returns (es: seq<Event>)
    requires r.nodes >= 3 && r.nodes % 2 == 1 && !r.recheckVote
    ensures var h := (r.nodes - 1) / 2;
            && CodeRun(r, es) && IsLeader(Run(r, es), 0, 2) && CanWin(r, Run(r, es), 1, Supporters(h, h))
            && Blank(Run(r, es).nodes[0]) && Balloted(Run(r, es).nodes[1])
            && Unasked(Run(r, es), Supporters(h, h))
  {
    es := RecountUpTo(r, (r.nodes - 1) / 2);
    RecountOpen(r, Run(r, es), (r.nodes - 1) / 2);
  }

  /** Votes checked in term 1 and counted in term 2 make a leader that nobody elected, next to
      one that the other half elects. */
  lemma StaleVoteUnsafe(r: Rules, coded: bool)
    requires r.nodes >= 3 && r.nodes % 2 == 1 && !r.recheckVote
    ensures !ElectionsSafe(r, coded)
  {
    var h := (r.nodes - 1) / 2;
    var es := RecountRun(r);
    var es' := Campaign(r, es, 1, Supporters(h, h));
    TwoLeaders(r, es, es', 0, 1, 2, coded);
  }

  /** Election safety holds in all runs, and in all runs of the code, exactly when so few nodes take
      part that nobody is ever elected, or their number is odd and votes are rechecked when they are
      counted. */
  lemma ElectionSafetyExactly(r: Rules, coded: bool)
    ensures ElectionsSafe(r, coded) <==> r.nodes <= 2 || (r.nodes % 2 == 1 && r.recheckVote)
  {
    if r.nodes <= 2 {
      forall events, a, term ensures !IsLeader(Run(r, events), a, term) {
        PairNeverLeads(r, events);
      }
    } else if r.nodes % 2 == 0 {
      EvenSplits(r, coded);
    } else if r.recheckVote {
      forall events, more, a, b, term | IsLeader(Run(r, events), a, term) && IsLeader(Run(r, events + more), b, term)
        ensures a == b
      {
        ElectionSafety(r, events, more, a, b, term);
      }
    } else {
      StaleVoteUnsafe(r, coded);
    }
  }

  /** Counting a vote without the recheck does what counting with it does exactly when the node
      is still a candidate of the vote's term, or has enough votes already. */
  lemma RecheckAgreesExactly(r: Rules, n: Node, term: nat, late: bool)
    requires r.recheckVote
    ensures CountVote(r.(recheckVote := false), n, term, late) == CountVote(r, n, term, late)
            <==> (n.role.Candidate? && n.term == term) || Enough(r.nodes, n.voteCount)
  {
    if !(n.role.Candidate? && n.term == term) && !Enough(r.nodes, n.voteCount) {
      assert CountVote(r.(recheckVote := false), n, term, late).voteCount == n.voteCount + 1;
    }
  }

  // ---- a follower that commits its own last entry ----

  /** The log holds an entry of the same term at the place of every one that was sent. */
  predicate Present(log: seq<Entry>, prev: nat, entries: seq<Entry>) {
    prev + |entries| < |log| && forall i :: 0 <= i < |entries| ==> log[prev + 1 + i].term == entries[i].term
  }

  lemma PresentMatches(log: seq<Entry>, prev: nat, entries: seq<Entry>)
    requires prev < |log|
    ensures Present(log, prev, entries) <==> Matching(log, prev, entries) == |entries|
  {
    var k := Matching(log, prev, entries);
    assert k < |entries| && prev + 1 + k < |log| ==> log[prev + 1 + k].term != entries[k].term;
  }

  /** A request that a follower refuses, that brings nothing new to commit, or whose sender's commit
      index is the last entry sent, with nothing after it in the follower's log. */
  predicate CommitGuard(n: Node, a: AppendArgs) {
    || a.term < n.term
    || var m := CatchUp(n, a.term);
       || Refusal(m, a).Some?
       || a.leaderCommit <= m.commit
       || (if m.role.Leader? || Present(m.log, a.prev, a.entries)
           then |m.log| - 1 <= a.leaderCommit <= a.prev + |a.entries|
           else a.leaderCommit == a.prev + |a.entries|)
  }

  /** The commit rule as written does what its comment says exactly under that condition. */
  lemma CommitRuleAgreesExactly(r: Rules, n: Node, a: AppendArgs)
    requires r.commitToLastNew && |n.log| > 0
    ensures HandleAppend(r.(commitToLastNew := false), n, a) == HandleAppend(r, n, a) <==> CommitGuard(n, a)
  {
    var m, w := CatchUp(n, a.term), r.(commitToLastNew := false);
    if a.term >= n.term && Refusal(m, a).None? {
      var x, y := Accept(w, m, a), Accept(r, m, a);
      assert x.log == y.log && x == y.(commit := x.commit) && |x.log| > 0;
      PresentMatches(m.log, a.prev, a.entries);
    }
  }

  predicate CountGuard(nodes: nat, n: Node, term: nat) {
    (n.role.Candidate? && n.term == term) || Enough(nodes, n.voteCount)
  }

  /** The two conditions, asked of the step that an event is about to take. */
  predicate Guarded(s: Cluster, e: Event) {
    match e
    case Count(b, _) =>
      b in s.passed && b.call.candidate < |s.nodes| ==> CountGuard(|s.nodes|, s.nodes[b.call.candidate], b.call.term)
    case DeliverAppend(m) =>
      m in s.msgs && m.AppendRequest? && m.to < |s.nodes| ==> CommitGuard(s.nodes[m.to], m.args)
    case _ => true
  }

  function AsWritten(nodes: nat): Rules { Rules(nodes, false, false) }

  ghost predicate GuardedRun(nodes: nat, events: seq<Event>)
    decreases |events|
  {
    events == [] ||
    (GuardedRun(nodes, events[..|events| - 1])
     && Guarded(Run(AsWritten(nodes), events[..|events| - 1]), events[|events| - 1]))
  }

  lemma GuardedStep(s: Cluster, e: Event)
    requires Sized(s) && Guarded(s, e) && forall j :: 0 <= j < |s.nodes| ==> |s.nodes[j].log| > 0
    ensures Apply(AsWritten(|s.nodes|), s, e) == Apply(Intended(|s.nodes|), s, e)
  {
    match e
    case Count(b, late) =>
      if b in s.passed && b.call.candidate < |s.nodes| {
        RecheckAgreesExactly(Intended(|s.nodes|), s.nodes[b.call.candidate], b.call.term, late);
        CountIgnoresCommit(|s.nodes|, s.nodes[b.call.candidate], b.call.term, late);
      }
    case DeliverAppend(m) =>
      if m in s.msgs && m.AppendRequest? && m.to < |s.nodes| {
        CommitRuleAgreesExactly(Intended(|s.nodes|), s.nodes[m.to], m.args);
        AppendIgnoresVotes(|s.nodes|, s.nodes[m.to], m.args);
      }
    case _ =>
  }

  lemma CountIgnoresCommit(nodes: nat, n: Node, term: nat, late: bool)
    ensures CountVote(AsWritten(nodes), n, term, late) == CountVote(Rules(nodes, false, true), n, term, late)
  {
  }

  lemma AppendIgnoresVotes(nodes: nat, n: Node, a: AppendArgs)
    ensures HandleAppend(AsWritten(nodes), n, a) == HandleAppend(Rules(nodes, true, false), n, a)
  {
  }

  lemma {:induction false} GuardedRunAgrees(nodes: nat, events: seq<Event>)
    requires nodes % 2 == 1 && GuardedRun(nodes, events)
    ensures Run(AsWritten(nodes), events) == Run(Intended(nodes), events)
    decreases |events|
  {
    if events != [] {
      var before := events[..|events| - 1];
      GuardedRunAgrees(nodes, before);
      LogsNonEmpty(nodes, before);
      GuardedStep(Run(Intended(nodes), before), events[|events| - 1]);
    }
  }

  lemma LogsNonEmpty(nodes: nat, events: seq<Event>)
    requires nodes % 2 == 1
    ensures forall j :: 0 <= j < nodes ==> |Run(Intended(nodes), events).nodes[j].log| > 0
  {
    var s := Run(Intended(nodes), events);
    RunInv(Intended(nodes), events);
    forall j | 0 <= j < nodes ensures |s.nodes[j].log| > 0 {
      assert NodeOk(j, s.nodes[j], s.msgs, s.elections, s.commits);
    }
  }

  lemma {:induction false} GuardedFront(nodes: nat, events: seq<Event>, more: seq<Event>)
    requires GuardedRun(nodes, events + more)
    ensures GuardedRun(nodes, events)
    decreases |more|
  {
    if more == [] {
      assert events + more == events;
    } else {
      assert (events + more)[..|events + more| - 1] == events + more[..|more| - 1];
      GuardedFront(nodes, events, more[..|more| - 1]);
    }
  }

  /** The code as it stands is safe, at any two moments, in every run in which its steps meet the
      two conditions. */
  lemma GuardedRunsSafe(nodes: nat, events: seq<Event>, more: seq<Event>, a: nat, b: nat, i: nat)
    requires nodes % 2 == 1 && GuardedRun(nodes, events + more) && a < nodes && b < nodes
    ensures SameAt(Run(AsWritten(nodes), events).nodes[a], Run(AsWritten(nodes), events + more).nodes[b], i)
  {
    GuardedFront(nodes, events, more);
    GuardedRunAgrees(nodes, events);
    GuardedRunAgrees(nodes, events + more);
    SafeAt(Intended(nodes), events, more, a, b, i);
  }

  // ---- what is committed ----

  function OneOp(v: string): Op { Op(1, 1, 1, "k", v) }

  /** Two nodes that have committed different entries, the second now or later. */
  lemma Diverge(r: Rules, es: seq<Event>, es': seq<Event>, a: nat, b: nat, coded: bool)
    requires Longer(r, es, es') && a < r.nodes && b < r.nodes
    requires var (x, y) := (Run(r, es).nodes[a], Run(r, es').nodes[b]);
             x.commit >= 1 && y.commit >= 1 && |x.log| > 1 && |y.log| > 1 && x.log[1] != y.log[1]
    ensures !CommitsSafe(r, coded)
  {
    assert es' == es + es'[|es|..] && Ranges(r, es + es'[|es|..], coded);
    assert !SameAt(Run(r, es).nodes[a], Run(r, es + es'[|es|..]).nodes[b], 1);
  }

  /** What the leader's first shared entry leaves behind. */
  lemma FirstShared(r: Rules, s: Cluster, s': Cluster, c: nat, ps: seq<nat>)
    requires CanShare(r, s, c, ps) && Shared(r, s, s', c, ps, |ps|)
    ensures s'.nodes[c].commit == LastIndex(s.nodes[c].log) && s'.nodes[c].log == s.nodes[c].log
    ensures s'.nodes[c].snap == s.nodes[c].snap && s'.nodes[c].role == s.nodes[c].role
    ensures forall j :: 0 <= j < r.nodes && j != c && j !in ps ==> s'.nodes[j] == s.nodes[j]
  {
    assert ps[..|ps|] == ps;
  }

  /** From four nodes on, the two leaders of an even cluster commit different entries. */
  lemma EvenCommits(r: Rules, coded: bool)
    requires r.nodes % 2 == 0 && r.nodes >= 4
    ensures !CommitsSafe(r, coded)
  {
    var h := r.nodes / 2;
    var e1 := CommitFirst(r, [], 0, Supporters(0, h - 1), OneOp("x"));
    UpperHalf(r, Run(r, e1), h);
    var e2 := CommitFirst(r, e1, h, Supporters(h, h - 1), OneOp("y"));
    Diverge(r, e1, e2, 0, h, coded);
  }

  /** A blank node wins with blank supporters and commits a command; nobody else notices. */
  lemma CommitFirst(r: Rules, es: seq<Event>, c: nat, ps: seq<nat>, op: Op) returns (es': seq<Event>)
    requires r.nodes >= 3 && CodeRun(r, es) && CanWin(r, Run(r, es), c, ps) && Blank(Run(r, es).nodes[c])
    requires Unasked(Run(r, es), ps)
    ensures var (s, s') := (Run(r, es), Run(r, es'));
            && Longer(r, es, es') && s'.nodes[c].commit == 1
            && s'.nodes[c].log == [Placeholder, Entry(s.nodes[c].term + 1, Some(op))]
            && forall j :: 0 <= j < r.nodes && j != c && j !in ps ==> s'.nodes[j] == s.nodes[j]
  {
    var e1;
    e1, es' := LeadAndShare(r, es, c, ps, op);
    FirstShared(r, Run(r, e1), Run(r, es'), c, ps);
  }

  /** Without the recheck, the leader nobody elected and the elected one commit different entries
      of one term, with the help of the same nodes. */
  lemma StaleVoteCommits(r: Rules, coded: bool)
    requires r.nodes >= 3 && r.nodes % 2 == 1 && !r.recheckVote
    ensures !CommitsSafe(r, coded)
  {
    var h := (r.nodes - 1) / 2;
    var qs := Supporters(h, h);
    var e2 := TwoReadyRun(r);
    var e3 := Share(r, e2, 0, qs);
    StillReady(r, Run(r, e2), Run(r, e3), qs);
    var e4 := Share(r, e3, 1, qs);
    FirstShared(r, Run(r, e2), Run(r, e3), 0, qs);
    FirstShared(r, Run(r, e3), Run(r, e4), 1, qs);
    Diverge(r, e3, e4, 0, 1, coded);
  }

  /** Nodes 0 and 1 both lead term 2, each with an entry of its own to share. */
  predicate TwoReady(r: Rules, s: Cluster, qs: seq<nat>) {
    && CanShare(r, s, 0, qs) && CanShare(r, s, 1, qs) && s.nodes[0].term == s.nodes[1].term == 2
    && s.nodes[0].log == [Placeholder, Entry(2, Some(OneOp("x")))]
    && s.nodes[1].log == [Placeholder, Entry(2, Some(OneOp("y")))]
  }

  lemma TwoReadyRun(r: Rules) returns (es: seq<Event>)
    requires r.nodes >= 3 && r.nodes % 2 == 1 && !r.recheckVote
    ensures CodeRun(r, es) && TwoReady(r, Run(r, es), Supporters((r.nodes - 1) / 2, (r.nodes - 1) / 2))
  {
    var h := (r.nodes - 1) / 2;
    var e0 := RecountRun(r);
    var e1;
    e1, es := BothStart(r, e0, Supporters(h, h));
    BothReady(r, Run(r, e0), Run(r, e1), Run(r, es), Supporters(h, h));
  }

  lemma BothStart(r: Rules, e0: seq<Event>, qs: seq<nat>) returns (e1: seq<Event>, es: seq<Event>)
    requires CodeRun(r, e0) && 1 < r.nodes && CanWin(r, Run(r, e0), 1, qs) && Untried(Run(r, e0).nodes[1])
    ensures Longer(r, e0, e1) && Longer(r, e1, es) && Led(Run(r, e0), Run(r, e1), 1, qs, OneOp("y"))
    ensures Run(r, es).nodes == Run(r, e1).nodes[0 := Submit(Run(r, e1).nodes[0], OneOp("x"))]
  {
    e1 := Lead(r, e0, 1, qs, OneOp("y"));
    es := Command(r, e1, 0, OneOp("x"));
  }

  lemma BothReady(r: Rules, s0: Cluster, s1: Cluster, s2: Cluster, qs: seq<nat>)
    requires r.nodes >= 3 && r.nodes % 2 == 1 && qs == Supporters((r.nodes - 1) / 2, (r.nodes - 1) / 2)
    requires |s0.nodes| == r.nodes && IsLeader(s0, 0, 2) && Blank(s0.nodes[0]) && Balloted(s0.nodes[1])
    requires Unasked(s0, qs) && Led(s0, s1, 1, qs, OneOp("y")) && Sized(s2)
    requires s2.nodes == s1.nodes[0 := Submit(s1.nodes[0], OneOp("x"))]
    ensures TwoReady(r, s2, qs)
  {
    assert 0 !in qs && s1.nodes[0] == s0.nodes[0];
    forall i | 0 <= i < |qs| ensures Takes(s2.nodes[qs[i]], 2) {
      assert Voter(s0.nodes[qs[i]], s1.nodes[qs[i]], 2);
    }
  }

  lemma StillReady(r: Rules, s2: Cluster, s3: Cluster, qs: seq<nat>)
    requires TwoReady(r, s2, qs) && Shared(r, s2, s3, 0, qs, |qs|)
    ensures CanShare(r, s3, 1, qs) && s3.nodes[1] == s2.nodes[1]
  {
    assert 1 !in qs[..|qs|];
    forall i | 0 <= i < |qs| ensures Takes(s3.nodes[qs[i]], 2) {
      assert Took(r, s2, s3, 0, qs[i]);
      TakenTakes(r, s2.nodes[qs[i]], WholeLog(s2.nodes[0], 0));
    }
  }

  lemma CommitsOwn(r: Rules, n: Node, a: AppendArgs)
    requires !r.commitToLastNew && |n.log| == 2 && n.commit == 0 && n.snap == 0 && n.term <= a.term
    requires a.prev == 0 && a.entries == [] && a.leaderCommit == 1
    ensures var m := HandleAppend(r, n, a).0;
            m.commit == 1 && m.log == n.log && m.snap == 0 && m.term == a.term
  {
  }

  /** Node 1 leads with the log of its allies and has committed an entry; node 0, which it does not
      know, has another in its place. */
  predicate Rivals(s: Cluster, qs: seq<nat>) {
    && Sized(s) && 3 <= |s.nodes| && AllPlain(s, s.nodes[1].term) && Opposed(s, qs)
    && s.nodes[0].commit == 0 && Get(s.nodes[1].nextIndex, 0) <= 0 && NextWithin(s.nodes[1])
  }

  predicate Opposed(s: Cluster, qs: seq<nat>)
    requires 3 <= |s.nodes|
  {
    && |s.nodes[0].log| == 2 && s.nodes[1].role.Leader? && s.nodes[1].commit == 1 && |s.nodes[1].log| == 2
    && s.nodes[0].log[1] != s.nodes[1].log[1]
    && (forall i :: 0 <= i < |qs| ==> 1 < qs[i] < |s.nodes| && Ally(s.nodes[qs[i]], s.nodes[1], qs[i]))
  }

  /** A follower the leader knows to have its log. */
  predicate Ally(n: Node, lead: Node, q: nat) {
    n.role.Follower? && n.term == lead.term && n.log == lead.log && Get(lead.nextIndex, q) > 0
  }

  predicate NextWithin(n: Node) {
    forall p :: p in n.nextIndex ==> n.nextIndex[p] <= |n.log|
  }

  lemma RivalsNow(r: Rules, s1: Cluster, s2: Cluster, s3: Cluster, h: nat)
    requires r.nodes >= 3 && h == (r.nodes - 1) / 2
    requires Led(Initial(r.nodes), s1, 0, Supporters(0, h), OneOp("x"))
    requires Led(s1, s2, 1, Supporters(h, h), OneOp("y")) && CanShare(r, s2, 1, Supporters(h, h))
    requires Shared(r, s2, s3, 1, Supporters(h, h), h)
    ensures Rivals(s3, Supporters(h, h))
  {
    var qs := Supporters(h, h);
    NextReady(r, s1, h);
    FirstShared(r, s2, s3, 1, qs);
    LedPlain(Initial(r.nodes), s1, 0, Supporters(0, h), OneOp("x"), 1);
    LedPlain(s1, s2, 1, qs, OneOp("y"), 1);
    SharedPlain(r, s2, s3, 1, qs, 2);
    assert 0 !in qs && qs[..|qs|] == qs;
    RivalsAllies(r, s1, s2, s3, qs);
  }

  lemma RivalsAllies(r: Rules, s1: Cluster, s2: Cluster, s3: Cluster, qs: seq<nat>)
    requires CanShare(r, s2, 1, qs) && Shared(r, s2, s3, 1, qs, |qs|) && Unasked(s1, qs)
    requires |s1.nodes| == r.nodes && Led(s1, s2, 1, qs, OneOp("y")) && s1.nodes[1].log == [Placeholder]
    ensures forall i :: 0 <= i < |qs| ==> Ally(s3.nodes[qs[i]], s3.nodes[1], qs[i])
  {
    assert qs[..|qs|] == qs;
    forall i | 0 <= i < |qs| ensures Ally(s3.nodes[qs[i]], s3.nodes[1], qs[i]) {
      assert qs[i] in qs && Voter(s1.nodes[qs[i]], s2.nodes[qs[i]], s1.nodes[1].term + 1);
      assert Took(r, s2, s3, 1, qs[i]);
      BlankTakes(r, s2.nodes[qs[i]], WholeLog(s2.nodes[1], 1));
      assert qs[i] in s3.nodes[1].nextIndex;
    }
  }

  lemma BlankTakes(r: Rules, n: Node, a: AppendArgs)
    requires Takes(n, a.term) && n.log == [Placeholder] && a.prev == 0
    ensures var m := HandleAppend(r, n, a).0;
            m.log == [Placeholder] + a.entries && m.term == a.term && m.role.Follower?
  {
  }

  /** Node 0 has heard of node 1's term, and nothing else has changed for the two. */
  predicate Acquainted(s: Cluster, s': Cluster, qs: seq<nat>) {
    && Sized(s') && |s'.nodes| == |s.nodes| && Rivals(s, qs) && Opposed(s', qs)
    && s'.nodes[0].log == s.nodes[0].log && s'.nodes[0].commit == s'.nodes[0].snap == 0
    && s'.nodes[0].term <= s'.nodes[1].term
    && s'.nodes[1] == s.nodes[1].(nextIndex := s'.nodes[1].nextIndex)
    && Get(s'.nodes[1].nextIndex, 0) == 1 && BeatsInLog(|s.nodes|, 1, s'.nodes[1])
  }

  lemma Acquaint(r: Rules, es: seq<Event>, qs: seq<nat>) returns (es': seq<Event>)
    requires CodeRun(r, es) && Rivals(Run(r, es), qs)
    ensures Longer(r, es, es') && Acquainted(Run(r, es), Run(r, es'), qs)
  {
    es' := MeetAll(r, es, 1);
    AcquaintedNow(r, Run(r, es), Run(r, es'), qs);
  }

  lemma AcquaintedNow(r: Rules, s: Cluster, s': Cluster, qs: seq<nat>)
    requires Rivals(s, qs) && |s.nodes| == r.nodes && Met(s, s', 1, r.nodes) && BeatsInLog(r.nodes, 1, s'.nodes[1])
    ensures Acquainted(s, s', qs)
  {
    assert Plain(s.nodes[0], s.nodes[1].term) && New(s.nodes[1], 1, r.nodes, 0);
    forall i | 0 <= i < |qs| ensures 1 < qs[i] < |s.nodes| && Ally(s'.nodes[qs[i]], s'.nodes[1], qs[i]) {
      assert Ally(s.nodes[qs[i]], s.nodes[1], qs[i]) && !New(s.nodes[1], 1, r.nodes, qs[i]);
    }
  }

  /** Node 0 has committed its own entry. */
  predicate Astray(s: Cluster, qs: seq<nat>) {
    && Sized(s) && 3 <= |s.nodes| && Opposed(s, qs)
    && s.nodes[0].commit == 1 && s.nodes[0].snap == 0 && s.nodes[0].term <= s.nodes[1].term
    && s.nodes[1].snap == 0 && Get(s.nodes[1].nextIndex, 0) == 1
  }

  /** The heartbeat of a read's round makes it do so. */
  lemma Overwritten(r: Rules, es: seq<Event>, qs: seq<nat>) returns (es': seq<Event>)
    requires !r.commitToLastNew && CodeRun(r, es) && Rivals(Run(r, es), qs)
    ensures Longer(r, es, es') && Astray(Run(r, es'), qs)
  {
    var e1 := Acquaint(r, es, qs);
    var e2, round := SampleToBeat(r, e1, Run(r, es), qs);
    es' := Beat(r, e2, 1, 0, round);
    AstrayNow(r, Run(r, es), Run(r, e2), Run(r, es'), qs);
  }

  lemma SampleToBeat(r: Rules, es: seq<Event>, s: Cluster, qs: seq<nat>) returns (es': seq<Event>, round: nat)
    requires CodeRun(r, es) && Acquainted(s, Run(r, es), qs)
    ensures Longer(r, es, es') && Acquainted(s, Run(r, es'), qs) && MayBeat(r, Run(r, es'), 1, 0, round)
  {
    es', round := SampleFor(r, es, 1);
    AcquaintedStays(s, Run(r, es), Run(r, es'), qs);
  }

  lemma AcquaintedStays(s: Cluster, s1: Cluster, s2: Cluster, qs: seq<nat>)
    requires Acquainted(s, s1, qs) && Sized(s2) && s2.nodes == s1.nodes
    ensures Acquainted(s, s2, qs)
  {
  }

  lemma AstrayNow(r: Rules, s: Cluster, s1: Cluster, s2: Cluster, qs: seq<nat>)
    requires !r.commitToLastNew && Acquainted(s, s1, qs) && Sized(s2)
    requires s2.nodes == s1.nodes[0 := HandleAppend(r, s1.nodes[0], Request(s1.nodes[1], 1, 0, false)).0]
    ensures Astray(s2, qs)
  {
    CommitsOwn(r, s1.nodes[0], Request(s1.nodes[1], 1, 0, false));
    assert Plain(s.nodes[1], s.nodes[1].term);
    forall i | 0 <= i < |qs| ensures 1 < qs[i] < |s2.nodes| && Ally(s2.nodes[qs[i]], s2.nodes[1], qs[i]) {
      assert Ally(s1.nodes[qs[i]], s1.nodes[1], qs[i]);
    }
  }

  lemma RivalRun(r: Rules) returns (es: seq<Event>)
    requires r.nodes >= 3
    ensures CodeRun(r, es) && Rivals(Run(r, es), Supporters((r.nodes - 1) / 2, (r.nodes - 1) / 2))
  {
    var h := (r.nodes - 1) / 2;
    var ps, qs := Supporters(0, h), Supporters(h, h);
    var e1 := Lead(r, [], 0, ps, OneOp("x"));
    NextReady(r, Run(r, e1), h);
    var e2;
    e2, es := LeadAndShare(r, e1, 1, qs, OneOp("y"));
    RivalsNow(r, Run(r, e1), Run(r, e2), Run(r, es), h);
  }

  lemma AstrayRun(r: Rules) returns (es: seq<Event>)
    requires r.nodes >= 3 && !r.commitToLastNew
    ensures CodeRun(r, es) && Astray(Run(r, es), Supporters((r.nodes - 1) / 2, (r.nodes - 1) / 2))
  {
    var h := (r.nodes - 1) / 2;
    var e1 := RivalRun(r);
    es := Overwritten(r, e1, Supporters(h, h));
  }

  /** A heartbeat that carries no entries makes a follower commit an entry of its own: the rule
      as written breaks state machine safety in every cluster that can elect a leader. */
  lemma CommitRuleUnsafe(r: Rules, coded: bool)
    requires r.nodes >= 3 && !r.commitToLastNew
    ensures !CommitsSafe(r, coded)
  {
    var es := AstrayRun(r);
    Diverge(r, es, es, 0, 1, coded);
  }

  lemma NextReady(r: Rules, s1: Cluster, h: nat)
    requires r.nodes >= 3 && h == (r.nodes - 1) / 2
    requires Led(Initial(r.nodes), s1, 0, Supporters(0, h), OneOp("x"))
    ensures CanWin(r, s1, 1, Supporters(h, h)) && Blank(s1.nodes[1]) && s1.nodes[1].term == 1
    ensures Unasked(s1, Supporters(h, h))
  {
    var ps, qs := Supporters(0, h), Supporters(h, h);
    assert ps[0] == 1 && Voter(NewNode(), s1.nodes[1], 1);
    forall i | 0 <= i < h ensures s1.nodes[qs[i]] == NewNode() {
      assert qs[i] !in ps;
    }
  }

  // ---- a cluster without a leader commits nothing ----

  predicate Silent(m: Msg) { m.VoteRequest? || m.VoteAnswer? }

  predicate Bare(n: Node) { n.log == [Placeholder] && n.commit == 0 && n.saved.commit == 0 }

  predicate Inert(s: Cluster) {
    && Sized(s) && NoLeaders(s)
    && (forall m :: m in s.msgs ==> Silent(m))
    && (forall j :: 0 <= j < |s.nodes| ==> Bare(s.nodes[j]))
  }

  lemma InertPut(s: Cluster, s': Cluster, j: nat, n: Node)
    requires Inert(s) && j < |s.nodes| && Sized(s') && s'.nodes == s.nodes[j := n] && NoLeaders(s') && Bare(n)
    requires forall m :: m in s'.msgs ==> m in s.msgs || Silent(m)
    ensures Inert(s')
  {
  }

  lemma InertVotes(r: Rules, s: Cluster, e: Event)
    requires Inert(s) && |s.nodes| == r.nodes <= 2 && ElectionEvent(e)
    ensures Inert(Apply(r, s, e))
  {
    PairVotes(r, s, e);
    var s', j := Apply(r, s, e), Actor(e);
    if s' != s {
      assert Bare(s.nodes[j]);
      InertPut(s, s', j, s'.nodes[j]);
    }
  }

  lemma InertRest(r: Rules, s: Cluster, e: Event)
    requires Inert(s) && |s.nodes| == r.nodes <= 2 && !ElectionEvent(e)
    ensures Inert(Apply(r, s, e))
  {
    PairStep(r, s, e);
  }

  lemma {:induction false} PairNeverCommits(r: Rules, events: seq<Event>)
    requires r.nodes <= 2
    ensures Inert(Run(r, events))
    decreases |events|
  {
    if events != [] {
      PairNeverCommits(r, events[..|events| - 1]);
      var s, e := Run(r, events[..|events| - 1]), events[|events| - 1];
      if ElectionEvent(e) { InertVotes(r, s, e); } else { InertRest(r, s, e); }
    }
  }

  /** No two nodes ever commit different entries at one index, in all runs and in all runs of the
      code, exactly when nobody is ever elected or the rules are sound. */
  lemma CommitsSafeExactly(r: Rules, coded: bool)
    ensures CommitsSafe(r, coded) <==> r.nodes <= 2 || Sound(r)
  {
    if r.nodes <= 2 {
      forall events, j: nat | j < r.nodes ensures Bare(Run(r, events).nodes[j]) {
        PairNeverCommits(r, events);
      }
    } else if Sound(r) {
      forall events, more, a: nat, b: nat, i: nat | a < r.nodes && b < r.nodes
        ensures SameAt(Run(r, events).nodes[a], Run(r, events + more).nodes[b], i)
      {
        SafeAt(r, events, more, a, b, i);
      }
    } else if r.nodes % 2 == 0 {
      EvenCommits(r, coded);
    } else if !r.recheckVote {
      StaleVoteCommits(r, coded);
    } else {
      CommitRuleUnsafe(r, coded);
    }
  }

  lemma SafeAt(r: Rules, events: seq<Event>, more: seq<Event>, a: nat, b: nat, i: nat)
    requires Sound(r) && a < r.nodes && b < r.nodes
    ensures SameAt(Run(r, events).nodes[a], Run(r, events + more).nodes[b], i)
  {
    var x, y := Run(r, events).nodes[a], Run(r, events + more).nodes[b];
    if i <= x.commit && i <= y.commit {
      StateMachineSafety(r, events, more, a, b, i);
      assert x.log[i] == x.log[..i + 1][i] && y.log[i] == y.log[..i + 1][i];
    }
  }
}
