/** Reads that miss what was committed before them. A new leader does not know how far its
    predecessors committed until it has committed an entry of its own term, and the code samples its
    commit index regardless. And since the commit index of a read and its heartbeats are taken in
    separate steps, a node that loses and regains leadership in between confirms a later term than
    it sampled. */
module StaleReads {
  import opened Basics
  import opened Quorums
  import opened RaftNode
  import opened Cluster
  import opened ClusterInvariant
  import opened ClusterSafety
  import opened Scenarios
  import opened Departures
  import opened ReadIndex

  /** Every read whose heartbeats are at most d terms after its sample is fresh: of all reads, or of
      those with a commit of the leader's own term; in all runs, or in those of the code. */
  ghost predicate FreshWithin(r: Rules, d: nat, own: bool, coded: bool) {
    forall x: Read, term: nat :: Ranged(r, x, term, d, own, coded) ==> Fresh(r, x)
  }

  ghost predicate Ranged(r: Rules, x: Read, term: nat, d: nat, own: bool, coded: bool) {
    && ServedIn(r, x, term) && term <= SampleTerm(r, x) + d
    && (own ==> Settled(r, x)) && Ranges(r, Whole(x), coded)
  }

  // ---- the heartbeats of a round ----

  /** Node n accepts a heartbeat of the leader at `prev`. */
  predicate Accepting(n: Node, lead: Node, prev: int) {
    && n.term <= lead.term && n.snap <= prev < |n.log| && prev < |lead.log|
    && (n.commit == prev || n.log[prev].term == lead.log[prev].term)
  }

  lemma BeatAccepted(r: Rules, n: Node, lead: Node, c: nat, prev: nat)
    requires Accepting(n, lead, prev)
    ensures HandleAppend(r, n, Request(lead, c, prev, false)).1.success
  {
  }

  predicate WillAccept(s: Cluster, c: nat, q: nat)
    requires c < |s.nodes| && q < |s.nodes|
  {
    Accepting(s.nodes[q], s.nodes[c], Get(s.nodes[c].nextIndex, q) - 1)
  }

  /** Leader c has sampled for the round, and the nodes in qs will confirm it. */
  ghost predicate CanConfirm(r: Rules, s: Cluster, c: nat, qs: seq<nat>, round: nat) {
    && Sized(s) && |s.nodes| == r.nodes && c < r.nodes && s.nodes[c].role.Leader?
    && BeatsInLog(r.nodes, c, s.nodes[c])
    && round > 0 && round in s.samples && s.samples[round].node == c
    && (forall i :: 0 <= i < |qs| ==> qs[i] < r.nodes && qs[i] != c && WillAccept(s, c, qs[i]))
    && (forall i, j :: 0 <= i < j < |qs| ==> qs[i] != qs[j])
  }

  /** The first k of them have answered. */
  ghost predicate Beaten(r: Rules, s: Cluster, s': Cluster, c: nat, qs: seq<nat>, round: nat, k: nat)
    requires c < r.nodes && |s.nodes| == r.nodes && k <= |qs|
    requires forall i :: 0 <= i < |qs| ==> qs[i] < r.nodes
  {
    && Sized(s') && |s'.nodes| == r.nodes && s'.samples == s.samples && s'.nodes[c] == s.nodes[c]
    && (forall i :: 0 <= i < k ==> Answered(s', round, qs[i], s.nodes[c].term))
    && (forall i :: k <= i < |qs| ==> s'.nodes[qs[i]] == s.nodes[qs[i]])
  }

  lemma {:induction false} BeatUpTo(r: Rules, es: seq<Event>, c: nat, qs: seq<nat>, round: nat, k: nat)
    returns (es': seq<Event>)
    requires CodeRun(r, es) && CanConfirm(r, Run(r, es), c, qs, round) && k <= |qs|
    ensures Longer(r, es, es') && Beaten(r, Run(r, es), Run(r, es'), c, qs, round, k)
    decreases k
  {
    if k == 0 {
      es' := es;
    } else {
      var e1 := BeatUpTo(r, es, c, qs, round, k - 1);
      es' := BeatNext(r, es, e1, c, qs, round, k - 1);
    }
  }

  lemma BeatNext(r: Rules, es: seq<Event>, e1: seq<Event>, c: nat, qs: seq<nat>, round: nat, k: nat)
    returns (es': seq<Event>)
    requires Longer(r, es, e1) && CanConfirm(r, Run(r, es), c, qs, round) && k < |qs|
    requires Beaten(r, Run(r, es), Run(r, e1), c, qs, round, k)
    ensures Longer(r, es, es') && Beaten(r, Run(r, es), Run(r, es'), c, qs, round, k + 1)
  {
    BeatReady(r, Run(r, es), Run(r, e1), c, qs, round, k);
    var a;
    es', a := BeatOne(r, e1, c, qs[k], round);
    BeatenNext(r, Run(r, es), Run(r, e1), Run(r, es'), c, qs, round, k, a);
  }

  ghost predicate CanBeat(r: Rules, s: Cluster, c: nat, q: nat, round: nat) {
    MayBeat(r, s, c, q, round) && WillAccept(s, c, q)
  }

  lemma BeatReady(r: Rules, s: Cluster, s1: Cluster, c: nat, qs: seq<nat>, round: nat, k: nat)
    requires CanConfirm(r, s, c, qs, round) && k < |qs| && Beaten(r, s, s1, c, qs, round, k)
    ensures CanBeat(r, s1, c, qs[k], round)
  {
    assert WillAccept(s, c, qs[k]);
  }

  lemma BeatOne(r: Rules, es: seq<Event>, c: nat, q: nat, round: nat) returns (es': seq<Event>, a: AppendArgs)
    requires CodeRun(r, es) && CanBeat(r, Run(r, es), c, q, round)
    ensures var (s, s') := (Run(r, es), Run(r, es'));
            && Longer(r, es, es') && s'.samples == s.samples && s.msgs <= s'.msgs && a.term == s.nodes[c].term
            && s'.nodes == s.nodes[q := HandleAppend(r, s.nodes[q], a).0] && HandleAppend(r, s.nodes[q], a).1.success
            && AppendAnswer(q, a, HandleAppend(r, s.nodes[q], a).1, round) in s'.msgs
  {
    es' := Beat(r, es, c, q, round);
    a := BeatArgs(r, Run(r, es), c, q);
  }

  lemma BeatArgs(r: Rules, s: Cluster, c: nat, q: nat) returns (a: AppendArgs)
    requires c < |s.nodes| && q < |s.nodes| && WillAccept(s, c, q) && Get(s.nodes[c].nextIndex, q) > 0
    ensures a == Request(s.nodes[c], c, Get(s.nodes[c].nextIndex, q) - 1, false)
    ensures HandleAppend(r, s.nodes[q], a).1.success
  {
    var prev := Get(s.nodes[c].nextIndex, q) - 1;
    a := Request(s.nodes[c], c, prev, false);
    BeatAccepted(r, s.nodes[q], s.nodes[c], c, prev);
  }

  lemma BeatenNext(r: Rules, s: Cluster, s1: Cluster, s2: Cluster, c: nat, qs: seq<nat>, round: nat, k: nat,
                   a: AppendArgs)
    requires CanConfirm(r, s, c, qs, round) && k < |qs| && Beaten(r, s, s1, c, qs, round, k) && Sized(s2)
    requires s2.samples == s1.samples && s1.msgs <= s2.msgs && a.term == s.nodes[c].term
    requires s2.nodes == s1.nodes[qs[k] := HandleAppend(r, s.nodes[qs[k]], a).0]
    requires HandleAppend(r, s.nodes[qs[k]], a).1.success
    requires AppendAnswer(qs[k], a, HandleAppend(r, s.nodes[qs[k]], a).1, round) in s2.msgs
    ensures Beaten(r, s, s2, c, qs, round, k + 1)
  {
    forall i | 0 <= i < k + 1 ensures Answered(s2, round, qs[i], s.nodes[c].term) {
      if i < k { StaysAnswered(s1, s2, round, qs[i], s.nodes[c].term); }
    }
  }

  lemma StaysAnswered(s: Cluster, s': Cluster, round: nat, p: nat, term: nat)
    requires Answered(s, round, p, term) && s.msgs <= s'.msgs
    ensures Answered(s', round, p, term)
  {
    var m :| m in s.msgs && m.AppendAnswer? && m.reply.success && m.round == round && m.from == p
             && m.args.term == term;
    assert m in s'.msgs;
  }

  function Confirmers(c: nat, qs: seq<nat>): set<nat> { Ids(qs) + {c} }

  /** The reader and the nodes that answered pass the counting rule. */
  lemma BeatenConfirms(r: Rules, s: Cluster, s': Cluster, c: nat, qs: seq<nat>, round: nat)
    requires CanConfirm(r, s, c, qs, round) && |qs| == (r.nodes - 1) / 2
    requires Beaten(r, s, s', c, qs, round, |qs|)
    ensures ConfirmedIn(s', round, Confirmers(c, qs), s.nodes[c].term)
  {
    var q := Confirmers(c, qs);
    IdsSize(qs);
    assert c !in Ids(qs);
    forall p | p in q && p != c ensures Answered(s', round, p, s.nodes[c].term) {
      var i :| 0 <= i < |qs| && qs[i] == p;
    }
  }

  /** Take the heartbeats of a round, and serve the read. */
  lemma Confirm(r: Rules, es: seq<Event>, more: seq<Event>, c: nat, qs: seq<nat>, round: nat, applied: nat,
                e1: seq<Event>)
    returns (x: Read)
    requires CodeRun(r, e1) && e1 == es + ([SampleRead(c, round)] + more)
    requires CanConfirm(r, Run(r, e1), c, qs, round) && |qs| == (r.nodes - 1) / 2
    requires Run(r, es).nodes[c].role.Leader? && round !in Run(r, es).samples
    requires Run(r, es).nodes[c].commit <= applied <= Run(r, e1).nodes[c].commit
    ensures x.events == es && x.node == c && x.applied == applied
    ensures ServedIn(r, x, Run(r, e1).nodes[c].term) && CodeRun(r, Whole(x))
  {
    var e2 := BeatUpTo(r, e1, c, qs, round, |qs|);
    x := Read(es, more + e2[|e1|..], c, round, Confirmers(c, qs), applied);
    Splice(es, [SampleRead(c, round)], more, e2);
    ServedNow(r, x, Run(r, e1), c, qs, round);
  }

  lemma Splice(es: seq<Event>, one: seq<Event>, more: seq<Event>, all: seq<Event>)
    requires es + (one + more) <= all
    ensures es + (one + (more + all[|es + (one + more)|..])) == all
  {
    var head := es + (one + more);
    assert all == head + all[|head|..];
  }

  lemma ServedNow(r: Rules, x: Read, s: Cluster, c: nat, qs: seq<nat>, round: nat)
    requires CanConfirm(r, s, c, qs, round) && |qs| == (r.nodes - 1) / 2 && x.node == c && x.round == round
    requires Beaten(r, s, After(r, x), c, qs, round, |qs|) && x.q == Confirmers(c, qs)
    requires Before(r, x).nodes[c].role.Leader? && round !in Before(r, x).samples
    requires Before(r, x).nodes[c].commit <= x.applied <= s.nodes[c].commit
    ensures ServedIn(r, x, s.nodes[c].term)
  {
    BeatenConfirms(r, s, After(r, x), c, qs, round);
  }

  // ---- one entry committed ----

  /** The nodes that vote for node 0 first, and the rest. */
  function Near(r: Rules): seq<nat>
    requires r.nodes >= 3
  {
    Supporters(0, (r.nodes - 1) / 2)
  }

  function Far(r: Rules): seq<nat>
    requires r.nodes >= 3
  {
    Supporters((r.nodes - 1) / 2, (r.nodes - 1) / 2)
  }

  predicate Holds(n: Node, log: seq<Entry>, term: nat) {
    n.log == log && n.term == term && n.commit == 0 && n.snap == 0 && n.role.Follower?
  }

  ghost predicate FarHold(r: Rules, s: Cluster, log: seq<Entry>, term: nat)
    requires r.nodes >= 3 && |s.nodes| == r.nodes
  {
    forall i :: 0 <= i < |Far(r)| ==> Holds(s.nodes[Far(r)[i]], log, term)
  }

  /** A blank node that has voted takes the whole log it is sent. */
  lemma TakesLog(r: Rules, n: Node, a: AppendArgs)
    requires Holds(n, [Placeholder], a.term) && a.prev == 0 && a.leaderCommit == 0
    ensures Holds(HandleAppend(r, n, a).0, [Placeholder] + a.entries, a.term)
    ensures SameIndices(n, HandleAppend(r, n, a).0)
  {
  }

  /** Node 0 leads term 1 and has committed x with the near nodes. */
  ghost predicate OneCommitted(r: Rules, s: Cluster, x: Entry) {
    && r.nodes >= 3 && Sized(s) && |s.nodes| == r.nodes && x.term == 1 && AllPlain(s, 1)
    && IsLeader(s, 0, 1) && s.nodes[0].log == [Placeholder, x] && s.nodes[0].commit == 1
    && Holds(s.nodes[1], [Placeholder, x], 1) && Untried(s.nodes[1])
    && Unasked(s, Far(r))
  }

  lemma ReachOne(r: Rules, op: Op) returns (es: seq<Event>)
    requires r.nodes >= 3
    ensures CodeRun(r, es) && OneCommitted(r, Run(r, es), Entry(1, Some(op)))
  {
    var e1;
    e1, es := LeadAndShare(r, [], 0, Near(r), op);
    OneCommittedNow(r, Run(r, e1), Run(r, es), op);
  }

  lemma OneCommittedNow(r: Rules, s1: Cluster, s2: Cluster, op: Op)
    requires r.nodes >= 3 && Led(Initial(r.nodes), s1, 0, Near(r), op) && CanShare(r, s1, 0, Near(r))
    requires Shared(r, s1, s2, 0, Near(r), |Near(r)|)
    ensures OneCommitted(r, s2, Entry(1, Some(op)))
  {
    var ps, x := Near(r), Entry(1, Some(op));
    LedPlain(Initial(r.nodes), s1, 0, ps, op, 1);
    SharedPlain(r, s1, s2, 0, ps, 1);
    assert ps[..|ps|] == ps && ps[0] == 1;
    assert s1.nodes[0].log == [Placeholder, x];
    assert Voter(NewNode(), s1.nodes[1], 1);
    var a := WholeLog(s1.nodes[0], 0);
    assert a.entries == [x];
    assert Took(r, s1, s2, 0, ps[0]);
    TakesLog(r, s1.nodes[1], a);
    forall i | 0 <= i < |Far(r)| ensures s2.nodes[Far(r)[i]] == NewNode() {
      assert Far(r)[i] !in ps;
    }
  }

  // ---- a leader that has committed nothing in its own term ----

  /** Node 1 has won term 2 from the far nodes and knows nothing of what node 0 committed. */
  ghost predicate Unsettled(r: Rules, s: Cluster) {
    && r.nodes >= 3 && Sized(s) && |s.nodes| == r.nodes && AllPlain(s, 2)
    && s.nodes[0].commit == 1
    && IsLeader(s, 1, 2) && s.nodes[1].commit == 0 && s.nodes[1].nextIndex == map[]
    && FarHold(r, s, [Placeholder], 2)
  }

  lemma ReachUnsettled(r: Rules) returns (es: seq<Event>)
    requires r.nodes >= 3
    ensures CodeRun(r, es) && Unsettled(r, Run(r, es))
  {
    var op := OneOp("x");
    var e1 := ReachOne(r, op);
    FarBehind(r, Run(r, e1), Entry(1, Some(op)));
    es := Campaign(r, e1, 1, Far(r));
    UnsettledNow(r, Run(r, e1), Run(r, es), Entry(1, Some(op)));
  }

  lemma FarBehind(r: Rules, s: Cluster, x: Entry)
    requires OneCommitted(r, s, x)
    ensures CanWin(r, s, 1, Far(r))
  {
  }

  lemma {:induction false} UndisturbedPlain(s: Cluster, s': Cluster, c: nat, ps: seq<nat>, term: nat)
    requires c < |s.nodes| && Undisturbed(s, s', c, ps) && AllPlain(s, term) && term <= s'.nodes[c].term
    ensures AllPlain(s', s'.nodes[c].term)
  {
    forall j | 0 <= j < |s'.nodes| ensures Plain(s'.nodes[j], s'.nodes[c].term) {
      assert Plain(s.nodes[j], term) && SameLog(s.nodes[j], s'.nodes[j]);
    }
  }

  lemma UnsettledNow(r: Rules, s: Cluster, s': Cluster, x: Entry)
    requires OneCommitted(r, s, x) && Undisturbed(s, s', 1, Far(r)) && IsLeader(s', 1, 2) && Sized(s')
    ensures Unsettled(r, s')
  {
    var qs := Far(r);
    UndisturbedPlain(s, s', 1, qs, 1);
    assert SameLog(s.nodes[0], s'.nodes[0]) && SameLog(s.nodes[1], s'.nodes[1]);
    forall i | 0 <= i < |qs| ensures Holds(s'.nodes[qs[i]], [Placeholder], 2) {
      assert qs[i] in qs && SameLog(s.nodes[qs[i]], s'.nodes[qs[i]]);
    }
  }

  /** After the leader has made itself known, its heartbeats will be accepted. */
  lemma UnsettledMeets(r: Rules, s: Cluster, s': Cluster, round: nat)
    requires Unsettled(r, s) && Met(s.(samples := s'.samples), s', 1, r.nodes)
    requires BeatsInLog(r.nodes, 1, s'.nodes[1]) && round > 0 && round in s'.samples && s'.samples[round].node == 1
    ensures CanConfirm(r, s', 1, Far(r), round) && s'.nodes[1].term == 2 && s'.nodes[1].commit == 0
    ensures s'.nodes[0].commit == 1
  {
    var qs := Far(r);
    forall i | 0 <= i < |qs|
      ensures WillAccept(s', 1, qs[i])
    {
      assert Holds(s.nodes[qs[i]], [Placeholder], 2) && New(s.nodes[1], 1, r.nodes, qs[i]);
      assert Plain(s.nodes[1], 2);
    }
  }

  /** With three nodes or more, the code serves a read, sampled and confirmed in one term, without an
      entry that was committed before the sample. */
  lemma StaleUnsettled(r: Rules) returns (x: Read)
    requires Sound(r) && r.nodes >= 3
    ensures ServedIn(r, x, 2) && SampleTerm(r, x) == 2 && CodeRun(r, Whole(x))
    ensures x.applied < Before(r, x).nodes[0].commit && !Fresh(r, x)
  {
    var e1 := ReachUnsettled(r);
    var es := MeetAll(r, e1, 1);
    var e2, round := SampleFor(r, es, 1);
    UnsettledMeets(r, Run(r, e1), Run(r, e2), round);
    assert e2 == es + ([SampleRead(1, round)] + []);
    x := Confirm(r, es, [], 1, Far(r), round, 0, e2);
    assert !Reflects(r, x, 0, 1);
  }

  // ---- a leader that comes back ----

  /** Node 1 has since won term 2 and committed y with the far nodes; node 0 has not noticed. */
  ghost predicate Overtaken(r: Rules, s: Cluster, x: Entry, y: Entry) {
    && r.nodes >= 3 && Sized(s) && |s.nodes| == r.nodes && x.term == 1 && y.term == 2 && AllPlain(s, 2)
    && IsLeader(s, 0, 1) && s.nodes[0].log == [Placeholder, x] && s.nodes[0].commit == 1
    && IsLeader(s, 1, 2) && s.nodes[1].log == [Placeholder, x, y] && s.nodes[1].commit == 2
    && Get(s.nodes[1].nextIndex, 0) <= 0 && FarHold(r, s, [Placeholder, x, y], 2)
  }

  lemma Overtake(r: Rules, es: seq<Event>, x: Entry, op: Op) returns (es': seq<Event>)
    requires CodeRun(r, es) && OneCommitted(r, Run(r, es), x)
    ensures Longer(r, es, es') && Overtaken(r, Run(r, es'), x, Entry(2, Some(op)))
  {
    FarBehind(r, Run(r, es), x);
    var e1;
    e1, es' := LeadAndShare(r, es, 1, Far(r), op);
    OvertakenNow(r, Run(r, es), Run(r, e1), Run(r, es'), x, op);
  }

  lemma OvertakenNow(r: Rules, s: Cluster, s1: Cluster, s2: Cluster, x: Entry, op: Op)
    requires OneCommitted(r, s, x) && Led(s, s1, 1, Far(r), op) && CanShare(r, s1, 1, Far(r))
    requires Shared(r, s1, s2, 1, Far(r), |Far(r)|)
    ensures Overtaken(r, s2, x, Entry(2, Some(op)))
  {
    var qs, y := Far(r), Entry(2, Some(op));
    LedPlain(s, s1, 1, qs, op, 1);
    SharedPlain(r, s1, s2, 1, qs, 2);
    assert qs[..|qs|] == qs && 0 !in qs && 1 !in qs;
    assert s1.nodes[1].log == [Placeholder, x, y];
    var a := WholeLog(s1.nodes[1], 1);
    assert a.entries == [x, y] && [Placeholder] + a.entries == [Placeholder, x, y];
    forall i | 0 <= i < |qs| ensures Holds(s2.nodes[qs[i]], [Placeholder, x, y], 2) {
      assert Voter(NewNode(), s1.nodes[qs[i]], 2) && Took(r, s1, s2, 1, qs[i]);
      TakesLog(r, s1.nodes[qs[i]], a);
    }
  }

  lemma CatchesUp(r: Rules, n: Node, a: AppendArgs, x: Entry, y: Entry)
    requires r.commitToLastNew && n.log == [Placeholder, x] && n.commit == 1 && n.snap == 0 && n.term == 2
    requires n.role.Follower?
    requires a.prev == 0 && a.prevTerm == Placeholder.term && a.term == 2 && a.leaderCommit == 2 && a.entries == [x, y]
    requires x.term == 1 && y.term == 2
    ensures Joined(HandleAppend(r, n, a).0, x, y)
  {
    assert Matching(n.log, 0, a.entries) == 1;
    assert n.log[..2] + a.entries[1..] == [Placeholder, x, y];
  }

  /** Node 0 once it has caught up with node 1. */
  predicate Joined(n: Node, x: Entry, y: Entry) {
    n.log == [Placeholder, x, y] && n.commit == 2 && n.snap == 0 && n.term == 2 && n.role.Follower?
  }

  lemma Join(r: Rules, es: seq<Event>, x: Entry, y: Entry) returns (es': seq<Event>)
    requires r.commitToLastNew && CodeRun(r, es) && Overtaken(r, Run(r, es), x, y)
    ensures var (s, s') := (Run(r, es), Run(r, es'));
            && Longer(r, es, es') && Joined(s'.nodes[0], x, y)
            && s'.nodes == s.nodes[0 := s'.nodes[0]][1 := Aware(s.nodes[1], 0)]
  {
    var s := Run(r, es);
    assert Plain(s.nodes[0], 2) && Plain(s.nodes[1], 2);
    var e1 := Greet(r, es, 1, 0);
    var n := Run(r, e1).nodes[0];
    assert n == Following(s.nodes[0], 2);
    var a := Request(Run(r, e1).nodes[1], 1, 0, true);
    assert a.entries == [x, y];
    es' := Replicate(r, e1, 1, 0);
    CatchesUp(r, n, a, x, y);
  }

  /** Node 0 has won term 3 from the far nodes. */
  ghost predicate Returned(r: Rules, s: Cluster, x: Entry, y: Entry) {
    && r.nodes >= 3 && Sized(s) && |s.nodes| == r.nodes && AllPlain(s, 3)
    && IsLeader(s, 0, 3) && s.nodes[0].commit == 2 && s.nodes[0].log == [Placeholder, x, y]
    && (forall p: nat {:trigger Get(s.nodes[0].nextIndex, p)} :: Get(s.nodes[0].nextIndex, p) <= 3)
    && FarHold(r, s, [Placeholder, x, y], 3)
  }

  lemma Return(r: Rules, es: seq<Event>, x: Entry, y: Entry) returns (es': seq<Event>)
    requires r.commitToLastNew && CodeRun(r, es) && Overtaken(r, Run(r, es), x, y)
    ensures Longer(r, es, es') && Returned(r, Run(r, es'), x, y)
  {
    var e1 := Join(r, es, x, y);
    CanReturn(r, Run(r, es), Run(r, e1), x, y);
    es' := Campaign(r, e1, 0, Far(r));
    ReturnedNow(r, Run(r, e1), Run(r, es'), x, y);
  }

  lemma CanReturn(r: Rules, s: Cluster, s1: Cluster, x: Entry, y: Entry)
    requires Overtaken(r, s, x, y) && Sized(s1) && |s1.nodes| == r.nodes && Joined(s1.nodes[0], x, y)
    requires s1.nodes == s.nodes[0 := s1.nodes[0]][1 := Aware(s.nodes[1], 0)]
    ensures CanWin(r, s1, 0, Far(r)) && FarHold(r, s1, [Placeholder, x, y], 2) && AllPlain(s1, 2)
  {
    var qs := Far(r);
    forall i | 0 <= i < |qs| ensures s1.nodes[qs[i]] == s.nodes[qs[i]] && Behind(s1.nodes[qs[i]], s1.nodes[0]) {
      assert Holds(s.nodes[qs[i]], [Placeholder, x, y], 2);
    }
    forall j | 0 <= j < |s1.nodes| ensures Plain(s1.nodes[j], 2) {
      assert Plain(s.nodes[j], 2);
    }
  }

  lemma ReturnedNow(r: Rules, s: Cluster, s': Cluster, x: Entry, y: Entry)
    requires r.nodes >= 3 && |s.nodes| == r.nodes && Undisturbed(s, s', 0, Far(r)) && IsLeader(s', 0, 3) && Sized(s')
    requires Joined(s.nodes[0], x, y) && FarHold(r, s, [Placeholder, x, y], 2) && AllPlain(s, 2)
    ensures Returned(r, s', x, y)
  {
    var qs := Far(r);
    UndisturbedPlain(s, s', 0, qs, 2);
    assert SameLog(s.nodes[0], s'.nodes[0]);
    forall i | 0 <= i < |qs| ensures Holds(s'.nodes[qs[i]], [Placeholder, x, y], 3) {
      assert qs[i] in qs && SameLog(s.nodes[qs[i]], s'.nodes[qs[i]]);
    }
  }

  /** Node 0 has made itself known, and its heartbeats will be accepted. */
  ghost predicate Known(r: Rules, s: Cluster) {
    && r.nodes >= 3 && Sized(s) && |s.nodes| == r.nodes && IsLeader(s, 0, 3) && s.nodes[0].commit == 2
    && BeatsInLog(r.nodes, 0, s.nodes[0])
    && (forall i :: 0 <= i < |Far(r)| ==> WillAccept(s, 0, Far(r)[i]))
  }

  lemma ReturnedMeets(r: Rules, s: Cluster, s': Cluster, x: Entry, y: Entry)
    requires Returned(r, s, x, y) && Met(s, s', 0, r.nodes) && BeatsInLog(r.nodes, 0, s'.nodes[0])
    ensures Known(r, s')
  {
    var qs := Far(r);
    forall i | 0 <= i < |qs| ensures WillAccept(s', 0, qs[i]) {
      assert Holds(s.nodes[qs[i]], [Placeholder, x, y], 3);
      assert s'.nodes[qs[i]].log == s'.nodes[0].log;
    }
  }

  lemma ReturnAndMeet(r: Rules, es: seq<Event>, x: Entry, y: Entry) returns (es': seq<Event>)
    requires r.commitToLastNew && CodeRun(r, es) && Overtaken(r, Run(r, es), x, y)
    ensures Longer(r, es, es') && Known(r, Run(r, es'))
  {
    var e1 := Return(r, es, x, y);
    es' := MeetAll(r, e1, 0);
    ReturnedMeets(r, Run(r, e1), Run(r, es'), x, y);
  }

  lemma OvertakenStays(r: Rules, s: Cluster, s': Cluster, x: Entry, y: Entry)
    requires Overtaken(r, s, x, y) && s'.nodes == s.nodes && Sized(s')
    ensures Overtaken(r, s', x, y)
  {
  }

  lemma KnownConfirms(r: Rules, s: Cluster, round: nat)
    requires Known(r, s) && round > 0 && round in s.samples && s.samples[round].node == 0
    ensures CanConfirm(r, s, 0, Far(r), round)
  {
  }

  /** From the state where node 0 is overtaken: the sample, the return and the introductions. */
  lemma SampleAndReturn(r: Rules, es: seq<Event>, x: Entry, y: Entry)
    returns (round: nat, more: seq<Event>, es': seq<Event>)
    requires Sound(r) && CodeRun(r, es) && Overtaken(r, Run(r, es), x, y)
    ensures round > 0 && round !in Run(r, es).samples
    ensures CodeRun(r, es') && es' == es + ([SampleRead(0, round)] + more)
    ensures Known(r, Run(r, es')) && round in Run(r, es').samples && Run(r, es').samples[round].node == 0
  {
    var e1;
    e1, round := SampleFor(r, es, 0);
    OvertakenStays(r, Run(r, es), Run(r, e1), x, y);
    es' := ReturnAndMeet(r, e1, x, y);
    more := es'[|e1|..];
    assert es + ([SampleRead(0, round)] + more) == es';
    SampleTaken(r, Read(es, more, 0, round, {}, 0));
  }

  /** With three nodes or more, a read sampled in term 1, after a commit in that term, and confirmed in
      term 3 is served without an entry that was committed before the sample. */
  lemma StaleAcrossTerms(r: Rules) returns (x: Read)
    requires Sound(r) && r.nodes >= 3
    ensures ServedIn(r, x, 3) && SampleTerm(r, x) == 1 && Settled(r, x) && CodeRun(r, Whole(x))
    ensures x.applied < Before(r, x).nodes[1].commit && !Fresh(r, x)
  {
    var p, q := OneOp("x"), OneOp("y");
    var e, f := Entry(1, Some(p)), Entry(2, Some(q));
    var e1 := ReachOne(r, p);
    var es := Overtake(r, e1, e, q);
    var round, more, e2 := SampleAndReturn(r, es, e, f);
    KnownConfirms(r, Run(r, e2), round);
    x := Confirm(r, es, more, 0, Far(r), round, 1, e2);
    assert !Reflects(r, x, 1, 2);
  }

  lemma NobodyReads(r: Rules, x: Read, term: nat)
    requires r.nodes == 1
    ensures !ServedIn(r, x, term)
  {
    PairNeverLeads(r, x.events);
  }

  /** Reads are fresh, in all runs and in all runs of the code, exactly when they are limited to
      leaders with a commit of their own term and heartbeats at most one term after the sample,
      except where nobody is ever elected. */
  lemma FreshExactly(r: Rules, d: nat, own: bool, coded: bool)
    requires Sound(r)
    ensures FreshWithin(r, d, own, coded) <==> r.nodes == 1 || (own && d <= 1)
  {
    if r.nodes == 1 {
      forall x: Read, term: nat ensures !ServedIn(r, x, term) {
        NobodyReads(r, x, term);
      }
    } else if !own {
      var x := StaleUnsettled(r);
      assert Ranged(r, x, 2, d, own, coded) && !Fresh(r, x);
    } else if d <= 1 {
      forall x: Read, term: nat | Ranged(r, x, term, d, own, coded) ensures Fresh(r, x) {
        ReadReflectsCommitted(r, x, term);
      }
    } else {
      var x := StaleAcrossTerms(r);
      assert Ranged(r, x, 3, d, own, coded) && !Fresh(r, x);
    }
  }
}
