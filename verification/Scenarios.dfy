/** Runs put together from pieces: a node campaigns, a leader takes commands and shares its log.
    The pieces work for any size of cluster and under any rules, and take only steps that the code
    takes. */
module Scenarios {
  import opened Basics
  import opened Quorums
  import opened RaftNode
  import opened Cluster

  // ---- steps of the code ----

  /** The next index of every peer lies in the log: the heartbeats of a read's round read the entry
      before it. */
  predicate BeatsInLog(nodes: nat, c: nat, n: Node) {
    forall p: nat :: p < nodes && p != c ==> n.snap < Get(n.nextIndex, p) <= |n.log|
  }

  /** A request starts at the peer's next index. Outside a read's round it carries all that follows,
      inside one nothing. */
  predicate SendsAsCoded(nodes: nat, c: nat, n: Node, to: nat, prev: nat, full: bool, round: nat) {
    && prev == Get(n.nextIndex, to) - 1
    && (if round == 0 then full else !full && BeatsInLog(nodes, c, n))
  }

  /** The answer to a snapshot leaves after the receiver's state has been saved, unless the receiver
      had no use for the snapshot. */
  predicate AnswersAsCoded(n: Node, m: Msg)
    requires m.SnapAnswer?
  {
    m.snap.index < n.commit || m.term <= n.saved.term
  }

  /** The state machine of the cluster takes any step that the safety theorems can bear. These are
      steps the code takes: leaders do not time out, requests start at the next index, a snapshot is
      sent only below the log, and the answers of a read's round are not handled as others are. */
  ghost predicate CodeStep(s: Cluster, e: Event) {
    match e
    case Timeout(c) => c < |s.nodes| ==> !s.nodes[c].role.Leader?
    case SendAppend(c, to, prev, full, round) =>
      CanSend(s, c, to) ==> SendsAsCoded(|s.nodes|, c, s.nodes[c], to, prev, full, round)
    case SendSnapshot(c, to) => CanSend(s, c, to) ==> Get(s.nodes[c].nextIndex, to) <= s.nodes[c].snap
    case DeliverAppendAnswer(m) => m.AppendAnswer? ==> m.round == 0
    case DeliverSnapshotAnswer(m) => m.SnapAnswer? && m.from < |s.nodes| ==> AnswersAsCoded(s.nodes[m.from], m)
    case Save(j) => exists m :: m in s.msgs && m.SnapAnswer? && m.from == j
    case _ => true
  }

  ghost predicate CodeStepAt(r: Rules, events: seq<Event>, k: nat)
    requires k < |events|
  {
    CodeStep(Run(r, events[..k]), events[k])
  }

  ghost predicate CodeRun(r: Rules, events: seq<Event>) {
    forall k: nat {:trigger CodeStepAt(r, events, k)} :: k < |events| ==> CodeStepAt(r, events, k)
  }

  /** A run of the code and one that goes on from it. */
  ghost predicate Longer(r: Rules, es: seq<Event>, es': seq<Event>) {
    es <= es' && CodeRun(r, es) && CodeRun(r, es')
  }

  lemma Do(r: Rules, es: seq<Event>, e: Event) returns (es': seq<Event>)
    requires CodeRun(r, es) && CodeStep(Run(r, es), e)
    ensures es' == es + [e] && Run(r, es') == Apply(r, Run(r, es), e) && Longer(r, es, es')
  {
    es' := es + [e];
    RunSnoc(r, es, e);
    forall k: nat | k < |es'| ensures CodeStepAt(r, es', k) {
      if k < |es| {
        assert CodeStepAt(r, es, k) && es'[..k] == es[..k];
      } else {
        assert es'[..k] == es;
      }
    }
  }

  // ---- winning an election ----

  /** Candidate c of term a.term can still win the votes of the nodes in ps, which are exactly
      as many as it needs. */
  predicate Standing(r: Rules, s: Cluster, c: nat, a: VoteArgs, ps: seq<nat>) {
    && Sized(s) && |s.nodes| == r.nodes && c < r.nodes && a.candidate == c
    && s.nodes[c].role.Candidate? && s.nodes[c].term == a.term
    && VoteRequest(a) in s.msgs
    && s.nodes[c].voteCount + |ps| == (r.nodes - 1) / 2 + 1
    && (forall i :: 0 <= i < |ps| ==> ps[i] < r.nodes && ps[i] != c && Call(c, a.term, ps[i]) in s.calls)
    && (forall i :: 0 <= i < |ps| ==> s.nodes[ps[i]].term < a.term && UpToDate(a, s.nodes[ps[i]].log))
    && (forall i, j :: 0 <= i < j < |ps| ==> ps[i] != ps[j])
  }

  predicate SameLog(n: Node, n': Node) {
    n'.log == n.log && n'.commit == n.commit && n'.snap == n.snap
  }

  predicate SameIndices(n: Node, n': Node) {
    n'.nextIndex == n.nextIndex && n'.matchIndex == n.matchIndex
  }

  /** Nothing but the candidate and its supporters has changed, and their logs have not either. */
  ghost predicate Undisturbed(s: Cluster, s': Cluster, c: nat, ps: seq<nat>)
    requires c < |s.nodes|
  {
    && |s'.nodes| == |s.nodes| && s.msgs <= s'.msgs
    && (forall j :: 0 <= j < |s.nodes| && j != c && j !in ps ==> s'.nodes[j] == s.nodes[j])
    && (forall j :: 0 <= j < |s.nodes| ==> SameLog(s.nodes[j], s'.nodes[j]))
    && (forall j :: j in ps && j < |s.nodes| ==> s'.nodes[j].role.Follower? && s'.nodes[j].term == s'.nodes[c].term)
    && (forall j :: 0 <= j < |s.nodes| && j != c ==> SameIndices(s.nodes[j], s'.nodes[j]))
    && IndicesAfter(s.nodes[c], s'.nodes[c])
  }

  /** The indices of a node that may have won: none if it had none, otherwise those it had are past
      its log. */
  ghost predicate IndicesAfter(n: Node, n': Node) {
    && (n.nextIndex == map[] ==> n'.nextIndex == map[] && n'.matchIndex == n.matchIndex)
    && (n'.role.Leader? ==> forall p: nat {:trigger Get(n'.nextIndex, p)} ::
          Get(n'.nextIndex, p) <= |n'.log| && (p in n.nextIndex ==> Get(n'.nextIndex, p) == |n'.log|))
    && (!n'.role.Leader? ==> SameIndices(n, n'))
  }

  ghost function Supported(r: Rules, s: Cluster, c: nat, a: VoteArgs, p: nat): Cluster
    requires Sized(s) && c < |s.nodes| && a.candidate == c && p < |s.nodes|
  {
    var m := VoteAnswer(p, a, VoteReply(a.term, true), s.nodes[p].log);
    ApplyCount(r, ApplyVoteAnswer(ApplyVote(s, p, a), m), Ballot(Call(c, a.term, p), m.seen), false)
  }

  lemma SupportedNodes(r: Rules, s: Cluster, c: nat, a: VoteArgs, ps: seq<nat>)
    requires |ps| > 0 && Standing(r, s, c, a, ps)
    ensures var (n, p, s') := (s.nodes[c], ps[0], Supported(r, s, c, a, ps[0]));
            && s'.nodes == s.nodes[p := Grant(StepDown(s.nodes[p], a.term), a)][c := CountVote(r, n, a.term, false)]
            && s'.calls == s.calls - {Call(c, a.term, p)} && s.msgs <= s'.msgs
  {
    var p := ps[0];
    var m := VoteAnswer(p, a, VoteReply(a.term, true), s.nodes[p].log);
    var s1 := ApplyVote(s, p, a);
    assert s1.nodes == s.nodes[p := Grant(StepDown(s.nodes[p], a.term), a)];
    var s2 := ApplyVoteAnswer(s1, m);
    assert s2.nodes == s1.nodes;
  }

  lemma Counted(r: Rules, n: Node, term: nat)
    requires n.role.Candidate? && n.term == term && n.voteCount <= (r.nodes - 1) / 2
    ensures var n' := CountVote(r, n, term, false);
            && SameLog(n, n') && n'.voteCount == n.voteCount + 1 && n'.term == n.term
            && n'.role == (if n'.voteCount > (r.nodes - 1) / 2 then Leader else Candidate)
            && IndicesAfter(n, n')
  {
    assert n.nextIndex == map[] ==> Fill(n.nextIndex.Keys, |n.log|) == map[];
  }

  lemma StandsOn(r: Rules, s: Cluster, s': Cluster, c: nat, a: VoteArgs, ps: seq<nat>, v: Node, n: Node)
    requires |ps| > 0 && Standing(r, s, c, a, ps) && Sized(s')
    requires s'.nodes == s.nodes[ps[0] := v][c := n] && s'.calls == s.calls - {Call(c, a.term, ps[0])}
    requires s.msgs <= s'.msgs && SameLog(s.nodes[ps[0]], v) && SameLog(s.nodes[c], n)
    requires v.role.Follower? && v.term == a.term
    requires SameIndices(s.nodes[ps[0]], v)
    requires n.voteCount == s.nodes[c].voteCount + 1 && n.term == a.term
    requires n.role == if n.voteCount > (r.nodes - 1) / 2 then Leader else Candidate
    requires IndicesAfter(s.nodes[c], n)
    ensures Undisturbed(s, s', c, [ps[0]])
    ensures |ps| > 1 ==> Standing(r, s', c, a, ps[1..])
    ensures |ps| == 1 ==> IsLeader(s', c, a.term)
  {
    if |ps| > 1 {
      var qs := ps[1..];
      forall i | 0 <= i < |qs|
        ensures qs[i] < r.nodes && qs[i] != c && Call(c, a.term, qs[i]) in s'.calls
                && s'.nodes[qs[i]] == s.nodes[qs[i]]
      {
        assert qs[i] == ps[i + 1];
      }
    }
  }

  lemma SupportedStands(r: Rules, s: Cluster, c: nat, a: VoteArgs, ps: seq<nat>)
    requires |ps| > 0 && Standing(r, s, c, a, ps)
    ensures var s' := Supported(r, s, c, a, ps[0]);
            && Undisturbed(s, s', c, [ps[0]])
            && (|ps| > 1 ==> Standing(r, s', c, a, ps[1..])) && (|ps| == 1 ==> IsLeader(s', c, a.term))
  {
    SupportedNodes(r, s, c, a, ps);
    Counted(r, s.nodes[c], a.term);
    StandsOn(r, s, Supported(r, s, c, a, ps[0]), c, a, ps,
             Grant(StepDown(s.nodes[ps[0]], a.term), a), CountVote(r, s.nodes[c], a.term, false));
  }

  /** A supporter votes, and its vote passes the first check. */
  lemma PassBallot(r: Rules, es: seq<Event>, c: nat, a: VoteArgs, ps: seq<nat>) returns (es': seq<Event>)
    requires |ps| > 0 && Standing(r, Run(r, es), c, a, ps) && CodeRun(r, es)
    ensures var (p, s) := (ps[0], Run(r, es));
            var m := VoteAnswer(p, a, VoteReply(a.term, true), s.nodes[p].log);
            Longer(r, es, es') && Run(r, es') == ApplyVoteAnswer(ApplyVote(s, p, a), m)
            && Ballot(Call(c, a.term, p), m.seen) in Run(r, es').passed
            && Run(r, es').nodes == s.nodes[p := Grant(StepDown(s.nodes[p], a.term), a)]
  {
    var p, s := ps[0], Run(r, es);
    var m := VoteAnswer(p, a, VoteReply(a.term, true), s.nodes[p].log);
    var e1 := Do(r, es, DeliverVote(p, a));
    assert Run(r, e1) == ApplyVote(s, p, a) && m in Run(r, e1).msgs;
    es' := Do(r, e1, DeliverVoteAnswer(m));
    SupportedNodes(r, s, c, a, ps);
  }

  /** One supporter votes and its vote is counted. */
  lemma Support(r: Rules, es: seq<Event>, c: nat, a: VoteArgs, ps: seq<nat>) returns (es': seq<Event>)
    requires |ps| > 0 && Standing(r, Run(r, es), c, a, ps) && CodeRun(r, es)
    ensures Longer(r, es, es') && Run(r, es') == Supported(r, Run(r, es), c, a, ps[0])
  {
    var e1 := PassBallot(r, es, c, a, ps);
    es' := Do(r, e1, Count(Ballot(Call(c, a.term, ps[0]), Run(r, es).nodes[ps[0]].log), false));
  }

  lemma {:induction false} Rally(r: Rules, es: seq<Event>, c: nat, a: VoteArgs, ps: seq<nat>) returns (es': seq<Event>)
    requires |ps| > 0 && Standing(r, Run(r, es), c, a, ps) && CodeRun(r, es)
    ensures Longer(r, es, es') && Undisturbed(Run(r, es), Run(r, es'), c, ps) && IsLeader(Run(r, es'), c, a.term)
    decreases |ps|
  {
    var e1 := Support(r, es, c, a, ps);
    SupportedStands(r, Run(r, es), c, a, ps);
    if |ps| == 1 {
      es' := e1;
      assert ps == [ps[0]];
    } else {
      es' := Rally(r, e1, c, a, ps[1..]);
      assert ps == [ps[0]] + ps[1..] && ps[0] !in ps[1..] && ps[0] != c;
      UndisturbedTrans(Run(r, es), Run(r, e1), Run(r, es'), c, ps[0], ps[1..]);
    }
  }

  lemma UndisturbedTrans(s: Cluster, s1: Cluster, s2: Cluster, c: nat, p: nat, ps: seq<nat>)
    requires c < |s.nodes| && |s1.nodes| == |s.nodes| && p !in ps && p != c
    requires Undisturbed(s, s1, c, [p]) && Undisturbed(s1, s2, c, ps) && s1.nodes[c].term == s2.nodes[c].term
    requires !s1.nodes[c].role.Leader?
    ensures Undisturbed(s, s2, c, [p] + ps)
  {
    forall j | 0 <= j < |s.nodes| ensures SameLog(s.nodes[j], s2.nodes[j]) {
      assert SameLog(s.nodes[j], s1.nodes[j]) && SameLog(s1.nodes[j], s2.nodes[j]);
    }
    forall j | 0 <= j < |s.nodes| && j != c ensures SameIndices(s.nodes[j], s2.nodes[j]) {
      assert SameIndices(s.nodes[j], s1.nodes[j]) && SameIndices(s1.nodes[j], s2.nodes[j]);
    }
  }

  /** The supporters a candidate needs, none of them ahead of it. */
  ghost predicate CanWin(r: Rules, s: Cluster, c: nat, ps: seq<nat>) {
    && Sized(s) && |s.nodes| == r.nodes && c < r.nodes && 0 < |ps| == (r.nodes - 1) / 2
    && !s.nodes[c].role.Leader?
    && (forall i :: 0 <= i < |ps| ==> ps[i] < r.nodes && ps[i] != c && Behind(s.nodes[ps[i]], s.nodes[c]))
    && (forall i, j :: 0 <= i < j < |ps| ==> ps[i] != ps[j])
  }

  lemma Declare(r: Rules, es: seq<Event>, c: nat, ps: seq<nat>) returns (es': seq<Event>, a: VoteArgs)
    requires CanWin(r, Run(r, es), c, ps) && CodeRun(r, es)
    ensures Longer(r, es, es') && Run(r, es') == ApplyTimeout(Run(r, es), c)
    ensures a == StartElection(Run(r, es).nodes[c], c).1
    ensures Standing(r, Run(r, es'), c, a, ps)
  {
    var s := Run(r, es);
    a := StartElection(s.nodes[c], c).1;
    es' := Do(r, es, Timeout(c));
    var s1 := Run(r, es');
    assert s1 == ApplyTimeout(s, c);
    forall i | 0 <= i < |ps| ensures Call(c, a.term, ps[i]) in s1.calls {
      assert ps[i] in All(|s.nodes|);
    }
  }

  /** A node times out and wins with the given supporters. */
  lemma Campaign(r: Rules, es: seq<Event>, c: nat, ps: seq<nat>) returns (es': seq<Event>)
    requires CanWin(r, Run(r, es), c, ps) && CodeRun(r, es)
    ensures Longer(r, es, es') && IsLeader(Run(r, es'), c, Run(r, es).nodes[c].term + 1)
    ensures Undisturbed(Run(r, es), Run(r, es'), c, ps)
  {
    var e1, a := Declare(r, es, c, ps);
    es' := Rally(r, e1, c, a, ps);
  }

  predicate Behind(p: Node, n: Node) {
    p.term <= n.term && UpToDate(VoteArgs(n.term + 1, 0, LastIndex(n.log), LastTerm(n.log)), p.log)
  }

  function Supporters(c: nat, k: nat): (ps: seq<nat>)
    ensures |ps| == k && forall i :: 0 <= i < k ==> ps[i] == c + 1 + i
  {
    seq(k, i requires 0 <= i => c + 1 + i)
  }

  // ---- snapshots of nothing ----

  /** What a node with nothing trimmed becomes when it is sent the leader's snapshot at index 0. */
  function Greeted(n: Node, term: nat): Node {
    if n.commit == 0 then Persist(Following(n, term)) else Following(n, term)
  }

  /** The leader once it has greeted p. */
  function Aware(n: Node, p: nat): Node { n.(nextIndex := n.nextIndex[p := 1]) }

  /** A node that has trimmed nothing and is not ahead of `term`. */
  predicate Plain(n: Node, term: nat) {
    n.term <= term && n.snap == 0 && |n.log| > 0 && n.log[0] == Placeholder
  }

  function Nothing(n: Node, c: nat): SnapArgs { SnapArgs(n.term, c, 0, Placeholder.term) }

  lemma InstallNothing(n: Node, a: SnapArgs)
    requires Plain(n, a.term) && a.index == 0 && a.indexTerm == Placeholder.term
    ensures Install(n, a) == Following(n, a.term)
  {
  }

  /** The leader c does not know p yet, and has trimmed nothing. */
  predicate CanGreet(s: Cluster, c: nat, p: nat) {
    && Sized(s) && c < |s.nodes| && p < |s.nodes| && c != p && s.nodes[c].role.Leader?
    && Plain(s.nodes[c], s.nodes[c].term) && Plain(s.nodes[p], s.nodes[c].term) && Get(s.nodes[c].nextIndex, p) <= 0
  }

  lemma OfferNothing(r: Rules, es: seq<Event>, c: nat, p: nat) returns (es': seq<Event>)
    requires CodeRun(r, es) && CanGreet(Run(r, es), c, p)
    ensures var (s, s', n) := (Run(r, es), Run(r, es'), Run(r, es).nodes[c]);
            && Longer(r, es, es') && s'.nodes == s.nodes[p := Following(s.nodes[p], n.term)]
            && s'.samples == s.samples && SnapAnswer(p, Nothing(n, c), n.term) in s'.msgs
  {
    var s := Run(r, es);
    var m := SnapRequest(p, Nothing(s.nodes[c], c));
    var e1 := Do(r, es, SendSnapshot(c, p));
    assert Run(r, e1) == Send(s, m);
    InstallNothing(s.nodes[p], m.snap);
    es' := Do(r, e1, DeliverSnapshot(m));
  }

  /** A leader that finds no next index for a peer sends it a snapshot. With nothing trimmed, that
      only makes the peer follow, and sets its next index. */
  lemma Greet(r: Rules, es: seq<Event>, c: nat, p: nat) returns (es': seq<Event>)
    requires CodeRun(r, es) && CanGreet(Run(r, es), c, p)
    ensures var (s, s', n) := (Run(r, es), Run(r, es'), Run(r, es).nodes[c]);
            && Longer(r, es, es') && s'.samples == s.samples
            && s'.nodes == s.nodes[p := Greeted(s.nodes[p], n.term)][c := Aware(n, p)]
  {
    var n := Run(r, es).nodes[c];
    var e1 := Offer(r, es, c, p);
    es' := TakeSnapAnswer(r, e1, SnapAnswer(p, Nothing(n, c), n.term));
  }

  lemma Offer(r: Rules, es: seq<Event>, c: nat, p: nat) returns (es': seq<Event>)
    requires CodeRun(r, es) && CanGreet(Run(r, es), c, p)
    ensures var (s, s', n) := (Run(r, es), Run(r, es'), Run(r, es).nodes[c]);
            var m := SnapAnswer(p, Nothing(n, c), n.term);
            && Longer(r, es, es') && s'.nodes == s.nodes[p := Greeted(s.nodes[p], n.term)]
            && s'.samples == s.samples && m in s'.msgs && AnswersAsCoded(s'.nodes[p], m)
  {
    var s := Run(r, es);
    var e1 := OfferNothing(r, es, c, p);
    es' := SaveGreeted(r, e1, p, SnapAnswer(p, Nothing(s.nodes[c], c), s.nodes[c].term), s.nodes[p]);
  }

  lemma TakeSnapAnswer(r: Rules, es: seq<Event>, m: Msg) returns (es': seq<Event>)
    requires CodeRun(r, es) && m in Run(r, es).msgs && m.SnapAnswer? && m.snap.leader < r.nodes && m.from < r.nodes
    requires AnswersAsCoded(Run(r, es).nodes[m.from], m)
    ensures var (s, c) := (Run(r, es), m.snap.leader);
            Longer(r, es, es') && Run(r, es') == Put(s, c, InstallReply(s.nodes[c], m.from, m.term))
  {
    es' := Do(r, es, DeliverSnapshotAnswer(m));
  }

  lemma SaveGreeted(r: Rules, es: seq<Event>, p: nat, m: Msg, n: Node) returns (es': seq<Event>)
    requires CodeRun(r, es) && p < r.nodes && m in Run(r, es).msgs && m.SnapAnswer? && m.from == p
    requires n.term <= m.term && Run(r, es).nodes[p] == Following(n, m.term)
    ensures var (s, s') := (Run(r, es), Run(r, es'));
            Longer(r, es, es') && s' == Put(s, p, Greeted(n, m.term))
  {
    if n.commit == 0 {
      es' := Do(r, es, Save(p));
    } else {
      es' := es;
      assert Run(r, es).nodes[p := Run(r, es).nodes[p]] == Run(r, es).nodes;
    }
  }

  predicate AllPlain(s: Cluster, term: nat) {
    forall j :: 0 <= j < |s.nodes| ==> Plain(s.nodes[j], term)
  }

  /** A node among the first k that the leader c does not know. */
  predicate New(n: Node, c: nat, k: nat, j: nat) { j < k && j != c && Get(n.nextIndex, j) <= 0 }

  /** The leader c has greeted those of the first k nodes that it did not know. */
  ghost predicate Met(s: Cluster, s': Cluster, c: nat, k: nat)
    requires c < |s.nodes|
  {
    var n := s.nodes[c];
    && Sized(s') && |s'.nodes| == |s.nodes| && s'.samples == s.samples
    && s'.nodes[c] == n.(nextIndex := s'.nodes[c].nextIndex)
    && (forall j :: 0 <= j < |s.nodes| && j != c ==>
          s'.nodes[j] == if New(n, c, k, j) then Greeted(s.nodes[j], n.term) else s.nodes[j])
    && (forall j: nat {:trigger Get(s'.nodes[c].nextIndex, j)} ::
          Get(s'.nodes[c].nextIndex, j) == if New(n, c, k, j) then 1 else Get(n.nextIndex, j))
  }

  lemma {:induction false} MeetUpTo(r: Rules, es: seq<Event>, c: nat, k: nat) returns (es': seq<Event>)
    requires CodeRun(r, es) && c < r.nodes && k <= r.nodes && Run(r, es).nodes[c].role.Leader?
    requires AllPlain(Run(r, es), Run(r, es).nodes[c].term)
    ensures Longer(r, es, es') && Met(Run(r, es), Run(r, es'), c, k)
    decreases k
  {
    if k == 0 {
      es' := es;
      MetNobody(Run(r, es), c);
    } else {
      var e1 := MeetUpTo(r, es, c, k - 1);
      es' := MeetNext(r, es, e1, c, k - 1);
    }
  }

  lemma MetNobody(s: Cluster, c: nat)
    requires Sized(s) && c < |s.nodes|
    ensures Met(s, s, c, 0)
  {
  }

  lemma MeetNext(r: Rules, es: seq<Event>, e1: seq<Event>, c: nat, k: nat) returns (es': seq<Event>)
    requires Longer(r, es, e1) && c < r.nodes && k < r.nodes && Run(r, es).nodes[c].role.Leader?
    requires AllPlain(Run(r, es), Run(r, es).nodes[c].term) && Met(Run(r, es), Run(r, e1), c, k)
    ensures Longer(r, es, es') && Met(Run(r, es), Run(r, es'), c, k + 1)
  {
    var s, s1 := Run(r, es), Run(r, e1);
    if New(s.nodes[c], c, k + 1, k) {
      MetCanGreet(s, s1, c, k);
      es' := Greet(r, e1, c, k);
      MetNext(s, s1, Run(r, es'), c, k);
    } else {
      es' := e1;
      MetSame(s, s1, c, k);
    }
  }

  lemma MetCanGreet(s: Cluster, s1: Cluster, c: nat, k: nat)
    requires c < |s.nodes| && k < |s.nodes| && s.nodes[c].role.Leader? && AllPlain(s, s.nodes[c].term)
    requires Met(s, s1, c, k) && New(s.nodes[c], c, k + 1, k)
    ensures CanGreet(s1, c, k)
  {
    assert Plain(s.nodes[c], s.nodes[c].term) && Plain(s.nodes[k], s.nodes[c].term);
    assert Get(s1.nodes[c].nextIndex, k) == Get(s.nodes[c].nextIndex, k);
  }

  lemma MetSame(s: Cluster, s': Cluster, c: nat, k: nat)
    requires c < |s.nodes| && Met(s, s', c, k) && !New(s.nodes[c], c, k + 1, k)
    ensures Met(s, s', c, k + 1)
  {
    forall j: nat ensures New(s.nodes[c], c, k + 1, j) == New(s.nodes[c], c, k, j) {
    }
  }

  lemma MetNext(s: Cluster, s1: Cluster, s2: Cluster, c: nat, k: nat)
    requires c < |s.nodes| && k < |s.nodes| && Met(s, s1, c, k) && New(s.nodes[c], c, k + 1, k)
    requires Sized(s2) && s2.samples == s1.samples
    requires s2.nodes == s1.nodes[k := Greeted(s1.nodes[k], s.nodes[c].term)][c := Aware(s1.nodes[c], k)]
    ensures Met(s, s2, c, k + 1)
  {
    var n, n1, n2 := s.nodes[c], s1.nodes[c], s2.nodes[c];
    forall j: nat ensures Get(n2.nextIndex, j) == if New(n, c, k + 1, j) then 1 else Get(n.nextIndex, j) {
      assert Get(n1.nextIndex, j) == if New(n, c, k, j) then 1 else Get(n.nextIndex, j);
    }
  }

  /** A leader whose next indices lie within its log greets whoever it does not know; then its
      heartbeats are in order. */
  lemma MeetAll(r: Rules, es: seq<Event>, c: nat) returns (es': seq<Event>)
    requires CodeRun(r, es) && c < r.nodes && Run(r, es).nodes[c].role.Leader?
    requires var (s, n) := (Run(r, es), Run(r, es).nodes[c]);
             AllPlain(s, n.term) && forall p: nat {:trigger Get(n.nextIndex, p)} :: Get(n.nextIndex, p) <= |n.log|
    ensures Longer(r, es, es') && Met(Run(r, es), Run(r, es'), c, r.nodes)
    ensures BeatsInLog(r.nodes, c, Run(r, es').nodes[c])
  {
    es' := MeetUpTo(r, es, c, r.nodes);
    var s, s' := Run(r, es), Run(r, es');
    assert Plain(s.nodes[c], s.nodes[c].term);
    forall p: nat | p < r.nodes && p != c ensures 0 < Get(s'.nodes[c].nextIndex, p) <= |s.nodes[c].log| {
      assert Get(s'.nodes[c].nextIndex, p) ==
             if New(s.nodes[c], c, r.nodes, p) then 1 else Get(s.nodes[c].nextIndex, p);
    }
  }

  // ---- requests ----

  lemma SendOne(r: Rules, es: seq<Event>, c: nat, p: nat, prev: nat, full: bool, round: nat)
    returns (es': seq<Event>)
    requires CodeRun(r, es) && CanSend(Run(r, es), c, p) && Run(r, es).nodes[c].snap <= prev < |Run(r, es).nodes[c].log|
    requires SendsAsCoded(r.nodes, c, Run(r, es).nodes[c], p, prev, full, round)
    requires round == 0 || (round in Run(r, es).samples && Run(r, es).samples[round].node == c)
    ensures Longer(r, es, es')
    ensures Run(r, es') == Send(Run(r, es), AppendRequest(p, Request(Run(r, es).nodes[c], c, prev, full), round))
  {
    es' := Do(r, es, SendAppend(c, p, prev, full, round));
  }

  lemma DeliverOne(r: Rules, es: seq<Event>, m: Msg) returns (es': seq<Event>)
    requires CodeRun(r, es) && m in Run(r, es).msgs && m.AppendRequest? && m.to < r.nodes
    ensures Longer(r, es, es') && Run(r, es') == ApplyAppend(r, Run(r, es), m)
  {
    es' := Do(r, es, DeliverAppend(m));
  }

  lemma Ask(r: Rules, es: seq<Event>, c: nat, p: nat, prev: nat, full: bool, round: nat) returns (es': seq<Event>)
    requires CodeRun(r, es) && CanSend(Run(r, es), c, p) && Run(r, es).nodes[c].snap <= prev < |Run(r, es).nodes[c].log|
    requires SendsAsCoded(r.nodes, c, Run(r, es).nodes[c], p, prev, full, round)
    requires round == 0 || (round in Run(r, es).samples && Run(r, es).samples[round].node == c)
    ensures var (s, s') := (Run(r, es), Run(r, es'));
            var a := Request(s.nodes[c], c, prev, full);
            && Longer(r, es, es') && s'.samples == s.samples && s.msgs <= s'.msgs
            && s'.nodes == s.nodes[p := HandleAppend(r, s.nodes[p], a).0]
            && AppendAnswer(p, a, HandleAppend(r, s.nodes[p], a).1, round) in s'.msgs
  {
    var m := AppendRequest(p, Request(Run(r, es).nodes[c], c, prev, full), round);
    var e1 := SendOne(r, es, c, p, prev, full, round);
    es' := DeliverOne(r, e1, m);
  }

  // ---- reads ----

  /** A leader samples its commit index for a new round. */
  lemma SampleFor(r: Rules, es: seq<Event>, c: nat) returns (es': seq<Event>, round: nat)
    requires CodeRun(r, es) && c < r.nodes && Run(r, es).nodes[c].role.Leader?
    ensures round > 0 && round !in Run(r, es).samples && es' == es + [SampleRead(c, round)] && Longer(r, es, es')
    ensures var (s, s') := (Run(r, es), Run(r, es'));
            && s'.nodes == s.nodes && s'.msgs == s.msgs && Sized(s')
            && round in s'.samples && s'.samples[round].node == c
  {
    round := Bound(Run(r, es).samples.Keys) + 1;
    es' := Do(r, es, SampleRead(c, round));
  }

  /** Leader c has sampled for the round and may send a heartbeat to q. */
  predicate MayBeat(r: Rules, s: Cluster, c: nat, q: nat, round: nat) {
    && Sized(s) && |s.nodes| == r.nodes && c < r.nodes && q < r.nodes && q != c && s.nodes[c].role.Leader?
    && BeatsInLog(r.nodes, c, s.nodes[c]) && round > 0 && round in s.samples && s.samples[round].node == c
  }

  /** A heartbeat of a read's round, sent and delivered. */
  lemma Beat(r: Rules, es: seq<Event>, c: nat, q: nat, round: nat) returns (es': seq<Event>)
    requires CodeRun(r, es) && MayBeat(r, Run(r, es), c, q, round)
    ensures var (s, s') := (Run(r, es), Run(r, es'));
            var a := Request(s.nodes[c], c, Get(s.nodes[c].nextIndex, q) - 1, false);
            && Longer(r, es, es') && s'.samples == s.samples && s.msgs <= s'.msgs
            && s'.nodes == s.nodes[q := HandleAppend(r, s.nodes[q], a).0]
            && AppendAnswer(q, a, HandleAppend(r, s.nodes[q], a).1, round) in s'.msgs
  {
    es' := Ask(r, es, c, q, Get(Run(r, es).nodes[c].nextIndex, q) - 1, false, round);
  }

  // ---- sharing a log ----

  lemma Command(r: Rules, es: seq<Event>, c: nat, x: Op) returns (es': seq<Event>)
    requires c < r.nodes && CodeRun(r, es)
    ensures Longer(r, es, es') && Run(r, es').nodes == Run(r, es).nodes[c := Submit(Run(r, es).nodes[c], x)]
  {
    es' := Do(r, es, ClientCommand(c, x));
  }

  /** Send a request from the next index on and deliver it. */
  lemma Replicate(r: Rules, es: seq<Event>, c: nat, p: nat) returns (es': seq<Event>)
    requires c < r.nodes && p < r.nodes && c != p && CodeRun(r, es)
    requires var n := Run(r, es).nodes[c];
             n.role.Leader? && n.snap < Get(n.nextIndex, p) <= |n.log|
    ensures var s := Run(r, es);
            var a := Request(s.nodes[c], c, Get(s.nodes[c].nextIndex, p) - 1, true);
            && Longer(r, es, es') && Run(r, es').nodes == s.nodes[p := HandleAppend(r, s.nodes[p], a).0]
            && AppendAnswer(p, a, HandleAppend(r, s.nodes[p], a).1, 0) in Run(r, es').msgs
  {
    es' := Ask(r, es, c, p, Get(Run(r, es).nodes[c].nextIndex, p) - 1, true, 0);
  }

  lemma Answer(r: Rules, es: seq<Event>, m: Msg) returns (es': seq<Event>)
    requires m in Run(r, es).msgs && m.AppendAnswer? && m.args.leader < r.nodes && m.round == 0 && CodeRun(r, es)
    ensures var (s, c) := (Run(r, es), m.args.leader);
            && Longer(r, es, es')
            && Run(r, es').nodes == s.nodes[c := HandleAppendReply(r.nodes, s.nodes[c], c, m.from, m.args, m.reply)]
  {
    es' := Do(r, es, DeliverAppendAnswer(m));
    assert Run(r, es') == ApplyAppendAnswer(Run(r, es), m);
  }

  /** The members of a list. */
  function Ids(ps: seq<nat>): set<nat> { set p | p in ps }

  lemma {:induction false} IdsSize(ps: seq<nat>)
    requires forall i, j :: 0 <= i < j < |ps| ==> ps[i] != ps[j]
    ensures |Ids(ps)| == |ps|
    decreases |ps|
  {
    if ps != [] {
      var front := ps[..|ps| - 1];
      IdsSize(front);
      assert Ids(ps) == Ids(front) + {ps[|ps| - 1]};
    }
  }

  lemma HeldByAll(nodes: nat, c: nat, matchIndex: map<nat, int>, ps: seq<nat>, last: int, i: nat)
    requires 0 < i <= last && matchIndex.Keys == Ids(ps) && forall p :: p in matchIndex ==> matchIndex[p] == last
    requires forall k, l :: 0 <= k < l < |ps| ==> ps[k] != ps[l]
    requires forall k :: 0 <= k < |ps| ==> ps[k] < nodes && ps[k] != c
    ensures |Holders(nodes, c, matchIndex, i)| == |ps| + 1
  {
    assert Holders(nodes, c, matchIndex, i) == Ids(ps) + {c};
    IdsSize(ps);
  }

  /** The commit loop of a leader that has heard from the nodes in ps, each of which has all of
      its log: nothing is committed until they are half of the others, and then everything. */
  lemma SearchShared(nodes: nat, n: Node, c: nat, matchIndex: map<nat, int>, ps: seq<nat>, i: nat)
    requires n.commit == 0 && i < |n.log| && c < nodes && 2 <= |n.log| && nodes >= 3 && |ps| <= (nodes - 1) / 2
    requires forall k, l :: 0 <= k < l < |ps| ==> ps[k] != ps[l]
    requires forall k :: 0 <= k < |ps| ==> ps[k] < nodes && ps[k] != c
    requires matchIndex.Keys == Ids(ps) && forall p :: p in matchIndex ==> matchIndex[p] == LastIndex(n.log)
    ensures |ps| < (nodes - 1) / 2 ==> CommitSearch(nodes, n, c, matchIndex, i) == 0
    ensures |ps| == (nodes - 1) / 2 && i == LastIndex(n.log) && n.log[i].term == n.term ==>
      CommitSearch(nodes, n, c, matchIndex, i) == i
    decreases i
  {
    if i > 0 {
      HeldByAll(nodes, c, matchIndex, ps, LastIndex(n.log), i);
      if |ps| < (nodes - 1) / 2 {
        SearchShared(nodes, n, c, matchIndex, ps, i - 1);
      }
    }
  }

  /** A leader with an entry of its own that nobody has heard from yet, and nodes that will take
      its whole log. */
  predicate CanShare(r: Rules, s: Cluster, c: nat, ps: seq<nat>) {
    && Sized(s) && |s.nodes| == r.nodes >= 3 && c < r.nodes && |ps| == (r.nodes - 1) / 2
    && Starts(s.nodes[c])
    && (forall i :: 0 <= i < |ps| ==> ps[i] < r.nodes && ps[i] != c && Takes(s.nodes[ps[i]], s.nodes[c].term))
    && (forall i, j :: 0 <= i < j < |ps| ==> ps[i] != ps[j])
  }

  predicate Starts(n: Node) {
    && n.role.Leader? && n.commit == 0 && n.snap == 0 && 2 <= |n.log| && LastTerm(n.log) == n.term
    && n.nextIndex == map[] && n.matchIndex == map[] && n.log[0] == Placeholder
  }

  predicate Takes(n: Node, term: nat) {
    n.term == term && n.role.Follower? && n.commit == 0 && Plain(n, term)
  }

  function WholeLog(n: Node, c: nat): AppendArgs
    requires |n.log| > 0
  {
    Request(n, c, 0, true)
  }

  predicate Took(r: Rules, s: Cluster, s': Cluster, c: nat, p: nat)
    requires c < |s.nodes| && p < |s.nodes| == |s'.nodes| && |s.nodes[c].log| > 0
  {
    s'.nodes[p] == HandleAppend(r, s.nodes[p], WholeLog(s.nodes[c], c)).0
  }

  /** The first k of the nodes have taken the leader's log and answered. */
  predicate Shared(r: Rules, s: Cluster, s': Cluster, c: nat, ps: seq<nat>, k: nat)
    requires CanShare(r, s, c, ps) && k <= |ps|
  {
    && Sized(s') && |s'.nodes| == r.nodes
    && (forall i {:trigger Took(r, s, s', c, ps[i])} :: 0 <= i < k ==> Took(r, s, s', c, ps[i]))
    && (forall j :: 0 <= j < r.nodes && j != c && j !in ps[..k] ==> s'.nodes[j] == s.nodes[j])
    && SharedBy(s.nodes[c], s'.nodes[c], ps[..k], k == |ps|)
  }

  predicate SharedBy(n: Node, n': Node, ps: seq<nat>, all: bool) {
    && n' == n.(matchIndex := n'.matchIndex, nextIndex := n'.nextIndex, commit := n'.commit)
    && n'.matchIndex.Keys == Ids(ps) && (forall p :: p in n'.matchIndex ==> n'.matchIndex[p] == LastIndex(n.log))
    && n'.nextIndex.Keys == Ids(ps) && (forall p :: p in n'.nextIndex ==> n'.nextIndex[p] == |n.log|)
    && n'.commit == if all then LastIndex(n.log) else 0
  }

  lemma HeardFrom(r: Rules, n0: Node, n: Node, c: nat, ps: seq<nat>, k: nat)
    requires r.nodes >= 3 && c < r.nodes && k < |ps| == (r.nodes - 1) / 2
    requires Starts(n0) && SharedBy(n0, n, ps[..k], false)
    requires forall i, j :: 0 <= i < j < |ps| ==> ps[i] != ps[j]
    requires forall i :: 0 <= i < |ps| ==> ps[i] < r.nodes && ps[i] != c
    ensures var n' := HandleAppendReply(r.nodes, Aware(n, ps[k]), c, ps[k], WholeLog(n0, c),
                                        AppendReply(n0.term, true, 0, 0, 0));
            SharedBy(n0, n', ps[..k + 1], k + 1 == |ps|)
  {
    assert ps[..k + 1] == ps[..k] + [ps[k]];
    HeardOne(r, n0, n, c, ps[..k], ps[k]);
  }

  lemma HeardOne(r: Rules, n0: Node, n: Node, c: nat, ps: seq<nat>, p: nat)
    requires r.nodes >= 3 && c < r.nodes && |ps| < (r.nodes - 1) / 2 && Starts(n0) && SharedBy(n0, n, ps, false)
    requires p !in ps && p < r.nodes && p != c
    requires forall i, j :: 0 <= i < j < |ps| ==> ps[i] != ps[j]
    requires forall i :: 0 <= i < |ps| ==> ps[i] < r.nodes && ps[i] != c
    ensures var n' := HandleAppendReply(r.nodes, Aware(n, p), c, p, WholeLog(n0, c),
                                        AppendReply(n0.term, true, 0, 0, 0));
            SharedBy(n0, n', ps + [p], |ps| + 1 == (r.nodes - 1) / 2)
  {
    var last := LastIndex(n0.log);
    var held := n.matchIndex[p := last];
    assert Ids(ps + [p]) == Ids(ps) + {p} && p !in n.matchIndex;
    assert held.Keys == Ids(ps + [p]);
    SearchShared(r.nodes, Aware(n, p), c, held, ps + [p], last);
    Acknowledged(r, n0, Aware(n, p), c, p, held);
    var commit := Max(0, CommitSearch(r.nodes, Aware(n, p), c, held, last));
    SharedWith(n0, n, ps, p, commit, |ps| + 1 == (r.nodes - 1) / 2);
  }

  lemma SharedWith(n0: Node, n: Node, ps: seq<nat>, p: nat, commit: nat, all: bool)
    requires |n0.log| > 0 && SharedBy(n0, n, ps, false) && commit == if all then LastIndex(n0.log) else 0
    ensures SharedBy(n0, n.(matchIndex := n.matchIndex[p := LastIndex(n0.log)],
                            nextIndex := Aware(n, p).nextIndex[p := LastIndex(n0.log) + 1], commit := commit),
                     ps + [p], all)
  {
    var next, held := Aware(n, p).nextIndex[p := LastIndex(n0.log) + 1], n.matchIndex[p := LastIndex(n0.log)];
    assert Ids(ps + [p]) == Ids(ps) + {p};
    assert next.Keys == Ids(ps + [p]) && held.Keys == Ids(ps + [p]);
  }

  lemma Acknowledged(r: Rules, n0: Node, n: Node, c: nat, p: nat, held: map<nat, int>)
    requires Starts(n0) && n.term == n0.term && n.log == n0.log && p !in n.matchIndex
    requires held == n.matchIndex[p := LastIndex(n0.log)]
    ensures HandleAppendReply(r.nodes, n, c, p, WholeLog(n0, c), AppendReply(n0.term, true, 0, 0, 0))
              == n.(matchIndex := held, nextIndex := n.nextIndex[p := LastIndex(n0.log) + 1],
                    commit := Max(0, CommitSearch(r.nodes, n, c, held, LastIndex(n.log))))
  {
    var a := WholeLog(n0, c);
    assert Max(Get(n.matchIndex, p), a.prev + |a.entries|) == LastIndex(n0.log);
  }

  /** The run es' goes on from es to where the first k of the nodes have answered. */
  ghost predicate Sharing(r: Rules, es: seq<Event>, es': seq<Event>, c: nat, ps: seq<nat>, k: nat) {
    && Longer(r, es, es') && CanShare(r, Run(r, es), c, ps)
    && k <= |ps| && Shared(r, Run(r, es), Run(r, es'), c, ps, k)
  }

  lemma {:induction false} ShareUpTo(r: Rules, es: seq<Event>, c: nat, ps: seq<nat>, k: nat) returns (es': seq<Event>)
    requires Sharing(r, es, es, c, ps, 0) && k <= |ps|
    ensures Sharing(r, es, es', c, ps, k)
    decreases k
  {
    if k == 0 {
      es' := es;
    } else {
      var e1 := ShareUpTo(r, es, c, ps, k - 1);
      es' := ShareNext(r, es, e1, c, ps, k - 1);
    }
  }

  lemma SharedNothing(r: Rules, s: Cluster, c: nat, ps: seq<nat>)
    requires CanShare(r, s, c, ps)
    ensures Shared(r, s, s, c, ps, 0)
  {
  }

  /** A node that follows already is greeted without any change but that it is saved. */
  lemma GreetedTakes(r: Rules, n: Node, a: AppendArgs)
    requires Takes(n, a.term) && a.prev == 0
    ensures HandleAppend(r, Greeted(n, a.term), a) == HandleAppend(r, n, a)
    ensures HandleAppend(r, n, a).1 == AppendReply(a.term, true, 0, 0, 0)
  {
  }

  lemma ShareNext(r: Rules, es: seq<Event>, e1: seq<Event>, c: nat, ps: seq<nat>, k: nat) returns (es': seq<Event>)
    requires Sharing(r, es, e1, c, ps, k) && k < |ps|
    ensures Sharing(r, es, es', c, ps, k + 1)
  {
    var s, s1, p := Run(r, es), Run(r, e1), ps[k];
    var a := WholeLog(s.nodes[c], c);
    assert p !in ps[..k] && s1.nodes[p] == s.nodes[p];
    es' := ShareOne(r, e1, c, p, a);
    SharedNext(r, s, s1, Run(r, es'), c, ps, k);
  }

  /** The leader greets p, sends it the whole log and takes its answer. */
  lemma ShareOne(r: Rules, es: seq<Event>, c: nat, p: nat, a: AppendArgs) returns (es': seq<Event>)
    requires CodeRun(r, es) && CanGreet(Run(r, es), c, p) && a == WholeLog(Run(r, es).nodes[c], c)
    requires Takes(Run(r, es).nodes[p], a.term)
    ensures var (s, n) := (Run(r, es), Run(r, es).nodes[c]);
            var n' := HandleAppendReply(r.nodes, Aware(n, p), c, p, a, AppendReply(a.term, true, 0, 0, 0));
            Longer(r, es, es') && Run(r, es').nodes == s.nodes[p := HandleAppend(r, s.nodes[p], a).0][c := n']
  {
    var e1 := Hand(r, es, c, p, a);
    es' := Answer(r, e1, AppendAnswer(p, a, AppendReply(a.term, true, 0, 0, 0), 0));
  }

  lemma Hand(r: Rules, es: seq<Event>, c: nat, p: nat, a: AppendArgs) returns (es': seq<Event>)
    requires CodeRun(r, es) && CanGreet(Run(r, es), c, p) && a == WholeLog(Run(r, es).nodes[c], c)
    requires Takes(Run(r, es).nodes[p], a.term)
    ensures var (s, s', n) := (Run(r, es), Run(r, es'), Run(r, es).nodes[c]);
            && Longer(r, es, es') && s'.nodes == s.nodes[c := Aware(n, p)][p := HandleAppend(r, s.nodes[p], a).0]
            && AppendAnswer(p, a, AppendReply(a.term, true, 0, 0, 0), 0) in s'.msgs
  {
    var e1 := Greet(r, es, c, p);
    assert Request(Run(r, e1).nodes[c], c, 0, true) == a;
    es' := Replicate(r, e1, c, p);
    GreetedTakes(r, Run(r, es).nodes[p], a);
  }

  lemma SharedNext(r: Rules, s: Cluster, s1: Cluster, s2: Cluster, c: nat, ps: seq<nat>, k: nat)
    requires CanShare(r, s, c, ps) && k < |ps| && Shared(r, s, s1, c, ps, k) && Sized(s2) && |s2.nodes| == r.nodes
    requires var a := WholeLog(s.nodes[c], c);
             var n := HandleAppendReply(r.nodes, Aware(s1.nodes[c], ps[k]), c, ps[k], a,
                                        AppendReply(a.term, true, 0, 0, 0));
             s2.nodes == s1.nodes[ps[k] := HandleAppend(r, s.nodes[ps[k]], a).0][c := n]
    ensures Shared(r, s, s2, c, ps, k + 1)
  {
    HeardFrom(r, s.nodes[c], s1.nodes[c], c, ps, k);
    OthersKept(s.nodes, s1.nodes, s2.nodes, c, ps, k);
    forall i | 0 <= i < k + 1 ensures Took(r, s, s2, c, ps[i]) {
      if i < k {
        assert ps[i] != ps[k] && s2.nodes[ps[i]] == s1.nodes[ps[i]];
        TookStays(r, s, s1, s2, c, ps[i]);
      }
    }
  }

  lemma TookStays(r: Rules, s: Cluster, s1: Cluster, s2: Cluster, c: nat, p: nat)
    requires c < |s.nodes| == |s1.nodes| == |s2.nodes| && p < |s.nodes| && |s.nodes[c].log| > 0
    requires Took(r, s, s1, c, p) && s2.nodes[p] == s1.nodes[p]
    ensures Took(r, s, s2, c, p)
  {
  }

  lemma OthersKept(x: seq<Node>, y: seq<Node>, z: seq<Node>, c: nat, ps: seq<nat>, k: nat)
    requires |x| == |y| == |z| && c < |x| && k < |ps| && ps[k] < |x|
    requires forall j :: 0 <= j < |x| && j != c && j !in ps[..k] ==> y[j] == x[j]
    requires z == y[ps[k] := z[ps[k]]][c := z[c]]
    ensures forall j :: 0 <= j < |x| && j != c && j !in ps[..k + 1] ==> z[j] == x[j]
  {
    assert ps[..k + 1] == ps[..k] + [ps[k]];
  }

  /** A leader shares its log with half of the others and commits all of it. */
  lemma Share(r: Rules, es: seq<Event>, c: nat, ps: seq<nat>) returns (es': seq<Event>)
    requires CanShare(r, Run(r, es), c, ps) && CodeRun(r, es)
    ensures Longer(r, es, es') && Shared(r, Run(r, es), Run(r, es'), c, ps, |ps|)
  {
    SharedNothing(r, Run(r, es), c, ps);
    es' := ShareUpTo(r, es, c, ps, |ps|);
  }

  // ---- leading ----

  /** Node c has won the next term with the votes of ps and put one command into its log. */
  predicate Led(s: Cluster, s': Cluster, c: nat, ps: seq<nat>, op: Op)
    requires c < |s.nodes|
  {
    && Sized(s') && |s'.nodes| == |s.nodes|
    && (forall j :: 0 <= j < |s.nodes| && j != c && j !in ps ==> s'.nodes[j] == s.nodes[j])
    && (forall j :: j in ps && j < |s.nodes| ==> Voter(s.nodes[j], s'.nodes[j], s.nodes[c].term + 1))
    && Starts(s'.nodes[c]) && s'.nodes[c].term == s.nodes[c].term + 1
    && s'.nodes[c].log == s.nodes[c].log + [Entry(s.nodes[c].term + 1, Some(op))]
  }

  predicate Voter(n: Node, n': Node, term: nat) {
    SameLog(n, n') && SameIndices(n, n') && n'.role.Follower? && n'.term == term
  }

  /** A node that has never led: nothing committed, trimmed or matched. */
  predicate Untried(n: Node) {
    && n.commit == 0 && n.snap == 0 && |n.log| > 0 && n.log[0] == Placeholder
    && n.nextIndex == map[] && n.matchIndex == map[]
  }

  lemma Lead(r: Rules, es: seq<Event>, c: nat, ps: seq<nat>, op: Op) returns (es': seq<Event>)
    requires CanWin(r, Run(r, es), c, ps) && Untried(Run(r, es).nodes[c]) && CodeRun(r, es)
    ensures Longer(r, es, es') && Led(Run(r, es), Run(r, es'), c, ps, op)
  {
    var e1 := Campaign(r, es, c, ps);
    es' := Command(r, e1, c, op);
    LedNow(Run(r, es), Run(r, e1), Run(r, es'), c, ps, op);
  }

  lemma LedNow(s: Cluster, s1: Cluster, s2: Cluster, c: nat, ps: seq<nat>, op: Op)
    requires c < |s.nodes| && Undisturbed(s, s1, c, ps) && IsLeader(s1, c, s.nodes[c].term + 1) && Sized(s2)
    requires Untried(s.nodes[c]) && c !in ps && s2.nodes == s1.nodes[c := Submit(s1.nodes[c], op)]
    ensures Led(s, s2, c, ps, op)
  {
    assert SameLog(s.nodes[c], s1.nodes[c]);
    forall j | j in ps && j < |s.nodes| ensures Voter(s.nodes[j], s2.nodes[j], s.nodes[c].term + 1) {
      assert SameLog(s.nodes[j], s1.nodes[j]) && SameIndices(s.nodes[j], s1.nodes[j]);
    }
  }

  /** A leader that has led from a placeholder, with its log shared, has committed its command. */
  lemma LeadAndShare(r: Rules, es: seq<Event>, c: nat, ps: seq<nat>, op: Op) returns (e1: seq<Event>, es': seq<Event>)
    requires r.nodes >= 3 && CanWin(r, Run(r, es), c, ps) && Untried(Run(r, es).nodes[c]) && CodeRun(r, es)
    requires forall i :: 0 <= i < |ps| ==> Untried(Run(r, es).nodes[ps[i]])
    ensures Longer(r, es, e1) && Longer(r, e1, es')
    ensures Led(Run(r, es), Run(r, e1), c, ps, op) && CanShare(r, Run(r, e1), c, ps)
    ensures Shared(r, Run(r, e1), Run(r, es'), c, ps, |ps|)
  {
    e1 := Lead(r, es, c, ps, op);
    var s, s1 := Run(r, es), Run(r, e1);
    forall i | 0 <= i < |ps| ensures Takes(s1.nodes[ps[i]], s1.nodes[c].term) {
      assert Voter(s.nodes[ps[i]], s1.nodes[ps[i]], s.nodes[c].term + 1);
    }
    es' := Share(r, e1, c, ps);
  }

  /** Nobody trims anything on the way. */
  lemma LedPlain(s: Cluster, s': Cluster, c: nat, ps: seq<nat>, op: Op, term: nat)
    requires c < |s.nodes| && Led(s, s', c, ps, op) && AllPlain(s, term) && term <= s.nodes[c].term + 1
    ensures AllPlain(s', s.nodes[c].term + 1)
  {
    forall j | 0 <= j < |s'.nodes| ensures Plain(s'.nodes[j], s.nodes[c].term + 1) {
      assert Plain(s.nodes[j], term);
      if j in ps { assert Voter(s.nodes[j], s'.nodes[j], s.nodes[c].term + 1); }
    }
  }

  lemma TakenPlain(r: Rules, n: Node, a: AppendArgs, term: nat)
    requires Takes(n, a.term) && a.prev == 0 && a.leaderCommit == 0 && a.term <= term
    ensures Plain(HandleAppend(r, n, a).0, term)
  {
  }

  lemma SharedPlain(r: Rules, s: Cluster, s': Cluster, c: nat, ps: seq<nat>, term: nat)
    requires CanShare(r, s, c, ps) && Shared(r, s, s', c, ps, |ps|) && AllPlain(s, term)
    ensures AllPlain(s', term)
  {
    assert ps[..|ps|] == ps;
    forall j | 0 <= j < |s'.nodes| ensures Plain(s'.nodes[j], term) {
      assert Plain(s.nodes[j], term);
      if j in ps {
        var i :| 0 <= i < |ps| && ps[i] == j;
        assert Plain(s.nodes[c], term) && Took(r, s, s', c, ps[i]);
        TakenPlain(r, s.nodes[j], WholeLog(s.nodes[c], c), term);
      }
    }
  }

  lemma TakenTakes(r: Rules, n: Node, a: AppendArgs)
    requires Takes(n, a.term) && a.prev == 0 && a.leaderCommit == 0
    ensures Takes(HandleAppend(r, n, a).0, a.term)
  {
  }
}
