/** Trimming is invisible: a node that trims its log and a twin that never does, fed the same
    inputs, grow the same log, commit the same entries and give the same replies, except for the
    one hint in which a reply may name the snapshot. */
module Compaction {
  import opened Basics
  import opened Quorums
  import opened RaftNode

  predicate SameAbove(c: int, a: int, b: int) { a == b || (a <= c && b <= c) }

  /** Two nodes alike in everything but what trimming touches: the snapshot index, the saved state
      (trimming saves), the probe positions, and match indices that lie below the commit index. */
  ghost predicate Twins(n: Node, m: Node) {
    && m.snap == 0 && n.snap <= n.commit && n.snap < |n.log|
    && n.log == m.log && n.term == m.term && n.vote == m.vote && n.role == m.role
    && n.voteCount == m.voteCount && n.commit == m.commit
    && n.matchIndex.Keys <= n.nextIndex.Keys && m.matchIndex.Keys <= m.nextIndex.Keys
    && (n.role.Leader? ==> forall p :: SameAbove(n.commit, Get(n.matchIndex, p), Get(m.matchIndex, p)))
  }

  /** Replies alike in everything but the index hint. On success the hint is the snapshot index; on
      a conflict it is the start of the conflicting run, cut off at the snapshot. */
  predicate SameReply(snap: nat, r: AppendReply, r0: AppendReply) {
    && r.(xIndex := 0) == r0.(xIndex := 0)
    && r.xIndex == if r.success then snap else if r0.xIndex == 0 then 0 else Max(r0.xIndex, snap + 1)
  }

  datatype Input =
    | Time
    | Vote(vote: VoteArgs)
    | VoteResult(term: nat, answer: VoteReply)
    | Tally(term: nat, late: bool)
    | Client(command: Op)
    | Append(args: AppendArgs)
    | AppendResult(server: nat, args: AppendArgs, reply: AppendReply)
    | Trim(index: nat)

  datatype Output =
    | Silent
    | Ask(vote: VoteArgs)
    | Voted(answer: VoteReply)
    | Passed(pass: bool)
    | Appended(reply: AppendReply)

  /** The inputs compared: requests that start at or above the snapshot and do not come from a
      second leader of the node's own term, answers to a leader's requests, and trimming to an
      entry that is still there. */
  predicate Allowed(n: Node, x: Input) {
    match x
    case Append(a) => a.prev >= n.snap && !(n.role.Leader? && a.term == n.term)
    case AppendResult(_, _, _) => n.role.Leader? && n.commit < |n.log|
    case Trim(index) => index < |n.log|
    case _ => true
  }

  ghost function React(r: Rules, me: nat, n: Node, x: Input): (Node, Output) {
    match x
    case Time => var (n', a) := StartElection(n, me); (n', Ask(a))
    case Vote(a) => var (n', v) := HandleVote(n, a); (n', Voted(v))
    case VoteResult(term, v) => var (n', pass) := HandleVoteReply(n, term, v); (n', Passed(pass))
    case Tally(term, late) => (CountVote(r, n, term, late), Silent)
    case Client(command) => (Submit(n, command), Silent)
    case Append(a) => var (n', v) := HandleAppend(r, n, a); (n', Appended(v))
    case AppendResult(server, a, v) => (HandleAppendReply(r.nodes, n, me, server, a, v), Silent)
    case Trim(index) => (Compact(n, index), Silent)
  }

  /** The twin ignores the instruction to trim. */
  ghost function ReactUntrimmed(r: Rules, me: nat, m: Node, x: Input): (Node, Output) {
    if x.Trim? then (m, Silent) else React(r, me, m, x)
  }

  predicate SameOutput(snap: nat, o: Output, o0: Output) {
    o == o0 || (o.Appended? && o0.Appended? && SameReply(snap, o.reply, o0.reply))
  }

  lemma {:induction false} RunStartTrimmed(log: seq<Entry>, snap: nat, term: nat, i: nat)
    requires snap <= i < |log|
    ensures RunStart(log, snap, term, i) == Max(RunStart(log, 0, term, i), snap)
    decreases i
  {
    if i > snap && log[i].term == term {
      RunStartTrimmed(log, snap, term, i - 1);
    }
  }

  lemma CatchUpTwins(n: Node, m: Node, term: nat)
    requires Twins(n, m)
    ensures Twins(CatchUp(n, term), CatchUp(m, term))
  {
  }

  lemma AppendTwins(r: Rules, n: Node, m: Node, a: AppendArgs)
    requires Twins(n, m) && Allowed(n, Append(a))
    ensures var (n', v) := HandleAppend(r, n, a); var (m', v0) := HandleAppend(r, m, a);
            Twins(n', m') && SameReply(n.snap, v, v0)
  {
    if a.term >= n.term {
      CatchUpTwins(n, m, a.term);
      var n1, m1 := CatchUp(n, a.term), CatchUp(m, a.term);
      if a.prev < |n1.log| {
        RunStartTrimmed(n1.log, n1.snap, n1.log[a.prev].term, a.prev);
      }
      if Refusal(n1, a).None? {
        AcceptTwins(r, n1, m1, a);
      }
    }
  }

  lemma AcceptTwins(r: Rules, n: Node, m: Node, a: AppendArgs)
    requires Twins(n, m) && n.snap <= a.prev < |n.log| && !n.role.Leader?
    ensures Twins(Accept(r, n, a), Accept(r, m, a))
  {
  }

  lemma TallyTwins(r: Rules, n: Node, m: Node, term: nat, late: bool)
    requires Twins(n, m)
    ensures Twins(CountVote(r, n, term, late), CountVote(r, m, term, late))
  {
    var n', m' := CountVote(r, n, term, late), CountVote(r, m, term, late);
    if n'.role != n.role {
      forall p ensures SameAbove(n.commit, Get(n'.matchIndex, p), Get(m'.matchIndex, p)) {
        assert p in n'.matchIndex ==> n'.matchIndex[p] == n.snap;
        assert p in m'.matchIndex ==> m'.matchIndex[p] == 0;
      }
    }
  }

  lemma {:induction false} SearchTwins(nodes: nat, n: Node, m: Node, me: nat,
                                       a: map<nat, int>, b: map<nat, int>, i: int)
    requires n.log == m.log && n.term == m.term && n.commit == m.commit && i < |n.log|
    requires forall p :: SameAbove(n.commit, Get(a, p), Get(b, p))
    ensures CommitSearch(nodes, n, me, a, i) == CommitSearch(nodes, m, me, b, i)
    decreases i - n.commit
  {
    if i > n.commit {
      HoldersTwins(nodes, n.commit, me, a, b, i);
      if !Committable(nodes, n, me, a, i) {
        SearchTwins(nodes, n, m, me, a, b, i - 1);
      }
    }
  }

  lemma HoldersTwins(nodes: nat, c: int, me: nat, a: map<nat, int>, b: map<nat, int>, i: int)
    requires i > c && forall p :: SameAbove(c, Get(a, p), Get(b, p))
    ensures Holders(nodes, me, a, i) == Holders(nodes, me, b, i)
  {
    forall p: nat ensures Get(a, p) >= i <==> Get(b, p) >= i {
      assert SameAbove(c, Get(a, p), Get(b, p));
    }
  }

  lemma ResultTwins(nodes: nat, n: Node, m: Node, me: nat, server: nat, a: AppendArgs, v: AppendReply)
    requires Twins(n, m) && n.role.Leader? && n.commit < |n.log|
    ensures Twins(HandleAppendReply(nodes, n, me, server, a, v), HandleAppendReply(nodes, m, me, server, a, v))
  {
    if a.term == n.term && v.success {
      var n', m' := HandleAppendReply(nodes, n, me, server, a, v), HandleAppendReply(nodes, m, me, server, a, v);
      forall p ensures SameAbove(n.commit, Get(n'.matchIndex, p), Get(m'.matchIndex, p)) {
        assert SameAbove(n.commit, Get(n.matchIndex, p), Get(m.matchIndex, p));
      }
      SearchTwins(nodes, n, m, me, n'.matchIndex, m'.matchIndex, LastIndex(n.log));
      CommitSearchOk(nodes, n, me, n'.matchIndex, LastIndex(n.log));
      forall p ensures SameAbove(n'.commit, Get(n'.matchIndex, p), Get(m'.matchIndex, p)) {
        assert SameAbove(n.commit, Get(n'.matchIndex, p), Get(m'.matchIndex, p));
      }
    }
  }

  lemma ReactTwins(r: Rules, me: nat, n: Node, m: Node, x: Input)
    requires Twins(n, m) && Allowed(n, x)
    ensures var (n', o) := React(r, me, n, x); var (m', o0) := ReactUntrimmed(r, me, m, x);
            Twins(n', m') && SameOutput(n.snap, o, o0)
  {
    match x
    case Append(a) => AppendTwins(r, n, m, a);
    case Tally(term, late) => TallyTwins(r, n, m, term, late);
    case AppendResult(server, a, v) => ResultTwins(r.nodes, n, m, me, server, a, v);
    case VoteResult(term, v) => CatchUpTwins(n, m, v.term);
    case Vote(a) => CatchUpTwins(n, m, a.term);
    case _ =>
  }

  ghost predicate AllAllowed(r: Rules, me: nat, n: Node, xs: seq<Input>)
    decreases |xs|
  {
    xs == [] || (Allowed(n, xs[0]) && AllAllowed(r, me, React(r, me, n, xs[0]).0, xs[1..]))
  }

  /** Fed the inputs one after the other, the two nodes are twins after each and answer each alike. */
  ghost predicate RunAlike(r: Rules, me: nat, n: Node, m: Node, xs: seq<Input>)
    decreases |xs|
  {
    && Twins(n, m)
    && (xs == [] ||
        var (n', o) := React(r, me, n, xs[0]); var (m', o0) := ReactUntrimmed(r, me, m, xs[0]);
        SameOutput(n.snap, o, o0) && RunAlike(r, me, n', m', xs[1..]))
  }

  /** Compaction is a refinement, over any list of inputs and with trimming at any points in it. */
  lemma {:induction false} CompactionRefines(r: Rules, me: nat, n: Node, m: Node, xs: seq<Input>)
    requires Twins(n, m) && AllAllowed(r, me, n, xs)
    ensures RunAlike(r, me, n, m, xs)
    decreases |xs|
  {
    if xs != [] {
      ReactTwins(r, me, n, m, xs[0]);
      CompactionRefines(r, me, React(r, me, n, xs[0]).0, ReactUntrimmed(r, me, m, xs[0]).0, xs[1..]);
    }
  }
}
