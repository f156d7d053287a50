/** A majority that holds together gets its work done: as long as none of its members has trimmed its
    log, it can elect a leader and commit a command, with the other nodes down. */
module Progress {
  import opened Basics
  import opened Quorums
  import opened RaftNode
  import opened Cluster
  import opened Scenarios
  import opened Electable
  import opened Dates
  import BackOff

  // ---- one peer ----

  /** All entries are from before the term. */
  predicate Before(entries: seq<Entry>, term: nat) {
    forall i :: 0 <= i < |entries| ==> entries[i].term < term
  }

  /** Leader n has one entry of its term, the last, and node f none; nothing is trimmed. */
  predicate CanShare(n: Node, f: Node, p: nat) {
    && n.role.Leader? && Plain(n, n.term) && Plain(f, n.term) && (f.term == n.term ==> f.role.Follower?)
    && Before(f.log, n.term) && |n.log| >= 2 && n.log[|n.log| - 1].term == n.term
    && Before(n.log[..|n.log| - 1], n.term) && Get(n.nextIndex, p) < |n.log|
  }

  function Probe(n: Node, me: nat, p: nat): AppendArgs
    requires 1 <= Get(n.nextIndex, p) <= |n.log|
  {
    Request(n, me, Get(n.nextIndex, p) - 1, true)
  }

  /** What the leader makes of the answer to its next request. */
  function Heard(r: Rules, n: Node, f: Node, me: nat, p: nat): Node
    requires 1 <= Get(n.nextIndex, p) <= |n.log|
  {
    HandleAppendReply(r.nodes, n, me, p, Probe(n, me, p), HandleAppend(r, f, Probe(n, me, p)).1)
  }

  /** The leader knows that p has its whole log. Of other peers it knows what it did. */
  ghost predicate Told(nodes: nat, n: Node, n': Node, me: nat, p: nat) {
    && n' == n.(nextIndex := n'.nextIndex, matchIndex := n'.matchIndex, commit := n'.commit)
    && Get(n'.matchIndex, p) >= LastIndex(n.log)
    && (forall o: nat {:trigger Get(n'.matchIndex, o)} :: o != p ==> Get(n'.matchIndex, o) == Get(n.matchIndex, o))
    && (forall o: nat {:trigger Get(n'.nextIndex, o)} :: o != p ==> Get(n'.nextIndex, o) == Get(n.nextIndex, o))
    && (Enough(nodes, |Holders(nodes, me, n'.matchIndex, LastIndex(n.log))|) ==> n'.commit == LastIndex(n.log))
  }

  /** The last entries are the same. */
  predicate HasLast(n: Node, f: Node) {
    0 < |n.log| <= |f.log| && f.log[|n.log| - 1] == n.log[|n.log| - 1]
  }

  /** The answer that completes a majority for the last entry commits it. */
  lemma LastCommits(nodes: nat, n: Node, me: nat, p: nat, a: AppendArgs, v: AppendReply)
    requires a.term == n.term && v.success && |n.log| > 0 && n.log[|n.log| - 1].term == n.term
    ensures var n' := HandleAppendReply(nodes, n, me, p, a, v);
            Enough(nodes, |Holders(nodes, me, n'.matchIndex, LastIndex(n.log))|) ==> n'.commit == LastIndex(n.log)
  {
    var matchIndex := HandleAppendReply(nodes, n, me, p, a, v).matchIndex;
    if Enough(nodes, |Holders(nodes, me, matchIndex, LastIndex(n.log))|) {
      assert Committable(nodes, n, me, matchIndex, LastIndex(n.log));
    }
  }

  lemma SuccessTells(nodes: nat, n: Node, me: nat, p: nat, a: AppendArgs, v: AppendReply)
    requires a.term == n.term && v.success && |n.log| > 0 && n.log[|n.log| - 1].term == n.term
    requires a.prev + |a.entries| == LastIndex(n.log)
    ensures Told(nodes, n, HandleAppendReply(nodes, n, me, p, a, v), me, p)
  {
    LastCommits(nodes, n, me, p, a, v);
  }

  /** An entry of a new term cannot be in the log already, so it is put there. */
  lemma MergeBrings(log: seq<Entry>, prev: nat, entries: seq<Entry>, term: nat)
    requires prev < |log| && Before(log, term) && |entries| > 0 && entries[|entries| - 1].term == term
    ensures var g := Merge(log, prev, entries);
            |g| == prev + 1 + |entries| && g[|g| - 1] == entries[|entries| - 1]
  {
    var k := Matching(log, prev, entries);
    assert k > 0 ==> log[prev + 1 + (k - 1)].term == entries[k - 1].term;
  }

  lemma AcceptedLog(r: Rules, f: Node, a: AppendArgs)
    requires HandleAppend(r, f, a).1.success && (f.term == a.term ==> f.role.Follower?)
    ensures a.prev < |f.log| && HandleAppend(r, f, a).0.log == Merge(f.log, a.prev, a.entries)
  {
  }

  lemma BroughtLast(lead: seq<Entry>, log: seq<Entry>, prev: nat, term: nat)
    requires prev < |log| && prev < |lead| - 1 && Before(log, term) && lead[|lead| - 1].term == term
    ensures var g := Merge(log, prev, lead[prev + 1..]); |lead| == |g| && g[|lead| - 1] == lead[|lead| - 1]
  {
    MergeBrings(log, prev, lead[prev + 1..], term);
  }

  lemma AcceptedHas(r: Rules, n: Node, f: Node, me: nat, p: nat)
    requires CanShare(n, f, p) && 1 <= Get(n.nextIndex, p) && HandleAppend(r, f, Probe(n, me, p)).1.success
    ensures HasLast(n, HandleAppend(r, f, Probe(n, me, p)).0)
  {
    AcceptedLog(r, f, Probe(n, me, p));
    BroughtLast(n.log, f.log, Get(n.nextIndex, p) - 1, n.term);
  }

  /** A probe at the first entry is never refused. */
  lemma FirstAccepted(r: Rules, n: Node, f: Node, me: nat, p: nat)
    requires CanShare(n, f, p) && Get(n.nextIndex, p) == 1
    ensures HandleAppend(r, f, Probe(n, me, p)).1.success
  {
  }

  lemma ProbeLowers(n: Node, f: Node, me: nat, p: nat)
    requires CanShare(n, f, p) && 1 <= Get(n.nextIndex, p) && BackOff.Refused(n, f, me, Get(n.nextIndex, p)).Some?
    ensures var next := Get(n.nextIndex, p);
            0 <= BackOff.Moved(n, next, BackOff.Refused(n, f, me, next).value) < next
  {
    var next := Get(n.nextIndex, p);
    assert forall i :: 0 <= i < |n.log| - 1 ==> n.log[i] == n.log[..|n.log| - 1][i];
    if BackOff.Missing(f, next) {
      BackOff.MissingLowers(n, f, me, next);
    } else {
      BackOff.ConflictLowersExactly(n, f, me, next);
    }
  }

  /** A refusal lowers the next index and leaves all else ready for the next attempt. */
  lemma RefusedLowers(r: Rules, n: Node, f: Node, me: nat, p: nat)
    requires CanShare(n, f, p) && 1 <= Get(n.nextIndex, p) && !HandleAppend(r, f, Probe(n, me, p)).1.success
    ensures var (n', f') := (Heard(r, n, f, me, p), HandleAppend(r, f, Probe(n, me, p)).0);
            && n' == n.(nextIndex := n.nextIndex[p := Get(n'.nextIndex, p)])
            && 0 <= Get(n'.nextIndex, p) < Get(n.nextIndex, p) && CanShare(n', f', p)
  {
    ProbeLowers(n, f, me, p);
  }

  // ---- in a run ----

  lemma AnswerOne(r: Rules, es: seq<Event>, n: Node, c: nat, p: nat, a: AppendArgs, v: AppendReply)
    returns (es': seq<Event>)
    requires CodeRun(r, es) && c < r.nodes && a.leader == c && AppendAnswer(p, a, v, 0) in Run(r, es).msgs
    requires Run(r, es).nodes[c] == n
    ensures Longer(r, es, es')
    ensures Run(r, es').nodes == Run(r, es).nodes[c := HandleAppendReply(r.nodes, n, c, p, a, v)]
  {
    es' := Answer(r, es, AppendAnswer(p, a, v, 0));
  }

  lemma AskOne(r: Rules, es: seq<Event>, n: Node, f: Node, c: nat, p: nat) returns (es': seq<Event>)
    requires CodeRun(r, es) && c < r.nodes && p < r.nodes && c != p
    requires Run(r, es).nodes[c] == n && Run(r, es).nodes[p] == f
    requires n.role.Leader? && n.snap < Get(n.nextIndex, p) <= |n.log|
    ensures Longer(r, es, es')
    ensures Run(r, es').nodes == Run(r, es).nodes[p := HandleAppend(r, f, Probe(n, c, p)).0]
    ensures AppendAnswer(p, Probe(n, c, p), HandleAppend(r, f, Probe(n, c, p)).1, 0) in Run(r, es').msgs
  {
    assert Probe(n, c, p) == Request(Run(r, es).nodes[c], c, Get(Run(r, es).nodes[c].nextIndex, p) - 1, true);
    es' := Replicate(r, es, c, p);
  }

  /** One request to p, and its answer. */
  lemma Exchange(r: Rules, es: seq<Event>, n: Node, f: Node, c: nat, p: nat) returns (es': seq<Event>)
    requires CodeRun(r, es) && c < r.nodes && p < r.nodes && c != p
    requires Run(r, es).nodes[c] == n && Run(r, es).nodes[p] == f
    requires n.role.Leader? && n.snap < Get(n.nextIndex, p) <= |n.log|
    ensures Longer(r, es, es')
    ensures Run(r, es').nodes
            == Run(r, es).nodes[p := HandleAppend(r, f, Probe(n, c, p)).0][c := Heard(r, n, f, c, p)]
  {
    var e1 := AskOne(r, es, n, f, c, p);
    es' := AnswerOne(r, e1, n, c, p, Probe(n, c, p), HandleAppend(r, f, Probe(n, c, p)).1);
  }

  /** Nothing but c and p has changed; c is told that p has its log, and p has its last entry. */
  ghost predicate Shared(nodes: nat, s: Cluster, s': Cluster, c: nat, p: nat) {
    && c < |s.nodes| && p < |s.nodes| && |s'.nodes| == |s.nodes|
    && s'.nodes == s.nodes[p := s'.nodes[p]][c := s'.nodes[c]]
    && Told(nodes, s.nodes[c], s'.nodes[c], c, p) && HasLast(s.nodes[c], s'.nodes[p])
  }

  /** The leader has got p to follow, or moved its next index. */
  ghost predicate Retries(s: Cluster, s': Cluster, c: nat, p: nat) {
    && c < |s.nodes| && p < |s.nodes| && c != p && |s'.nodes| == |s.nodes|
    && s'.nodes == s.nodes[p := s'.nodes[p]][c := s'.nodes[c]]
    && NextOnly(s.nodes[c], s'.nodes[c], p) && CanShare(s'.nodes[c], s'.nodes[p], p)
    && Rank(Get(s'.nodes[c].nextIndex, p)) < Rank(Get(s.nodes[c].nextIndex, p))
  }

  predicate NextOnly(n: Node, n': Node, p: nat) {
    n' == n.(nextIndex := n.nextIndex[p := Get(n'.nextIndex, p)])
  }

  /** An unknown peer comes last but one, and a probe at the first entry last. */
  function Rank(next: int): nat {
    if next <= 0 then 1 else if next == 1 then 0 else next
  }

  lemma SharedLater(nodes: nat, s: Cluster, s1: Cluster, s': Cluster, c: nat, p: nat)
    requires Retries(s, s1, c, p) && Shared(nodes, s1, s', c, p)
    ensures Shared(nodes, s, s', c, p)
  {
    var n, n1, n' := s.nodes[c], s1.nodes[c], s'.nodes[c];
    forall o: nat | o != p ensures Get(n'.nextIndex, o) == Get(n.nextIndex, o) {
      assert Get(n'.nextIndex, o) == Get(n1.nextIndex, o);
    }
  }

  lemma GreetedReady(n: Node, f: Node, p: nat)
    requires CanShare(n, f, p) && Get(n.nextIndex, p) <= 0
    ensures CanShare(Aware(n, p), Greeted(f, n.term), p) && NextOnly(n, Aware(n, p), p)
    ensures Get(Aware(n, p).nextIndex, p) == 1
  {
  }

  lemma RetriesWith(s: Cluster, s': Cluster, c: nat, p: nat, n': Node, f': Node)
    requires c < |s.nodes| && p < |s.nodes| && c != p && s'.nodes == s.nodes[p := f'][c := n']
    requires NextOnly(s.nodes[c], n', p) && CanShare(n', f', p)
    requires Rank(Get(n'.nextIndex, p)) < Rank(Get(s.nodes[c].nextIndex, p))
    ensures Retries(s, s', c, p)
  {
  }

  lemma Introduce(r: Rules, es: seq<Event>, c: nat, p: nat) returns (es': seq<Event>)
    requires CodeRun(r, es) && c < r.nodes && p < r.nodes && c != p
    requires CanShare(Run(r, es).nodes[c], Run(r, es).nodes[p], p)
    requires Get(Run(r, es).nodes[c].nextIndex, p) <= 0
    ensures Longer(r, es, es') && Retries(Run(r, es), Run(r, es'), c, p)
  {
    var n, f := Run(r, es).nodes[c], Run(r, es).nodes[p];
    es' := Greet(r, es, c, p);
    GreetedReady(n, f, p);
    RetriesWith(Run(r, es), Run(r, es'), c, p, Aware(n, p), Greeted(f, n.term));
  }

  lemma SharedWith(nodes: nat, s: Cluster, s': Cluster, c: nat, p: nat, n': Node, f': Node)
    requires c < |s.nodes| && p < |s.nodes| && c != p && s'.nodes == s.nodes[p := f'][c := n']
    requires Told(nodes, s.nodes[c], n', c, p) && HasLast(s.nodes[c], f')
    ensures Shared(nodes, s, s', c, p)
  {
  }

  lemma RefusedRetries(r: Rules, n: Node, f: Node, me: nat, p: nat)
    requires CanShare(n, f, p) && 1 <= Get(n.nextIndex, p) && !HandleAppend(r, f, Probe(n, me, p)).1.success
    ensures var (n', f') := (Heard(r, n, f, me, p), HandleAppend(r, f, Probe(n, me, p)).0);
            NextOnly(n, n', p) && CanShare(n', f', p) && Rank(Get(n'.nextIndex, p)) < Rank(Get(n.nextIndex, p))
  {
    RefusedLowers(r, n, f, me, p);
    if Get(n.nextIndex, p) == 1 {
      FirstAccepted(r, n, f, me, p);
    }
  }

  lemma Heed(r: Rules, s: Cluster, s': Cluster, c: nat, p: nat)
    requires c < |s.nodes| && p < |s.nodes| && c != p && CanShare(s.nodes[c], s.nodes[p], p)
    requires 1 <= Get(s.nodes[c].nextIndex, p)
    requires var (n, f) := (s.nodes[c], s.nodes[p]);
             s'.nodes == s.nodes[p := HandleAppend(r, f, Probe(n, c, p)).0][c := Heard(r, n, f, c, p)]
    ensures Shared(r.nodes, s, s', c, p) || Retries(s, s', c, p)
  {
    var n, f := s.nodes[c], s.nodes[p];
    var n', f' := Heard(r, n, f, c, p), HandleAppend(r, f, Probe(n, c, p)).0;
    if HandleAppend(r, f, Probe(n, c, p)).1.success {
      SuccessTells(r.nodes, n, c, p, Probe(n, c, p), HandleAppend(r, f, Probe(n, c, p)).1);
      AcceptedHas(r, n, f, c, p);
      SharedWith(r.nodes, s, s', c, p, n', f');
    } else {
      RefusedRetries(r, n, f, c, p);
      RetriesWith(s, s', c, p, n', f');
    }
  }

  /** However far its log is off, a peer can be brought up to date. */
  lemma {:induction false} Share(r: Rules, es: seq<Event>, c: nat, p: nat) returns (es': seq<Event>)
    requires CodeRun(r, es) && c < r.nodes && p < r.nodes && c != p
    requires CanShare(Run(r, es).nodes[c], Run(r, es).nodes[p], p)
    ensures Longer(r, es, es') && Shared(r.nodes, Run(r, es), Run(r, es'), c, p)
    decreases Rank(Get(Run(r, es).nodes[c].nextIndex, p))
  {
    if Get(Run(r, es).nodes[c].nextIndex, p) <= 0 {
      es' := Introduce(r, es, c, p);
    } else {
      es' := Exchange(r, es, Run(r, es).nodes[c], Run(r, es).nodes[p], c, p);
      Heed(r, Run(r, es), Run(r, es'), c, p);
    }
    if !Shared(r.nodes, Run(r, es), Run(r, es'), c, p) {
      var e1 := es';
      es' := Share(r, e1, c, p);
      SharedLater(r.nodes, Run(r, es), Run(r, e1), Run(r, es'), c, p);
    }
  }

  // ---- all supporters ----

  predicate Distinct(ps: seq<nat>) { forall i, j :: 0 <= i < j < |ps| ==> ps[i] != ps[j] }

  predicate CanShareAll(s: Cluster, c: nat, ps: seq<nat>) {
    && Distinct(ps) && c < |s.nodes|
    && forall i :: 0 <= i < |ps| ==> ps[i] < |s.nodes| && ps[i] != c && CanShare(s.nodes[c], s.nodes[ps[i]], ps[i])
  }

  ghost predicate ToldAll(nodes: nat, n: Node, n': Node, me: nat, ps: seq<nat>) {
    && n' == n.(nextIndex := n'.nextIndex, matchIndex := n'.matchIndex, commit := n'.commit)
    && (forall o: nat {:trigger Get(n'.matchIndex, o)} ::
          if o in ps then Get(n'.matchIndex, o) >= LastIndex(n.log) else Get(n'.matchIndex, o) == Get(n.matchIndex, o))
    && (Enough(nodes, |Holders(nodes, me, n'.matchIndex, LastIndex(n.log))|) ==> n'.commit == LastIndex(n.log))
  }

  predicate PeerDone(s: Cluster, s': Cluster, c: nat, ps: seq<nat>, j: nat)
    requires c < |s.nodes| == |s'.nodes| && j < |s.nodes|
  {
    if j in ps then HasLast(s.nodes[c], s'.nodes[j]) else s'.nodes[j] == s.nodes[j]
  }

  ghost predicate SharedAll(nodes: nat, s: Cluster, s': Cluster, c: nat, ps: seq<nat>) {
    && c < |s.nodes| == |s'.nodes| && ToldAll(nodes, s.nodes[c], s'.nodes[c], c, ps)
    && forall j {:trigger PeerDone(s, s', c, ps, j)} :: 0 <= j < |s.nodes| && j != c ==> PeerDone(s, s', c, ps, j)
  }

  lemma RestShares(nodes: nat, s: Cluster, s1: Cluster, c: nat, ps: seq<nat>)
    requires |ps| > 0 && CanShareAll(s, c, ps) && Shared(nodes, s, s1, c, ps[0])
    ensures CanShareAll(s1, c, ps[1..])
  {
    var qs := ps[1..];
    forall i | 0 <= i < |qs| ensures qs[i] < |s.nodes| && qs[i] != c && CanShare(s1.nodes[c], s1.nodes[qs[i]], qs[i]) {
      assert qs[i] == ps[i + 1] && CanShare(s.nodes[c], s.nodes[ps[i + 1]], ps[i + 1]);
      assert Get(s1.nodes[c].nextIndex, qs[i]) == Get(s.nodes[c].nextIndex, qs[i]);
    }
  }

  lemma OneShared(nodes: nat, s: Cluster, s': Cluster, c: nat, p: nat)
    requires c != p && Shared(nodes, s, s', c, p)
    ensures SharedAll(nodes, s, s', c, [p])
  {
  }

  lemma ToldOneMore(nodes: nat, n: Node, n1: Node, n': Node, me: nat, p: nat, qs: seq<nat>)
    requires p !in qs && Told(nodes, n, n1, me, p) && ToldAll(nodes, n1, n', me, qs)
    ensures ToldAll(nodes, n, n', me, [p] + qs)
  {
    forall o: nat
      ensures if o in [p] + qs then Get(n'.matchIndex, o) >= LastIndex(n.log)
              else Get(n'.matchIndex, o) == Get(n.matchIndex, o)
    {
      assert o !in qs ==> Get(n'.matchIndex, o) == Get(n1.matchIndex, o);
      assert o in [p] + qs <==> o == p || o in qs;
    }
  }

  lemma AllShared(nodes: nat, s: Cluster, s1: Cluster, s': Cluster, c: nat, p: nat, qs: seq<nat>)
    requires p !in qs && c != p && Shared(nodes, s, s1, c, p) && SharedAll(nodes, s1, s', c, qs)
    ensures SharedAll(nodes, s, s', c, [p] + qs)
  {
    ToldOneMore(nodes, s.nodes[c], s1.nodes[c], s'.nodes[c], c, p, qs);
    forall j | 0 <= j < |s.nodes| && j != c ensures PeerDone(s, s', c, [p] + qs, j) {
      assert PeerDone(s1, s', c, qs, j);
      assert j in [p] + qs <==> j == p || j in qs;
    }
  }

  lemma {:induction false} ShareAll(r: Rules, es: seq<Event>, c: nat, ps: seq<nat>) returns (es': seq<Event>)
    requires |ps| > 0 && CodeRun(r, es) && CanShareAll(Run(r, es), c, ps)
    ensures Longer(r, es, es') && SharedAll(r.nodes, Run(r, es), Run(r, es'), c, ps)
    decreases |ps|
  {
    var e1 := Share(r, es, c, ps[0]);
    if |ps| == 1 {
      es' := e1;
      assert ps == [ps[0]];
      OneShared(r.nodes, Run(r, es), Run(r, es'), c, ps[0]);
    } else {
      RestShares(r.nodes, Run(r, es), Run(r, e1), c, ps);
      es' := ShareAll(r, e1, c, ps[1..]);
      assert ps == [ps[0]] + ps[1..] && ps[0] !in ps[1..];
      AllShared(r.nodes, Run(r, es), Run(r, e1), Run(r, es'), c, ps[0], ps[1..]);
    }
  }

  /** Half of the others are enough. */
  lemma AllCommit(nodes: nat, s: Cluster, s': Cluster, c: nat, ps: seq<nat>)
    requires |s.nodes| == nodes && CanShareAll(s, c, ps) && SharedAll(nodes, s, s', c, ps) && |ps| == (nodes - 1) / 2
    ensures s'.nodes[c].commit == LastIndex(s.nodes[c].log)
  {
    var h := Holders(nodes, c, s'.nodes[c].matchIndex, LastIndex(s.nodes[c].log));
    forall p | p in Ids(ps) + {c} ensures p in h {
      assert p != c ==> Get(s'.nodes[c].matchIndex, p) >= LastIndex(s.nodes[c].log);
    }
    IdsSize(ps);
    assert c !in Ids(ps) && |Ids(ps) + {c}| == |ps| + 1;
    SubsetSize(Ids(ps) + {c}, h);
  }

  // ---- a majority commits ----

  /** No member of the group has trimmed its log. */
  predicate Untrimmed(s: Cluster, q: set<nat>)
    requires Members(|s.nodes|, q)
  {
    forall p :: p in q ==> s.nodes[p].snap == 0
  }

  /** In state s' node c leads a term that no node had reached in state s. */
  ghost predicate NewTerm(s: Cluster, s': Cluster, q: set<nat>, c: nat) {
    && Members(|s.nodes|, q) && Later(s, s', q) && c in q && NewlyLeads(s', c)
    && forall j :: 0 <= j < |s.nodes| ==> s.nodes[j].term < s'.nodes[c].term
  }

  lemma PeerReady(s: Cluster, s1: Cluster, q: set<nat>, c: nat, x: Op, p: nat)
    requires DatedIn(s) && NewTerm(s, s1, q, c) && Untrimmed(s, q) && p in q && p != c
    ensures CanShare(Submit(s1.nodes[c], x), s1.nodes[p], p)
  {
    var n := Submit(s1.nodes[c], x);
    assert Dated(s.nodes[c]) && Dated(s.nodes[p]);
    assert Onward(s.nodes[c], s1.nodes[c]) && Onward(s.nodes[p], s1.nodes[p]);
    assert n.log[..|n.log| - 1] == s.nodes[c].log;
    assert Get(n.nextIndex, p) == Get(s1.nodes[c].nextIndex, p);
  }

  lemma AllReady(s: Cluster, s1: Cluster, s2: Cluster, q: set<nat>, c: nat, x: Op, ps: seq<nat>)
    requires DatedIn(s) && NewTerm(s, s1, q, c) && Untrimmed(s, q) && Distinct(ps)
    requires s2.nodes == s1.nodes[c := Submit(s1.nodes[c], x)]
    requires forall i :: 0 <= i < |ps| ==> ps[i] in q && ps[i] != c
    ensures CanShareAll(s2, c, ps)
  {
    forall i | 0 <= i < |ps| ensures CanShare(s2.nodes[c], s2.nodes[ps[i]], ps[i]) {
      PeerReady(s, s1, q, c, x, ps[i]);
    }
  }

  /** Node p has the entry at the index. */
  predicate HasAt(n: Node, index: nat, e: Entry) { index < |n.log| && n.log[index] == e }

  /** What has come of a command: node c leads the group in a term that is new to all, its log is what
      it was and the command after it, all of it is committed, and the holders have the entry. */
  ghost predicate Committed(s: Cluster, s': Cluster, q: set<nat>, c: nat, term: nat, x: Op, holders: set<nat>) {
    && |s'.nodes| == |s.nodes| && Members(|s.nodes|, q) && c in q && holders <= q && IsLeader(s', c, term)
    && (forall j :: 0 <= j < |s.nodes| ==> s.nodes[j].term < term)
    && (forall j :: 0 <= j < |s.nodes| && j !in q ==> s'.nodes[j] == s.nodes[j])
    && s'.nodes[c].log == s.nodes[c].log + [Entry(term, Some(x))] && s'.nodes[c].commit == |s.nodes[c].log|
    && forall p :: p in holders ==> HasAt(s'.nodes[p], |s.nodes[c].log|, Entry(term, Some(x)))
  }

  lemma OthersStill(nodes: nat, s: Cluster, s1: Cluster, s2: Cluster, s': Cluster, q: set<nat>, c: nat, ps: seq<nat>)
    requires Later(s, s1, q) && c in q && c < |s1.nodes| == |s2.nodes| && s2.nodes == s1.nodes[c := s2.nodes[c]]
    requires SharedAll(nodes, s2, s', c, ps) && forall i :: 0 <= i < |ps| ==> ps[i] in q
    ensures |s'.nodes| == |s.nodes| && forall j :: 0 <= j < |s.nodes| && j !in q ==> s'.nodes[j] == s.nodes[j]
  {
    forall j | 0 <= j < |s.nodes| && j !in q ensures s'.nodes[j] == s.nodes[j] {
      assert PeerDone(s2, s', c, ps, j) && j !in ps && s2.nodes[j] == s1.nodes[j];
    }
  }

  lemma HoldersHave(nodes: nat, s: Cluster, s': Cluster, c: nat, ps: seq<nat>)
    requires SharedAll(nodes, s, s', c, ps) && |s.nodes[c].log| > 0
    requires forall i :: 0 <= i < |ps| ==> ps[i] < |s.nodes| && ps[i] != c
    ensures forall p :: p in Ids(ps) + {c} ==>
              p < |s'.nodes| && HasAt(s'.nodes[p], LastIndex(s.nodes[c].log), s.nodes[c].log[|s.nodes[c].log| - 1])
  {
    forall p | p in Ids(ps)
      ensures p < |s'.nodes| && HasAt(s'.nodes[p], LastIndex(s.nodes[c].log), s.nodes[c].log[|s.nodes[c].log| - 1])
    {
      assert p in ps && PeerDone(s, s', c, ps, p);
    }
  }

  lemma AllDone(nodes: nat, s: Cluster, s1: Cluster, s2: Cluster, s': Cluster, q: set<nat>, c: nat, x: Op, ps: seq<nat>)
    requires |s.nodes| == nodes && NewTerm(s, s1, q, c) && s2.nodes == s1.nodes[c := Submit(s1.nodes[c], x)]
    requires forall i :: 0 <= i < |ps| ==> ps[i] in q && ps[i] != c
    requires SharedAll(nodes, s2, s', c, ps) && s'.nodes[c].commit == LastIndex(s2.nodes[c].log)
    ensures Committed(s, s', q, c, s1.nodes[c].term, x, Ids(ps) + {c})
  {
    assert Onward(s.nodes[c], s1.nodes[c]);
    assert s2.nodes[c].log == s.nodes[c].log + [Entry(s1.nodes[c].term, Some(x))];
    OthersStill(nodes, s, s1, s2, s', q, c, ps);
    HoldersHave(nodes, s2, s', c, ps);
  }

  lemma CommitWith(r: Rules, es: seq<Event>, e1: seq<Event>, q: set<nat>, c: nat, x: Op, ps: seq<nat>)
    returns (es': seq<Event>)
    requires Longer(r, es, e1) && NewTerm(Run(r, es), Run(r, e1), q, c) && Untrimmed(Run(r, es), q)
    requires r.nodes >= 3 && Distinct(ps) && |ps| == (r.nodes - 1) / 2
    requires forall i :: 0 <= i < |ps| ==> ps[i] in q && ps[i] != c
    ensures Longer(r, es, es')
    ensures Committed(Run(r, es), Run(r, es'), q, c, Run(r, e1).nodes[c].term, x, Ids(ps) + {c})
  {
    RunDated(r, es);
    var e2 := Command(r, e1, c, x);
    AllReady(Run(r, es), Run(r, e1), Run(r, e2), q, c, x, ps);
    es' := ShareAll(r, e2, c, ps);
    AllCommit(r.nodes, Run(r, e2), Run(r, es'), c, ps);
    AllDone(r.nodes, Run(r, es), Run(r, e1), Run(r, e2), Run(r, es'), q, c, x, ps);
  }

  /** With three nodes or more, under every variant of the rules, from every run of the code: a majority
      that has trimmed nothing, and of which not all lead, can elect a member and commit any command,
      while the other nodes do nothing. The entry is then held by a majority. */
  lemma MajorityCommits(r: Rules, es: seq<Event>, q: set<nat>, x: Op)
    returns (es': seq<Event>, c: nat, term: nat, holders: set<nat>)
    requires r.nodes >= 3 && CodeRun(r, es) && IsQuorum(r.nodes, q)
    requires Challenger(Run(r, es), q) && Untrimmed(Run(r, es), q)
    ensures Longer(r, es, es') && IsQuorum(r.nodes, holders)
    ensures Committed(Run(r, es), Run(r, es'), q, c, term, x, holders)
  {
    var e1;
    e1, c, term := ChallengerWins(r, es, q);
    assert |q - {c}| == |q| - 1;
    var ps := Pick(q - {c}, (r.nodes - 1) / 2);
    es' := CommitWith(r, es, e1, q, c, x, ps);
    holders := Ids(ps) + {c};
    IdsSize(ps);
    assert c !in Ids(ps) && |holders| == |ps| + 1;
  }
}
