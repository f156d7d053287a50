/** Votes are not only safe, they are to be had: the comparison of logs in a vote request orders all
    logs, so that any majority can elect one of its members, in every run. */
module Electable {
  import opened Basics
  import opened Quorums
  import opened RaftNode
  import opened Cluster
  import opened Scenarios

  // ---- the order of logs ----

  /** A log is as good as another if its last term is later, or the same and it is no shorter. */
  predicate AtLeast(x: seq<Entry>, y: seq<Entry>) {
    LastTerm(x) > LastTerm(y) || (LastTerm(x) == LastTerm(y) && |x| >= |y|)
  }

  /** Whoever stands with log x is granted the vote of any node with log y that is not ahead of it,
      whatever else the two nodes hold. */
  ghost predicate WinsVote(x: seq<Entry>, y: seq<Entry>) {
    forall n: Node, v: Node, c: nat :: n.log == x && v.log == y && v.term <= n.term ==>
      HandleVote(v, StartElection(n, c).1).1.granted
  }

  lemma VoteOrder(x: seq<Entry>, y: seq<Entry>)
    ensures WinsVote(x, y) <==> AtLeast(x, y)
  {
    if WinsVote(x, y) {
      var n, v := NewNode().(log := x), NewNode().(log := y);
      assert HandleVote(v, StartElection(n, 0).1).1.granted;
    }
  }

  /** When a vote is granted: in a new term, or in the current one to the node that has it or if nobody
      has, and only to a log as good as the voter's. The vote is then saved; the answer names the voter's
      term. */
  lemma GrantedExactly(n: Node, a: VoteArgs)
    ensures var (n', v) := HandleVote(n, a);
            && (v.granted <==>
                  && (a.term > n.term || (a.term == n.term && (n.vote == -1 || n.vote == a.candidate)))
                  && (a.lastTerm > LastTerm(n.log) || (a.lastTerm == LastTerm(n.log) && a.lastIndex >= |n.log| - 1)))
            && (v.granted ==> n'.vote == n'.saved.vote == a.candidate && n'.saved.term == n'.term == a.term)
            && (v.granted ==> n'.role.Follower?) && (a.term <= n.term && !v.granted ==> n' == n)
            && v.term == n'.term == (if a.term > n.term then a.term else n.term)
            && n'.log == n.log && n'.commit == n.commit
  {
  }

  /** Of any two logs, one wins the vote of the other. */
  lemma VotesTotal(x: seq<Entry>, y: seq<Entry>)
    ensures WinsVote(x, y) || WinsVote(y, x)
  {
    VoteOrder(x, y);
    VoteOrder(y, x);
  }

  lemma VotesTransitive(x: seq<Entry>, y: seq<Entry>, z: seq<Entry>)
    requires WinsVote(x, y) && WinsVote(y, z)
    ensures WinsVote(x, z)
  {
    VoteOrder(x, y);
    VoteOrder(y, z);
    VoteOrder(x, z);
  }

  // ---- the best log of a group ----

  ghost predicate IsBest(s: Cluster, q: set<nat>, c: nat)
    requires Members(|s.nodes|, q)
  {
    c in q && forall p :: p in q ==> AtLeast(s.nodes[c].log, s.nodes[p].log)
  }

  lemma {:induction false} BestExists(s: Cluster, q: set<nat>) returns (c: nat)
    requires Members(|s.nodes|, q) && q != {}
    ensures IsBest(s, q, c)
    decreases |q|
  {
    var p :| p in q;
    var rest := q - {p};
    if rest == {} {
      c := p;
      assert q == {p};
    } else {
      var d := BestExists(s, rest);
      c := if AtLeast(s.nodes[d].log, s.nodes[p].log) then d else p;
      forall o | o in q ensures AtLeast(s.nodes[c].log, s.nodes[o].log) {
        assert o == p || o in rest;
      }
    }
  }

  /** In every run, in every group of nodes, there is one whose next request for votes is granted by
      all others of the group that are not ahead of it. */
  lemma SomeoneIsGranted(r: Rules, events: seq<Event>, q: set<nat>) returns (c: nat)
    requires Members(r.nodes, q) && q != {}
    ensures c in q
    ensures var s := Run(r, events);
            forall p :: p in q && s.nodes[p].term <= s.nodes[c].term ==>
              HandleVote(s.nodes[p], StartElection(s.nodes[c], c).1).1.granted
  {
    var s := Run(r, events);
    c := BestExists(s, q);
    forall p | p in q && s.nodes[p].term <= s.nodes[c].term
      ensures HandleVote(s.nodes[p], StartElection(s.nodes[c], c).1).1.granted
    {
      VoteOrder(s.nodes[c].log, s.nodes[p].log);
    }
  }

  // ---- a majority elects ----

  /** Only members of the group have acted. Logs are as they were, trimmed no further, and terms no
      lower. */
  predicate Later(s: Cluster, s': Cluster, q: set<nat>) {
    && Sized(s') && |s'.nodes| == |s.nodes|
    && (forall j :: 0 <= j < |s.nodes| && j !in q ==> s'.nodes[j] == s.nodes[j])
    && forall j :: 0 <= j < |s.nodes| ==> Onward(s.nodes[j], s'.nodes[j])
  }

  predicate Onward(n: Node, n': Node) { n'.log == n.log && n'.snap == n.snap && n.term <= n'.term }

  lemma TimeOut(r: Rules, es: seq<Event>, c: nat) returns (es': seq<Event>)
    requires CodeRun(r, es) && c < r.nodes && !Run(r, es).nodes[c].role.Leader?
    ensures Longer(r, es, es') && Run(r, es') == ApplyTimeout(Run(r, es), c)
  {
    es' := Do(r, es, Timeout(c));
  }

  /** A node that does not lead times out until it has reached the term. */
  lemma {:induction false} RaiseTo(r: Rules, es: seq<Event>, c: nat, term: nat, q: set<nat>) returns (es': seq<Event>)
    requires c in q && CodeRun(r, es) && c < r.nodes && !Run(r, es).nodes[c].role.Leader?
    ensures var (s, s') := (Run(r, es), Run(r, es'));
            && Longer(r, es, es') && Later(s, s', q) && s'.nodes == s.nodes[c := s'.nodes[c]]
            && s'.nodes[c].term >= term && !s'.nodes[c].role.Leader?
    decreases term - Run(r, es).nodes[c].term
  {
    if Run(r, es).nodes[c].term >= term {
      es' := es;
    } else {
      var e1 := TimeOut(r, es, c);
      es' := RaiseTo(r, e1, c, term, q);
    }
  }

  /** Node p, not behind c, stands for election and asks c, which leaves office for a higher term. */
  lemma Unseat(r: Rules, es: seq<Event>, p: nat, c: nat, q: set<nat>) returns (es': seq<Event>)
    requires p in q && c in q && CodeRun(r, es) && p < r.nodes && c < r.nodes && p != c
    requires !Run(r, es).nodes[p].role.Leader? && Run(r, es).nodes[c].term <= Run(r, es).nodes[p].term
    ensures Longer(r, es, es') && Later(Run(r, es), Run(r, es'), q) && !Run(r, es').nodes[c].role.Leader?
  {
    var s := Run(r, es);
    var e1 := TimeOut(r, es, p);
    es' := AskVote(r, e1, c, StartElection(s.nodes[p], p).1);
    Unseated(s.nodes[c], StartElection(s.nodes[p], p).1);
  }

  lemma AskVote(r: Rules, es: seq<Event>, c: nat, a: VoteArgs) returns (es': seq<Event>)
    requires CodeRun(r, es) && c < r.nodes && VoteRequest(a) in Run(r, es).msgs && c != a.candidate
    ensures Longer(r, es, es') && Run(r, es') == ApplyVote(Run(r, es), c, a)
  {
    es' := Do(r, es, DeliverVote(c, a));
  }

  lemma Unseated(n: Node, a: VoteArgs)
    requires a.term > n.term
    ensures var n' := HandleVote(n, a).0; n'.role.Follower? && Onward(n, n') && n'.term == a.term
  {
  }

  /** The first k members of a set, as a list. */
  lemma {:induction false} Pick(q: set<nat>, k: nat) returns (ps: seq<nat>)
    requires k <= |q|
    ensures |ps| == k && (forall i :: 0 <= i < k ==> ps[i] in q)
    ensures forall i, j :: 0 <= i < j < k ==> ps[i] != ps[j]
    decreases k
  {
    if k == 0 {
      ps := [];
    } else {
      var p :| p in q;
      var rest := Pick(q - {p}, k - 1);
      ps := rest + [p];
    }
  }

  lemma {:induction false} TermBound(nodes: seq<Node>) returns (t: nat)
    ensures forall j :: 0 <= j < |nodes| ==> nodes[j].term <= t
    decreases |nodes|
  {
    if nodes == [] {
      t := 0;
    } else {
      var k := |nodes| - 1;
      t := TermBound(nodes[..k]);
      assert forall j :: 0 <= j < k ==> nodes[j] == nodes[..k][j];
      t := Max(t, nodes[k].term);
    }
  }

  lemma BestCanWin(r: Rules, s: Cluster, s': Cluster, q: set<nat>, c: nat, ps: seq<nat>)
    requires Members(r.nodes, q) && |s.nodes| == r.nodes >= 3 && IsBest(s, q, c) && Later(s, s', q)
    requires !s'.nodes[c].role.Leader? && |ps| == (r.nodes - 1) / 2
    requires forall i :: 0 <= i < |ps| ==> ps[i] in q && ps[i] != c && s'.nodes[ps[i]].term <= s'.nodes[c].term
    requires forall i, j :: 0 <= i < j < |ps| ==> ps[i] != ps[j]
    ensures CanWin(r, s', c, ps)
  {
    forall i | 0 <= i < |ps| ensures Behind(s'.nodes[ps[i]], s'.nodes[c]) {
      assert AtLeast(s.nodes[c].log, s.nodes[ps[i]].log);
    }
  }

  /** A majority has supporters enough for its best member. */
  lemma BestHasSupport(r: Rules, s: Cluster, s': Cluster, q: set<nat>, c: nat) returns (ps: seq<nat>)
    requires IsQuorum(r.nodes, q) && |s.nodes| == r.nodes >= 3 && IsBest(s, q, c) && Later(s, s', q)
    requires !s'.nodes[c].role.Leader? && forall j :: 0 <= j < r.nodes ==> s'.nodes[j].term <= s'.nodes[c].term
    ensures CanWin(r, s', c, ps) && forall i :: 0 <= i < |ps| ==> ps[i] in q
  {
    assert |q - {c}| == |q| - 1;
    ps := Pick(q - {c}, (r.nodes - 1) / 2);
    BestCanWin(r, s, s', q, c, ps);
  }

  /** The best of the group is made to leave office if it leads. */
  lemma Vacate(r: Rules, es: seq<Event>, c: nat, p: nat, q: set<nat>) returns (es': seq<Event>)
    requires p in q && c in q && CodeRun(r, es) && c < r.nodes && p < r.nodes && !Run(r, es).nodes[p].role.Leader?
    ensures Longer(r, es, es') && Later(Run(r, es), Run(r, es'), q) && !Run(r, es').nodes[c].role.Leader?
  {
    if Run(r, es).nodes[c].role.Leader? {
      var e1 := RaiseTo(r, es, p, Run(r, es).nodes[c].term, q);
      es' := Unseat(r, e1, p, c, q);
      LaterStill(Run(r, es), Run(r, e1), Run(r, es'), q);
    } else {
      es' := es;
    }
  }

  lemma LaterStill(s: Cluster, s1: Cluster, s2: Cluster, q: set<nat>)
    requires Later(s, s1, q) && Later(s1, s2, q)
    ensures Later(s, s2, q)
  {
  }

  /** Node c leaves office if it leads, and no node is ahead of it. */
  lemma Overtake(r: Rules, es: seq<Event>, c: nat, p: nat, q: set<nat>) returns (es': seq<Event>)
    requires p in q && c in q && CodeRun(r, es) && c < r.nodes && p < r.nodes && !Run(r, es).nodes[p].role.Leader?
    ensures var (s, s') := (Run(r, es), Run(r, es'));
            && Longer(r, es, es') && Later(s, s', q) && !s'.nodes[c].role.Leader?
            && forall j :: 0 <= j < r.nodes ==> s'.nodes[j].term <= s'.nodes[c].term
  {
    var e1 := Vacate(r, es, c, p, q);
    var t := TermBound(Run(r, e1).nodes);
    es' := RaiseTo(r, e1, c, t, q);
    LaterStill(Run(r, es), Run(r, e1), Run(r, es'), q);
  }

  /** Some member of the group does not lead: a leader does not stand for election. */
  ghost predicate Challenger(s: Cluster, q: set<nat>)
    requires Members(|s.nodes|, q)
  {
    exists p :: p in q && !s.nodes[p].role.Leader?
  }

  /** Node c leads; no other node is ahead of it or leads in its term, and it will send nothing from
      beyond its log. */
  ghost predicate NewlyLeads(s: Cluster, c: nat)
  {
    && c < |s.nodes| && s.nodes[c].role.Leader?
    && (forall j :: 0 <= j < |s.nodes| && j != c ==>
          s.nodes[j].term < s.nodes[c].term || (s.nodes[j].term == s.nodes[c].term && s.nodes[j].role.Follower?))
    && forall p: nat {:trigger Get(s.nodes[c].nextIndex, p)} :: Get(s.nodes[c].nextIndex, p) <= |s.nodes[c].log|
  }

  lemma WonWithin(r: Rules, s: Cluster, s': Cluster, q: set<nat>, c: nat, ps: seq<nat>)
    requires CanWin(r, s, c, ps) && Undisturbed(s, s', c, ps) && IsLeader(s', c, s.nodes[c].term + 1) && Sized(s')
    requires c in q && forall i :: 0 <= i < |ps| ==> ps[i] in q
    requires forall j :: 0 <= j < r.nodes ==> s.nodes[j].term <= s.nodes[c].term
    ensures Later(s, s', q) && NewlyLeads(s', c)
  {
    forall j | 0 <= j < |s.nodes| ensures Onward(s.nodes[j], s'.nodes[j]) {
      assert SameLog(s.nodes[j], s'.nodes[j]);
      if j in ps {
        var i :| 0 <= i < |ps| && ps[i] == j;
        assert Behind(s.nodes[ps[i]], s.nodes[c]);
      }
    }
  }

  lemma Win(r: Rules, s: Cluster, es: seq<Event>, q: set<nat>, c: nat) returns (es': seq<Event>)
    requires CodeRun(r, es) && IsQuorum(r.nodes, q) && |s.nodes| == r.nodes >= 3 && IsBest(s, q, c)
    requires Later(s, Run(r, es), q) && !Run(r, es).nodes[c].role.Leader?
    requires forall j :: 0 <= j < r.nodes ==> Run(r, es).nodes[j].term <= Run(r, es).nodes[c].term
    ensures Longer(r, es, es') && Later(s, Run(r, es'), q) && NewlyLeads(Run(r, es'), c)
    ensures IsLeader(Run(r, es'), c, Run(r, es).nodes[c].term + 1)
  {
    var ps := BestHasSupport(r, s, Run(r, es), q, c);
    es' := Campaign(r, es, c, ps);
    WonWithin(r, Run(r, es), Run(r, es'), q, c, ps);
    LaterStill(s, Run(r, es), Run(r, es'), q);
  }

  lemma ChallengerWins(r: Rules, es: seq<Event>, q: set<nat>) returns (es': seq<Event>, c: nat, term: nat)
    requires r.nodes >= 3 && CodeRun(r, es) && IsQuorum(r.nodes, q) && Challenger(Run(r, es), q)
    ensures Longer(r, es, es') && Later(Run(r, es), Run(r, es'), q) && c in q && IsLeader(Run(r, es'), c, term)
    ensures NewlyLeads(Run(r, es'), c) && forall j :: 0 <= j < r.nodes ==> Run(r, es).nodes[j].term < term
  {
    var s := Run(r, es);
    var p :| p in q && !s.nodes[p].role.Leader?;
    c := BestExists(s, q);
    var e1 := Overtake(r, es, c, p, q);
    es' := Win(r, s, e1, q, c);
    term := Run(r, e1).nodes[c].term + 1;
  }

  /** With three nodes or more, from every run of the code and for every majority, the run can go on so
      that a member of the majority leads, while the other nodes do nothing and no log changes; and
      unless all of them lead already, so that it leads a new term, later than any that a node has
      reached so far. */
  lemma MajorityElects(r: Rules, es: seq<Event>, q: set<nat>) returns (es': seq<Event>, c: nat, term: nat)
    requires r.nodes >= 3 && CodeRun(r, es) && IsQuorum(r.nodes, q)
    ensures Longer(r, es, es') && Later(Run(r, es), Run(r, es'), q) && c in q && IsLeader(Run(r, es'), c, term)
    ensures Challenger(Run(r, es), q) ==> forall j :: 0 <= j < r.nodes ==> Run(r, es).nodes[j].term < term
  {
    if Challenger(Run(r, es), q) {
      es', c, term := ChallengerWins(r, es, q);
    } else {
      assert q != {};
      c :| c in q;
      es', term := es, Run(r, es).nodes[c].term;
    }
  }
}
