/** Log matching, over every size of cluster and every variant of the rules. */
module LogMatches {
  import opened Basics
  import opened RaftNode
  import opened Cluster
  import opened ClusterSafety
  import opened Scenarios
  import opened Departures

  /** Logs with an entry of the same term at an index are equal up to it. */
  predicate MatchAt(x: seq<Entry>, y: seq<Entry>, i: nat) {
    i < |x| && i < |y| && x[i].term == y[i].term ==> x[..i + 1] == y[..i + 1]
  }

  ghost predicate LogsMatched(r: Rules, coded: bool) {
    forall events, a: nat, b: nat, i: nat :: a < r.nodes && b < r.nodes && Ranges(r, events, coded) ==>
      MatchAt(Run(r, events).nodes[a].log, Run(r, events).nodes[b].log, i)
  }

  /** Two logs that differ before or at index i, where their terms are the same. */
  lemma Mismatch(r: Rules, es: seq<Event>, a: nat, b: nat, k: nat, i: nat, coded: bool)
    requires CodeRun(r, es) && a < r.nodes && b < r.nodes && k <= i
    requires var (x, y) := (Run(r, es).nodes[a].log, Run(r, es).nodes[b].log);
             i < |x| && i < |y| && x[i].term == y[i].term && x[k] != y[k]
    ensures !LogsMatched(r, coded)
  {
    var x, y := Run(r, es).nodes[a].log, Run(r, es).nodes[b].log;
    assert x[k] == x[..i + 1][k] && y[k] == y[..i + 1][k];
    assert Ranges(r, es, coded) && !MatchAt(Run(r, es).nodes[a].log, Run(r, es).nodes[b].log, i);
  }

  // ---- two leaders of one term ----

  lemma EvenMismatch(r: Rules, coded: bool)
    requires r.nodes % 2 == 0 && r.nodes >= 4
    ensures !LogsMatched(r, coded)
  {
    var h := r.nodes / 2;
    var e1 := Lead(r, [], 0, Supporters(0, h - 1), OneOp("x"));
    UpperHalf(r, Run(r, e1), h);
    var e2 := Lead(r, e1, h, Supporters(h, h - 1), OneOp("y"));
    assert 0 !in Supporters(h, h - 1);
    Mismatch(r, e2, 0, h, 1, 1, coded);
  }

  lemma StaleVoteMismatch(r: Rules, coded: bool)
    requires r.nodes >= 3 && r.nodes % 2 == 1 && !r.recheckVote
    ensures !LogsMatched(r, coded)
  {
    var es := TwoReadyRun(r);
    Mismatch(r, es, 0, 1, 1, 1, coded);
  }

  // ---- a request that passes over a differing entry ----

  /** An ally of node 1 stands for election and asks node 1 for its vote. */
  lemma Depose(r: Rules, es: seq<Event>, f: nat) returns (es': seq<Event>)
    requires CodeRun(r, es) && 1 < f < r.nodes && Run(r, es).nodes[f].role.Follower?
    ensures var s := Run(r, es);
            var (n, a) := StartElection(s.nodes[f], f);
            Longer(r, es, es') && Run(r, es').nodes == s.nodes[f := n][1 := HandleVote(s.nodes[1], a).0]
  {
    var s := Run(r, es);
    var e1 := Do(r, es, Timeout(f));
    assert Run(r, e1) == ApplyTimeout(s, f);
    es' := Do(r, e1, DeliverVote(1, StartElection(s.nodes[f], f).1));
  }

  /** Node 1 has been deposed; its allies can elect it again. */
  ghost predicate Deposed(r: Rules, s: Cluster, qs: seq<nat>) {
    && Sized(s) && |s.nodes| == r.nodes >= 3 && CanWin(r, s, 1, qs) && 0 !in qs
    && |s.nodes[0].log| == 2 && s.nodes[0].commit == 1 && s.nodes[0].snap == 0 && s.nodes[0].term <= s.nodes[1].term
    && |s.nodes[1].log| == 2 && s.nodes[1].snap == 0 && 0 in s.nodes[1].nextIndex
    && s.nodes[0].log[1] != s.nodes[1].log[1]
  }

  lemma DeposedNow(r: Rules, s: Cluster, s': Cluster, qs: seq<nat>)
    requires Astray(s, qs) && |s.nodes| == r.nodes && |qs| == (r.nodes - 1) / 2 && Sized(s')
    requires forall i, j :: 0 <= i < j < |qs| ==> qs[i] != qs[j]
    requires var (n, a) := StartElection(s.nodes[qs[0]], qs[0]);
             s'.nodes == s.nodes[qs[0] := n][1 := HandleVote(s.nodes[1], a).0]
    ensures Deposed(r, s', qs)
  {
    assert Ally(s.nodes[qs[0]], s.nodes[1], qs[0]);
    forall i | 0 <= i < |qs| ensures 1 < qs[i] < r.nodes && Behind(s'.nodes[qs[i]], s'.nodes[1]) {
      assert Ally(s.nodes[qs[i]], s.nodes[1], qs[i]);
    }
  }

  /** Node 1 leads again, and takes node 0 to have all of its log. */
  predicate Reinstated(s: Cluster) {
    && Sized(s) && 3 <= |s.nodes|
    && |s.nodes[0].log| == 2 && s.nodes[0].commit == 1 && s.nodes[0].snap == 0 && s.nodes[0].term < s.nodes[1].term
    && s.nodes[1].role.Leader? && |s.nodes[1].log| == 3 && s.nodes[1].snap == 0
    && Get(s.nodes[1].nextIndex, 0) == 2 && s.nodes[0].log[1] != s.nodes[1].log[1]
  }

  lemma Reinstate(r: Rules, es: seq<Event>, qs: seq<nat>) returns (es': seq<Event>)
    requires CodeRun(r, es) && Deposed(r, Run(r, es), qs)
    ensures Longer(r, es, es') && Reinstated(Run(r, es'))
  {
    var e1 := Campaign(r, es, 1, qs);
    es' := Command(r, e1, 1, OneOp("z"));
    ReinstatedNow(r, Run(r, es), Run(r, e1), Run(r, es'), qs);
  }

  lemma ReinstatedNow(r: Rules, s: Cluster, s1: Cluster, s2: Cluster, qs: seq<nat>)
    requires Deposed(r, s, qs) && Undisturbed(s, s1, 1, qs) && IsLeader(s1, 1, s.nodes[1].term + 1) && Sized(s2)
    requires s2.nodes == s1.nodes[1 := Submit(s1.nodes[1], OneOp("z"))]
    ensures Reinstated(s2)
  {
    assert SameLog(s.nodes[1], s1.nodes[1]);
    assert Get(s1.nodes[1].nextIndex, 0) == |s1.nodes[1].log|;
  }

  /** The check at the commit index is skipped, so the new entry goes on top of the wrong one. */
  lemma PassesOver(r: Rules, n: Node, a: AppendArgs)
    requires |n.log| == 2 && n.commit == 1 && n.snap == 0 && n.term < a.term && a.prev == 1 && |a.entries| == 1
    ensures HandleAppend(r, n, a).0.log == n.log + a.entries
  {
    assert n.log[..2] == n.log;
  }

  lemma CommitRuleMismatch(r: Rules, coded: bool)
    requires r.nodes >= 3 && !r.commitToLastNew
    ensures !LogsMatched(r, coded)
  {
    var h := (r.nodes - 1) / 2;
    var e1 := AstrayRun(r);
    var e2 := DeposedRun(r, e1, Supporters(h, h));
    var e3 := Reinstate(r, e2, Supporters(h, h));
    var es := Misled(r, e3);
    Mismatch(r, es, 0, 1, 1, 2, coded);
  }

  lemma DeposedRun(r: Rules, es: seq<Event>, qs: seq<nat>) returns (es': seq<Event>)
    requires CodeRun(r, es) && Astray(Run(r, es), qs) && |qs| == (r.nodes - 1) / 2
    requires forall i, j :: 0 <= i < j < |qs| ==> qs[i] != qs[j]
    ensures Longer(r, es, es') && Deposed(r, Run(r, es'), qs)
  {
    assert Ally(Run(r, es).nodes[qs[0]], Run(r, es).nodes[1], qs[0]);
    es' := Depose(r, es, qs[0]);
    DeposedNow(r, Run(r, es), Run(r, es'), qs);
  }

  lemma Misled(r: Rules, es: seq<Event>) returns (es': seq<Event>)
    requires CodeRun(r, es) && Reinstated(Run(r, es))
    ensures var (s, s') := (Run(r, es), Run(r, es'));
            && Longer(r, es, es') && s'.nodes[1] == s.nodes[1]
            && s'.nodes[0].log == s.nodes[0].log + [s.nodes[1].log[2]]
  {
    var s := Run(r, es);
    var a := Request(s.nodes[1], 1, 1, true);
    assert a.entries == [s.nodes[1].log[2]];
    PassesOver(r, s.nodes[0], a);
    es' := Replicate(r, es, 1, 0);
  }

  // ---- exactly when ----

  /** Log matching holds in all runs, and in all runs of the code, exactly when nobody is ever elected
      or the rules are sound. */
  lemma LogsMatchExactly(r: Rules, coded: bool)
    ensures LogsMatched(r, coded) <==> r.nodes <= 2 || Sound(r)
  {
    if r.nodes <= 2 {
      forall events, j: nat | j < r.nodes ensures Bare(Run(r, events).nodes[j]) {
        PairNeverCommits(r, events);
      }
    } else if Sound(r) {
      forall events, a: nat, b: nat, i: nat | a < r.nodes && b < r.nodes
        ensures MatchAt(Run(r, events).nodes[a].log, Run(r, events).nodes[b].log, i)
      {
        SoundMatch(r, events, a, b, i);
      }
    } else if r.nodes % 2 == 0 {
      EvenMismatch(r, coded);
    } else if !r.recheckVote {
      StaleVoteMismatch(r, coded);
    } else {
      CommitRuleMismatch(r, coded);
    }
  }

  lemma SoundMatch(r: Rules, events: seq<Event>, a: nat, b: nat, i: nat)
    requires Sound(r) && a < r.nodes && b < r.nodes
    ensures MatchAt(Run(r, events).nodes[a].log, Run(r, events).nodes[b].log, i)
  {
    var x, y := Run(r, events).nodes[a].log, Run(r, events).nodes[b].log;
    if i < |x| && i < |y| && x[i].term == y[i].term {
      LogsMatch(r, events, a, b, i);
    }
  }
}
