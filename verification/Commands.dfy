/** Every entry after the placeholder carries a command, in every run under every variant of the
    rules. Index i of a log is therefore its i-th request. */
module Commands {
  import opened Basics
  import opened RaftNode
  import opened Cluster

  predicate AllSet(entries: seq<Entry>) {
    forall i :: 0 <= i < |entries| ==> entries[i].command.Some?
  }

  predicate Filled(n: Node) {
    |n.log| > 0 && AllSet(n.log[1..])
  }

  ghost predicate FilledIn(s: Cluster) {
    && (forall j {:trigger Filled(s.nodes[j])} :: 0 <= j < |s.nodes| ==> Filled(s.nodes[j]))
    && (forall m :: m in s.msgs && m.AppendRequest? ==> AllSet(m.args.entries))
  }

  lemma MergeFilled(log: seq<Entry>, prev: nat, entries: seq<Entry>)
    requires prev < |log| && AllSet(log[1..]) && AllSet(entries)
    ensures var g := Merge(log, prev, entries); |g| > 0 && AllSet(g[1..])
  {
    var k, g := Matching(log, prev, entries), Merge(log, prev, entries);
    forall i | 0 <= i < |g| - 1 ensures g[1..][i].command.Some? {
      if k < |entries| && i + 1 >= prev + 1 + k {
        assert g[i + 1] == entries[k..][i + 1 - (prev + 1 + k)];
      } else {
        assert g[i + 1] == log[1..][i];
      }
    }
  }

  lemma AppendFilled(r: Rules, n: Node, a: AppendArgs)
    requires Filled(n) && AllSet(a.entries)
    ensures Filled(HandleAppend(r, n, a).0)
  {
    var m := CatchUp(n, a.term);
    if a.term >= n.term && Refusal(m, a).None? {
      MergeFilled(m.log, a.prev, a.entries);
    }
  }

  lemma SubmitFilled(n: Node, command: Op)
    requires Filled(n)
    ensures Filled(Submit(n, command))
  {
    if n.role.Leader? {
      assert (n.log + [Entry(n.term, Some(command))])[1..] == n.log[1..] + [Entry(n.term, Some(command))];
    }
  }

  lemma RequestFilled(n: Node, me: nat, prev: nat, full: bool)
    requires Filled(n) && prev < |n.log|
    ensures AllSet(Request(n, me, prev, full).entries)
  {
    var rest := n.log[prev + 1..];
    forall i | 0 <= i < |rest| ensures rest[i].command.Some? {
      assert rest[i] == n.log[1..][prev + i];
    }
  }

  lemma PutFilled(s: Cluster, s': Cluster, j: nat, n: Node)
    requires FilledIn(s) && j < |s.nodes| && s'.nodes == s.nodes[j := n] && Filled(n)
    requires forall m :: m in s'.msgs && m.AppendRequest? ==> m in s.msgs || AllSet(m.args.entries)
    ensures FilledIn(s')
  {
    forall k | 0 <= k < |s'.nodes| ensures Filled(s'.nodes[k]) {
      assert k != j ==> Filled(s.nodes[k]);
    }
  }

  predicate Writes(e: Event) { e.ClientCommand? || e.SendAppend? || e.DeliverAppend? }

  lemma WriteFilled(r: Rules, s: Cluster, e: Event)
    requires Sized(s) && FilledIn(s) && Writes(e)
    ensures FilledIn(Apply(r, s, e))
  {
    var s', c := Apply(r, s, e), Actor(e);
    if s' != s {
      assert Filled(s.nodes[c]);
      match e
      case ClientCommand(_, command) => SubmitFilled(s.nodes[c], command);
      case SendAppend(_, _, prev, full, _) => RequestFilled(s.nodes[c], c, prev, full);
      case DeliverAppend(m) => AppendFilled(r, s.nodes[c], m.args);
      PutFilled(s, s', c, s'.nodes[c]);
    }
  }

  predicate Canvasses(e: Event) { e.Timeout? || e.DeliverVote? }

  predicate Counts(e: Event) { e.DeliverVoteAnswer? || e.Count? }

  lemma VoteFilled(r: Rules, s: Cluster, e: Event)
    requires Sized(s) && FilledIn(s) && Canvasses(e)
    ensures FilledIn(Apply(r, s, e))
  {
    var s', c := Apply(r, s, e), Actor(e);
    if s' != s {
      assert Filled(s.nodes[c]);
      PutFilled(s, s', c, s'.nodes[c]);
    }
  }

  lemma CountFilled(r: Rules, s: Cluster, e: Event)
    requires Sized(s) && FilledIn(s) && Counts(e)
    ensures FilledIn(Apply(r, s, e))
  {
    var s', c := Apply(r, s, e), Actor(e);
    if s' != s {
      assert Filled(s.nodes[c]);
      PutFilled(s, s', c, s'.nodes[c]);
    }
  }

  lemma OtherFilled(r: Rules, s: Cluster, e: Event)
    requires Sized(s) && FilledIn(s) && !Writes(e) && !Canvasses(e) && !Counts(e)
    ensures FilledIn(Apply(r, s, e))
  {
    var s', c := Apply(r, s, e), Actor(e);
    if s' != s {
      assert Filled(s.nodes[c]);
      PutFilled(s, s', c, s'.nodes[c]);
    }
  }

  lemma {:induction false} RunFilled(r: Rules, events: seq<Event>)
    ensures FilledIn(Run(r, events))
    decreases |events|
  {
    if events != [] {
      var front, e := events[..|events| - 1], events[|events| - 1];
      RunFilled(r, front);
      if Writes(e) {
        WriteFilled(r, Run(r, front), e);
      } else if Canvasses(e) {
        VoteFilled(r, Run(r, front), e);
      } else if Counts(e) {
        CountFilled(r, Run(r, front), e);
      } else {
        OtherFilled(r, Run(r, front), e);
      }
    }
  }

  /** The requests of a log, without the placeholder at index 0. */
  function Requests(log: seq<Entry>): seq<Op> {
    if |log| <= 1 then []
    else
      var front := Requests(log[..|log| - 1]);
      match log[|log| - 1].command
      case None => front
      case Some(op) => front + [op]
  }

  lemma {:induction false} RequestsAt(log: seq<Entry>, i: nat)
    requires |log| > 0 && AllSet(log[1..]) && i < |log|
    ensures |Requests(log)| == |log| - 1 && Requests(log[..i + 1]) == Requests(log)[..i]
    ensures i > 0 ==> Some(Requests(log)[i - 1]) == log[i].command
    decreases |log|
  {
    if |log| > 1 {
      var front := log[..|log| - 1];
      assert log[|log| - 1] == log[1..][|log| - 2];
      assert forall k :: 0 <= k < |front| - 1 ==> front[1..][k] == log[1..][k];
      if i < |log| - 1 {
        RequestsAt(front, i);
        assert front[..i + 1] == log[..i + 1];
      } else {
        RequestsAt(front, |front| - 1);
        assert log[..i + 1] == log;
      }
    } else {
      assert log[..i + 1] == log;
    }
  }

  /** In every run, the first i requests of a node's log are its entries 1 to i. */
  lemma RequestsOfRun(r: Rules, events: seq<Event>, j: nat, i: nat)
    requires j < r.nodes && i < |Run(r, events).nodes[j].log|
    ensures var log := Run(r, events).nodes[j].log;
            && |Requests(log)| == |log| - 1 && Requests(log[..i + 1]) == Requests(log)[..i]
            && (i > 0 ==> Some(Requests(log)[i - 1]) == log[i].command)
  {
    RunFilled(r, events);
    assert Filled(Run(r, events).nodes[j]);
    RequestsAt(Run(r, events).nodes[j].log, i);
  }
}
