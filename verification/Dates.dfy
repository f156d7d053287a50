/** No entry is from the future: in every run under every variant of the rules, a node has saved a term
    at least as late as that of any entry in its log, and the log begins with the placeholder. */
module Dates {
  import opened RaftNode
  import opened Cluster
  import opened Commands

  predicate Until(entries: seq<Entry>, term: nat) {
    forall i :: 0 <= i < |entries| ==> entries[i].term <= term
  }

  predicate Dated(n: Node) {
    |n.log| > 0 && n.log[0] == Placeholder && Until(n.log, n.saved.term) && n.saved.term <= n.term
  }

  ghost predicate DatedIn(s: Cluster) {
    && (forall j {:trigger Dated(s.nodes[j])} :: 0 <= j < |s.nodes| ==> Dated(s.nodes[j]))
    && (forall m :: m in s.msgs && m.AppendRequest? ==> Until(m.args.entries, m.args.term))
  }

  lemma MergeDated(log: seq<Entry>, prev: nat, entries: seq<Entry>, term: nat)
    requires prev < |log| && log[0] == Placeholder && Until(log, term) && Until(entries, term)
    ensures var g := Merge(log, prev, entries); |g| > 0 && g[0] == Placeholder && Until(g, term)
  {
  }

  lemma AppendDated(r: Rules, n: Node, a: AppendArgs)
    requires Dated(n) && Until(a.entries, a.term)
    ensures Dated(HandleAppend(r, n, a).0)
  {
    var m := CatchUp(n, a.term);
    if a.term >= n.term && Refusal(m, a).None? {
      MergeDated(m.log, a.prev, a.entries, a.term);
    }
  }

  lemma PutDated(s: Cluster, s': Cluster, j: nat, n: Node)
    requires DatedIn(s) && j < |s.nodes| && s'.nodes == s.nodes[j := n] && Dated(n)
    requires forall m :: m in s'.msgs && m.AppendRequest? ==> m in s.msgs || Until(m.args.entries, m.args.term)
    ensures DatedIn(s')
  {
    forall k | 0 <= k < |s'.nodes| ensures Dated(s'.nodes[k]) {
      assert k != j ==> Dated(s.nodes[k]);
    }
  }

  lemma WriteDated(r: Rules, s: Cluster, e: Event)
    requires Sized(s) && DatedIn(s) && Writes(e)
    ensures DatedIn(Apply(r, s, e))
  {
    var s', c := Apply(r, s, e), Actor(e);
    if s' != s {
      assert Dated(s.nodes[c]);
      if e.DeliverAppend? {
        AppendDated(r, s.nodes[c], e.msg.args);
      }
      PutDated(s, s', c, s'.nodes[c]);
    }
  }

  lemma VoteDated(r: Rules, s: Cluster, e: Event)
    requires Sized(s) && DatedIn(s) && Canvasses(e)
    ensures DatedIn(Apply(r, s, e))
  {
    var s', c := Apply(r, s, e), Actor(e);
    if s' != s {
      assert Dated(s.nodes[c]);
      PutDated(s, s', c, s'.nodes[c]);
    }
  }

  lemma CountDated(r: Rules, s: Cluster, e: Event)
    requires Sized(s) && DatedIn(s) && Counts(e)
    ensures DatedIn(Apply(r, s, e))
  {
    var s', c := Apply(r, s, e), Actor(e);
    if s' != s {
      assert Dated(s.nodes[c]);
      PutDated(s, s', c, s'.nodes[c]);
    }
  }

  lemma OtherDated(r: Rules, s: Cluster, e: Event)
    requires Sized(s) && DatedIn(s) && !Writes(e) && !Canvasses(e) && !Counts(e)
    ensures DatedIn(Apply(r, s, e))
  {
    var s', c := Apply(r, s, e), Actor(e);
    if s' != s {
      assert Dated(s.nodes[c]);
      PutDated(s, s', c, s'.nodes[c]);
    }
  }

  lemma {:induction false} RunDated(r: Rules, events: seq<Event>)
    ensures DatedIn(Run(r, events))
    decreases |events|
  {
    if events != [] {
      var front, e := events[..|events| - 1], events[|events| - 1];
      RunDated(r, front);
      if Writes(e) {
        WriteDated(r, Run(r, front), e);
      } else if Canvasses(e) {
        VoteDated(r, Run(r, front), e);
      } else if Counts(e) {
        CountDated(r, Run(r, front), e);
      } else {
        OtherDated(r, Run(r, front), e);
      }
    }
  }
}
