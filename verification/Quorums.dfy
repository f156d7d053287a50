/** Vote and replication quorums as the server counts them.
    A node keeps its peers in a map that leaves the node itself out, and a count
    (which starts at one, for the node itself) wins when it exceeds half the size of
    that map. */
module Quorums {

  predicate Enough(nodes: nat, count: int) {
    count > (nodes - 1) / 2
  }

  predicate Members(nodes: nat, q: set<nat>) {
    forall p :: p in q ==> p < nodes
  }

  predicate IsQuorum(nodes: nat, q: set<nat>) {
    Members(nodes, q) && Enough(nodes, |q|)
  }

  function All(nodes: nat): (q: set<nat>)
    ensures forall p: nat :: p in q <==> p < nodes
    ensures |q| == nodes
  {
    if nodes == 0 then {} else
      var q := All(nodes - 1);
      assert nodes - 1 !in q;
      q + {nodes - 1}
  }

  lemma SubsetSize(a: set<nat>, b: set<nat>)
    requires a <= b
    ensures |a| <= |b|
  {
    assert b == a + (b - a);
  }

  /** In a cluster of odd size any two quorums share a node. */
  lemma QuorumsMeet(nodes: nat, a: set<nat>, b: set<nat>) returns (p: nat)
    requires nodes % 2 == 1
    requires IsQuorum(nodes, a) && IsQuorum(nodes, b)
    ensures p in a && p in b
  {
    if a * b == {} {
      assert |a + b| == |a| + |b|;
      SubsetSize(a + b, All(nodes));
      assert false;
    }
    p :| p in a * b;
  }

  ghost predicate AlwaysMeet(nodes: nat) {
    forall a, b :: IsQuorum(nodes, a) && IsQuorum(nodes, b) ==> a * b != {}
  }

  function Upper(nodes: nat, from: nat): (q: set<nat>)
    requires from <= nodes
    ensures forall p: nat :: p in q <==> from <= p < nodes
    ensures |q| == nodes - from
    decreases nodes - from
  {
    if from == nodes then {} else
      var q := Upper(nodes, from + 1);
      assert from !in q;
      q + {from}
  }

  /** The counting rule yields intersecting quorums exactly for clusters of odd size:
      with an even number of nodes the two halves both pass. */
  lemma MeetExactlyWhenOdd(nodes: nat)
    requires nodes >= 1
    ensures AlwaysMeet(nodes) <==> nodes % 2 == 1
  {
    if nodes % 2 == 1 {
      forall a, b | IsQuorum(nodes, a) && IsQuorum(nodes, b) ensures a * b != {} {
        var p := QuorumsMeet(nodes, a, b);
        assert p in a * b;
      }
    } else {
      var low, high := All(nodes / 2), Upper(nodes, nodes / 2);
      assert IsQuorum(nodes, low) && IsQuorum(nodes, high);
      assert low * high == {};
    }
  }
}
