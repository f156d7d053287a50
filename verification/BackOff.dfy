/** A leader of a fixed term probing one follower: each refusal moves the probe. */
module BackOff {
  import opened Basics
  import opened RaftNode

  /** The follower's log holds the last entry of its snapshot, which it has committed; the leader's log
      has no entry from the future and reaches the probe. */
  predicate Pair(n: Node, f: Node) {
    && f.snap <= f.commit && f.snap < |f.log| && f.term <= n.term && n.snap < |n.log|
    && (forall i :: 0 <= i < |n.log| ==> n.log[i].term <= n.term)
  }

  function Ask(n: Node, me: nat, next: nat): AppendArgs
    requires 1 <= next <= |n.log|
  {
    Request(n, me, next - 1, true)
  }

  /** The refusal a probe at `next` meets, if any. */
  function Refused(n: Node, f: Node, me: nat, next: nat): Option<AppendReply>
    requires 1 <= next <= |n.log|
  {
    Refusal(CatchUp(f, n.term), Ask(n, me, next))
  }

  function Moved(n: Node, next: nat, r: AppendReply): int
    requires n.snap < |n.log|
  {
    Backoff(n, next, r, n.log[n.snap].term)
  }

  predicate Missing(f: Node, next: nat) { next - 1 >= |f.log| }

  predicate Conflict(n: Node, f: Node, next: nat)
    requires 1 <= next <= |n.log|
  {
    f.snap <= next - 1 < |f.log| && f.commit != next - 1 && f.log[next - 1].term != n.log[next - 1].term
  }

  /** A probe past the end of the follower's log always moves down. */
  lemma MissingLowers(n: Node, f: Node, me: nat, next: nat)
    requires Pair(n, f) && n.snap < next <= |n.log| && Missing(f, next)
    ensures Refused(n, f, me, next).Some? && 0 <= Moved(n, next, Refused(n, f, me, next).value) < next
  {
  }

  /** A probe at a conflicting entry moves down exactly when the leader's entry there is older than
      its term and the follower's is not its snapshot; otherwise it stays where it is. */
  lemma ConflictLowersExactly(n: Node, f: Node, me: nat, next: nat)
    requires Pair(n, f) && n.snap < next <= |n.log| && Conflict(n, f, next)
    ensures Refused(n, f, me, next).Some?
    ensures var moved := Moved(n, next, Refused(n, f, me, next).value);
            && 0 <= moved <= next
            && (moved < next <==> n.log[next - 1].term < n.term && f.snap < next - 1)
  {
    var m, prev := CatchUp(f, n.term), next - 1;
    var r := Refused(n, f, me, next).value;
    var x := f.log[prev].term;
    assert r.xIndex == RunStart(f.log, f.snap, x, prev) + 1;
    assert RunStart(f.log, f.snap, x, prev) < prev || prev == f.snap;
    assert ProbeDown(n, n.term, prev) == prev;
  }

  /** A lowered probe passes over the whole run of the follower's conflicting term and no more, down to
      the follower's snapshot or, at the latest, to the leader's. */
  lemma ConflictSkipsRun(n: Node, f: Node, me: nat, next: nat)
    requires Pair(n, f) && n.snap < next <= |n.log| && Conflict(n, f, next)
    requires n.log[next - 1].term < n.term && f.snap < next - 1
    ensures Refused(n, f, me, next).Some?
    ensures var moved := Moved(n, next, Refused(n, f, me, next).value);
            && n.snap <= moved && f.snap < next
            && (forall k :: moved <= k < next && f.snap < k ==> f.log[k].term == f.log[next - 1].term)
            && (moved > n.snap ==> f.snap < moved)
            && (moved > n.snap ==> moved - 1 == f.snap || f.log[moved - 1].term != f.log[next - 1].term)
  {
    ConflictLowersExactly(n, f, me, next);
  }

  /** A probe below the follower's snapshot is sent back up to it, unless the leader's snapshot term
      exceeds the follower's snapshot index: then it falls to the leader's snapshot. */
  lemma BelowSnapshotRaises(n: Node, f: Node, me: nat, next: nat)
    requires Pair(n, f) && n.snap < next <= |n.log| && next - 1 < f.snap
    ensures Refused(n, f, me, next).Some?
    ensures var moved := Moved(n, next, Refused(n, f, me, next).value);
            if n.log[n.snap].term > f.snap then moved == n.snap < next else moved == f.snap + 1 > next
  {
  }

  datatype Outcome = Accepted(next: nat, refusals: nat) | NeedsSnapshot(refusals: nat)

  /** The leader agrees with what the follower has committed. */
  predicate Known(n: Node, f: Node) {
    && Pair(n, f) && f.commit < |f.log| && f.commit < |n.log|
    && (forall i :: 0 <= i <= f.commit ==> n.log[i].term == f.log[i].term)
  }

  /** The leader has made no entry below the probe in its own term: the situation after its
      election. */
  predicate Older(n: Node, next: nat) {
    next <= |n.log| && forall i :: 0 <= i < next ==> n.log[i].term < n.term
  }

  lemma AcceptedMatches(n: Node, f: Node, me: nat, next: nat)
    requires Known(n, f) && n.snap < next <= |n.log| && Refused(n, f, me, next).None?
    ensures next - 1 < |f.log| && f.log[next - 1].term == n.log[next - 1].term
  {
    assert next - 1 < |f.log|;
  }

  /** The outcome of probing from `next` on: `refusals` refusals, each moving the probe, and then an
      acceptance at out.next or a probe below the leader's snapshot. */
  predicate ReachedBy(n: Node, f: Node, me: nat, next: int, out: Outcome)
    requires n.snap < |n.log|
    decreases out.refusals
  {
    if next - 1 < n.snap then out == NeedsSnapshot(0)
    else if next > |n.log| then false
    else
      var r := Refused(n, f, me, next);
      if r.None? then out == Accepted(next, 0)
      else out.refusals > 0 && ReachedBy(n, f, me, Moved(n, next, r.value), out.(refusals := out.refusals - 1))
  }

  function OneMore(out: Outcome): Outcome { out.(refusals := out.refusals + 1) }

  predicate MovesTo(n: Node, f: Node, me: nat, next: nat, moved: int)
    requires n.snap < next <= |n.log|
  {
    var r := Refused(n, f, me, next);
    r.Some? && moved == Moved(n, next, r.value)
  }

  lemma StepBack(n: Node, f: Node, me: nat, next: nat, moved: int, out: Outcome)
    requires n.snap < next <= |n.log| && MovesTo(n, f, me, next, moved) && ReachedBy(n, f, me, moved, out)
    ensures ReachedBy(n, f, me, next, OneMore(out))
  {
    assert OneMore(out).(refusals := out.refusals) == out;
  }

  /** What an outcome promises: few refusals, and acceptance only where the terms are the same, no
      higher than the first probe or the follower's snapshot. */
  predicate Settled(n: Node, f: Node, next: nat, out: Outcome) {
    && out.refusals <= next
    && (out.Accepted? ==> 1 <= out.next <= Max(next, f.snap + 1) && out.next <= |n.log| && out.next <= |f.log|
                          && f.log[out.next - 1].term == n.log[out.next - 1].term)
  }

  /** The probe at the follower's snapshot is accepted. */
  lemma SnapshotAccepted(n: Node, f: Node, me: nat)
    requires Known(n, f) && n.snap <= f.snap
    ensures Refused(n, f, me, f.snap + 1).None?
  {
  }

  /** From below the follower's snapshot one refusal is enough. */
  lemma RaisedSettles(n: Node, f: Node, me: nat, next: nat) returns (out: Outcome)
    requires Known(n, f) && n.snap < next <= f.snap
    ensures ReachedBy(n, f, me, next, out) && Settled(n, f, next, out)
  {
    BelowSnapshotRaises(n, f, me, next);
    var moved := Moved(n, next, Refused(n, f, me, next).value);
    if n.log[n.snap].term > f.snap {
      out := NeedsSnapshot(0);
    } else {
      SnapshotAccepted(n, f, me);
      out := Accepted(f.snap + 1, 0);
    }
    StepBack(n, f, me, next, moved, out);
    out := OneMore(out);
  }

  predicate Accepts(n: Node, f: Node, me: nat, next: nat)
    requires 1 <= next <= |n.log|
  {
    Refused(n, f, me, next).None?
  }

  lemma AcceptedSettles(n: Node, f: Node, me: nat, next: nat) returns (out: Outcome)
    requires Known(n, f) && n.snap < next <= |n.log| && Accepts(n, f, me, next)
    ensures ReachedBy(n, f, me, next, out) && Settled(n, f, next, out)
  {
    AcceptedMatches(n, f, me, next);
    out := Accepted(next, 0);
  }

  /** A refused probe past the end or at a conflict moves down, and what is below is older still. */
  lemma Lowered(n: Node, f: Node, me: nat, next: nat) returns (moved: nat)
    requires Known(n, f) && Older(n, next) && n.snap < next && f.snap < next && !Accepts(n, f, me, next)
    ensures MovesTo(n, f, me, next, moved) && moved < next && Older(n, moved)
  {
    if Missing(f, next) {
      MissingLowers(n, f, me, next);
    } else {
      ConflictLowersExactly(n, f, me, next);
    }
    moved := Moved(n, next, Refused(n, f, me, next).value);
  }

  lemma StepSettles(n: Node, f: Node, me: nat, next: nat, moved: nat, later: Outcome)
    requires n.snap < next <= |n.log| && MovesTo(n, f, me, next, moved) && moved < next
    requires ReachedBy(n, f, me, moved, later) && Settled(n, f, moved, later)
    ensures ReachedBy(n, f, me, next, OneMore(later)) && Settled(n, f, next, OneMore(later))
  {
    StepBack(n, f, me, next, moved, later);
  }

  /** Probing settles: after at most `next` refusals the follower accepts, at a position where the
      two logs have the same term, or the leader turns to its snapshot. */
  lemma {:induction false} ProbingSettles(n: Node, f: Node, me: nat, next: nat) returns (out: Outcome)
    requires Known(n, f) && Older(n, next)
    ensures ReachedBy(n, f, me, next, out) && Settled(n, f, next, out)
    decreases next
  {
    if next <= n.snap {
      out := NeedsSnapshot(0);
    } else if next <= f.snap {
      out := RaisedSettles(n, f, me, next);
    } else if Accepts(n, f, me, next) {
      out := AcceptedSettles(n, f, me, next);
    } else {
      var moved := Lowered(n, f, me, next);
      var later := ProbingSettles(n, f, me, moved);
      out := OneMore(later);
      StepSettles(n, f, me, next, moved, later);
    }
  }

  // ---- when probing settles at all ----

  predicate Ordered(log: seq<Entry>) {
    forall i, j :: 0 <= i <= j < |log| ==> log[i].term <= log[j].term
  }

  ghost predicate Settles(n: Node, f: Node, me: nat, next: int)
    requires n.snap < |n.log|
  {
    exists out :: ReachedBy(n, f, me, next, out)
  }

  /** A conflict at an entry of the leader's own term: the probe comes back to where it was. */
  predicate Stuck(n: Node, f: Node, next: int) {
    n.snap < next <= |n.log| && Conflict(n, f, next) && n.log[next - 1].term == n.term
  }

  /** Where the first refusal past the end of the follower's log leads. */
  function Landing(n: Node, f: Node, next: nat): nat
    requires n.snap < |n.log|
  {
    if next <= n.snap || !Missing(f, next) then next
    else if n.log[n.snap].term >= |f.log| then n.snap
    else |f.log|
  }

  lemma StuckStays(n: Node, f: Node, me: nat, next: nat)
    requires Pair(n, f) && Stuck(n, f, next)
    ensures MovesTo(n, f, me, next, next)
  {
    ConflictLowersExactly(n, f, me, next);
  }

  lemma {:induction false} StuckForever(n: Node, f: Node, me: nat, next: nat, out: Outcome)
    requires Pair(n, f) && Stuck(n, f, next)
    ensures !ReachedBy(n, f, me, next, out)
    decreases out.refusals
  {
    StuckStays(n, f, me, next);
    if out.refusals > 0 {
      StuckForever(n, f, me, next, out.(refusals := out.refusals - 1));
    }
  }

  lemma LandingSettles(n: Node, f: Node, me: nat, next: nat)
    requires Known(n, f) && Ordered(n.log) && next <= |n.log| && next <= |f.log| && !Stuck(n, f, next)
    ensures Settles(n, f, me, next)
  {
    if next <= n.snap {
      assert ReachedBy(n, f, me, next, NeedsSnapshot(0));
    } else if n.log[next - 1].term < n.term {
      var out := ProbingSettles(n, f, me, next);
    } else if next <= f.snap {
      var out := RaisedSettles(n, f, me, next);
    } else {
      assert ReachedBy(n, f, me, next, Accepted(next, 0));
    }
  }

  lemma OneRefusal(n: Node, f: Node, me: nat, next: nat)
    requires Known(n, f) && n.snap < next <= |n.log| && Missing(f, next)
    ensures Settles(n, f, me, next) <==> Settles(n, f, me, Landing(n, f, next))
  {
    MissingLowers(n, f, me, next);
    var moved := Moved(n, next, Refused(n, f, me, next).value);
    assert moved == Landing(n, f, next);
    if out :| ReachedBy(n, f, me, moved, out) {
      StepBack(n, f, me, next, moved, out);
    }
    if out :| ReachedBy(n, f, me, next, out) {
      assert ReachedBy(n, f, me, moved, out.(refusals := out.refusals - 1));
    }
  }

  /** Where the leader's terms do not decrease, probing from any position settles exactly when, past
      the end of the follower's log, it does not land on a conflict with an entry the leader made in
      its own term. */
  lemma SettlesExactly(n: Node, f: Node, me: nat, next: nat)
    requires Known(n, f) && Ordered(n.log) && next <= |n.log|
    ensures Settles(n, f, me, next) <==> !Stuck(n, f, Landing(n, f, next))
  {
    var p := Landing(n, f, next);
    if n.snap < next && Missing(f, next) {
      OneRefusal(n, f, me, next);
    }
    if Stuck(n, f, p) {
      forall out ensures !ReachedBy(n, f, me, p, out) {
        StuckForever(n, f, me, p, out);
      }
    } else if p <= n.snap {
      assert ReachedBy(n, f, me, p, NeedsSnapshot(0));
    } else {
      LandingSettles(n, f, me, p);
    }
  }
}
