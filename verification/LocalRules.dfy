/** What the rules of one node achieve: the commit loop, the merge of entries into a log, and the
    reset of a new leader's indices. */
module LocalRules {
  import opened Basics
  import opened Quorums
  import opened RaftNode

  // ---- the leader's commit loop ----

  /** An entry of the leader's term that a strict majority of all nodes holds. */
  predicate HeldByMajority(nodes: nat, n: Node, me: nat, matchIndex: map<nat, int>, i: nat)
    requires i < |n.log|
  {
    n.log[i].term == n.term && 2 * |Holders(nodes, me, matchIndex, i)| > nodes
  }

  /** c is the greatest such index above the commit index, or the commit index if there is none. */
  predicate GreatestHeld(nodes: nat, n: Node, me: nat, matchIndex: map<nat, int>, c: int) {
    && n.commit <= c < |n.log|
    && (c > n.commit ==> HeldByMajority(nodes, n, me, matchIndex, c))
    && (forall k :: c < k < |n.log| ==> !HeldByMajority(nodes, n, me, matchIndex, k))
  }

  ghost predicate CommitsByMajority(nodes: nat) {
    forall n: Node, me: nat, matchIndex: map<nat, int> :: me < nodes && n.commit < |n.log| ==>
      GreatestHeld(nodes, n, me, matchIndex, CommitSearch(nodes, n, me, matchIndex, LastIndex(n.log)))
  }

  lemma OddCommits(nodes: nat, n: Node, me: nat, matchIndex: map<nat, int>)
    requires nodes % 2 == 1 && nodes >= 3 && me < nodes && n.commit < |n.log|
    ensures GreatestHeld(nodes, n, me, matchIndex, CommitSearch(nodes, n, me, matchIndex, LastIndex(n.log)))
  {
    var c := CommitSearch(nodes, n, me, matchIndex, LastIndex(n.log));
    CommitSearchOk(nodes, n, me, matchIndex, LastIndex(n.log));
    forall k | c < k < |n.log| ensures !HeldByMajority(nodes, n, me, matchIndex, k) {
      CommitSearchGreatest(nodes, n, me, matchIndex, LastIndex(n.log), k);
    }
  }

  function OneEntry(term: nat): Node {
    NewNode().(log := [Placeholder, Entry(1, None)], term := term, role := Leader)
  }

  /** Half of an even cluster is enough for the loop; in a cluster of one or two an entry of any
      term is. */
  lemma OtherSizesMiscount(nodes: nat)
    requires nodes >= 1 && (nodes % 2 == 0 || nodes == 1)
    ensures !CommitsByMajority(nodes)
  {
    var h := nodes / 2;
    if nodes <= 2 {
      var n := OneEntry(5);
      assert CommitSearch(nodes, n, 0, map[], 1) == 1;
      assert !GreatestHeld(nodes, n, 0, map[], CommitSearch(nodes, n, 0, map[], LastIndex(n.log)));
    } else {
      var n, held: map<nat, int> := OneEntry(1), FillTo(h, 1);
      assert Holders(nodes, 0, held, 1) == All(h);
      assert CommitSearch(nodes, n, 0, held, 1) == 1;
      assert !GreatestHeld(nodes, n, 0, held, CommitSearch(nodes, n, 0, held, LastIndex(n.log)));
    }
  }

  /** The downward search commits the greatest index that a strict majority holds, for all logs
      and match indices, exactly when the cluster has an odd number of nodes, at least three. */
  lemma CommitLoopExactly(nodes: nat)
    requires nodes >= 1
    ensures CommitsByMajority(nodes) <==> nodes % 2 == 1 && nodes >= 3
  {
    if nodes % 2 == 1 && nodes >= 3 {
      forall n: Node, me: nat, matchIndex: map<nat, int> | me < nodes && n.commit < |n.log|
        ensures GreatestHeld(nodes, n, me, matchIndex, CommitSearch(nodes, n, me, matchIndex, LastIndex(n.log)))
      {
        OddCommits(nodes, n, me, matchIndex);
      }
    } else {
      OtherSizesMiscount(nodes);
    }
  }

  // ---- merging entries ----

  /** The merge keeps everything up to `prev`, brings every position that was sent to the term
      sent, and drops entries only from a position on whose term really conflicts. */
  lemma MergeKeeps(log: seq<Entry>, prev: nat, entries: seq<Entry>)
    requires prev < |log|
    ensures var g := Merge(log, prev, entries);
            && prev + |entries| < |g| && g[..prev + 1] == log[..prev + 1]
            && (forall i :: 0 <= i < |entries| ==> g[prev + 1 + i].term == entries[i].term)
            && (log <= g || exists i :: 0 <= i < |entries| && prev + 1 + i < |log|
                              && log[prev + 1 + i].term != entries[i].term
                              && g == log[..prev + 1 + i] + entries[i..])
  {
    var k, g := Matching(log, prev, entries), Merge(log, prev, entries);
    if k < |entries| {
      assert g[..prev + 1] == log[..prev + 1];
      forall i | 0 <= i < |entries| ensures g[prev + 1 + i].term == entries[i].term {
        if i < k {
          assert g[prev + 1 + i] == log[prev + 1 + i];
        } else {
          assert g[prev + 1 + i] == entries[k..][i - k];
        }
      }
      if prev + 1 + k == |log| {
        assert log <= g;
      }
    }
  }

  predicate TermsAgree(a: seq<Entry>, b: seq<Entry>, i: nat) {
    i < |a| && i < |b| && forall k :: 0 <= k <= i ==> a[k].term == b[k].term
  }

  /** The entries are those of the log `lead` after `prev`. */
  predicate SliceOf(lead: seq<Entry>, prev: int, entries: seq<Entry>) {
    0 <= prev && prev + |entries| < |lead| && entries == lead[prev + 1..prev + 1 + |entries|]
  }

  predicate Carries(lead: seq<Entry>, a: AppendArgs) {
    SliceOf(lead, a.prev, a.entries) && a.prevTerm == lead[a.prev].term
  }

  /** Whatever agrees with the leader lies before the first conflict, so the merge keeps it. */
  lemma MergeKeepsAgreed(lead: seq<Entry>, log: seq<Entry>, prev: nat, entries: seq<Entry>, x: nat)
    requires SliceOf(lead, prev, entries) && prev < |log| && TermsAgree(log, lead, x)
    ensures var g := Merge(log, prev, entries);
            x < |g| && g[..x + 1] == log[..x + 1]
  {
    var k, g := Matching(log, prev, entries), Merge(log, prev, entries);
    if k < |entries| {
      assert entries[k] == lead[prev + 1 + k];
      assert x <= prev + k;
      assert g[..x + 1] == log[..x + 1];
    }
  }

  lemma SpliceAgrees(lead: seq<Entry>, log: seq<Entry>, g: seq<Entry>, prev: nat, entries: seq<Entry>)
    requires SliceOf(lead, prev, entries) && TermsAgree(log, lead, prev)
    requires prev + |entries| < |g| && g[..prev + 1] == log[..prev + 1]
    requires forall i :: 0 <= i < |entries| ==> g[prev + 1 + i].term == entries[i].term
    ensures TermsAgree(g, lead, prev + |entries|)
  {
    forall j | 0 <= j <= prev + |entries| ensures g[j].term == lead[j].term {
      if j <= prev {
        assert g[j] == g[..prev + 1][j] && log[j] == log[..prev + 1][j];
      } else {
        assert g[prev + 1 + (j - prev - 1)].term == entries[j - prev - 1].term;
      }
    }
  }

  lemma MergeAgrees(lead: seq<Entry>, log: seq<Entry>, prev: nat, entries: seq<Entry>)
    requires SliceOf(lead, prev, entries) && TermsAgree(log, lead, prev)
    ensures TermsAgree(Merge(log, prev, entries), lead, prev + |entries|)
  {
    MergeKeeps(log, prev, entries);
    SpliceAgrees(lead, log, Merge(log, prev, entries), prev, entries);
  }

  lemma PrefixAgrees(lead: seq<Entry>, log: seq<Entry>, g: seq<Entry>, x: nat)
    requires TermsAgree(log, lead, x) && x < |g| && g[..x + 1] == log[..x + 1]
    ensures TermsAgree(g, lead, x)
  {
    assert forall k :: 0 <= k <= x ==> g[k] == g[..x + 1][k] && log[k] == log[..x + 1][k];
  }

  /** The log after the handler: as before, or merged. */
  predicate Handled(log: seq<Entry>, log': seq<Entry>, a: AppendArgs) {
    log' == log || (0 <= a.prev < |log| && log' == Merge(log, a.prev, a.entries))
  }

  lemma HandledLog(r: Rules, n: Node, a: AppendArgs)
    ensures Handled(n.log, HandleAppend(r, n, a).0.log, a)
  {
  }

  lemma HandledKeeps(lead: seq<Entry>, log: seq<Entry>, log': seq<Entry>, a: AppendArgs, x: nat)
    requires Carries(lead, a) && TermsAgree(log, lead, x) && Handled(log, log', a)
    ensures x < |log'| && log'[..x + 1] == log[..x + 1] && TermsAgree(log', lead, x)
  {
    if log' != log {
      MergeKeepsAgreed(lead, log, a.prev, a.entries, x);
    }
    PrefixAgrees(lead, log, log', x);
  }

  /** One request carrying entries of `lead` removes nothing that agrees with `lead`, whoever
      receives it, accepted or not. */
  lemma HandleAppendKeeps(r: Rules, n: Node, a: AppendArgs, lead: seq<Entry>, x: nat)
    requires Carries(lead, a) && TermsAgree(n.log, lead, x)
    ensures var log := HandleAppend(r, n, a).0.log;
            x < |log| && log[..x + 1] == n.log[..x + 1] && TermsAgree(log, lead, x)
  {
    HandledLog(r, n, a);
    HandledKeeps(lead, n.log, HandleAppend(r, n, a).0.log, a, x);
  }

  lemma Accepting(r: Rules, n: Node, a: AppendArgs)
    requires n.term <= a.term && n.snap <= a.prev < |n.log| && n.log[a.prev].term == a.prevTerm
    requires n.term == a.term ==> !n.role.Leader?
    ensures var (m, reply) := HandleAppend(r, n, a);
            reply.success && m.log == Merge(n.log, a.prev, a.entries)
  {
  }

  /** A node that agrees with `lead` up to `prev` accepts a request of its term or a later one, and
      then agrees with `lead` to the end of the request. */
  lemma HandleAppendAgrees(r: Rules, n: Node, a: AppendArgs, lead: seq<Entry>)
    requires Carries(lead, a) && TermsAgree(n.log, lead, a.prev)
    requires n.term <= a.term && n.snap <= a.prev && (n.term == a.term ==> !n.role.Leader?)
    ensures var (m, reply) := HandleAppend(r, n, a);
            reply.success && TermsAgree(m.log, lead, a.prev + |a.entries|)
  {
    Accepting(r, n, a);
    MergeAgrees(lead, n.log, a.prev, a.entries);
  }

  function HandleAll(r: Rules, n: Node, requests: seq<AppendArgs>): Node
    decreases |requests|
  {
    if requests == [] then n else HandleAll(r, HandleAppend(r, n, requests[0]).0, requests[1..])
  }

  /** Requests of one leader, in any order and any number of times, never take away what the
      follower already has from it. */
  lemma {:induction false} AcceptedNeverRemoved(r: Rules, n: Node, requests: seq<AppendArgs>, lead: seq<Entry>, x: nat)
    requires forall i :: 0 <= i < |requests| ==> Carries(lead, requests[i])
    requires TermsAgree(n.log, lead, x)
    ensures var g := HandleAll(r, n, requests).log;
            x < |g| && g[..x + 1] == n.log[..x + 1] && TermsAgree(g, lead, x)
    decreases |requests|
  {
    if requests != [] {
      HandleAppendKeeps(r, n, requests[0], lead, x);
      AcceptedNeverRemoved(r, HandleAppend(r, n, requests[0]).0, requests[1..], lead, x);
    }
  }

  // ---- saving, and answers to snapshots ----

  /** What has just been saved is all there after a crash. */
  lemma SavedSurvives(n: Node)
    ensures var m := Restart(Persist(n), n.snap);
            && m.term == n.term && m.vote == n.vote && m.commit == n.commit && m.snap == n.snap && m.log == n.log
            && m.role.Follower? && Restart(Persist(m), m.snap) == m
  {
  }

  /** A node that has told the leader that it holds entries finds them, and its term and vote, after a
      crash; the commit index is then the one it had before. */
  lemma AcceptedSurvives(r: Rules, n: Node, a: AppendArgs, snap: nat)
    requires HandleAppend(r, n, a).1.success
    ensures var m := HandleAppend(r, n, a).0;
            var b := Restart(m, snap);
            b.log == m.log && b.term == m.term == a.term && b.vote == m.vote && b.commit == n.commit
  {
  }

  /** So does a leader that has taken a command. */
  lemma SubmittedSurvives(n: Node, command: Op, snap: nat)
    requires n.role.Leader?
    ensures var m := Submit(n, command);
            var b := Restart(m, snap);
            && m.log == n.log + [Entry(n.term, Some(command))] && m.role.Leader? && m.commit == n.commit
            && b.log == m.log && b.term == n.term && b.vote == n.vote && b.commit == n.commit
  {
  }

  /** A snapshot of the node's own term makes it a follower, as one of a later term does. If it is
      taken over, snapshot and commit index are its index; otherwise they stay, and the log always. */
  lemma SnapshotMakesFollower(n: Node, a: SnapArgs)
    ensures var m := Install(n, a);
            if a.term < n.term then m == n
            else
              && m.role.Follower? && m.term == a.term && m.vote == (if a.term == n.term then n.vote else NoVote)
              && m.log == n.log
              && (if TakesImage(n, a) then m.snap == m.commit == a.index else m.snap == n.snap && m.commit == n.commit)
  {
  }

  // ---- what a leader knows of its peers ----

  /** A new leader takes every peer it knows to hold what its snapshot contains, and starts after its
      own log; nothing but role and indices changes. */
  lemma NewLeaderIndices(n: Node)
    ensures var m := BecomeLeader(n);
            && m == n.(role := Leader, nextIndex := m.nextIndex, matchIndex := m.matchIndex)
            && (forall p: nat :: p in n.nextIndex ==> Get(m.nextIndex, p) == |n.log| && Get(m.matchIndex, p) == n.snap)
            && forall p: nat :: p in m.nextIndex ==> Get(m.nextIndex, p) == |n.log|
  {
  }

  /** An accepted request tells the leader that the peer has its last entry, if it did not know of a
      later one; it goes on from the next. Its term, vote, role and log stay, and what it knows of
      others; the commit index does not go back. */
  lemma SuccessRaises(nodes: nat, n: Node, me: nat, server: nat, a: AppendArgs, v: AppendReply)
    requires a.term == n.term && v.success && n.commit < |n.log|
    ensures var m := HandleAppendReply(nodes, n, me, server, a, v);
            var held := Get(m.matchIndex, server);
            && held >= Get(n.matchIndex, server) && held >= a.prev + |a.entries|
            && held in {Get(n.matchIndex, server), a.prev + |a.entries|}
            && Get(m.nextIndex, server) == held + 1 && m.commit >= n.commit
            && m == n.(matchIndex := m.matchIndex, nextIndex := m.nextIndex, commit := m.commit)
            && forall p: nat :: p != server ==>
                 Get(m.matchIndex, p) == Get(n.matchIndex, p) && Get(m.nextIndex, p) == Get(n.nextIndex, p)
  {
    var held := Max(Get(n.matchIndex, server), a.prev + |a.entries|);
    CommitSearchOk(nodes, n, me, n.matchIndex[server := held], LastIndex(n.log));
  }

  /** An accepted request brings the leader's commit index along: as far as it reaches, under either
      rule, and no further under the one in the comment. */
  lemma CommitTravels(r: Rules, n: Node, f: Node, me: nat, prev: nat, full: bool)
    requires prev < |n.log| && HandleAppend(r, f, Request(n, me, prev, full)).1.success
    ensures var (f', end) := (HandleAppend(r, f, Request(n, me, prev, full)).0, if full then |n.log| - 1 else prev);
            && (n.commit <= end ==> f'.commit >= n.commit) && (n.commit <= f.commit ==> f'.commit == f.commit)
            && (n.commit > f.commit && r.commitToLastNew ==> f'.commit == if n.commit <= end then n.commit else end)
            && (n.commit > f.commit && !r.commitToLastNew ==> f'.commit == Max(n.commit, |f'.log| - 1))
  {
  }

  /** After an answer to its snapshot the leader's next request to that peer starts above the snapshot
      and not below where it would have; nothing else changes. */
  lemma SnapshotAnswerRaises(n: Node, server: nat, term: nat)
    requires term <= n.term
    ensures var m := InstallReply(n, server, term);
            && m == n.(nextIndex := m.nextIndex)
            && n.snap < Get(m.nextIndex, server) && Get(n.nextIndex, server) <= Get(m.nextIndex, server)
            && Get(m.nextIndex, server) in {n.snap + 1, Get(n.nextIndex, server)}
            && forall p: nat :: p != server ==> Get(m.nextIndex, p) == Get(n.nextIndex, p)
  {
    var m := InstallReply(n, server, term);
    assert m.nextIndex == n.nextIndex[server := Max(n.snap + 1, Get(n.nextIndex, server))];
  }

  // ---- a snapshot in place of the log ----

  /** The slot without an entry. */
  const Hole: Entry := Entry(0, None)

  /** A node whose log did not hold the last entry of the snapshot it was sent, cut from the log
      `lead`: the new log has no entry at the snapshot's index, and that entry one place above. In
      front stands what the snapshot contains. */
  function Replaced(n: Node, a: SnapArgs, lead: seq<Entry>): Node
    requires a.index < |lead|
  {
    Following(n, a.term).(
      log := lead[..a.index] + [Hole, lead[a.index]], snap := a.index, commit := Max(n.commit, a.index))
  }

  predicate IsReplaced(n: Node, index: nat, lead: seq<Entry>) {
    && index < |lead| && n.log == lead[..index] + [Hole, lead[index]]
    && n.snap == n.commit == index && !n.role.Leader?
  }

  lemma ReplacedIs(n: Node, a: SnapArgs, lead: seq<Entry>)
    requires a.index < |lead| && n.commit <= a.index
    ensures IsReplaced(Replaced(n, a, lead), a.index, lead)
  {
  }

  /** The merge takes the misplaced entry for the next one if their terms are the same. */
  lemma MergeOverGap(log: seq<Entry>, index: nat, lead: seq<Entry>, entries: seq<Entry>)
    requires index < |lead| && log == lead[..index] + [Hole, lead[index]]
    requires SliceOf(lead, index, entries) && entries != []
    ensures var g := Merge(log, index, entries);
            && |g| > index + 1
            && g[index + 1] == if lead[index + 1].term == lead[index].term then lead[index] else lead[index + 1]
  {
    assert log[index + 1] == lead[index] && entries[0] == lead[index + 1];
    var k := Matching(log, index, entries);
    assert k == 0 <==> lead[index + 1].term != lead[index].term;
  }

  lemma GapAccepts(r: Rules, n: Node, index: nat, lead: seq<Entry>, q: AppendArgs)
    requires IsReplaced(n, index, lead) && q.term >= n.term && q.prev == index && q.entries != []
    ensures var (m, reply) := HandleAppend(r, n, q);
            && reply.success && m.log == Merge(n.log, index, q.entries)
            && (q.leaderCommit > index ==> m.commit > index)
  {
  }

  /** The leader's next request repairs such a log exactly when the first entry after the snapshot
      has another term than the snapshot's last, or is the same. Otherwise the follower keeps the
      snapshot's last entry a second time, in place of the next one, and commits it. */
  lemma GapRepairedExactly(r: Rules, n: Node, a: SnapArgs, lead: seq<Entry>, q: AppendArgs)
    requires a.index < |lead| && n.commit <= a.index && n.term <= a.term <= q.term
    requires Carries(lead, q) && q.prev == a.index && q.entries != []
    ensures var (m, reply) := HandleAppend(r, Replaced(n, a, lead), q);
            && reply.success && |m.log| > a.index + 1
            && (m.log[a.index + 1] == lead[a.index + 1] <==>
                  lead[a.index + 1].term != lead[a.index].term || lead[a.index + 1] == lead[a.index])
            && (m.log[a.index + 1] != lead[a.index + 1] ==> m.log[a.index + 1] == lead[a.index])
            && (q.leaderCommit > a.index ==> m.commit > a.index)
  {
    ReplacedIs(n, a, lead);
    GapAccepts(r, Replaced(n, a, lead), a.index, lead, q);
    MergeOverGap(Replaced(n, a, lead).log, a.index, lead, q.entries);
  }

  // ---- resetting a new leader's indices ----

  function Below(i: nat): (s: set<int>)
    ensures (forall k :: k in s <==> 0 <= k < i) && |s| == i
  {
    if i == 0 then {} else
      var s := Below(i - 1);
      assert i - 1 !in s;
      s + {i - 1}
  }

  /** The map after the reset loop has set the ids below i. The ids here are any integers. */
  function ResetBelow(m: map<int, int>, v: int, i: nat): (m': map<int, int>)
    ensures forall k :: k in m' <==> k in m || 0 <= k < i
    ensures forall k :: 0 <= k < i ==> m'[k] == v
  {
    if i == 0 then m else ResetBelow(m, v, i - 1)[i - 1 := v]
  }

  /** The loop is left at i: every guard before it held, and the one at i does not. */
  ghost predicate LeavesAt(m: map<int, int>, v: int, i: nat) {
    |ResetBelow(m, v, i)| <= i && forall k: nat :: k < i ==> |ResetBelow(m, v, k)| > k
  }

  lemma ResetSize(m: map<int, int>, v: int, i: nat)
    ensures |ResetBelow(m, v, i)| == i + |m.Keys - Below(i)|
  {
    assert ResetBelow(m, v, i).Keys == Below(i) + (m.Keys - Below(i));
    assert |ResetBelow(m, v, i)| == |ResetBelow(m, v, i).Keys|;
  }

  lemma LeftWhenSet(m: map<int, int>, v: int, i: nat)
    requires |ResetBelow(m, v, i)| <= i
    ensures m.Keys <= Below(i)
  {
    ResetSize(m, v, i);
    assert m.Keys - Below(i) == {};
  }

  /** With a negative id in the map the guard holds for ever; without one the loop is left, and
      every id has been set by then. */
  lemma ResetEndsExactly(m: map<int, int>, v: int)
    ensures (exists i: nat :: LeavesAt(m, v, i)) <==> forall k :: k in m ==> k >= 0
    ensures forall i: nat, k :: LeavesAt(m, v, i) && k in m ==> k in ResetBelow(m, v, i) && ResetBelow(m, v, i)[k] == v
  {
    forall i: nat | LeavesAt(m, v, i) ensures m.Keys <= Below(i) {
      LeftWhenSet(m, v, i);
    }
    if forall k :: k in m ==> k >= 0 {
      var b := LeastUnset(m.Keys);
      ResetSize(m, v, b);
      assert m.Keys - Below(b) == {};
      forall i: nat | i < b ensures |ResetBelow(m, v, i)| > i {
        ResetSize(m, v, i);
        assert b - 1 in m.Keys - Below(i);
      }
      assert LeavesAt(m, v, b);
    }
  }

  lemma {:induction false} LeastUnset(ids: set<int>) returns (b: nat)
    requires forall k :: k in ids ==> k >= 0
    ensures (forall k :: k in ids ==> k < b) && (b == 0 || b - 1 in ids)
    decreases |ids|
  {
    if i :| i in ids {
      b := LeastUnset(ids - {i});
      assert forall k :: k in ids ==> k == i || k in ids - {i};
      b := if i < b then b else i + 1;
    } else {
      b := 0;
    }
  }
}
