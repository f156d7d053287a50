/** One Raft node as a value: the state of `Raftserver` and, for every section of code
    that runs under its lock, the function from the state before to the state after and
    the reply. Log positions are global indices into the untrimmed log; `snap` is the
    snapshot index below which a server no longer stores entries. */
module RaftNode {
  import opened Basics
  import opened Quorums

  datatype Op = Op(optype: nat, incrId: nat, clerkId: int, key: string, value: string)

  datatype Entry = Entry(term: nat, command: Option<Op>)

  datatype Role = Leader | Follower | Candidate

  /** What `persist` writes synchronously: term, vote, commit index, and the snapshot index
      that goes with them. */
  datatype Saved = Saved(term: nat, vote: int, commit: nat, snap: nat)

  datatype Node = Node(
    log: seq<Entry>,
    term: nat,
    vote: int,
    role: Role,
    voteCount: nat,
    commit: nat,
    snap: nat,
    nextIndex: map<nat, int>,
    matchIndex: map<nat, int>,
    saved: Saved)

  datatype VoteArgs = VoteArgs(term: nat, candidate: nat, lastIndex: int, lastTerm: nat)
  datatype VoteReply = VoteReply(term: nat, granted: bool)

  datatype AppendArgs = AppendArgs(
    term: nat, leader: nat, prev: int, prevTerm: nat, leaderCommit: nat, entries: seq<Entry>)
  datatype AppendReply = AppendReply(term: nat, success: bool, xTerm: int, xIndex: int, xLen: int)

  datatype SnapArgs = SnapArgs(term: nat, leader: nat, index: nat, indexTerm: nat)

  /** The points where the code departs from the protocol it cites.
      `recheckVote`: a vote is counted only if the node is still a candidate of the vote's term.
      `commitToLastNew`: a follower commits min(leaderCommit, index of last new entry), as its
      comment says, rather than max(leaderCommit, last index). */
  datatype Rules = Rules(nodes: nat, recheckVote: bool, commitToLastNew: bool)

  function Intended(nodes: nat): Rules { Rules(nodes, true, true) }

  const NoVote: int := -1

  const Placeholder: Entry := Entry(0, None)

  function Max(a: int, b: int): int { if a < b then b else a }
  function Min(a: int, b: int): int { if a < b then a else b }

  function LastIndex(log: seq<Entry>): int { |log| - 1 }

  function LastTerm(log: seq<Entry>): nat {
    if log == [] then 0 else log[|log| - 1].term
  }

  /** A missing key of a Go map reads as zero. */
  function Get(m: map<nat, int>, k: nat): int {
    if k in m then m[k] else 0
  }

  function NewNode(): Node {
    Node([Placeholder], 0, NoVote, Follower, 0, 0, 0, map[], map[], Saved(0, NoVote, 0, 0))
  }

  function Persist(n: Node): Node {
    n.(saved := Saved(n.term, n.vote, n.commit, n.snap))
  }

  /** Adopt a higher term seen in a request or a reply. */
  function StepDown(n: Node, term: nat): Node {
    Persist(n.(term := term, vote := NoVote, role := Follower))
  }

  /** A restart reloads the saved state; the log survives in full. The snapshot on disk may be
      an older one than the last snapshot saved in memory. */
  function Restart(n: Node, snap: nat): Node {
    Node(n.log, n.saved.term, n.saved.vote, Follower, 0, n.saved.commit, snap, map[], map[],
         n.saved.(snap := snap))
  }

  // ---- elections ----

  function StartElection(n: Node, me: nat): (Node, VoteArgs) {
    var m := Persist(n.(term := n.term + 1, vote := me, role := Candidate)).(voteCount := 1);
    (m, VoteArgs(m.term, me, LastIndex(m.log), LastTerm(m.log)))
  }

  predicate UpToDate(a: VoteArgs, log: seq<Entry>) {
    a.lastTerm > LastTerm(log) || (a.lastIndex >= LastIndex(log) && a.lastTerm == LastTerm(log))
  }

  predicate Grants(n: Node, a: VoteArgs) {
    (n.vote == NoVote || n.vote == a.candidate) && UpToDate(a, n.log)
  }

  function Grant(n: Node, a: VoteArgs): Node {
    Persist(n.(vote := a.candidate)).(role := Follower)
  }

  function CatchUp(n: Node, term: nat): Node {
    if term > n.term then StepDown(n, term) else n
  }

  function HandleVote(n: Node, a: VoteArgs): (Node, VoteReply) {
    if a.term < n.term then (n, VoteReply(n.term, false)) else
      var m := CatchUp(n, a.term);
      if Grants(m, a) then (Grant(m, a), VoteReply(m.term, true))
      else (m, VoteReply(m.term, false))
  }

  /** The first lock section of a vote reply: `some` of the state, and whether the vote is
      passed on to be counted. */
  function HandleVoteReply(n: Node, term: nat, r: VoteReply): (Node, bool) {
    if !n.role.Candidate? || term != n.term then (n, false)
    else (CatchUp(n, r.term), r.granted)
  }

  predicate IsBound(ids: set<nat>, b: nat) {
    (forall i :: i in ids ==> i < b) && (b == 0 || b - 1 in ids)
  }

  lemma {:induction false} BoundExists(ids: set<nat>) returns (b: nat)
    ensures IsBound(ids, b)
    decreases |ids|
  {
    if ids == {} {
      b := 0;
    } else {
      var i :| i in ids;
      b := BoundExists(ids - {i});
      assert forall k :: k in ids ==> k == i || k in ids - {i};
      b := if i < b then b else i + 1;
    }
  }

  /** One more than the greatest id, zero when there is none. */
  ghost function Bound(ids: set<nat>): (b: nat)
    ensures IsBound(ids, b)
  {
    assert exists b: nat :: IsBound(ids, b) by {
      var b := BoundExists(ids);
    }
    var b: nat :| IsBound(ids, b);
    b
  }

  function FillTo(b: nat, v: int): (m: map<nat, int>)
    ensures forall i: nat :: i in m <==> i < b
    ensures forall i :: i in m ==> m[i] == v
  {
    if b == 0 then map[] else FillTo(b - 1, v)[b - 1 := v]
  }

  /** Every id up to the greatest. */
  ghost function Fill(ids: set<nat>, v: int): map<nat, int> {
    FillTo(Bound(ids), v)
  }

  ghost function BecomeLeader(n: Node): Node {
    n.(role := Leader,
       nextIndex := Fill(n.nextIndex.Keys, |n.log|),
       matchIndex := n.matchIndex + Fill(n.nextIndex.Keys, n.snap))
  }

  /** The second lock section: count a vote cast for term `term`. `late` says that the election
      timer has run out. */
  ghost function CountVote(r: Rules, n: Node, term: nat, late: bool): Node {
    if r.recheckVote && !(n.role.Candidate? && n.term == term) then n
    else if Enough(r.nodes, n.voteCount) then n
    else
      var m := n.(voteCount := n.voteCount + 1);
      if Enough(r.nodes, m.voteCount) && m.role.Candidate? && !late then BecomeLeader(m) else m
  }

  // ---- replication ----

  function Submit(n: Node, command: Op): Node {
    if n.role.Leader? then Persist(n.(log := n.log + [Entry(n.term, Some(command))])) else n
  }

  function Request(n: Node, me: nat, prev: nat, full: bool): AppendArgs
    requires prev < |n.log|
  {
    AppendArgs(n.term, me, prev, n.log[prev].term, n.commit, if full then n.log[prev + 1..] else [])
  }

  /** The number of leading entries whose slots are already filled with the same term. */
  function Matching(log: seq<Entry>, prev: nat, entries: seq<Entry>): (k: nat)
    requires prev < |log|
    ensures k <= |entries| && prev + k < |log|
    ensures forall i :: 0 <= i < k ==> log[prev + 1 + i].term == entries[i].term
    ensures k < |entries| && prev + 1 + k < |log| ==> log[prev + 1 + k].term != entries[k].term
    decreases |entries|
  {
    if entries == [] || prev + 1 >= |log| || log[prev + 1].term != entries[0].term then 0
    else
      var k := Matching(log, prev + 1, entries[1..]);
      assert forall i :: 0 < i < k + 1 ==> entries[i] == entries[1..][i - 1];
      k + 1
  }

  function Merge(log: seq<Entry>, prev: nat, entries: seq<Entry>): seq<Entry>
    requires prev < |log|
  {
    var k := Matching(log, prev, entries);
    if k == |entries| then log else log[..prev + 1 + k] + entries[k..]
  }

  function FollowerCommit(r: Rules, commit: nat, leaderCommit: nat, lastNew: nat, last: nat): nat {
    if leaderCommit <= commit then commit
    else if r.commitToLastNew then Min(leaderCommit, lastNew)
    else Max(leaderCommit, last)
  }

  /** First index of the run of entries with the term at `i`, searched down to `snap`. */
  function RunStart(log: seq<Entry>, snap: nat, term: nat, i: nat): (x: nat)
    requires snap <= i < |log|
    ensures snap <= x <= i
    ensures forall k :: x < k <= i ==> log[k].term == term
    ensures x > snap ==> log[x].term != term
  {
    if i > snap && log[i].term == term then RunStart(log, snap, term, i - 1) else i
  }

  /** The consistency check at `prev`: None when it passes. */
  function Refusal(n: Node, a: AppendArgs): Option<AppendReply> {
    if a.prev >= |n.log| then Some(AppendReply(n.term, false, -1, 0, |n.log|))
    else if a.prev < n.snap then Some(AppendReply(n.term, false, -1, 0, n.snap + 1))
    else if n.commit == a.prev then None
    else if n.log[a.prev].term != a.prevTerm then
      var x := n.log[a.prev].term;
      Some(AppendReply(n.term, false, x, RunStart(n.log, n.snap, x, a.prev) + 1, |n.log|))
    else None
  }

  function Accept(r: Rules, n: Node, a: AppendArgs): Node
    requires 0 <= a.prev < |n.log|
  {
    var log := if n.role.Leader? then n.log else Merge(n.log, a.prev, a.entries);
    var m := Persist(n.(log := log));
    m.(commit := FollowerCommit(r, n.commit, a.leaderCommit, a.prev + |a.entries|, Max(0, LastIndex(log))))
  }

  function HandleAppend(r: Rules, n: Node, a: AppendArgs): (Node, AppendReply) {
    if a.term < n.term then (n, AppendReply(n.term, false, 0, 0, 0)) else
      var m := CatchUp(n, a.term);
      var refusal := Refusal(m, a);
      if refusal.Some? then (m, refusal.value)
      else (Accept(r, m, a), AppendReply(m.term, true, 0, m.snap, 0))
  }

  // ---- replies to the leader ----

  function Holders(nodes: nat, me: nat, matchIndex: map<nat, int>, i: int): set<nat> {
    {me} + set p | 0 <= p < nodes && p != me && Get(matchIndex, p) >= i
  }

  predicate Committable(nodes: nat, n: Node, me: nat, matchIndex: map<nat, int>, i: nat)
    requires i < |n.log|
  {
    var count := if n.log[i].term == n.term then |Holders(nodes, me, matchIndex, i)| else 1;
    Enough(nodes, count)
  }

  /** The downward search of the commit loop. */
  function CommitSearch(nodes: nat, n: Node, me: nat, matchIndex: map<nat, int>, i: int): int
    requires i < |n.log|
    decreases i - n.commit
  {
    if i <= n.commit || Committable(nodes, n, me, matchIndex, i) then i
    else CommitSearch(nodes, n, me, matchIndex, i - 1)
  }

  lemma {:induction false} CommitSearchOk(nodes: nat, n: Node, me: nat, matchIndex: map<nat, int>, i: int)
    requires n.commit <= i < |n.log|
    ensures var c := CommitSearch(nodes, n, me, matchIndex, i);
            n.commit <= c <= i && (c > n.commit ==> Committable(nodes, n, me, matchIndex, c))
    decreases i - n.commit
  {
    if i > n.commit && !Committable(nodes, n, me, matchIndex, i) {
      CommitSearchOk(nodes, n, me, matchIndex, i - 1);
    }
  }

  lemma {:induction false} CommitSearchGreatest(nodes: nat, n: Node, me: nat, matchIndex: map<nat, int>, i: int, k: int)
    requires n.commit <= i < |n.log| && CommitSearch(nodes, n, me, matchIndex, i) < k <= i
    ensures k > 0 && !Committable(nodes, n, me, matchIndex, k)
    decreases i - n.commit
  {
    CommitSearchOk(nodes, n, me, matchIndex, i);
    if k < i {
      assert CommitSearch(nodes, n, me, matchIndex, i) == CommitSearch(nodes, n, me, matchIndex, i - 1);
      CommitSearchGreatest(nodes, n, me, matchIndex, i - 1, k);
    }
  }

  /** Where the leader probes next after a refusal in its own term. */
  function Backoff(n: Node, next: int, r: AppendReply, snapTerm: nat): int {
    if r.xTerm == -1 then
      if snapTerm >= r.xLen then n.snap else r.xLen
    else
      var i := ProbeDown(n, r.term, Max(next - 1, n.snap));
      if i == n.snap && TermAt(n.log, i) > r.term then n.snap
      else if TermAt(n.log, i) == r.term then i + 1
      else if r.xIndex <= n.snap then n.snap
      else r.xIndex
  }

  function TermAt(log: seq<Entry>, i: int): int {
    if 0 <= i < |log| then log[i].term else -1
  }

  function ProbeDown(n: Node, term: nat, i: int): int
    decreases i - n.snap
  {
    if i > n.snap && TermAt(n.log, i) > term then ProbeDown(n, term, i - 1) else i
  }

  function HandleAppendReply(nodes: nat, n: Node, me: nat, server: nat, a: AppendArgs, r: AppendReply): Node {
    if a.term != n.term then n
    else if r.success then
      var held := Max(Get(n.matchIndex, server), a.prev + |a.entries|);
      var matchIndex := n.matchIndex[server := held];
      n.(matchIndex := matchIndex,
         nextIndex := n.nextIndex[server := held + 1],
         commit := Max(0, CommitSearch(nodes, n, me, matchIndex, LastIndex(n.log))))
    else if r.term > n.term then StepDown(n, r.term)
    else if r.term == n.term && n.role.Leader? then
      n.(nextIndex := n.nextIndex[server := Backoff(n, Get(n.nextIndex, server), r, Max(0, TermAt(n.log, n.snap)))])
    else n
  }

  // ---- snapshots ----

  function Compact(n: Node, index: nat): Node {
    if n.commit < index || index <= n.snap then n else Persist(n.(snap := index))
  }

  /** The receiver of a snapshot of its term or a later one follows its sender. */
  function Following(n: Node, term: nat): Node {
    if term > n.term then n.(term := term, vote := NoVote, role := Follower) else n.(role := Follower)
  }

  /** The branch in which the log holds the snapshot's last entry. Without that entry the server
      replaces its log by one with a nil at the snapshot index; that state is not represented
      and the request then only changes term and role. */
  function Install(n: Node, a: SnapArgs): Node {
    if a.term < n.term then n else
      var m := Following(n, a.term);
      if a.index < m.snap || a.index < m.commit then m
      else if a.index < |m.log| && m.log[a.index].term == a.indexTerm then
        m.(snap := a.index, commit := Max(m.commit, a.index))
      else m
  }

  /** The snapshot is taken over, with its last entry found in the log. */
  predicate TakesImage(n: Node, a: SnapArgs) {
    && a.term >= n.term && a.index >= n.snap && a.index >= n.commit
    && a.index < |n.log| && n.log[a.index].term == a.indexTerm
  }

  /** The snapshot request leaves the log alone, or finds its last entry in it. */
  predicate FindsIncluded(n: Node, a: SnapArgs) {
    a.term < n.term || a.index < n.snap || a.index < n.commit
    || (a.index < |n.log| && n.log[a.index].term == a.indexTerm)
  }

  function InstallReply(n: Node, server: nat, term: nat): Node {
    if term > n.term then StepDown(n, term)
    else n.(nextIndex := n.nextIndex[server := Max(n.snap + 1, Get(n.nextIndex, server))])
  }
}
