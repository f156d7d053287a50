/** The server itself: the lock sections of `Raftserver` with their loops, over a log that no
    longer holds what a snapshot has replaced. Every method is proved against the function of
    RaftNode on the untrimmed log, so trimming is invisible in replies, log growth and commits. */
module RaftServer {
  import opened Basics
  import opened Quorums
  import opened RaftNode
  import KvMachine

  /** The number of leading entries already in the log is pinned down by how the trimmed log
      looks there. */
  lemma MatchingTrimmed(dropped: seq<Entry>, log: seq<Entry>, prev: nat, entries: seq<Entry>, k: nat)
    requires |dropped| <= prev && k <= |entries|
    requires var base := prev - |dropped| + 1;
             && base + k <= |log| && (forall i :: 0 <= i < k ==> log[base + i].term == entries[i].term)
             && (k == |entries| || base + k == |log| || log[base + k].term != entries[k].term)
    ensures Matching(dropped + log, prev, entries) == k
  {
  }

  lemma MergeTrimmed(dropped: seq<Entry>, log: seq<Entry>, prev: nat, entries: seq<Entry>, k: nat)
    requires |dropped| <= prev < |dropped| + |log| && Matching(dropped + log, prev, entries) == k < |entries|
    ensures Merge(dropped + log, prev, entries) == dropped + (log[..prev - |dropped| + 1 + k] + entries[k..])
  {
    assert (dropped + log)[..prev + 1 + k] == dropped + log[..prev - |dropped| + 1 + k];
  }

  lemma SizeBeyond(ids: set<nat>, i: nat)
    requires All(i) <= ids
    ensures |ids| == i + |ids - All(i)|
  {
    assert ids == All(i) + (ids - All(i));
  }

  /** While the map is larger than the number of ids set, some id has not been reached yet; when
      it is not, all have. */
  lemma ResetProgress(keys: set<nat>, now: set<nat>, i: nat)
    requires i <= Bound(keys) && forall k: nat :: k in now <==> k in keys || k < i
    ensures |now| > i <==> i < Bound(keys)
  {
    SizeBeyond(now, i);
    if i < Bound(keys) {
      assert Bound(keys) - 1 in now - All(i);
    }
    if |now| > i {
      var k :| k in now - All(i);
    }
  }

  /** The maps after the loop has gone past every id. */
  lemma ResetDone(nextIndex: map<nat, int>, matchIndex: map<nat, int>, next: int, held: int,
                  nextIndex': map<nat, int>, matchIndex': map<nat, int>)
    requires matchIndex.Keys <= nextIndex.Keys
    requires forall k: nat :: k in nextIndex' <==> k in nextIndex || k < Bound(nextIndex.Keys)
    requires forall k: nat :: k in matchIndex' <==> k in matchIndex || k < Bound(nextIndex.Keys)
    requires forall k: nat :: k < Bound(nextIndex.Keys) ==> nextIndex'[k] == next && matchIndex'[k] == held
    ensures nextIndex' == Fill(nextIndex.Keys, next) && matchIndex' == matchIndex + Fill(nextIndex.Keys, held)
    ensures matchIndex'.Keys == nextIndex'.Keys >= nextIndex.Keys
    ensures forall k :: k in matchIndex' ==> nextIndex'[k] == next && matchIndex'[k] == held
  {
    assert IsBound(nextIndex.Keys, Bound(nextIndex.Keys));
  }

  /** The loop of a new leader over a map that grows while it runs: it ends, and no entry of an
      earlier leadership survives it. */
  method ResetLoop(nextIndex: map<nat, int>, matchIndex: map<nat, int>, next: int, held: int)
    returns (nextIndex': map<nat, int>, matchIndex': map<nat, int>)
    requires matchIndex.Keys <= nextIndex.Keys
    ensures nextIndex' == Fill(nextIndex.Keys, next)
    ensures matchIndex' == matchIndex + Fill(nextIndex.Keys, held)
    ensures matchIndex'.Keys == nextIndex'.Keys >= nextIndex.Keys
    ensures forall k :: k in matchIndex' ==> nextIndex'[k] == next && matchIndex'[k] == held
  {
    ghost var b := Bound(nextIndex.Keys);
    nextIndex', matchIndex' := nextIndex, matchIndex;
    var i := 0;
    ResetProgress(nextIndex.Keys, nextIndex'.Keys, i);
    while i < |nextIndex'|
      invariant i <= b && (|nextIndex'.Keys| > i <==> i < b)
      invariant forall k: nat :: k in nextIndex' <==> k in nextIndex || k < i
      invariant forall k: nat :: k in matchIndex' <==> k in matchIndex || k < i
      invariant forall k: nat :: k < i ==> nextIndex'[k] == next && matchIndex'[k] == held
      decreases b - i
    {
      assert |nextIndex'| == |nextIndex'.Keys|;
      nextIndex', matchIndex' := nextIndex'[i := next], matchIndex'[i := held];
      i := i + 1;
      ResetProgress(nextIndex.Keys, nextIndex'.Keys, i);
    }
    assert |nextIndex'| == |nextIndex'.Keys|;
    ResetDone(nextIndex, matchIndex, next, held, nextIndex', matchIndex');
  }

  /** The commit search reads the log, the term and the commit index, and the match indices it
      is given. */
  lemma {:induction false} SearchIgnoresIndices(nodes: nat, n: Node, n': Node, me: nat,
                                                matchIndex: map<nat, int>, i: int)
    requires i < |n.log| && n'.log == n.log && n'.term == n.term && n'.commit == n.commit
    ensures CommitSearch(nodes, n, me, matchIndex, i) == CommitSearch(nodes, n', me, matchIndex, i)
    decreases i - n.commit
  {
    if i > n.commit && !Committable(nodes, n, me, matchIndex, i) {
      SearchIgnoresIndices(nodes, n, n', me, matchIndex, i - 1);
    }
  }

  /** One turn of the search: stop when the count is enough, go down otherwise. */
  lemma SearchDown(nodes: nat, n: Node, me: nat, matchIndex: map<nat, int>, i: int, count: nat)
    requires n.commit < i < |n.log|
    requires count == if n.log[i].term == n.term then |Holders(nodes, me, matchIndex, i)| else 1
    ensures CommitSearch(nodes, n, me, matchIndex, i)
              == if Enough(nodes, count) then i else CommitSearch(nodes, n, me, matchIndex, i - 1)
  {
  }

  /** The nodes below p that hold index i, and the leader itself. */
  function Held(matchIndex: map<nat, int>, me: nat, i: int, p: nat): set<nat> {
    {me} + set x | 0 <= x < p && x != me && Get(matchIndex, x) >= i
  }

  lemma HeldGrows(matchIndex: map<nat, int>, me: nat, i: int, p: nat)
    ensures var (h, more) := (Held(matchIndex, me, i, p), if p != me && Get(matchIndex, p) >= i then {p} else {});
            Held(matchIndex, me, i, p + 1) == h + more && |h + more| == |h| + |more|
  {
  }

  class Server {
    const rules: Rules
    const me: nat

    var log: seq<Entry>
    var currentTerm: nat
    var votedFor: int
    var role: Role
    var voteCount: nat
    var commitIndex: nat
    var nextIndex: map<nat, int>
    var matchIndex: map<nat, int>
    var lastIncludedIndex: nat
    var lastIncludedTerm: nat
    var saved: Saved
    /** The image of the service that goes with lastIncludedIndex; none when there is none yet. */
    var snapShot: Option<KvMachine.Store>

    /** The entries that a snapshot has replaced. */
    ghost var dropped: seq<Entry>

    ghost predicate Valid()
      reads this
    {
      && |log| > 0 && |dropped| == lastIncludedIndex <= commitIndex
      && lastIncludedTerm == log[0].term
      && matchIndex.Keys <= nextIndex.Keys
    }

    ghost function View(): Node
      reads this
    {
      Node(dropped + log, currentTerm, votedFor, role, voteCount, commitIndex, lastIncludedIndex,
           nextIndex, matchIndex, saved)
    }

    constructor (rules: Rules, me: nat)
      ensures Valid() && View() == NewNode() && snapShot == None && this.rules == rules && this.me == me
    {
      this.rules, this.me := rules, me;
      log, currentTerm, votedFor, role, voteCount := [Placeholder], 0, NoVote, Follower, 0;
      commitIndex, nextIndex, matchIndex := 0, map[], map[];
      lastIncludedIndex, lastIncludedTerm := 0, 0;
      saved, snapShot := Saved(0, NoVote, 0, 0), None;
      dropped := [];
    }

    function GlobalToLocal(index: int): int
      reads this
    {
      index - lastIncludedIndex
    }

    function LocalToGlobal(index: int): int
      reads this
    {
      index + lastIncludedIndex
    }

    method PersistState()
      modifies this`saved
      ensures View() == Persist(old(View()))
    {
      saved := Saved(currentTerm, votedFor, commitIndex, lastIncludedIndex);
    }

    method RequestVote(a: VoteArgs) returns (reply: VoteReply)
      requires Valid()
      modifies this
      ensures Valid() && (View(), reply) == HandleVote(old(View()), a)
    {
      if a.term < currentTerm {
        return VoteReply(currentTerm, false);
      }
      if a.term > currentTerm {
        votedFor, currentTerm, role := NoVote, a.term, Follower;
        PersistState();
      }
      if votedFor == NoVote || votedFor == a.candidate {
        var lastTerm, lastIndex := log[|log| - 1].term, LocalToGlobal(|log| - 1);
        if a.lastTerm > lastTerm || (a.lastIndex >= lastIndex && a.lastTerm == lastTerm) {
          votedFor := a.candidate;
          PersistState();
          role := Follower;
          return VoteReply(currentTerm, true);
        }
      }
      reply := VoteReply(currentTerm, false);
    }

    /** The end of the scan for the first index of a conflicting term. */
    method ConflictStart(prev: nat, xTerm: nat) returns (x: nat)
      requires Valid() && lastIncludedIndex <= prev < LocalToGlobal(|log|)
      ensures x == RunStart(dropped + log, lastIncludedIndex, xTerm, prev)
    {
      var i := prev;
      while i > lastIncludedIndex && log[GlobalToLocal(i)].term == xTerm
        invariant lastIncludedIndex <= i <= prev
        invariant RunStart(dropped + log, lastIncludedIndex, xTerm, prev)
                    == RunStart(dropped + log, lastIncludedIndex, xTerm, i)
      {
        i := i - 1;
      }
      x := i;
    }

    /** Append any new entries not already in the log. */
    method MergeEntries(prev: nat, entries: seq<Entry>)
      requires Valid() && lastIncludedIndex <= prev < LocalToGlobal(|log|)
      modifies this`log
      ensures Valid() && dropped + log == Merge(dropped + old(log), prev, entries)
    {
      var base := GlobalToLocal(prev) + 1;
      var idx := 0;
      while idx < |entries|
        invariant idx <= |entries| && base + idx <= |log| && log == old(log)
        invariant forall k :: 0 <= k < idx ==> log[base + k].term == entries[k].term
      {
        var ridx := base + idx;
        if ridx < |log| && log[ridx].term != entries[idx].term {
          MatchingTrimmed(dropped, log, prev, entries, idx);
          MergeTrimmed(dropped, log, prev, entries, idx);
          log := log[..ridx] + entries[idx..];
          return;
        } else if ridx == |log| {
          MatchingTrimmed(dropped, log, prev, entries, idx);
          MergeTrimmed(dropped, log, prev, entries, idx);
          assert log[..ridx] == log;
          log := log + entries[idx..];
          return;
        }
        idx := idx + 1;
      }
      MatchingTrimmed(dropped, log, prev, entries, idx);
    }

    /** The consistency check at `prev`. */
    method CheckPrev(a: AppendArgs) returns (refusal: Option<AppendReply>)
      requires Valid()
      ensures refusal == Refusal(View(), a)
    {
      refusal := None;
      if a.prev >= LocalToGlobal(|log|) {
        refusal := Some(AppendReply(currentTerm, false, -1, 0, LocalToGlobal(|log|)));
      } else if a.prev < lastIncludedIndex {
        refusal := Some(AppendReply(currentTerm, false, -1, 0, lastIncludedIndex + 1));
      } else if commitIndex == a.prev {
      } else if log[GlobalToLocal(a.prev)].term != a.prevTerm {
        var xTerm := log[GlobalToLocal(a.prev)].term;
        var i := ConflictStart(a.prev, xTerm);
        refusal := Some(AppendReply(currentTerm, false, xTerm, i + 1, LocalToGlobal(|log|)));
      }
    }

    method AcceptEntries(a: AppendArgs)
      requires Valid() && lastIncludedIndex <= a.prev < LocalToGlobal(|log|)
      modifies this
      ensures Valid() && View() == Accept(rules, old(View()), a)
    {
      if role != Leader {
        MergeEntries(a.prev, a.entries);
      }
      PersistState();
      if a.leaderCommit > commitIndex {
        if rules.commitToLastNew {
          commitIndex := Min(a.leaderCommit, a.prev + |a.entries|);
        } else {
          commitIndex := Max(a.leaderCommit, LocalToGlobal(|log| - 1));
        }
      }
    }

    method AdoptTerm(term: nat)
      requires Valid()
      modifies this
      ensures Valid() && View() == CatchUp(old(View()), term)
    {
      if term > currentTerm {
        currentTerm, votedFor, role := term, NoVote, Follower;
        PersistState();
      }
    }

    method AppendEntries(a: AppendArgs) returns (reply: AppendReply)
      requires Valid()
      modifies this
      ensures Valid() && (View(), reply) == HandleAppend(rules, old(View()), a)
    {
      if a.term < currentTerm {
        return AppendReply(currentTerm, false, 0, 0, 0);
      }
      AdoptTerm(a.term);
      var refusal := CheckPrev(a);
      if refusal.Some? {
        return refusal.value;
      }
      AcceptEntries(a);
      reply := AppendReply(currentTerm, true, 0, lastIncludedIndex, 0);
    }

    // ---- elections ----

    method StartElection() returns (a: VoteArgs)
      requires Valid()
      modifies this
      ensures Valid() && (View(), a) == RaftNode.StartElection(old(View()), me)
    {
      currentTerm := currentTerm + 1;
      role, votedFor := Candidate, me;
      PersistState();
      voteCount := 1;
      a := VoteArgs(currentTerm, me, LocalToGlobal(|log| - 1), log[|log| - 1].term);
    }

    method ProcVoteAnswer(term: nat, r: VoteReply) returns (pass: bool)
      requires Valid()
      modifies this
      ensures Valid() && (View(), pass) == HandleVoteReply(old(View()), term, r)
    {
      if role != Candidate || term != currentTerm {
        return false;
      }
      if r.term > currentTerm {
        currentTerm, votedFor := r.term, NoVote;
        PersistState();
        role := Follower;
      }
      pass := r.granted;
    }

    method ResetIndices()
      requires Valid()
      modifies this`nextIndex, this`matchIndex
      ensures Valid()
      ensures nextIndex == Fill(old(nextIndex.Keys), LocalToGlobal(|log|))
      ensures matchIndex == old(matchIndex) + Fill(old(nextIndex.Keys), lastIncludedIndex)
    {
      nextIndex, matchIndex := ResetLoop(nextIndex, matchIndex, LocalToGlobal(|log|), lastIncludedIndex);
    }

    method CollectVote(term: nat, late: bool)
      requires Valid()
      modifies this
      ensures Valid() && View() == CountVote(rules, old(View()), term, late)
    {
      if rules.recheckVote && !(role == Candidate && currentTerm == term) {
        return;
      }
      if voteCount > (rules.nodes - 1) / 2 {
        return;
      }
      voteCount := voteCount + 1;
      if voteCount > (rules.nodes - 1) / 2 && role == Candidate && !late {
        role := Leader;
        ResetIndices();
      }
    }

    // ---- leadership ----

    method Start(command: Op) returns (index: int, term: int, isLeader: bool)
      requires Valid()
      modifies this
      ensures Valid() && View() == Submit(old(View()), command)
      ensures isLeader == old(role).Leader?
      ensures if isLeader then index == |View().log| - 1 && term == currentTerm else index == term == -1
    {
      if role != Leader {
        return -1, -1, false;
      }
      log := log + [Entry(currentTerm, Some(command))];
      assert dropped + log == dropped + old(log) + [Entry(currentTerm, Some(command))];
      PersistState();
      return LocalToGlobal(|log| - 1), currentTerm, true;
    }

    /** What goes to a peer in a heartbeat tick: nothing but a snapshot when the probe falls below
        the log, otherwise a request from the probe on. */
    method MakeRequest(server: nat) returns (a: Option<AppendArgs>)
      requires Valid() && Get(nextIndex, server) <= LocalToGlobal(|log|)
      ensures var prev := Get(nextIndex, server) - 1;
              if prev < lastIncludedIndex then a == None
              else a == Some(Request(View(), me, prev, true))
    {
      var prev := Get(nextIndex, server) - 1;
      if prev < lastIncludedIndex {
        return None;
      }
      var entries := [];
      if LocalToGlobal(|log| - 1) > prev {
        entries := log[GlobalToLocal(prev + 1)..];
      }
      assert (dropped + log)[prev + 1..] == entries;
      a := Some(AppendArgs(currentTerm, me, prev, log[GlobalToLocal(prev)].term, commitIndex, entries));
    }

    /** The peers that hold index i, counted one by one. */
    method CountHolders(i: nat) returns (count: nat)
      requires Valid() && lastIncludedIndex <= i < LocalToGlobal(|log|)
      ensures count == if View().log[i].term == currentTerm then |Holders(rules.nodes, me, matchIndex, i)| else 1
    {
      count := 1;
      ghost var held := Held(matchIndex, me, i, 0);
      var p := 0;
      while p < rules.nodes
        invariant p <= rules.nodes
        invariant held == Held(matchIndex, me, i, p)
        invariant count == if log[GlobalToLocal(i)].term == currentTerm then |held| else 1
      {
        if p != me {
          if Get(matchIndex, p) >= i && log[GlobalToLocal(i)].term == currentTerm {
            count := count + 1;
          }
        }
        HeldGrows(matchIndex, me, i, p);
        held := Held(matchIndex, me, i, p + 1);
        p := p + 1;
      }
    }

    method AdvanceCommit()
      requires Valid()
      modifies this`commitIndex
      ensures commitIndex == CommitSearch(rules.nodes, old(View()), me, matchIndex, LastIndex(View().log))
    {
      ghost var n := View();
      var i := LocalToGlobal(|log| - 1);
      while i > commitIndex
        invariant i < LocalToGlobal(|log|) && i >= 0 && commitIndex == old(commitIndex)
        invariant CommitSearch(rules.nodes, n, me, matchIndex, LastIndex(n.log))
                    == CommitSearch(rules.nodes, n, me, matchIndex, i)
      {
        var count := CountHolders(i);
        SearchDown(rules.nodes, n, me, matchIndex, i, count);
        if count > (rules.nodes - 1) / 2 {
          break;
        }
        i := i - 1;
      }
      commitIndex := i;
    }

    /** Where to probe next after a refusal in the leader's own term. */
    method BackOff(server: nat, r: AppendReply)
      requires Valid() && Get(nextIndex, server) <= LocalToGlobal(|log|)
      modifies this`nextIndex
      ensures Valid()
      ensures nextIndex ==
        old(nextIndex)[server := Backoff(old(View()), Get(old(nextIndex), server), r, lastIncludedTerm)]
    {
      var next;
      if r.xTerm == -1 {
        next := if lastIncludedTerm >= r.xLen then lastIncludedIndex else r.xLen;
      } else {
        ghost var n := View();
        var i := Get(nextIndex, server) - 1;
        if i < lastIncludedIndex {
          i := lastIncludedIndex;
        }
        ghost var first := i;
        while i > lastIncludedIndex && log[GlobalToLocal(i)].term > r.term
          invariant lastIncludedIndex <= i < LocalToGlobal(|log|)
          invariant ProbeDown(n, r.term, first) == ProbeDown(n, r.term, i)
        {
          i := i - 1;
        }
        var term := log[GlobalToLocal(i)].term;
        assert term == TermAt(n.log, i);
        if i == lastIncludedIndex && term > r.term {
          next := lastIncludedIndex;
        } else if term == r.term {
          next := i + 1;
        } else if r.xIndex <= lastIncludedIndex {
          next := lastIncludedIndex;
        } else {
          next := r.xIndex;
        }
      }
      nextIndex := nextIndex[server := next];
    }

    method OnAppendReply(server: nat, a: AppendArgs, r: AppendReply)
      requires Valid() && (role.Leader? ==> Get(nextIndex, server) <= LocalToGlobal(|log|))
      modifies this
      ensures Valid() && View() == HandleAppendReply(rules.nodes, old(View()), me, server, a, r)
    {
      if a.term != currentTerm {
        return;
      }
      if r.success {
        ghost var n := View();
        matchIndex := matchIndex[server := Max(Get(matchIndex, server), a.prev + |a.entries|)];
        nextIndex := nextIndex[server := matchIndex[server] + 1];
        SearchIgnoresIndices(rules.nodes, n, View(), me, matchIndex, LastIndex(n.log));
        if commitIndex < LocalToGlobal(|log|) {
          CommitSearchOk(rules.nodes, n, me, matchIndex, LastIndex(n.log));
        }
        AdvanceCommit();
        return;
      }
      if r.term > currentTerm {
        AdoptTerm(r.term);
      } else if r.term == currentTerm && role == Leader {
        BackOff(server, r);
      }
    }

    // ---- snapshots ----

    /** Drop the entries in front of a local position. */
    method Trim(local: nat)
      requires local < |log|
      modifies this`dropped, this`log
      ensures dropped == old(dropped + log[..local]) && log == old(log[local..])
      ensures dropped + log == old(dropped + log)
    {
      dropped := dropped + log[..local];
      log := log[local..];
    }

    /** Trim the log up to a committed index that the service has captured in `image`. */
    method Snapshot(index: nat, image: Option<KvMachine.Store>)
      requires Valid() && (index <= commitIndex ==> index < LocalToGlobal(|log|))
      modifies this
      ensures Valid() && View() == Compact(old(View()), index)
      ensures if old(lastIncludedIndex) < index <= old(commitIndex)
              then lastIncludedIndex == index && snapShot == image && log == old(log[index - lastIncludedIndex..])
              else lastIncludedIndex == old(lastIncludedIndex) && snapShot == old(snapShot) && log == old(log)
    {
      if commitIndex < index || index <= lastIncludedIndex {
        return;
      }
      snapShot := image;
      var local := GlobalToLocal(index);
      lastIncludedTerm := log[local].term;
      Trim(local);
      lastIncludedIndex := index;
      PersistState();
    }

    /** The position in the trimmed log of the snapshot's last entry, if the log has it. */
    method FindIncluded(index: nat, term: nat) returns (at: int)
      requires Valid()
      ensures 0 <= at <= |log|
      ensures at < |log| ==> LocalToGlobal(at) == index && log[at].term == term
      ensures at == |log| ==>
        !(lastIncludedIndex <= index < LocalToGlobal(|log|) && log[GlobalToLocal(index)].term == term)
    {
      at := 0;
      while at < |log|
        invariant 0 <= at <= |log|
        invariant forall k :: 0 <= k < at ==> !(LocalToGlobal(k) == index && log[k].term == term)
      {
        if LocalToGlobal(at) == index && log[at].term == term {
          return;
        }
        at := at + 1;
      }
    }

    /** The log holds the snapshot's last entry at local position `at`. */
    method Adopt(at: nat, a: SnapArgs)
      requires Valid() && at < |log| && LocalToGlobal(at) == a.index && log[at].term == a.indexTerm
      modifies this
      ensures Valid() && View() == old(View()).(snap := a.index, commit := Max(old(commitIndex), a.index))
      ensures currentTerm == old(currentTerm)
    {
      Trim(at);
      lastIncludedIndex, lastIncludedTerm := a.index, a.indexTerm;
      if commitIndex < a.index {
        commitIndex := a.index;
      }
    }

    /** A snapshot from the leader. `kept` says that the log held the snapshot's last entry; only
        then is the new log represented. */
    method InstallSnapshot(a: SnapArgs, data: Option<KvMachine.Store>) returns (term: nat, kept: bool)
      requires Valid()
      modifies this
      ensures Valid() && View() == Install(old(View()), a) && term == currentTerm
      ensures kept <==> FindsIncluded(old(View()), a)
      ensures snapShot == if TakesImage(old(View()), a) then data else old(snapShot)
    {
      kept := true;
      if a.term < currentTerm {
        return currentTerm, true;
      }
      if a.term > currentTerm {
        currentTerm, votedFor := a.term, NoVote;
      }
      role := Follower;
      if a.index < lastIncludedIndex || a.index < commitIndex {
        return currentTerm, true;
      }
      var at := FindIncluded(a.index, a.indexTerm);
      if at < |log| {
        Adopt(at, a);
        snapShot := data;
      } else {
        kept := false;
      }
      term := currentTerm;
    }

    method OnInstallReply(server: nat, term: nat)
      requires Valid()
      modifies this
      ensures Valid() && View() == InstallReply(old(View()), server, term)
    {
      if term > currentTerm {
        AdoptTerm(term);
        return;
      }
      nextIndex := nextIndex[server := Max(LocalToGlobal(1), Get(nextIndex, server))];
    }
  }
}
