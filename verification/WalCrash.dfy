/** A truncation that stops between any two disk operations leaves the old log or the new one. */
module WalCrash {
  import opened Basics
  import opened WalFrames
  import opened WalDisk

  /** The marker an unfinished truncation left behind. */
  datatype Mark = NoMark | AtStart(index: nat) | AtEnd(index: nat)

  ghost predicate Marked(d: Disk, m: Mark) {
    match m
    case NoMark => forall f :: f in d ==> !f.Start? && !f.End?
    case AtStart(k) => k >= 1 && Start(k) in d && forall f :: f in d && (f.Start? || f.End?) ==> f == Start(k)
    case AtEnd(k) => k >= 1 && End(k) in d && forall f :: f in d && (f.Start? || f.End?) ==> f == End(k)
  }

  /** The segments up to k are gone, and the marked one has taken the place of the last. */
  function FrontDone(d: Disk, k: nat): Disk
    requires Start(k) in d
  {
    (d - set f | f in d && (f == Start(k) || (f.Seg? && 1 <= f.index <= k)))[Seg(k) := d[Start(k)]]
  }

  /** The segments from k on are gone, and the marked one has taken the place of the first. */
  function BackDone(d: Disk, k: nat): Disk
    requires End(k) in d
  {
    (d - set f | f in d && (f == End(k) || (f.Seg? && f.index >= k)))[Seg(k) := d[End(k)]]
  }

  ghost function Done(d: Disk, m: Mark): Disk
    requires Marked(d, m)
  {
    match m
    case NoMark => if exists f :: f in d && Known(f) then d else d[Seg(1) := []]
    case AtStart(k) => FrontDone(d, k)
    case AtEnd(k) => BackDone(d, k)
  }

  /** The disk after opening was cut short in turn after cuts[0], cuts[1], ... operations. */
  ghost function Interrupted(d: Disk, cuts: seq<nat>): Disk {
    if cuts == [] then d
    else
      var before := Interrupted(d, cuts[..|cuts| - 1]);
      var ops := RecoverOps(Listing(before));
      var c := cuts[|cuts| - 1];
      Run(before, if c < |ops| then ops[..c] else ops)
  }

  // ---- a directory holding a START marker ----

  lemma StartFound(d: Disk, k: nat, l: seq<File>)
    requires Marked(d, AtStart(k)) && IsListing(l, d)
    ensures FirstEnd(l) == -1 && LastStart(l) >= 0 && l[LastStart(l)] == Start(k)
  {
    assert Start(k) in l;
    assert forall i :: 0 <= i < |l| ==> l[i] in d;
  }

  lemma StartListed(d: Disk, k: nat, l: seq<File>)
    requires Marked(d, AtStart(k)) && IsListing(l, d)
    ensures FirstEnd(l) == -1 && LastStart(l) >= 0 && l[LastStart(l)] == Start(k)
    ensures forall f :: f in l[..LastStart(l)] <==> f in d && f.Seg? && 1 <= f.index <= k
  {
    StartFound(d, k, l);
    var s := LastStart(l);
    forall f | f in l[..s] ensures f in d && f.Seg? && 1 <= f.index <= k {
      var i :| 0 <= i < s && l[i] == f;
      assert l[i] in l && Rank(l[i]) < Rank(l[s]);
    }
    forall f | f in d && f.Seg? && 1 <= f.index <= k ensures f in l[..s] {
      assert f in l;
      var i :| 0 <= i < |l| && l[i] == f;
      assert Rank(l[i]) < Rank(l[s]);
    }
  }

  lemma StartLess(d: Disk, k: nat, gone: set<File>)
    requires Marked(d, AtStart(k))
    requires forall f :: f in gone ==> f.Seg? && 1 <= f.index <= k
    ensures Marked(d - gone, AtStart(k)) && FrontDone(d - gone, k) == FrontDone(d, k)
  {
  }

  lemma StartCut(d: Disk, k: nat, l: seq<File>, c: nat, d': Disk)
    requires Marked(d, AtStart(k)) && IsListing(l, d) && c < |RecoverOps(l)| && d' == Run(d, RecoverOps(l)[..c])
    ensures Marked(d', AtStart(k)) && Done(d', AtStart(k)) == Done(d, AtStart(k))
  {
    StartListed(d, k, l);
    var s := LastStart(l);
    assert RecoverOps(l)[..c] == Removes(l[..c]);
    RunRemoves(d, l[..c]);
    assert forall i :: 0 <= i < c ==> l[i] in l[..s];
    StartLess(d, k, Names(l[..c]));
  }

  lemma StartRecovered(d: Disk, k: nat, l: seq<File>)
    requires Marked(d, AtStart(k)) && IsListing(l, d)
    ensures Run(d, RecoverOps(l)) == FrontDone(d, k)
  {
    StartListed(d, k, l);
    var s := LastStart(l);
    var op := Rename(Start(k), Seg(k));
    assert RecoverOps(l) == Removes(l[..s]) + [op];
    RunSnoc(d, Removes(l[..s]), op);
    RunRemoves(d, l[..s]);
    assert Step(d - Names(l[..s]), op) == FrontDone(d, k);
  }

  // ---- a directory holding an END marker ----

  lemma {:induction false} ReversedSame(l: seq<File>)
    ensures forall f :: f in Reversed(l) <==> f in l
    decreases |l|
  {
    if l != [] {
      var front, z := l[..|l| - 1], l[|l| - 1];
      ReversedSame(front);
      assert forall f :: f in l <==> f in front || f == z;
    }
  }

  lemma EndFound(d: Disk, k: nat, l: seq<File>)
    requires Marked(d, AtEnd(k)) && IsListing(l, d)
    ensures LastStart(l) == -1 && FirstEnd(l) >= 0 && l[FirstEnd(l)] == End(k)
  {
    assert End(k) in l;
    assert forall i :: 0 <= i < |l| ==> l[i] in d;
  }

  lemma EndListed(d: Disk, k: nat, l: seq<File>)
    requires Marked(d, AtEnd(k)) && IsListing(l, d)
    ensures LastStart(l) == -1 && FirstEnd(l) >= 0 && l[FirstEnd(l)] == End(k)
    ensures forall f :: f in l[FirstEnd(l) + 1..] <==> f in d && f.Seg? && f.index > k
  {
    EndFound(d, k, l);
    var e := FirstEnd(l);
    forall f | f in l[e + 1..] ensures f in d && f.Seg? && f.index > k {
      var i :| e < i < |l| && l[i] == f;
      assert l[i] in l && Rank(l[e]) < Rank(l[i]);
    }
    forall f | f in d && f.Seg? && f.index > k ensures f in l[e + 1..] {
      assert f in l;
      var i :| 0 <= i < |l| && l[i] == f;
      assert Rank(l[e]) < Rank(l[i]);
      assert l[e + 1..][i - e - 1] == f;
    }
  }

  lemma EndLess(d: Disk, k: nat, gone: set<File>)
    requires Marked(d, AtEnd(k))
    requires forall f :: f in gone ==> f.Seg? && f.index >= k
    ensures Marked(d - gone, AtEnd(k)) && BackDone(d - gone, k) == BackDone(d, k)
  {
  }

  lemma EndCut(d: Disk, k: nat, l: seq<File>, c: nat, d': Disk)
    requires Marked(d, AtEnd(k)) && IsListing(l, d) && c < |RecoverOps(l)| && d' == Run(d, RecoverOps(l)[..c])
    ensures Marked(d', AtEnd(k)) && Done(d', AtEnd(k)) == Done(d, AtEnd(k))
  {
    EndListed(d, k, l);
    var gone := Reversed(l[FirstEnd(l) + 1..]);
    ReversedSame(l[FirstEnd(l) + 1..]);
    assert RecoverOps(l)[..c] == Removes(gone[..c]);
    RunRemoves(d, gone[..c]);
    assert forall f :: f in gone[..c] ==> f in gone;
    EndLess(d, k, Names(gone[..c]));
  }

  lemma EndRenamed(d: Disk, k: nat, gone: seq<File>)
    requires Marked(d, AtEnd(k)) && forall f :: f in gone <==> f in d && f.Seg? && f.index > k
    ensures Step(d - Names(gone), Rename(End(k), Seg(k))) == BackDone(d, k)
  {
  }

  lemma EndRecovered(d: Disk, k: nat, l: seq<File>)
    requires Marked(d, AtEnd(k)) && IsListing(l, d)
    ensures Run(d, RecoverOps(l)) == BackDone(d, k)
  {
    EndListed(d, k, l);
    var gone := Reversed(l[FirstEnd(l) + 1..]);
    ReversedSame(l[FirstEnd(l) + 1..]);
    var op := Rename(End(k), Seg(k));
    assert RecoverOps(l) == Removes(gone) + [op];
    RunSnoc(d, Removes(gone), op);
    RunRemoves(d, gone);
    EndRenamed(d, k, gone);
  }

  // ---- recovery in general ----

  lemma UnmarkedListed(d: Disk, l: seq<File>)
    requires Marked(d, NoMark) && IsListing(l, d)
    ensures LastStart(l) == -1 && FirstEnd(l) == -1
    ensures l == [] <==> !exists f :: f in d && Known(f)
  {
    assert forall i :: 0 <= i < |l| ==> l[i] in d;
  }

  /** Recovery finishes the truncation its marker stands for. */
  lemma RecoverIs(d: Disk, m: Mark)
    requires Marked(d, m)
    ensures Recover(d) == Done(d, m)
  {
    var l := Listing(d);
    match m
    case NoMark =>
      UnmarkedListed(d, l);
      if l == [] { RunSnoc(d, [], Write(Seg(1), [])); assert [] + RecoverOps(l) == RecoverOps(l); }
    case AtStart(k) => StartRecovered(d, k, l);
    case AtEnd(k) => EndRecovered(d, k, l);
  }

  lemma DoneUnmarked(d: Disk, m: Mark)
    requires Marked(d, m)
    ensures Marked(Done(d, m), NoMark) && Done(Done(d, m), NoMark) == Done(d, m)
  {
    match m
    case NoMark => assert Done(d, m) != d ==> Seg(1) in Done(d, m) && Known(Seg(1));
    case AtStart(k) => assert Seg(k) in Done(d, m) && Known(Seg(k));
    case AtEnd(k) => assert Seg(k) in Done(d, m) && Known(Seg(k));
  }

  /** A recovery cut short anywhere leaves a disk that recovers to the same thing. */
  lemma RecoverCut(d: Disk, m: Mark, c: nat) returns (m': Mark)
    requires Marked(d, m) && c <= |RecoverOps(Listing(d))|
    ensures Marked(Run(d, RecoverOps(Listing(d))[..c]), m')
    ensures Done(Run(d, RecoverOps(Listing(d))[..c]), m') == Done(d, m)
  {
    var l := Listing(d);
    var ops := RecoverOps(l);
    if c == |ops| {
      assert ops[..c] == ops;
      RecoverIs(d, m);
      DoneUnmarked(d, m);
      m' := NoMark;
    } else {
      m' := m;
      CutShort(d, m, l, c, Run(d, ops[..c]));
    }
  }

  lemma CutShort(d: Disk, m: Mark, l: seq<File>, c: nat, d': Disk)
    requires Marked(d, m) && IsListing(l, d) && c < |RecoverOps(l)| && d' == Run(d, RecoverOps(l)[..c])
    ensures Marked(d', m) && Done(d', m) == Done(d, m)
  {
    match m
    case NoMark => UnmarkedListed(d, l);
    case AtStart(k) => StartCut(d, k, l, c, d');
    case AtEnd(k) => EndCut(d, k, l, c, d');
  }

  lemma {:induction false} InterruptedDone(d: Disk, m: Mark, cuts: seq<nat>) returns (m': Mark)
    requires Marked(d, m)
    ensures Marked(Interrupted(d, cuts), m') && Done(Interrupted(d, cuts), m') == Done(d, m)
    decreases |cuts|
  {
    if cuts == [] {
      m' := m;
    } else {
      var front := cuts[..|cuts| - 1];
      var m1 := InterruptedDone(d, m, front);
      var before := Interrupted(d, front);
      var ops := RecoverOps(Listing(before));
      var c := cuts[|cuts| - 1];
      m' := RecoverCut(before, m1, if c < |ops| then c else |ops|);
      assert ops[..|ops|] == ops;
    }
  }

  /** Opening a log may be cut short any number of times: the run that completes gives what an
      uninterrupted one would have given. */
  lemma RecoveryRestarts(d: Disk, m: Mark, cuts: seq<nat>)
    requires Marked(d, m)
    ensures Recover(Interrupted(d, cuts)) == Recover(d)
  {
    var m' := InterruptedDone(d, m, cuts);
    RecoverIs(Interrupted(d, cuts), m');
    RecoverIs(d, m);
  }

  // ---- the listing after recovery ----

  /** Every file has one place in a listing. */
  lemma SplitListing(l: seq<File>, p: nat)
    requires AllKnown(l) && Ascending(l) && p < |l|
    ensures forall f :: f in l[p + 1..] <==> f in l && f != l[p] && f !in l[..p]
    ensures forall f :: f in l[..p] <==> f in l && f != l[p] && f !in l[p + 1..]
  {
    assert l == l[..p] + [l[p]] + l[p + 1..];
    forall i, j | 0 <= i < j < |l| ensures l[i] != l[j] {
      assert Rank(l[i]) < Rank(l[j]);
    }
  }

  lemma StartMembers(d: Disk, l: seq<File>, s: nat)
    requires IsListing(l, d) && LastStart(l) == s && FirstEnd(l) < 0
    ensures forall f :: f in Run(d, RecoverOps(l)) && Known(f) <==> f == Seg(l[s].index) || f in l[s + 1..]
  {
    SplitListing(l, s);
    assert l[s] in l;
    var op := Rename(l[s], Seg(l[s].index));
    RunSnoc(d, Removes(l[..s]), op);
    RunRemoves(d, l[..s]);
    assert l[s] in d - Names(l[..s]);
  }

  lemma KeptAfterStart(d: Disk, l: seq<File>)
    requires IsListing(l, d) && LastStart(l) >= 0 && FirstEnd(l) < 0
    ensures IsListing(Kept(l), Run(d, RecoverOps(l)))
  {
    var s := LastStart(l);
    var kept := [Seg(l[s].index)] + l[s + 1..];
    assert Kept(l) == kept;
    RestAscending(l, s);
    StartMembers(d, l, s);
    ListedAgain(kept, Seg(l[s].index), l[s + 1..], Run(d, RecoverOps(l)));
  }

  lemma ListedAgain(kept: seq<File>, f0: File, rest: seq<File>, d: Disk)
    requires kept == [f0] + rest && AllKnown(kept) && Ascending(kept)
    requires forall f :: f in d && Known(f) <==> f == f0 || f in rest
    ensures IsListing(kept, d)
  {
    assert forall f :: f in kept <==> f == f0 || f in rest;
  }

  lemma RestAscending(l: seq<File>, s: nat)
    requires AllKnown(l) && Ascending(l) && s < |l| && l[s].Start?
    ensures AllKnown([Seg(l[s].index)] + l[s + 1..]) && Ascending([Seg(l[s].index)] + l[s + 1..])
  {
    forall i | s < i < |l| ensures Rank(Seg(l[s].index)) < Rank(l[i]) {
      assert Rank(l[s]) < Rank(l[i]);
    }
  }

  lemma EndMembers(d: Disk, l: seq<File>, e: nat)
    requires IsListing(l, d) && LastStart(l) < 0 && FirstEnd(l) == e
    ensures forall f :: f in Run(d, RecoverOps(l)) && Known(f) <==> f == Seg(l[e].index) || f in l[..e]
  {
    var gone := Reversed(l[e + 1..]);
    SplitListing(l, e);
    ReversedSame(l[e + 1..]);
    assert l[e] in l;
    var op := Rename(l[e], Seg(l[e].index));
    RunSnoc(d, Removes(gone), op);
    RunRemoves(d, gone);
    assert l[e] in d - Names(gone);
  }

  lemma KeptBeforeEnd(d: Disk, l: seq<File>)
    requires IsListing(l, d) && LastStart(l) < 0 && FirstEnd(l) >= 0
    ensures IsListing(Kept(l), Run(d, RecoverOps(l)))
  {
    var e := FirstEnd(l);
    EndMembers(d, l, e);
    KeptSorted(l, e);
    KeptMembers(l, e);
  }

  lemma KeptMembers(l: seq<File>, e: nat)
    requires AllKnown(l) && Ascending(l) && e < |l| && l[e].End? && FirstEnd(l) == e && LastStart(l) < 0
    ensures forall f :: f in Kept(l) <==> f == Seg(l[e].index) || f in l[..e]
  {
    var kept := Kept(l);
    KeptSorted(l, e);
    forall f | f == Seg(l[e].index) || f in l[..e] ensures f in kept {
      if f == Seg(l[e].index) {
        assert kept[|kept| - 1] == f;
      } else {
        var i :| 0 <= i < e && l[i] == f;
        assert kept[i] == f;
      }
    }
    forall i | 0 <= i < |kept| ensures kept[i] == Seg(l[e].index) || kept[i] in l[..e] {
      if i < |kept| - 1 { assert l[..e][i] == kept[i]; }
    }
  }

  lemma KeptSorted(l: seq<File>, e: nat)
    requires AllKnown(l) && Ascending(l) && e < |l| && l[e].End? && FirstEnd(l) == e && LastStart(l) < 0
    ensures AllKnown(Kept(l)) && Ascending(Kept(l))
    ensures forall i :: 0 <= i < |Kept(l)| - 1 ==> i < e && Kept(l)[i] == l[i]
    ensures forall i :: 0 <= i < e && l[i] != Seg(l[e].index) ==> i < |Kept(l)| - 1
  {
    var n := if e > 0 && l[e - 1].index == l[e].index then e - 1 else e;
    assert Kept(l) == l[..n] + [Seg(l[e].index)];
    RanksBelow(l, e, n);
    SortedSnoc(l, n, Seg(l[e].index));
    assert n == e - 1 ==> l[n] == Seg(l[e].index);
  }

  lemma SortedSnoc(l: seq<File>, n: nat, f: File)
    requires AllKnown(l) && Ascending(l) && n <= |l| && Known(f)
    requires forall i :: 0 <= i < n ==> Rank(l[i]) < Rank(f)
    ensures AllKnown(l[..n] + [f]) && Ascending(l[..n] + [f])
  {
  }

  /** Everything in front of an END marker ranks below the segment it will become, but for that
      segment itself. */
  lemma RanksBelow(l: seq<File>, e: nat, n: nat)
    requires AllKnown(l) && Ascending(l) && e < |l| && l[e].End?
    requires n == if e > 0 && l[e - 1].index == l[e].index then e - 1 else e
    ensures forall i :: 0 <= i < n ==> Rank(l[i]) < Rank(Seg(l[e].index))
  {
    forall i | 0 <= i < n ensures Rank(l[i]) < Rank(Seg(l[e].index)) {
      assert Rank(l[i]) < Rank(l[e]);
      assert i < e - 1 ==> Rank(l[i]) < Rank(l[e - 1]);
      assert e > 0 ==> Rank(l[e - 1]) < Rank(l[e]);
    }
  }

  /** The segments a log is opened with are all there is in its directory, in index order. */
  lemma KeptListing(d: Disk, l: seq<File>)
    requires IsListing(l, d) && !Muddled(l)
    ensures IsListing(Kept(l), Run(d, RecoverOps(l)))
  {
    if l == [] {
      RunSnoc(d, [], Write(Seg(1), []));
      assert [] + RecoverOps(l) == RecoverOps(l);
    } else if LastStart(l) >= 0 {
      KeptAfterStart(d, l);
    } else if FirstEnd(l) >= 0 {
      KeptBeforeEnd(d, l);
    }
  }

  // ---- truncations ----

  /** The files that are part of a log. */
  function Core(d: Disk): Disk { d - set f | f in d && f.Other? }

  ghost predicate Upto(d: Disk, names: seq<File>, k: nat) {
    forall f :: f in names <==> f in d && f.Seg? && 1 <= f.index <= k
  }

  ghost predicate From(d: Disk, names: seq<File>, k: nat) {
    forall f :: f in names <==> f in d && f.Seg? && f.index >= k
  }

  lemma FrontState(d: Disk, names: seq<File>, index: nat, buf: Bytes, j: nat)
    requires 2 <= j < |FrontOps(names, index, buf)|
    ensures Run(d, FrontOps(names, index, buf)[..j])
              == (d - {Temp})[Start(index) := buf] - Names(names[..j - 2])
  {
    var ops := FrontOps(names, index, buf);
    var head, tail := ops[..2], Removes(names[..j - 2]);
    assert ops[..j] == head + tail;
    RunConcat(d, head, tail);
    RunSnoc(d, [ops[0]], ops[1]);
    RunSnoc(d, [], ops[0]);
    assert [] + [ops[0]] == [ops[0]];
    assert head == [ops[0]] + [ops[1]];
    assert Run(d, head) == (d - {Temp})[Start(index) := buf];
    RunRemoves(Run(d, head), names[..j - 2]);
  }

  lemma FrontFinal(d: Disk, names: seq<File>, index: nat, buf: Bytes)
    requires Marked(d, NoMark) && index >= 1 && Upto(d, names, index)
    ensures Marked((d - {Temp})[Start(index) := buf], AtStart(index))
    ensures Run(d, FrontOps(names, index, buf)) == FrontDone((d - {Temp})[Start(index) := buf], index)
  {
    var ops := FrontOps(names, index, buf);
    var j := |ops| - 1;
    FrontState(d, names, index, buf, j);
    assert names[..j - 2] == names;
    var mid := (d - {Temp})[Start(index) := buf];
    assert Step(mid - Names(names), ops[j]) == FrontDone(mid, index);
  }

  lemma FrontCut(d: Disk, names: seq<File>, index: nat, buf: Bytes, j: nat)
    requires Marked(d, NoMark) && index >= 1 && Upto(d, names, index)
    requires 2 <= j < |FrontOps(names, index, buf)|
    ensures Marked(Run(d, FrontOps(names, index, buf)[..j]), AtStart(index))
    ensures Done(Run(d, FrontOps(names, index, buf)[..j]), AtStart(index)) == Run(d, FrontOps(names, index, buf))
  {
    FrontState(d, names, index, buf, j);
    FrontFinal(d, names, index, buf);
    var mid := (d - {Temp})[Start(index) := buf];
    assert forall f :: f in names[..j - 2] ==> f in names;
    StartLess(mid, index, Names(names[..j - 2]));
  }

  /** Crash atomicity of `truncateFront`: stop after any j operations, interrupt the recoveries
      that follow in any way, and the log that is finally opened is the old one (j < 2) or the
      truncated one. */
  lemma FrontAtomic(d: Disk, names: seq<File>, index: nat, buf: Bytes, j: nat, cuts: seq<nat>)
    requires Marked(d, NoMark) && names != [] && Upto(d, names, index)
    requires j <= |FrontOps(names, index, buf)|
    ensures j < 2 ==> Core(Recover(Interrupted(Run(d, FrontOps(names, index, buf)[..j]), cuts))) == Core(d)
    ensures j >= 2 ==> Recover(Interrupted(Run(d, FrontOps(names, index, buf)[..j]), cuts))
                         == Run(d, FrontOps(names, index, buf))
  {
    var ops := FrontOps(names, index, buf);
    var cut := Run(d, ops[..j]);
    assert names[0] in names;
    if j < 2 {
      StartsWithTemp(d, ops, buf, j);
      Unharmed(d, cut, buf, names[0], cuts);
    } else if j < |ops| {
      FrontCut(d, names, index, buf, j);
      RecoveryRestarts(cut, AtStart(index), cuts);
      RecoverIs(cut, AtStart(index));
    } else {
      FrontFinal(d, names, index, buf);
      assert ops[..j] == ops;
      Finished(cut, (d - {Temp})[Start(index) := buf], AtStart(index), cuts);
    }
  }

  lemma StartsWithTemp(d: Disk, ops: seq<DiskOp>, buf: Bytes, j: nat)
    requires j < 2 <= |ops| && ops[0] == Write(Temp, buf)
    ensures Run(d, ops[..j]) == if j == 0 then d else d[Temp := buf]
  {
    if j == 1 {
      assert ops[..1] == [] + [ops[0]];
      RunSnoc(d, [], ops[0]);
    }
  }

  /** Before the marker is in place, the old log is opened. */
  lemma Unharmed(d: Disk, cut: Disk, buf: Bytes, file: File, cuts: seq<nat>)
    requires Marked(d, NoMark) && file in d && Known(file)
    requires cut == d || cut == d[Temp := buf]
    ensures Core(Recover(Interrupted(cut, cuts))) == Core(d)
  {
    assert Marked(cut, NoMark) && file in cut;
    RecoveryRestarts(cut, NoMark, cuts);
    RecoverIs(cut, NoMark);
  }

  /** After the last operation there is nothing left to recover. */
  lemma Finished(cut: Disk, mid: Disk, m: Mark, cuts: seq<nat>)
    requires Marked(mid, m) && cut == Done(mid, m)
    ensures Recover(Interrupted(cut, cuts)) == cut
  {
    DoneUnmarked(mid, m);
    RecoveryRestarts(cut, NoMark, cuts);
    RecoverIs(cut, NoMark);
  }

  lemma BackState(d: Disk, names: seq<File>, base: nat, buf: Bytes, j: nat)
    requires 2 <= j < |BackOps(names, base, buf)|
    ensures Run(d, BackOps(names, base, buf)[..j])
              == (d - {Temp})[End(base) := buf] - Names(names[..j - 2])
  {
    var ops := BackOps(names, base, buf);
    var head, tail := ops[..2], Removes(names[..j - 2]);
    assert ops[..j] == head + tail;
    RunConcat(d, head, tail);
    RunSnoc(d, [ops[0]], ops[1]);
    RunSnoc(d, [], ops[0]);
    assert [] + [ops[0]] == [ops[0]];
    assert head == [ops[0]] + [ops[1]];
    assert Run(d, head) == (d - {Temp})[End(base) := buf];
    RunRemoves(Run(d, head), names[..j - 2]);
  }

  lemma BackFinal(d: Disk, names: seq<File>, base: nat, buf: Bytes)
    requires Marked(d, NoMark) && base >= 1 && From(d, names, base)
    ensures Marked((d - {Temp})[End(base) := buf], AtEnd(base))
    ensures Run(d, BackOps(names, base, buf)) == BackDone((d - {Temp})[End(base) := buf], base)
  {
    var ops := BackOps(names, base, buf);
    var j := |ops| - 1;
    BackState(d, names, base, buf, j);
    assert names[..j - 2] == names;
    var mid := (d - {Temp})[End(base) := buf];
    assert Step(mid - Names(names), ops[j]) == BackDone(mid, base);
  }

  lemma BackCut(d: Disk, names: seq<File>, base: nat, buf: Bytes, j: nat)
    requires Marked(d, NoMark) && base >= 1 && From(d, names, base)
    requires 2 <= j < |BackOps(names, base, buf)|
    ensures Marked(Run(d, BackOps(names, base, buf)[..j]), AtEnd(base))
    ensures Done(Run(d, BackOps(names, base, buf)[..j]), AtEnd(base)) == Run(d, BackOps(names, base, buf))
  {
    BackState(d, names, base, buf, j);
    BackFinal(d, names, base, buf);
    var mid := (d - {Temp})[End(base) := buf];
    assert forall f :: f in names[..j - 2] ==> f in names;
    EndLess(mid, base, Names(names[..j - 2]));
  }

  /** Crash atomicity of `truncateBack`. */
  lemma BackAtomic(d: Disk, names: seq<File>, base: nat, buf: Bytes, j: nat, cuts: seq<nat>)
    requires Marked(d, NoMark) && names != [] && base >= 1 && From(d, names, base)
    requires j <= |BackOps(names, base, buf)|
    ensures j < 2 ==> Core(Recover(Interrupted(Run(d, BackOps(names, base, buf)[..j]), cuts))) == Core(d)
    ensures j >= 2 ==> Recover(Interrupted(Run(d, BackOps(names, base, buf)[..j]), cuts))
                         == Run(d, BackOps(names, base, buf))
  {
    var ops := BackOps(names, base, buf);
    var cut := Run(d, ops[..j]);
    assert names[0] in names;
    if j < 2 {
      StartsWithTemp(d, ops, buf, j);
      Unharmed(d, cut, buf, names[0], cuts);
    } else if j < |ops| {
      BackCut(d, names, base, buf, j);
      RecoveryRestarts(cut, AtEnd(base), cuts);
      RecoverIs(cut, AtEnd(base));
    } else {
      BackFinal(d, names, base, buf);
      assert ops[..j] == ops;
      Finished(cut, (d - {Temp})[End(base) := buf], AtEnd(base), cuts);
    }
  }
}
