/** What a log directory stands for: runs of payloads, one run to a segment file. */
module WalLayout {
  import opened Basics
  import opened WalFrames
  import opened WalDisk
  import opened WalCrash

  type Chunk = seq<Bytes>

  /** The payloads of a log, in order. */
  function Flatten(chunks: seq<Chunk>): seq<Bytes> {
    if chunks == [] then [] else chunks[0] + Flatten(chunks[1..])
  }

  lemma {:induction false} FlattenConcat(a: seq<Chunk>, b: seq<Chunk>)
    ensures Flatten(a + b) == Flatten(a) + Flatten(b)
    decreases |a|
  {
    if a == [] {
      assert a + b == b;
    } else {
      FlattenConcat(a[1..], b);
      assert (a + b)[0] == a[0] && (a + b)[1..] == a[1..] + b;
    }
  }

  lemma FlattenOne(c: Chunk)
    ensures Flatten([c]) == c
  {
    assert [c][1..] == [];
  }

  /** The payloads around position j of chunk k. */
  lemma FlattenAt(chunks: seq<Chunk>, k: nat, j: nat)
    requires k < |chunks| && j <= |chunks[k]|
    ensures |Flatten(chunks[..k])| + j <= |Flatten(chunks)|
    ensures Flatten(chunks)[..|Flatten(chunks[..k])| + j] == Flatten(chunks[..k] + [chunks[k][..j]])
    ensures Flatten(chunks)[|Flatten(chunks[..k])| + j..] == Flatten([chunks[k][j..]] + chunks[k + 1..])
    ensures j < |chunks[k]| ==> |Flatten(chunks[..k])| + j < |Flatten(chunks)|
    ensures j < |chunks[k]| ==> Flatten(chunks)[|Flatten(chunks[..k])| + j] == chunks[k][j]
  {
    var a, b, c := chunks[..k], chunks[k], chunks[k + 1..];
    assert chunks == a + ([b] + c);
    FlattenConcat(a, [b] + c);
    FlattenConcat([b], c);
    FlattenConcat(a, [b[..j]]);
    FlattenConcat([b[j..]], c);
    FlattenOne(b);
    FlattenOne(b[..j]);
    FlattenOne(b[j..]);
    var all := Flatten(chunks);
    assert all == Flatten(a) + b[..j] + (b[j..] + Flatten(c));
    assert all[..|Flatten(a)| + j] == Flatten(a) + b[..j];
    assert all[|Flatten(a)| + j..] == b[j..] + Flatten(c);
  }

  // ---- segments on disk ----

  ghost predicate Link(at: seq<nat>, chunks: seq<Chunk>, i: nat)
    requires |at| == |chunks| && 0 < i < |at|
  {
    chunks[i - 1] != [] && at[i] == at[i - 1] + |chunks[i - 1]|
  }

  /** Segment i starts at index at[i], each where the one before it ends, and only the last may
      be empty. */
  ghost predicate Chained(at: seq<nat>, chunks: seq<Chunk>) {
    && |at| == |chunks| > 0
    && at[0] >= 1
    && (forall i {:trigger Link(at, chunks, i)} :: 0 < i < |at| ==> Link(at, chunks, i))
  }

  predicate Stored(d: Disk, index: nat, chunk: Chunk) {
    Seg(index) in d && d[Seg(index)] == Frames(chunk) && AllFit(chunk)
  }

  predicate FileAt(at: seq<nat>, f: File) { f.Seg? && f.index in at }

  ghost predicate OnlyAt(d: Disk, at: seq<nat>) {
    forall f {:trigger FileAt(at, f)} :: f in d && !f.Other? ==> FileAt(at, f)
  }

  /** The directory holds exactly these segments. */
  ghost predicate Holds(d: Disk, at: seq<nat>, chunks: seq<Chunk>) {
    && Chained(at, chunks)
    && (forall i {:trigger Stored(d, at[i], chunks[i])} :: 0 <= i < |at| ==> Stored(d, at[i], chunks[i]))
    && OnlyAt(d, at)
  }

  lemma {:induction false} Apart(at: seq<nat>, chunks: seq<Chunk>, i: nat, j: nat)
    requires Chained(at, chunks) && i < j < |at|
    ensures at[i] < at[j] && at[i] + |chunks[i]| <= at[j]
    decreases j
  {
    assert Link(at, chunks, j);
    if i < j - 1 {
      Apart(at, chunks, i, j - 1);
    }
  }

  lemma AllApart(at: seq<nat>, chunks: seq<Chunk>)
    requires Chained(at, chunks)
    ensures forall i, j :: 0 <= i < j < |at| ==> at[i] + |chunks[i]| <= at[j] && at[i] < at[j]
  {
    forall i, j | 0 <= i < j < |at| ensures at[i] + |chunks[i]| <= at[j] && at[i] < at[j] {
      Apart(at, chunks, i, j);
    }
  }

  lemma {:induction false} IndexOf(at: seq<nat>, chunks: seq<Chunk>, k: nat)
    requires Chained(at, chunks) && k < |at|
    ensures at[k] == at[0] + |Flatten(chunks[..k])|
    decreases k
  {
    if k > 0 {
      assert Link(at, chunks, k);
      IndexOf(at, chunks, k - 1);
      assert chunks[..k] == chunks[..k - 1] + [chunks[k - 1]];
      FlattenConcat(chunks[..k - 1], [chunks[k - 1]]);
      FlattenOne(chunks[k - 1]);
    } else {
      assert chunks[..0] == [];
    }
  }

  function SegNames(at: seq<nat>): (l: seq<File>)
    ensures |l| == |at| && forall i :: 0 <= i < |at| ==> l[i] == Seg(at[i])
  {
    seq(|at|, i requires 0 <= i < |at| => Seg(at[i]))
  }

  /** Recovery sees the segments in index order. */
  lemma HoldsListing(d: Disk, at: seq<nat>, chunks: seq<Chunk>)
    requires Holds(d, at, chunks)
    ensures IsListing(SegNames(at), d) && Marked(d, NoMark)
  {
    AllApart(at, chunks);
    var l := SegNames(at);
    forall i | 0 <= i < |at| ensures Known(l[i]) && l[i] in d {
      assert Stored(d, at[i], chunks[i]);
    }
    forall f | f in d ensures !f.Start? && !f.End? {
      assert f.Other? || FileAt(at, f);
    }
    forall f | f in d && Known(f) ensures f in l {
      assert FileAt(at, f);
      var i :| 0 <= i < |at| && at[i] == f.index;
      assert l[i] == f;
    }
  }

  lemma HoldsCore(d: Disk, d': Disk, at: seq<nat>, chunks: seq<Chunk>)
    requires Holds(d, at, chunks) && Core(d) == Core(d')
    ensures Holds(d', at, chunks)
  {
    forall f | f in d' && !f.Other? ensures FileAt(at, f) {
      assert f in Core(d');
    }
    forall i | 0 <= i < |at| ensures Stored(d', at[i], chunks[i]) {
      assert Stored(d, at[i], chunks[i]);
      assert Seg(at[i]) in Core(d) && Core(d)[Seg(at[i])] == Core(d')[Seg(at[i])];
    }
  }

  // ---- writing ----

  /** Appending frames to the last file appends payloads to the log. */
  lemma AppendHolds(d: Disk, at: seq<nat>, chunks: seq<Chunk>, ps: seq<Bytes>)
    requires Holds(d, at, chunks) && AllFit(ps)
    ensures Seg(at[|at| - 1]) in d
    ensures Holds(d[Seg(at[|at| - 1]) := d[Seg(at[|at| - 1])] + Frames(ps)], at,
                  chunks[|at| - 1 := chunks[|at| - 1] + ps])
    ensures Flatten(chunks[|at| - 1 := chunks[|at| - 1] + ps]) == Flatten(chunks) + ps
  {
    var k := |at| - 1;
    assert Stored(d, at[k], chunks[k]);
    var d' := d[Seg(at[k]) := d[Seg(at[k])] + Frames(ps)];
    var chunks' := chunks[k := chunks[k] + ps];
    forall i {:trigger Link(at, chunks', i)} | 0 < i < |at| ensures Link(at, chunks', i) {
      assert Link(at, chunks, i);
    }
    forall i {:trigger Stored(d', at[i], chunks'[i])} | 0 <= i < |at| ensures Stored(d', at[i], chunks'[i]) {
      assert Stored(d, at[i], chunks[i]);
      if i < k { Apart(at, chunks, i, k); } else { FramesConcat(chunks[k], ps); }
    }
    forall f | f in d' && !f.Other? ensures FileAt(at, f) {
      assert f in d;
    }
    AppendPayloads(chunks, ps);
  }

  lemma AppendPayloads(chunks: seq<Chunk>, ps: seq<Bytes>)
    requires chunks != []
    ensures Flatten(chunks[|chunks| - 1 := chunks[|chunks| - 1] + ps]) == Flatten(chunks) + ps
  {
    var k := |chunks| - 1;
    assert chunks == chunks[..k] + [chunks[k]];
    assert chunks[k := chunks[k] + ps] == chunks[..k] + [chunks[k] + ps];
    FlattenConcat(chunks[..k], [chunks[k]]);
    FlattenConcat(chunks[..k], [chunks[k] + ps]);
    FlattenOne(chunks[k]);
    FlattenOne(chunks[k] + ps);
  }

  /** A new empty file directly after a last segment that is not empty. */
  lemma CycleHolds(d: Disk, at: seq<nat>, chunks: seq<Chunk>, next: nat)
    requires Holds(d, at, chunks) && chunks[|at| - 1] != [] && next == at[|at| - 1] + |chunks[|at| - 1]|
    ensures Holds(d[Seg(next) := []], at + [next], chunks + [[]])
    ensures Flatten(chunks + [[]]) == Flatten(chunks)
  {
    var d', at', chunks' := d[Seg(next) := []], at + [next], chunks + [[]];
    forall i {:trigger Link(at', chunks', i)} | 0 < i < |at'| ensures Link(at', chunks', i) {
      if i < |at| { assert Link(at, chunks, i); }
    }
    forall i {:trigger Stored(d', at'[i], chunks'[i])} | 0 <= i < |at'| ensures Stored(d', at'[i], chunks'[i]) {
      if i < |at| {
        assert Stored(d, at[i], chunks[i]);
        if i < |at| - 1 { Apart(at, chunks, i, |at| - 1); }
      }
    }
    assert at'[|at|] == next;
    forall f | f in d' && !f.Other? ensures FileAt(at', f) {
      if f != Seg(next) { assert FileAt(at, f); }
    }
    FlattenConcat(chunks, [[]]);
    FlattenOne([]);
  }

  // ---- truncation ----

  predicate InSegment(at: seq<nat>, chunks: seq<Chunk>, k: nat, index: nat)
    requires |at| == |chunks|
  {
    k < |at| && at[k] <= index < at[k] + |chunks[k]|
  }

  function FrontAt(at: seq<nat>, k: nat, index: nat): seq<nat>
    requires k < |at|
  {
    [index] + at[k + 1..]
  }

  function FrontChunks(at: seq<nat>, chunks: seq<Chunk>, k: nat, index: nat): seq<Chunk>
    requires |at| == |chunks| && InSegment(at, chunks, k, index)
  {
    [chunks[k][index - at[k]..]] + chunks[k + 1..]
  }

  /** The disk operations of truncating the front of a log at `index`, which segment k holds. */
  function FrontScript(at: seq<nat>, chunks: seq<Chunk>, k: nat, index: nat): seq<DiskOp>
    requires |at| == |chunks| && InSegment(at, chunks, k, index)
  {
    FrontOps(SegNames(at[..k + 1]), index, Frames(chunks[k][index - at[k]..]))
  }

  lemma FrontUpto(d: Disk, at: seq<nat>, chunks: seq<Chunk>, k: nat, index: nat)
    requires Holds(d, at, chunks) && InSegment(at, chunks, k, index)
    ensures Upto(d, SegNames(at[..k + 1]), index)
  {
    AllApart(at, chunks);
    var names := SegNames(at[..k + 1]);
    forall f | f in names ensures f in d && f.Seg? && 1 <= f.index <= index {
      var i :| 0 <= i <= k && names[i] == f;
      assert Stored(d, at[i], chunks[i]);
    }
    forall f | f in d && f.Seg? && 1 <= f.index <= index ensures f in names {
      assert FileAt(at, f);
      var i :| 0 <= i < |at| && at[i] == f.index;
      assert i <= k;
      assert names[i] == f;
    }
  }

  lemma FrontChained(at: seq<nat>, chunks: seq<Chunk>, k: nat, index: nat)
    requires Chained(at, chunks) && InSegment(at, chunks, k, index)
    ensures Chained(FrontAt(at, k, index), FrontChunks(at, chunks, k, index))
  {
    var at', chunks' := FrontAt(at, k, index), FrontChunks(at, chunks, k, index);
    AllApart(at, chunks);
    forall i {:trigger Link(at', chunks', i)} | 0 < i < |at'| ensures Link(at', chunks', i) {
      assert Link(at, chunks, k + i);
    }
  }

  lemma FrontStored(d: Disk, d': Disk, at: seq<nat>, chunks: seq<Chunk>, k: nat, index: nat, buf: Bytes)
    requires Holds(d, at, chunks) && InSegment(at, chunks, k, index)
    requires buf == Frames(chunks[k][index - at[k]..])
    requires d' == FrontDone((d - {Temp})[Start(index) := buf], index)
    ensures forall i :: 0 <= i < |FrontAt(at, k, index)| ==>
      Stored(d', FrontAt(at, k, index)[i], FrontChunks(at, chunks, k, index)[i])
  {
    var at', chunks' := FrontAt(at, k, index), FrontChunks(at, chunks, k, index);
    forall i | 0 <= i < |at'| ensures Stored(d', at'[i], chunks'[i]) {
      assert Stored(d, at[k + i], chunks[k + i]);
      if i > 0 { Apart(at, chunks, k, k + i); }
    }
  }

  lemma FrontOnly(d: Disk, d': Disk, at: seq<nat>, chunks: seq<Chunk>, k: nat, index: nat, buf: Bytes)
    requires Holds(d, at, chunks) && InSegment(at, chunks, k, index)
    requires d' == FrontDone((d - {Temp})[Start(index) := buf], index)
    ensures OnlyAt(d', FrontAt(at, k, index))
  {
    var at' := FrontAt(at, k, index);
    AllApart(at, chunks);
    forall f | f in d' && !f.Other? ensures FileAt(at', f) {
      if f == Seg(index) {
        assert at'[0] == index;
      } else {
        assert FileAt(at, f);
        var i :| 0 <= i < |at| && at[i] == f.index;
        assert at'[i - k] == f.index;
      }
    }
  }

  lemma FrontHolds(d: Disk, at: seq<nat>, chunks: seq<Chunk>, k: nat, index: nat)
    requires Holds(d, at, chunks) && InSegment(at, chunks, k, index)
    ensures Holds(Run(d, FrontScript(at, chunks, k, index)), FrontAt(at, k, index), FrontChunks(at, chunks, k, index))
  {
    var buf := Frames(chunks[k][index - at[k]..]);
    var d' := FrontDone((d - {Temp})[Start(index) := buf], index);
    assert Run(d, FrontOps(SegNames(at[..k + 1]), index, buf)) == d' by {
      FrontUpto(d, at, chunks, k, index);
      HoldsListing(d, at, chunks);
      AllApart(at, chunks);
      FrontFinal(d, SegNames(at[..k + 1]), index, buf);
    }
    FrontChained(at, chunks, k, index);
    FrontStored(d, d', at, chunks, k, index, buf);
    FrontOnly(d, d', at, chunks, k, index, buf);
  }

  function BackChunks(at: seq<nat>, chunks: seq<Chunk>, k: nat, index: nat): seq<Chunk>
    requires |at| == |chunks| && InSegment(at, chunks, k, index)
  {
    chunks[..k] + [chunks[k][..index - at[k] + 1]]
  }

  /** The disk operations of truncating the back of a log after `index`, which segment k holds. */
  function BackScript(at: seq<nat>, chunks: seq<Chunk>, k: nat, index: nat): seq<DiskOp>
    requires |at| == |chunks| && InSegment(at, chunks, k, index)
  {
    BackOps(SegNames(at[k..]), at[k], Frames(chunks[k][..index - at[k] + 1]))
  }

  lemma BackFrom(d: Disk, at: seq<nat>, chunks: seq<Chunk>, k: nat)
    requires Holds(d, at, chunks) && k < |at|
    ensures From(d, SegNames(at[k..]), at[k])
  {
    AllApart(at, chunks);
    var names := SegNames(at[k..]);
    forall f | f in names ensures f in d && f.Seg? && f.index >= at[k] {
      var i :| 0 <= i < |names| && names[i] == f;
      assert Stored(d, at[k + i], chunks[k + i]);
    }
    forall f | f in d && f.Seg? && f.index >= at[k] ensures f in names {
      assert FileAt(at, f);
      var i :| 0 <= i < |at| && at[i] == f.index;
      assert k <= i;
      assert names[i - k] == f;
    }
  }

  lemma BackChained(at: seq<nat>, chunks: seq<Chunk>, k: nat, index: nat)
    requires Chained(at, chunks) && InSegment(at, chunks, k, index)
    ensures Chained(at[..k + 1], BackChunks(at, chunks, k, index))
  {
    var at', chunks' := at[..k + 1], BackChunks(at, chunks, k, index);
    forall i {:trigger Link(at', chunks', i)} | 0 < i < |at'| ensures Link(at', chunks', i) {
      assert Link(at, chunks, i);
    }
  }

  lemma BackStored(d: Disk, d': Disk, at: seq<nat>, chunks: seq<Chunk>, k: nat, index: nat, buf: Bytes)
    requires Holds(d, at, chunks) && InSegment(at, chunks, k, index)
    requires buf == Frames(chunks[k][..index - at[k] + 1])
    requires d' == BackDone((d - {Temp})[End(at[k]) := buf], at[k])
    ensures forall i :: 0 <= i <= k ==> Stored(d', at[i], BackChunks(at, chunks, k, index)[i])
  {
    forall i | 0 <= i <= k ensures Stored(d', at[i], BackChunks(at, chunks, k, index)[i]) {
      assert Stored(d, at[i], chunks[i]);
      if i < k { Apart(at, chunks, i, k); }
    }
  }

  lemma BackOnly(d: Disk, d': Disk, at: seq<nat>, chunks: seq<Chunk>, k: nat, buf: Bytes)
    requires Holds(d, at, chunks) && k < |at|
    requires d' == BackDone((d - {Temp})[End(at[k]) := buf], at[k])
    ensures OnlyAt(d', at[..k + 1])
  {
    var at' := at[..k + 1];
    AllApart(at, chunks);
    forall f | f in d' && !f.Other? ensures FileAt(at', f) {
      if f == Seg(at[k]) {
        assert at'[k] == at[k];
      } else {
        assert FileAt(at, f);
        var i :| 0 <= i < |at| && at[i] == f.index;
        assert at'[i] == f.index;
      }
    }
  }

  lemma BackHolds(d: Disk, at: seq<nat>, chunks: seq<Chunk>, k: nat, index: nat)
    requires Holds(d, at, chunks) && InSegment(at, chunks, k, index)
    ensures Holds(Run(d, BackScript(at, chunks, k, index)), at[..k + 1], BackChunks(at, chunks, k, index))
  {
    var buf := Frames(chunks[k][..index - at[k] + 1]);
    var d' := BackDone((d - {Temp})[End(at[k]) := buf], at[k]);
    assert Run(d, BackOps(SegNames(at[k..]), at[k], buf)) == d' by {
      BackFrom(d, at, chunks, k);
      HoldsListing(d, at, chunks);
      AllApart(at, chunks);
      BackFinal(d, SegNames(at[k..]), at[k], buf);
    }
    BackChained(at, chunks, k, index);
    BackStored(d, d', at, chunks, k, index, buf);
    BackOnly(d, d', at, chunks, k, buf);
  }

  // ---- the crash theorem, on logs ----

  lemma FrontPayloads(at: seq<nat>, chunks: seq<Chunk>, k: nat, index: nat)
    requires Chained(at, chunks) && InSegment(at, chunks, k, index)
    ensures 0 <= index - at[0] <= |Flatten(chunks)|
    ensures Flatten(FrontChunks(at, chunks, k, index)) == Flatten(chunks)[index - at[0]..]
  {
    IndexOf(at, chunks, k);
    FlattenAt(chunks, k, index - at[k]);
  }

  lemma BackPayloads(at: seq<nat>, chunks: seq<Chunk>, k: nat, index: nat)
    requires Chained(at, chunks) && InSegment(at, chunks, k, index)
    ensures 0 <= index + 1 - at[0] <= |Flatten(chunks)|
    ensures Flatten(BackChunks(at, chunks, k, index)) == Flatten(chunks)[..index + 1 - at[0]]
  {
    IndexOf(at, chunks, k);
    FlattenAt(chunks, k, index - at[k] + 1);
  }

  /** Cut a front truncation after any j operations, and the recoveries after it anywhere: the
      directory that is finally opened holds the whole old log, or exactly the payloads from
      `index` on. */
  lemma FrontAllOrNothing(d: Disk, at: seq<nat>, chunks: seq<Chunk>, k: nat, index: nat,
                          j: nat, cuts: seq<nat>, found: Disk)
    requires Holds(d, at, chunks) && InSegment(at, chunks, k, index)
    requires j <= |FrontScript(at, chunks, k, index)|
    requires found == Recover(Interrupted(Run(d, FrontScript(at, chunks, k, index)[..j]), cuts))
    ensures j < 2 ==> Holds(found, at, chunks)
    ensures j >= 2 ==> Holds(found, FrontAt(at, k, index), FrontChunks(at, chunks, k, index))
    ensures 0 <= index - at[0] <= |Flatten(chunks)|
    ensures Flatten(FrontChunks(at, chunks, k, index)) == Flatten(chunks)[index - at[0]..]
  {
    var names := SegNames(at[..k + 1]);
    assert Marked(d, NoMark) by { HoldsListing(d, at, chunks); }
    assert Upto(d, names, index) by { FrontUpto(d, at, chunks, k, index); }
    FrontAtomic(d, names, index, Frames(chunks[k][index - at[k]..]), j, cuts);
    if j < 2 {
      HoldsCore(d, found, at, chunks);
    } else {
      FrontHolds(d, at, chunks, k, index);
    }
    FrontPayloads(at, chunks, k, index);
  }

  /** The same for a back truncation, which keeps the payloads up to `index`. */
  lemma BackAllOrNothing(d: Disk, at: seq<nat>, chunks: seq<Chunk>, k: nat, index: nat,
                         j: nat, cuts: seq<nat>, found: Disk)
    requires Holds(d, at, chunks) && InSegment(at, chunks, k, index)
    requires j <= |BackScript(at, chunks, k, index)|
    requires found == Recover(Interrupted(Run(d, BackScript(at, chunks, k, index)[..j]), cuts))
    ensures j < 2 ==> Holds(found, at, chunks)
    ensures j >= 2 ==> Holds(found, at[..k + 1], BackChunks(at, chunks, k, index))
    ensures 0 <= index + 1 - at[0] <= |Flatten(chunks)|
    ensures Flatten(BackChunks(at, chunks, k, index)) == Flatten(chunks)[..index + 1 - at[0]]
  {
    var names := SegNames(at[k..]);
    assert Marked(d, NoMark) by { HoldsListing(d, at, chunks); }
    assert From(d, names, at[k]) by { BackFrom(d, at, chunks, k); }
    assert at[k] >= 1 by { AllApart(at, chunks); }
    BackAtomic(d, names, at[k], Frames(chunks[k][..index - at[k] + 1]), j, cuts);
    if j < 2 {
      HoldsCore(d, found, at, chunks);
    } else {
      BackHolds(d, at, chunks, k, index);
    }
    BackPayloads(at, chunks, k, index);
  }
}
