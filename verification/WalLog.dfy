/** The segmented log: lazily loaded segment buffers over the files of a directory. */
module WalLog {
  import opened Basics
  import opened WalFrames
  import opened WalDisk
  import opened WalCrash
  import opened WalLayout

  datatype Segment = Segment(path: File, index: nat, ebuf: Bytes, epos: seq<Pos>)

  datatype BatchEntry = BatchEntry(index: nat, data: Bytes)

  datatype Err = Ok | ErrCorrupt | ErrClosed | ErrNotFound | ErrOutOfRange | ErrOutOfOrder

  predicate Loaded(s: Segment, chunk: Chunk) {
    s.ebuf == Frames(chunk) && s.epos == Positions(chunk)
  }

  /** The part of a buffer that its file does not have yet. */
  lemma Unwritten(s: Segment, chunk: Chunk, pending: seq<Bytes>)
    requires Loaded(s, chunk + pending)
    ensures |Frames(chunk)| <= |s.ebuf| && s.ebuf[|Frames(chunk)|..] == Frames(pending)
  {
    FramesConcat(chunk, pending);
  }

  function Emptied(s: Segment): Segment { s.(ebuf := [], epos := []) }

  /** No segment but the last has its buffer loaded. */
  predicate Idle(segs: seq<Segment>) {
    forall i :: 0 <= i < |segs| - 1 ==> segs[i] == Emptied(segs[i])
  }

  /** The first index of each segment. */
  function At(segs: seq<Segment>): (at: seq<nat>)
    ensures |at| == |segs| && forall i :: 0 <= i < |segs| ==> at[i] == segs[i].index
  {
    seq(|segs|, i requires 0 <= i < |segs| => segs[i].index)
  }

  predicate Named(segs: seq<Segment>) {
    forall i :: 0 <= i < |segs| ==> segs[i].path == Seg(segs[i].index)
  }

  predicate BufferOk(segs: seq<Segment>, chunks: seq<Chunk>, cache: set<nat>, i: nat)
    requires i < |segs| == |chunks|
  {
    if i in cache then Loaded(segs[i], chunks[i]) else segs[i] == Emptied(segs[i])
  }

  /** A segment before the tail is loaded exactly when it is cached. */
  ghost predicate Buffered(segs: seq<Segment>, chunks: seq<Chunk>, cache: set<nat>)
    requires |segs| == |chunks|
  {
    && (forall i :: i in cache ==> i + 1 < |segs|)
    && (forall i {:trigger BufferOk(segs, chunks, cache, i)} :: 0 <= i < |segs| - 1 ==>
          BufferOk(segs, chunks, cache, i))
  }

  /** A segment with its file's contents loaded, unless the file is corrupt. */
  function Scanned(d: Disk, s: Segment): Option<Segment>
    requires s.path in d
  {
    match Scan(d[s.path], 0, [])
    case None => None
    case Some(epos) => Some(s.(ebuf := d[s.path], epos := epos))
  }

  lemma ScannedLoaded(d: Disk, s: Segment, chunk: Chunk)
    requires Stored(d, s.index, chunk) && s.path == Seg(s.index)
    ensures Scanned(d, s).Some? && Loaded(Scanned(d, s).value, chunk)
  {
    ScanRecovers(chunk);
  }

  /** Caching a loaded segment, and dropping at most one other, keeps every buffer right. */
  lemma PushBuffered(segs: seq<Segment>, chunks: seq<Chunk>, cache: set<nat>, k: nat, s: Segment,
                     evicted: Option<nat>, segs': seq<Segment>, cache': set<nat>)
    requires |segs| == |chunks| && k + 1 < |segs| && Loaded(s, chunks[k])
    requires forall i :: i in cache ==> i + 1 < |segs|
    requires forall i {:trigger BufferOk(segs, chunks, cache, i)} :: 0 <= i < |segs| - 1 && i != k ==>
      BufferOk(segs, chunks, cache, i)
    requires evicted.Some? ==> evicted.value in cache && evicted.value != k
    requires cache' == if evicted == None then cache + {k} else cache + {k} - {evicted.value}
    requires segs' == if evicted == None then segs[k := s]
                      else segs[k := s][evicted.value := Emptied(segs[evicted.value])]
    ensures Buffered(segs', chunks, cache') && k in cache' && segs'[k] == s
    ensures segs'[|segs| - 1] == segs[|segs| - 1]
  {
    forall i {:trigger BufferOk(segs', chunks, cache', i)} | 0 <= i < |segs| - 1
      ensures BufferOk(segs', chunks, cache', i)
    {
      if i != k { assert BufferOk(segs, chunks, cache, i); }
    }
  }

  /** What the tail holds does not matter to the segments before it. */
  lemma TailBuffered(segs: seq<Segment>, chunks: seq<Chunk>, cache: set<nat>, s: Segment, chunk: Chunk)
    requires 0 < |segs| == |chunks| && Buffered(segs, chunks, cache)
    ensures Buffered(segs[|segs| - 1 := s], chunks[|segs| - 1 := chunk], cache)
  {
    var segs', chunks' := segs[|segs| - 1 := s], chunks[|segs| - 1 := chunk];
    forall i {:trigger BufferOk(segs', chunks', cache, i)} | 0 <= i < |segs| - 1
      ensures BufferOk(segs', chunks', cache, i)
    {
      assert BufferOk(segs, chunks, cache, i);
    }
  }

  /** Closing the tail: it joins the cache, and an empty segment follows it. */
  lemma CycleBuffered(segs: seq<Segment>, chunks: seq<Chunk>, cache: set<nat>, new_: Segment,
                      evicted: Option<nat>, segs': seq<Segment>, cache': set<nat>)
    requires 0 < |segs| == |chunks| && Buffered(segs, chunks, cache)
    requires Loaded(segs[|segs| - 1], chunks[|segs| - 1])
    requires evicted.Some? ==> evicted.value in cache && evicted.value != |segs| - 1
    requires cache' == if evicted == None then cache + {|segs| - 1} else cache + {|segs| - 1} - {evicted.value}
    requires segs' == if evicted == None then segs else segs[evicted.value := Emptied(segs[evicted.value])]
    ensures Buffered(segs' + [new_], chunks + [[]], cache')
  {
    var k := |segs| - 1;
    var wide, chunks' := segs + [new_], chunks + [[]];
    forall i {:trigger BufferOk(wide, chunks', cache, i)} | 0 <= i < k ensures BufferOk(wide, chunks', cache, i) {
      assert BufferOk(segs, chunks, cache, i);
    }
    PushBuffered(wide, chunks', cache, k, segs[k], evicted, segs' + [new_], cache');
  }

  lemma LoadedSnoc(s: Segment, chunk: Chunk, data: Bytes)
    requires Loaded(s, chunk)
    ensures Loaded(s.(ebuf := s.ebuf + Frame(data), epos := s.epos + [Pos(|s.ebuf|, |s.ebuf + Frame(data)|)]),
                   chunk + [data])
  {
    assert (chunk + [data])[..|chunk|] == chunk;
  }

  /** Once the cache is dropped, only a tail loaded anew is in memory. */
  lemma ClearBuffered(segs: seq<Segment>, chunks: seq<Chunk>)
    requires |segs| == |chunks|
    requires Idle(segs)
    ensures Buffered(segs, chunks, {})
  {
  }

  lemma Parts(a: Bytes, b: Bytes)
    ensures (a + b)[|a|..] == b && (a + b)[..|a|] == a
  {
  }

  lemma FramesSplit(chunk: Chunk, j: nat)
    requires j <= |chunk|
    ensures |Frames(chunk[..j])| <= |Frames(chunk)|
    ensures Frames(chunk)[|Frames(chunk[..j])|..] == Frames(chunk[j..])
    ensures Frames(chunk)[..|Frames(chunk[..j])|] == Frames(chunk[..j])
  {
    assert chunk[..j] + chunk[j..] == chunk;
    FramesConcat(chunk[..j], chunk[j..]);
    Parts(Frames(chunk[..j]), Frames(chunk[j..]));
  }

  /** The buffer of a loaded segment from its j-th entry on, and up to it. */
  lemma BufferSplit(s: Segment, chunk: Chunk, j: nat)
    requires Loaded(s, chunk) && j < |chunk|
    ensures s.epos[j].start <= s.epos[j].end <= |s.ebuf|
    ensures s.ebuf[s.epos[j].start..] == Frames(chunk[j..])
    ensures s.ebuf[..s.epos[j].end] == Frames(chunk[..j + 1])
  {
    PositionsAt(chunk, j);
    FramesSplit(chunk, j);
    FramesSplit(chunk, j + 1);
  }

  lemma DropBuffered(segs: seq<Segment>, chunks: seq<Chunk>, cache: set<nat>, segs': seq<Segment>)
    requires |segs| == |chunks| == |segs'| && Buffered(segs, chunks, cache)
    requires forall i :: 0 <= i < |segs| ==> segs'[i] == if i in cache then Emptied(segs[i]) else segs[i]
    ensures Buffered(segs', chunks, {})
  {
    forall i {:trigger BufferOk(segs', chunks, {}, i)} | 0 <= i < |segs| - 1
      ensures BufferOk(segs', chunks, {}, i)
    {
      assert BufferOk(segs, chunks, cache, i);
    }
  }

  /** An entry of a loaded segment reads back as its payload. */
  lemma EntryAt(s: Segment, chunk: Chunk, j: nat)
    requires Loaded(s, chunk) && AllFit(chunk) && j < |chunk|
    ensures s.epos[j].start <= s.epos[j].end <= |s.ebuf|
    ensures Payload(s.ebuf[s.epos[j].start..s.epos[j].end]) == Some(chunk[j])
  {
    PositionsAt(chunk, j);
    PayloadOfFrame(chunk[j]);
  }

  /** The payload at an index, found through its segment. */
  lemma PayloadAt(at: seq<nat>, chunks: seq<Chunk>, k: nat, index: nat)
    requires Chained(at, chunks) && InSegment(at, chunks, k, index)
    ensures 0 <= index - at[0] < |Flatten(chunks)|
    ensures Flatten(chunks)[index - at[0]] == chunks[k][index - at[k]]
  {
    IndexOf(at, chunks, k);
    FlattenAt(chunks, k, index - at[k]);
  }

  function Payloads(batch: seq<BatchEntry>): (ps: seq<Bytes>)
    ensures |ps| == |batch| && forall i :: 0 <= i < |ps| ==> ps[i] == batch[i].data
  {
    seq(|batch|, i requires 0 <= i < |batch| => batch[i].data)
  }

  predicate InOrder(batch: seq<BatchEntry>, last: nat) {
    forall i :: 0 <= i < |batch| ==> batch[i].index == last + i + 1
  }

  function Listed(entries: seq<File>): seq<File> {
    if entries == [] then []
    else
      var rest := Listed(entries[..|entries| - 1]);
      if Known(entries[|entries| - 1]) then rest + [entries[|entries| - 1]] else rest
  }

  function LastFile(l: seq<File>): File { if l == [] then Temp else l[|l| - 1] }

  /** Segments with nothing loaded, one to a file. */
  function Unread(names: seq<File>): (segs: seq<Segment>)
    requires AllKnown(names)
    ensures |segs| == |names|
    ensures forall i :: 0 <= i < |segs| ==> segs[i] == Segment(names[i], names[i].index, [], [])
  {
    seq(|names|, i requires 0 <= i < |names| => Segment(names[i], names[i].index, [], []))
  }

  lemma ListedSnoc(entries: seq<File>, i: nat)
    requires i < |entries|
    ensures Listed(entries[..i + 1]) == Listed(entries[..i]) + if Known(entries[i]) then [entries[i]] else []
  {
    assert entries[..i + 1][..i] == entries[..i];
  }

  lemma UnreadSnoc(l: seq<File>, f: File)
    requires AllKnown(l) && Known(f)
    ensures AllKnown(l + [f]) && Unread(l + [f]) == Unread(l) + [Segment(f, f.index, [], [])]
  {
  }

  lemma StartSnoc(l: seq<File>, f: File)
    ensures LastStart(l + [f]) == if f.Start? then |l| else LastStart(l)
  {
    assert (l + [f])[..|l|] == l;
  }

  lemma EndSnoc(l: seq<File>, f: File)
    ensures FirstEnd(l + [f]) == if FirstEnd(l) < 0 && f.End? then |l| else FirstEnd(l)
  {
    assert (l + [f])[..|l|] == l;
  }

  /** One more name in a listing. */
  lemma MarksSnoc(l: seq<File>, f: File)
    requires AllKnown(l) && Known(f)
    ensures AllKnown(l + [f]) && Unread(l + [f]) == Unread(l) + [Segment(f, f.index, [], [])]
    ensures LastStart(l + [f]) == if f.Start? then |l| else LastStart(l)
    ensures FirstEnd(l + [f]) == if FirstEnd(l) < 0 && f.End? then |l| else FirstEnd(l)
  {
    UnreadSnoc(l, f);
    StartSnoc(l, f);
    EndSnoc(l, f);
  }

  lemma {:induction false} ListedKnown(entries: seq<File>)
    ensures AllKnown(Listed(entries))
    decreases |entries|
  {
    if entries != [] { ListedKnown(entries[..|entries| - 1]); }
  }

  lemma {:induction false} ReversedCons(f: File, l: seq<File>)
    ensures Reversed([f] + l) == Reversed(l) + [f]
    decreases |l|
  {
    if l != [] {
      ReversedCons(f, l[..|l| - 1]);
      assert ([f] + l)[..|l|] == [f] + l[..|l| - 1];
    }
  }

  /** The segments up to the marker at e, without one it replaces. */
  function Squeezed(l: seq<File>, e: nat): (segs: seq<Segment>)
    requires AllKnown(l) && e < |l|
    ensures segs != []
  {
    if e > 0 && l[e - 1].index == l[e].index then Unread(l)[..e - 1] + [Unread(l)[e]] else Unread(l)[..e + 1]
  }

  lemma SqueezedKept(l: seq<File>, e: nat)
    requires AllKnown(l) && e < |l| && FirstEnd(l) == e && LastStart(l) < 0
    ensures var (q, tail) := (Squeezed(l, e), |Squeezed(l, e)| - 1);
            q[tail] == Unread(l)[e] && q[tail := q[tail].(path := Seg(l[e].index))] == Unread(Kept(l))
  {
  }

  lemma Located(at: seq<nat>, chunks: seq<Chunk>, k: nat, index: nat)
    requires Chained(at, chunks) && k + 1 < |at| && at[k] <= index < at[k + 1]
    ensures InSegment(at, chunks, k, index)
  {
    assert Link(at, chunks, k + 1);
  }

  lemma RemovesBack(l: seq<File>, i: nat)
    requires i < |l|
    ensures Removes(Reversed(l[i + 1..])) + [Remove(l[i])] == Removes(Reversed(l[i..]))
  {
    assert l[i..] == [l[i]] + l[i + 1..];
    ReversedCons(l[i], l[i + 1..]);
  }

  /** The segments from the k-th on, the k-th now starting at `index`. */
  function Rebase(segs: seq<Segment>, k: nat, index: nat): seq<Segment>
    requires k < |segs|
  {
    [segs[k].(path := Seg(index), index := index)] + segs[k + 1..]
  }

  lemma Rebased(segs: seq<Segment>, k: nat, index: nat)
    requires k < |segs| && Named(segs) && Idle(segs)
    ensures var s := Rebase(segs, k, index);
            && Named(s) && At(s) == FrontAt(At(segs), k, index) && Idle(s)
            && (|s| > 1 ==> s[|s| - 1] == segs[|segs| - 1])
  {
  }

  lemma SlicePaths(segs: seq<Segment>, lo: nat, hi: nat)
    requires lo <= hi <= |segs| && Named(segs)
    ensures var names := SegNames(At(segs)[lo..hi]);
            |names| == hi - lo && forall i :: lo <= i < hi ==> names[i - lo] == segs[i].path
  {
  }

  lemma RemovesSnoc(head: seq<DiskOp>, names: seq<File>, i: nat)
    requires i < |names|
    ensures head + Removes(names[..i]) + [Remove(names[i])] == head + Removes(names[..i + 1])
  {
    assert Removes(names[..i]) + [Remove(names[i])] == Removes(names[..i + 1]);
  }

  /** A batch being written: the disk and the trace in front of it, and what is to be appended to
      what. */
  datatype Job = Job(disk: Disk, before: seq<DiskOp>, first: nat, had: seq<Bytes>, batch: seq<Bytes>)

  ghost predicate StageWith(job: Job, d: Disk, at: seq<nat>, chunks: seq<Chunk>, n: nat) {
    && Holds(d, at, chunks) && at[0] == job.first
    && n <= |job.batch| && Flatten(chunks) == job.had + job.batch[..n]
  }

  /** The directory holds what was there before the batch, and the first so many of its payloads. */
  ghost predicate Stage(job: Job, d: Disk) {
    exists at, chunks, n :: StageWith(job, d, at, chunks, n)
  }

  ghost predicate StageAfter(job: Job, ops: seq<DiskOp>, j: nat)
    requires j <= |ops|
  {
    Stage(job, Run(job.disk, ops[..j]))
  }

  /** Cut after any of its operations, the batch leaves such a directory. */
  ghost predicate Staged(job: Job, ops: seq<DiskOp>) {
    forall j: nat {:trigger StageAfter(job, ops, j)} :: j <= |ops| ==> StageAfter(job, ops, j)
  }

  lemma BothGrow(a: seq<Bytes>, b: seq<Bytes>, c: seq<Bytes>, d: seq<Bytes>, x: Bytes)
    requires a + b == c + d
    ensures a + (b + [x]) == c + (d + [x])
  {
    assert a + (b + [x]) == a + b + [x] && c + (d + [x]) == c + d + [x];
  }

  lemma StagedSnoc(job: Job, ops: seq<DiskOp>, op: DiskOp)
    requires Staged(job, ops) && Stage(job, Step(Run(job.disk, ops), op))
    ensures Staged(job, ops + [op]) && Run(job.disk, ops + [op]) == Step(Run(job.disk, ops), op)
  {
    RunSnoc(job.disk, ops, op);
    var all := ops + [op];
    forall j: nat | j <= |all| ensures StageAfter(job, all, j) {
      if j < |all| {
        assert StageAfter(job, ops, j) && all[..j] == ops[..j];
      } else {
        assert all[..j] == all;
      }
    }
  }

  class Log {
    var disk: Disk
    var segments: seq<Segment>
    var firstIndex: nat
    var lastIndex: nat
    var sfile: File
    /** The positions of the segments in the cache. */
    var cache: set<nat>
    var corrupt: bool
    var closed: bool
    const segmentSize: nat
    const cacheSize: nat
    /** The payloads of each segment's file. */
    ghost var chunks: seq<Chunk>
    /** Every disk operation made so far. */
    ghost var trace: seq<DiskOp>

    /** `pending` are payloads in the tail's buffer that its file does not have yet. */
    ghost predicate Writing(pending: seq<Bytes>)
      reads this
    {
      && segmentSize > 0 && 0 < cacheSize && |cache| <= cacheSize
      && Holds(disk, At(segments), chunks)
      && Named(segments)
      && Buffered(segments, chunks, cache)
      && Loaded(segments[|segments| - 1], chunks[|chunks| - 1] + pending)
      && sfile == segments[|segments| - 1].path
      && firstIndex == segments[0].index
      && lastIndex + 1 == segments[|segments| - 1].index + |chunks[|chunks| - 1]|
    }

    ghost predicate Valid()
      reads this
    {
      Writing([])
    }

    ghost function Contents(): seq<Bytes>
      reads this
    {
      Flatten(chunks)
    }

    lemma Bounds()
      requires Valid()
      ensures firstIndex >= 1 && lastIndex + 1 == firstIndex + |Contents()|
      ensures Loaded(segments[|segments| - 1], chunks[|chunks| - 1])
    {
      var k := |chunks| - 1;
      IndexOf(At(segments), chunks, k);
      assert chunks == chunks[..k] + [chunks[k]];
      FlattenConcat(chunks[..k], [chunks[k]]);
      FlattenOne(chunks[k]);
      assert chunks[k] + [] == chunks[k];
    }

    /** A log with an empty cache and a loaded tail. */
    lemma Ready()
      requires segmentSize > 0 && cacheSize > 0 && cache == {} && Named(segments)
      requires Holds(disk, At(segments), chunks)
      requires Idle(segments)
      requires sfile == segments[|segments| - 1].path && Loaded(segments[|segments| - 1], chunks[|chunks| - 1])
      requires firstIndex == segments[0].index
      requires lastIndex + 1 == segments[|segments| - 1].index + |chunks[|chunks| - 1]|
      ensures Valid()
    {
      ClearBuffered(segments, chunks);
      assert chunks[|chunks| - 1] + [] == chunks[|chunks| - 1];
    }

    constructor (files: Disk, size: nat, slots: nat)
      requires size > 0 && slots > 0
      ensures disk == files && segmentSize == size && cacheSize == slots
      ensures segments == [] && cache == {} && trace == [] && !corrupt && !closed
    {
      disk, segmentSize, cacheSize := files, size, slots;
      segments, firstIndex, lastIndex, sfile, cache := [], 0, 0, Temp, {};
      corrupt, closed := false, false;
      chunks, trace := [], [];
    }

    // ---- the segment cache ----

    method PushCache(k: nat) returns (evicted: Option<nat>)
      requires k < |segments| && cacheSize > 0
      requires forall i :: i in cache ==> i < |segments|
      modifies this`segments, this`cache
      ensures evicted == None ==> cache == old(cache) + {k} && segments == old(segments)
      ensures evicted.Some? ==> evicted.value in old(cache) && evicted.value != k
      ensures evicted.Some? ==> cache == old(cache) + {k} - {evicted.value}
      ensures evicted.Some? ==> segments == old(segments[evicted.value := Emptied(segments[evicted.value])])
      ensures |old(cache)| <= cacheSize ==> |cache| <= cacheSize
    {
      cache := cache + {k};
      if |cache| > cacheSize {
        assert |cache - {k}| > 0;
        assert exists v :: v in cache - {k};
        var v :| v in cache && v != k;
        cache := cache - {v};
        segments := segments[v := Emptied(segments[v])];
        return Some(v);
      }
      return None;
    }

    method DropCache()
      requires forall i :: i in cache ==> i < |segments|
      modifies this`segments, this`cache
      ensures cache == {} && |segments| == |old(segments)|
      ensures forall i :: 0 <= i < |segments| ==>
        segments[i] == if i in old(cache) then Emptied(old(segments)[i]) else old(segments)[i]
    {
      var left := cache;
      while left != {}
        invariant left <= cache == old(cache) && |segments| == |old(segments)|
        invariant forall i :: 0 <= i < |segments| ==>
          segments[i] == if i in cache - left then Emptied(old(segments)[i]) else old(segments)[i]
        decreases |left|
      {
        var k :| k in left;
        segments := segments[k := Emptied(segments[k])];
        left := left - {k};
      }
      cache := {};
    }

    /** Without the cache every buffer but the tail's is empty. */
    method EmptyBuffers()
      requires 0 < |segments| == |chunks| && Named(segments) && Buffered(segments, chunks, cache)
      modifies this`segments, this`cache
      ensures cache == {} && Named(segments) && At(segments) == old(At(segments))
      ensures Idle(segments)
      ensures segments[|segments| - 1] == old(segments)[|old(segments)| - 1]
    {
      DropCache();
      forall i | 0 <= i < |segments| - 1 ensures segments[i] == Emptied(segments[i]) {
        assert BufferOk(old(segments), chunks, old(cache), i);
      }
      assert At(segments) == old(At(segments));
    }

    method ClearCache() returns (err: Err)
      requires Valid()
      modifies this`segments, this`cache
      ensures Valid()
      ensures err == if corrupt then ErrCorrupt else if closed then ErrClosed else Ok
      ensures err == Ok ==> cache == {}
    {
      if corrupt { return ErrCorrupt; }
      if closed { return ErrClosed; }
      DropCache();
      DropBuffered(old(segments), chunks, old(cache), segments);
      assert At(segments) == old(At(segments));
      return Ok;
    }

    // ---- writing ----

    /** Appends an ordered batch. `ops` are its file writes and new files; cut between any two of
        them, the directory holds the old payloads and a prefix of the batch. */
    method WriteBatch(batch: seq<BatchEntry>) returns (err: Err, ghost ops: seq<DiskOp>)
      requires Valid() && AllFit(Payloads(batch))
      modifies this`disk, this`trace, this`segments, this`cache, this`chunks, this`lastIndex, this`sfile
      ensures Valid()
      ensures err == if corrupt then ErrCorrupt
                     else if closed then ErrClosed
                     else if InOrder(batch, old(lastIndex)) then Ok
                     else ErrOutOfOrder
      ensures Contents() == if err == Ok then old(Contents()) + Payloads(batch) else old(Contents())
      ensures err != Ok ==> disk == old(disk) && segments == old(segments)
      ensures Made(old(disk), old(trace), ops)
      ensures Staged(Job(old(disk), old(trace), old(firstIndex), old(Contents()), Payloads(batch)), ops)
    {
      ghost var job := Job(disk, trace, firstIndex, Contents(), Payloads(batch));
      ops := [];
      FirstStage(job);
      if corrupt { return ErrCorrupt, ops; }
      if closed { return ErrClosed, ops; }
      if |batch| == 0 { return Ok, ops; }
      for i := 0 to |batch|
        invariant forall j :: 0 <= j < i ==> batch[j].index == lastIndex + j + 1
      {
        if batch[i].index != lastIndex + i + 1 {
          return ErrOutOfOrder, ops;
        }
      }
      ops := WriteEntries(batch, job);
      return Ok, ops;
    }

    /** The job has got as far as `ops`, with all but the pending payloads of the first n written. */
    ghost predicate Doing(job: Job, ops: seq<DiskOp>, pending: seq<Bytes>, n: nat)
      reads this
    {
      && Writing(pending) && AllFit(pending) && firstIndex == job.first
      && Made(job.disk, job.before, ops) && Staged(job, ops)
      && |pending| <= n <= |job.batch| && Contents() + pending == job.had + job.batch[..n]
    }

    lemma StageNow(job: Job, n: nat)
      requires Valid() && firstIndex == job.first && n <= |job.batch| && Contents() == job.had + job.batch[..n]
      ensures Stage(job, disk)
    {
      assert StageWith(job, disk, At(segments), chunks, n);
    }

    lemma FirstStage(job: Job)
      requires Valid() && job.disk == disk && job.before == trace && job.first == firstIndex && job.had == Contents()
      ensures Doing(job, [], [], 0)
    {
      StageNow(job, 0);
      forall j: nat | j <= 0 ensures StageAfter(job, [], j) {
      }
    }

    /** One more operation, after which nothing is pending. */
    lemma StageNext(job: Job, ops: seq<DiskOp>, op: DiskOp, n: nat, d: Disk, t: seq<DiskOp>)
      requires Valid() && firstIndex == job.first && n <= |job.batch| && Contents() == job.had + job.batch[..n]
      requires d == Run(job.disk, ops) && t == job.before + ops && Staged(job, ops)
      requires disk == Step(d, op) && trace == t + [op]
      ensures Doing(job, ops + [op], [], n)
    {
      StageNow(job, n);
      StagedSnoc(job, ops, op);
      assert t + [op] == job.before + (ops + [op]);
      assert Contents() + [] == Contents();
    }

    method WriteEntries(batch: seq<BatchEntry>, ghost job: Job) returns (ghost ops: seq<DiskOp>)
      requires Valid() && AllFit(Payloads(batch)) && |batch| > 0 && InOrder(batch, lastIndex)
      requires Doing(job, [], [], 0) && job.batch == Payloads(batch)
      modifies this`disk, this`trace, this`segments, this`cache, this`chunks, this`lastIndex, this`sfile
      ensures Valid() && Doing(job, ops, [], |batch|)
      ensures Contents() == job.had + Payloads(batch)
    {
      var mark;
      mark, ops := StartWriting(job);
      ghost var pending: seq<Bytes> := [];
      for i := 0 to |batch|
        invariant Doing(job, ops, pending, i) && mark == |Frames(chunks[|chunks| - 1])|
        invariant lastIndex + |pending| == old(lastIndex) + i
      {
        mark, pending, ops := AddEntry(batch[i], mark, pending, job, ops, i);
      }
      assert job.batch[..|batch|] == job.batch;
      ops := FlushRest(mark, batch[|batch| - 1].index, pending, job, ops, |batch|);
    }

    /** Makes way in front of a batch when the tail is over its size already. */
    method StartWriting(ghost job: Job) returns (mark: nat, ghost ops: seq<DiskOp>)
      requires Valid() && Doing(job, [], [], 0)
      modifies this`disk, this`trace, this`segments, this`cache, this`chunks, this`sfile
      ensures Doing(job, ops, [], 0) && mark == |Frames(chunks[|chunks| - 1])|
    {
      ops := [];
      Bounds();
      if |segments[|segments| - 1].ebuf| > segmentSize {
        ops := CycleStage(job, ops, 0);
        Bounds();
      }
      mark := |segments[|segments| - 1].ebuf|;
    }

    /** Writes out what the loop left in the tail's buffer, if anything. */
    method FlushRest(mark: nat, last: nat, ghost pending: seq<Bytes>,
                     ghost job: Job, ghost ops: seq<DiskOp>, ghost n: nat)
      returns (ghost ops': seq<DiskOp>)
      requires Doing(job, ops, pending, n)
      requires mark == |Frames(chunks[|chunks| - 1])| && last == lastIndex + |pending|
      modifies this`disk, this`trace, this`lastIndex, this`chunks
      ensures Valid() && Doing(job, ops', [], n) && Contents() == job.had + job.batch[..n]
    {
      ops' := ops;
      if |segments[|segments| - 1].ebuf| - mark > 0 {
        ops' := FlushStage(mark, last, pending, job, ops, n);
      } else {
        FramesConcat(chunks[|chunks| - 1], pending);
        FramesGrow(pending);
      }
      assert Contents() + [] == Contents();
    }

    /** One turn of the loop: the entry joins the tail's buffer, and a buffer that has reached
        the segment size is written out and closed. */
    method AddEntry(e: BatchEntry, mark: nat, ghost pending: seq<Bytes>,
                    ghost job: Job, ghost ops: seq<DiskOp>, ghost n: nat)
      returns (mark': nat, ghost pending': seq<Bytes>, ghost ops': seq<DiskOp>)
      requires Doing(job, ops, pending, n) && n < |job.batch| && job.batch[n] == e.data && Fits(e.data)
      requires mark == |Frames(chunks[|chunks| - 1])| && e.index == lastIndex + |pending| + 1
      modifies this`disk, this`trace, this`segments, this`cache, this`chunks, this`lastIndex, this`sfile
      ensures Doing(job, ops', pending', n + 1)
      ensures mark' == |Frames(chunks[|chunks| - 1])| && e.index == lastIndex + |pending'|
    {
      AppendEntry(e.data, pending);
      mark', pending', ops' := mark, pending + [e.data], ops;
      assert job.batch[..n + 1] == job.batch[..n] + [e.data];
      BothGrow(Contents(), pending, job.had, job.batch[..n], e.data);
      if |segments[|segments| - 1].ebuf| >= segmentSize {
        ops' := Close(mark, e.index, pending', job, ops, n + 1);
        mark', pending' := 0, [];
      }
    }

    /** Writes out a full tail and starts a new one. */
    method Close(mark: nat, last: nat, ghost pending: seq<Bytes>, ghost job: Job, ghost ops: seq<DiskOp>, ghost n: nat)
      returns (ghost ops': seq<DiskOp>)
      requires Doing(job, ops, pending, n) && pending != []
      requires mark == |Frames(chunks[|chunks| - 1])| && last == lastIndex + |pending|
      modifies this`disk, this`trace, this`segments, this`cache, this`chunks, this`lastIndex, this`sfile
      ensures Doing(job, ops', [], n) && lastIndex == last && chunks[|chunks| - 1] == []
    {
      ops' := FlushStage(mark, last, pending, job, ops, n);
      ops' := CycleStage(job, ops', n);
    }

    method FlushStage(mark: nat, last: nat, ghost pending: seq<Bytes>,
                      ghost job: Job, ghost ops: seq<DiskOp>, ghost n: nat)
      returns (ghost ops': seq<DiskOp>)
      requires Doing(job, ops, pending, n)
      requires mark == |Frames(chunks[|chunks| - 1])| && last == lastIndex + |pending|
      modifies this`disk, this`trace, this`lastIndex, this`chunks
      ensures Doing(job, ops', [], n) && lastIndex == last
      ensures chunks[|chunks| - 1] == old(chunks)[|old(chunks)| - 1] + pending
    {
      Flush(mark, last, pending);
      StageNext(job, ops, Write(sfile, disk[sfile]), n, old(disk), old(trace));
      ops' := ops + [Write(sfile, disk[sfile])];
    }

    method CycleStage(ghost job: Job, ghost ops: seq<DiskOp>, ghost n: nat) returns (ghost ops': seq<DiskOp>)
      requires Doing(job, ops, [], n) && chunks[|chunks| - 1] != []
      modifies this`disk, this`trace, this`segments, this`cache, this`chunks, this`sfile
      ensures Doing(job, ops', [], n) && chunks[|chunks| - 1] == []
    {
      assert Contents() + [] == Contents();
      Cycle();
      StageNext(job, ops, Write(sfile, []), n, old(disk), old(trace));
      ops' := ops + [Write(sfile, [])];
    }

    method AppendEntry(data: Bytes, ghost pending: seq<Bytes>)
      requires Writing(pending)
      modifies this`segments
      ensures Writing(pending + [data])
    {
      var tail := |segments| - 1;
      var s := segments[tail];
      var ebuf := s.ebuf + Frame(data);
      segments := segments[tail := s.(ebuf := ebuf, epos := s.epos + [Pos(|s.ebuf|, |ebuf|)])];
      assert At(segments) == old(At(segments));
      TailBuffered(old(segments), chunks, cache, segments[tail], chunks[tail]);
      assert chunks[tail := chunks[tail]] == chunks;
      LoadedSnoc(s, chunks[tail] + pending, data);
      assert chunks[tail] + pending + [data] == chunks[tail] + (pending + [data]);
    }

    /** Writes the tail's buffer from `mark` on to its file. */
    method Flush(mark: nat, last: nat, ghost pending: seq<Bytes>)
      requires Writing(pending) && AllFit(pending)
      requires mark == |Frames(chunks[|chunks| - 1])| && last == lastIndex + |pending|
      modifies this`disk, this`trace, this`lastIndex, this`chunks
      ensures Valid() && lastIndex == last
      ensures sfile in disk && disk == Step(old(disk), Write(sfile, disk[sfile]))
      ensures trace == old(trace) + [Write(sfile, disk[sfile])]
      ensures Contents() == old(Contents()) + pending
      ensures chunks == old(chunks)[|old(chunks)| - 1 := old(chunks)[|old(chunks)| - 1] + pending]
    {
      ghost var tail := |segments| - 1;
      AppendHolds(disk, At(segments), chunks, pending);
      Unwritten(segments[tail], chunks[tail], pending);
      TailBuffered(segments, chunks, cache, segments[tail], chunks[tail] + pending);
      assert segments[tail := segments[tail]] == segments;
      Do(Write(sfile, disk[sfile] + segments[|segments| - 1].ebuf[mark..]));
      lastIndex := last;
      chunks := chunks[|chunks| - 1 := chunks[|chunks| - 1] + pending];
      assert chunks[tail] + [] == chunks[tail];
    }

    /** The tail joins the cache, with `next` about to follow it. */
    method CacheTail(next: Segment)
      requires Valid()
      modifies this`segments, this`cache
      ensures At(segments) == old(At(segments)) && Named(segments) && |cache| <= cacheSize
      ensures Buffered(segments + [next], chunks + [[]], cache)
    {
      Bounds();
      var evicted := PushCache(|segments| - 1);
      CycleBuffered(old(segments), chunks, old(cache), next, evicted, segments, cache);
      assert At(segments) == old(At(segments));
    }

    /** Closes a full tail and starts an empty segment after it. */
    method Cycle()
      requires Valid() && chunks[|chunks| - 1] != []
      modifies this`disk, this`trace, this`segments, this`sfile, this`cache, this`chunks
      ensures Valid() && chunks == old(chunks) + [[]]
      ensures disk == Step(old(disk), Write(sfile, [])) && trace == old(trace) + [Write(sfile, [])]
      ensures Contents() == old(Contents())
    {
      CycleHolds(disk, At(segments), chunks, lastIndex + 1);
      var s := Segment(Seg(lastIndex + 1), lastIndex + 1, [], []);
      CacheTail(s);
      OpenNext(s);
    }

    method OpenNext(s: Segment)
      requires segmentSize > 0 && 0 < cacheSize && |cache| <= cacheSize && 0 < |segments| == |chunks|
      requires Holds(disk[s.path := []], At(segments) + [s.index], chunks + [[]])
      requires Named(segments) && s == Segment(Seg(lastIndex + 1), lastIndex + 1, [], [])
      requires Buffered(segments + [s], chunks + [[]], cache) && firstIndex == segments[0].index
      modifies this`disk, this`trace, this`segments, this`sfile, this`chunks
      ensures Valid() && chunks == old(chunks) + [[]]
      ensures disk == Step(old(disk), Write(sfile, [])) && trace == old(trace) + [Write(sfile, [])]
    {
      Do(Write(s.path, []));
      sfile := s.path;
      segments := segments + [s];
      chunks := chunks + [[]];
      assert At(segments) == old(At(segments)) + [lastIndex + 1];
    }

    // ---- finding and loading segments ----

    method FindSegment(index: nat) returns (k: int)
      requires forall i, j :: 0 <= i < j < |segments| ==> segments[i].index < segments[j].index
      ensures -1 <= k < |segments|
      ensures forall i :: 0 <= i < |segments| ==> (segments[i].index <= index <==> i <= k)
    {
      var i, j := 0, |segments|;
      while i < j
        invariant 0 <= i <= j <= |segments|
        invariant forall h :: 0 <= h < i ==> segments[h].index <= index
        invariant forall h :: j <= h < |segments| ==> index < segments[h].index
      {
        var h := i + (j - i) / 2;
        if index >= segments[h].index {
          i := h + 1;
        } else {
          j := h;
        }
      }
      return i - 1;
    }

    method LoadSegmentEntries(k: nat) returns (err: Err)
      requires k < |segments| && segments[k].path in disk
      modifies this`segments
      ensures err == if old(Scanned(disk, segments[k])).Some? then Ok else ErrCorrupt
      ensures segments == old(match Scanned(disk, segments[k])
                              case None => segments
                              case Some(s) => segments[k := s])
    {
      var data := disk[segments[k].path];
      var epos := LoadEntries(data);
      if epos == None {
        return ErrCorrupt;
      }
      segments := segments[k := segments[k].(ebuf := data, epos := epos.value)];
      return Ok;
    }

    /** The segment holding `index`, loaded; every buffer stays equal to its file. */
    method LoadSegment(index: nat) returns (err: Err, k: nat)
      requires Valid() && firstIndex <= index <= lastIndex
      modifies this`segments, this`cache
      ensures Valid() && err == Ok
      ensures At(segments) == old(At(segments))
      ensures InSegment(At(segments), chunks, k, index)
      ensures Loaded(segments[k], chunks[k]) && (k in cache || k == |segments| - 1)
    {
      Bounds();
      var tail := |segments| - 1;
      if index >= segments[tail].index {
        return Ok, tail;
      }
      var hit := CheckCache(index);
      if hit.Some? {
        return Ok, hit.value;
      }
      err, k := LoadOlder(index);
    }

    /** Finds a segment in front of the tail and reads its file. */
    method LoadOlder(index: nat) returns (err: Err, k: nat)
      requires Valid() && firstIndex <= index < segments[|segments| - 1].index
      modifies this`segments, this`cache
      ensures Valid() && err == Ok
      ensures At(segments) == old(At(segments))
      ensures InSegment(At(segments), chunks, k, index)
      ensures Loaded(segments[k], chunks[k]) && k in cache
    {
      AllApart(At(segments), chunks);
      var idx := FindSegment(index);
      assert idx >= 0 by { assert segments[0].index <= index; }
      Located(At(segments), chunks, idx, index);
      err := FetchSegment(idx);
      k := idx;
    }

    /** Looks at one cached segment; which one is the cache's business. */
    method CheckCache(index: nat) returns (hit: Option<nat>)
      requires Valid()
      ensures hit.Some? ==> hit.value in cache && InSegment(At(segments), chunks, hit.value, index)
      ensures hit.Some? ==> Loaded(segments[hit.value], chunks[hit.value])
    {
      if cache != {} {
        var r :| r in cache;
        assert BufferOk(segments, chunks, cache, r);
        if segments[r].index <= index < segments[r].index + |segments[r].epos| {
          return Some(r);
        }
      }
      return None;
    }

    method FillSegment(k: nat) returns (err: Err)
      requires Valid() && k + 1 < |segments|
      modifies this`segments
      ensures err == Ok && |segments| == |old(segments)| && segments == old(segments)[k := segments[k]]
      ensures segments[k].index == old(segments)[k].index && segments[k].path == old(segments)[k].path
      ensures Loaded(segments[k], chunks[k])
    {
      err := Ok;
      assert Stored(disk, At(segments)[k], chunks[k]);
      assert chunks[k] != [] by { assert Link(At(segments), chunks, k + 1); }
      assert BufferOk(segments, chunks, cache, k);
      if |segments[k].epos| == 0 {
        ScannedLoaded(disk, segments[k], chunks[k]);
        err := LoadSegmentEntries(k);
      }
    }

    /** Loads a segment before the tail unless it is loaded already, and caches it. */
    method FetchSegment(k: nat) returns (err: Err)
      requires Valid() && k + 1 < |segments|
      modifies this`segments, this`cache
      ensures Valid() && err == Ok
      ensures At(segments) == old(At(segments))
      ensures Loaded(segments[k], chunks[k]) && k in cache
    {
      err := FillSegment(k);
      ghost var s := segments[k];
      var evicted := PushCache(k);
      PushBuffered(old(segments), chunks, old(cache), k, s, evicted, segments, cache);
      assert At(segments) == old(At(segments));
    }

    method Read(index: nat) returns (err: Err, data: Bytes)
      requires Valid()
      modifies this`segments, this`cache
      ensures Valid() && At(segments) == old(At(segments))
      ensures corrupt || closed ==> err == ErrCorrupt
      ensures !corrupt && !closed ==> (err == ErrNotFound <==> !(firstIndex <= index <= lastIndex))
      ensures !corrupt && !closed && firstIndex <= index <= lastIndex ==>
        err == Ok && index - firstIndex < |Contents()| && data == Contents()[index - firstIndex]
    {
      data := [];
      Bounds();
      if corrupt || closed {
        return ErrCorrupt, data;
      }
      if index == 0 || index < firstIndex || index > lastIndex {
        return ErrNotFound, data;
      }
      var k;
      err, k := LoadSegment(index);
      var j := index - segments[k].index;
      PayloadAt(At(segments), chunks, k, index);
      assert Stored(disk, At(segments)[k], chunks[k]);
      EntryAt(segments[k], chunks[k], j);
      var epos := segments[k].epos[j];
      var edata := segments[k].ebuf[epos.start..epos.end];
      var payload := Payload(edata);
      if payload == None {
        return ErrCorrupt, data;
      }
      return Ok, payload.value;
    }

    // ---- truncation ----

    method Do(op: DiskOp)
      modifies this`disk, this`trace
      ensures disk == Step(old(disk), op) && trace == old(trace) + [op]
    {
      disk := match op
        case Write(f, data) => disk[f := data]
        case Rename(f, t) => if f in disk then (disk - {f})[t := disk[f]] else disk
        case Remove(f) => disk - {f};
      trace := trace + [op];
    }

    /** The operations made since the disk was `d` are `ops`. */
    ghost predicate Made(d: Disk, before: seq<DiskOp>, ops: seq<DiskOp>)
      reads this
    {
      disk == Run(d, ops) && trace == before + ops
    }

    method DoNext(op: DiskOp, ghost d: Disk, ghost before: seq<DiskOp>, ghost ops: seq<DiskOp>)
      requires Made(d, before, ops)
      modifies this`disk, this`trace
      ensures Made(d, before, ops + [op])
    {
      RunSnoc(d, ops, op);
      Do(op);
      assert before + ops + [op] == before + (ops + [op]);
    }

    /** Writes the part of a segment that stays and marks the truncation as decided. */
    method PutMarker(buf: Bytes, marker: File)
      modifies this`disk, this`trace
      ensures Made(old(disk), old(trace), [Write(Temp, buf), Rename(Temp, marker)])
    {
      assert [] + [Write(Temp, buf)] == [Write(Temp, buf)];
      assert [Write(Temp, buf)] + [Rename(Temp, marker)] == [Write(Temp, buf), Rename(Temp, marker)];
      DoNext(Write(Temp, buf), old(disk), old(trace), []);
      DoNext(Rename(Temp, marker), old(disk), old(trace), [Write(Temp, buf)]);
    }

    method RemoveFiles(lo: nat, hi: nat, ghost d: Disk, ghost before: seq<DiskOp>, ghost head: seq<DiskOp>)
      requires lo <= hi <= |segments| && Named(segments) && Made(d, before, head)
      modifies this`disk, this`trace
      ensures Made(d, before, head + Removes(SegNames(At(segments)[lo..hi])))
    {
      SlicePaths(segments, lo, hi);
      RemovePaths(lo, hi, SegNames(At(segments)[lo..hi]), d, before, head);
    }

    method RemovePaths(lo: nat, hi: nat, ghost names: seq<File>,
                       ghost d: Disk, ghost before: seq<DiskOp>, ghost head: seq<DiskOp>)
      requires lo <= hi <= |segments| && Made(d, before, head)
      requires |names| == hi - lo && forall i :: lo <= i < hi ==> names[i - lo] == segments[i].path
      modifies this`disk, this`trace
      ensures Made(d, before, head + Removes(names))
    {
      assert head + Removes(names[..0]) == head;
      for i := lo to hi
        invariant Made(d, before, head + Removes(names[..i - lo]))
      {
        RemovesSnoc(head, names, i - lo);
        DoNext(Remove(segments[i].path), d, before, head + Removes(names[..i - lo]));
      }
      assert names[..hi - lo] == names;
    }

    method CutFront(k: nat, index: nat, buf: Bytes)
      requires k < |segments| && Named(segments)
      modifies this`disk, this`trace
      ensures Made(old(disk), old(trace), FrontOps(SegNames(At(segments)[..k + 1]), index, buf))
    {
      ghost var head := [Write(Temp, buf), Rename(Temp, Start(index))];
      PutMarker(buf, Start(index));
      RemoveFiles(0, k + 1, old(disk), old(trace), head);
      assert At(segments)[0..k + 1] == At(segments)[..k + 1];
      DoNext(Rename(Start(index), Seg(index)), old(disk), old(trace), head + Removes(SegNames(At(segments)[..k + 1])));
    }

    method CutBack(k: nat, base: nat, buf: Bytes)
      requires k < |segments| && Named(segments)
      modifies this`disk, this`trace
      ensures Made(old(disk), old(trace), BackOps(SegNames(At(segments)[k..]), base, buf))
    {
      ghost var head := [Write(Temp, buf), Rename(Temp, End(base))];
      PutMarker(buf, End(base));
      RemoveFiles(k, |segments|, old(disk), old(trace), head);
      assert At(segments)[k..|segments|] == At(segments)[k..];
      DoNext(Rename(End(base), Seg(base)), old(disk), old(trace), head + Removes(SegNames(At(segments)[k..])));
    }

    method TruncateFront(index: nat) returns (err: Err, ghost k: nat)
      requires Valid()
      modifies this`disk, this`trace, this`segments, this`cache, this`chunks, this`firstIndex, this`sfile
      ensures Valid()
      ensures err == if corrupt then ErrCorrupt
                     else if closed then ErrClosed
                     else if old(firstIndex <= index <= lastIndex) then Ok
                     else ErrOutOfRange
      ensures err != Ok ==> firstIndex == old(firstIndex) && chunks == old(chunks) && disk == old(disk)
      ensures err == Ok ==> firstIndex == index && 0 <= index - old(firstIndex) <= |old(Contents())|
      ensures err == Ok ==> Contents() == old(Contents())[index - old(firstIndex)..]
      ensures err == Ok && index > old(firstIndex) ==>
        && InSegment(old(At(segments)), old(chunks), k, index)
        && Made(old(disk), old(trace), FrontScript(old(At(segments)), old(chunks), k, index))
    {
      k := 0;
      if corrupt { return ErrCorrupt, k; }
      if closed { return ErrClosed, k; }
      Bounds();
      if index == 0 || lastIndex == 0 || index < firstIndex || index > lastIndex {
        return ErrOutOfRange, k;
      }
      err := Ok;
      if index == firstIndex {
        return Ok, k;
      }
      k := KeepFrom(index);
    }

    method KeepFrom(index: nat) returns (ghost k: nat)
      requires Valid() && firstIndex <= index <= lastIndex
      modifies this`disk, this`trace, this`segments, this`cache, this`chunks, this`firstIndex, this`sfile
      ensures Valid()
      ensures firstIndex == index && 0 <= index - old(firstIndex) <= |old(Contents())|
      ensures Contents() == old(Contents())[index - old(firstIndex)..]
      ensures InSegment(old(At(segments)), old(chunks), k, index)
      ensures Made(old(disk), old(trace), FrontScript(old(At(segments)), old(chunks), k, index))
    {
      ghost var at, held := At(segments), chunks;
      var err, pos := Locate(index);
      k := pos;
      DropFront(pos, index);
      FrontPayloads(at, held, pos, index);
    }

    /** Both lookups a truncation makes name the same segment. */
    method Locate(index: nat) returns (err: Err, k: nat)
      requires Valid() && firstIndex <= index <= lastIndex
      modifies this`segments, this`cache
      ensures Valid() && err == Ok
      ensures At(segments) == old(At(segments))
      ensures InSegment(At(segments), chunks, k, index) && Loaded(segments[k], chunks[k])
    {
      ghost var at := At(segments);
      AllApart(at, chunks);
      var segIdx := FindSegment(index);
      assert forall i :: 0 <= i < |at| ==> (at[i] <= index <==> i <= segIdx);
      err, k := LoadSegment(index);
      if k < segIdx { Apart(at, chunks, k, segIdx); }
      assert segIdx == k;
    }

    /** Drops every cached buffer and the segments before k, which now starts at `index`. */
    method RebaseFront(k: nat, index: nat)
      requires k < |segments| == |chunks| && Named(segments) && Buffered(segments, chunks, cache)
      modifies this`segments, this`cache
      ensures cache == {} && Named(segments) && At(segments) == FrontAt(old(At(segments)), k, index)
      ensures Idle(segments)
      ensures |segments| > 1 ==> segments[|segments| - 1] == old(segments)[|old(segments)| - 1]
    {
      EmptyBuffers();
      Rebased(segments, k, index);
      segments := Rebase(segments, k, index);
    }

    /** The part of a front truncation after the checks: `k` holds `index` and is loaded. */
    method DropFront(k: nat, index: nat)
      requires Valid() && InSegment(At(segments), chunks, k, index)
      requires Loaded(segments[k], chunks[k])
      modifies this`disk, this`trace, this`segments, this`cache, this`chunks, this`firstIndex, this`sfile
      ensures Valid()
      ensures firstIndex == index && chunks == FrontChunks(old(At(segments)), old(chunks), k, index)
      ensures Made(old(disk), old(trace), FrontScript(old(At(segments)), old(chunks), k, index))
    {
      Bounds();
      var j := index - segments[k].index;
      BufferSplit(segments[k], chunks[k], j);
      var buf := segments[k].ebuf[segments[k].epos[j].start..];
      FrontHolds(disk, At(segments), chunks, k, index);
      CutFront(k, index, buf);
      SettleFront(k, index);
    }

    /** The fields after the files of a front truncation are in place. */
    method SettleFront(k: nat, index: nat)
      requires segmentSize > 0 && cacheSize > 0
      requires Chained(At(segments), chunks) && InSegment(At(segments), chunks, k, index)
      requires Named(segments) && Buffered(segments, chunks, cache)
      requires sfile == segments[|segments| - 1].path && Loaded(segments[|segments| - 1], chunks[|chunks| - 1])
      requires lastIndex + 1 == segments[|segments| - 1].index + |chunks[|chunks| - 1]|
      requires Holds(disk, FrontAt(At(segments), k, index), FrontChunks(At(segments), chunks, k, index))
      modifies this`segments, this`cache, this`chunks, this`firstIndex, this`sfile
      ensures Valid() && firstIndex == index
      ensures chunks == FrontChunks(old(At(segments)), old(chunks), k, index)
    {
      RebaseFront(k, index);
      chunks := FrontChunks(old(At(segments)), chunks, k, index);
      firstIndex := index;
      if |segments| == 1 {
        ReopenTail();
      }
      Ready();
    }

    /** Opens the tail's file for appending and loads its entries. */
    method ReopenTail()
      requires Holds(disk, At(segments), chunks) && Named(segments)
      modifies this`segments, this`sfile
      ensures At(segments) == old(At(segments)) && Named(segments)
      ensures segments == old(segments)[|old(segments)| - 1 := segments[|segments| - 1]]
      ensures sfile == segments[|segments| - 1].path && Loaded(segments[|segments| - 1], chunks[|chunks| - 1])
    {
      var tail := |segments| - 1;
      sfile := segments[tail].path;
      assert Stored(disk, At(segments)[tail], chunks[tail]);
      ScannedLoaded(disk, segments[tail], chunks[tail]);
      var err := LoadSegmentEntries(tail);
      assert At(segments) == old(At(segments));
    }

    method TruncateBack(index: nat) returns (err: Err, ghost k: nat)
      requires Valid()
      modifies this`disk, this`trace, this`segments, this`cache, this`chunks, this`lastIndex, this`sfile
      ensures Valid()
      ensures err == if corrupt then ErrCorrupt
                     else if closed then ErrClosed
                     else if old(firstIndex <= index <= lastIndex) then Ok
                     else ErrOutOfRange
      ensures err != Ok ==> lastIndex == old(lastIndex) && chunks == old(chunks) && disk == old(disk)
      ensures err == Ok ==> lastIndex == index && 0 <= index + 1 - old(firstIndex) <= |old(Contents())|
      ensures err == Ok ==> Contents() == old(Contents())[..index + 1 - old(firstIndex)]
      ensures err == Ok && index < old(lastIndex) ==>
        && InSegment(old(At(segments)), old(chunks), k, index)
        && Made(old(disk), old(trace), BackScript(old(At(segments)), old(chunks), k, index))
    {
      k := 0;
      if corrupt { return ErrCorrupt, k; }
      if closed { return ErrClosed, k; }
      Bounds();
      if index == 0 || lastIndex == 0 || index < firstIndex || index > lastIndex {
        return ErrOutOfRange, k;
      }
      err := Ok;
      if index == lastIndex {
        return Ok, k;
      }
      k := KeepUpTo(index);
    }

    method KeepUpTo(index: nat) returns (ghost k: nat)
      requires Valid() && firstIndex <= index <= lastIndex
      modifies this`disk, this`trace, this`segments, this`cache, this`chunks, this`lastIndex, this`sfile
      ensures Valid()
      ensures lastIndex == index && 0 <= index + 1 - old(firstIndex) <= |old(Contents())|
      ensures Contents() == old(Contents())[..index + 1 - old(firstIndex)]
      ensures InSegment(old(At(segments)), old(chunks), k, index)
      ensures Made(old(disk), old(trace), BackScript(old(At(segments)), old(chunks), k, index))
    {
      ghost var at, held := At(segments), chunks;
      var err, pos := Locate(index);
      k := pos;
      DropBack(pos, index);
      BackPayloads(at, held, pos, index);
    }

    /** The part of a back truncation after the checks: `k` holds `index` and is loaded. */
    method DropBack(k: nat, index: nat)
      requires Valid() && InSegment(At(segments), chunks, k, index)
      requires Loaded(segments[k], chunks[k])
      modifies this`disk, this`trace, this`segments, this`cache, this`chunks, this`lastIndex, this`sfile
      ensures Valid()
      ensures lastIndex == index && chunks == BackChunks(old(At(segments)), old(chunks), k, index)
      ensures Made(old(disk), old(trace), BackScript(old(At(segments)), old(chunks), k, index))
    {
      var j := index - segments[k].index;
      BufferSplit(segments[k], chunks[k], j);
      var buf := segments[k].ebuf[..segments[k].epos[j].end];
      BackHolds(disk, At(segments), chunks, k, index);
      CutBack(k, segments[k].index, buf);
      SettleBack(k, index);
    }

    /** The fields after the files of a back truncation are in place. */
    method SettleBack(k: nat, index: nat)
      requires segmentSize > 0 && cacheSize > 0
      requires Chained(At(segments), chunks) && InSegment(At(segments), chunks, k, index)
      requires Named(segments) && Buffered(segments, chunks, cache) && firstIndex == segments[0].index
      requires Holds(disk, At(segments)[..k + 1], BackChunks(At(segments), chunks, k, index))
      modifies this`segments, this`cache, this`chunks, this`lastIndex, this`sfile
      ensures Valid() && lastIndex == index
      ensures chunks == BackChunks(old(At(segments)), old(chunks), k, index)
    {
      EmptyBuffers();
      segments := segments[..k + 1];
      assert At(segments) == old(At(segments))[..k + 1];
      lastIndex := index;
      chunks := BackChunks(old(At(segments)), chunks, k, index);
      ReopenTail();
      Ready();
    }

    // ---- opening ----

    /** Reads the directory: its segments and markers, and where the markers are. */
    method Survey(entries: seq<File>) returns (startIdx: int, endIdx: int)
      modifies this`segments
      ensures AllKnown(Listed(entries)) && segments == Unread(Listed(entries))
      ensures startIdx == LastStart(Listed(entries)) && endIdx == FirstEnd(Listed(entries))
    {
      startIdx, endIdx, segments := -1, -1, [];
      ListedKnown(entries);
      for i := 0 to |entries|
        invariant AllKnown(Listed(entries[..i])) && segments == Unread(Listed(entries[..i]))
        invariant startIdx == LastStart(Listed(entries[..i])) && endIdx == FirstEnd(Listed(entries[..i]))
      {
        ListedSnoc(entries, i);
        if Known(entries[i]) {
          MarksSnoc(Listed(entries[..i]), entries[i]);
          if entries[i].Start? {
            startIdx := |segments|;
          } else if entries[i].End? && endIdx == -1 {
            endIdx := |segments|;
          }
          segments := segments + [Segment(entries[i], entries[i].index, [], [])];
        }
      }
      assert entries[..|entries|] == entries;
    }

    method FinishFront(ghost l: seq<File>, s: nat)
      requires AllKnown(l) && segments == Unread(l) && s < |l| && l[s].Start?
      modifies this`segments, this`disk, this`trace
      ensures segments == Unread([Seg(l[s].index)] + l[s + 1..])
      ensures Made(old(disk), old(trace), Removes(l[..s]) + [Rename(l[s], Seg(l[s].index))])
    {
      ghost var d, before := disk, trace;
      for i := 0 to s
        invariant segments == Unread(l) && Made(d, before, Removes(l[..i]))
      {
        assert Removes(l[..i]) + [Remove(l[i])] == Removes(l[..i + 1]);
        DoNext(Remove(segments[i].path), d, before, Removes(l[..i]));
      }
      segments := segments[s..];
      DoNext(Rename(segments[0].path, Seg(segments[0].index)), d, before, Removes(l[..s]));
      segments := segments[0 := segments[0].(path := Seg(segments[0].index))];
    }

    method RemoveAfter(ghost l: seq<File>, e: nat)
      requires AllKnown(l) && segments == Unread(l) && e < |l|
      modifies this`disk, this`trace
      ensures Made(old(disk), old(trace), Removes(Reversed(l[e + 1..])))
    {
      ghost var d, before := disk, trace;
      var i := |segments| - 1;
      while i > e
        invariant e <= i < |l| && Made(d, before, Removes(Reversed(l[i + 1..])))
      {
        RemovesBack(l, i);
        DoNext(Remove(segments[i].path), d, before, Removes(Reversed(l[i + 1..])));
        i := i - 1;
      }
    }

    /** Drops what lies after an END marker, and the segment it replaces. */
    method Squeeze(ghost l: seq<File>, e: nat)
      requires AllKnown(l) && segments == Unread(l) && e < |l|
      modifies this`segments
      ensures segments == Squeezed(l, e)
    {
      segments := segments[..e + 1];
      if |segments| > 1 && segments[|segments| - 2].index == segments[|segments| - 1].index {
        segments := segments[|segments| - 2 := segments[|segments| - 1]];
        segments := segments[..|segments| - 1];
      }
    }

    method FinishBack(ghost l: seq<File>, e: nat)
      requires AllKnown(l) && segments == Unread(l) && e < |l| && FirstEnd(l) == e && LastStart(l) < 0
      modifies this`segments, this`disk, this`trace
      ensures segments == Unread(Kept(l))
      ensures Made(old(disk), old(trace), Removes(Reversed(l[e + 1..])) + [Rename(l[e], Seg(l[e].index))])
    {
      RemoveAfter(l, e);
      SqueezedKept(l, e);
      Squeeze(l, e);
      var tail := |segments| - 1;
      var rename := Rename(segments[tail].path, Seg(segments[tail].index));
      DoNext(rename, old(disk), old(trace), Removes(Reversed(l[e + 1..])));
      segments := segments[tail := segments[tail].(path := Seg(segments[tail].index))];
    }

    /** Opens the log. Whenever what recovery leaves is the log `held`, that log is opened. */
    method Load(entries: seq<File>, ghost at: seq<nat>, ghost held: seq<Chunk>) returns (err: Err)
      requires cache == {} && segmentSize > 0 && cacheSize > 0
      requires IsListing(Listed(entries), disk)
      modifies this
      ensures Muddled(Listed(entries)) ==> err == ErrCorrupt && disk == old(disk)
      ensures !Muddled(Listed(entries)) ==> Made(old(disk), old(trace), RecoverOps(Listed(entries)))
      ensures !Muddled(Listed(entries)) ==>
        && LastFile(Kept(Listed(entries))) in disk
        && err == if Scan(disk[LastFile(Kept(Listed(entries)))], 0, []).Some? then Ok else ErrCorrupt
      ensures !Muddled(Listed(entries)) && Holds(disk, at, held) ==>
        err == Ok && Valid() && At(segments) == at && chunks == held
    {
      ghost var l := Listed(entries);
      var startIdx, endIdx := Survey(entries);
      if startIdx != -1 && endIdx != -1 {
        return ErrCorrupt;
      }
      err := Reopen(l, startIdx, endIdx, at, held);
    }

    method Reopen(ghost l: seq<File>, startIdx: int, endIdx: int, ghost at: seq<nat>, ghost held: seq<Chunk>)
      returns (err: Err)
      requires IsListing(l, disk) && !Muddled(l) && segments == Unread(l)
      requires startIdx == LastStart(l) && endIdx == FirstEnd(l)
      requires cache == {} && segmentSize > 0 && cacheSize > 0
      modifies this
      ensures Made(old(disk), old(trace), RecoverOps(l))
      ensures LastFile(Kept(l)) in disk
      ensures err == if Scan(disk[LastFile(Kept(l))], 0, []).Some? then Ok else ErrCorrupt
      ensures Holds(disk, at, held) ==> err == Ok && Valid() && At(segments) == at && chunks == held
    {
      ghost var d := disk;
      Tidy(l, startIdx, endIdx);
      KeptListing(d, l);
      err := OpenAs(Kept(l), at, held);
    }

    method OpenAs(ghost names: seq<File>, ghost at: seq<nat>, ghost held: seq<Chunk>) returns (err: Err)
      requires names != [] && IsListing(names, disk) && segments == Unread(names)
      requires cache == {} && segmentSize > 0 && cacheSize > 0
      modifies this`segments, this`firstIndex, this`lastIndex, this`sfile, this`chunks
      ensures LastFile(names) in disk
      ensures err == if Scan(disk[LastFile(names)], 0, []).Some? then Ok else ErrCorrupt
      ensures Holds(disk, at, held) ==> err == Ok && Valid() && At(segments) == at && chunks == held
    {
      err := OpenTail(names);
      chunks := held;
      if Holds(disk, at, held) {
        Opened(names, at);
      }
    }

    method Tidy(ghost l: seq<File>, startIdx: int, endIdx: int)
      requires AllKnown(l) && segments == Unread(l) && !Muddled(l)
      requires startIdx == LastStart(l) && endIdx == FirstEnd(l)
      modifies this`segments, this`disk, this`trace
      ensures segments == Unread(Kept(l)) && Kept(l) != []
      ensures Made(old(disk), old(trace), RecoverOps(l))
    {
      if |segments| == 0 {
        segments := [Segment(Seg(1), 1, [], [])];
        DoNext(Write(Seg(1), []), disk, trace, []);
        assert [] + [Write(Seg(1), [])] == [Write(Seg(1), [])];
      } else if startIdx != -1 {
        FinishFront(l, startIdx);
      } else if endIdx != -1 {
        FinishBack(l, endIdx);
      }
    }

    method OpenTail(ghost names: seq<File>) returns (err: Err)
      requires names != [] && IsListing(names, disk) && segments == Unread(names)
      modifies this`segments, this`firstIndex, this`lastIndex, this`sfile
      ensures names[|names| - 1] in disk && firstIndex == names[0].index && sfile == LastFile(names)
      ensures err == if Scan(disk[sfile], 0, []).Some? then Ok else ErrCorrupt
      ensures err == Ok ==> segments == Unread(names)[|names| - 1 := Scanned(disk, Unread(names)[|names| - 1]).value]
      ensures err == Ok ==> lastIndex + 1 == segments[|names| - 1].index + |segments[|names| - 1].epos|
    {
      var tail := |segments| - 1;
      assert names[tail] in names;
      firstIndex := segments[0].index;
      sfile := segments[tail].path;
      err := LoadSegmentEntries(tail);
      if err == Ok {
        lastIndex := segments[tail].index + |segments[tail].epos| - 1;
      }
    }

    lemma Opened(names: seq<File>, at: seq<nat>)
      requires names != [] && IsListing(names, disk) && names[|names| - 1] in disk
      requires Scanned(disk, Unread(names)[|names| - 1]).Some? ==>
        && segments == Unread(names)[|names| - 1 := Scanned(disk, Unread(names)[|names| - 1]).value]
        && lastIndex + 1 == segments[|names| - 1].index + |segments[|names| - 1].epos|
      requires firstIndex == names[0].index && sfile == names[|names| - 1]
      requires cache == {} && segmentSize > 0 && cacheSize > 0
      requires Holds(disk, at, chunks)
      ensures Valid() && At(segments) == at && Scan(disk[LastFile(names)], 0, []).Some?
    {
      var tail := |names| - 1;
      HoldsListing(disk, at, chunks);
      OneListing(names, SegNames(at));
      assert Stored(disk, at[tail], chunks[tail]);
      ScannedLoaded(disk, Unread(names)[tail], chunks[tail]);
      assert At(segments) == at;
      Ready();
    }
  }
}
