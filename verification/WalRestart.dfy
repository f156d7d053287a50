/** A process that dies while it truncates its log, and while it opens the log again, comes back
    with the log as it was or as the truncation should have left it. */
module WalRestart {
  import opened WalFrames
  import opened WalDisk
  import opened WalCrash
  import opened WalLayout
  import opened WalLog
  import opened WalRuns

  lemma OnlySegments(d: Disk, at: seq<nat>, chunks: seq<Chunk>)
    requires Holds(d, at, chunks)
    ensures forall f :: f in d && !f.Other? ==> f.Seg?
  {
    forall f | f in d && !f.Other? ensures f.Seg? {
      assert FileAt(at, f);
    }
  }

  /** Recovery never makes a log of a directory with both kinds of marker. */
  lemma NotMuddled(d: Disk, l: seq<File>, at: seq<nat>, chunks: seq<Chunk>)
    requires IsListing(l, d) && Holds(WalDisk.Run(d, RecoverOps(l)), at, chunks)
    ensures !Muddled(l)
  {
    OnlySegments(WalDisk.Run(d, RecoverOps(l)), at, chunks);
    assert LastStart(l) >= 0 ==> l[LastStart(l)] in l;
  }

  lemma SameListing(d: Disk, l: seq<File>)
    requires IsListing(l, d)
    ensures l == Listing(d)
  {
    OneListing(l, Listing(d));
  }

  function Of(at: seq<nat>, chunks: seq<Chunk>): Plain
    requires at != []
  {
    Plain(at[0], Flatten(chunks))
  }

  /** A log object on a directory that was left behind. */
  ghost predicate Left(log: Log, entries: seq<File>, d: Disk)
    reads log
  {
    && log.disk == d && log.cache == {} && log.segmentSize > 0 && log.cacheSize > 0
    && IsListing(Listed(entries), d)
  }

  /** Opening finds whatever log recovery leaves. */
  method Open(log: Log, entries: seq<File>, ghost d: Disk, ghost at: seq<nat>, ghost held: seq<Chunk>)
    returns (err: Err)
    requires Left(log, entries, d) && Holds(Recover(d), at, held)
    modifies log
    ensures err == Ok && log.Valid() && Seen(log) == Of(at, held)
  {
    SameListing(d, Listed(entries));
    NotMuddled(d, Listed(entries), at, held);
    err := log.Load(entries, at, held);
  }

  lemma FrontOutcome(d: Disk, at: seq<nat>, chunks: seq<Chunk>, k: nat, index: nat, j: nat, cuts: seq<nat>, found: Disk)
    returns (at': seq<nat>, chunks': seq<Chunk>)
    requires Holds(d, at, chunks) && InSegment(at, chunks, k, index) && j <= |FrontScript(at, chunks, k, index)|
    requires found == Recover(Interrupted(WalDisk.Run(d, FrontScript(at, chunks, k, index)[..j]), cuts))
    ensures Holds(found, at', chunks')
    ensures Of(at', chunks') == if j < 2 then Of(at, chunks) else Effect(Of(at, chunks), CutBefore(index))
  {
    FrontAllOrNothing(d, at, chunks, k, index, j, cuts, found);
    BackPayloads(at, chunks, k, index);
    at' := if j < 2 then at else FrontAt(at, k, index);
    chunks' := if j < 2 then chunks else FrontChunks(at, chunks, k, index);
  }

  lemma BackOutcome(d: Disk, at: seq<nat>, chunks: seq<Chunk>, k: nat, index: nat, j: nat, cuts: seq<nat>, found: Disk)
    returns (at': seq<nat>, chunks': seq<Chunk>)
    requires Holds(d, at, chunks) && InSegment(at, chunks, k, index) && j <= |BackScript(at, chunks, k, index)|
    requires found == Recover(Interrupted(WalDisk.Run(d, BackScript(at, chunks, k, index)[..j]), cuts))
    ensures Holds(found, at', chunks')
    ensures Of(at', chunks') == if j < 2 then Of(at, chunks) else Effect(Of(at, chunks), CutAfter(index))
  {
    BackAllOrNothing(d, at, chunks, k, index, j, cuts, found);
    FrontPayloads(at, chunks, k, index);
    at' := if j < 2 then at else at[..k + 1];
    chunks' := if j < 2 then chunks else BackChunks(at, chunks, k, index);
  }

  /** The truncation of `log` at `index` is cut after j disk operations, and then openings are cut
      after cuts[0], cuts[1], ... operations. The next opening succeeds, and finds all of the old
      log or exactly the truncated one. */
  method OpenAfterFrontCut(log: Log, again: Log, entries: seq<File>, index: nat,
                           ghost k: nat, ghost j: nat, ghost cuts: seq<nat>)
    returns (err: Err)
    requires log.Valid() && InSegment(At(log.segments), log.chunks, k, index) && again != log
    requires j <= |FrontScript(At(log.segments), log.chunks, k, index)|
    requires Left(again, entries,
                  Interrupted(WalDisk.Run(log.disk, FrontScript(At(log.segments), log.chunks, k, index)[..j]), cuts))
    modifies again
    ensures err == Ok && again.Valid()
    ensures Seen(again) == if j < 2 then Seen(log) else Effect(Seen(log), CutBefore(index))
  {
    ghost var d := again.disk;
    ghost var at', chunks' :=
      FrontOutcome(log.disk, At(log.segments), log.chunks, k, index, j, cuts, Recover(d));
    err := Open(again, entries, d, at', chunks');
  }

  method OpenAfterBackCut(log: Log, again: Log, entries: seq<File>, index: nat,
                          ghost k: nat, ghost j: nat, ghost cuts: seq<nat>)
    returns (err: Err)
    requires log.Valid() && InSegment(At(log.segments), log.chunks, k, index) && again != log
    requires j <= |BackScript(At(log.segments), log.chunks, k, index)|
    requires Left(again, entries,
                  Interrupted(WalDisk.Run(log.disk, BackScript(At(log.segments), log.chunks, k, index)[..j]), cuts))
    modifies again
    ensures err == Ok && again.Valid()
    ensures Seen(again) == if j < 2 then Seen(log) else Effect(Seen(log), CutAfter(index))
  {
    ghost var d := again.disk;
    ghost var at', chunks' :=
      BackOutcome(log.disk, At(log.segments), log.chunks, k, index, j, cuts, Recover(d));
    err := Open(again, entries, d, at', chunks');
  }

  // ---- writing ----

  /** A directory without markers is not changed by opening it, however often that is cut. */
  lemma {:induction false} NothingToRecover(d: Disk, at: seq<nat>, chunks: seq<Chunk>, cuts: seq<nat>)
    requires Holds(d, at, chunks)
    ensures Interrupted(d, cuts) == d && Recover(d) == d
    decreases |cuts|
  {
    HoldsListing(d, at, chunks);
    SameListing(d, SegNames(at));
    assert RecoverOps(Listing(d)) == [];
    if cuts != [] {
      NothingToRecover(d, at, chunks, cuts[..|cuts| - 1]);
    }
  }

  /** The writing of a batch is cut after j of its file writes and new files, and then openings are cut
      anywhere. The next opening succeeds, and finds the old payloads followed by the first n of the
      batch. */
  method OpenAfterWriteCut(ghost job: Job, ghost ops: seq<DiskOp>, ghost j: nat, ghost cuts: seq<nat>,
                           again: Log, entries: seq<File>)
    returns (err: Err, ghost n: nat)
    requires Staged(job, ops) && j <= |ops|
    requires Left(again, entries, Interrupted(WalDisk.Run(job.disk, ops[..j]), cuts))
    modifies again
    ensures err == Ok && again.Valid()
    ensures n <= |job.batch| && Seen(again) == Plain(job.first, job.had + job.batch[..n])
  {
    ghost var d := WalDisk.Run(job.disk, ops[..j]);
    assert StageAfter(job, ops, j);
    ghost var at, chunks, k :| StageWith(job, d, at, chunks, k);
    NothingToRecover(d, at, chunks, cuts);
    n := k;
    err := Open(again, entries, d, at, chunks);
  }
}
