/** The segmented log behaves as a plain sequence of payloads, over whole runs. */
module WalRuns {
  import opened Basics
  import opened WalFrames
  import opened WalLayout
  import opened WalLog

  /** A log as its users see it: payloads first, first + 1, ... */
  datatype Plain = Plain(first: nat, payloads: seq<Bytes>)

  datatype Command =
    | WriteAll(batch: seq<BatchEntry>)
    | ReadAt(index: nat)
    | CutBefore(index: nat)
    | CutAfter(index: nat)
    | Forget

  datatype Answer = Answer(err: Err, data: Bytes)

  predicate Inside(p: Plain, index: nat) { p.first <= index < p.first + |p.payloads| }

  function Effect(p: Plain, c: Command): Plain {
    match c
    case WriteAll(batch) => if Accepts(p, batch) then p.(payloads := p.payloads + Payloads(batch)) else p
    case CutBefore(i) => if Inside(p, i) then Plain(i, p.payloads[i - p.first..]) else p
    case CutAfter(i) => if Inside(p, i) then p.(payloads := p.payloads[..i + 1 - p.first]) else p
    case ReadAt(_) => p
    case Forget => p
  }

  predicate Accepts(p: Plain, batch: seq<BatchEntry>) {
    forall i :: 0 <= i < |batch| ==> batch[i].index == p.first + |p.payloads| + i
  }

  function Reply(p: Plain, c: Command): Answer {
    match c
    case WriteAll(batch) => Answer(if Accepts(p, batch) then Ok else ErrOutOfOrder, [])
    case CutBefore(i) => Answer(if Inside(p, i) then Ok else ErrOutOfRange, [])
    case CutAfter(i) => Answer(if Inside(p, i) then Ok else ErrOutOfRange, [])
    case ReadAt(i) => if Inside(p, i) then Answer(Ok, p.payloads[i - p.first]) else Answer(ErrNotFound, [])
    case Forget => Answer(Ok, [])
  }

  function After(p: Plain, commands: seq<Command>): Plain {
    if commands == [] then p
    else Effect(After(p, commands[..|commands| - 1]), commands[|commands| - 1])
  }

  function Replies(p: Plain, commands: seq<Command>): seq<Answer> {
    if commands == [] then []
    else
      var front := commands[..|commands| - 1];
      Replies(p, front) + [Reply(After(p, front), commands[|commands| - 1])]
  }

  predicate Fitting(c: Command) { c.WriteAll? ==> AllFit(Payloads(c.batch)) }

  ghost function Seen(log: Log): Plain
    reads log
  {
    Plain(log.firstIndex, log.Contents())
  }

  method Perform(log: Log, c: Command) returns (a: Answer)
    requires log.Valid() && !log.corrupt && !log.closed && Fitting(c)
    modifies log
    ensures log.Valid() && !log.corrupt && !log.closed
    ensures a == Reply(old(Seen(log)), c) && Seen(log) == Effect(old(Seen(log)), c)
  {
    match c
    case WriteAll(batch) => a := PerformWrite(log, batch);
    case ReadAt(index) => a := PerformRead(log, index);
    case CutBefore(index) => a := PerformCut(log, index, true);
    case CutAfter(index) => a := PerformCut(log, index, false);
    case Forget =>
      var err := log.ClearCache();
      a := Answer(err, []);
  }

  method PerformWrite(log: Log, batch: seq<BatchEntry>) returns (a: Answer)
    requires log.Valid() && !log.corrupt && !log.closed && AllFit(Payloads(batch))
    modifies log
    ensures log.Valid() && !log.corrupt && !log.closed
    ensures a == Reply(old(Seen(log)), WriteAll(batch)) && Seen(log) == Effect(old(Seen(log)), WriteAll(batch))
  {
    log.Bounds();
    assert InOrder(batch, log.lastIndex) <==> Accepts(Seen(log), batch);
    var err;
    ghost var ops;
    err, ops := log.WriteBatch(batch);
    a := Answer(err, []);
  }

  method PerformRead(log: Log, index: nat) returns (a: Answer)
    requires log.Valid() && !log.corrupt && !log.closed
    modifies log
    ensures log.Valid() && !log.corrupt && !log.closed
    ensures a == Reply(old(Seen(log)), ReadAt(index)) && Seen(log) == old(Seen(log))
  {
    log.Bounds();
    var err, data := log.Read(index);
    a := Answer(err, if err == Ok then data else []);
  }

  method PerformCut(log: Log, index: nat, front: bool) returns (a: Answer)
    requires log.Valid() && !log.corrupt && !log.closed
    modifies log
    ensures log.Valid() && !log.corrupt && !log.closed
    ensures var c := if front then CutBefore(index) else CutAfter(index);
            a == Reply(old(Seen(log)), c) && Seen(log) == Effect(old(Seen(log)), c)
  {
    log.Bounds();
    var err;
    ghost var k;
    if front {
      err, k := log.TruncateFront(index);
    } else {
      err, k := log.TruncateBack(index);
    }
    a := Answer(err, []);
  }

  /** Any run of writes, reads, cache drops and truncations answers as the plain sequence does,
      whatever the segment size, the cache size and the segments it evicts. */
  method Replay(log: Log, commands: seq<Command>) returns (answers: seq<Answer>)
    requires log.Valid() && !log.corrupt && !log.closed
    requires forall i :: 0 <= i < |commands| ==> Fitting(commands[i])
    modifies log
    ensures log.Valid()
    ensures answers == Replies(old(Seen(log)), commands) && Seen(log) == After(old(Seen(log)), commands)
  {
    answers := [];
    for i := 0 to |commands|
      invariant log.Valid() && !log.corrupt && !log.closed
      invariant answers == Replies(old(Seen(log)), commands[..i])
      invariant Seen(log) == After(old(Seen(log)), commands[..i])
    {
      assert commands[..i + 1][..i] == commands[..i];
      var a := Perform(log, commands[i]);
      answers := answers + [a];
    }
    assert commands[..|commands|] == commands;
  }
}
