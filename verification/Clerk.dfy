/** A clerk's receive side: responses cut out of a byte stream in a fixed buffer. */
module Clerk {
  import opened Basics
  import opened WireFormat

  const BufferLen: nat := 2048

  /** What the parser finds at the front of its buffer. A `Panic` is a header over the package
      limit, or a length so great that adding the header's wraps around 32 bits. */
  datatype Found = Wait | Panic | Message(r: Response, size: nat)

  function Next(b: Bytes, maxPackage: nat): (f: Found)
    ensures f.Message? ==> HeadLen <= f.size <= |b| && |f.r.data| == f.size - HeadLen
  {
    if |b| < HeadLen then Wait
    else
      var dataLen := FromLe(b[4..8]);
      if |b| < (dataLen + HeadLen) % TwoTo32 then Wait
      else
        match Unpack(b[..HeadLen], maxPackage)
        case None => Panic
        case Some(r) =>
          if dataLen + HeadLen >= TwoTo32 then Panic
          else Message(r.(data := b[HeadLen..dataLen + HeadLen]), dataLen + HeadLen)
  }

  /** The messages in a buffer, what is left over, and whether parsing got to the end of it. */
  datatype Parsed = Parsed(found: seq<Response>, rest: Bytes, ok: bool)

  function Join(found: seq<Response>, p: Parsed): Parsed { Parsed(found + p.found, p.rest, p.ok) }

  /** Messages taken off the front of a buffer one by one, by any way of telling them apart. */
  ghost predicate Shrinking(next: Bytes -> Found) {
    forall b :: next(b).Message? ==> 0 < next(b).size <= |b|
  }

  ghost function Parse(next: Bytes -> Found, b: Bytes): Parsed
    requires Shrinking(next)
    decreases |b|
  {
    match next(b)
    case Wait => Parsed([], b, true)
    case Panic => Parsed([], b, false)
    case Message(r, size) => Join([r], Parse(next, b[size..]))
  }

  predicate Look(b: Bytes) { |b| >= 0 }

  /** `next` tells messages apart as the clerk does. */
  ghost predicate Cuts(next: Bytes -> Found, maxPackage: nat) {
    && Shrinking(next)
    && forall b {:trigger Look(b)} :: Look(b) ==> next(b) == Next(b, maxPackage)
  }

  // ---- chunking ----

  /** More bytes do not change a decision already made. */
  ghost predicate Settled(next: Bytes -> Found) {
    forall b, c {:trigger next(b + c)} :: !next(b).Wait? ==> next(b + c) == next(b)
  }

  lemma NextSettled(b: Bytes, c: Bytes, maxPackage: nat)
    requires !Next(b, maxPackage).Wait?
    ensures Next(b + c, maxPackage) == Next(b, maxPackage)
  {
    assert (b + c)[4..8] == b[4..8] && (b + c)[..HeadLen] == b[..HeadLen];
    if Next(b, maxPackage).Message? {
      var size := Next(b, maxPackage).size;
      assert (b + c)[HeadLen..size] == b[HeadLen..size];
    }
  }

  lemma CutsSettled(next: Bytes -> Found, maxPackage: nat)
    requires Cuts(next, maxPackage)
    ensures Settled(next)
  {
    forall b, c | !next(b).Wait? ensures next(b + c) == next(b) {
      assert Look(b) && Look(b + c);
      NextSettled(b, c, maxPackage);
    }
  }

  /** Parsing bytes as they come is parsing them all at once: for any bytes, in any two pieces. */
  lemma {:induction false} ParseInPieces(next: Bytes -> Found, b: Bytes, c: Bytes)
    requires Shrinking(next) && Settled(next) && Parse(next, b).ok
    ensures Parse(next, b + c) == Join(Parse(next, b).found, Parse(next, Parse(next, b).rest + c))
    decreases |b|
  {
    if next(b).Message? {
      var r, b' := next(b).r, b[next(b).size..];
      assert next(b + c) == next(b);
      assert (b + c)[next(b).size..] == b' + c;
      ParseInPieces(next, b', c);
      var p := Parse(next, b');
      JoinJoin(r, p.found, Parse(next, p.rest + c));
    }
  }

  lemma JoinJoin(r: Response, found: seq<Response>, p: Parsed)
    ensures Join([r], Join(found, p)) == Join([r] + found, p)
  {
    assert [r] + (found + p.found) == [r] + found + p.found;
  }

  /** A response the buffer can take: its length field is right, it fits, and it is within the
      package limit. */
  predicate Sendable(r: Response, maxPackage: nat) {
    && Encodable(r) && r.dataLen == |r.data|
    && HeadLen + |r.data| <= BufferLen
    && (maxPackage > 0 ==> r.dataLen <= maxPackage)
  }

  predicate AllSendable(rs: seq<Response>, maxPackage: nat) {
    forall i :: 0 <= i < |rs| ==> Sendable(rs[i], maxPackage)
  }

  function Concat(pieces: seq<Bytes>): Bytes {
    if pieces == [] then [] else pieces[0] + Concat(pieces[1..])
  }

  /** The bytes of the first pieces are the first bytes. */
  lemma {:induction false} ConcatSnoc(pieces: seq<Bytes>, i: nat)
    requires i < |pieces|
    ensures Concat(pieces[..i + 1]) == Concat(pieces[..i]) + pieces[i]
    ensures |Concat(pieces[..i + 1])| <= |Concat(pieces)|
    ensures Concat(pieces)[..|Concat(pieces[..i + 1])|] == Concat(pieces[..i + 1])
    decreases i
  {
    var c := pieces[0];
    assert pieces[..i + 1][1..] == pieces[1..][..i];
    if i == 0 {
      assert Concat(pieces[..1]) == c + Concat([]);
    } else {
      assert pieces[..i][1..] == pieces[1..][..i - 1];
      ConcatSnoc(pieces[1..], i - 1);
      var a, z := Concat(pieces[..i + 1]), Concat(pieces);
      assert a == c + Concat(pieces[1..][..i]) && z == c + Concat(pieces[1..]);
      assert a == c + (Concat(pieces[1..][..i - 1]) + pieces[i]) == (c + Concat(pieces[1..][..i - 1])) + pieces[i];
    }
  }

  function Packed(rs: seq<Response>): (frames: seq<Bytes>)
    requires forall i :: 0 <= i < |rs| ==> Encodable(rs[i])
    ensures |frames| == |rs| && forall i :: 0 <= i < |rs| ==> frames[i] == Pack(rs[i])
  {
    seq(|rs|, i requires 0 <= i < |rs| => Pack(rs[i]))
  }

  lemma HeadLength(r: Response, rest: Bytes)
    requires Encodable(r)
    ensures (Head(r) + rest)[..HeadLen] == Head(r) && FromLe((Head(r) + rest)[4..8]) == r.dataLen
  {
    HeadFields(r);
    FieldRoundTrips(r);
    assert (Head(r) + rest)[4..8] == Head(r)[4..8];
  }

  lemma NextPacked(r: Response, rest: Bytes, maxPackage: nat)
    requires Sendable(r, maxPackage)
    ensures Next(Pack(r) + rest, maxPackage) == Message(r, HeadLen + |r.data|)
  {
    var b := Pack(r) + rest;
    assert b == Head(r) + (r.data + rest);
    HeadLength(r, r.data + rest);
    UnpackHead(r, maxPackage);
    assert b[HeadLen..HeadLen + |r.data|] == r.data;
  }

  /** A response cut short makes the parser wait. */
  lemma NextCut(r: Response, k: nat, maxPackage: nat)
    requires Sendable(r, maxPackage) && k < |Pack(r)|
    ensures Next(Pack(r)[..k], maxPackage) == Wait
  {
    if k >= HeadLen {
      var rest := r.data[..k - HeadLen];
      assert Pack(r)[..k] == Head(r) + rest;
      HeadLength(r, rest);
    }
  }

  /** `next` takes `frame` for the message r once it is whole, and waits until then. */
  ghost predicate Frames(next: Bytes -> Found, frame: Bytes, r: Response) {
    && (forall rest {:trigger next(frame + rest)} :: next(frame + rest) == Message(r, |frame|))
    && (forall k :: 0 <= k < |frame| ==> next(frame[..k]) == Wait)
  }

  lemma PackFrames(next: Bytes -> Found, r: Response, maxPackage: nat)
    requires Cuts(next, maxPackage) && Sendable(r, maxPackage)
    ensures Frames(next, Pack(r), r)
  {
    forall rest ensures next(Pack(r) + rest) == Message(r, |Pack(r)|) {
      assert Look(Pack(r) + rest);
      NextPacked(r, rest, maxPackage);
    }
    forall k | 0 <= k < |Pack(r)| ensures next(Pack(r)[..k]) == Wait {
      assert Look(Pack(r)[..k]);
      NextCut(r, k, maxPackage);
    }
  }

  lemma ParseFrame(next: Bytes -> Found, frame: Bytes, r: Response, rest: Bytes)
    requires Shrinking(next) && Frames(next, frame, r)
    ensures Parse(next, frame + rest) == Join([r], Parse(next, rest))
  {
    assert next(frame + rest) == Message(r, |frame|);
    assert (frame + rest)[|frame|..] == rest;
  }

  ghost predicate AllFrames(next: Bytes -> Found, frames: seq<Bytes>, rs: seq<Response>) {
    && |frames| == |rs|
    && (forall i {:trigger Frames(next, frames[i], rs[i])} :: 0 <= i < |rs| ==>
          |frames[i]| <= BufferLen && Frames(next, frames[i], rs[i]))
  }

  lemma PackedFrames(next: Bytes -> Found, rs: seq<Response>, maxPackage: nat)
    requires Cuts(next, maxPackage) && AllSendable(rs, maxPackage)
    ensures AllFrames(next, Packed(rs), rs) && next([]) == Wait
  {
    assert Look([]);
    forall i | 0 <= i < |rs| ensures |Packed(rs)[i]| <= BufferLen && Frames(next, Packed(rs)[i], rs[i]) {
      PackFrames(next, rs[i], maxPackage);
    }
  }

  /** The first k bytes of a stream hold its first responses, and a piece of the next that
      leaves room in the buffer. */
  lemma {:induction false} ParsePrefix(next: Bytes -> Found, frames: seq<Bytes>, rs: seq<Response>, k: nat)
    requires Shrinking(next) && next([]) == Wait && AllFrames(next, frames, rs) && k <= |Concat(frames)|
    ensures Parse(next, Concat(frames)[..k]).ok
    ensures Parse(next, Concat(frames)[..k]).found <= rs
    ensures |Parse(next, Concat(frames)[..k]).rest| < BufferLen
    ensures k == |Concat(frames)| ==> Parse(next, Concat(frames)[..k]) == Parsed(rs, [], true)
    decreases |rs|
  {
    var b := Concat(frames)[..k];
    if rs == [] {
      assert b == [];
    } else {
      var r, frame, tail := rs[0], frames[0], Concat(frames[1..]);
      assert Frames(next, frames[0], rs[0]);
      if k < |frame| {
        assert b == frame[..k];
      } else {
        var rest := tail[..k - |frame|];
        assert b == frame + rest;
        ParseFrame(next, frame, r, rest);
        TailFrames(next, frames, rs);
        ParsePrefix(next, frames[1..], rs[1..], k - |frame|);
        JoinPrefix(Parse(next, b), Parse(next, rest), rs);
      }
    }
  }

  lemma JoinPrefix(p: Parsed, q: Parsed, rs: seq<Response>)
    requires rs != [] && p == Join([rs[0]], q)
    ensures q.found <= rs[1..] ==> p.found <= rs
    ensures q.found == rs[1..] ==> p.found == rs
    ensures p.rest == q.rest && p.ok == q.ok
  {
    assert rs == [rs[0]] + rs[1..];
  }

  lemma TailFrames(next: Bytes -> Found, frames: seq<Bytes>, rs: seq<Response>)
    requires AllFrames(next, frames, rs) && rs != []
    ensures AllFrames(next, frames[1..], rs[1..])
  {
    forall i | 0 <= i < |rs| - 1 ensures |frames[1..][i]| <= BufferLen && Frames(next, frames[1..][i], rs[1..][i]) {
      assert Frames(next, frames[i + 1], rs[i + 1]);
    }
  }

  // ---- delivery ----

  /** A result handed to the caller waiting for request `incrId`. */
  datatype Delivery = Delivery(incrId: nat, err: nat, body: Body)

  function Delivered(waiting: set<nat>, r: Response): Option<Delivery> {
    match UnpackBody(r.data)
    case None => None
    case Some(body) => if r.incrId in waiting then Some(Delivery(r.incrId, r.err, body)) else None
  }

  function StillWaiting(waiting: set<nat>, r: Response): set<nat> {
    if Delivered(waiting, r).Some? then waiting - {r.incrId} else waiting
  }

  function WaitingAfter(waiting: set<nat>, rs: seq<Response>): set<nat> {
    if rs == [] then waiting else WaitingAfter(StillWaiting(waiting, rs[0]), rs[1..])
  }

  /** What the callers get from a list of responses. */
  function Results(waiting: set<nat>, rs: seq<Response>): seq<Delivery> {
    if rs == [] then []
    else
      var later := Results(StillWaiting(waiting, rs[0]), rs[1..]);
      match Delivered(waiting, rs[0])
      case None => later
      case Some(d) => [d] + later
  }

  /** Each waiting caller is answered by the first response with its number and a whole body,
      and by no other. */
  lemma {:induction false} FirstAnswers(waiting: set<nat>, rs: seq<Response>, id: nat, k: nat)
    requires id in waiting && k < |rs| && rs[k].incrId == id && UnpackBody(rs[k].data).Some?
    requires forall j :: 0 <= j < k && rs[j].incrId == id ==> UnpackBody(rs[j].data) == None
    ensures Delivery(id, rs[k].err, UnpackBody(rs[k].data).value) in Results(waiting, rs)
    ensures forall d :: d in Results(waiting, rs) && d.incrId == id ==>
      d == Delivery(id, rs[k].err, UnpackBody(rs[k].data).value)
    ensures id !in WaitingAfter(waiting, rs)
    decreases |rs|
  {
    var next := StillWaiting(waiting, rs[0]);
    if k == 0 {
      NotWaiting(next, rs[1..], id);
    } else {
      assert rs[0].incrId == id ==> UnpackBody(rs[0].data) == None;
      FirstAnswers(next, rs[1..], id, k - 1);
    }
  }

  lemma {:induction false} NotWaiting(waiting: set<nat>, rs: seq<Response>, id: nat)
    requires id !in waiting
    ensures forall d :: d in Results(waiting, rs) ==> d.incrId != id
    ensures id !in WaitingAfter(waiting, rs)
    decreases |rs|
  {
    if rs != [] { NotWaiting(StillWaiting(waiting, rs[0]), rs[1..], id); }
  }

  lemma {:induction false} ResultsConcat(waiting: set<nat>, a: seq<Response>, b: seq<Response>)
    ensures Results(waiting, a + b) == Results(waiting, a) + Results(WaitingAfter(waiting, a), b)
    ensures WaitingAfter(waiting, a + b) == WaitingAfter(WaitingAfter(waiting, a), b)
    decreases |a|
  {
    if a == [] {
      assert a + b == b;
    } else {
      assert (a + b)[0] == a[0] && (a + b)[1..] == a[1..] + b;
      ResultsConcat(StillWaiting(waiting, a[0]), a[1..], b);
    }
  }

  lemma ResultsSnoc(waiting: set<nat>, rs: seq<Response>, r: Response)
    ensures Results(waiting, rs + [r]) == Results(waiting, rs) + Posted(WaitingAfter(waiting, rs), r)
    ensures WaitingAfter(waiting, rs + [r]) == StillWaiting(WaitingAfter(waiting, rs), r)
  {
    ResultsConcat(waiting, rs, [r]);
    assert [r][1..] == [];
  }

  lemma ParseTurn(next: Bytes -> Found, found: seq<Response>, b: Bytes, f: Found)
    requires Shrinking(next) && next(b) == f
    ensures f.Message? ==> f.size <= |b| && Join(found, Parse(next, b)) == Join(found + [f.r], Parse(next, b[f.size..]))
    ensures !f.Message? ==> Parse(next, b) == Parsed([], b, f.Wait?)
  {
    if f.Message? {
      var p := Parse(next, b[f.size..]);
      assert found + ([f.r] + p.found) == found + [f.r] + p.found;
    }
  }

  // ---- the receive buffer ----

  /** A result as it is handed over: its bytes are a copy, of its own. */
  datatype Letter = Letter(incrId: nat, err: nat, keyLen: nat, data: array<Byte>)

  function Opened(l: Letter): Delivery
    requires l.data.Length >= 4
    reads l.data
  {
    Delivery(l.incrId, l.err, Body(l.keyLen, l.data[4..]))
  }

  function OpenAll(letters: seq<Letter>): (mail: seq<Delivery>)
    requires forall l :: l in letters ==> l.data.Length >= 4
    reads set l | l in letters :: l.data
  {
    if letters == [] then [] else OpenAll(letters[..|letters| - 1]) + [Opened(letters[|letters| - 1])]
  }

  class Receiver {
    const buffer: array<Byte>
    const maxPackage: nat
    var offset: nat
    /** The requests whose callers wait for a response. */
    var waiting: set<nat>
    var inbox: seq<Letter>
    /** Every response taken off the stream. */
    ghost var handled: seq<Response>
    /** How messages are told apart. */
    ghost const next: Bytes -> Found

    ghost predicate Valid()
      reads this
    {
      && buffer.Length == BufferLen && offset <= BufferLen && Cuts(next, maxPackage)
      && forall l :: l in inbox ==> l.data != buffer && l.data.Length >= 4
    }

    ghost function Mail(): (mail: seq<Delivery>)
      requires Valid()
      reads this, set l | l in inbox :: l.data
    {
      OpenAll(inbox)
    }

    constructor (limit: nat)
      ensures Valid() && fresh(buffer) && offset == 0 && waiting == {} && inbox == [] && handled == []
      ensures maxPackage == limit
    {
      buffer := new Byte[BufferLen];
      maxPackage, offset, waiting, inbox, handled := limit, 0, {}, [], [];
      next := b => Next(b, limit);
    }

    /** Hands a body to whoever waits for it; a body too short for its key length is dropped. */
    method ProcessResponse(incrId: nat, err: nat, data: array<Byte>, ghost r: Response)
      requires Valid() && data != buffer && r.data == data[..] && r.incrId == incrId && r.err == err
      modifies this`waiting, this`inbox
      ensures Valid() && waiting == StillWaiting(old(waiting), r)
      ensures Mail() == old(Mail()) + Posted(old(waiting), r)
    {
      assert data[0..] == data[..];
      if data.Length < 4 {
        return;
      }
      assert data[..][0..4] == data[0..4] && data[..][4..] == data[4..];
      var keyLen := FromLe(data[0..4]);
      if incrId in waiting {
        inbox := inbox + [Letter(incrId, err, keyLen, data)];
        waiting := waiting - {incrId};
        assert inbox[..|inbox| - 1] == old(inbox);
      }
    }

    lemma Window(a: array<Byte>, n: nat, lo: nat, hi: nat)
      requires lo <= hi <= n <= a.Length
      ensures a[..n][lo..hi] == a[lo..hi] && (lo == 0 ==> a[..n][..hi] == a[..hi])
    {
    }

    /** Looks for a whole message at the front of the buffer, by its header. */
    method Peek() returns (more: bool, panic: bool, head: Response, size: nat, ghost f: Found)
      requires Valid()
      ensures f == next(buffer[..offset]) && more == f.Message? && panic == f.Panic?
      ensures more ==> size == f.size && HeadLen <= size <= offset
      ensures more ==> f.r == head.(data := buffer[HeadLen..size])
    {
      ghost var b := buffer[..offset];
      assert Look(b);
      f, more, panic, head, size := next(b), false, false, Response(0, 0, 0, 0, 0, 0, []), 0;
      if offset < HeadLen {
        return;
      }
      Window(buffer, offset, 4, 8);
      Window(buffer, offset, 0, HeadLen);
      var dataLen := FromLe(buffer[4..8]);
      if offset < (dataLen + HeadLen) % TwoTo32 {
        return;
      }
      var msg := Unpack(buffer[..HeadLen], maxPackage);
      if msg == None || dataLen + HeadLen >= TwoTo32 {
        panic := true;
        return;
      }
      more, head, size := true, msg.value, dataLen + HeadLen;
      Window(buffer, offset, HeadLen, size);
    }

    /** One turn of the parsing loop: a whole message at the front of the buffer is copied out,
        handed over, and the bytes behind it move to the front. */
    method TakeMessage() returns (ghost f: Found, more: bool, panic: bool)
      requires Valid()
      modifies this, buffer
      ensures Valid() && f == next(old(buffer[..offset]))
      ensures more == f.Message? && panic == f.Panic?
      ensures !more ==> buffer[..offset] == old(buffer[..offset]) && waiting == old(waiting) && handled == old(handled)
      ensures !more ==> Mail() == old(Mail())
      ensures more ==> f.size <= old(offset) && buffer[..offset] == old(buffer[..offset])[f.size..]
      ensures more ==> offset < old(offset) && handled == old(handled) + [f.r]
      ensures more ==> waiting == StillWaiting(old(waiting), f.r) && Mail() == old(Mail()) + Posted(old(waiting), f.r)
    {
      var head, size;
      more, panic, head, size, f := Peek();
      if more {
        var data := CopyOut(size);
        Consume(head, data, size, f.r);
      }
    }

    method CopyOut(size: nat) returns (data: array<Byte>)
      requires Valid() && HeadLen <= size <= offset
      ensures fresh(data) && data[..] == buffer[HeadLen..size]
    {
      data := new Byte[size - HeadLen];
      forall i | 0 <= i < size - HeadLen { data[i] := buffer[HeadLen + i]; }
    }

    method Consume(head: Response, data: array<Byte>, size: nat, ghost r: Response)
      requires Valid() && data != buffer && r == head.(data := data[..]) && HeadLen <= size <= offset
      modifies this, buffer
      ensures Valid() && offset == old(offset) - size && buffer[..offset] == old(buffer[..offset])[size..]
      ensures handled == old(handled) + [r] && waiting == StillWaiting(old(waiting), r)
      ensures Mail() == old(Mail()) + Posted(old(waiting), r)
    {
      ProcessResponse(head.incrId, head.err, data, r);
      Shift(size);
      handled := handled + [r];
    }

    method Shift(size: nat)
      requires Valid() && size <= offset
      modifies this`offset, buffer
      ensures Valid() && offset == old(offset) - size && buffer[..offset] == old(buffer[..offset])[size..]
      ensures OpenAll(inbox) == old(OpenAll(inbox))
    {
      forall i | 0 <= i < offset - size { buffer[i] := buffer[size + i]; }
      offset := offset - size;
    }

    /** The responses `found` were dealt with, starting from the given state. */
    ghost predicate Handled(w: set<nat>, h: seq<Response>, mail: seq<Delivery>, found: seq<Response>)
      reads this, set l | l in inbox :: l.data
    {
      && Valid()
      && handled == h + found
      && waiting == WaitingAfter(w, found)
      && Mail() == mail + Results(w, found)
    }

    method HandleNext(ghost w: set<nat>, ghost h: seq<Response>, ghost mail: seq<Delivery>, ghost found: seq<Response>)
      returns (ghost found': seq<Response>, more: bool, panic: bool)
      requires Handled(w, h, mail, found)
      modifies this, buffer
      ensures Handled(w, h, mail, found')
      ensures Join(found, Parse(next, old(buffer[..offset]))) == Join(found', Parse(next, buffer[..offset]))
      ensures !more ==> Parse(next, buffer[..offset]) == Parsed([], buffer[..offset], !panic)
      ensures more ==> offset < old(offset)
    {
      ghost var b := buffer[..offset];
      ghost var f;
      f, more, panic := TakeMessage();
      ParseTurn(next, found, b, f);
      found' := found;
      if more {
        ResultsSnoc(w, found, f.r);
        found' := found + [f.r];
        assert h + found + [f.r] == h + found';
      }
    }

    method ProcessGetBuffer() returns (ok: bool)
      requires Valid()
      modifies this, buffer
      ensures Handled(old(waiting), old(handled), old(Mail()), Parse(next, old(buffer[..offset])).found)
      ensures ok == Parse(next, old(buffer[..offset])).ok
      ensures buffer[..offset] == Parse(next, old(buffer[..offset])).rest
    {
      ghost var w, h, mail := waiting, handled, Mail();
      ghost var all := Parse(next, buffer[..offset]);
      ghost var found: seq<Response> := [];
      var more, panic := true, false;
      while more
        invariant Handled(w, h, mail, found) && all == Join(found, Parse(next, buffer[..offset]))
        invariant !more ==> Parse(next, buffer[..offset]) == Parsed([], buffer[..offset], !panic)
        decreases more, offset
      {
        found, more, panic := HandleNext(w, h, mail, found);
      }
      assert found + [] == found;
      assert all.found == found;
      return !panic;
    }

    /** One read from the connection: at most as many bytes as the buffer has room for. */
    method Receive(chunk: Bytes) returns (ok: bool)
      requires Valid() && |chunk| <= BufferLen - offset
      modifies this, buffer
      ensures Handled(old(waiting), old(handled), old(Mail()), Parse(next, old(buffer[..offset]) + chunk).found)
      ensures ok == Parse(next, old(buffer[..offset]) + chunk).ok
      ensures buffer[..offset] == Parse(next, old(buffer[..offset]) + chunk).rest
    {
      Fill(chunk);
      ok := ProcessGetBuffer();
    }

    method Fill(chunk: Bytes)
      requires Valid() && |chunk| <= BufferLen - offset
      modifies this`offset, buffer
      ensures Valid() && buffer[..offset] == old(buffer[..offset]) + chunk
      ensures OpenAll(inbox) == old(OpenAll(inbox))
    {
      forall i | 0 <= i < |chunk| { buffer[offset + i] := chunk[i]; }
      offset := offset + |chunk|;
    }

    /** Each chunk was read into the room left by the ones before it. */
    ghost predicate Readable(chunks: seq<Bytes>)
      requires Valid()
      reads this
    {
      forall i :: 0 <= i < |chunks| ==> |Parse(next, Concat(chunks[..i])).rest| + |chunks[i]| <= BufferLen
    }

    /** Chunking independence: however the bytes of the responses `rs` arrive, exactly these are
        handled, in order, nothing is left over, and there is room for more after every read. */
    method ReceiveAll(chunks: seq<Bytes>, ghost rs: seq<Response>)
      requires Valid() && offset == 0 && AllSendable(rs, maxPackage)
      requires Concat(chunks) == Concat(Packed(rs)) && Readable(chunks)
      modifies this, buffer
      ensures offset == 0 && Handled(old(waiting), old(handled), old(Mail()), rs)
    {
      ghost var w, h, mail := waiting, handled, Mail();
      ghost var found: seq<Response> := [];
      PackedFrames(next, rs, maxPackage);
      CutsSettled(next, maxPackage);
      assert chunks[..0] == [] && buffer[..0] == [];
      for i := 0 to |chunks|
        invariant Handled(w, h, mail, found) && offset < BufferLen
        invariant Parse(next, Concat(chunks[..i])) == Parsed(found, buffer[..offset], true)
      {
        ConcatSnoc(chunks, i);
        ParseInPieces(next, Concat(chunks[..i]), chunks[i]);
        ghost var p := Parse(next, buffer[..offset] + chunks[i]);
        ParsePrefix(next, Packed(rs), rs, |Concat(chunks[..i + 1])|);
        ghost var w1, h1, mail1 := waiting, handled, Mail();
        var ok := Receive(chunks[i]);
        HandledJoin(w, h, mail, found, w1, h1, mail1, p.found);
        found := found + p.found;
      }
      assert chunks[..|chunks|] == chunks;
      ParsePrefix(next, Packed(rs), rs, |Concat(chunks)|);
      assert Concat(chunks)[..|Concat(chunks)|] == Concat(chunks);
    }

    lemma Regroup<T>(a: seq<T>, b: seq<T>, c: seq<T>)
      ensures a + b + c == a + (b + c)
    {
    }

    lemma HandledJoin(w: set<nat>, h: seq<Response>, mail: seq<Delivery>, found: seq<Response>,
                      w1: set<nat>, h1: seq<Response>, mail1: seq<Delivery>, more: seq<Response>)
      requires w1 == WaitingAfter(w, found) && h1 == h + found && mail1 == mail + Results(w, found)
      requires Handled(w1, h1, mail1, more)
      ensures Handled(w, h, mail, found + more)
    {
      ResultsConcat(w, found, more);
      Regroup(h, found, more);
      Regroup(mail, Results(w, found), Results(w1, more));
    }
  }

  function Posted(waiting: set<nat>, r: Response): seq<Delivery> {
    match Delivered(waiting, r)
    case None => []
    case Some(d) => [d]
  }

  // ---- responses to writes ----

  /** The buffer after a message of `size` bytes is shifted out of the first `offset` bytes. */
  function Shifted(buf: Bytes, size: nat, offset: nat): Bytes
    requires size <= offset <= |buf|
  {
    buf[size..offset] + buf[offset - size..]
  }

  predicate PayloadKept(buf: Bytes, size: nat, offset: nat)
    requires HeadLen <= size <= offset <= |buf|
  {
    Shifted(buf, size, offset)[HeadLen..size] == buf[HeadLen..size]
  }

  function Ramp(n: nat, size: nat): (b: Bytes)
    ensures |b| == n && forall i :: 0 <= i < n ==> b[i] == if i < size then 0 else 1
  {
    seq(n, i => if i < size then 0 else 1)
  }

  /** The write path keeps a view of the buffer in place of a copy. The shift leaves that view
      alone, whatever the bytes, exactly when the payload is empty or no more bytes follow the
      message than a header has. */
  lemma ViewSurvivesExactly(n: nat, size: nat, offset: nat)
    requires HeadLen <= size <= offset <= n
    ensures (forall buf: Bytes :: |buf| == n ==> PayloadKept(buf, size, offset))
            <==> size == HeadLen || offset - size <= HeadLen
  {
    if size == HeadLen || offset - size <= HeadLen {
      forall buf: Bytes | |buf| == n ensures PayloadKept(buf, size, offset) {
        var after := Shifted(buf, size, offset);
        assert forall i :: HeadLen <= i < size ==> after[i] == buf[i];
      }
    } else {
      var buf := Ramp(n, size);
      var after := Shifted(buf, size, offset);
      assert after[HeadLen] == 1 && buf[HeadLen] == 0;
      assert after[HeadLen..size][0] != buf[HeadLen..size][0];
      assert !PayloadKept(buf, size, offset);
    }
  }
}
