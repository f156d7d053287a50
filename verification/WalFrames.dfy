/** Entries in a segment file: a varint length followed by the payload, one after the other. */
module WalFrames {
  import opened Basics

  /** The lengths a 64-bit varint can carry. */
  predicate Fits(p: Bytes) { |p| < TwoTo64 }

  predicate AllFit(ps: seq<Bytes>) { forall i :: 0 <= i < |ps| ==> Fits(ps[i]) }

  // ---- varints ----

  function PutUvarint(x: nat): (b: Bytes)
    ensures |b| > 0
  {
    if x < 128 then [x] else [x % 128 + 128] + PutUvarint(x / 128)
  }

  datatype Varint = Read(value: nat, n: nat) | Short | Overflow

  /** The decoder, `i` bytes into a varint: it gives up after ten bytes, and the tenth may only
      hold the last of the 64 bits. */
  function Uvarint(b: Bytes, i: nat): (v: Varint)
    ensures v.Read? ==> 0 < v.n <= |b|
  {
    if b == [] then Short
    else if i == 10 then Overflow
    else if b[0] < 128 then
      if i == 9 && b[0] > 1 then Overflow else Read(b[0], 1)
    else
      match Uvarint(b[1..], i + 1)
      case Read(v, n) => Read(b[0] - 128 + 128 * v, n + 1)
      case other => other
  }

  /** What a varint can still hold after i bytes. */
  function Room(i: nat): nat
    requires i <= 9
    decreases 9 - i
  {
    if i == 9 then 2 else 128 * Room(i + 1)
  }

  lemma RoomStart()
    ensures Room(0) == TwoTo64
  {
    assert Room(8) == 256;
    assert Room(6) == 128 * 128 * 256;
    assert Room(4) == 128 * 128 * Room(6);
    assert Room(2) == 128 * 128 * Room(4);
  }

  lemma {:induction false} VarintRoundTrip(x: nat, rest: Bytes, i: nat)
    requires i <= 9 && x < Room(i)
    ensures Uvarint(PutUvarint(x) + rest, i) == Read(x, |PutUvarint(x)|)
    decreases x
  {
    var b := PutUvarint(x) + rest;
    if x >= 128 {
      assert b[0] == x % 128 + 128 && b[1..] == PutUvarint(x / 128) + rest;
      VarintRoundTrip(x / 128, rest, i + 1);
    }
  }

  /** The number without its lowest k groups of seven bits. */
  function Shifted(x: nat, k: nat): nat {
    if k == 0 then x else Shifted(x / 128, k - 1)
  }

  /** Each byte carries seven bits, the lowest first, and all but the last have the high bit set; no
      byte more is used than the number needs. */
  lemma {:induction false} VarintBytes(x: nat, k: nat)
    requires k < |PutUvarint(x)|
    ensures PutUvarint(x)[k] == Shifted(x, k) % 128 + if k + 1 < |PutUvarint(x)| then 128 else 0
    ensures k + 1 == |PutUvarint(x)| <==> Shifted(x, k) < 128
    decreases k
  {
    if k > 0 {
      assert PutUvarint(x) == [x % 128 + 128] + PutUvarint(x / 128);
      VarintBytes(x / 128, k - 1);
    }
  }

  lemma {:induction false} VarintTorn(x: nat, k: nat, i: nat)
    requires i <= 9 && x < Room(i) && k < |PutUvarint(x)|
    ensures Uvarint(PutUvarint(x)[..k], i) == Short
    decreases x
  {
    if x >= 128 && k > 0 {
      var b := PutUvarint(x)[..k];
      assert b[0] == x % 128 + 128 && b[1..] == PutUvarint(x / 128)[..k - 1];
      VarintTorn(x / 128, k - 1, i + 1);
    }
  }

  // ---- frames ----

  function Frame(p: Bytes): (f: Bytes)
    ensures |f| > |p|
  {
    PutUvarint(|p|) + p
  }

  function Frames(ps: seq<Bytes>): Bytes {
    if ps == [] then [] else Frames(ps[..|ps| - 1]) + Frame(ps[|ps| - 1])
  }

  lemma FramesGrow(ps: seq<Bytes>)
    ensures Frames(ps) == [] <==> ps == []
  {
    if ps != [] {
      assert |Frame(ps[|ps| - 1])| > 0;
    }
  }

  /** The length of the next entry, or None for corrupt data. */
  function NextEntry(data: Bytes): (n: Option<nat>)
    ensures n.Some? ==> 0 < n.value <= |data|
  {
    match Uvarint(data, 0)
    case Read(size, n) => if |data| - n < size then None else Some(n + size)
    case _ => None
  }

  lemma NextFrame(p: Bytes, rest: Bytes)
    requires Fits(p)
    ensures NextEntry(Frame(p) + rest) == Some(|Frame(p)|)
  {
    RoomStart();
    VarintRoundTrip(|p|, p + rest, 0);
    assert Frame(p) + rest == PutUvarint(|p|) + (p + rest);
  }

  /** A frame cut anywhere inside is not taken for an entry. */
  lemma TornFrame(p: Bytes, k: nat)
    requires Fits(p) && k < |Frame(p)|
    ensures NextEntry(Frame(p)[..k]) == None
  {
    RoomStart();
    var h := PutUvarint(|p|);
    if k < |h| {
      VarintTorn(|p|, k, 0);
      assert Frame(p)[..k] == h[..k];
    } else {
      VarintRoundTrip(|p|, p[..k - |h|], 0);
      assert Frame(p)[..k] == h + p[..k - |h|];
    }
  }

  /** The payload of an entry, as a reader extracts it. */
  function Payload(entry: Bytes): Option<Bytes> {
    match Uvarint(entry, 0)
    case Read(size, n) => if |entry| - n < size then None else Some(entry[n..n + size])
    case _ => None
  }

  lemma PayloadOfFrame(p: Bytes)
    requires Fits(p)
    ensures Payload(Frame(p)) == Some(p)
  {
    RoomStart();
    VarintRoundTrip(|p|, p, 0);
    var n := |PutUvarint(|p|)|;
    assert Frame(p)[n..n + |p|] == p;
  }

  // ---- positions ----

  datatype Pos = Pos(start: nat, end: nat)

  /** The positions of the entries of Frames(ps). */
  function Positions(ps: seq<Bytes>): (s: seq<Pos>)
    ensures |s| == |ps|
  {
    if ps == [] then [] else
      var front := ps[..|ps| - 1];
      Positions(front) + [Pos(|Frames(front)|, |Frames(ps)|)]
  }

  lemma {:induction false} FramesConcat(ps: seq<Bytes>, qs: seq<Bytes>)
    ensures Frames(ps + qs) == Frames(ps) + Frames(qs)
    decreases |qs|
  {
    if qs == [] {
      assert ps + qs == ps;
    } else {
      var front, all := qs[..|qs| - 1], ps + qs;
      FramesConcat(ps, front);
      assert all[..|all| - 1] == ps + front;
      var a, b, c := Frames(ps), Frames(front), Frame(qs[|qs| - 1]);
      assert a + b + c == a + (b + c);
    }
  }

  /** Each position delimits the frame of its payload. */
  lemma {:induction false} PositionsAt(ps: seq<Bytes>, i: nat)
    requires i < |ps|
    ensures Positions(ps)[i] == Pos(|Frames(ps[..i])|, |Frames(ps[..i + 1])|)
    ensures |Frames(ps[..i])| <= |Frames(ps[..i + 1])| <= |Frames(ps)|
    ensures Frames(ps)[|Frames(ps[..i])|..|Frames(ps[..i + 1])|] == Frame(ps[i])
    decreases |ps|
  {
    var front := ps[..|ps| - 1];
    FrameAt(ps, i);
    if i == |ps| - 1 {
      assert ps[..i + 1] == ps;
    } else {
      PositionsAt(front, i);
      assert front[..i] == ps[..i] && front[..i + 1] == ps[..i + 1];
    }
  }

  lemma FrameAt(ps: seq<Bytes>, i: nat)
    requires i < |ps|
    ensures |Frames(ps[..i])| <= |Frames(ps[..i + 1])| <= |Frames(ps)|
    ensures Frames(ps)[|Frames(ps[..i])|..|Frames(ps[..i + 1])|] == Frame(ps[i])
  {
    var head, one, tail := ps[..i], ps[i], ps[i + 1..];
    assert ps[..i + 1] == head + [one] && ps == ps[..i + 1] + tail;
    FramesConcat(ps[..i + 1], tail);
    assert (head + [one])[..|head + [one]| - 1] == head;
    assert Frames(ps[..i + 1]) == Frames(head) + Frame(one);
    Middle(Frames(head), Frame(one), Frames(tail));
  }

  lemma Middle(a: Bytes, b: Bytes, c: Bytes)
    ensures (a + b + c)[|a|..|a + b|] == b
  {
  }

  /** Scanning a file: the loop of `loadSegmentEntries`. None for a corrupt file. */
  method LoadEntries(file: Bytes) returns (r: Option<seq<Pos>>)
    ensures r == Scan(file, 0, [])
  {
    var data, epos, pos := file, [], 0;
    while |data| > 0
      invariant Scan(file, 0, []) == Scan(data, pos, epos)
      decreases |data|
    {
      var n := NextEntry(data);
      if n == None {
        return None;
      }
      data := data[n.value..];
      epos := epos + [Pos(pos, pos + n.value)];
      pos := pos + n.value;
    }
    return Some(epos);
  }

  function Scan(data: Bytes, pos: nat, found: seq<Pos>): Option<seq<Pos>>
    decreases |data|
  {
    if data == [] then Some(found)
    else
      match NextEntry(data)
      case None => None
      case Some(n) => Scan(data[n..], pos + n, found + [Pos(pos, pos + n)])
  }

  lemma FrameAhead(ps: seq<Bytes>, k: nat, rest: Bytes)
    requires k < |ps|
    ensures |Frames(ps[..k])| <= |Frames(ps[..k + 1])| <= |Frames(ps)|
    ensures |Frames(ps[..k + 1])| == |Frames(ps[..k])| + |Frame(ps[k])|
    ensures Frames(ps)[|Frames(ps[..k])|..] + rest == Frame(ps[k]) + (Frames(ps)[|Frames(ps[..k + 1])|..] + rest)
  {
    PositionsAt(ps, k);
  }

  lemma {:induction false} ScanFrom(ps: seq<Bytes>, k: nat, rest: Bytes)
    requires k <= |ps| && AllFit(ps)
    ensures |Frames(ps[..k])| <= |Frames(ps)|
    ensures Scan(Frames(ps)[|Frames(ps[..k])|..] + rest, |Frames(ps[..k])|, Positions(ps[..k]))
              == Scan(rest, |Frames(ps)|, Positions(ps))
    decreases |ps| - k
  {
    if k == |ps| {
      assert ps[..k] == ps;
      assert Frames(ps)[|Frames(ps)|..] + rest == rest;
    } else {
      var here, next := |Frames(ps[..k])|, |Frames(ps[..k + 1])|;
      FrameAhead(ps, k, rest);
      var tail := Frames(ps)[next..] + rest;
      NextFrame(ps[k], tail);
      assert (Frame(ps[k]) + tail)[next - here..] == tail;
      assert ps[..k + 1][..k] == ps[..k];
      assert Positions(ps[..k + 1]) == Positions(ps[..k]) + [Pos(here, next)];
      ScanFrom(ps, k + 1, rest);
    }
  }

  /** Frame round trip: scanning the frames of any payloads finds exactly their boundaries. */
  lemma ScanRecovers(ps: seq<Bytes>)
    requires AllFit(ps)
    ensures Scan(Frames(ps), 0, []) == Some(Positions(ps))
  {
    ScanFrom(ps, 0, []);
    assert ps[..0] == [];
    assert Frames(ps)[0..] + [] == Frames(ps);
  }

  /** Torn-tail detection: a file cut strictly inside its last frame is rejected as corrupt. */
  lemma ScanRejectsTorn(ps: seq<Bytes>, p: Bytes, k: nat)
    requires AllFit(ps) && Fits(p) && 0 < k < |Frame(p)|
    ensures Scan(Frames(ps) + Frame(p)[..k], 0, []) == None
  {
    ScanFrom(ps, 0, Frame(p)[..k]);
    assert ps[..0] == [];
    assert Frames(ps)[0..] + Frame(p)[..k] == Frames(ps) + Frame(p)[..k];
    TornFrame(p, k);
  }
}
