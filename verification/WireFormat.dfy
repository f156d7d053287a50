/** Responses on the wire: a 28-byte little-endian header, then a body of a key length and the
    key and value bytes. */
module WireFormat {
  import opened Basics

  const TwoTo32: int := 0x1_0000_0000
  const TwoTo31: int := 0x8000_0000
  const HeadLen: nat := 28

  // ---- little-endian integers ----

  function Le(n: nat, width: nat): (b: Bytes)
    ensures |b| == width
  {
    if width == 0 then [] else [n % 256] + Le(n / 256, width - 1)
  }

  function FromLe(b: Bytes): nat {
    if b == [] then 0 else b[0] + 256 * FromLe(b[1..])
  }

  function Capacity(width: nat): (c: nat)
    ensures c > 0
  {
    if width == 0 then 1 else 256 * Capacity(width - 1)
  }

  lemma Capacities()
    ensures Capacity(4) == TwoTo32 && Capacity(8) == TwoTo64
  {
    assert Capacity(2) == 65536;
    assert Capacity(4) == 65536 * Capacity(2);
    assert Capacity(6) == 65536 * Capacity(4);
    assert Capacity(8) == 65536 * Capacity(6);
  }

  lemma {:induction false} LeRoundTrip(n: nat, width: nat)
    requires n < Capacity(width)
    ensures FromLe(Le(n, width)) == n
    decreases width
  {
    if width > 0 {
      LeRoundTrip(n / 256, width - 1);
      assert Le(n, width)[1..] == Le(n / 256, width - 1);
    }
  }

  /** Byte i weighs 256 to the power i: the lowest byte comes first. */
  lemma {:induction false} ByteWeighs(b: Bytes, i: nat, x: nat)
    requires i < |b| && x < 256
    ensures FromLe(b[i := x]) - FromLe(b) == (x - b[i]) * Capacity(i)
    decreases i
  {
    if i > 0 {
      assert b[i := x][1..] == b[1..][i - 1 := x];
      ByteWeighs(b[1..], i - 1, x);
      ScaledWeight(x - b[i], Capacity(i - 1));
    }
  }

  lemma ScaledWeight(d: int, c: nat)
    ensures 256 * (d * c) == d * (256 * c)
  {
  }

  /** Any bytes are the encoding of the number they are read as, and of no other. */
  lemma {:induction false} FromLeRoundTrip(b: Bytes)
    ensures FromLe(b) < Capacity(|b|) && Le(FromLe(b), |b|) == b
    decreases |b|
  {
    if b != [] {
      FromLeRoundTrip(b[1..]);
      var n := FromLe(b);
      assert n % 256 == b[0] && n / 256 == FromLe(b[1..]);
      assert Le(n, |b|) == [b[0]] + Le(FromLe(b[1..]), |b| - 1);
    }
  }

  /** Signed 32-bit integers, in two's complement. */
  function Unsigned(x: int): nat
    requires -TwoTo31 <= x < TwoTo31
  {
    if x < 0 then x + TwoTo32 else x
  }

  function Signed(n: nat): int {
    if n < TwoTo31 then n else n - TwoTo32
  }

  // ---- responses ----

  datatype Response = Response(opId: nat, dataLen: nat, incrId: nat, clerkId: int, serverId: int, err: nat, data: Bytes)

  /** The values the header's fields can hold. */
  predicate Encodable(r: Response) {
    && r.opId < TwoTo32 && r.dataLen < TwoTo32 && r.incrId < TwoTo64 && r.err < TwoTo32
    && -TwoTo31 <= r.clerkId < TwoTo31 && -TwoTo31 <= r.serverId < TwoTo31
  }

  function Head(r: Response): (b: Bytes)
    requires Encodable(r)
    ensures |b| == HeadLen
  {
    Le(r.opId, 4) + Le(r.dataLen, 4) + Le(r.incrId, 8)
    + Le(Unsigned(r.clerkId), 4) + Le(Unsigned(r.serverId), 4) + Le(r.err, 4)
  }

  function Pack(r: Response): Bytes
    requires Encodable(r)
  {
    Head(r) + r.data
  }

  /** Reads a header; None when it is too short or announces more than `maxPackage` bytes (0 for
      no limit). */
  function Unpack(b: Bytes, maxPackage: nat): Option<Response> {
    if |b| < HeadLen then None
    else
      var r := Response(FromLe(b[0..4]), FromLe(b[4..8]), FromLe(b[8..16]), Signed(FromLe(b[16..20])),
                        Signed(FromLe(b[20..24])), FromLe(b[24..28]), []);
      if maxPackage > 0 && r.dataLen > maxPackage then None else Some(r)
  }

  lemma HeadFields(r: Response)
    requires Encodable(r)
    ensures Head(r)[0..4] == Le(r.opId, 4) && Head(r)[4..8] == Le(r.dataLen, 4) && Head(r)[8..16] == Le(r.incrId, 8)
    ensures Head(r)[16..20] == Le(Unsigned(r.clerkId), 4) && Head(r)[20..24] == Le(Unsigned(r.serverId), 4)
    ensures Head(r)[24..28] == Le(r.err, 4)
  {
    var a, b, c := Le(r.opId, 4), Le(r.dataLen, 4), Le(r.incrId, 8);
    var d, e, f := Le(Unsigned(r.clerkId), 4), Le(Unsigned(r.serverId), 4), Le(r.err, 4);
    var front := a + b + c + d + e;
    assert Head(r) == front + f;
    assert (front + f)[24..28] == f;
    assert front[20..24] == e && front[16..20] == d;
  }

  lemma FieldRoundTrips(r: Response)
    requires Encodable(r)
    ensures FromLe(Le(r.opId, 4)) == r.opId && FromLe(Le(r.dataLen, 4)) == r.dataLen
    ensures FromLe(Le(r.incrId, 8)) == r.incrId && FromLe(Le(r.err, 4)) == r.err
    ensures Signed(FromLe(Le(Unsigned(r.clerkId), 4))) == r.clerkId
    ensures Signed(FromLe(Le(Unsigned(r.serverId), 4))) == r.serverId
  {
    Capacities();
    LeRoundTrip(r.opId, 4);
    LeRoundTrip(r.dataLen, 4);
    LeRoundTrip(r.incrId, 8);
    LeRoundTrip(r.err, 4);
    LeRoundTrip(Unsigned(r.clerkId), 4);
    LeRoundTrip(Unsigned(r.serverId), 4);
  }

  /** Header round trip: every field comes back, unless the announced length is over the limit. */
  lemma UnpackHead(r: Response, maxPackage: nat)
    requires Encodable(r)
    ensures Unpack(Head(r), maxPackage)
              == if maxPackage > 0 && r.dataLen > maxPackage then None else Some(r.(data := []))
  {
    HeadFields(r);
    FieldRoundTrips(r);
  }

  // ---- bodies ----

  datatype Body = Body(keyLen: nat, keyValue: Bytes)

  function PackBody(b: Body): Bytes { Le(b.keyLen, 4) + b.keyValue }

  function UnpackBody(data: Bytes): Option<Body> {
    if |data| < 4 then None else Some(Body(FromLe(data[0..4]), data[4..]))
  }

  /** Body round trip, down to the key and the value. */
  lemma BodyRoundTrip(key: Bytes, value: Bytes)
    requires |key| < TwoTo32
    ensures UnpackBody(PackBody(Body(|key|, key + value))) == Some(Body(|key|, key + value))
    ensures (key + value)[..|key|] == key && (key + value)[|key|..] == value
  {
    Capacities();
    LeRoundTrip(|key|, 4);
    var data := PackBody(Body(|key|, key + value));
    assert data[0..4] == Le(|key|, 4) && data[4..] == key + value;
  }
}
