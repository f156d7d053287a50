/** The log directory: named files, the operations on them, and what opening a log does to them. */
module WalDisk {
  import opened Basics
  import opened WalFrames

  /** A segment, a marker left by an unfinished truncation, or any other file. */
  datatype File = Seg(index: nat) | End(index: nat) | Start(index: nat) | Other(name: string)

  type Disk = map<File, Bytes>

  const Temp: File := Other("TEMP")

  datatype DiskOp = Write(file: File, data: Bytes) | Rename(from: File, to: File) | Remove(file: File)

  function Step(d: Disk, op: DiskOp): Disk {
    match op
    case Write(f, data) => d[f := data]
    case Rename(f, t) => if f in d then (d - {f})[t := d[f]] else d
    case Remove(f) => d - {f}
  }

  function Run(d: Disk, ops: seq<DiskOp>): Disk {
    if ops == [] then d else Step(Run(d, ops[..|ops| - 1]), ops[|ops| - 1])
  }

  lemma {:induction false} RunConcat(d: Disk, a: seq<DiskOp>, b: seq<DiskOp>)
    ensures Run(d, a + b) == Run(Run(d, a), b)
    decreases |b|
  {
    if b == [] {
      assert a + b == a;
    } else {
      RunConcat(d, a, b[..|b| - 1]);
      assert (a + b)[..|a + b| - 1] == a + b[..|b| - 1];
    }
  }

  lemma RunSnoc(d: Disk, a: seq<DiskOp>, op: DiskOp)
    ensures Run(d, a + [op]) == Step(Run(d, a), op)
  {
    assert (a + [op])[..|a + [op]| - 1] == a;
  }

  function Names(l: seq<File>): set<File> { set f | f in l }

  function Removes(names: seq<File>): (ops: seq<DiskOp>)
    ensures |ops| == |names|
    ensures forall i :: 0 <= i < |ops| ==> ops[i] == Remove(names[i])
  {
    seq(|names|, i requires 0 <= i < |names| => Remove(names[i]))
  }

  lemma {:induction false} RunRemoves(d: Disk, names: seq<File>)
    ensures Run(d, Removes(names)) == d - Names(names)
    decreases |names|
  {
    if names != [] {
      var front := names[..|names| - 1];
      RunRemoves(d, front);
      assert Removes(names)[..|names| - 1] == Removes(front);
      assert Names(names) == Names(front) + {names[|names| - 1]};
    } else {
      assert d - Names(names) == d;
    }
  }

  // ---- listings ----

  /** The files opening a log looks at. */
  predicate Known(f: File) { !f.Other? && f.index >= 1 }

  /** The place of a file in a directory listing. */
  function Rank(f: File): nat
    requires !f.Other?
  {
    3 * f.index + match f case Seg(_) => 0 case End(_) => 1 case Start(_) => 2
  }

  lemma RanksDiffer(f: File, g: File)
    requires Known(f) && Known(g) && f != g
    ensures Rank(f) != Rank(g)
  {
  }

  predicate AllKnown(l: seq<File>) { forall i :: 0 <= i < |l| ==> Known(l[i]) }

  predicate Ascending(l: seq<File>)
    requires AllKnown(l)
  {
    forall i, j :: 0 <= i < j < |l| ==> Rank(l[i]) < Rank(l[j])
  }

  ghost predicate IsListing(l: seq<File>, d: Disk) {
    && AllKnown(l)
    && Ascending(l)
    && (forall f :: f in l <==> f in d && Known(f))
  }

  /** A directory has only one listing. */
  lemma {:induction false} OneListing(l: seq<File>, m: seq<File>)
    requires AllKnown(l) && Ascending(l) && AllKnown(m) && Ascending(m)
    requires forall f :: f in l <==> f in m
    ensures l == m
    decreases |l|
  {
    assert m != [] ==> m[0] in l;
    if l != [] {
      var i, j := |l| - 1, |m| - 1;
      assert l[i] in m && m[j] in l;
      var l', m' := l[..i], m[..j];
      assert forall f :: f in l <==> f in l' || f == l[i];
      assert forall f :: f in m <==> f in m' || f == m[j];
      OneListing(l', m');
    }
  }

  lemma {:induction false} Least(s: set<File>) returns (f: File)
    requires s != {} && forall g :: g in s ==> Known(g)
    ensures f in s && Known(f) && forall g :: g in s ==> Known(g) && Rank(f) <= Rank(g)
    decreases |s|
  {
    f :| f in s;
    if s != {f} {
      var g := Least(s - {f});
      if Rank(g) < Rank(f) { f := g; }
    }
  }

  lemma {:induction false} SortNames(s: set<File>) returns (l: seq<File>)
    requires forall g :: g in s ==> Known(g)
    ensures AllKnown(l) && Ascending(l) && forall f :: f in l <==> f in s
    decreases |s|
  {
    if s == {} {
      l := [];
    } else {
      var f := Least(s);
      var rest := SortNames(s - {f});
      l := [f] + rest;
      forall i | 0 <= i < |rest| ensures Rank(f) < Rank(rest[i]) {
        assert rest[i] in rest;
        RanksDiffer(f, rest[i]);
      }
    }
  }

  lemma HasListing(d: Disk)
    ensures exists l :: IsListing(l, d)
  {
    var l := SortNames(set f | f in d && Known(f));
    assert IsListing(l, d);
  }

  /** The directory as it is listed when a log is opened. */
  ghost function Listing(d: Disk): (l: seq<File>)
    ensures IsListing(l, d)
  {
    HasListing(d);
    var l :| IsListing(l, d); l
  }

  // ---- recovery ----

  function LastStart(l: seq<File>): (i: int)
    ensures -1 <= i < |l|
    ensures i >= 0 ==> l[i].Start?
    ensures forall j :: i < j < |l| ==> !l[j].Start?
  {
    if l == [] then -1
    else if l[|l| - 1].Start? then |l| - 1
    else LastStart(l[..|l| - 1])
  }

  function FirstEnd(l: seq<File>): (i: int)
    ensures -1 <= i < |l|
    ensures i >= 0 ==> l[i].End? && forall j :: 0 <= j < i ==> !l[j].End?
    ensures i < 0 ==> forall j :: 0 <= j < |l| ==> !l[j].End?
  {
    if l == [] then -1
    else
      var i := FirstEnd(l[..|l| - 1]);
      if i >= 0 then i else if l[|l| - 1].End? then |l| - 1 else -1
  }

  predicate Muddled(l: seq<File>) { LastStart(l) >= 0 && FirstEnd(l) >= 0 }

  function Reversed(l: seq<File>): seq<File> {
    if l == [] then [] else [l[|l| - 1]] + Reversed(l[..|l| - 1])
  }

  /** What opening a log whose directory lists `l` does to the disk, in order. */
  function RecoverOps(l: seq<File>): seq<DiskOp>
    requires AllKnown(l)
  {
    var s, e := LastStart(l), FirstEnd(l);
    if l == [] then [Write(Seg(1), [])]
    else if s >= 0 && e >= 0 then []
    else if s >= 0 then Removes(l[..s]) + [Rename(l[s], Seg(l[s].index))]
    else if e >= 0 then Removes(Reversed(l[e + 1..])) + [Rename(l[e], Seg(l[e].index))]
    else []
  }

  /** The segments the log is left with. */
  function Kept(l: seq<File>): seq<File>
    requires AllKnown(l)
  {
    var s, e := LastStart(l), FirstEnd(l);
    if l == [] then [Seg(1)]
    else if s >= 0 && e >= 0 then []
    else if s >= 0 then [Seg(l[s].index)] + l[s + 1..]
    else if e > 0 && l[e - 1].index == l[e].index then l[..e - 1] + [Seg(l[e].index)]
    else if e >= 0 then l[..e] + [Seg(l[e].index)]
    else l
  }

  ghost function Recover(d: Disk): Disk {
    Run(d, RecoverOps(Listing(d)))
  }

  // ---- truncation ----

  /** The disk operations of a front truncation at `index`: `names` are the segment files up to
      and including the one holding `index`, `buf` its entries from there on. */
  function FrontOps(names: seq<File>, index: nat, buf: Bytes): seq<DiskOp> {
    [Write(Temp, buf), Rename(Temp, Start(index))] + Removes(names) + [Rename(Start(index), Seg(index))]
  }

  /** The disk operations of a back truncation: `names` are the files from the segment at `base`
      on, `buf` the entries of that segment that stay. */
  function BackOps(names: seq<File>, base: nat, buf: Bytes): seq<DiskOp> {
    [Write(Temp, buf), Rename(Temp, End(base))] + Removes(names) + [Rename(End(base), Seg(base))]
  }
}
