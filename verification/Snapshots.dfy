/** The snapshot directory: one file per snapshot, named by term and index. */
module Snapshots {
  import opened Basics
  import opened Names

  datatype Snapshot = Snapshot(lastTerm: nat, lastIndex: nat, data: seq<int>)

  const TwoTo63: nat := 0x8000_0000_0000_0000

  const SnapSuffix: string := ".snap"

  predicate InRange(s: Snapshot) { s.lastTerm < TwoTo63 && s.lastIndex < TwoTo63 }

  function FileName(term: nat, index: nat): string {
    Digits(16, term, 16) + ("-" + (Digits(16, index, 16) + SnapSuffix))
  }

  predicate Older(s: Snapshot, t: Snapshot) {
    s.lastTerm < t.lastTerm || (s.lastTerm == t.lastTerm && s.lastIndex < t.lastIndex)
  }

  lemma Wide()
    ensures TwoTo63 < Power(16, 16)
  {
    assert Power(16, 4) == 65536;
    assert Power(16, 8) == 65536 * Power(16, 4);
    assert Power(16, 12) == 65536 * Power(16, 8);
    assert Power(16, 16) == 65536 * Power(16, 12);
  }

  lemma {:induction false} NotBefore(x: string)
    ensures !Less(x, x)
    decreases |x|
  {
    if x != "" { NotBefore(x[1..]); }
  }

  /** Snapshot names sort by term first and index second. */
  lemma NameOrder(s: Snapshot, t: Snapshot)
    requires InRange(s) && InRange(t)
    ensures Less(FileName(s.lastTerm, s.lastIndex), FileName(t.lastTerm, t.lastIndex)) <==> Older(s, t)
  {
    Wide();
    var x, y := Digits(16, s.lastIndex, 16) + SnapSuffix, Digits(16, t.lastIndex, 16) + SnapSuffix;
    NumberOrder(16, s.lastIndex, t.lastIndex, 16, SnapSuffix, SnapSuffix);
    NotBefore(SnapSuffix);
    assert ("-" + x)[1..] == x && ("-" + y)[1..] == y;
    NumberOrder(16, s.lastTerm, t.lastTerm, 16, "-" + x, "-" + y);
  }

  predicate HasSuffix(name: string) {
    |name| >= |SnapSuffix| && name[|name| - |SnapSuffix|..] == SnapSuffix
  }

  lemma NamedBySuffix(term: nat, index: nat)
    ensures HasSuffix(FileName(term, index))
  {
    var head := Digits(16, term, 16) + ("-" + Digits(16, index, 16));
    assert FileName(term, index) == head + SnapSuffix;
  }

  lemma BrokenHasNone(name: string)
    ensures !HasSuffix(name + ".broken")
  {
    var broken := name + ".broken";
    assert broken[|broken| - |SnapSuffix|..][4] == broken[|broken| - 1] == 'n';
  }

  /** The snapshot names among the files of a directory. */
  method CheckSuffix(names: seq<string>) returns (snaps: seq<string>)
    ensures forall n :: n in snaps <==> n in names && HasSuffix(n)
  {
    snaps := [];
    for i := 0 to |names|
      invariant forall n :: n in snaps <==> n in names[..i] && HasSuffix(n)
    {
      if HasSuffix(names[i]) {
        snaps := snaps + [names[i]];
      }
    }
    assert names[..|names|] == names;
  }

  /** Greatest name first, as the loader sorts them. */
  predicate Descending(names: seq<string>) {
    forall i, j :: 0 <= i < j < |names| ==> Less(names[j], names[i])
  }

  class Snapshotter {
    /** The directory: a file holds a snapshot, or nothing that can be read. */
    var files: map<string, Option<Snapshot>>

    /** A readable snapshot file is named after the snapshot in it. */
    ghost predicate Valid()
      reads this
    {
      forall n :: n in files && HasSuffix(n) && files[n].Some? ==>
        InRange(files[n].value) && n == FileName(files[n].value.lastTerm, files[n].value.lastIndex)
    }

    ghost predicate Readable(s: Snapshot)
      reads this
    {
      exists n :: n in files && HasSuffix(n) && files[n] == Some(s)
    }

    constructor ()
      ensures Valid() && files == map[]
    {
      files := map[];
    }

    method SaveSnap(s: Snapshot)
      requires Valid() && InRange(s)
      modifies this
      ensures Valid()
      ensures s.lastIndex == 0 ==> files == old(files)
      ensures s.lastIndex != 0 ==> Readable(s)
      ensures forall t: Snapshot :: t.lastTerm != s.lastTerm || t.lastIndex != s.lastIndex ==>
        (Readable(t) <==> old(Readable(t)))
    {
      if s.lastIndex == 0 {
        return;
      }
      var name := FileName(s.lastTerm, s.lastIndex);
      NamedBySuffix(s.lastTerm, s.lastIndex);
      files := files[name := Some(s)];
      assert files[name] == Some(s);
      forall t: Snapshot | t.lastTerm != s.lastTerm || t.lastIndex != s.lastIndex
        ensures Readable(t) <==> old(Readable(t))
      {
        if old(Readable(t)) {
          var n :| n in old(files) && HasSuffix(n) && old(files)[n] == Some(t);
          NameOrder(s, t);
          NameOrder(t, s);
          NotBefore(name);
          assert n in files && files[n] == Some(t);
        }
        if Readable(t) {
          var n :| n in files && HasSuffix(n) && files[n] == Some(t);
          assert n in old(files) && old(files)[n] == Some(t);
        }
      }
    }

    method LoadSnap(name: string) returns (s: Option<Snapshot>)
      requires Valid() && name in files && HasSuffix(name)
      modifies this
      ensures Valid() && s == old(files)[name]
      ensures forall n :: HasSuffix(n) && n != name ==>
        (n in files <==> n in old(files)) && (n in files ==> files[n] == old(files)[n])
      ensures name in files <==> s.Some?
      ensures name in files ==> files[name] == s
    {
      s := files[name];
      if s == None {
        BrokenHasNone(name);
        files := (files - {name})[name + ".broken" := None];
      }
    }

    /** The newest readable snapshot that matches, with `names` the snapshot files in
        descending order; unreadable files in front of it are put aside. */
    method LoadMatching(names: seq<string>, matches: Snapshot -> bool) returns (r: Option<Snapshot>)
      requires Valid() && Descending(names)
      requires forall n :: n in names <==> n in files && HasSuffix(n)
      modifies this
      ensures Valid()
      ensures r.Some? ==> old(Readable(r.value)) && matches(r.value)
      ensures r.Some? ==> forall s :: old(Readable(s)) && matches(s) ==> !Older(r.value, s)
      ensures r == None ==> forall s :: old(Readable(s)) ==> !matches(s)
      ensures forall s :: Readable(s) <==> old(Readable(s))
    {
      for i := 0 to |names|
        invariant Valid()
        invariant forall j :: i <= j < |names| ==> names[j] in files && files[names[j]] == old(files)[names[j]]
        invariant forall j :: 0 <= j < i ==> old(files)[names[j]].Some? ==> !matches(old(files)[names[j]].value)
        invariant forall n :: n in files && HasSuffix(n) ==> n in old(files) && files[n] == old(files)[n]
        invariant forall n :: n in old(files) && HasSuffix(n) && old(files)[n].Some? ==>
          n in files && files[n] == old(files)[n]
      {
        assert names[i] in names;
        forall j | i < j < |names| ensures names[j] != names[i] {
          NotBefore(names[i]);
          assert Less(names[j], names[i]);
        }
        var s := LoadSnap(names[i]);
        if s.Some? && matches(s.value) {
          Newest(names, old(files), i, matches);
          return s;
        }
      }
      return None;
    }
  }

  /** Everything after position i in a descending listing is older. */
  lemma Newest(names: seq<string>, files: map<string, Option<Snapshot>>, i: nat, matches: Snapshot -> bool)
    requires Descending(names) && i < |names|
    requires forall n :: n in names <==> n in files && HasSuffix(n)
    requires forall n :: n in files && HasSuffix(n) && files[n].Some? ==>
      InRange(files[n].value) && n == FileName(files[n].value.lastTerm, files[n].value.lastIndex)
    requires names[i] in files && files[names[i]].Some?
    requires forall j :: 0 <= j < i ==> names[j] in files && (files[names[j]].Some? ==> !matches(files[names[j]].value))
    ensures forall n :: n in files && HasSuffix(n) && files[n].Some? && matches(files[n].value) ==>
      !Older(files[names[i]].value, files[n].value)
  {
    var r := files[names[i]].value;
    forall n | n in files && HasSuffix(n) && files[n].Some? && matches(files[n].value)
      ensures !Older(r, files[n].value)
    {
      assert n in names;
      var j :| 0 <= j < |names| && names[j] == n;
      assert names[i] in names;
      NameOrder(r, files[n].value);
      NotBefore(n);
      if i < j {
        assert Less(names[j], names[i]);
        NotBoth(names[i], names[j]);
      }
    }
  }

  lemma {:induction false} NotBoth(x: string, y: string)
    ensures !(Less(x, y) && Less(y, x))
    decreases |x|
  {
    if x != "" && y != "" { NotBoth(x[1..], y[1..]); }
  }
}
