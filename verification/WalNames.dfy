/** The names of the files in a log directory. */
module WalNames {
  import opened Basics
  import opened Names
  import opened WalDisk

  predicate Nameable(f: File) { Known(f) && f.index < TwoTo64 }

  function Suffix(f: File): string {
    match f
    case Seg(_) => ""
    case End(_) => ".END"
    case Start(_) => ".START"
    case Other(s) => s
  }

  function Text(f: File): string
    requires Nameable(f)
  {
    Digits(10, f.index, 20) + Suffix(f)
  }

  /** How opening a log reads a file name. */
  function Recognise(name: string): Option<File> {
    if |name| < 20 then None
    else
      var index := Parse(name[..20]);
      if index == None || index.value >= TwoTo64 || index.value == 0 then None
      else if |name| == 20 then Some(Seg(index.value))
      else if |name| == 26 && name[20..] == ".START" then Some(Start(index.value))
      else if |name| == 24 && name[20..] == ".END" then Some(End(index.value))
      else None
  }

  lemma Wide()
    ensures TwoTo64 < Power(10, 20)
  {
    assert Power(10, 5) == 100000;
    assert Power(10, 10) == 100000 * Power(10, 5);
    assert Power(10, 15) == 100000 * Power(10, 10);
    assert Power(10, 20) == 100000 * Power(10, 15);
  }

  /** Exactly the names of segments and markers are recognised, each as the file it names. */
  lemma RecogniseExactly(name: string, f: File)
    ensures Recognise(name) == Some(f) <==> Nameable(f) && name == Text(f)
  {
    Wide();
    if Recognise(name) == Some(f) {
      DigitsParse(name[..20]);
      assert name == name[..20] + name[20..];
    }
    if Nameable(f) && name == Text(f) {
      ParseDigits(f.index, 20);
      assert name[..20] == Digits(10, f.index, 20) && name[20..] == Suffix(f);
    }
  }

  lemma SuffixOrder()
    ensures Less("", ".END") && Less("", ".START") && Less(".END", ".START")
    ensures !Less(".END", "") && !Less(".START", "") && !Less(".START", ".END")
    ensures !Less("", "") && !Less(".END", ".END") && !Less(".START", ".START")
  {
    var e, s := "END", "START";
    assert ".END"[1..] == e && ".START"[1..] == s;
    assert e[1..] == "ND" && "ND"[1..] == "D" && "D"[1..] == "";
    assert s[1..] == "TART" && "TART"[1..] == "ART" && "ART"[1..] == "RT" && "RT"[1..] == "T" && "T"[1..] == "";
    assert !Less("", "");
    assert !Less("D", "D") && !Less("ND", "ND") && !Less(e, e);
    assert !Less("T", "T") && !Less("RT", "RT") && !Less("ART", "ART") && !Less("TART", "TART") && !Less(s, s);
  }

  /** Name order is number order: files are listed by index, and at one index the segment comes
      first, then its END marker, then its START marker, with nothing between them. */
  lemma NameOrder(f: File, g: File)
    requires Nameable(f) && Nameable(g)
    ensures Less(Text(f), Text(g)) <==> Rank(f) < Rank(g)
  {
    Wide();
    NumberOrder(10, f.index, g.index, 20, Suffix(f), Suffix(g));
    SuffixOrder();
  }

  /** The files a sorted list of names stands for. */
  function Files(names: seq<string>): seq<File> {
    if names == [] then []
    else
      var front := Files(names[..|names| - 1]);
      match Recognise(names[|names| - 1])
      case None => front
      case Some(f) => front + [f]
  }

  predicate Sorted(names: seq<string>) {
    forall i, j :: 0 <= i < j < |names| ==> Less(names[i], names[j])
  }

  lemma {:induction false} FilesAre(names: seq<string>, f: File)
    ensures f in Files(names) <==> Nameable(f) && Text(f) in names
    decreases |names|
  {
    if names != [] {
      var front, name := names[..|names| - 1], names[|names| - 1];
      FilesAre(front, f);
      RecogniseExactly(name, f);
      assert names == front + [name];
    }
  }

  /** A sorted directory lists segments and markers in the order recovery relies on. */
  lemma {:induction false} SortedListing(names: seq<string>)
    requires Sorted(names)
    ensures AllKnown(Files(names)) && Ascending(Files(names))
    decreases |names|
  {
    if names != [] {
      var k := |names| - 1;
      var front := names[..k];
      SortedListing(front);
      match Recognise(names[k])
      case None =>
      case Some(g) =>
        RecogniseExactly(names[k], g);
        forall i | 0 <= i < |Files(front)| ensures Rank(Files(front)[i]) < Rank(g) {
          var f := Files(front)[i];
          FilesAre(front, f);
          var j :| 0 <= j < k && names[j] == Text(f);
          assert Less(names[j], names[k]);
          NameOrder(f, g);
        }
    }
  }

  /** The directory recovery is given: sorting the names of a disk's files lists the disk. */
  lemma DirectoryListing(names: seq<string>, d: Disk)
    requires Sorted(names)
    requires forall f :: f in d && Known(f) ==> f.index < TwoTo64
    requires forall f :: Nameable(f) ==> (Text(f) in names <==> f in d)
    ensures IsListing(Files(names), d)
  {
    SortedListing(names);
    forall f ensures f in Files(names) <==> f in d && Known(f) {
      FilesAre(names, f);
    }
  }
}
