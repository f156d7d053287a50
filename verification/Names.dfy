/** File names built from zero-padded numbers, and the order a directory listing puts them in. */
module Names {
  import opened Basics

  /** The byte-wise order of file names. */
  predicate Less(a: string, b: string) {
    b != [] && (a == [] || a[0] < b[0] || (a[0] == b[0] && Less(a[1..], b[1..])))
  }

  predicate Base(b: nat) { b == 10 || b == 16 }

  function Digit(i: nat): (c: char)
    requires i < 16
  {
    if i < 10 then (48 + i) as char else (87 + i) as char
  }

  function Power(b: nat, w: nat): (p: nat)
    requires Base(b)
    ensures p > 0
  {
    if w == 0 then 1 else b * Power(b, w - 1)
  }

  /** The last w digits of n. */
  function Digits(b: nat, n: nat, w: nat): (s: string)
    requires Base(b)
    ensures |s| == w
  {
    if w == 0 then "" else Digits(b, n / b, w - 1) + [Digit(n % b)]
  }

  lemma DigitOrder(i: nat, j: nat)
    requires i < 16 && j < 16
    ensures Digit(i) < Digit(j) <==> i < j
    ensures Digit(i) == Digit(j) <==> i == j
  {
    assert Digit(i) as int == if i < 10 then 48 + i else 87 + i;
    assert Digit(j) as int == if j < 10 then 48 + j else 87 + j;
  }

  lemma DivideOrder(b: nat, m: nat, n: nat)
    requires Base(b)
    ensures m < n <==> m / b < n / b || (m / b == n / b && m % b < n % b)
    ensures m == n <==> m / b == n / b && m % b == n % b
  {
    if b == 10 {
      assert m == 10 * (m / 10) + m % 10 && n == 10 * (n / 10) + n % 10;
    } else {
      assert m == 16 * (m / 16) + m % 16 && n == 16 * (n / 16) + n % 16;
    }
  }

  lemma DivideFits(b: nat, n: nat, w: nat)
    requires Base(b) && w > 0 && n < Power(b, w)
    ensures n / b < Power(b, w - 1)
  {
    var p := Power(b, w - 1);
    if b == 10 {
      assert n < 10 * p;
    } else {
      assert n < 16 * p;
    }
  }

  /** Fixed-width names sort as the numbers they write, and what follows breaks ties. */
  lemma {:induction false} NumberOrder(b: nat, m: nat, n: nat, w: nat, x: string, y: string)
    requires Base(b) && m < Power(b, w) && n < Power(b, w)
    ensures Less(Digits(b, m, w) + x, Digits(b, n, w) + y) <==> m < n || (m == n && Less(x, y))
    decreases w
  {
    if w == 0 {
      assert Digits(b, m, w) + x == x && Digits(b, n, w) + y == y;
    } else {
      var x', y' := [Digit(m % b)] + x, [Digit(n % b)] + y;
      assert Digits(b, m, w) + x == Digits(b, m / b, w - 1) + x';
      assert Digits(b, n, w) + y == Digits(b, n / b, w - 1) + y';
      DivideFits(b, m, w);
      DivideFits(b, n, w);
      NumberOrder(b, m / b, n / b, w - 1, x', y');
      assert x'[1..] == x && y'[1..] == y;
      DigitOrder(m % b, n % b);
      DivideOrder(b, m, n);
    }
  }

  // ---- reading a number back ----

  /** Decimal digits as a number, or None. */
  function Parse(s: string): Option<nat> {
    if s == "" then Some(0)
    else
      var c := s[|s| - 1];
      match Parse(s[..|s| - 1])
      case None => None
      case Some(n) => if '0' <= c <= '9' then Some(10 * n + (c as int - 48)) else None
  }

  lemma {:induction false} ParseDigits(n: nat, w: nat)
    requires n < Power(10, w)
    ensures Parse(Digits(10, n, w)) == Some(n)
    decreases w
  {
    if w > 0 {
      DivideFits(10, n, w);
      ParseDigits(n / 10, w - 1);
      var s := Digits(10, n, w);
      assert s[..w - 1] == Digits(10, n / 10, w - 1);
      assert s[w - 1] == Digit(n % 10);
    }
  }

  lemma {:induction false} DigitsParse(s: string)
    requires Parse(s).Some?
    ensures Parse(s).value < Power(10, |s|) && Digits(10, Parse(s).value, |s|) == s
    decreases |s|
  {
    if s != "" {
      var front, c := s[..|s| - 1], s[|s| - 1];
      DigitsParse(front);
      var n := Parse(s).value;
      assert n / 10 == Parse(front).value && n % 10 == c as int - 48;
      assert Digit(n % 10) == c;
      assert s == front + [c];
    }
  }
}
