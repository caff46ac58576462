/**
  String-level behaviour of the Python built-ins the scripts rely on:
  `str(n)` for a non-negative int, the zero-filled format spec `{:0Nd}`,
  `str.startswith` / `str.endswith`, `str.rfind` for one character, and the
  code-point lexicographic order Python uses for `a < b` on strings.
*/
module Text {

  predicate IsDigit(c: char) {
    '0' <= c <= '9'
  }

  predicate AllDigits(s: string) {
    forall i :: 0 <= i < |s| ==> IsDigit(s[i])
  }

  function DigitChar(d: nat): (c: char)
    requires d < 10
    ensures IsDigit(c) && c as int - '0' as int == d
  {
    (48 + d) as char
  }

  function DigitValue(c: char): nat
    requires IsDigit(c)
  {
    c as int - '0' as int
  }

  /** `str(n)`: decimal digits, most significant first, with no leading zero. */
  function Decimal(n: nat): (s: string)
    ensures |s| >= 1 && AllDigits(s)
    ensures n >= 1 ==> s[0] != '0'
    decreases n
  {
    if n < 10 then [DigitChar(n)] else Decimal(n / 10) + [DigitChar(n % 10)]
  }

  /** The number a string of decimal digits denotes (the inverse of `Decimal`). */
  function DecimalValue(s: string): nat
    requires AllDigits(s)
  {
    if s == [] then 0 else DecimalValue(s[..|s| - 1]) * 10 + DigitValue(s[|s| - 1])
  }

  function Repeat(c: char, k: nat): (s: string)
    ensures |s| == k && forall i :: 0 <= i < k ==> s[i] == c
  {
    if k == 0 then [] else [c] + Repeat(c, k - 1)
  }

  /** `format(n, "0{width}d")` for a non-negative int: `str(n)` left-filled
      with '0' up to `width` characters, never truncated. */
  function ZeroPadded(n: nat, width: nat): (s: string)
    ensures AllDigits(s)
  {
    var digits := Decimal(n);
    if |digits| < width then Repeat('0', width - |digits|) + digits else digits
  }

  predicate StartsWith(s: string, prefix: string) {
    |prefix| <= |s| && s[..|prefix|] == prefix
  }

  predicate EndsWith(s: string, suffix: string) {
    |suffix| <= |s| && s[|s| - |suffix|..] == suffix
  }

  /** `s.rfind(c)`: the last index holding `c`, or -1. */
  function RFind(s: string, c: char): (r: int)
    ensures -1 <= r < |s|
    ensures r >= 0 ==> s[r] == c
    ensures forall k :: r < k < |s| ==> s[k] != c
  {
    if s == [] then -1
    else if s[|s| - 1] == c then |s| - 1
    else RFind(s[..|s| - 1], c)
  }

  /** `RFind` is the only index with its postconditions. */
  lemma RFindUnique(s: string, c: char, r: int)
    requires -1 <= r < |s|
    requires r >= 0 ==> s[r] == c
    requires forall k :: r < k < |s| ==> s[k] != c
    ensures RFind(s, c) == r
  {
  }

  /** Python's `a < b` on `str`. */
  predicate LexLess(a: string, b: string)
    decreases |a|
  {
    if |a| == 0 then |b| > 0
    else if |b| == 0 then false
    else if a[0] != b[0] then a[0] < b[0]
    else LexLess(a[1..], b[1..])
  }

  // ---------------------------------------------------------------------
  // Decimal round trip

  lemma {:induction false} DecimalRoundTrip(n: nat)
    ensures DecimalValue(Decimal(n)) == n
    decreases n
  {
    if n >= 10 {
      var s := Decimal(n);
      assert s[..|s| - 1] == Decimal(n / 10);
      DecimalRoundTrip(n / 10);
    }
  }

  lemma {:induction false} LeadingZeroValue(t: string)
    requires AllDigits(t)
    ensures AllDigits(['0'] + t) && DecimalValue(['0'] + t) == DecimalValue(t)
    decreases |t|
  {
    var z := ['0'] + t;
    if t != [] {
      assert z[..|z| - 1] == ['0'] + t[..|t| - 1];
      LeadingZeroValue(t[..|t| - 1]);
    }
  }

  lemma {:induction false} LeadingZerosValue(k: nat, t: string)
    requires AllDigits(t)
    ensures AllDigits(Repeat('0', k) + t) && DecimalValue(Repeat('0', k) + t) == DecimalValue(t)
    decreases k
  {
    if k == 0 {
      assert Repeat('0', k) + t == t;
    } else {
      LeadingZerosValue(k - 1, t);
      var u := Repeat('0', k - 1) + t;
      assert Repeat('0', k) + t == ['0'] + u;
      LeadingZeroValue(u);
    }
  }

  /** Zero filling never changes the number the digits denote, so the filled
      string still determines `n`. */
  lemma ZeroPaddedValue(n: nat, width: nat)
    ensures DecimalValue(ZeroPadded(n, width)) == n
  {
    var digits := Decimal(n);
    DecimalRoundTrip(n);
    if |digits| < width {
      LeadingZerosValue(width - |digits|, digits);
      assert ZeroPadded(n, width) == Repeat('0', width - |digits|) + digits;
    } else {
      assert ZeroPadded(n, width) == digits;
    }
  }

  lemma ZeroPaddedInjective(a: nat, b: nat, width: nat)
    requires ZeroPadded(a, width) == ZeroPadded(b, width)
    ensures a == b
  {
    ZeroPaddedValue(a, width);
    ZeroPaddedValue(b, width);
  }

  /** A number of at most three digits, zero-filled to width 3, is exactly its
      hundreds, tens and units digit. */
  lemma ZeroPadded3Digits(n: nat)
    requires n <= 999
    ensures ZeroPadded(n, 3) == [DigitChar(n / 100), DigitChar(n / 10 % 10), DigitChar(n % 10)]
  {
    if n >= 10 {
      assert Decimal(n) == Decimal(n / 10) + [DigitChar(n % 10)];
      if n >= 100 {
        assert Decimal(n / 10) == Decimal(n / 100) + [DigitChar(n / 10 % 10)];
      }
    }
  }

  /** From 1000 on, `str(n)` has at least four digits, so a width of 3 no
      longer fixes the length. */
  lemma DecimalLengthFrom1000(n: nat)
    requires n >= 1000
    ensures |ZeroPadded(n, 3)| >= 4
  {
    assert Decimal(n) == Decimal(n / 10) + [DigitChar(n % 10)];
    assert Decimal(n / 10) == Decimal(n / 100) + [DigitChar(n / 10 % 10)];
    assert Decimal(n / 100) == Decimal(n / 1000) + [DigitChar(n / 100 % 10)];
  }

  // ---------------------------------------------------------------------
  // Lexicographic order

  lemma {:induction false} LexLessIrreflexive(a: string)
    ensures !LexLess(a, a)
    decreases |a|
  {
    if |a| > 0 {
      LexLessIrreflexive(a[1..]);
    }
  }

  lemma {:induction false} LexLessAsymmetric(a: string, b: string)
    requires LexLess(a, b)
    ensures !LexLess(b, a)
    decreases |a|
  {
    if |a| > 0 && |b| > 0 && a[0] == b[0] {
      LexLessAsymmetric(a[1..], b[1..]);
    }
  }

  /** A common prefix does not change the order. */
  lemma {:induction false} LexLessCommonPrefix(p: string, a: string, b: string)
    ensures LexLess(p + a, p + b) == LexLess(a, b)
    decreases |p|
  {
    if |p| == 0 {
      assert p + a == a && p + b == b;
    } else {
      assert (p + a)[0] == (p + b)[0];
      assert (p + a)[1..] == p[1..] + a;
      assert (p + b)[1..] == p[1..] + b;
      LexLessCommonPrefix(p[1..], a, b);
    }
  }

  /** Between two strings of the same length that differ, whatever follows
      them does not change the order. */
  lemma {:induction false} LexLessAppend(x: string, y: string, q: string, r: string)
    requires |x| == |y| && LexLess(x, y)
    ensures LexLess(x + q, y + r)
    decreases |x|
  {
    assert |x| > 0;
    if x[0] == y[0] {
      assert (x + q)[1..] == x[1..] + q;
      assert (y + r)[1..] == y[1..] + r;
      LexLessAppend(x[1..], y[1..], q, r);
    }
  }

  /** Three-digit zero-filled numbers compare as strings exactly as the
      numbers compare. */
  lemma ZeroPadded3Order(a: nat, b: nat)
    requires a < b <= 999
    ensures LexLess(ZeroPadded(a, 3), ZeroPadded(b, 3))
  {
    ZeroPadded3Digits(a);
    ZeroPadded3Digits(b);
    var a1, a2, a3 := a / 100, a / 10 % 10, a % 10;
    var b1, b2, b3 := b / 100, b / 10 % 10, b % 10;
    assert a == 100 * a1 + 10 * a2 + a3;
    assert b == 100 * b1 + 10 * b2 + b3;
    DigitTripleOrder(a1, a2, a3, b1, b2, b3);
    ThreeCharOrder(DigitChar(a1), DigitChar(a2), DigitChar(a3), DigitChar(b1), DigitChar(b2), DigitChar(b3));
  }

  lemma DigitTripleOrder(a1: nat, a2: nat, a3: nat, b1: nat, b2: nat, b3: nat)
    requires a2 < 10 && a3 < 10 && b2 < 10 && b3 < 10
    requires 100 * a1 + 10 * a2 + a3 < 100 * b1 + 10 * b2 + b3
    ensures a1 < b1 || (a1 == b1 && (a2 < b2 || (a2 == b2 && a3 < b3)))
  {
  }

  lemma ThreeCharOrder(a1: char, a2: char, a3: char, b1: char, b2: char, b3: char)
    requires a1 < b1 || (a1 == b1 && (a2 < b2 || (a2 == b2 && a3 < b3)))
    ensures LexLess([a1, a2, a3], [b1, b2, b3])
  {
    if a1 == b1 {
      assert [a1, a2, a3][1..] == [a2, a3] && [b1, b2, b3][1..] == [b2, b3];
      if a2 == b2 {
        assert [a2, a3][1..] == [a3] && [b2, b3][1..] == [b3];
      }
    }
  }
}
