/**
 * Characters, decimal digits and the ordering JavaScript applies to strings
 * (`a < b` compares the characters one by one).
 */
module Strings {

  predicate IsDigit(c: char) {
    '0' <= c <= '9'
  }

  predicate AllDigits(s: string) {
    forall i :: 0 <= i < |s| ==> IsDigit(s[i])
  }

  /** The character of the decimal digit `n`. */
  function DigitChar(n: nat): (c: char)
    requires n < 10
    ensures IsDigit(c)
    ensures c as int - '0' as int == n
  {
    ('0' as int + n) as char
  }

  /** The value of a decimal digit character. */
  function DigitValue(c: char): (n: nat)
    requires IsDigit(c)
    ensures n < 10 && DigitChar(n) == c
  {
    c as int - '0' as int
  }

  /** The value of two decimal digits, most significant first. */
  function Value2(hi: char, lo: char): (n: nat)
    requires IsDigit(hi) && IsDigit(lo)
    ensures n < 100
  {
    10 * DigitValue(hi) + DigitValue(lo)
  }

  /** The value of four decimal digits, most significant first. */
  function Value4(c0: char, c1: char, c2: char, c3: char): (n: nat)
    requires IsDigit(c0) && IsDigit(c1) && IsDigit(c2) && IsDigit(c3)
    ensures n < 10000
  {
    100 * Value2(c0, c1) + Value2(c2, c3)
  }

  /** `n` written with exactly two digits, zero-padded. */
  function Pad2(n: nat): (s: string)
    requires n < 100
    ensures |s| == 2 && AllDigits(s) && Value2(s[0], s[1]) == n
  {
    [DigitChar(n / 10), DigitChar(n % 10)]
  }

  /** `n` written with exactly four digits, zero-padded. */
  function Pad4(n: nat): (s: string)
    requires n < 10000
    ensures |s| == 4 && AllDigits(s) && Value4(s[0], s[1], s[2], s[3]) == n
  {
    Pad2(n / 100) + Pad2(n % 100)
  }

  /** Two digits read and written back give the same two characters. */
  lemma Pad2OfValue(hi: char, lo: char)
    requires IsDigit(hi) && IsDigit(lo)
    ensures Pad2(Value2(hi, lo)) == [hi, lo]
  {
    var n := Value2(hi, lo);
    assert n / 10 == DigitValue(hi) && n % 10 == DigitValue(lo);
  }

  /** Four digits read and written back give the same four characters. */
  lemma Pad4OfValue(c0: char, c1: char, c2: char, c3: char)
    requires IsDigit(c0) && IsDigit(c1) && IsDigit(c2) && IsDigit(c3)
    ensures Pad4(Value4(c0, c1, c2, c3)) == [c0, c1, c2, c3]
  {
    var n := Value4(c0, c1, c2, c3);
    assert n / 100 == Value2(c0, c1) && n % 100 == Value2(c2, c3);
    Pad2OfValue(c0, c1);
    Pad2OfValue(c2, c3);
  }

  /** The template literal `${n}` for a natural number: decimal, no leading zeros. */
  function Decimal(n: nat): (s: string)
    ensures |s| >= 1 && AllDigits(s)
    ensures (|s| == 1) == (n < 10)
  {
    if n < 10 then [DigitChar(n)] else Decimal(n / 10) + [DigitChar(n % 10)]
  }

  /** Distinct numbers are rendered as distinct strings. */
  lemma {:induction false} DecimalInjective(a: nat, b: nat)
    requires Decimal(a) == Decimal(b)
    ensures a == b
  {
    var sa, sb := Decimal(a), Decimal(b);
    if a < 10 {
      assert DigitValue(sa[0]) == a && DigitValue(sb[0]) == b;
    } else {
      assert sa[..|sa| - 1] == Decimal(a / 10);
      assert sb[..|sb| - 1] == Decimal(b / 10);
      DecimalInjective(a / 10, b / 10);
      assert DigitValue(sa[|sa| - 1]) == a % 10;
      assert DigitValue(sb[|sb| - 1]) == b % 10;
    }
  }

  /** The length of the longest run of digits at the start of `s`. */
  function DigitRun(s: string): (n: nat)
    ensures n <= |s|
  {
    if |s| == 0 || !IsDigit(s[0]) then 0 else 1 + DigitRun(s[1..])
  }

  /** In a digit string followed by a non-digit, the digit run is the digit string. */
  lemma {:induction false} DigitRunOf(a: string, c: char, x: string)
    requires AllDigits(a) && !IsDigit(c)
    ensures DigitRun(a + [c] + x) == |a|
  {
    if |a| > 0 {
      assert (a + [c] + x)[1..] == a[1..] + [c] + x;
      DigitRunOf(a[1..], c, x);
    } else {
      assert a + [c] + x == [c] + x;
    }
  }

  /** A digit string followed by ": " determines both the digits and the rest. */
  lemma DigitsBeforeColon(a: string, x: string, b: string, y: string)
    requires AllDigits(a) && AllDigits(b)
    requires a + ": " + x == b + ": " + y
    ensures a == b && x == y
  {
    var s := a + ": " + x;
    assert s == a + [':'] + (" " + x);
    assert b + ": " + y == b + [':'] + (" " + y);
    DigitRunOf(a, ':', " " + x);
    DigitRunOf(b, ':', " " + y);
    assert a == s[..|a|] == b;
    assert x == s[|a| + 2..] == y;
  }

  /** After a common prefix, a digit string followed by ": " determines both the digits and the rest. */
  lemma DigitsAfterPrefix(p: string, a: string, x: string, b: string, y: string)
    requires AllDigits(a) && AllDigits(b)
    requires p + a + ": " + x == p + b + ": " + y
    ensures a == b && x == y
  {
    assert p + a + ": " + x == p + (a + ": " + x);
    assert p + b + ": " + y == p + (b + ": " + y);
    assert (p + (a + ": " + x))[|p|..] == a + ": " + x;
    assert (p + (b + ": " + y))[|p|..] == b + ": " + y;
    DigitsBeforeColon(a, x, b, y);
  }

  /** JavaScript's `a < b` on strings: lexicographic order of the characters. */
  predicate Less(a: string, b: string)
    ensures Less(a, b) ==> a != b
  {
    if |a| == 0 then |b| > 0
    else if |b| == 0 then false
    else if a[0] != b[0] then a[0] < b[0]
    else Less(a[1..], b[1..])
  }

  /** String order on equal-length prefixes decides first; the rest breaks ties. */
  lemma {:induction false} LessConcat(p: string, x: string, q: string, y: string)
    requires |p| == |q|
    ensures Less(p + x, q + y) <==> Less(p, q) || (p == q && Less(x, y))
  {
    if |p| > 0 {
      assert (p + x)[1..] == p[1..] + x;
      assert (q + y)[1..] == q[1..] + y;
      LessConcat(p[1..], x, q[1..], y);
      if p[0] == q[0] {
        assert p == q <==> p[1..] == q[1..];
      }
    } else {
      assert p + x == x && q + y == y;
    }
  }

  /** Two fields joined by "-", the first ones of equal length, are ordered field by field. */
  lemma SeparatedLess(p: string, x: string, q: string, y: string)
    requires |p| == |q|
    ensures Less(p + "-" + x, q + "-" + y) <==> Less(p, q) || (p == q && Less(x, y))
  {
    assert p + "-" + x == p + ("-" + x);
    assert q + "-" + y == q + ("-" + y);
    LessConcat(p, "-" + x, q, "-" + y);
    LessConcat("-", x, "-", y);
  }

  /** Zero-padded two-digit strings are ordered as the numbers they show. */
  lemma Pad2Less(a: nat, b: nat)
    requires a < 100 && b < 100
    ensures Less(Pad2(a), Pad2(b)) <==> a < b
  {
    var pa, pb := Pad2(a), Pad2(b);
    assert pa == [pa[0]] + [pa[1]] && pb == [pb[0]] + [pb[1]];
    LessConcat([pa[0]], [pa[1]], [pb[0]], [pb[1]]);
    assert Less([pa[0]], [pb[0]]) <==> pa[0] < pb[0];
    assert Less([pa[1]], [pb[1]]) <==> pa[1] < pb[1];
    assert a == 10 * (a / 10) + a % 10 && b == 10 * (b / 10) + b % 10;
  }

  /** Zero-padded four-digit strings are ordered as the numbers they show. */
  lemma Pad4Less(a: nat, b: nat)
    requires a < 10000 && b < 10000
    ensures Less(Pad4(a), Pad4(b)) <==> a < b
  {
    LessConcat(Pad2(a / 100), Pad2(a % 100), Pad2(b / 100), Pad2(b % 100));
    Pad2Less(a / 100, b / 100);
    Pad2Less(a % 100, b % 100);
    assert Pad2(a / 100) == Pad2(b / 100) <==> a / 100 == b / 100;
    assert a == 100 * (a / 100) + a % 100 && b == 100 * (b / 100) + b % 100;
  }
}
