/** Decimal rendering, prefixes and the code-point ordering of strings, as
    Python's `str`, `int`, `len`, `startswith` and `sorted` see them. */
module Strings {
  import opened Cdf

  function Pow10(n: nat): (r: nat)
    ensures r >= 1
  {
    if n == 0 then 1 else 10 * Pow10(n - 1)
  }

  /** Number of decimal digits of n, i.e. int(log10(n)) + 1 for n >= 1. */
  function Digits(n: nat): (d: nat)
    ensures d >= 1
  {
    if n < 10 then 1 else 1 + Digits(n / 10)
  }

  /** Digits(n) is the d with 10^(d-1) <= n < 10^d (for n >= 1). */
  lemma {:induction false} DigitsBounds(n: nat)
    ensures n < Pow10(Digits(n))
    ensures n >= 1 ==> Pow10(Digits(n) - 1) <= n
  {
    if n >= 10 {
      DigitsBounds(n / 10);
    }
  }

  lemma Pow10Values()
    ensures Pow10(9) == 1000000000 && Pow10(10) == 10000000000
    ensures Pow10(18) == 1000000000000000000 && Pow10(19) == 10000000000000000000
  {
    assert Pow10(3) == 1000;
    assert Pow10(6) == 1000 * Pow10(3) by { Pow10Add(3, 3); }
    assert Pow10(9) == 1000 * Pow10(6) by { Pow10Add(3, 6); }
    assert Pow10(10) == 10 * Pow10(9);
    assert Pow10(18) == Pow10(9) * Pow10(9) by { Pow10Add(9, 9); }
    assert Pow10(19) == 10 * Pow10(18);
  }

  lemma {:induction false} Pow10Add(a: nat, b: nat)
    ensures Pow10(a + b) == Pow10(a) * Pow10(b)
  {
    if a > 0 {
      Pow10Add(a - 1, b);
    }
  }

  /** Conversely, 10^(d-1) <= n < 10^d fixes Digits(n) at d. */
  lemma {:induction false} DigitsExact(n: nat, d: nat)
    requires d >= 1 && Pow10(d - 1) <= n < Pow10(d)
    ensures Digits(n) == d
  {
    if d > 1 {
      DigitsExact(n / 10, d - 1);
    }
  }

  lemma {:induction false} DigitsMonotone(a: nat, b: nat)
    requires a <= b
    ensures Digits(a) <= Digits(b)
  {
    if a >= 10 {
      DigitsMonotone(a / 10, b / 10);
    }
  }

  function DigitChar(d: nat): (c: char)
    requires d < 10
    ensures '0' <= c <= '9'
  {
    ('0' as int + d) as char
  }

  predicate IsDigit(c: char) {
    '0' <= c <= '9'
  }

  /** str(n) for a non-negative integer. */
  function NatToString(n: nat): (s: string)
    ensures |s| == Digits(n)
    ensures forall k :: 0 <= k < |s| ==> IsDigit(s[k])
  {
    if n < 10 then [DigitChar(n)] else NatToString(n / 10) + [DigitChar(n % 10)]
  }

  /** str(i) for any integer. */
  function IntToString(i: int): (s: string)
    ensures |s| == Digits(if i < 0 then -i else i) + (if i < 0 then 1 else 0)
  {
    if i < 0 then "-" + NatToString(-i) else NatToString(i)
  }

  predicate AllDigits(s: string) {
    forall k :: 0 <= k < |s| ==> IsDigit(s[k])
  }

  /** The number a run of decimal digits denotes, leading zeros allowed. */
  function DigitsValue(s: string): (n: nat)
    requires AllDigits(s)
  {
    if s == [] then 0 else DigitsValue(s[..|s| - 1]) * 10 + (s[|s| - 1] as int - '0' as int)
  }

  /** Python's int() on text: an optional sign and one or more ASCII
      digits; anything else has no value. */
  function ParseInt(s: string): (r: Option<int>)
    ensures r.Some? <==> |s| > 0 && (AllDigits(s) || ((s[0] == '-' || s[0] == '+') && |s| > 1 && AllDigits(s[1..])))
    ensures r.Some? && AllDigits(s) ==> r.value == DigitsValue(s)
    ensures r.Some? && s[0] == '-' ==> r.value <= 0
  {
    if s == [] then None
    else if s[0] == '-' || s[0] == '+' then
      assert !IsDigit(s[0]);
      if |s| > 1 && AllDigits(s[1..]) then
        Some(if s[0] == '-' then -(DigitsValue(s[1..]) as int) else DigitsValue(s[1..]))
      else None
    else if AllDigits(s) then Some(DigitsValue(s))
    else None
  }

  /** str(n) read back as digits gives n. */
  lemma {:induction false} NatToStringValue(n: nat)
    ensures DigitsValue(NatToString(n)) == n
  {
    var s := NatToString(n);
    if n < 10 {
      assert s[..0] == [];
    } else {
      NatToStringValue(n / 10);
      assert s[..|s| - 1] == NatToString(n / 10);
    }
  }

  /** int(str(i)) == i: ParseInt inverts IntToString. */
  lemma ParseIntRoundTrip(i: int)
    ensures ParseInt(IntToString(i)) == Some(i)
  {
    var s := IntToString(i);
    if i < 0 {
      assert s[1..] == NatToString(-i);
      NatToStringValue(-i);
    } else {
      NatToStringValue(i);
    }
  }

  /** Leading zeros and a plus sign are accepted; a lone sign, an empty
      text, a point or a space are not. */
  lemma ParseIntExamples()
    ensures ParseInt("007") == Some(7)
    ensures ParseInt("+5") == Some(5)
    ensures ParseInt("-12") == Some(-12)
    ensures ParseInt("-") == None && ParseInt("") == None
    ensures ParseInt("1.5") == None && ParseInt(" 1") == None
  {
    assert "007"[..2] == "00" && "00"[..1] == "0" && "0"[..0] == "";
    assert "+5"[1..] == "5" && "5"[..0] == "";
    assert "-12"[1..] == "12" && "12"[..1] == "1" && "1"[..0] == "";
    assert !IsDigit("1.5"[1]) && !IsDigit(" 1"[0]);
  }

  /** Python's int() on a float: truncation toward zero. */
  function Trunc(x: real): (r: int)
    ensures (if r < 0 then -r else r) as real <= (if x < 0.0 then -x else x)
    ensures (if x < 0.0 then -x else x) < (if r < 0 then -r else r) as real + 1.0
    ensures r < 0 ==> x < 0.0
    ensures x <= -1.0 ==> r < 0
  {
    if x >= 0.0 then x.Floor else -((-x).Floor)
  }

  predicate StartsWith(s: string, p: string) {
    |p| <= |s| && s[..|p|] == p
  }

  /** Python's `s[:-4]`: empty when s is shorter than 4. */
  function DropLast4(s: string): (r: string)
    ensures |s| >= 4 ==> s == r + s[|s| - 4..]
    ensures |s| < 4 ==> r == ""
  {
    if |s| >= 4 then s[..|s| - 4] else ""
  }

  /** Python's string `<`: code-point lexicographic order. */
  predicate Less(a: string, b: string) {
    if |a| == 0 then |b| > 0
    else if |b| == 0 then false
    else a[0] < b[0] || (a[0] == b[0] && Less(a[1..], b[1..]))
  }

  lemma {:induction false} LessIrreflexive(a: string)
    ensures !Less(a, a)
  {
    if |a| > 0 {
      LessIrreflexive(a[1..]);
    }
  }

  lemma {:induction false} LessTransitive(a: string, b: string, c: string)
    requires Less(a, b) && Less(b, c)
    ensures Less(a, c)
  {
    if |a| > 0 && |b| > 0 && |c| > 0 && a[0] == b[0] == c[0] {
      LessTransitive(a[1..], b[1..], c[1..]);
    }
  }

  lemma {:induction false} LessTotal(a: string, b: string)
    requires a != b
    ensures Less(a, b) || Less(b, a)
  {
    if |a| > 0 && |b| > 0 && a[0] == b[0] {
      assert a == [a[0]] + a[1..] && b == [b[0]] + b[1..];
      LessTotal(a[1..], b[1..]);
    }
  }

  predicate StrictlySorted(s: seq<string>) {
    forall i, j :: 0 <= i < j < |s| ==> Less(s[i], s[j])
  }

  /** Puts x into a strictly sorted sequence, unless it is already there. */
  function Insert(x: string, s: seq<string>): (r: seq<string>)
    requires StrictlySorted(s)
    ensures StrictlySorted(r)
    ensures forall y :: y in r <==> y == x || y in s
  {
    if s == [] then [x]
    else if x == s[0] then s
    else if Less(x, s[0]) then
      assert forall j :: 0 < j < |s| ==> Less(x, s[j]) by {
        forall j | 0 < j < |s| ensures Less(x, s[j]) { LessTransitive(x, s[0], s[j]); }
      }
      [x] + s
    else
      LessTotal(x, s[0]);
      var t := Insert(x, s[1..]);
      assert forall y :: y in t ==> Less(s[0], y);
      [s[0]] + t
  }

  /** `sorted(set(days))`: the distinct elements in ascending order. */
  function SortedDistinct(days: seq<string>): (r: seq<string>)
    ensures StrictlySorted(r)
    ensures forall y :: y in r <==> y in days
  {
    if days == [] then [] else Insert(days[0], SortedDistinct(days[1..]))
  }

  /** A strictly sorted sequence is determined by its elements. */
  lemma {:induction false} SortedUnique(a: seq<string>, b: seq<string>)
    requires StrictlySorted(a) && StrictlySorted(b)
    requires forall y :: y in a <==> y in b
    ensures a == b
  {
    if a == [] || b == [] {
      EmptyTogether(a, b);
    } else {
      HeadsEqual(a, b);
      forall y ensures y in a[1..] <==> y in b[1..] {
        if y in a[1..] {
          var j :| 1 <= j < |a| && a[j] == y;
          assert Less(a[0], y);
          if y == b[0] { LessIrreflexive(y); }
          assert y in b;
        }
        if y in b[1..] {
          var j :| 1 <= j < |b| && b[j] == y;
          assert Less(b[0], y);
          if y == a[0] { LessIrreflexive(y); }
          assert y in a;
        }
      }
      SortedUnique(a[1..], b[1..]);
      assert a == [a[0]] + a[1..] && b == [b[0]] + b[1..];
    }
  }

  lemma HeadsEqual(a: seq<string>, b: seq<string>)
    requires StrictlySorted(a) && StrictlySorted(b) && a != [] && b != []
    requires forall y :: y in a <==> y in b
    ensures a[0] == b[0]
  {
    assert a[0] in b && b[0] in a;
    var j :| 0 <= j < |b| && b[j] == a[0];
    var k :| 0 <= k < |a| && a[k] == b[0];
    if a[0] != b[0] {
      assert j > 0 && k > 0;
      assert Less(b[0], a[0]) && Less(a[0], b[0]);
      LessTransitive(a[0], b[0], a[0]);
      LessIrreflexive(a[0]);
    }
  }

  lemma EmptyTogether(a: seq<string>, b: seq<string>)
    requires forall y :: y in a <==> y in b
    ensures a == [] <==> b == []
  {
    if a != [] { assert a[0] in b; }
    if b != [] { assert b[0] in a; }
  }
}
