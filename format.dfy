/** format: derives an ISTP FORMAT token from a variable's type and its
    VALID/SCALE attributes, and writes it over FORMAT. */
module Format {
  import opened Cdf
  import opened Strings
  import opened Ranges

  const FORMAT := "FORMAT"
  const VALIDMIN := "VALIDMIN"
  const VALIDMAX := "VALIDMAX"
  const SCALEMIN := "SCALEMIN"
  const SCALEMAX := "SCALEMAX"

  /** Fortran-style FORMAT tokens: Iw, Aw, Fw.d and the general G10.2E3. */
  datatype FormatToken = I(columns: int) | A(width: nat) | F(width: nat, decimals: nat) | G10_2E3

  function TokenText(tok: FormatToken): (s: string)
    ensures |s| >= 2
  {
    match tok
    case I(w) => "I" + IntToString(w)
    case A(w) => "A" + NatToString(w)
    case F(w, d) => "F" + NatToString(w) + "." + NatToString(d)
    case G10_2E3 => "G10.2E3"
  }

  /** The longest rendering of each time type. */
  const TT2000_LONGEST := "9999-12-31T23:59:59.999999999"
  const EPOCH16_LONGEST := "31-Dec-9999 23:59:59.999.999.000.000"
  const EPOCH_LONGEST := "31-Dec-9999 23:59:59.999"

  predicate IsIntegerType(t: TypeCode) {
    match t
    case INT1 | INT2 | INT4 | INT8 | UINT1 | UINT2 | UINT4 | BYTE => true
    case _ => false
  }

  predicate IsFloatType(t: TypeCode) {
    match t
    case REAL8 | REAL4 | FLOAT | DOUBLE => true
    case _ => false
  }

  predicate IsUnsigned(t: TypeCode) {
    match t
    case UINT1 | UINT2 | UINT4 => true
    case _ => false
  }

  function ByteSize(t: TypeCode): (n: nat)
    requires IsIntegerType(t)
    ensures n in {1, 2, 4, 8}
  {
    match t
    case INT1 | UINT1 | BYTE => 1
    case INT2 | UINT2 => 2
    case INT4 | UINT4 => 4
    case _ => 8
  }

  /** The natural minimum the source uses when no MIN attribute is set:
      0 for unsigned types, -2^7 for BYTE, -2^(8n-1) for n-byte INTn. */
  function NaturalMin(t: TypeCode): int
    requires IsIntegerType(t)
  {
    match t
    case UINT1 | UINT2 | UINT4 => 0
    case BYTE | INT1 => -128
    case INT2 => -32768
    case INT4 => -2147483648
    case INT8 => -9223372036854775808
  }

  /** The natural maximum the source uses when no MAX attribute is set:
      2^7-1 for BYTE, 2^(8n)-1 for UINTn, 2^(8n-1)-1 for INTn. */
  function NaturalMax(t: TypeCode): int
    requires IsIntegerType(t)
  {
    match t
    case BYTE | INT1 => 127
    case UINT1 => 255
    case UINT2 => 65535
    case UINT4 => 4294967295
    case INT2 => 32767
    case INT4 => 2147483647
    case INT8 => 9223372036854775807
  }

  /** The natural range is the source's power-of-two computation by byte
      size, and also the get_min/get_max range of the type. */
  lemma {:induction false} NaturalRange(t: TypeCode)
    requires IsIntegerType(t)
    ensures NaturalMin(t) == if IsUnsigned(t) then 0 else -(Pow2(8 * ByteSize(t) - 1) as int)
    ensures NaturalMax(t) == if IsUnsigned(t) then Pow2(8 * ByteSize(t)) - 1 else Pow2(8 * ByteSize(t) - 1) - 1
    ensures GetMin(t) == Ok(Fin(NaturalMin(t) as real))
    ensures GetMax(t) == Ok(Fin(NaturalMax(t) as real))
  {
    var n := ByteSize(t);
    if IsUnsigned(t) {
      assert t == UnsignedOfSize(n);
      UnsignedBounds(n);
    } else if t == BYTE {
      SignedBounds(1);
    } else {
      assert t == SignedOfSize(n);
      SignedBounds(n);
    }
  }

  function Abs(i: int): nat {
    if i < 0 then -i else i
  }

  function RAbs(x: real): real {
    if x < 0.0 then -x else x
  }

  function Max3(a: nat, b: nat, c: nat): nat {
    if a >= b && a >= c then a else if b >= c then b else c
  }

  function RMax3(a: real, b: real, c: real): real {
    if a >= b && a >= c then a else if b >= c then b else c
  }

  /** int(math.log10(x)) for x > 0: the exponent of the power of ten at or
      below x when x >= 1; below 1, minus that of 1/x, as truncation toward
      zero gives. */
  function Log10Trunc(x: real): (r: int)
    requires x > 0.0
    ensures x >= 1.0 ==> r >= 0 && Pow10(r) as real <= x < Pow10(r + 1) as real
    ensures x < 1.0 ==> r <= 0 && Pow10(-r) as real <= 1.0 / x < Pow10(1 - r) as real
  {
    if x >= 1.0 then
      var n := x.Floor;
      DigitsBounds(n);
      Digits(n) - 1
    else
      var y := 1.0 / x;
      assert y > 1.0 by {
        assert y * x == 1.0;
      }
      var n := y.Floor;
      DigitsBounds(n);
      1 - Digits(n)
  }

  /** On a whole number n >= 1, int(log10(n)) is one less than its number
      of digits. */
  lemma WholeLog10(n: int)
    requires n >= 1
    ensures Log10Trunc(n as real) == Digits(n) - 1
  {
    assert (n as real).Floor == n;
  }

  /** The integer width: int(log10(max(|max|,|min|,1))) + 2 when the minimum
      is negative, else int(log10(max)) + 1, with max = 0 read as log 1.
      The bounds are the attribute values, real or whole. */
  function IntegerWidth(minval: real, maxval: real): (r: Result<int>)
    ensures r.Raise? <==> minval >= 0.0 && maxval < 0.0
    ensures r.Raise? ==> r.exc == MathDomain
    ensures minval < 0.0 ==> r.Ok? && r.value >= 2
    ensures minval >= 0.0 && maxval >= 1.0 ==> (r.Ok? && 1 <= r.value &&
      Pow10(r.value - 1) as real <= maxval < Pow10(r.value) as real)
  {
    if minval < 0.0 then Ok(Log10Trunc(RMax3(RAbs(maxval), RAbs(minval), 1.0)) + 2)
    else if maxval == 0.0 then Ok(2)
    else if maxval < 0.0 then Raise(MathDomain)
    else Ok(Log10Trunc(maxval) + 1)
  }

  /** On whole bounds the width is a count of decimal digits. */
  lemma WholeWidth(minval: int, maxval: int)
    ensures minval < 0 ==> IntegerWidth(minval as real, maxval as real) == Ok(Digits(Max3(Abs(maxval), Abs(minval), 1)) + 1)
    ensures minval >= 0 && maxval > 0 ==> IntegerWidth(minval as real, maxval as real) == Ok(Digits(maxval))
  {
    if minval < 0 {
      var m := Max3(Abs(maxval), Abs(minval), 1);
      assert RMax3(RAbs(maxval as real), RAbs(minval as real), 1.0) == m as real;
      WholeLog10(m);
    } else if maxval > 0 {
      WholeLog10(maxval);
    }
  }

  /** On whole bounds with min <= max the width holds the decimal rendering of
      both bounds, with at most one column to spare. */
  lemma IntegerWidthFits(minval: int, maxval: int)
    requires minval <= maxval
    ensures IntegerWidth(minval as real, maxval as real).Ok?
    ensures |IntToString(minval)| <= IntegerWidth(minval as real, maxval as real).value
    ensures |IntToString(maxval)| <= IntegerWidth(minval as real, maxval as real).value
    ensures IntegerWidth(minval as real, maxval as real).value <= 1 + (if |IntToString(minval)| >= |IntToString(maxval)| then |IntToString(minval)| else |IntToString(maxval)|)
  {
    var m := Max3(Abs(maxval), Abs(minval), 1);
    WholeWidth(minval, maxval);
    if minval < 0 {
      DigitsMonotone(Abs(maxval), m);
      DigitsMonotone(Abs(minval), m);
    } else if maxval > 0 {
      DigitsMonotone(minval, maxval);
    }
  }

  /** A non-negative minimum with a negative maximum takes log10 of a
      negative number. */
  lemma IntegerWidthDomain(minval: real, maxval: real)
    requires minval >= 0.0 && maxval < 0.0
    ensures IntegerWidth(minval, maxval) == Raise(MathDomain)
  {
  }

  /** A positive maximum below 1 with a non-negative minimum: log10 is
      negative and truncates toward zero, so 0.5 gives I1, 0.1 and 0.05 give
      I0 and 0.01 gives I-1. */
  lemma IntegerWidthFractions()
    ensures IntegerWidth(0.0, 0.5) == Ok(1)
    ensures IntegerWidth(0.0, 0.1) == Ok(0)
    ensures IntegerWidth(0.0, 0.05) == Ok(0)
    ensures IntegerWidth(0.0, 0.01) == Ok(-1)
  {
    assert Digits(2) == 1 && Digits(10) == 2 && Digits(20) == 2 && Digits(100) == 3;
    assert (1.0 / 0.5).Floor == 2 && (1.0 / 0.1).Floor == 10;
    assert (1.0 / 0.05).Floor == 20 && (1.0 / 0.01).Floor == 100;
  }

  /** len(str(n)). */
  function StrIntLen(n: int): nat {
    |IntToString(n)|
  }

  /** int() of an attribute: a whole number as it is, a real truncated
      toward zero, a text by ParseInt; anything else raises. */
  function IntOf(attrs: map<string, AttrVal>, key: string): (r: Result<int>)
    requires key in attrs
    ensures attrs[key].IntVal? ==> r == Ok(attrs[key].i)
    ensures attrs[key].RealVal? ==> r == Ok(Trunc(attrs[key].r))
    ensures attrs[key].Text? ==> (r.Ok? <==> ParseInt(attrs[key].s).Some?)
    ensures attrs[key].Text? && r.Ok? ==> r.value == ParseInt(attrs[key].s).value
    ensures attrs[key].RealPair? ==> r == Raise(NotNumber(key))
    ensures r.Raise? ==> r.exc == NotNumber(key)
  {
    match attrs[key]
    case IntVal(i) => Ok(i)
    case RealVal(x) => Ok(Trunc(x))
    case Text(t) => if ParseInt(t).Some? then Ok(ParseInt(t).value) else Raise(NotNumber(key))
    case RealPair(_, _) => Raise(NotNumber(key))
  }

  /** A bound attribute of the integer branch, whole or real, or the
      natural bound when it is absent; a non-numeric value raises. */
  function BoundAttr(attrs: map<string, AttrVal>, key: string, default: int): (r: Result<real>)
    ensures key !in attrs ==> r == Ok(default as real)
    ensures key in attrs ==> (r.Ok? <==> Numeric(attrs[key]).Some?)
    ensures key in attrs && r.Ok? ==> r.value == Numeric(attrs[key]).value
    ensures key in attrs && r.Raise? ==> r.exc == NotNumber(key)
  {
    if key !in attrs then Ok(default as real) else NumAttr(attrs, key)
  }

  function NumAttr(attrs: map<string, AttrVal>, key: string): (r: Result<real>)
    requires key in attrs
    ensures r.Ok? <==> Numeric(attrs[key]).Some?
    ensures r.Ok? ==> r.value == Numeric(attrs[key]).value
    ensures r.Raise? ==> r.exc == NotNumber(key)
  {
    match Numeric(attrs[key])
    case Some(x) => Ok(x)
    case None => Raise(NotNumber(key))
  }

  /** SCALEMAX - SCALEMIN when both are set, else VALIDMAX - VALIDMIN, else
      no range. */
  function RangeOf(attrs: map<string, AttrVal>): (r: Result<Option<real>>)
    ensures r.Raise? ==> r.exc.NotNumber?
    ensures r == Ok(None) <==> !(SCALEMIN in attrs && SCALEMAX in attrs) && !(VALIDMIN in attrs && VALIDMAX in attrs)
  {
    if SCALEMIN in attrs && SCALEMAX in attrs then
      var hi :- NumAttr(attrs, SCALEMAX);
      var lo :- NumAttr(attrs, SCALEMIN);
      Ok(Some(hi - lo))
    else if VALIDMIN in attrs && VALIDMAX in attrs then
      var hi :- NumAttr(attrs, VALIDMAX);
      var lo :- NumAttr(attrs, VALIDMIN);
      Ok(Some(hi - lo))
    else Ok(None)
  }

  /** The float branch: the decimals follow the range tier; the width is
      the longer integer part of the chosen pair plus the point and the
      decimals. */
  function FloatFormat(attrs: map<string, AttrVal>, minn: string, maxx: string): (r: Result<FormatToken>)
    ensures r.Raise? ==> r.exc.NotNumber? || r.exc.UnboundLocal?
    ensures r.Ok? ==> r.value.F? || r.value.G10_2E3?
  {
    var rng :- RangeOf(attrs);
    if rng.None? || rng.value == 0.0 then Ok(G10_2E3)
    else if !(minn in attrs && maxx in attrs) then Raise(UnboundLocal("ln"))
    else
      var hi :- IntOf(attrs, maxx);
      var lo :- IntOf(attrs, minn);
      var ln := if StrIntLen(hi) >= StrIntLen(lo) then StrIntLen(hi) else StrIntLen(lo);
      if rng.value < 0.0 then Ok(G10_2E3)
      else if rng.value <= 11.0 then Ok(F(ln + 4, 3))
      else if rng.value <= 101.0 then Ok(F(ln + 3, 2))
      else if rng.value <= 1000.0 then Ok(F(ln + 2, 1))
      else Ok(G10_2E3)
  }

  /** The integer branch: the chosen MIN/MAX attributes, else the natural
      range, give the width. */
  function IntegerFormat(t: TypeCode, attrs: map<string, AttrVal>, minn: string, maxx: string): (r: Result<FormatToken>)
    requires IsIntegerType(t)
    ensures r.Ok? ==> r.value.I?
    ensures r.Raise? ==> r.exc.NotNumber? || r.exc == MathDomain
  {
    var minval :- BoundAttr(attrs, minn, NaturalMin(t));
    var maxval :- BoundAttr(attrs, maxx, NaturalMax(t));
    var w :- IntegerWidth(minval, maxval);
    Ok(I(w))
  }

  /** The FORMAT the source derives, or the exception it raises. */
  function FormatFor(t: TypeCode, attrs: map<string, AttrVal>, nelems: nat, useScale: bool): (r: Result<FormatToken>)
    ensures r == Raise(UnknownType(t)) <==> t.Other?
    ensures IsTimeType(t) || t == CHAR || t == UCHAR ==> r.Ok? && r.value.A?
    ensures IsIntegerType(t) && r.Ok? ==> r.value.I?
    ensures IsFloatType(t) && r.Ok? ==> r.value.F? || r.value.G10_2E3?
  {
    var minn := if useScale then SCALEMIN else VALIDMIN;
    var maxx := if useScale then SCALEMAX else VALIDMAX;
    if IsIntegerType(t) then IntegerFormat(t, attrs, minn, maxx)
    else if t == TIME_TT2000 then Ok(A(|TT2000_LONGEST|))
    else if t == EPOCH16 then Ok(A(|EPOCH16_LONGEST|))
    else if t == EPOCH then Ok(A(|EPOCH_LONGEST|))
    else if IsFloatType(t) then FloatFormat(attrs, minn, maxx)
    else if t == CHAR || t == UCHAR then Ok(A(nelems))
    else Raise(UnknownType(t))
  }

  /** format(v, use_scaleminmax, dryrun): computes the token and, unless a
      dry run, deletes FORMAT and creates it anew; an exception leaves the
      attributes alone. */
  method ApplyFormat(list: AttrList, t: TypeCode, nelems: nat, useScale: bool, dryrun: bool)
    returns (r: Result<FormatToken>)
    modifies list
    ensures r == FormatFor(t, old(list.entries), nelems, useScale)
    ensures list.entries == if r.Ok? && !dryrun then old(list.entries)[FORMAT := Text(TokenText(r.value))]
                            else old(list.entries)
  {
    r := FormatFor(t, list.entries, nelems, useScale);
    if r.Raise? || dryrun {
      return;
    }
    if FORMAT in list.entries {
      list.Delete(FORMAT);
    }
    list.New(FORMAT, Text(TokenText(r.value)));
  }

  /** With the chosen MIN/MAX pair absent the integer types use their
      natural range. */
  predicate NoChosenPair(attrs: map<string, AttrVal>, useScale: bool) {
    (if useScale then SCALEMIN else VALIDMIN) !in attrs &&
    (if useScale then SCALEMAX else VALIDMAX) !in attrs
  }

  /** With the chosen pair absent an integer type's width is that of its
      natural range. */
  lemma {:induction false} NaturalWidth(t: TypeCode, attrs: map<string, AttrVal>, nelems: nat, useScale: bool)
    requires IsIntegerType(t) && NoChosenPair(attrs, useScale)
    ensures FormatFor(t, attrs, nelems, useScale) == Ok(I(NaturalColumns(t)))
  {
    var minn := if useScale then SCALEMIN else VALIDMIN;
    var maxx := if useScale then SCALEMAX else VALIDMAX;
    var w := NaturalColumns(t);
    NaturalColumnsWidth(t);
    assert BoundAttr(attrs, minn, NaturalMin(t)) == Ok(NaturalMin(t) as real);
    assert BoundAttr(attrs, maxx, NaturalMax(t)) == Ok(NaturalMax(t) as real);
    assert IntegerFormat(t, attrs, minn, maxx) == Ok(I(w));
  }

  /** The widths of the natural ranges: 4 for INT1 and BYTE, 3 for UINT1,
      6 for INT2, 5 for UINT2, 11 for INT4, 10 for UINT4 and 20 for INT8
      (2^63 has 19 digits, plus the sign). */
  function NaturalColumns(t: TypeCode): int
    requires IsIntegerType(t)
  {
    match t
    case INT1 | BYTE => 4
    case UINT1 => 3
    case INT2 => 6
    case UINT2 => 5
    case INT4 => 11
    case UINT4 => 10
    case INT8 => 20
  }

  lemma NaturalColumnsWidth(t: TypeCode)
    requires IsIntegerType(t)
    ensures IntegerWidth(NaturalMin(t) as real, NaturalMax(t) as real) == Ok(NaturalColumns(t))
  {
    WholeWidth(NaturalMin(t), NaturalMax(t));
    match t
    case INT1 | BYTE => assert Digits(128) == 3;
    case UINT1 => assert Digits(255) == 3;
    case INT2 => assert Digits(32768) == 5;
    case UINT2 => assert Digits(65535) == 5;
    case INT4 =>
      Pow10Values();
      DigitsExact(2147483648, 10);
    case UINT4 =>
      Pow10Values();
      DigitsExact(4294967295, 10);
    case INT8 =>
      Pow10Values();
      DigitsExact(9223372036854775808, 19);
  }

  /** Natural ranges give I4 for INT1 and BYTE, I3 for UINT1, I6 for INT2
      and I5 for UINT2. */
  lemma NaturalFormatsShort(attrs: map<string, AttrVal>, nelems: nat, useScale: bool)
    requires NoChosenPair(attrs, useScale)
    ensures FormatFor(INT1, attrs, nelems, useScale) == Ok(I(4))
    ensures FormatFor(BYTE, attrs, nelems, useScale) == Ok(I(4))
    ensures FormatFor(UINT1, attrs, nelems, useScale) == Ok(I(3))
    ensures FormatFor(INT2, attrs, nelems, useScale) == Ok(I(6))
    ensures FormatFor(UINT2, attrs, nelems, useScale) == Ok(I(5))
  {
    NaturalWidth(INT1, attrs, nelems, useScale);
    NaturalWidth(BYTE, attrs, nelems, useScale);
    NaturalWidth(UINT1, attrs, nelems, useScale);
    NaturalWidth(INT2, attrs, nelems, useScale);
    NaturalWidth(UINT2, attrs, nelems, useScale);
  }

  /** Natural ranges give I11 for INT4, I10 for UINT4 and I20 for INT8. */
  lemma NaturalFormatsLong(attrs: map<string, AttrVal>, nelems: nat, useScale: bool)
    requires NoChosenPair(attrs, useScale)
    ensures FormatFor(INT4, attrs, nelems, useScale) == Ok(I(11))
    ensures FormatFor(UINT4, attrs, nelems, useScale) == Ok(I(10))
    ensures FormatFor(INT8, attrs, nelems, useScale) == Ok(I(20))
  {
    NaturalWidth(INT4, attrs, nelems, useScale);
    NaturalWidth(UINT4, attrs, nelems, useScale);
    NaturalWidth(INT8, attrs, nelems, useScale);
  }

  /** An integer type's width fits both bounds of the chosen pair whenever
      they are whole numbers and the minimum does not exceed the maximum. */
  lemma IntegerFormatFits(t: TypeCode, attrs: map<string, AttrVal>, nelems: nat, useScale: bool, minval: int, maxval: int)
    requires IsIntegerType(t)
    requires var minn := if useScale then SCALEMIN else VALIDMIN;
             var maxx := if useScale then SCALEMAX else VALIDMAX;
             BoundAttr(attrs, minn, NaturalMin(t)) == Ok(minval as real) &&
             BoundAttr(attrs, maxx, NaturalMax(t)) == Ok(maxval as real)
    requires minval <= maxval
    ensures FormatFor(t, attrs, nelems, useScale).Ok?
    ensures |IntToString(minval)| <= FormatFor(t, attrs, nelems, useScale).value.columns
    ensures |IntToString(maxval)| <= FormatFor(t, attrs, nelems, useScale).value.columns
  {
    IntegerWidthFits(minval, maxval);
  }

  /** Real bounds on an integer type: VALIDMIN 0.0 and VALIDMAX 100.0 on an
      INT2 give I3, as whole ones would. */
  lemma RealBoundsExample(nelems: nat)
    ensures FormatFor(INT2, map[VALIDMIN := RealVal(0.0), VALIDMAX := RealVal(100.0)], nelems, false) == Ok(I(3))
    ensures TokenText(I(3)) == "I3"
  {
  }

  /** The time types get string widths 29, 36 and 24. */
  lemma TimeFormats(attrs: map<string, AttrVal>, nelems: nat, useScale: bool)
    ensures FormatFor(TIME_TT2000, attrs, nelems, useScale) == Ok(A(29))
    ensures FormatFor(EPOCH16, attrs, nelems, useScale) == Ok(A(36))
    ensures FormatFor(EPOCH, attrs, nelems, useScale) == Ok(A(24))
    ensures FormatFor(CHAR, attrs, nelems, useScale) == Ok(A(nelems))
    ensures FormatFor(UCHAR, attrs, nelems, useScale) == Ok(A(nelems))
  {
  }

  /** The float tiers: a non-zero, non-negative range up to 1000 gives
      Fw.d with d = 3, 2, 1 for ranges up to 11, 101, 1000 and w exactly
      the integer part, the point and the decimals; anything else that
      succeeds is G10.2E3. */
  lemma FloatTiers(t: TypeCode, attrs: map<string, AttrVal>, nelems: nat, useScale: bool)
    requires IsFloatType(t)
    requires FormatFor(t, attrs, nelems, useScale).Ok?
    ensures var r := FormatFor(t, attrs, nelems, useScale).value;
            var rng := RangeOf(attrs).value;
            var minn := if useScale then SCALEMIN else VALIDMIN;
            var maxx := if useScale then SCALEMAX else VALIDMAX;
            RangeOf(attrs).Ok? &&
            (r.F? <==> rng.Some? && 0.0 < rng.value <= 1000.0) &&
            (r.F? ==> minn in attrs && maxx in attrs &&
                      IntOf(attrs, minn).Ok? && IntOf(attrs, maxx).Ok? &&
                      r.decimals == (if rng.value <= 11.0 then 3 else if rng.value <= 101.0 then 2 else 1) &&
                      var hiLen := StrIntLen(IntOf(attrs, maxx).value);
                      var loLen := StrIntLen(IntOf(attrs, minn).value);
                      r.width == (if hiLen >= loLen then hiLen else loLen) + 1 + r.decimals)
  {
  }

  /** A non-zero range with the chosen pair absent reads `ln` unbound. */
  lemma FloatUnboundLn(t: TypeCode, attrs: map<string, AttrVal>, nelems: nat, useScale: bool)
    requires IsFloatType(t)
    requires RangeOf(attrs).Ok? && RangeOf(attrs).value.Some? && RangeOf(attrs).value.value != 0.0
    requires !((if useScale then SCALEMIN else VALIDMIN) in attrs && (if useScale then SCALEMAX else VALIDMAX) in attrs)
    ensures FormatFor(t, attrs, nelems, useScale) == Raise(UnboundLocal("ln"))
  {
  }

  /** VALIDMIN = 0, VALIDMAX = 9 on a float: F5.3, len("9") + 4 wide. */
  lemma FloatExample()
    ensures FormatFor(REAL8, map[VALIDMIN := IntVal(0), VALIDMAX := IntVal(9)], 1, false) == Ok(F(5, 3))
    ensures TokenText(F(5, 3)) == "F5.3"
  {
    assert Trunc(9.0) == 9 && Trunc(0.0) == 0;
  }

  /** The range comes from the SCALE pair (10), the width from the VALID
      pair, whose text "5" int() reads as 5: F5.3. A text that is not a
      whole number raises instead. */
  lemma FloatTextBounds()
    ensures FormatFor(REAL8, map[VALIDMIN := Text("1"), VALIDMAX := Text("5"),
                                 SCALEMIN := RealVal(0.0), SCALEMAX := RealVal(10.0)], 1, false) == Ok(F(5, 3))
    ensures FormatFor(REAL8, map[VALIDMIN := Text("1"), VALIDMAX := Text("5.0"),
                                 SCALEMIN := RealVal(0.0), SCALEMAX := RealVal(10.0)], 1, false) == Raise(NotNumber(VALIDMAX))
  {
  }
}
