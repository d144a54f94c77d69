/** get_min / get_max: the representable range of each CDF type code. */
module Ranges {
  import opened Cdf

  function Pow2(n: nat): (r: nat)
    ensures r >= 1
  {
    if n == 0 then 1 else 2 * Pow2(n - 1)
  }

  /** Signed and unsigned integer type codes by byte size. */
  function SignedOfSize(n: nat): (t: TypeCode)
    requires n in {1, 2, 4, 8}
  {
    if n == 1 then INT1 else if n == 2 then INT2 else if n == 4 then INT4 else INT8
  }

  function UnsignedOfSize(n: nat): (t: TypeCode)
    requires n in {1, 2, 4}
  {
    if n == 1 then UINT1 else if n == 2 then UINT2 else UINT4
  }

  /** Types that neither table knows: EPOCH16 and codes outside CDF. */
  predicate Unranged(t: TypeCode) {
    t == EPOCH16 || t.Other?
  }

  /** 3.4E38, the REAL4 bound the source uses. */
  const REAL4_MAX: real := 340000000000000000000000000000000000000.0

  function GetMax(t: TypeCode): (r: Result<Bound>)
    ensures r.Raise? <==> Unranged(t)
    ensures r.Raise? ==> r.exc == UnknownType(t)
  {
    match t
    case BYTE | INT1 | CHAR => Ok(Fin(127.0))
    case UINT1 | UCHAR => Ok(Fin(255.0))
    case INT2 => Ok(Fin(32767.0))
    case UINT2 => Ok(Fin(65535.0))
    case INT4 => Ok(Fin(2147483647.0))
    case UINT4 => Ok(Fin(4294967295.0))
    case INT8 => Ok(Fin(9223372036854775807.0))
    case REAL4 | FLOAT => Ok(Fin(REAL4_MAX))
    case REAL8 | DOUBLE | EPOCH => Ok(PosInf)
    case TIME_TT2000 => Ok(Fin(9223372036854775807.0))
    case EPOCH16 | Other(_) => Raise(UnknownType(t))
  }

  function GetMin(t: TypeCode): (r: Result<Bound>)
    ensures r.Raise? <==> Unranged(t)
    ensures r.Raise? ==> r.exc == UnknownType(t)
  {
    match t
    case BYTE | INT1 | CHAR => Ok(Fin(-128.0))
    case UINT1 | UINT2 | UINT4 | UCHAR => Ok(Fin(0.0))
    case INT2 => Ok(Fin(-32768.0))
    case INT4 => Ok(Fin(-2147483648.0))
    case INT8 => Ok(Fin(-9223372036854775808.0))
    case REAL4 | FLOAT => Ok(Fin(-REAL4_MAX))
    case REAL8 | DOUBLE | EPOCH => Ok(NegInf)
    case TIME_TT2000 => Ok(Fin(-9223372036854775808.0))
    case EPOCH16 | Other(_) => Raise(UnknownType(t))
  }

  predicate BoundLe(a: Bound, b: Bound) {
    a == NegInf || b == PosInf || (a.Fin? && b.Fin? && a.x <= b.x)
  }

  /** Wherever both tables answer, the minimum does not exceed the maximum. */
  lemma MinLeMax(t: TypeCode)
    requires GetMin(t).Ok? || GetMax(t).Ok?
    ensures GetMin(t).Ok? && GetMax(t).Ok?
    ensures BoundLe(GetMin(t).value, GetMax(t).value)
  {
  }

  /** Signed n-byte integers span -2^(8n-1) .. 2^(8n-1)-1. */
  lemma {:induction false} SignedBounds(n: nat)
    requires n in {1, 2, 4, 8}
    ensures GetMin(SignedOfSize(n)) == Ok(Fin(-(Pow2(8 * n - 1) as real)))
    ensures GetMax(SignedOfSize(n)) == Ok(Fin((Pow2(8 * n - 1) - 1) as real))
  {
    if n == 8 {
      assert Pow2(63) == 9223372036854775808 by { Pow2Of32(); }
    } else if n == 4 {
      assert Pow2(31) == 2147483648 by { Pow2Of32(); }
    } else if n == 2 {
      assert Pow2(15) == 32768;
    } else {
      assert Pow2(7) == 128;
    }
  }

  /** Unsigned n-byte integers span 0 .. 2^(8n)-1. */
  lemma {:induction false} UnsignedBounds(n: nat)
    requires n in {1, 2, 4}
    ensures GetMin(UnsignedOfSize(n)) == Ok(Fin(0.0))
    ensures GetMax(UnsignedOfSize(n)) == Ok(Fin((Pow2(8 * n) - 1) as real))
  {
    if n == 4 {
      assert Pow2(32) == 4294967296 by { Pow2Of32(); }
    } else if n == 2 {
      assert Pow2(16) == 65536 by { Pow2Of32(); }
    } else {
      assert Pow2(8) == 256;
    }
  }

  lemma {:induction false} Pow2Add(a: nat, b: nat)
    ensures Pow2(a + b) == Pow2(a) * Pow2(b)
  {
    if a > 0 {
      Pow2Add(a - 1, b);
    }
  }

  lemma Pow2Of32()
    ensures Pow2(16) == 65536
    ensures Pow2(31) == 2147483648
    ensures Pow2(32) == 4294967296
    ensures Pow2(63) == 9223372036854775808
  {
    assert Pow2(8) == 256;
    Pow2Add(8, 8);
    Pow2Add(16, 15);
    Pow2Add(16, 16);
    Pow2Add(32, 31);
  }

  /** The aliases share their base type's range: BYTE and CHAR with INT1,
      UCHAR with UINT1, FLOAT with REAL4, DOUBLE and EPOCH with REAL8,
      TIME_TT2000 with INT8. */
  lemma AliasRanges()
    ensures GetMin(BYTE) == GetMin(INT1) == GetMin(CHAR) && GetMax(BYTE) == GetMax(INT1) == GetMax(CHAR)
    ensures GetMin(UCHAR) == GetMin(UINT1) && GetMax(UCHAR) == GetMax(UINT1)
    ensures GetMin(FLOAT) == GetMin(REAL4) && GetMax(FLOAT) == GetMax(REAL4)
    ensures GetMin(DOUBLE) == GetMin(REAL8) == GetMin(EPOCH) && GetMax(DOUBLE) == GetMax(REAL8) == GetMax(EPOCH)
    ensures GetMin(TIME_TT2000) == GetMin(INT8) && GetMax(TIME_TT2000) == GetMax(INT8)
  {
    AliasMins();
    AliasMaxes();
  }

  lemma AliasMins()
    ensures GetMin(BYTE) == GetMin(INT1) == GetMin(CHAR) && GetMin(UCHAR) == GetMin(UINT1)
    ensures GetMin(FLOAT) == GetMin(REAL4) && GetMin(DOUBLE) == GetMin(REAL8) == GetMin(EPOCH)
    ensures GetMin(TIME_TT2000) == GetMin(INT8)
  {
  }

  lemma AliasMaxes()
    ensures GetMax(BYTE) == GetMax(INT1) == GetMax(CHAR) && GetMax(UCHAR) == GetMax(UINT1)
    ensures GetMax(FLOAT) == GetMax(REAL4) && GetMax(DOUBLE) == GetMax(REAL8) == GetMax(EPOCH)
    ensures GetMax(TIME_TT2000) == GetMax(INT8)
  {
  }
}
