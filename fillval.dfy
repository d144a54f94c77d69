/** fillval: the ISTP fill sentinel of each type, written over FILLVAL. */
module FillVal {
  import opened Cdf
  import opened Ranges

  const FILLVAL := "FILLVAL"

  /** -1e31, the float fill. */
  const REAL_FILL: real := -10000000000000000000000000000000.0

  /** The ISTP fill table, written out: None where the source's table has
      no entry (UINT8 is not a CDF type, so `Other` covers it). */
  function FillValue(t: TypeCode): (r: Option<AttrVal>)
    ensures r.None? <==> t.Other?
  {
    match t
    case INT1 | BYTE => Some(IntVal(-128))
    case INT2 => Some(IntVal(-32768))
    case INT4 => Some(IntVal(-2147483648))
    case INT8 | TIME_TT2000 => Some(IntVal(-9223372036854775808))
    case UINT1 => Some(IntVal(255))
    case UINT2 => Some(IntVal(65535))
    case UINT4 => Some(IntVal(4294967295))
    case REAL4 | FLOAT | REAL8 | DOUBLE | EPOCH => Some(RealVal(REAL_FILL))
    case EPOCH16 => Some(RealPair(REAL_FILL, REAL_FILL))
    case CHAR | UCHAR => Some(Text(" "))
    case Other(_) => None
  }

  /** Byte size of a sized integer type. */
  predicate IsSizedInt(t: TypeCode) {
    t in {INT1, INT2, INT4, INT8, UINT1, UINT2, UINT4}
  }

  function SizeRank(t: TypeCode): nat
    requires IsSizedInt(t)
  {
    if t in {INT1, UINT1} then 0 else if t in {INT2, UINT2} then 1 else if t in {INT4, UINT4} then 2 else 3
  }

  /** Types the table gets directly, before the aliases are copied in. */
  predicate IsBaseFillType(t: TypeCode) {
    IsSizedInt(t) || t in {EPOCH16, REAL8, REAL4, CHAR, UCHAR}
  }

  /** (alias, base) pairs whose fill is copied from the base. */
  const Aliases: seq<(TypeCode, TypeCode)> :=
    [(TIME_TT2000, INT8), (EPOCH, REAL8), (BYTE, INT1), (FLOAT, REAL4), (DOUBLE, REAL8)]

  /** The alias types copied in by the first k pairs. */
  function AliasKeys(k: nat): set<TypeCode>
    requires k <= |Aliases|
  {
    if k == 0 then {} else AliasKeys(k - 1) + {Aliases[k - 1].0}
  }

  /** The integer part of `fillvals`: -2^(8i-1) for INTi, 2^(8i)-1 for UINTi. */
  method SizedFills() returns (table: map<TypeCode, AttrVal>)
    ensures forall t :: t in table <==> IsSizedInt(t)
    ensures forall t :: t in table ==> FillValue(t) == Some(table[t])
  {
    table := map[];
    var sizes := [1, 2, 4, 8];
    for k := 0 to 4
      invariant forall t :: t in table <==> IsSizedInt(t) && SizeRank(t) < k
      invariant forall t :: t in table ==> FillValue(t) == Some(table[t])
    {
      var i := sizes[k];
      FillIsTypeExtreme(i);
      table := table[SignedOfSize(i) := IntVal(-(Pow2(8 * i - 1) as int))];
      if i == 8 {
        continue;
      }
      table := table[UnsignedOfSize(i) := IntVal(Pow2(8 * i) - 1)];
    }
  }

  /** The table before the aliases: the sized integers, then the constant
      entries for EPOCH16, the floats and the characters. */
  method BaseFills() returns (table: map<TypeCode, AttrVal>)
    ensures forall t :: t in table <==> IsBaseFillType(t)
    ensures forall t :: t in table ==> FillValue(t) == Some(table[t])
  {
    table := SizedFills();
    table := table[EPOCH16 := RealPair(REAL_FILL, REAL_FILL)];
    table := table[REAL8 := RealVal(REAL_FILL)];
    table := table[REAL4 := RealVal(REAL_FILL)];
    table := table[CHAR := Text(" ")];
    table := table[UCHAR := Text(" ")];
  }

  /** Builds the `fillvals` table the way the source does: powers of two for
      the sized integers, constants for the rest, then the aliases. The
      result is exactly the written-out table. */
  method BuildFillTable() returns (table: map<TypeCode, AttrVal>)
    ensures forall t :: t in table <==> FillValue(t).Some?
    ensures forall t :: t in table ==> table[t] == FillValue(t).value
  {
    table := BaseFills();
    AliasPairs();
    for k := 0 to |Aliases|
      invariant forall t :: t in table <==> IsBaseFillType(t) || t in AliasKeys(k)
      invariant forall t :: t in table ==> FillValue(t) == Some(table[t])
    {
      var (alias, base) := Aliases[k];
      table := table[alias := table[base]];
    }
    forall t ensures t in table <==> FillValue(t).Some? {
      FillDomain(t);
    }
  }

  /** Each alias is copied from a base type with the same fill. */
  lemma AliasPairs()
    ensures forall j :: 0 <= j < |Aliases| ==>
      IsBaseFillType(Aliases[j].1) && FillValue(Aliases[j].0) == FillValue(Aliases[j].1)
  {
  }

  /** The table has an entry exactly for the base and alias types. */
  lemma FillDomain(t: TypeCode)
    ensures FillValue(t).Some? <==> IsBaseFillType(t) || t in AliasKeys(|Aliases|)
  {
    assert |Aliases| == 5;
    assert AliasKeys(5) == {TIME_TT2000, EPOCH, BYTE, FLOAT, DOUBLE};
  }

  /** The attributes after fillval: FILLVAL replaced by the table entry, or,
      for a type the table lacks, deleted before the lookup raises. */
  function FillValAttrs(attrs: map<string, AttrVal>, t: TypeCode): (r: map<string, AttrVal>)
    ensures FillValue(t).Some? ==> FILLVAL in r && r[FILLVAL] == FillValue(t).value
    ensures FillValue(t).None? ==> FILLVAL !in r
    ensures forall k :: k != FILLVAL ==> (k in r <==> k in attrs)
    ensures forall k :: k != FILLVAL && k in r ==> r[k] == attrs[k]
  {
    match FillValue(t)
    case Some(fill) => attrs[FILLVAL := fill]
    case None => attrs - {FILLVAL}
  }

  /** fillval(v): deletes any FILLVAL, then creates it from the table. */
  method ApplyFillVal(list: AttrList, t: TypeCode) returns (o: Outcome)
    modifies list
    ensures list.entries == FillValAttrs(old(list.entries), t)
    ensures o == if FillValue(t).Some? then Done else Raised(FillTypeKeyError(t))
  {
    var table := BuildFillTable();
    if FILLVAL in list.entries {
      list.Delete(FILLVAL);
    }
    if t !in table {
      return Raised(FillTypeKeyError(t));
    }
    list.New(FILLVAL, table[t]);
    o := Done;
  }

  /** Applying fillval twice leaves what applying it once leaves. */
  lemma FillValIdempotent(attrs: map<string, AttrVal>, t: TypeCode)
    ensures FillValAttrs(FillValAttrs(attrs, t), t) == FillValAttrs(attrs, t)
  {
  }

  /** Signed fills are the type's minimum, unsigned fills its maximum. */
  lemma {:induction false} FillIsTypeExtreme(n: nat)
    requires n in {1, 2, 4, 8}
    ensures FillValue(SignedOfSize(n)) == Some(IntVal(-(Pow2(8 * n - 1) as int)))
    ensures GetMin(SignedOfSize(n)) == Ok(Fin(FillValue(SignedOfSize(n)).value.i as real))
    ensures n != 8 ==> FillValue(UnsignedOfSize(n)) == Some(IntVal(Pow2(8 * n) - 1))
    ensures n != 8 ==> GetMax(UnsignedOfSize(n)) == Ok(Fin(FillValue(UnsignedOfSize(n)).value.i as real))
  {
    SignedBounds(n);
    if n != 8 {
      UnsignedBounds(n);
    }
  }
}
