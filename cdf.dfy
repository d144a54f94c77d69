/** The slice of a CDF file that the ISTP checks read: type codes, attribute
    values, variables, files, the exceptions the checks can raise, and the
    messages they report. */
module Cdf {

  /** CDF data type codes. `Other` stands for any code outside the CDF set. */
  datatype TypeCode =
    | INT1 | INT2 | INT4 | INT8
    | UINT1 | UINT2 | UINT4
    | REAL4 | REAL8 | FLOAT | DOUBLE
    | EPOCH | EPOCH16 | TIME_TT2000
    | BYTE | CHAR | UCHAR
    | Other(code: int)

  /** The three time representations. */
  predicate IsTimeType(t: TypeCode) {
    t == EPOCH || t == EPOCH16 || t == TIME_TT2000
  }

  /** Attribute values: integers, floats (exact reals here), text, and the
      two-double EPOCH16 pair. */
  datatype AttrVal =
    | IntVal(i: int)
    | RealVal(r: real)
    | Text(s: string)
    | RealPair(hi: real, lo: real)

  datatype Option<T> = None | Some(value: T)

  /** No element occurs twice. */
  predicate Distinct<T(==)>(s: seq<T>) {
    forall i, j :: 0 <= i < j < |s| ==> s[i] != s[j]
  }

  /** The value of a numeric attribute; None for text and pairs. */
  function Numeric(a: AttrVal): (r: Option<real>)
    ensures r.Some? <==> (a.IntVal? || a.RealVal?)
  {
    match a
    case IntVal(i) => Some(i as real)
    case RealVal(x) => Some(x)
    case _ => None
  }

  /** Exceptions raised by the source instead of returning a message list. */
  datatype Exception =
    | UnknownType(t: TypeCode)      // ValueError from get_min/get_max/format
    | FillTypeKeyError(t: TypeCode)  // KeyError on the fill-value table
    | MissingKey(key: string)        // KeyError on an absent attribute
    | NotNumber(key: string)         // TypeError: attribute is not a number
    | NotText(key: string)           // TypeError: slicing a non-text attribute
    | IndexError                     // shape index out of range
    | UnboundLocal(name: string)     // local variable read before assignment
    | MathDomain                     // math.log10 of a negative number

  datatype Result<T> = Ok(value: T) | Raise(exc: Exception) {
    predicate IsFailure() { Raise? }
    function PropagateFailure<U>(): Result<U> requires Raise? { Raise(exc) }
    function Extract(): T requires Ok? { value }
  }

  /** Outcome of a call that returns nothing in the source. */
  datatype Outcome = Done | Raised(exc: Exception)

  /** One variable of a CDF, seen through the accessors the checks use.
      `shape` includes the record dimension when `rv` holds; `nrecs` is
      `len(v)`; `raw` is the flattened unscaled data; `ticks` and `days`
      are the decoded timestamps of a time variable, as ordered integers
      and as YYYYMMDD day strings; `attrOrder` is the order the variable's
      attributes are listed in. */
  datatype Var = Var(
    name: string,
    cdfType: TypeCode,
    shape: seq<nat>,
    rv: bool,
    attrs: map<string, AttrVal>,
    attrOrder: seq<string>,
    nrecs: nat,
    raw: seq<real>,
    ticks: seq<int>,
    days: seq<string>)

  /** A CDF: variable names in file order, the name-to-variable lookup, and
      the first entry of each global attribute. */
  datatype File = File(
    names: seq<string>,
    vars: map<string, Var>,
    gattrs: map<string, string>)

  /** Every listed name can be looked up. */
  predicate WellFormed(f: File) {
    forall k :: 0 <= k < |f.names| ==> f.names[k] in f.vars
  }

  /** `value in cdf_file` for an attribute value naming a variable. */
  predicate Resolves(f: File, a: AttrVal) {
    a.Text? && a.s in f.vars
  }

  /** A representable bound; the source's 1E4932 overflows to infinity. */
  datatype Bound = Fin(x: real) | PosInf | NegInf

  predicate Below(x: real, b: Bound) {
    match b
    case Fin(y) => x < y
    case PosInf => true
    case NegInf => false
  }

  predicate Above(x: real, b: Bound) {
    match b
    case Fin(y) => x > y
    case PosInf => false
    case NegInf => true
  }

  /** One constructor per message template of the checks. */
  datatype Message =
    // VariableChecks.depends
    | DependMissing(attr: string, ref: AttrVal)
    // VariableChecks.depsize
    | ShapeZeroWithDepend
    | ThreeLayers
    | Dep0NotEpoch
    | ComplicatedDependency
    | DimSizeMismatch(dim: nat, target: nat, depidx: nat, dep: string, actual: nat)
    // VariableChecks.recordcount
    | RecordCountMismatch(count: nat, dep0: string, depCount: nat)
    // VariableChecks.validrange / validscale
    | UnderValidMin(values: seq<real>, indices: seq<nat>, bound: real)
    | OverValidMax(values: seq<real>, indices: seq<nat>, bound: real)
    | OutsideTypeRange(attr: string, value: real, lo: Bound, hi: Bound, varName: string)
    | MinExceedsMax(minAttr: string, maxAttr: string, varName: string)
    // VariableChecks.validplottype
    | OneDimDisplay(varName: string, display: AttrVal)
    | MultiDimDisplay(varName: string, display: AttrVal)
    // VariableChecks.fieldnam
    | NoFieldnam(varName: string)
    | FieldnamMismatch(varName: string, fieldnam: AttrVal)
    // FileChecks.filename
    | NoGlobalAttr(attr: string)
    | LogicalSourceMismatch(source: string, fname: string)
    | LogicalFileIdMismatch(fileId: string, fname: string)
    // FileChecks.time_monoton
    | NonMonotonic(varName: string, records: seq<nat>)
    // FileChecks.times
    | CannotParseDate(fname: string)
    | MultipleDays(varName: string, days: seq<string>)
    | DateMismatch(varName: string, day: string, fname: string)
    // FileChecks.all: "<name>: <message>"
    | Prefixed(varName: string, inner: Message)

  /** The attribute list of one variable, which fillval and format change in
      place (delete, then create). */
  class AttrList {
    var entries: map<string, AttrVal>

    constructor (m: map<string, AttrVal>)
      ensures entries == m
    {
      entries := m;
    }

    method Delete(key: string)
      modifies this
      ensures entries == old(entries) - {key}
    {
      entries := entries - {key};
    }

    method New(key: string, value: AttrVal)
      modifies this
      ensures entries == old(entries)[key := value]
    {
      entries := entries[key := value];
    }
  }
}
