/** VariableChecks: the per-variable ISTP checks. Each returns the list of
    messages it finds; `all` runs them in a fixed order and concatenates. */
module VariableChecks {
  import opened Cdf
  import opened Strings
  import opened Ranges
  import opened DependShapes
  import opened Format

  // ---------------------------------------------------------------- depends

  /** Attribute names that point at another variable. */
  predicate IsReference(a: string) {
    StartsWith(a, "DEPEND_") || StartsWith(a, "LABL_PTR_")
  }

  /** Attribute a of v is a reference whose value names no variable. */
  predicate Dangles(v: Var, f: File, a: string) {
    a in v.attrs && IsReference(a) && !Resolves(f, v.attrs[a])
  }

  /** The keys of v.attrs, each once, in the order the attribute list is
      iterated. */
  predicate Listed(v: Var) {
    Distinct(v.attrOrder) &&
    (forall a :: a in v.attrs ==> a in v.attrOrder) &&
    (forall k :: 0 <= k < |v.attrOrder| ==> v.attrOrder[k] in v.attrs)
  }

  /** The comprehension of depends over the attribute names `keys`. */
  function DependsOver(v: Var, f: File, keys: seq<string>): (r: seq<Message>)
    ensures |r| <= |keys|
    ensures forall m :: m in r ==>
      m.DependMissing? && m.attr in keys && Dangles(v, f, m.attr) && m.ref == v.attrs[m.attr]
    ensures forall k :: 0 <= k < |keys| && Dangles(v, f, keys[k]) ==>
      DependMissing(keys[k], v.attrs[keys[k]]) in r
    ensures Distinct(keys) ==> forall i, j :: 0 <= i < j < |r| ==> r[i].attr != r[j].attr
  {
    if keys == [] then []
    else
      var init := keys[..|keys| - 1];
      var a := keys[|keys| - 1];
      var r := DependsOver(v, f, init);
      assert forall k :: 0 <= k < |init| ==> init[k] == keys[k];
      if Dangles(v, f, a) then r + [DependMissing(a, v.attrs[a])] else r
  }

  /** One "<attr> variable <value> missing" per dangling DEPEND_ or
      LABL_PTR_ attribute. */
  function Depends(v: Var, f: File): (r: seq<Message>)
    ensures forall m :: m in r ==> m.DependMissing? && Dangles(v, f, m.attr) && m.ref == v.attrs[m.attr]
  {
    DependsOver(v, f, v.attrOrder)
  }

  /** Exactly one message per dangling reference, and none otherwise. */
  lemma DependsExact(v: Var, f: File, a: string)
    requires Listed(v)
    ensures Dangles(v, f, a) <==> exists m :: m in Depends(v, f) && m.attr == a
    ensures forall i, j :: 0 <= i < j < |Depends(v, f)| ==> Depends(v, f)[i].attr != Depends(v, f)[j].attr
  {
    if Dangles(v, f, a) {
      var k :| 0 <= k < |v.attrOrder| && v.attrOrder[k] == a;
      assert DependMissing(a, v.attrs[a]) in Depends(v, f);
    }
  }

  /** depends is silent exactly when every reference resolves. */
  lemma DependsEmpty(v: Var, f: File)
    requires Listed(v)
    ensures Depends(v, f) == [] <==> forall a :: a in v.attrs && IsReference(a) ==> Resolves(f, v.attrs[a])
  {
    var r := Depends(v, f);
    if r != [] {
      assert r[0] in r && Dangles(v, f, r[0].attr);
    } else {
      forall a | a in v.attrs && IsReference(a) ensures Resolves(f, v.attrs[a]) {
        DependsExact(v, f, a);
      }
    }
  }

  // ---------------------------------------------------------------- depsize

  /** int(v.rv()): the record dimension leads the shape. */
  function RvIndex(v: Var): nat {
    if v.rv then 1 else 0
  }

  function DependKey(n: nat): string {
    "DEPEND_" + NatToString(n)
  }

  /** The closing comparison of one dimension against its dependency. */
  function Mismatch(i: nat, target: nat, depidx: nat, d: string, actual: nat): seq<Message> {
    if target != actual then [DimSizeMismatch(i, target, depidx, d, actual)] else []
  }

  /** What is left of a dependent dependency's shape after the removal
      passes: exactly one size is compared, anything else is too complicated. */
  function Leftover(actual: seq<nat>, i: nat, target: nat, depidx: nat, d: string): seq<Message> {
    if |actual| != 1 then [ComplicatedDependency] else Mismatch(i, target, depidx, d, actual[0])
  }

  /** One iteration of depsize's loop: dimension i of v against
      DEPEND_(i+1-rv). */
  function DimCheck(v: Var, f: File, i: nat): (r: Result<seq<Message>>)
    requires RvIndex(v) <= i < |v.shape|
    ensures r.Ok? ==> |r.value| <= 1 && ShapeZeroWithDepend !in r.value
    ensures r.Raise? ==> r.exc == NotText("DEPEND_0") || r.exc == IndexError
  {
    var depidx := i + 1 - RvIndex(v);
    var target := v.shape[i];
    var key := DependKey(depidx);
    if key !in v.attrs || !Resolves(f, v.attrs[key]) then Ok([])
    else
      var d := v.attrs[key].s;
      var dv := f.vars[d];
      if "DEPEND_2" in dv.attrs then Ok([ThreeLayers])
      else if "DEPEND_1" in dv.attrs then
        var dd := dv.attrs["DEPEND_1"];
        if !Resolves(f, dd) then Ok([])
        else
          var actual := RemovalPass(dv.shape, f.vars[dd.s].shape);
          if "DEPEND_0" in dv.attrs then
            var d0 := dv.attrs["DEPEND_0"];
            if !d0.Text? then Raise(NotText("DEPEND_0"))
            else if !StartsWith(d0.s, "Epoch") then Ok([Dep0NotEpoch])
            else if d0.s !in f.vars then Ok([])
            else Ok(Leftover(RemovalPass(actual, f.vars[d0.s].shape), i, target, depidx, d))
          else Ok(Leftover(actual, i, target, depidx, d))
      else if RvIndex(dv) >= |dv.shape| then Raise(IndexError)
      else Ok(Mismatch(i, target, depidx, d, dv.shape[RvIndex(dv)]))
  }

  /** The message added before the loop for a one-dimensional shape (0,)
      that nonetheless carries DEPEND_1 or DEPEND_2. */
  function ShapeZeroPrefix(v: Var): seq<Message> {
    if v.shape == [0] && ("DEPEND_1" in v.attrs || "DEPEND_2" in v.attrs) then [ShapeZeroWithDepend]
    else []
  }

  /** The loop's messages for dimensions rv .. n-1; an exception in any
      dimension ends the check. */
  function DimsUpTo(v: Var, f: File, n: nat): (r: Result<seq<Message>>)
    requires n <= |v.shape| || n <= RvIndex(v)
    ensures r.Ok? ==> |r.value| <= n && ShapeZeroWithDepend !in r.value
    ensures r.Raise? ==> r.exc == NotText("DEPEND_0") || r.exc == IndexError
  {
    if n <= RvIndex(v) then Ok([])
    else
      var found :- DimsUpTo(v, f, n - 1);
      var m :- DimCheck(v, f, n - 1);
      Ok(found + m)
  }

  /** depsize: the shape-(0,) message, then the loop's; at most one message
      per dimension besides it. */
  function DepSizeSpec(v: Var, f: File): (r: Result<seq<Message>>)
    ensures r.Ok? ==> |r.value| <= 1 + |v.shape|
    ensures r.Raise? ==> r.exc == NotText("DEPEND_0") || r.exc == IndexError
  {
    var found :- DimsUpTo(v, f, |v.shape|);
    Ok(ShapeZeroPrefix(v) + found)
  }

  /** One dimension, step by step, with the list-removal passes run as
      loops. */
  method DimStep(v: Var, f: File, i: nat) returns (r: Result<seq<Message>>)
    requires RvIndex(v) <= i < |v.shape|
    ensures r == DimCheck(v, f, i)
  {
    var depidx := i + 1 - RvIndex(v);
    var target := v.shape[i];
    var key := DependKey(depidx);
    if key !in v.attrs || !Resolves(f, v.attrs[key]) {
      return Ok([]);
    }
    var d := v.attrs[key].s;
    var dv := f.vars[d];
    if "DEPEND_2" in dv.attrs {
      return Ok([ThreeLayers]);
    }
    if "DEPEND_1" in dv.attrs {
      var dd := dv.attrs["DEPEND_1"];
      if !Resolves(f, dd) {
        return Ok([]);
      }
      var actual := RemoveShared(dv.shape, f.vars[dd.s].shape);
      if "DEPEND_0" in dv.attrs {
        var d0 := dv.attrs["DEPEND_0"];
        if !d0.Text? {
          return Raise(NotText("DEPEND_0"));
        }
        if !StartsWith(d0.s, "Epoch") {
          return Ok([Dep0NotEpoch]);
        }
        if d0.s !in f.vars {
          return Ok([]);
        }
        actual := RemoveShared(actual, f.vars[d0.s].shape);
      }
      return Ok(Leftover(actual, i, target, depidx, d));
    }
    var k := RvIndex(dv);
    if k >= |dv.shape| {
      return Raise(IndexError);
    }
    return Ok(Mismatch(i, target, depidx, d, dv.shape[k]));
  }

  /** depsize: the shape-(0,) message, then one pass over the dimensions. */
  method DepSize(v: Var, f: File) returns (r: Result<seq<Message>>)
    ensures r == DepSizeSpec(v, f)
  {
    var errs: seq<Message> := [];
    if v.shape == [0] && ("DEPEND_1" in v.attrs || "DEPEND_2" in v.attrs) {
      errs := errs + [ShapeZeroWithDepend];
    }
    assert errs == ShapeZeroPrefix(v);
    var found :- DimsLoop(v, f);
    return Ok(errs + found);
  }

  /** depsize's loop over the dimensions rv .. len(shape)-1. */
  method DimsLoop(v: Var, f: File) returns (r: Result<seq<Message>>)
    ensures r == DimsUpTo(v, f, |v.shape|)
  {
    var found: seq<Message> := [];
    var i := RvIndex(v);
    while i < |v.shape|
      invariant RvIndex(v) <= i && (i <= |v.shape| || i == RvIndex(v))
      invariant DimsUpTo(v, f, i) == Ok(found)
    {
      var m := DimStep(v, f, i);
      DimsAdvance(v, f, i, m);
      if m.Raise? {
        return Raise(m.exc);
      }
      found := found + m.value;
      i := i + 1;
    }
    if i != |v.shape| {
      assert DimsUpTo(v, f, |v.shape|) == Ok([]);
    }
    return Ok(found);
  }

  /** One dimension more: its exception ends the whole loop, or its
      messages follow those of the dimensions before it. */
  lemma DimsAdvance(v: Var, f: File, i: nat, m: Result<seq<Message>>)
    requires RvIndex(v) <= i < |v.shape| && DimsUpTo(v, f, i).Ok? && m == DimCheck(v, f, i)
    ensures m.Raise? ==> DimsUpTo(v, f, |v.shape|) == Raise(m.exc)
    ensures m.Ok? ==> DimsUpTo(v, f, i + 1) == Ok(DimsUpTo(v, f, i).value + m.value)
  {
    DimsStep(v, f, i);
    if m.Raise? {
      RaiseSticks(v, f, i + 1, |v.shape|);
    }
  }

  lemma DimsStep(v: Var, f: File, i: nat)
    requires RvIndex(v) <= i < |v.shape|
    ensures DimsUpTo(v, f, i + 1) ==
      if DimsUpTo(v, f, i).Raise? then DimsUpTo(v, f, i)
      else if DimCheck(v, f, i).Raise? then Raise(DimCheck(v, f, i).exc)
      else Ok(DimsUpTo(v, f, i).value + DimCheck(v, f, i).value)
  {
  }

  /** Once a dimension raises, the whole loop raises the same exception. */
  lemma {:induction false} RaiseSticks(v: Var, f: File, n: nat, m: nat)
    requires RvIndex(v) < n <= m <= |v.shape| && DimsUpTo(v, f, n).Raise?
    ensures DimsUpTo(v, f, m) == DimsUpTo(v, f, n)
    decreases m
  {
    if m > n {
      RaiseSticks(v, f, n, m - 1);
    }
  }

  /** The shape-(0,) message appears exactly once, at the head, when the
      condition holds, and never otherwise; each dimension adds at most one
      message. */
  lemma DepSizeShapeZero(v: Var, f: File)
    requires DepSizeSpec(v, f).Ok?
    ensures var ms := DepSizeSpec(v, f).value;
      |ms| <= 1 + |v.shape| &&
      (ShapeZeroWithDepend in ms <==> v.shape == [0] && ("DEPEND_1" in v.attrs || "DEPEND_2" in v.attrs)) &&
      (ShapeZeroWithDepend in ms ==> ms[0] == ShapeZeroWithDepend && ShapeZeroWithDepend !in ms[1..])
  {
    var found := DimsUpTo(v, f, |v.shape|).value;
    var ms := DepSizeSpec(v, f).value;
    assert ms == ShapeZeroPrefix(v) + found;
    if ShapeZeroPrefix(v) != [] {
      assert ms[1..] == found;
    }
  }

  /** The dependency variable named by DEPEND_(i+1-rv), when it resolves. */
  predicate DependsOn(v: Var, f: File, i: nat, d: string)
    requires RvIndex(v) <= i
  {
    DependKey(i + 1 - RvIndex(v)) in v.attrs && v.attrs[DependKey(i + 1 - RvIndex(v))] == Text(d) && d in f.vars
  }

  /** A plain dependency: dimension i is compared with the dependency's first
      non-record dimension, and only a mismatch is reported. */
  lemma DimDirect(v: Var, f: File, i: nat, d: string)
    requires RvIndex(v) <= i < |v.shape| && DependsOn(v, f, i, d)
    requires "DEPEND_2" !in f.vars[d].attrs && "DEPEND_1" !in f.vars[d].attrs
    ensures RvIndex(f.vars[d]) < |f.vars[d].shape| ==>
      (DimCheck(v, f, i) == Ok([]) <==> v.shape[i] == f.vars[d].shape[RvIndex(f.vars[d])])
    ensures RvIndex(f.vars[d]) < |f.vars[d].shape| && DimCheck(v, f, i) != Ok([]) ==>
      DimCheck(v, f, i) == Ok([DimSizeMismatch(i, v.shape[i], i + 1 - RvIndex(v), d, f.vars[d].shape[RvIndex(f.vars[d])])])
    ensures RvIndex(f.vars[d]) >= |f.vars[d].shape| ==> DimCheck(v, f, i) == Raise(IndexError)
  {
  }

  /** A dependency that itself depends on a variable dd (and not on DEPEND_0
      or DEPEND_2): with distinct sizes and no two shared sizes adjacent, the
      sizes of dd are taken out and the single one left is compared. */
  lemma DimTwoLevel(v: Var, f: File, i: nat, d: string, dd: string)
    requires RvIndex(v) <= i < |v.shape| && DependsOn(v, f, i, d)
    requires "DEPEND_2" !in f.vars[d].attrs && "DEPEND_0" !in f.vars[d].attrs
    requires "DEPEND_1" in f.vars[d].attrs && f.vars[d].attrs["DEPEND_1"] == Text(dd) && dd in f.vars
    requires Distinct(f.vars[d].shape) && NoAdjacentShared(f.vars[d].shape, f.vars[dd].shape)
    ensures DimCheck(v, f, i) == Ok(Leftover(Without(f.vars[d].shape, f.vars[dd].shape), i, v.shape[i], i + 1 - RvIndex(v), d))
  {
    RemovalPassFilters(f.vars[d].shape, f.vars[dd].shape);
  }

  /** With a DEPEND_0 that starts with Epoch and resolves: the sizes of
      the sub-dependency are removed first, then those of the record
      variable, each by one pass over the remaining list. */
  lemma DimEpochLeftover(v: Var, f: File, i: nat, d: string, dd: string, d0: string)
    requires RvIndex(v) <= i < |v.shape| && DependsOn(v, f, i, d)
    requires "DEPEND_2" !in f.vars[d].attrs
    requires "DEPEND_1" in f.vars[d].attrs && f.vars[d].attrs["DEPEND_1"] == Text(dd) && dd in f.vars
    requires "DEPEND_0" in f.vars[d].attrs && f.vars[d].attrs["DEPEND_0"] == Text(d0)
    requires StartsWith(d0, "Epoch") && d0 in f.vars
    ensures DimCheck(v, f, i) ==
      Ok(Leftover(RemovalPass(RemovalPass(f.vars[d].shape, f.vars[dd].shape), f.vars[d0].shape),
                  i, v.shape[i], i + 1 - RvIndex(v), d))
  {
  }

  /** With distinct sizes and no two adjacent shared ones, the two passes
      are the plain filters: what is compared is the sizes of the dependency
      found in neither the sub-dependency nor the record variable. */
  lemma DimEpochWithout(v: Var, f: File, i: nat, d: string, dd: string, d0: string)
    requires RvIndex(v) <= i < |v.shape| && DependsOn(v, f, i, d)
    requires "DEPEND_2" !in f.vars[d].attrs
    requires "DEPEND_1" in f.vars[d].attrs && f.vars[d].attrs["DEPEND_1"] == Text(dd) && dd in f.vars
    requires "DEPEND_0" in f.vars[d].attrs && f.vars[d].attrs["DEPEND_0"] == Text(d0)
    requires StartsWith(d0, "Epoch") && d0 in f.vars
    requires Distinct(f.vars[d].shape) && NoAdjacentShared(f.vars[d].shape, f.vars[dd].shape)
    requires NoAdjacentShared(Without(f.vars[d].shape, f.vars[dd].shape), f.vars[d0].shape)
    ensures DimCheck(v, f, i) ==
      Ok(Leftover(Without(Without(f.vars[d].shape, f.vars[dd].shape), f.vars[d0].shape),
                  i, v.shape[i], i + 1 - RvIndex(v), d))
  {
    var once := Without(f.vars[d].shape, f.vars[dd].shape);
    DimEpochLeftover(v, f, i, d, dd, d0);
    RemovalPassFilters(f.vars[d].shape, f.vars[dd].shape);
    WithoutDistinct(f.vars[d].shape, f.vars[dd].shape);
    RemovalPassFilters(once, f.vars[d0].shape);
  }

  /** A dependency carrying DEPEND_2 is never compared. */
  lemma DimThreeLayers(v: Var, f: File, i: nat, d: string)
    requires RvIndex(v) <= i < |v.shape| && DependsOn(v, f, i, d)
    requires "DEPEND_2" in f.vars[d].attrs
    ensures DimCheck(v, f, i) == Ok([ThreeLayers])
  {
  }

  /** The "Epoch" prefix of the dependency's DEPEND_0 is checked before that
      name is looked up: a bad prefix is reported even when it names no
      variable. */
  lemma DimEpochPrefixFirst(v: Var, f: File, i: nat, d: string, d0: string)
    requires RvIndex(v) <= i < |v.shape| && DependsOn(v, f, i, d)
    requires "DEPEND_2" !in f.vars[d].attrs && "DEPEND_1" in f.vars[d].attrs
    requires Resolves(f, f.vars[d].attrs["DEPEND_1"])
    requires "DEPEND_0" in f.vars[d].attrs && f.vars[d].attrs["DEPEND_0"] == Text(d0) && !StartsWith(d0, "Epoch")
    ensures DimCheck(v, f, i) == Ok([Dep0NotEpoch])
  {
  }

  /** A reference that names no variable is left to depends. */
  lemma DimUnresolvedSkipped(v: Var, f: File, i: nat)
    requires RvIndex(v) <= i < |v.shape|
    requires var key := DependKey(i + 1 - RvIndex(v)); key !in v.attrs || !Resolves(f, v.attrs[key])
    ensures DimCheck(v, f, i) == Ok([])
  {
  }

  /** The example in depsize's comment: counts [rec, 80, 48] with DEPEND_1 look
      [80] and DEPEND_2 energy [80, 48], energy depending on look; 80 is
      taken out of energy's shape and 48 matches. With energy [80, 32] the
      last dimension is reported. */
  function Plain(name: string, shape: seq<nat>, rv: bool, attrs: map<string, AttrVal>): Var {
    Var(name, REAL4, shape, rv, attrs, [], 0, [], [], [])
  }

  function CountsFile(energyShape: seq<nat>): File {
    var look := Plain("look", [80], false, map[]);
    var energy := Plain("energy", energyShape, false, map["DEPEND_1" := Text("look")]);
    var counts := Plain("counts", [5, 80, 48], true, map["DEPEND_1" := Text("look"), "DEPEND_2" := Text("energy")]);
    File(["counts", "energy", "look"], map["counts" := counts, "energy" := energy, "look" := look], map[])
  }

  lemma DependKeys()
    ensures DependKey(1) == "DEPEND_1" && DependKey(2) == "DEPEND_2"
  {
    assert NatToString(1) == "1" && NatToString(2) == "2";
  }

  /** Dimension 1 of counts matches look. */
  lemma CountsDimOne(e: nat)
    ensures var f := CountsFile([80, e]); DimCheck(f.vars["counts"], f, 1) == Ok([])
  {
    var f := CountsFile([80, e]);
    DependKeys();
    assert DependsOn(f.vars["counts"], f, 1, "look");
    DimDirect(f.vars["counts"], f, 1, "look");
  }

  /** Dimension 2 of counts is compared with what is left of energy's shape
      once look's sizes are taken out. */
  lemma CountsDimTwo(e: nat)
    requires e != 80
    ensures var f := CountsFile([80, e]); DimCheck(f.vars["counts"], f, 2) == Ok(Mismatch(2, 48, 2, "energy", e))
  {
    var f := CountsFile([80, e]);
    DependKeys();
    assert DependsOn(f.vars["counts"], f, 2, "energy");
    assert [80, e][1..] == [e];
    assert Without([80, e], [80]) == Without([e], [80]) == [e] by {
      assert [e][1..] == [];
    }
    DimTwoLevel(f.vars["counts"], f, 2, "energy", "look");
  }

  /** Dimension 1 matches look; dimension 2 is energy's leftover size. */
  lemma CountsDims(e: nat)
    requires e != 80
    ensures var f := CountsFile([80, e]);
      DimCheck(f.vars["counts"], f, 1) == Ok([]) &&
      DimCheck(f.vars["counts"], f, 2) == Ok(Mismatch(2, 48, 2, "energy", e)) &&
      DepSizeSpec(f.vars["counts"], f) == Ok(Mismatch(2, 48, 2, "energy", e))
  {
    var f := CountsFile([80, e]);
    var counts := f.vars["counts"];
    CountsDimOne(e);
    CountsDimTwo(e);
    var m := Mismatch(2, 48, 2, "energy", e);
    assert DimsUpTo(counts, f, 2) == Ok([]);
    assert DimsUpTo(counts, f, 3) == Ok([] + m);
    assert ShapeZeroPrefix(counts) == [];
    assert [] + ([] + m) == m;
  }

  lemma CountsExample()
    ensures DepSizeSpec(CountsFile([80, 48]).vars["counts"], CountsFile([80, 48])) == Ok([])
    ensures DepSizeSpec(CountsFile([80, 32]).vars["counts"], CountsFile([80, 32])) ==
      Ok([DimSizeMismatch(2, 48, 2, "energy", 32)])
  {
    CountsDims(48);
    CountsDims(32);
  }

  // ------------------------------------------------------------ recordcount

  /** A record-varying variable with a resolvable DEPEND_0 must have as
      many records as that variable. */
  function RecordCount(v: Var, f: File): (r: seq<Message>)
    ensures |r| <= 1
    ensures r != [] <==>
      v.rv && "DEPEND_0" in v.attrs && Resolves(f, v.attrs["DEPEND_0"]) &&
      v.nrecs != f.vars[v.attrs["DEPEND_0"].s].nrecs
    ensures r != [] ==> r[0].RecordCountMismatch? && r[0].count == v.nrecs && r[0].dep0 == v.attrs["DEPEND_0"].s
  {
    if !v.rv || "DEPEND_0" !in v.attrs then []
    else
      var dep0 := v.attrs["DEPEND_0"];
      if !Resolves(f, dep0) then []
      else if v.nrecs != f.vars[dep0.s].nrecs then [RecordCountMismatch(v.nrecs, dep0.s, f.vars[dep0.s].nrecs)]
      else []
  }

  // ---------------------------------------------------- validrange / validscale

  const FILLVAL := "FILLVAL"

  /** numpy.isclose(a, b) with its default tolerances rtol = 1e-05 and
      atol = 1e-08. */
  predicate IsClose(a: real, b: real)
    ensures a == b ==> IsClose(a, b)
    ensures b == 0.0 ==> (IsClose(a, b) <==> -0.00000001 <= a <= 0.00000001)
  {
    RAbs(a - b) <= 0.00000001 + 0.00001 * RAbs(b)
  }

  /** x lies beyond the bound: under it, or over it. */
  predicate Beyond(x: real, bound: real, under: bool) {
    if under then x < bound else x > bound
  }

  /** A data value beyond the bound and not close to the fill value when one
      is given. */
  predicate Flag(x: real, bound: real, under: bool, fill: Option<real>) {
    Beyond(x, bound, under) && !(fill.Some? && IsClose(x, fill.value))
  }

  /** numpy.nonzero of the flag mask over data[..n], ascending. */
  function FlaggedUpTo(data: seq<real>, n: nat, bound: real, under: bool, fill: Option<real>): (r: seq<nat>)
    requires n <= |data|
    ensures forall i :: i in r <==> 0 <= i < n && Flag(data[i], bound, under, fill)
    ensures forall k :: 0 <= k < |r| ==> r[k] < n
    ensures forall j, k :: 0 <= j < k < |r| ==> r[j] < r[k]
  {
    if n == 0 then []
    else
      var r := FlaggedUpTo(data, n - 1, bound, under, fill);
      if Flag(data[n - 1], bound, under, fill) then r + [n - 1] else r
  }

  function Flagged(data: seq<real>, bound: real, under: bool, fill: Option<real>): (r: seq<nat>)
    ensures forall i :: i in r <==> 0 <= i < |data| && Flag(data[i], bound, under, fill)
    ensures forall k :: 0 <= k < |r| ==> r[k] < |data|
    ensures forall j, k :: 0 <= j < k < |r| ==> r[j] < r[k]
  {
    FlaggedUpTo(data, |data|, bound, under, fill)
  }

  /** data[idx]: the values at the given positions. */
  function Pick(data: seq<real>, idx: seq<nat>): (r: seq<real>)
    requires forall k :: 0 <= k < |idx| ==> idx[k] < |data|
    ensures |r| == |idx| && forall k :: 0 <= k < |idx| ==> r[k] == data[idx[k]]
  {
    if idx == [] then [] else [data[idx[0]]] + Pick(data, idx[1..])
  }

  /** The fill value the scan excludes; `consulted` is false where the source
      skips numpy.isclose. A non-numeric FILLVAL cannot be compared. */
  function FillOf(attrs: map<string, AttrVal>, consulted: bool): (r: Result<Option<real>>)
    ensures r.Raise? <==> consulted && FILLVAL in attrs && Numeric(attrs[FILLVAL]).None?
    ensures r.Raise? ==> r.exc == NotNumber(FILLVAL)
  {
    if !consulted || FILLVAL !in attrs then Ok(None)
    else
      match Numeric(attrs[FILLVAL])
      case Some(x) => Ok(Some(x))
      case None => Raise(NotNumber(FILLVAL))
  }

  /** The fill value excludes x from the scan. */
  predicate FillClose(attrs: map<string, AttrVal>, x: real) {
    FILLVAL in attrs && Numeric(attrs[FILLVAL]).Some? && IsClose(x, Numeric(attrs[FILLVAL]).value)
  }

  lemma FillOfMeans(attrs: map<string, AttrVal>, consulted: bool, x: real)
    requires FillOf(attrs, consulted).Ok? && (consulted || FILLVAL !in attrs)
    ensures var fill := FillOf(attrs, consulted).value;
      (fill.Some? && IsClose(x, fill.value)) <==> FillClose(attrs, x)
  {
  }

  /** The data scan against VALIDMIN (under) or VALIDMAX (over). */
  function Scan(v: Var, key: string, under: bool, fillConsulted: bool): (r: Result<seq<Message>>)
    requires key in v.attrs
    ensures r.Raise? <==> Numeric(v.attrs[key]).None? || FillOf(v.attrs, fillConsulted).Raise?
    ensures r.Ok? ==> |r.value| <= 1
    ensures r.Ok? ==> forall m :: m in r.value ==> if under then m.UnderValidMin? else m.OverValidMax?
  {
    var bound :- NumAttr(v.attrs, key);
    var fill :- FillOf(v.attrs, fillConsulted);
    var idx := Flagged(v.raw, bound, under, fill);
    if idx == [] then Ok([])
    else if under then Ok([UnderValidMin(Pick(v.raw, idx), idx, bound)])
    else Ok([OverValidMax(Pick(v.raw, idx), idx, bound)])
  }

  /** Some data value is beyond the bound attribute `key` and not fill. */
  predicate HasFlagged(v: Var, key: string, under: bool)
    requires key in v.attrs && Numeric(v.attrs[key]).Some?
  {
    exists i :: 0 <= i < |v.raw| && Beyond(v.raw[i], Numeric(v.attrs[key]).value, under) && !FillClose(v.attrs, v.raw[i])
  }

  /** A scan message appears exactly when some value is beyond the bound
      and not fill. */
  lemma ScanFlags(v: Var, key: string, under: bool, consulted: bool)
    requires key in v.attrs && Scan(v, key, under, consulted).Ok?
    requires consulted || |v.raw| == 0 || FILLVAL !in v.attrs
    ensures Scan(v, key, under, consulted).value != [] <==> HasFlagged(v, key, under)
  {
    var bound := Numeric(v.attrs[key]).value;
    var fill := FillOf(v.attrs, consulted).value;
    var idx := Flagged(v.raw, bound, under, fill);
    forall i | 0 <= i < |v.raw|
      ensures Flag(v.raw[i], bound, under, fill) <==> Beyond(v.raw[i], bound, under) && !FillClose(v.attrs, v.raw[i])
    {
      FillOfMeans(v.attrs, consulted, v.raw[i]);
    }
    if idx != [] {
      assert idx[0] in idx;
    }
    if HasFlagged(v, key, under) {
      var i :| 0 <= i < |v.raw| && Beyond(v.raw[i], bound, under) && !FillClose(v.attrs, v.raw[i]);
      assert i in idx;
    }
  }

  /** x lies outside the type's representable range. */
  predicate OutOfTypeRange(x: real, t: TypeCode)
    requires !Unranged(t)
  {
    Below(x, GetMin(t).value) || Above(x, GetMax(t).value)
  }

  /** One bound attribute against get_min / get_max of the type. */
  function OutOfType(attrs: map<string, AttrVal>, key: string, t: TypeCode, name: string): (r: Result<seq<Message>>)
    requires key in attrs
    ensures r.Raise? <==> Numeric(attrs[key]).None? || Unranged(t)
    ensures r.Ok? ==> (r.value != [] <==> OutOfTypeRange(Numeric(attrs[key]).value, t))
    ensures r.Ok? && r.value != [] ==>
      r.value == [OutsideTypeRange(key, Numeric(attrs[key]).value, GetMin(t).value, GetMax(t).value, name)]
  {
    var x :- NumAttr(attrs, key);
    var lo :- GetMin(t);
    var hi := GetMax(t).value;
    if Below(x, lo) || Above(x, hi) then Ok([OutsideTypeRange(key, x, lo, hi, name)]) else Ok([])
  }

  /** The VALIDMAX range test as written: it reads VALIDMIN for the lower
      comparison, so it needs VALIDMIN and reports VALIDMAX whenever VALIDMIN
      is below the type minimum. */
  function MaxOutOfTypeAsWritten(attrs: map<string, AttrVal>, t: TypeCode, name: string): (r: Result<seq<Message>>)
    requires VALIDMAX in attrs
    ensures VALIDMIN !in attrs ==> r == Raise(MissingKey(VALIDMIN))
    ensures VALIDMIN in attrs && r.Ok? ==>
      Numeric(attrs[VALIDMIN]).Some? && Numeric(attrs[VALIDMAX]).Some? && !Unranged(t) &&
      (r.value != [] <==>
        Below(Numeric(attrs[VALIDMIN]).value, GetMin(t).value) || Above(Numeric(attrs[VALIDMAX]).value, GetMax(t).value))
  {
    if VALIDMIN !in attrs then Raise(MissingKey(VALIDMIN))
    else
      var mn :- NumAttr(attrs, VALIDMIN);
      var lo :- GetMin(t);
      var mx :- NumAttr(attrs, VALIDMAX);
      var hi := GetMax(t).value;
      if Below(mn, lo) || Above(mx, hi) then Ok([OutsideTypeRange(VALIDMAX, mx, lo, hi, name)]) else Ok([])
  }

  /** MIN > MAX when both are present. Where the checks reach this test both
      values have already been compared as numbers. */
  function Ordering(attrs: map<string, AttrVal>, minKey: string, maxKey: string, name: string): (r: seq<Message>)
    ensures r != [] <==> (minKey in attrs && maxKey in attrs &&
      Numeric(attrs[minKey]).Some? && Numeric(attrs[maxKey]).Some? &&
      Numeric(attrs[minKey]).value > Numeric(attrs[maxKey]).value)
    ensures r != [] ==> r == [MinExceedsMax(minKey, maxKey, name)]
  {
    if minKey in attrs && maxKey in attrs then
      match (Numeric(attrs[minKey]), Numeric(attrs[maxKey]))
      case (Some(mn), Some(mx)) => if mn > mx then [MinExceedsMax(minKey, maxKey, name)] else []
      case _ => []
    else []
  }

  /** The VALIDMIN block: scan (FILLVAL consulted only for non-empty data),
      then the type-range test. */
  function LowerPart(v: Var): (r: Result<seq<Message>>)
    ensures r.Ok? ==> |r.value| <= 2
    ensures r.Ok? ==> forall m :: m in r.value ==> m.UnderValidMin? || (m.OutsideTypeRange? && m.attr == VALIDMIN)
  {
    if VALIDMIN !in v.attrs then Ok([])
    else
      var s :- Scan(v, VALIDMIN, true, |v.raw| != 0);
      var o :- OutOfType(v.attrs, VALIDMIN, v.cdfType, v.name);
      Ok(s + o)
  }

  /** The VALIDMAX block, with the range test as written or as intended. */
  function UpperPart(v: Var, asWritten: bool): (r: Result<seq<Message>>)
    ensures r.Ok? ==> |r.value| <= 2
    ensures r.Ok? ==> forall m :: m in r.value ==> m.OverValidMax? || (m.OutsideTypeRange? && m.attr == VALIDMAX)
  {
    if VALIDMAX !in v.attrs then Ok([])
    else
      var s :- Scan(v, VALIDMAX, false, true);
      var o :- if asWritten then MaxOutOfTypeAsWritten(v.attrs, v.cdfType, v.name)
               else OutOfType(v.attrs, VALIDMAX, v.cdfType, v.name);
      Ok(s + o)
  }

  /** validrange: the VALIDMIN block, the VALIDMAX block, then VALIDMIN >
      VALIDMAX; the VALIDMAX range test as written or as intended. */
  function ValidRangeWith(v: Var, asWritten: bool): (r: Result<seq<Message>>)
    ensures r.Ok? ==> |r.value| <= 5
    ensures r.Ok? ==> forall m :: m in r.value ==>
      m.UnderValidMin? || m.OverValidMax? || m.OutsideTypeRange? || m.MinExceedsMax?
  {
    var lower :- LowerPart(v);
    var upper :- UpperPart(v, asWritten);
    var order := Ordering(v.attrs, VALIDMIN, VALIDMAX, v.name);
    assert forall m :: m in lower + upper + order <==> m in lower || m in upper || m in order;
    Ok(lower + upper + order)
  }

  /** validrange as the source writes it; VariableChecks.all runs this one. */
  function ValidRange(v: Var): (r: Result<seq<Message>>)
    ensures VALIDMAX in v.attrs && VALIDMIN !in v.attrs ==> r.Raise?
  {
    ValidRangeWith(v, true)
  }

  /** validrange with VALIDMAX compared with its own bound. */
  function ValidRangeCorrected(v: Var): (r: Result<seq<Message>>)
    ensures VALIDMIN !in v.attrs && VALIDMAX !in v.attrs ==> r == Ok([])
  {
    ValidRangeWith(v, false)
  }

  /** When the corrected validrange raises: a non-numeric bound or fill
      value, or a type with no range. */
  lemma ValidRangeCorrectedRaises(v: Var)
    ensures ValidRangeCorrected(v).Raise? <==>
      (VALIDMIN in v.attrs && Numeric(v.attrs[VALIDMIN]).None?) ||
      (VALIDMAX in v.attrs && Numeric(v.attrs[VALIDMAX]).None?) ||
      (FILLVAL in v.attrs && Numeric(v.attrs[FILLVAL]).None? &&
        (VALIDMAX in v.attrs || (VALIDMIN in v.attrs && |v.raw| != 0))) ||
      ((VALIDMIN in v.attrs || VALIDMAX in v.attrs) && Unranged(v.cdfType))
  {
  }

  /** validrange as written raises in the same cases, and also whenever
      VALIDMAX is set without VALIDMIN, which its VALIDMAX test reads: then,
      unless something else raised first, with KeyError on VALIDMIN. */
  lemma ValidRangeRaises(v: Var)
    ensures ValidRange(v).Raise? <==>
      ValidRangeCorrected(v).Raise? || (VALIDMAX in v.attrs && VALIDMIN !in v.attrs)
    ensures VALIDMAX in v.attrs && VALIDMIN !in v.attrs && ValidRangeCorrected(v).Ok? ==>
      ValidRange(v) == Raise(MissingKey(VALIDMIN))
  {
    if VALIDMAX in v.attrs && VALIDMIN in v.attrs && LowerPart(v).Ok? {
      LowerFacts(v);
      assert UpperPart(v, true).Raise? <==> UpperPart(v, false).Raise?;
    }
  }

  lemma LowerFacts(v: Var)
    requires VALIDMIN in v.attrs && LowerPart(v).Ok?
    ensures Numeric(v.attrs[VALIDMIN]).Some? && !Unranged(v.cdfType)
    ensures (exists m :: m in LowerPart(v).value && m.UnderValidMin?) <==> HasFlagged(v, VALIDMIN, true)
    ensures (exists m :: m in LowerPart(v).value && m.OutsideTypeRange?) <==>
      OutOfTypeRange(Numeric(v.attrs[VALIDMIN]).value, v.cdfType)
  {
    var s := Scan(v, VALIDMIN, true, |v.raw| != 0).value;
    var o := OutOfType(v.attrs, VALIDMIN, v.cdfType, v.name).value;
    assert LowerPart(v).value == s + o;
    ScanFlags(v, VALIDMIN, true, |v.raw| != 0);
    if s != [] { assert s[0] in s; }
    if o != [] { assert o[0] in o; }
  }

  /** The VALIDMAX block: its scan, and its range test, which as written
      also reads VALIDMIN. */
  lemma UpperFacts(v: Var, asWritten: bool)
    requires VALIDMAX in v.attrs && UpperPart(v, asWritten).Ok?
    ensures Numeric(v.attrs[VALIDMAX]).Some? && !Unranged(v.cdfType)
    ensures asWritten ==> VALIDMIN in v.attrs && Numeric(v.attrs[VALIDMIN]).Some?
    ensures (exists m :: m in UpperPart(v, asWritten).value && m.OverValidMax?) <==> HasFlagged(v, VALIDMAX, false)
    ensures !asWritten ==> ((exists m :: m in UpperPart(v, asWritten).value && m.OutsideTypeRange?) <==>
      OutOfTypeRange(Numeric(v.attrs[VALIDMAX]).value, v.cdfType))
    ensures asWritten ==> ((exists m :: m in UpperPart(v, asWritten).value && m.OutsideTypeRange?) <==>
      Below(Numeric(v.attrs[VALIDMIN]).value, GetMin(v.cdfType).value) ||
      Above(Numeric(v.attrs[VALIDMAX]).value, GetMax(v.cdfType).value))
  {
    var s := Scan(v, VALIDMAX, false, true).value;
    var o := if asWritten then MaxOutOfTypeAsWritten(v.attrs, v.cdfType, v.name).value
             else OutOfType(v.attrs, VALIDMAX, v.cdfType, v.name).value;
    assert UpperPart(v, asWritten).value == s + o;
    ScanFlags(v, VALIDMAX, false, true);
    if s != [] { assert s[0] in s; }
    if o != [] { assert o[0] in o; }
  }

  /** A message of validrange comes from exactly one of its three blocks. */
  lemma ValidRangeParts(v: Var, asWritten: bool, m: Message)
    requires ValidRangeWith(v, asWritten).Ok?
    ensures LowerPart(v).Ok? && UpperPart(v, asWritten).Ok?
    ensures m in ValidRangeWith(v, asWritten).value <==>
      m in LowerPart(v).value || m in UpperPart(v, asWritten).value || m in Ordering(v.attrs, VALIDMIN, VALIDMAX, v.name)
    ensures VALIDMIN !in v.attrs ==> LowerPart(v).value == []
    ensures VALIDMAX !in v.attrs ==> UpperPart(v, asWritten).value == []
  {
    assert ValidRangeWith(v, asWritten).value ==
      LowerPart(v).value + UpperPart(v, asWritten).value + Ordering(v.attrs, VALIDMIN, VALIDMAX, v.name);
  }

  /** The scans of validrange, as written or corrected: an under message
      exactly when a value is below VALIDMIN and not fill, an over message
      likewise for VALIDMAX. */
  lemma ValidRangeScans(v: Var, asWritten: bool)
    requires ValidRangeWith(v, asWritten).Ok?
    ensures VALIDMIN in v.attrs ==>
      ((exists m :: m in ValidRangeWith(v, asWritten).value && m.UnderValidMin?) <==> HasFlagged(v, VALIDMIN, true))
    ensures VALIDMAX in v.attrs ==>
      ((exists m :: m in ValidRangeWith(v, asWritten).value && m.OverValidMax?) <==> HasFlagged(v, VALIDMAX, false))
  {
    forall m ensures m in ValidRangeWith(v, asWritten).value <==>
      m in LowerPart(v).value || m in UpperPart(v, asWritten).value || m in Ordering(v.attrs, VALIDMIN, VALIDMAX, v.name)
    {
      ValidRangeParts(v, asWritten, m);
    }
    if VALIDMIN in v.attrs { LowerFacts(v); }
    if VALIDMAX in v.attrs { UpperFacts(v, asWritten); }
  }

  /** The type-range tests of validrange as written: VALIDMIN is reported
      when outside get_min .. get_max of the type; VALIDMAX is reported when
      VALIDMIN is below the minimum or VALIDMAX above the maximum. */
  lemma ValidRangeTypeRange(v: Var)
    requires ValidRange(v).Ok?
    ensures VALIDMIN in v.attrs ==>
      ((exists m :: m in ValidRange(v).value && m.OutsideTypeRange? && m.attr == VALIDMIN) <==>
        OutOfTypeRange(Numeric(v.attrs[VALIDMIN]).value, v.cdfType))
    ensures VALIDMAX in v.attrs ==> (VALIDMIN in v.attrs &&
      ((exists m :: m in ValidRange(v).value && m.OutsideTypeRange? && m.attr == VALIDMAX) <==>
        Below(Numeric(v.attrs[VALIDMIN]).value, GetMin(v.cdfType).value) ||
        Above(Numeric(v.attrs[VALIDMAX]).value, GetMax(v.cdfType).value)))
  {
    TypeRangeMessages(v, true);
    if VALIDMIN in v.attrs { LowerFacts(v); }
    if VALIDMAX in v.attrs { UpperFacts(v, true); }
  }

  /** The range messages of validrange for VALIDMIN are those of its block,
      and likewise for VALIDMAX. */
  lemma TypeRangeMessages(v: Var, asWritten: bool)
    requires ValidRangeWith(v, asWritten).Ok?
    ensures LowerPart(v).Ok? && UpperPart(v, asWritten).Ok?
    ensures (exists m :: m in ValidRangeWith(v, asWritten).value && m.OutsideTypeRange? && m.attr == VALIDMIN) <==>
      (exists m :: m in LowerPart(v).value && m.OutsideTypeRange?)
    ensures (exists m :: m in ValidRangeWith(v, asWritten).value && m.OutsideTypeRange? && m.attr == VALIDMAX) <==>
      (exists m :: m in UpperPart(v, asWritten).value && m.OutsideTypeRange?)
  {
    var lower, upper := LowerPart(v).value, UpperPart(v, asWritten).value;
    var order := Ordering(v.attrs, VALIDMIN, VALIDMAX, v.name);
    var r := ValidRangeWith(v, asWritten).value;
    assert r == lower + upper + order;
    assert forall m :: m in r <==> m in lower || m in upper || m in order;
    assert forall m :: m in order ==> m.MinExceedsMax?;
  }

  /** The type-range tests of the corrected validrange: one message per
      bound outside get_min .. get_max of the type. */
  lemma ValidRangeCorrectedTypeRange(v: Var)
    requires ValidRangeCorrected(v).Ok?
    ensures VALIDMIN in v.attrs ==>
      ((exists m :: m in ValidRangeCorrected(v).value && m.OutsideTypeRange? && m.attr == VALIDMIN) <==>
        OutOfTypeRange(Numeric(v.attrs[VALIDMIN]).value, v.cdfType))
    ensures VALIDMAX in v.attrs ==>
      ((exists m :: m in ValidRangeCorrected(v).value && m.OutsideTypeRange? && m.attr == VALIDMAX) <==>
        OutOfTypeRange(Numeric(v.attrs[VALIDMAX]).value, v.cdfType))
  {
    TypeRangeMessages(v, false);
    if VALIDMIN in v.attrs { LowerFacts(v); }
    if VALIDMAX in v.attrs { UpperFacts(v, false); }
  }

  /** VALIDMIN > VALIDMAX is reported exactly when both are present and
      the minimum is the larger, as written and corrected alike. */
  lemma ValidRangeOrder(v: Var, asWritten: bool)
    requires ValidRangeWith(v, asWritten).Ok?
    ensures (exists m :: m in ValidRangeWith(v, asWritten).value && m.MinExceedsMax?) <==>
      (VALIDMIN in v.attrs && VALIDMAX in v.attrs &&
        Numeric(v.attrs[VALIDMIN]).value > Numeric(v.attrs[VALIDMAX]).value)
  {
    var order := Ordering(v.attrs, VALIDMIN, VALIDMAX, v.name);
    forall m ensures m in ValidRangeWith(v, asWritten).value <==>
      m in LowerPart(v).value || m in UpperPart(v, asWritten).value || m in order
    {
      ValidRangeParts(v, asWritten, m);
    }
    if VALIDMIN in v.attrs { LowerFacts(v); }
    if VALIDMAX in v.attrs { UpperFacts(v, asWritten); }
    if order != [] { assert order[0] in order; }
  }

  /** Where VALIDMIN is within the type's range and VALIDMAX is not below
      its minimum, the reading of VALIDMIN in the VALIDMAX test is harmless:
      both versions agree. */
  lemma AsWrittenAgrees(v: Var)
    requires VALIDMIN in v.attrs && Numeric(v.attrs[VALIDMIN]).Some? && !Unranged(v.cdfType)
    requires !Below(Numeric(v.attrs[VALIDMIN]).value, GetMin(v.cdfType).value)
    requires VALIDMAX in v.attrs ==>
      Numeric(v.attrs[VALIDMAX]).Some? && !Below(Numeric(v.attrs[VALIDMAX]).value, GetMin(v.cdfType).value)
    ensures ValidRange(v) == ValidRangeCorrected(v)
  {
    if VALIDMAX in v.attrs {
      assert MaxOutOfTypeAsWritten(v.attrs, v.cdfType, v.name) == OutOfType(v.attrs, VALIDMAX, v.cdfType, v.name);
      assert UpperPart(v, true) == UpperPart(v, false);
    }
  }

  /** VALIDMAX without VALIDMIN: the source's test raises KeyError, the
      intended check succeeds. */
  lemma AsWrittenMaxAlone(v: Var)
    requires VALIDMAX in v.attrs && VALIDMIN !in v.attrs && Numeric(v.attrs[VALIDMAX]).Some?
    requires FILLVAL !in v.attrs && !Unranged(v.cdfType)
    ensures ValidRange(v) == Raise(MissingKey(VALIDMIN))
    ensures ValidRangeCorrected(v).Ok?
  {
    assert LowerPart(v) == Ok([]);
    assert Scan(v, VALIDMAX, false, true).Ok?;
    assert UpperPart(v, true) == Raise(MissingKey(VALIDMIN));
    assert OutOfType(v.attrs, VALIDMAX, v.cdfType, v.name).Ok?;
    assert UpperPart(v, false).Ok?;
  }

  /** An INT1 variable with VALIDMIN -200 and VALIDMAX 5 and no data: the
      source also reports VALIDMAX 5 as outside -128..127. */
  function Int1Var(): Var {
    Var("x", INT1, [0], true, map[VALIDMIN := IntVal(-200), VALIDMAX := IntVal(5)], [VALIDMIN, VALIDMAX],
      0, [], [], [])
  }

  lemma AsWrittenSpuriousMax()
    ensures ValidRange(Int1Var()) == Ok([
      OutsideTypeRange(VALIDMIN, -200.0, Fin(-128.0), Fin(127.0), "x"),
      OutsideTypeRange(VALIDMAX, 5.0, Fin(-128.0), Fin(127.0), "x")])
    ensures ValidRangeCorrected(Int1Var()) == Ok([OutsideTypeRange(VALIDMIN, -200.0, Fin(-128.0), Fin(127.0), "x")])
  {
    var v := Int1Var();
    var lo := OutsideTypeRange(VALIDMIN, -200.0, Fin(-128.0), Fin(127.0), "x");
    var hi := OutsideTypeRange(VALIDMAX, 5.0, Fin(-128.0), Fin(127.0), "x");
    assert Numeric(v.attrs[VALIDMIN]) == Some(-200.0);
    assert Numeric(v.attrs[VALIDMAX]) == Some(5.0);
    assert Scan(v, VALIDMIN, true, false) == Ok([]);
    assert Scan(v, VALIDMAX, false, true) == Ok([]);
    assert OutOfType(v.attrs, VALIDMIN, v.cdfType, v.name) == Ok([lo]);
    assert OutOfType(v.attrs, VALIDMAX, v.cdfType, v.name) == Ok([]);
    assert MaxOutOfTypeAsWritten(v.attrs, v.cdfType, v.name) == Ok([hi]);
    assert [] + [lo] == [lo] && [] + [hi] == [hi];
    assert LowerPart(v) == Ok([OutsideTypeRange(VALIDMIN, -200.0, Fin(-128.0), Fin(127.0), "x")]);
    assert UpperPart(v, true) == Ok([OutsideTypeRange(VALIDMAX, 5.0, Fin(-128.0), Fin(127.0), "x")]);
    assert UpperPart(v, false) == Ok([]);
    assert Ordering(v.attrs, VALIDMIN, VALIDMAX, v.name) == [];
    assert [lo] + [hi] + [] == [lo, hi] && [lo] + [] + [] == [lo];
  }

  /** validscale: each present SCALEMIN / SCALEMAX against the type's range,
      then SCALEMIN > SCALEMAX. */
  function ValidScale(v: Var): (r: Result<seq<Message>>)
    ensures r.Raise? <==>
      (SCALEMIN in v.attrs && Numeric(v.attrs[SCALEMIN]).None?) ||
      (SCALEMAX in v.attrs && Numeric(v.attrs[SCALEMAX]).None?) ||
      ((SCALEMIN in v.attrs || SCALEMAX in v.attrs) && Unranged(v.cdfType))
    ensures r.Ok? ==> |r.value| <= 3
  {
    var lower :- if SCALEMIN in v.attrs then OutOfType(v.attrs, SCALEMIN, v.cdfType, v.name) else Ok([]);
    var upper :- if SCALEMAX in v.attrs then OutOfType(v.attrs, SCALEMAX, v.cdfType, v.name) else Ok([]);
    Ok(lower + upper + Ordering(v.attrs, SCALEMIN, SCALEMAX, v.name))
  }

  /** The messages of validscale: one per bound outside the type's range,
      and one for SCALEMIN > SCALEMAX. */
  lemma ValidScaleMessages(v: Var)
    requires ValidScale(v).Ok?
    ensures var r := ValidScale(v).value;
      (SCALEMIN in v.attrs ==> ((exists m :: m in r && m.OutsideTypeRange? && m.attr == SCALEMIN) <==>
        OutOfTypeRange(Numeric(v.attrs[SCALEMIN]).value, v.cdfType))) &&
      (SCALEMAX in v.attrs ==> ((exists m :: m in r && m.OutsideTypeRange? && m.attr == SCALEMAX) <==>
        OutOfTypeRange(Numeric(v.attrs[SCALEMAX]).value, v.cdfType))) &&
      ((exists m :: m in r && m.MinExceedsMax?) <==> (SCALEMIN in v.attrs && SCALEMAX in v.attrs &&
        Numeric(v.attrs[SCALEMIN]).value > Numeric(v.attrs[SCALEMAX]).value))
  {
    var lower := if SCALEMIN in v.attrs then OutOfType(v.attrs, SCALEMIN, v.cdfType, v.name).value else [];
    var upper := if SCALEMAX in v.attrs then OutOfType(v.attrs, SCALEMAX, v.cdfType, v.name).value else [];
    var order := Ordering(v.attrs, SCALEMIN, SCALEMAX, v.name);
    var r := ValidScale(v).value;
    assert r == lower + upper + order;
    assert forall m :: m in r <==> m in lower || m in upper || m in order;
    if lower != [] { assert lower[0] in lower; }
    if upper != [] { assert upper[0] in upper; }
    if order != [] { assert order[0] in order; }
  }

  // ---------------------------------------------------------- validplottype

  /** The display type a variable of the given rank should carry; rank 0
      demands none. */
  function ExpectedDisplay(rank: nat): Option<AttrVal> {
    if rank == 0 then None
    else if rank == 1 then Some(Text("time_series"))
    else Some(Text("spectrogram"))
  }

  /** validplottype: a present DISPLAY_TYPE must match the rank of the
      shape. */
  function ValidPlotType(v: Var): (r: seq<Message>)
    ensures |r| <= 1
    ensures r == [] <==> ("DISPLAY_TYPE" !in v.attrs || ExpectedDisplay(|v.shape|).None? ||
      v.attrs["DISPLAY_TYPE"] == ExpectedDisplay(|v.shape|).value)
    ensures r != [] ==>
      (|v.shape| == 1 && r[0] == OneDimDisplay(v.name, v.attrs["DISPLAY_TYPE"])) ||
      (|v.shape| > 1 && r[0] == MultiDimDisplay(v.name, v.attrs["DISPLAY_TYPE"]))
  {
    if "DISPLAY_TYPE" !in v.attrs then []
    else
      var d := v.attrs["DISPLAY_TYPE"];
      if |v.shape| == 1 && d != Text("time_series") then [OneDimDisplay(v.name, d)]
      else if |v.shape| > 1 && d != Text("spectrogram") then [MultiDimDisplay(v.name, d)]
      else []
  }

  // --------------------------------------------------------------- fieldnam

  /** fieldnam: FIELDNAM must be present and equal the variable's name. */
  function FieldNam(v: Var): (r: seq<Message>)
    ensures |r| <= 1
    ensures r == [] <==> "FIELDNAM" in v.attrs && v.attrs["FIELDNAM"] == Text(v.name)
    ensures r != [] ==> (r[0] == NoFieldnam(v.name) <==> "FIELDNAM" !in v.attrs)
    ensures r != [] && "FIELDNAM" in v.attrs ==> r[0] == FieldnamMismatch(v.name, v.attrs["FIELDNAM"])
  {
    if "FIELDNAM" !in v.attrs then [NoFieldnam(v.name)]
    else if v.attrs["FIELDNAM"] != Text(v.name) then [FieldnamMismatch(v.name, v.attrs["FIELDNAM"])]
    else []
  }

  // -------------------------------------------------------------------- all

  datatype Check =
    | DependsCheck | DepSizeCheck | FieldNamCheck | RecordCountCheck
    | ValidRangeCheck | ValidScaleCheck | ValidPlotTypeCheck
    | ValidRangeCorrectedCheck

  /** The order `all` calls the checks in. */
  const Order: seq<Check> :=
    [DependsCheck, DepSizeCheck, FieldNamCheck, RecordCountCheck, ValidRangeCheck, ValidScaleCheck, ValidPlotTypeCheck]

  /** The same order with the corrected validrange. */
  const CorrectedOrder: seq<Check> :=
    [DependsCheck, DepSizeCheck, FieldNamCheck, RecordCountCheck, ValidRangeCorrectedCheck, ValidScaleCheck,
     ValidPlotTypeCheck]

  /** The order of the source's `all`, or the corrected one. */
  function OrderFor(asWritten: bool): seq<Check> {
    if asWritten then Order else CorrectedOrder
  }

  /** One check; only depsize and the validrange and validscale checks
      can raise. */
  function RunCheck(c: Check, v: Var, f: File): (r: Result<seq<Message>>)
    ensures r.Raise? ==> c in {DepSizeCheck, ValidRangeCheck, ValidRangeCorrectedCheck, ValidScaleCheck}
  {
    match c
    case DependsCheck => Ok(Depends(v, f))
    case DepSizeCheck => DepSizeSpec(v, f)
    case FieldNamCheck => Ok(FieldNam(v))
    case RecordCountCheck => Ok(RecordCount(v, f))
    case ValidRangeCheck => ValidRange(v)
    case ValidRangeCorrectedCheck => ValidRangeCorrected(v)
    case ValidScaleCheck => ValidScale(v)
    case ValidPlotTypeCheck => Ok(ValidPlotType(v))
  }

  /** The checks cs run in order, their messages concatenated; the first
      exception ends the run. */
  function RunAll(cs: seq<Check>, v: Var, f: File): (r: Result<seq<Message>>)
    ensures r.Ok? ==> |cs| == 0 || RunCheck(cs[|cs| - 1], v, f).Ok?
  {
    if cs == [] then Ok([])
    else
      var found :- RunAll(cs[..|cs| - 1], v, f);
      var more :- RunCheck(cs[|cs| - 1], v, f);
      Ok(found + more)
  }

  /** The run succeeds exactly when every check does. */
  lemma {:induction false} RunAllOk(cs: seq<Check>, v: Var, f: File)
    ensures RunAll(cs, v, f).Ok? <==> forall k :: 0 <= k < |cs| ==> RunCheck(cs[k], v, f).Ok?
  {
    if cs != [] {
      var init := cs[..|cs| - 1];
      RunAllOk(init, v, f);
      assert forall k :: 0 <= k < |init| ==> init[k] == cs[k];
    }
  }

  /** VariableChecks.all: each check of Order in turn; depsize runs as its
      loop. */
  method All(v: Var, f: File) returns (r: Result<seq<Message>>)
    ensures r == RunAll(Order, v, f)
  {
    var errors: seq<Message> := [];
    var k := 0;
    while k < |Order|
      invariant k <= |Order|
      invariant RunAll(Order[..k], v, f) == Ok(errors)
    {
      var c := Order[k];
      var found: Result<seq<Message>>;
      if c == DepSizeCheck {
        found := DepSize(v, f);
      } else {
        found := RunCheck(c, v, f);
      }
      assert Order[..k + 1][..k] == Order[..k];
      if found.Raise? {
        RunAllRaiseSticks(Order, k + 1, v, f);
        return Raise(found.exc);
      }
      errors := errors + found.value;
      k := k + 1;
    }
    assert Order[..k] == Order;
    return Ok(errors);
  }

  /** Once a prefix raises, every longer prefix raises the same. */
  lemma {:induction false} RunAllRaiseSticks(cs: seq<Check>, n: nat, v: Var, f: File)
    requires 0 < n <= |cs| && RunAll(cs[..n], v, f).Raise?
    ensures RunAll(cs, v, f) == RunAll(cs[..n], v, f)
    decreases |cs| - n
  {
    if n < |cs| {
      assert cs[..n + 1][..n] == cs[..n];
      RunAllRaiseSticks(cs, n + 1, v, f);
    } else {
      assert cs[..n] == cs;
    }
  }

  lemma RunAllStep(cs: seq<Check>, n: nat, v: Var, f: File)
    requires 0 < n <= |cs| && RunAll(cs[..n], v, f).Ok?
    ensures RunAll(cs[..n - 1], v, f).Ok? && RunCheck(cs[n - 1], v, f).Ok?
    ensures RunAll(cs[..n], v, f).value == RunAll(cs[..n - 1], v, f).value + RunCheck(cs[n - 1], v, f).value
  {
    assert cs[..n][..n - 1] == cs[..n - 1];
  }

  /** A successful run is the concatenation of its checks' messages. */
  lemma {:induction false} RunAllConcat(cs: seq<Check>, v: Var, f: File)
    requires RunAll(cs, v, f).Ok?
    ensures forall k :: 0 <= k < |cs| ==> RunCheck(cs[k], v, f).Ok?
    ensures RunAll(cs, v, f).value == Concat(cs, v, f)
  {
    RunAllOk(cs, v, f);
    if cs != [] {
      RunAllConcat(cs[..|cs| - 1], v, f);
      assert RunAll(cs, v, f).value == RunAll(cs[..|cs| - 1], v, f).value + RunCheck(cs[|cs| - 1], v, f).value;
    }
  }

  /** The messages of checks that all succeed, in order. */
  function Concat(cs: seq<Check>, v: Var, f: File): seq<Message>
    requires forall k :: 0 <= k < |cs| ==> RunCheck(cs[k], v, f).Ok?
  {
    if cs == [] then [] else Concat(cs[..|cs| - 1], v, f) + RunCheck(cs[|cs| - 1], v, f).value
  }

  /** Order lists every check but the corrected validrange, which raises
      only when validrange as written does; so a successful all means every
      check succeeds. */
  lemma AllChecksOk(v: Var, f: File)
    requires RunAll(Order, v, f).Ok?
    ensures forall c :: RunCheck(c, v, f).Ok?
  {
    RunAllOk(Order, v, f);
    var o := Order;
    assert o[0] == DependsCheck && o[1] == DepSizeCheck && o[2] == FieldNamCheck;
    assert o[3] == RecordCountCheck && o[4] == ValidRangeCheck && o[5] == ValidScaleCheck;
    assert o[6] == ValidPlotTypeCheck;
    ValidRangeRaises(v);
    forall c ensures RunCheck(c, v, f).Ok? {
      match c
      case DependsCheck => assert RunCheck(o[0], v, f).Ok?;
      case DepSizeCheck => assert RunCheck(o[1], v, f).Ok?;
      case FieldNamCheck => assert RunCheck(o[2], v, f).Ok?;
      case RecordCountCheck => assert RunCheck(o[3], v, f).Ok?;
      case ValidRangeCheck => assert RunCheck(o[4], v, f).Ok?;
      case ValidRangeCorrectedCheck => assert RunCheck(o[4], v, f).Ok?;
      case ValidScaleCheck => assert RunCheck(o[5], v, f).Ok?;
      case ValidPlotTypeCheck => assert RunCheck(o[6], v, f).Ok?;
    }
  }

  /** A successful run's prefixes succeed and their messages come first. */
  lemma {:induction false} RunAllPrefix(cs: seq<Check>, n: nat, v: Var, f: File)
    requires n <= |cs| && RunAll(cs, v, f).Ok?
    ensures RunAll(cs[..n], v, f).Ok? && RunAll(cs[..n], v, f).value <= RunAll(cs, v, f).value
    decreases |cs| - n
  {
    if n == |cs| {
      assert cs[..n] == cs;
    } else {
      RunAllPrefix(cs, n + 1, v, f);
      assert cs[..n + 1][..n] == cs[..n];
    }
  }

  /** all begins with the depends messages. */
  lemma AllStartsWithDepends(v: Var, f: File)
    requires RunAll(Order, v, f).Ok?
    ensures Depends(v, f) <= RunAll(Order, v, f).value
  {
    RunAllPrefix(Order, 1, v, f);
    assert Order[..1] == [DependsCheck] && Order[..1][..0] == [];
    assert RunAll(Order[..1], v, f).value == [] + Depends(v, f);
  }
}
