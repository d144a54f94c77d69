/** FileChecks: filename, time_monoton, times and all. The file name is
    the base name of the file's path, passed in as a string. */
module FileChecks {
  import opened Cdf
  import opened Strings
  import VariableChecks

  const LOGICAL_SOURCE := "Logical_source"
  const LOGICAL_FILE_ID := "Logical_file_id"

  /** The global attributes filename needs, in the order it looks for them. */
  const GlobalKeys: seq<string> := [LOGICAL_SOURCE, LOGICAL_FILE_ID]

  // ---------------------------------------------------------------- filename

  /** One message per key of keys that is not a global attribute, in order. */
  function MissingGlobals(f: File, keys: seq<string>): (r: seq<Message>)
    ensures |r| <= |keys|
    ensures forall m :: m in r ==> m.NoGlobalAttr? && m.attr in keys && m.attr !in f.gattrs
    ensures forall k :: 0 <= k < |keys| && keys[k] !in f.gattrs ==> NoGlobalAttr(keys[k]) in r
  {
    if keys == [] then []
    else
      var a := keys[|keys| - 1];
      MissingGlobals(f, keys[..|keys| - 1]) + (if a in f.gattrs then [] else [NoGlobalAttr(a)])
  }

  /** What filename reports for a file named fname. */
  function FilenameSpec(f: File, fname: string): (r: seq<Message>)
    ensures r == [] <==>
      (LOGICAL_SOURCE in f.gattrs && LOGICAL_FILE_ID in f.gattrs
       && StartsWith(fname, f.gattrs[LOGICAL_SOURCE]) && DropLast4(fname) == f.gattrs[LOGICAL_FILE_ID])
    ensures (LOGICAL_SOURCE !in f.gattrs || LOGICAL_FILE_ID !in f.gattrs) ==>
      (forall m :: m in r ==> m.NoGlobalAttr?)
      && (NoGlobalAttr(LOGICAL_SOURCE) in r <==> LOGICAL_SOURCE !in f.gattrs)
      && (NoGlobalAttr(LOGICAL_FILE_ID) in r <==> LOGICAL_FILE_ID !in f.gattrs)
    ensures LOGICAL_SOURCE in f.gattrs && LOGICAL_FILE_ID in f.gattrs ==>
      |r| <= 2
      && (LogicalSourceMismatch(f.gattrs[LOGICAL_SOURCE], fname) in r <==> !StartsWith(fname, f.gattrs[LOGICAL_SOURCE]))
      && (LogicalFileIdMismatch(f.gattrs[LOGICAL_FILE_ID], fname) in r <==> DropLast4(fname) != f.gattrs[LOGICAL_FILE_ID])
      && (forall m :: m in r ==> m.LogicalSourceMismatch? || m.LogicalFileIdMismatch?)
  {
    var missing := MissingGlobals(f, GlobalKeys);
    assert GlobalKeys[0] == LOGICAL_SOURCE && GlobalKeys[1] == LOGICAL_FILE_ID;
    if missing != [] then
      assert missing[0] in missing;
      missing
    else
      var source := f.gattrs[LOGICAL_SOURCE];
      var fileId := f.gattrs[LOGICAL_FILE_ID];
      (if StartsWith(fname, source) then [] else [LogicalSourceMismatch(source, fname)])
      + (if DropLast4(fname) == fileId then [] else [LogicalFileIdMismatch(fileId, fname)])
  }

  /** FileChecks.filename. */
  method Filename(f: File, fname: string) returns (errs: seq<Message>)
    ensures errs == FilenameSpec(f, fname)
  {
    errs := [];
    for k := 0 to |GlobalKeys|
      invariant errs == MissingGlobals(f, GlobalKeys[..k])
    {
      assert GlobalKeys[..k + 1][..k] == GlobalKeys[..k];
      if GlobalKeys[k] !in f.gattrs {
        errs := errs + [NoGlobalAttr(GlobalKeys[k])];
      }
    }
    assert GlobalKeys[..|GlobalKeys|] == GlobalKeys;
    if errs != [] {
      return;
    }
    var source := f.gattrs[LOGICAL_SOURCE];
    var fileId := f.gattrs[LOGICAL_FILE_ID];
    if !StartsWith(fname, source) {
      errs := errs + [LogicalSourceMismatch(source, fname)];
    }
    if DropLast4(fname) != fileId {
      errs := errs + [LogicalFileIdMismatch(fileId, fname)];
    }
  }

  /** The naming convention filename enforces: a file called
      `<Logical_file_id>.cdf` whose id starts with Logical_source passes. */
  lemma FilenameConvention(f: File, fileId: string)
    requires LOGICAL_SOURCE in f.gattrs
    requires LOGICAL_FILE_ID in f.gattrs && f.gattrs[LOGICAL_FILE_ID] == fileId
    requires StartsWith(fileId, f.gattrs[LOGICAL_SOURCE])
    ensures FilenameSpec(f, fileId + ".cdf") == []
  {
    var fname := fileId + ".cdf";
    assert DropLast4(fname) == fileId by {
      assert fname[..|fname| - 4] == fileId;
    }
    var source := f.gattrs[LOGICAL_SOURCE];
    assert fname[..|source|] == fileId[..|source|];
  }

  /** Conversely, a file that passes is named `<Logical_file_id>` plus four
      characters, and that id starts with Logical_source unless the name is
      shorter than four characters. */
  lemma FilenamePasses(f: File, fname: string)
    requires FilenameSpec(f, fname) == []
    ensures LOGICAL_SOURCE in f.gattrs && LOGICAL_FILE_ID in f.gattrs
    ensures |fname| >= 4 ==> fname == f.gattrs[LOGICAL_FILE_ID] + fname[|fname| - 4..]
    ensures |fname| >= 4 && |f.gattrs[LOGICAL_SOURCE]| <= |fname| - 4 ==>
      StartsWith(f.gattrs[LOGICAL_FILE_ID], f.gattrs[LOGICAL_SOURCE])
  {
    var source := f.gattrs[LOGICAL_SOURCE];
    var fileId := f.gattrs[LOGICAL_FILE_ID];
    if |fname| >= 4 && |source| <= |fname| - 4 {
      assert fileId == fname[..|fname| - 4];
      assert fileId[..|source|] == fname[..|source|];
    }
  }

  // ------------------------------------------------------------ time_monoton

  /** Record x's time precedes that of record x-1. */
  predicate Descent(t: seq<int>, x: int) {
    1 <= x < |t| && t[x] < t[x - 1]
  }

  /** Records r in 1 .. n-1 whose time precedes that of record r-1: the
      positions `numpy.diff(data) < 0` marks, plus one. */
  function DescentsUpTo(t: seq<int>, n: nat): (r: seq<nat>)
    requires n <= |t|
    ensures forall x :: x in r <==> x < n && Descent(t, x)
    ensures forall i :: 0 <= i < |r| ==> r[i] < n
    ensures forall i, j :: 0 <= i < j < |r| ==> r[i] < r[j]
  {
    if n <= 1 then []
    else
      var prior := DescentsUpTo(t, n - 1);
      var last := if t[n - 1] < t[n - 2] then [n - 1] else [];
      assert forall x :: x in prior + last <==> x in prior || x in last;
      prior + last
  }

  function Descents(t: seq<int>): (r: seq<nat>)
    ensures forall x :: x in r <==> Descent(t, x)
    ensures forall i, j :: 0 <= i < j < |r| ==> r[i] < r[j]
  {
    DescentsUpTo(t, |t|)
  }

  predicate NonDecreasing(t: seq<int>) {
    forall i, j :: 0 <= i <= j < |t| ==> t[i] <= t[j]
  }

  /** No descent exactly when the whole sequence is non-decreasing. */
  lemma NoDescentMonotone(t: seq<int>)
    ensures Descents(t) == [] <==> NonDecreasing(t)
  {
    if Descents(t) == [] {
      forall i, j | 0 <= i <= j < |t| ensures t[i] <= t[j] {
        StepsChain(t, i, j);
      }
    } else {
      var x := Descents(t)[0];
      assert x in Descents(t);
      assert Descent(t, x);
    }
  }

  lemma {:induction false} StepsChain(t: seq<int>, i: nat, j: nat)
    requires i <= j < |t|
    requires forall x :: !Descent(t, x)
    ensures t[i] <= t[j]
    decreases j - i
  {
    if i < j {
      StepsChain(t, i, j - 1);
      assert !Descent(t, j);
    }
  }

  /** Whether a variable with these descent records is reported. As written
      the test is `any(idx)` over the 0-based indices r-1, which is false when
      the only descent is at record 1; the corrected test asks for any
      descent at all. */
  predicate Reported(records: seq<nat>, asWritten: bool)
    ensures Reported(records, asWritten) ==> records != []
  {
    if asWritten then exists i :: 0 <= i < |records| && records[i] != 1 else records != []
  }

  /** The time_monoton messages for the variables names, in order. */
  function MonotonOver(f: File, names: seq<string>, asWritten: bool): (r: seq<Message>)
    requires forall k :: 0 <= k < |names| ==> names[k] in f.vars
    ensures forall m :: m in r ==>
      m.NonMonotonic? && m.varName in names && m.varName in f.vars
      && IsTimeType(f.vars[m.varName].cdfType)
      && m.records == Descents(f.vars[m.varName].ticks)
      && Reported(m.records, asWritten)
    ensures forall k :: (0 <= k < |names| && IsTimeType(f.vars[names[k]].cdfType)
      && Reported(Descents(f.vars[names[k]].ticks), asWritten)) ==>
      NonMonotonic(names[k], Descents(f.vars[names[k]].ticks)) in r
  {
    if names == [] then []
    else
      var init, name := names[..|names| - 1], names[|names| - 1];
      var v := f.vars[name];
      var records := Descents(v.ticks);
      var prior := MonotonOver(f, init, asWritten);
      var last := if IsTimeType(v.cdfType) && Reported(records, asWritten) then [NonMonotonic(name, records)] else [];
      assert forall k :: 0 <= k < |init| ==> init[k] == names[k];
      assert forall m :: m in prior + last <==> m in prior || m in last;
      prior + last
  }

  /** time_monoton as written: a time variable is reported when one of its
      descents is at a record other than 1. */
  function TimeMonotonSpec(f: File): (r: seq<Message>)
    requires WellFormed(f)
    ensures forall m :: m in r ==> (m.NonMonotonic? && m.varName in f.names &&
      exists i :: 0 <= i < |m.records| && m.records[i] != 1)
  {
    MonotonOver(f, f.names, true)
  }

  /** time_monoton with every descent reported. */
  function TimeMonotonCorrected(f: File): (r: seq<Message>)
    requires WellFormed(f)
    ensures forall m :: m in r ==> m.NonMonotonic? && m.varName in f.names && m.records != []
  {
    MonotonOver(f, f.names, false)
  }

  /** FileChecks.time_monoton: a loop over the variables; `any(idx)` over
      the 0-based descent positions is Reported(records, true). */
  method TimeMonoton(f: File) returns (errs: seq<Message>)
    requires WellFormed(f)
    ensures errs == TimeMonotonSpec(f)
  {
    errs := [];
    for k := 0 to |f.names|
      invariant errs == MonotonOver(f, f.names[..k], true)
    {
      assert f.names[..k + 1][..k] == f.names[..k];
      var name := f.names[k];
      var v := f.vars[name];
      if IsTimeType(v.cdfType) {
        var records := Descents(v.ticks);
        if Reported(records, true) {
          errs := errs + [NonMonotonic(name, records)];
        }
      }
    }
    assert f.names[..|f.names|] == f.names;
  }

  /** As written, a time variable is reported exactly when it steps back
      somewhere other than between records 0 and 1; other variables never
      are. */
  lemma TimeMonotonReports(f: File, k: nat)
    requires WellFormed(f) && k < |f.names|
    ensures (exists m :: m in TimeMonotonSpec(f) && m.varName == f.names[k]) <==>
      (IsTimeType(f.vars[f.names[k]].cdfType) &&
        exists i :: 0 < i < |f.vars[f.names[k]].ticks| && i != 1 &&
          f.vars[f.names[k]].ticks[i] < f.vars[f.names[k]].ticks[i - 1])
  {
    var t := f.vars[f.names[k]].ticks;
    var d := Descents(t);
    if Reported(d, true) {
      var i :| 0 <= i < |d| && d[i] != 1;
      assert d[i] in d && Descent(t, d[i]);
    }
    if exists x :: 0 < x < |t| && x != 1 && t[x] < t[x - 1] {
      var x :| 0 < x < |t| && x != 1 && t[x] < t[x - 1];
      assert Descent(t, x) && x in d;
      var i :| 0 <= i < |d| && d[i] == x;
    }
    if IsTimeType(f.vars[f.names[k]].cdfType) && Reported(d, true) {
      assert NonMonotonic(f.names[k], d) in TimeMonotonSpec(f);
    }
  }

  /** A time variable is reported exactly when its times are not
      non-decreasing; other variables never are. */
  lemma TimeMonotonFlags(f: File, k: nat)
    requires WellFormed(f) && k < |f.names|
    ensures (exists m :: m in TimeMonotonCorrected(f) && m.varName == f.names[k]) <==>
      (IsTimeType(f.vars[f.names[k]].cdfType) && !NonDecreasing(f.vars[f.names[k]].ticks))
  {
    var v := f.vars[f.names[k]];
    NoDescentMonotone(v.ticks);
    if IsTimeType(v.cdfType) && !NonDecreasing(v.ticks) {
      assert NonMonotonic(f.names[k], Descents(v.ticks)) in TimeMonotonCorrected(f);
    }
  }

  /** The as-written test reports only when the corrected one does, and the
      two differ exactly when record 1 is the only descent. */
  lemma ReportedDiffers(t: seq<int>)
    ensures Reported(Descents(t), true) ==> Reported(Descents(t), false)
    ensures Reported(Descents(t), true) != Reported(Descents(t), false) <==> Descents(t) == [1]
  {
    var d := Descents(t);
    if Reported(d, false) && !Reported(d, true) {
      assert |d| == 1 by {
        assert forall i :: 0 <= i < |d| ==> d[i] == 1;
        assert d[0] == 1 && d[|d| - 1] == 1;
      }
      assert d == [1];
    }
    if Reported(d, true) {
      var i :| 0 <= i < |d| && d[i] != 1;
      assert d != [1];
    }
  }

  /** An EPOCH variable stepping back at record 1 only: [2, 1, 3]. */
  lemma MonotonMissesRecordOne()
    ensures Descents([2, 1, 3]) == [1]
    ensures !Reported(Descents([2, 1, 3]), true) && Reported(Descents([2, 1, 3]), false)
  {
    var t := [2, 1, 3];
    assert DescentsUpTo(t, 1) == [];
    assert DescentsUpTo(t, 2) == [1];
    assert DescentsUpTo(t, 3) == [1];
    ReportedDiffers(t);
  }

  /** Times [t0, t1, t0] with t1 > t0 step back at record 2, the 0-based
      position of the later record, and both tests report it. */
  lemma MonotonLaterRecord(t0: int, t1: int)
    requires t0 < t1
    ensures Descents([t0, t1, t0]) == [2]
    ensures Reported(Descents([t0, t1, t0]), true) && Reported(Descents([t0, t1, t0]), false)
  {
    var t := [t0, t1, t0];
    assert DescentsUpTo(t, 1) == [];
    assert DescentsUpTo(t, 2) == [];
    assert DescentsUpTo(t, 3) == [2];
    assert Descents(t)[0] != 1;
  }

  /** The same record at whole-file level: as written nothing is reported. */
  lemma MonotonFileExample(v: Var)
    requires v.cdfType == EPOCH && v.ticks == [2, 1, 3]
    ensures TimeMonotonSpec(File(["Epoch"], map["Epoch" := v], map[])) == []
    ensures TimeMonotonCorrected(File(["Epoch"], map["Epoch" := v], map[])) == [NonMonotonic("Epoch", [1])]
  {
    var f := File(["Epoch"], map["Epoch" := v], map[]);
    MonotonMissesRecordOne();
    assert f.names[..0] == [];
    assert TimeMonotonSpec(f) == MonotonOver(f, [], true) + [];
    assert TimeMonotonCorrected(f) == MonotonOver(f, [], false) + [NonMonotonic("Epoch", [1])];
  }

  // ------------------------------------------------------------------- times

  /** Eight decimal digits start at p. */
  predicate DigitRun(s: string, p: nat) {
    p + 8 <= |s| && forall k :: p <= k < p + 8 ==> IsDigit(s[k])
  }

  /** `re.search('\d{8}', s)` from position p: the leftmost start of eight
      digits. */
  function FirstRunFrom(s: string, p: nat): (r: Option<nat>)
    ensures r.Some? ==> p <= r.value && DigitRun(s, r.value)
    ensures r.Some? ==> forall q :: p <= q < r.value ==> !DigitRun(s, q)
    ensures r.None? ==> forall q :: p <= q ==> !DigitRun(s, q)
    decreases |s| - p
  {
    if p + 8 > |s| then None
    else if DigitRun(s, p) then Some(p)
    else FirstRunFrom(s, p + 1)
  }

  /** The date the file name carries, if any: its first eight-digit run. */
  function DateOf(fname: string): (r: Option<string>)
    ensures r.Some? ==> |r.value| == 8 && forall k :: 0 <= k < 8 ==> IsDigit(r.value[k])
    ensures r.Some? <==> exists p :: DigitRun(fname, p)
  {
    match FirstRunFrom(fname, 0)
    case None => None
    case Some(p) => Some(fname[p..p + 8])
  }

  /** The times messages of one variable against the date datestr. */
  function DayMessages(name: string, v: Var, fname: string, datestr: string): (r: seq<Message>)
    ensures |r| <= 1
    ensures r != [] ==> IsTimeType(v.cdfType)
    ensures forall m :: m in r ==> (m.MultipleDays? || m.DateMismatch?) && m.varName == name
  {
    if !IsTimeType(v.cdfType) then []
    else
      var days := SortedDistinct(v.days);
      if |days| == 0 then []
      else if |days| > 1 then [MultipleDays(name, days)]
      else if days[0] != datestr then [DateMismatch(name, days[0], fname)]
      else []
  }

  /** A time variable draws a message exactly when one of its days is not the
      file's date. */
  lemma DayMessagesMeaning(name: string, v: Var, fname: string, datestr: string)
    requires IsTimeType(v.cdfType)
    ensures DayMessages(name, v, fname, datestr) != [] <==> exists d :: d in v.days && d != datestr
  {
    var days := SortedDistinct(v.days);
    if exists d :: d in v.days && d != datestr {
      var d :| d in v.days && d != datestr;
      assert d in days;
      if |days| == 1 {
        assert days[0] == d;
      }
    }
    if |days| > 1 {
      assert days[0] in v.days && days[1] in v.days;
      LessIrreflexive(days[0]);
    } else if |days| == 1 {
      assert days[0] in v.days;
    }
  }

  /** The parts laid end to end. */
  function Flatten(parts: seq<seq<Message>>): seq<Message> {
    if parts == [] then [] else Flatten(parts[..|parts| - 1]) + parts[|parts| - 1]
  }

  /** A flattening is empty exactly when every part is. */
  lemma {:induction false} FlattenEmpty(parts: seq<seq<Message>>)
    ensures Flatten(parts) == [] <==> forall k :: 0 <= k < |parts| ==> parts[k] == []
  {
    if parts != [] {
      var n := |parts| - 1;
      var init := parts[..n];
      FlattenEmpty(init);
      assert forall k :: 0 <= k < n ==> init[k] == parts[k];
    }
  }

  /** A flattening holds exactly the messages of its parts. */
  lemma {:induction false} FlattenMembers(parts: seq<seq<Message>>)
    ensures forall m :: m in Flatten(parts) <==> exists k :: 0 <= k < |parts| && m in parts[k]
  {
    if parts != [] {
      var n := |parts| - 1;
      var init := parts[..n];
      FlattenMembers(init);
      var prior := Flatten(init);
      assert Flatten(parts) == prior + parts[n];
      forall m | m in Flatten(parts) ensures exists k :: 0 <= k < |parts| && m in parts[k] {
        if m in prior {
          var k :| 0 <= k < n && m in init[k];
          assert init[k] == parts[k];
        } else {
          assert m in parts[n];
        }
      }
      forall m, k | 0 <= k < |parts| && m in parts[k] ensures m in Flatten(parts) {
        if k < n {
          assert init[k] == parts[k];
          assert m in prior;
        }
      }
    }
  }

  /** The times messages of each of the variables names. */
  function DayParts(f: File, names: seq<string>, fname: string, datestr: string): (r: seq<seq<Message>>)
    requires forall k :: 0 <= k < |names| ==> names[k] in f.vars
    ensures |r| == |names|
    ensures forall k :: 0 <= k < |names| ==> r[k] == DayMessages(names[k], f.vars[names[k]], fname, datestr)
  {
    seq(|names|, k requires 0 <= k < |names| => DayMessages(names[k], f.vars[names[k]], fname, datestr))
  }

  /** The times messages for the variables names, in order. */
  function TimesOver(f: File, names: seq<string>, fname: string, datestr: string): seq<Message>
    requires forall k :: 0 <= k < |names| ==> names[k] in f.vars
  {
    Flatten(DayParts(f, names, fname, datestr))
  }

  /** What times reports for a file named fname. */
  function TimesSpec(f: File, fname: string): (r: seq<Message>)
    requires WellFormed(f)
    ensures DateOf(fname).None? <==> r == [CannotParseDate(fname)]
    ensures forall m :: m in r ==> m.CannotParseDate? || m.MultipleDays? || m.DateMismatch?
  {
    match DateOf(fname)
    case None => [CannotParseDate(fname)]
    case Some(datestr) =>
      var parts := DayParts(f, f.names, fname, datestr);
      var r := Flatten(parts);
      FlattenMembers(parts);
      assert forall m :: m in r ==> m.MultipleDays? || m.DateMismatch? by {
        forall m | m in r ensures m.MultipleDays? || m.DateMismatch? {
          var k :| 0 <= k < |parts| && m in parts[k];
        }
      }
      assert r != [] ==> r[0] in r;
      r
  }

  /** FileChecks.times: a loop over the variables once the date is found. */
  method Times(f: File, fname: string) returns (errs: seq<Message>)
    requires WellFormed(f)
    ensures errs == TimesSpec(f, fname)
  {
    var m := DateOf(fname);
    if m.None? {
      return [CannotParseDate(fname)];
    }
    var datestr := m.value;
    ghost var parts := DayParts(f, f.names, fname, datestr);
    errs := [];
    for k := 0 to |f.names|
      invariant errs == Flatten(parts[..k])
    {
      assert parts[..k + 1][..k] == parts[..k];
      var name := f.names[k];
      var v := f.vars[name];
      if IsTimeType(v.cdfType) {
        var days := SortedDistinct(v.days);
        if |days| == 0 {
        } else if |days| > 1 {
          errs := errs + [MultipleDays(name, days)];
        } else if days[0] != datestr {
          errs := errs + [DateMismatch(name, days[0], fname)];
        }
      }
    }
    assert parts[..|f.names|] == parts;
  }

  /** times is silent exactly when the name carries a date and every time
      variable's timestamps all fall on that day. */
  lemma TimesClean(f: File, fname: string)
    requires WellFormed(f)
    ensures TimesSpec(f, fname) == [] <==>
      DateOf(fname).Some?
      && forall k :: 0 <= k < |f.names| && IsTimeType(f.vars[f.names[k]].cdfType) ==>
           forall d :: d in f.vars[f.names[k]].days ==> d == DateOf(fname).value
  {
    if DateOf(fname).Some? {
      var datestr := DateOf(fname).value;
      FlattenEmpty(DayParts(f, f.names, fname, datestr));
      forall k | 0 <= k < |f.names| && IsTimeType(f.vars[f.names[k]].cdfType) {
        DayMessagesMeaning(f.names[k], f.vars[f.names[k]], fname, datestr);
      }
    }
  }

  /** The date is the leftmost eight-digit run: "ab_20240101_v01.cdf". */
  lemma DateExample()
    ensures DateOf("ab_20240101_v01.cdf") == Some("20240101")
  {
    var s := "ab_20240101_v01.cdf";
    assert DigitRun(s, 3) by {
      assert s[3..11] == "20240101";
      forall k | 3 <= k < 11 ensures IsDigit(s[k]) {
        assert s[k] == s[3..11][k - 3];
      }
    }
    assert FirstRunFrom(s, 3) == Some(3);
    assert !IsDigit(s[2]) && FirstRunFrom(s, 2) == Some(3);
    assert !IsDigit(s[1]) && FirstRunFrom(s, 1) == Some(3);
    assert !IsDigit(s[0]) && FirstRunFrom(s, 0) == Some(3);
    assert s[3..11] == "20240101";
  }

  // --------------------------------------------------------------------- all

  /** Each message of variable name, prefixed by that name. */
  function Prefix(name: string, ms: seq<Message>): (r: seq<Message>)
    ensures |r| == |ms|
    ensures forall i :: 0 <= i < |ms| ==> r[i] == Prefixed(name, ms[i])
  {
    seq(|ms|, i requires 0 <= i < |ms| => Prefixed(name, ms[i]))
  }

  /** The messages of variable name under the checks cs; with cs the
      order VariableChecks.all uses, what that call reports. */
  function VarChecks(f: File, name: string, cs: seq<VariableChecks.Check>): Result<seq<Message>>
    requires name in f.vars
  {
    VariableChecks.RunAll(cs, f.vars[name], f)
  }

  /** The outcome of the checks cs on each of the variables names. */
  function VarResults(f: File, names: seq<string>, cs: seq<VariableChecks.Check>): (r: seq<Result<seq<Message>>>)
    requires forall k :: 0 <= k < |names| ==> names[k] in f.vars
    ensures |r| == |names|
    ensures forall k :: 0 <= k < |names| ==> r[k] == VarChecks(f, names[k], cs)
  {
    seq(|names|, k requires 0 <= k < |names| => VarChecks(f, names[k], cs))
  }

  /** The per-variable outcomes taken in order, their messages prefixed by
      the variable's name; the first exception ends the run. */
  function Collect(names: seq<string>, results: seq<Result<seq<Message>>>): (r: Result<seq<Message>>)
    requires |names| == |results|
  {
    if names == [] then Ok([])
    else
      var n := |names| - 1;
      var found :- Collect(names[..n], results[..n]);
      var more :- results[n];
      Ok(found + Prefix(names[n], more))
  }

  /** The file-level messages: filename, time_monoton (as written or
      corrected) and times. */
  function FileLevel(f: File, fname: string, asWritten: bool): (r: seq<Message>)
    requires WellFormed(f)
    ensures forall m :: m in r ==> !m.Prefixed?
  {
    var byName, byTime, byDate := FilenameSpec(f, fname), MonotonOver(f, f.names, asWritten), TimesSpec(f, fname);
    assert forall m :: m in byName + byTime + byDate ==> m in byName || m in byTime || m in byDate;
    byName + byTime + byDate
  }

  /** What all reports, as written or with the corrected validrange and
      time_monoton: the file-level messages, then each variable's. */
  function AllWith(f: File, fname: string, asWritten: bool): (r: Result<seq<Message>>)
    requires WellFormed(f)
    ensures r.Ok? ==> FileLevel(f, fname, asWritten) <= r.value
  {
    var found :- Collect(f.names, VarResults(f, f.names, VariableChecks.OrderFor(asWritten)));
    Ok(FileLevel(f, fname, asWritten) + found)
  }

  /** What FileChecks.all reports. */
  function AllSpec(f: File, fname: string): (r: Result<seq<Message>>)
    requires WellFormed(f)
    ensures r.Ok? ==> FilenameSpec(f, fname) + TimeMonotonSpec(f) + TimesSpec(f, fname) <= r.value
  {
    AllWith(f, fname, true)
  }

  /** all with the corrected validrange and time_monoton. */
  function AllCorrected(f: File, fname: string): (r: Result<seq<Message>>)
    requires WellFormed(f)
    ensures r.Ok? ==> FilenameSpec(f, fname) + TimeMonotonCorrected(f) + TimesSpec(f, fname) <= r.value
  {
    AllWith(f, fname, false)
  }

  /** A file whose one INT1 variable has VALIDMAX but no VALIDMIN: the
      KeyError of validrange escapes all, while the corrected run reaches
      the variable's checks without it. */
  lemma AllMaxAloneExample()
    ensures AllSpec(File(["x"], map["x" := MaxAloneVar()], map[]), "x.cdf").Raise?
    ensures VariableChecks.ValidRangeCorrected(MaxAloneVar()).Ok?
  {
    var v := MaxAloneVar();
    var f := File(["x"], map["x" := v], map[]);
    VariableChecks.AsWrittenMaxAlone(v);
    if VarChecks(f, "x", VariableChecks.Order).Ok? {
      VariableChecks.AllChecksOk(v, f);
      assert false;
    }
    AllRaises(f, "x.cdf", true);
  }

  function MaxAloneVar(): Var {
    Var("x", INT1, [0], true, map["VALIDMAX" := IntVal(5)], ["VALIDMAX"], 0, [], [], [])
  }

  /** FileChecks.all. */
  method All(f: File, fname: string) returns (r: Result<seq<Message>>)
    requires WellFormed(f)
    ensures r == AllSpec(f, fname)
  {
    var byName := Filename(f, fname);
    var byTime := TimeMonoton(f);
    var byDate := Times(f, fname);
    var found :- CheckVariables(f);
    assert VariableChecks.OrderFor(true) == VariableChecks.Order;
    return Ok(byName + byTime + byDate + found);
  }

  /** The loop of all over the variables, each checked by
      VariableChecks.all and its messages prefixed with its name. */
  method CheckVariables(f: File) returns (r: Result<seq<Message>>)
    requires WellFormed(f)
    ensures r == Collect(f.names, VarResults(f, f.names, VariableChecks.Order))
  {
    ghost var results := VarResults(f, f.names, VariableChecks.Order);
    var found: seq<Message> := [];
    for k := 0 to |f.names|
      invariant Collect(f.names[..k], results[..k]) == Ok(found)
    {
      var name := f.names[k];
      var more := VariableChecks.All(f.vars[name], f);
      assert more == results[k];
      CollectStep(f.names, results, k);
      if more.Raise? {
        CollectRaiseSticks(f.names, results, k + 1);
        return Raise(more.exc);
      }
      found := found + Prefix(name, more.value);
    }
    assert f.names[..|f.names|] == f.names && results[..|f.names|] == results;
    return Ok(found);
  }

  /** One more outcome: its exception, or its messages appended. */
  lemma CollectStep(names: seq<string>, results: seq<Result<seq<Message>>>, k: nat)
    requires k < |names| == |results| && Collect(names[..k], results[..k]).Ok?
    ensures Collect(names[..k + 1], results[..k + 1]) ==
      if results[k].Raise? then Raise(results[k].exc)
      else Ok(Collect(names[..k], results[..k]).value + Prefix(names[k], results[k].value))
  {
    assert names[..k + 1][..k] == names[..k] && results[..k + 1][..k] == results[..k];
  }

  /** Once a prefix of the outcomes raises, the whole run raises the same. */
  lemma {:induction false} CollectRaiseSticks(names: seq<string>, results: seq<Result<seq<Message>>>, n: nat)
    requires |names| == |results|
    requires 0 < n <= |names| && Collect(names[..n], results[..n]).Raise?
    ensures Collect(names, results) == Collect(names[..n], results[..n])
    decreases |names| - n
  {
    if n < |names| {
      assert names[..n + 1][..n] == names[..n] && results[..n + 1][..n] == results[..n];
      CollectRaiseSticks(names, results, n + 1);
    } else {
      assert names[..n] == names && results[..n] == results;
    }
  }

  /** A run succeeds exactly when every outcome does; when it raises, it
      raises the exception of the first outcome that raises. */
  lemma {:induction false} CollectOk(names: seq<string>, results: seq<Result<seq<Message>>>)
    requires |names| == |results|
    ensures Collect(names, results).Ok? <==> forall k :: 0 <= k < |results| ==> results[k].Ok?
    ensures Collect(names, results).Raise? ==>
      exists k :: (0 <= k < |results| && results[k].Raise?
        && (forall j :: 0 <= j < k ==> results[j].Ok?) && Collect(names, results).exc == results[k].exc)
  {
    if names != [] {
      var n := |names| - 1;
      var init := results[..n];
      CollectOk(names[..n], init);
      assert forall k :: 0 <= k < n ==> init[k] == results[k];
      if Collect(names, results).Raise? && Collect(names[..n], init).Ok? {
        assert results[n].Raise?;
      }
    }
  }

  /** In a successful run every outcome's messages appear, prefixed by its
      variable's name, and every message is such a prefixed message. */
  lemma {:induction false} CollectMessages(names: seq<string>, results: seq<Result<seq<Message>>>)
    requires |names| == |results| && Collect(names, results).Ok?
    ensures forall k :: 0 <= k < |results| ==> results[k].Ok?
    ensures forall k, m :: 0 <= k < |results| && results[k].Ok? && m in results[k].value ==>
      Prefixed(names[k], m) in Collect(names, results).value
    ensures forall m :: m in Collect(names, results).value ==>
      m.Prefixed? && exists k :: (0 <= k < |results| && names[k] == m.varName && results[k].Ok?
        && m.inner in results[k].value)
  {
    CollectOk(names, results);
    if names != [] {
      var n := |names| - 1;
      var init, rinit := names[..n], results[..n];
      assert forall k :: 0 <= k < n ==> init[k] == names[k] && rinit[k] == results[k];
      CollectMessages(init, rinit);
      var more := results[n].value;
      PrefixMembers(names[n], more);
      assert Collect(names, results).value == Collect(init, rinit).value + Prefix(names[n], more);
    }
  }

  lemma PrefixMembers(name: string, ms: seq<Message>)
    ensures forall m :: m in Prefix(name, ms) ==> m.Prefixed? && m.varName == name && m.inner in ms
    ensures forall m :: m in ms ==> Prefixed(name, m) in Prefix(name, ms)
  {
    var p := Prefix(name, ms);
    forall m | m in p
      ensures m.Prefixed? && m.varName == name && m.inner in ms
    {
      var i :| 0 <= i < |p| && p[i] == m;
      assert m == Prefixed(name, ms[i]);
    }
    forall m | m in ms
      ensures Prefixed(name, m) in p
    {
      var i :| 0 <= i < |ms| && ms[i] == m;
      assert p[i] == Prefixed(name, m);
    }
  }

  /** all raises exactly when the checks of some variable raise, and then
      raises the exception of the first such variable in file order; as
      written and corrected alike. */
  lemma AllRaises(f: File, fname: string, asWritten: bool)
    requires WellFormed(f)
    ensures AllWith(f, fname, asWritten).Raise? <==>
      exists k :: 0 <= k < |f.names| && VarChecks(f, f.names[k], VariableChecks.OrderFor(asWritten)).Raise?
    ensures AllWith(f, fname, asWritten).Raise? ==>
      exists k :: (0 <= k < |f.names|
        && VarChecks(f, f.names[k], VariableChecks.OrderFor(asWritten)).Raise?
        && (forall j :: 0 <= j < k ==> VarChecks(f, f.names[j], VariableChecks.OrderFor(asWritten)).Ok?)
        && AllWith(f, fname, asWritten).exc == VarChecks(f, f.names[k], VariableChecks.OrderFor(asWritten)).exc)
  {
    CollectOk(f.names, VarResults(f, f.names, VariableChecks.OrderFor(asWritten)));
  }

  /** A successful all starts with the filename, time_monoton and times
      messages, and every later message is some variable's message prefixed
      by its name; as written and corrected alike. */
  lemma AllMessages(f: File, fname: string, asWritten: bool)
    requires WellFormed(f) && AllWith(f, fname, asWritten).Ok?
    ensures forall k, m :: (0 <= k < |f.names| && VarChecks(f, f.names[k], VariableChecks.OrderFor(asWritten)).Ok?
      && m in VarChecks(f, f.names[k], VariableChecks.OrderFor(asWritten)).value) ==>
      Prefixed(f.names[k], m) in AllWith(f, fname, asWritten).value
    ensures forall m :: m in AllWith(f, fname, asWritten).value && m.Prefixed? ==>
      m.varName in f.names && m.varName in f.vars && VarChecks(f, m.varName, VariableChecks.OrderFor(asWritten)).Ok?
      && m.inner in VarChecks(f, m.varName, VariableChecks.OrderFor(asWritten)).value
  {
    var cs := VariableChecks.OrderFor(asWritten);
    var results := VarResults(f, f.names, cs);
    CollectMessages(f.names, results);
    var head := FileLevel(f, fname, asWritten);
    var found := Collect(f.names, results).value;
    assert AllWith(f, fname, asWritten).value == head + found;
    forall m | m in found
      ensures m.varName in f.names && m.varName in f.vars && VarChecks(f, m.varName, cs).Ok?
      && m.inner in VarChecks(f, m.varName, cs).value
    {
      var k :| 0 <= k < |results| && f.names[k] == m.varName && results[k].Ok? && m.inner in results[k].value;
    }
  }
}
