# ISTP metadata checks and inference, modelled in Dafny

This project models the ISTP compliance module of SpacePy's CDF library,
`spacepy/pycdf/istp.py`. A CDF file holds variables with attributes. The
ISTP convention says:

- which attributes a variable must carry;
- how a variable names the variables it depends on (`DEPEND_n`, `LABL_PTR_n`);
- how its sizes must agree with theirs;
- what ranges its bounds may take;
- how time variables relate to the file name.

The module has two halves, and the model follows both.

- **Checks.** `VariableChecks` checks one variable and `FileChecks` checks a whole
  file. Each check returns a list of error messages. Their `all` methods run
  every check in a fixed order and concatenate the messages. An exception
  raised by any check ends the run.
- **Inference.** `fillval` writes the ISTP fill value of a variable's type over
  its `FILLVAL` attribute. `format` derives a Fortran-style `FORMAT` token from
  the type and the `VALIDMIN`/`VALIDMAX` or `SCALEMIN`/`SCALEMAX` attributes.
  Both use the type-range tables `get_min` and `get_max`.

The CDF is seen only through the values the checks read:

- a `Var` holds a name, type code, shape, record-varying flag, attribute map and
  attribute order, plus:
  - its record count;
  - its flattened data;
  - its timestamps, both as ordered integers and as `YYYYMMDD` day strings;
- a `File` holds the variable names in order, a name-to-variable map and the
  first entry of each global attribute.

The file's base name is a parameter, and so is the element count of a
character variable, which only `format` reads. Every message template is a constructor
of `Cdf.Message` that carries the template's fields. Every exception the
source can raise is a constructor of `Cdf.Exception`, and a check that can
raise returns `Result<seq<Message>>`.

Modules, one per file:

- `Cdf` (cdf.dfy): the data model.
- `Strings` (strings.dfy): Python's `str(int)`, `startswith`, `s[:-4]`, `int()`
  on floats, and `sorted(set(...))` of strings.
- `Ranges` (ranges.dfy): `get_min` and `get_max`.
- `FillVal` (fillval.dfy): `fillval`.
- `Format` (format.dfy): `format`.
- `DependShapes` (depend_shapes.dfy): the list-removal loop of `depsize`.
- `VariableChecks` (variable_checks.dfy): depends, depsize, recordcount,
  validrange, validscale, validplottype, fieldnam and `all`.
- `FileChecks` (file_checks.dfy): filename, time_monoton, times and `all`.

Code that loops or updates state is written as methods with loops, each proved
equal to a specification function:

- the fill table construction (`FillVal.SizedFills`, `FillVal.BaseFills`,
  `FillVal.BuildFillTable`);
- the attribute updates (`Cdf.AttrList`, `FillVal.ApplyFillVal`,
  `Format.ApplyFormat`);
- the remove-while-iterating pass (`DependShapes.RemoveShared`);
- the dimension loop of depsize (`VariableChecks.DimsLoop`);
- both `all` drivers;
- the per-variable loops of the file checks.

The properties are then proved about those specification functions.

For times `[t0, t1, t0]` with `t1 > t0`, `time_monoton` reports record 2, the
0-based position of the later record (`FileChecks.MonotonLaterRecord`).

Both `all` drivers run validrange and time_monoton as the source writes them
(`VariableChecks.ValidRange`, `FileChecks.TimeMonotonSpec`). The two defects
listed under Findings are also modelled corrected, beside the as-written
versions:

- `VariableChecks.ValidRangeCorrected`;
- `FileChecks.TimeMonotonCorrected`;
- the check order `VariableChecks.CorrectedOrder`, which runs the corrected
  validrange;
- `FileChecks.AllCorrected`, which runs both corrections.

The lemmas about the run of all (`VariableChecks.RunAll*`, `FileChecks.AllRaises`,
`FileChecks.AllMessages`) hold for either version.

## Model

| member | source | states |
|---|---|---|
| Ranges.GetMax | spacepy/pycdf/istp.py:578-613 | raises UnknownType exactly for EPOCH16 and codes outside CDF; the bound per type as the table gives it, 1E4932 as infinity |
| Ranges.GetMin | spacepy/pycdf/istp.py:616-649 | raises UnknownType exactly for EPOCH16 and codes outside CDF; the bound per type as the table gives it, -1E4932 as minus infinity |
| Ranges.MinLeMax | spacepy/pycdf/istp.py:578-649 | either table accepts a type only when both do, and then the minimum does not exceed the maximum |
| Ranges.SignedBounds | spacepy/pycdf/istp.py:586-602 | INT1, INT2, INT4, INT8 span -2^(8n-1) .. 2^(8n-1)-1 |
| Ranges.UnsignedBounds | spacepy/pycdf/istp.py:590-600 | UINT1, UINT2, UINT4 span 0 .. 2^(8n)-1 |
| Ranges.AliasRanges | spacepy/pycdf/istp.py:586-611 | BYTE and CHAR share INT1's range, UCHAR UINT1's, FLOAT REAL4's, DOUBLE and EPOCH REAL8's, TIME_TT2000 INT8's |
| FillVal.FillValue | spacepy/pycdf/istp.py:421-443 | the fill table has an entry for every CDF type and none for other codes |
| FillVal.SizedFills | spacepy/pycdf/istp.py:423-429 | the integer loop fills exactly the sized integer types, each with its table value |
| FillVal.BaseFills | spacepy/pycdf/istp.py:421-434 | before the aliases the table holds exactly the base types, each with its table value |
| FillVal.BuildFillTable | spacepy/pycdf/istp.py:421-443 | the built table, aliases included, is exactly the written-out fill table |
| FillVal.FillDomain | spacepy/pycdf/istp.py:430-443 | the table covers exactly the base types plus the five aliases |
| FillVal.FillIsTypeExtreme | spacepy/pycdf/istp.py:423-429 | INTn's fill is -2^(8n-1), equal to get_min(INTn); UINTn's fill is 2^(8n)-1, equal to get_max(UINTn) |
| FillVal.AliasPairs | spacepy/pycdf/istp.py:436-443 | each alias is copied from a base type already in the table, with the same fill |
| FillVal.FillValAttrs | spacepy/pycdf/istp.py:444-446 | FILLVAL becomes the table entry, or is gone for a type without one; no other attribute changes |
| FillVal.ApplyFillVal | spacepy/pycdf/istp.py:414-446 | the attribute list after fillval, and the KeyError for a type without entry, raised after the old FILLVAL was deleted |
| FillVal.FillValIdempotent | spacepy/pycdf/istp.py:444-446 | applying fillval twice leaves what applying it once leaves |
| Cdf.AttrList.Delete | spacepy/pycdf/istp.py:445 | deleting an attribute removes exactly that key |
| Cdf.AttrList.New | spacepy/pycdf/istp.py:446 | creating an attribute sets exactly that key |
| Format.NaturalRange | spacepy/pycdf/istp.py:476-498 | the natural minimum and maximum of each integer type are the power-of-two bounds and agree with get_min/get_max |
| Format.BoundAttr | spacepy/pycdf/istp.py:474-487 | the chosen attribute's number, whole or real, when present, else the natural bound; a non-number raises |
| Format.Log10Trunc | spacepy/pycdf/istp.py:503-508 | `int(math.log10(x))`: for x >= 1 the e with 10^e <= x < 10^(e+1); below 1, -e with 10^e <= 1/x < 10^(e+1) |
| Format.WholeLog10 | spacepy/pycdf/istp.py:503-508 | on a whole number n >= 1, int(log10(n)) is its digit count less one |
| Format.IntegerWidth | spacepy/pycdf/istp.py:503-508 | raises (math domain) exactly for a non-negative minimum with a negative maximum; a negative minimum gives at least two columns; for a maximum >= 1 the width w has 10^(w-1) <= max < 10^w |
| Format.WholeWidth | spacepy/pycdf/istp.py:503-508 | on whole bounds the width is the digit count of the largest magnitude plus one for a negative minimum, else the digit count of the maximum |
| Format.IntegerWidthFits | spacepy/pycdf/istp.py:503-508 | on whole bounds with min <= max the width holds the decimal rendering of both bounds, with at most one column to spare |
| Format.IntegerWidthDomain | spacepy/pycdf/istp.py:507-508 | a non-negative minimum with a negative maximum takes log10 of a negative number and raises |
| Format.IntegerWidthFractions | spacepy/pycdf/istp.py:507-508 | a maximum in (0, 1) truncates a negative log10 toward zero: 0.5 gives 1, 0.1 and 0.05 give 0, 0.01 gives -1 |
| Format.RangeOf | spacepy/pycdf/istp.py:520-527 | the range is absent exactly when neither the SCALE pair nor the VALID pair is complete |
| Format.FloatFormat | spacepy/pycdf/istp.py:528-561 | the float branch yields F or G10.2E3, or raises for a non-number range, a bound `int()` cannot read, or an unbound ln |
| Format.IntOf | spacepy/pycdf/istp.py:532-536 | `int()` of an attribute: a whole number unchanged, a real truncated, a text parsed as a signed whole number; any other value raises |
| Format.IntegerFormat | spacepy/pycdf/istp.py:466-508 | the integer branch yields an I token, or raises for a non-numeric bound or a math domain error |
| Format.FormatFor | spacepy/pycdf/istp.py:459-569 | unknown types raise ValueError; time and character types get A tokens, integer types I, float types F or G10.2E3 |
| Format.ApplyFormat | spacepy/pycdf/istp.py:570-575 | FORMAT is replaced by the token unless dryrun or an exception, and nothing else changes |
| Format.NaturalColumnsWidth | spacepy/pycdf/istp.py:474-508 | the natural range gives width 4 for INT1 and BYTE, 3 for UINT1, 6 for INT2, 5 for UINT2, 11 for INT4, 10 for UINT4, 20 for INT8 |
| Format.NaturalWidth | spacepy/pycdf/istp.py:474-508 | without the chosen pair an integer type's width is that of its natural range |
| Format.NaturalFormatsShort | spacepy/pycdf/istp.py:466-508 | natural ranges give I4 for INT1 and BYTE, I3 for UINT1, I6 for INT2, I5 for UINT2 |
| Format.NaturalFormatsLong | spacepy/pycdf/istp.py:466-508 | natural ranges give I11 for INT4, I10 for UINT4, I20 for INT8 |
| Format.IntegerFormatFits | spacepy/pycdf/istp.py:474-508 | whole chosen bounds with min <= max both fit the derived width |
| Format.RealBoundsExample | spacepy/pycdf/istp.py:466-508 | VALIDMIN 0.0 and VALIDMAX 100.0 on INT2 give I3, as whole bounds would |
| Format.TimeFormats | spacepy/pycdf/istp.py:509-565 | TIME_TT2000 gives A29, EPOCH16 A36, EPOCH A24, CHAR and UCHAR A(nelems) |
| Format.FloatTiers | spacepy/pycdf/istp.py:531-561 | F exactly for ranges in (0, 1000], with 3/2/1 decimals up to 11/101/1000 and width len(ln) + 1 + decimals; else G10.2E3 |
| Format.FloatUnboundLn | spacepy/pycdf/istp.py:531-537 | a non-zero range with the chosen pair absent reads ln unbound and raises |
| Format.FloatExample | spacepy/pycdf/istp.py:549-551 | VALIDMIN 0, VALIDMAX 9 on REAL8 gives F5.3 |
| Format.FloatTextBounds | spacepy/pycdf/istp.py:520-551 | REAL8 with SCALE 0.0/10.0 and text VALID bounds "1"/"5" gives F5.3 without use_scaleminmax; a text "5.0" raises |
| Strings.DropLast4 | spacepy/pycdf/istp.py:349 | `s[:-4]`: the name less its last four characters, empty when shorter |
| Strings.SortedDistinct | spacepy/pycdf/istp.py:398-405 | `sorted(set(days))`: strictly ascending and holding exactly the days that occur |
| Strings.SortedUnique | spacepy/pycdf/istp.py:398-405 | a strictly sorted sequence is fixed by its elements, so the sorted day list is well defined |
| Strings.Trunc | spacepy/pycdf/istp.py:532-536 | `int()` on a float truncates toward zero |
| Strings.ParseInt | spacepy/pycdf/istp.py:532-536 | `int()` on text has a value exactly for an optional sign followed by one or more digits, the digits' value with leading zeros allowed, non-positive after a minus |
| Strings.ParseIntRoundTrip | spacepy/pycdf/istp.py:532-536 | `int(str(i)) == i` for every integer |
| Strings.ParseIntExamples | spacepy/pycdf/istp.py:532-536 | "007" is 7, "+5" is 5, "-12" is -12; "", "-", "1.5" and " 1" have no value |
| Strings.DigitsBounds | spacepy/pycdf/istp.py:503-508 | the digit count d of n satisfies 10^(d-1) <= n < 10^d, i.e. int(log10(n)) + 1 |
| DependShapes.RemoveFirst | spacepy/pycdf/istp.py:128 | `list.remove` shortens the list by one |
| DependShapes.RemoveFirstMultiset | spacepy/pycdf/istp.py:128 | `list.remove(x)` takes exactly one copy of x out of the list |
| DependShapes.RemoveFirstTail | spacepy/pycdf/istp.py:128 | removing the value at position k leaves everything after k in order, one slot to the left |
| DependShapes.RemoveFirstAt | spacepy/pycdf/istp.py:128 | removing a value whose first occurrence is at k removes exactly position k |
| DependShapes.RemoveShared | spacepy/pycdf/istp.py:125-128 | the remove-while-iterating loop, step by step, computes the pass |
| DependShapes.SkipFilter | spacepy/pycdf/istp.py:126-128 | positional reference: a shared size is dropped and the next one skipped unexamined |
| DependShapes.RemovalPassMultiset | spacepy/pycdf/istp.py:126-128 | the pass keeps the same sizes as the positional reference, up to order |
| DependShapes.RemovalPassDistinct | spacepy/pycdf/istp.py:126-128 | with no repeated size the pass is exactly the positional reference |
| DependShapes.RemovalPassUntouched | spacepy/pycdf/istp.py:126-128 | a shape sharing no size is left unchanged |
| DependShapes.RemovalExamples | spacepy/pycdf/istp.py:112-128 | [80,48] less (80) leaves [48]; [80,80,48] leaves [80,48]; [80,81] less (80,81) leaves [81] |
| DependShapes.RemovalOrderExample | spacepy/pycdf/istp.py:126-128 | with repeated sizes the order can differ: [1,2,3,2] less (1,2) leaves [3,2] |
| DependShapes.Without | spacepy/pycdf/istp.py:126-128 | the plain filter keeps exactly the unshared sizes |
| DependShapes.WithoutDistinct | spacepy/pycdf/istp.py:126-128 | the plain filter keeps distinct sizes distinct |
| DependShapes.SkipFilterIsFilter | spacepy/pycdf/istp.py:126-128 | without two shared sizes in a row the positional reference is the plain filter |
| DependShapes.RemovalPassFilters | spacepy/pycdf/istp.py:126-128 | distinct sizes, no adjacent shared pair: the pass removes exactly the shared sizes |
| DependShapes.AdjacentSharedKept | spacepy/pycdf/istp.py:126-128 | an adjacent shared pair keeps its second member: [80,81,48] less (80,81) leaves [81,48] |
| VariableChecks.DependsOver | spacepy/pycdf/istp.py:77-80 | the comprehension reports only dangling DEPEND_/LABL_PTR_ attributes with their values, and every one of them |
| VariableChecks.Depends | spacepy/pycdf/istp.py:69-80 | every message names a dangling reference and its value |
| VariableChecks.DependsExact | spacepy/pycdf/istp.py:77-80 | an attribute is reported iff it dangles, and at most once |
| VariableChecks.DependsEmpty | spacepy/pycdf/istp.py:77-80 | depends is silent iff every reference names a variable of the file |
| VariableChecks.DimCheck | spacepy/pycdf/istp.py:98-152 | one dimension yields at most one message; the only exceptions are a non-text DEPEND_0 and an index error |
| VariableChecks.DimsUpTo | spacepy/pycdf/istp.py:97-152 | the loop adds at most one message per dimension |
| VariableChecks.DepSizeSpec | spacepy/pycdf/istp.py:83-154 | depsize yields at most one message per dimension plus the shape-(0,) one, and raises only for a non-text DEPEND_0 or an index error |
| VariableChecks.DimStep | spacepy/pycdf/istp.py:98-152 | one iteration of the loop, removal passes included, as specified |
| VariableChecks.DepSize | spacepy/pycdf/istp.py:83-154 | depsize computes the specified messages or exception |
| VariableChecks.DimsLoop | spacepy/pycdf/istp.py:97-152 | the loop over the dimensions computes their messages, or the first exception |
| VariableChecks.DimsAdvance | spacepy/pycdf/istp.py:97-152 | one more dimension either ends the loop with its exception or appends its messages |
| VariableChecks.RaiseSticks | spacepy/pycdf/istp.py:97-152 | once a dimension raises, the rest of the loop raises the same exception |
| VariableChecks.DepSizeShapeZero | spacepy/pycdf/istp.py:94-96 | the shape-(0,) message appears once, at the head, iff shape is (0,) with DEPEND_1 or DEPEND_2 |
| VariableChecks.DimDirect | spacepy/pycdf/istp.py:148-152 | a plain dependency compares the dimension with its first non-record size; only a mismatch is reported |
| VariableChecks.DimTwoLevel | spacepy/pycdf/istp.py:119-147 | a dependent dependency's shape less the sub-dependency's sizes is compared when one size is left |
| VariableChecks.DimEpochLeftover | spacepy/pycdf/istp.py:119-147 | with a resolving Epoch DEPEND_0 the sizes left after removing the sub-dependency's and then the record variable's sizes are compared |
| VariableChecks.DimEpochWithout | spacepy/pycdf/istp.py:119-147 | with distinct sizes and no adjacent shared ones, the sizes compared are those found in neither the sub-dependency nor the record variable |
| VariableChecks.DimThreeLayers | spacepy/pycdf/istp.py:116-118 | a dependency with DEPEND_2 gives the three-layers message and is not compared |
| VariableChecks.DimEpochPrefixFirst | spacepy/pycdf/istp.py:129-138 | a DEPEND_0 not starting with Epoch is reported before its existence is checked |
| VariableChecks.DimUnresolvedSkipped | spacepy/pycdf/istp.py:100-106 | a missing or unresolved DEPEND_x is skipped silently |
| VariableChecks.CountsExample | spacepy/pycdf/istp.py:112-114 | counts [rec,80,48] with energy [80,48] depending on look [80] passes; energy [80,32] reports dimension 2 |
| VariableChecks.RecordCount | spacepy/pycdf/istp.py:157-173 | one message iff record-varying with a resolving DEPEND_0 of a different record count |
| VariableChecks.Flagged | spacepy/pycdf/istp.py:188-195 | the flagged positions are exactly the values beyond the bound and not close to fill, ascending |
| VariableChecks.Pick | spacepy/pycdf/istp.py:194 | `data[idx]`: the values at the flagged positions |
| VariableChecks.FillOf | spacepy/pycdf/istp.py:189-191 | the fill comparison raises only for a non-numeric FILLVAL that is consulted |
| VariableChecks.IsClose | spacepy/pycdf/istp.py:189-191 | `numpy.isclose` with its default tolerances: every value is close to itself; close to 0 means within 1e-08 |
| VariableChecks.Scan | spacepy/pycdf/istp.py:187-211 | a scan raises for a non-numeric bound or fill and otherwise yields at most one under/over message |
| VariableChecks.ScanFlags | spacepy/pycdf/istp.py:187-211 | a scan message appears iff some value is beyond the bound and not fill |
| VariableChecks.OutOfType | spacepy/pycdf/istp.py:197-201 | one message iff the bound lies outside get_min .. get_max of the type |
| VariableChecks.MaxOutOfTypeAsWritten | spacepy/pycdf/istp.py:212-216 | as written: KeyError without VALIDMIN, else reports when VALIDMIN < min or VALIDMAX > max |
| VariableChecks.Ordering | spacepy/pycdf/istp.py:217-219 | one message iff both bounds are present and MIN > MAX |
| VariableChecks.LowerPart | spacepy/pycdf/istp.py:187-201 | the VALIDMIN block yields under messages and VALIDMIN range messages only |
| VariableChecks.UpperPart | spacepy/pycdf/istp.py:202-216 | the VALIDMAX block yields over messages and VALIDMAX range messages only |
| VariableChecks.LowerFacts | spacepy/pycdf/istp.py:187-201 | a successful VALIDMIN block: an under message iff a non-fill value is below VALIDMIN, a range message iff VALIDMIN is outside the type range |
| VariableChecks.UpperFacts | spacepy/pycdf/istp.py:202-216 | a successful VALIDMAX block: an over message iff a non-fill value is above VALIDMAX; its range message iff VALIDMAX is outside the type range, or as written iff VALIDMIN is below the minimum or VALIDMAX above the maximum |
| VariableChecks.ValidRangeWith | spacepy/pycdf/istp.py:176-220 | at most five messages, each an under, over, type-range or ordering message |
| VariableChecks.ValidRange | spacepy/pycdf/istp.py:176-220 | validrange as written: VALIDMAX without VALIDMIN raises |
| VariableChecks.ValidRangeCorrected | spacepy/pycdf/istp.py:176-220 | corrected validrange: silent when neither bound is set |
| VariableChecks.ValidRangeRaises | spacepy/pycdf/istp.py:176-220 | as written raises iff the corrected version does or VALIDMAX is set without VALIDMIN; then, unless something else raised, KeyError on VALIDMIN |
| VariableChecks.ValidRangeCorrectedRaises | spacepy/pycdf/istp.py:176-220 | corrected: raises iff a bound or consulted fill is not a number, or a bound is set on a type without range |
| VariableChecks.ValidRangeParts | spacepy/pycdf/istp.py:184-220 | as written or corrected, every message comes from the VALIDMIN block, the VALIDMAX block or the ordering test |
| VariableChecks.ValidRangeScans | spacepy/pycdf/istp.py:187-211 | as written or corrected, an under (over) message iff some non-fill value is below VALIDMIN (above VALIDMAX) |
| VariableChecks.ValidRangeTypeRange | spacepy/pycdf/istp.py:197-216 | as written: a VALIDMIN range message iff VALIDMIN is outside the type range; a VALIDMAX one needs VALIDMIN and appears iff VALIDMIN is below the minimum or VALIDMAX above the maximum |
| VariableChecks.ValidRangeCorrectedTypeRange | spacepy/pycdf/istp.py:197-216 | corrected: one range message per bound that lies outside the type's range |
| VariableChecks.ValidRangeOrder | spacepy/pycdf/istp.py:217-219 | as written or corrected, the VALIDMIN > VALIDMAX message iff both are present and the minimum is larger |
| VariableChecks.AsWrittenAgrees | spacepy/pycdf/istp.py:212-213 | with VALIDMIN in range and VALIDMAX not below the type minimum, the as-written test agrees with the corrected one |
| VariableChecks.AsWrittenMaxAlone | spacepy/pycdf/istp.py:212 | VALIDMAX without VALIDMIN: as written raises KeyError, corrected succeeds |
| VariableChecks.AsWrittenSpuriousMax | spacepy/pycdf/istp.py:212-216 | INT1 with VALIDMIN -200 and VALIDMAX 5: as written also reports VALIDMAX |
| VariableChecks.ValidScale | spacepy/pycdf/istp.py:224-250 | raises iff a SCALE bound is not a number or is set on a type without range; at most three messages |
| VariableChecks.ValidScaleMessages | spacepy/pycdf/istp.py:235-249 | one message per SCALE bound outside the type range, and one iff SCALEMIN > SCALEMAX |
| VariableChecks.ValidPlotType | spacepy/pycdf/istp.py:254-277 | silent iff DISPLAY_TYPE is absent, the shape has rank 0, or it is time_series for rank 1 and spectrogram above; the message kind follows the rank |
| VariableChecks.FieldNam | spacepy/pycdf/istp.py:280-295 | silent iff FIELDNAM equals the name; otherwise "no FIELDNAM" iff absent, else the mismatch with its value |
| VariableChecks.RunAll | spacepy/pycdf/istp.py:61-66 | a successful run means the last check succeeded |
| VariableChecks.RunAllOk | spacepy/pycdf/istp.py:61-66 | the run succeeds iff every check does |
| VariableChecks.RunCheck | spacepy/pycdf/istp.py:61-62 | only depsize, validrange (either version) and validscale can raise |
| VariableChecks.All | spacepy/pycdf/istp.py:53-66 | the loop over the seven checks, depsize as its loop, computes the run of the checks in the source's order, validrange as written |
| VariableChecks.RunAllRaiseSticks | spacepy/pycdf/istp.py:64-65 | the first exception ends the run |
| VariableChecks.RunAllConcat | spacepy/pycdf/istp.py:63-66 | a successful run is the concatenation of its checks' messages, in order |
| VariableChecks.AllChecksOk | spacepy/pycdf/istp.py:61-66 | a successful all means every check succeeds, the corrected validrange included |
| VariableChecks.RunAllPrefix | spacepy/pycdf/istp.py:63-66 | each prefix of a successful run succeeds and its messages come first |
| VariableChecks.AllStartsWithDepends | spacepy/pycdf/istp.py:61-66 | all begins with the depends messages |
| FileChecks.MissingGlobals | spacepy/pycdf/istp.py:338-340 | one message for each missing global attribute and no other |
| FileChecks.FilenameSpec | spacepy/pycdf/istp.py:326-352 | silent iff both globals exist, the name starts with Logical_source, and the name less four characters is Logical_file_id; otherwise missing globals alone, or one message per mismatch |
| FileChecks.Filename | spacepy/pycdf/istp.py:326-352 | the loop and tests compute the specified messages |
| FileChecks.FilenameConvention | spacepy/pycdf/istp.py:346-351 | `<Logical_file_id>.cdf` with the id starting with Logical_source passes |
| FileChecks.FilenamePasses | spacepy/pycdf/istp.py:346-351 | a passing name is `<Logical_file_id>` plus four characters; the id starts with Logical_source when the name is at least four characters longer than Logical_source |
| FileChecks.DescentsUpTo | spacepy/pycdf/istp.py:372 | the records whose time precedes the previous one, ascending |
| FileChecks.Descents | spacepy/pycdf/istp.py:371-375 | `where(diff < 0) + 1`: exactly the records stepping back, ascending |
| FileChecks.NoDescentMonotone | spacepy/pycdf/istp.py:355-377 | no descent iff the times are non-decreasing |
| FileChecks.Reported | spacepy/pycdf/istp.py:373 | a variable the as-written test reports has a descent |
| FileChecks.MonotonOver | spacepy/pycdf/istp.py:365-376 | messages only for time variables, carrying their descents, and one for every time variable the test reports |
| FileChecks.TimeMonotonSpec | spacepy/pycdf/istp.py:355-377 | time_monoton as written: each message is for a variable with a descent at a record other than 1 |
| FileChecks.TimeMonotonCorrected | spacepy/pycdf/istp.py:355-377 | corrected: each message is for a variable with some descent |
| FileChecks.TimeMonoton | spacepy/pycdf/istp.py:355-377 | the loop over the variables computes the as-written messages |
| FileChecks.TimeMonotonReports | spacepy/pycdf/istp.py:365-376 | as written: a variable is reported iff it is time-typed and steps back at some record other than 1 |
| FileChecks.TimeMonotonFlags | spacepy/pycdf/istp.py:365-376 | corrected: a variable is reported iff it is time-typed and its times are not non-decreasing |
| FileChecks.ReportedDiffers | spacepy/pycdf/istp.py:372 | as written reports only what the corrected test does, and they differ iff record 1 is the only descent |
| FileChecks.MonotonMissesRecordOne | spacepy/pycdf/istp.py:371-373 | times [2,1,3] step back at record 1, which the as-written test skips |
| FileChecks.MonotonLaterRecord | spacepy/pycdf/istp.py:371-376 | times [t0,t1,t0] step back at record 2 and are reported |
| FileChecks.MonotonFileExample | spacepy/pycdf/istp.py:365-376 | an EPOCH variable [2,1,3]: as written nothing, corrected one message for record 1 |
| FileChecks.FirstRunFrom | spacepy/pycdf/istp.py:394 | `re.search('\d{8}')`: the leftmost start of eight digits, or none |
| FileChecks.DateOf | spacepy/pycdf/istp.py:393-396 | an eight-digit date iff the name holds eight digits in a row |
| FileChecks.DayMessages | spacepy/pycdf/istp.py:397-410 | at most one message per variable, only for time variables |
| FileChecks.DayMessagesMeaning | spacepy/pycdf/istp.py:398-410 | a time variable is reported iff one of its days is not the file's date |
| FileChecks.FlattenEmpty | spacepy/pycdf/istp.py:397-410 | the per-variable messages laid end to end are empty iff every variable's are |
| FileChecks.FlattenMembers | spacepy/pycdf/istp.py:397-410 | the per-variable messages laid end to end hold exactly the messages of the variables |
| FileChecks.TimesSpec | spacepy/pycdf/istp.py:380-411 | the "cannot parse" message alone iff the name carries no date; otherwise only day messages |
| FileChecks.Times | spacepy/pycdf/istp.py:380-411 | the loop over the variables computes the specified messages |
| FileChecks.TimesClean | spacepy/pycdf/istp.py:380-411 | silent iff the name carries a date and every time variable's days are that date |
| FileChecks.DateExample | spacepy/pycdf/istp.py:393-395 | the date of "ab_20240101_v01.cdf" is 20240101 |
| FileChecks.Prefix | spacepy/pycdf/istp.py:321-322 | each variable message prefixed by the variable's name, in order |
| FileChecks.FileLevel | spacepy/pycdf/istp.py:316-319 | the filename, time_monoton and times messages carry no variable prefix |
| FileChecks.AllWith | spacepy/pycdf/istp.py:308-323 | a successful run, as written or corrected, begins with the file-level messages |
| FileChecks.AllSpec | spacepy/pycdf/istp.py:308-323 | a successful all begins with the filename, time_monoton (as written) and times messages |
| FileChecks.AllCorrected | spacepy/pycdf/istp.py:308-323 | a successful corrected run begins with the filename, corrected time_monoton and times messages |
| FileChecks.All | spacepy/pycdf/istp.py:308-323 | the three file checks then the loop over the variables compute the specified run |
| FileChecks.CheckVariables | spacepy/pycdf/istp.py:320-322 | the loop over the variables computes the collected outcomes of their checks |
| FileChecks.CollectRaiseSticks | spacepy/pycdf/istp.py:320-322 | the first variable whose checks raise ends the run with that exception |
| FileChecks.CollectOk | spacepy/pycdf/istp.py:320-322 | the variable loop succeeds iff every variable's checks do, and otherwise raises the first exception |
| FileChecks.CollectMessages | spacepy/pycdf/istp.py:320-322 | every variable message appears prefixed by its name, and every prefixed message is one of its variable's |
| FileChecks.PrefixMembers | spacepy/pycdf/istp.py:321-322 | the prefixed list holds exactly the prefixed messages |
| FileChecks.AllRaises | spacepy/pycdf/istp.py:308-323 | as written or corrected, all raises iff some variable's checks raise, with the exception of the first such variable; the file checks never raise |
| FileChecks.AllMessages | spacepy/pycdf/istp.py:308-323 | as written or corrected, every variable's messages appear prefixed by its name, and every prefixed message is one of them |
| FileChecks.AllMaxAloneExample | spacepy/pycdf/istp.py:212 | a file whose one INT1 variable has VALIDMAX but no VALIDMIN: all raises, since the KeyError of validrange propagates, while the corrected validrange succeeds |

## Left out

- CDF access is not modelled: `raw_var`, `v[...]`, attribute listing, `pathname` and `os.path.basename`. Variables are values, and the base name is a parameter.
- Python 2/3 bytes handling is not modelled: `fname.decode('ascii')`, and the bytes constants of validplottype.
- VariableChecks.ValidPlotType: compares DISPLAY_TYPE with the text `time_series`/`spectrogram`, which is the reading under Python 2. Under Python 3 the source compares a text attribute with bytes, which never match.
- Decoding of time data (`strftime('%Y%m%d')`, `timedelta` comparison) is not modelled. Each time variable carries its ordered integer ticks and its day strings.
- EPOCH16 data is covered only through those ticks and days.
- Floating point is not modelled. Values are exact reals.
  - 1E4932 overflowing to infinity is modelled by `Bound`.
  - `int()` on floats truncates exactly; see `Strings.Trunc`.
- Strings.ParseInt: `int()` on text accepts an optional sign and ASCII digits. Python also strips surrounding whitespace, accepts `_` between digits and accepts other Unicode decimal digits; such texts raise NotNumber here, which stands for the ValueError of `int()`.
  - `int(math.log10(x))` is computed exactly on reals (`Format.Log10Trunc`); float rounding of log10 near powers of ten is not modelled.
- `numpy.isclose` is implemented exactly with its default tolerances. Float rounding inside it is not modelled.
- VariableChecks.Flagged: the data is a flat sequence, so the reported indices are flat positions. For data with more than one dimension, `numpy.nonzero(idx)[0]` lists first-axis indices instead.
- VariableChecks.Pick: the reported values are the raw values. The source prints values converted by `v[...]`, such as datetimes for time types.
- Message text is not modelled. Messages are constructors with their fields, so the source's "VALIDMIM" typo and the `cdftypenames` lookup in format's error text are not reproduced.
- Format.BoundAttr: a non-numeric MIN/MAX attribute of an integer type raises NotNumber, standing for the TypeError of the source's `minval < 0`.
- VariableChecks.Dangles: a DEPEND_/LABL_PTR_ value that is not text counts as unresolved. depsize and recordcount (`VariableChecks.RecordCount`) also treat a non-text DEPEND_0 as unresolved. The source would test a number for membership in the file.
- Format.ApplyFormat: a dryrun makes no change. The `print` is not modelled.
- fillval has no UINT8 entry, in the source or in the model: the source's integer loop skips the unsigned 8-byte size (spacepy/pycdf/istp.py:426-428) before it would assign one. UINT8 is not a CDF type and is an `Other` code here.
- Only the first entry of each global attribute is kept, as text.
- FileChecks.DigitRun: a digit is `0`-`9`. Python 3's `\d` also matches other Unicode decimal digits.

## Findings

| source | as written | input that shows it | evidently intended | confidence | as-written member | corrected member |
|---|---|---|---|---|---|---|
| spacepy/pycdf/istp.py:212-213 | the VALIDMAX range test reads `VALIDMIN < get_min(...)` | INT1 with VALIDMIN -200 and VALIDMAX 5 also reports VALIDMAX 5 as out of range. VALIDMAX without VALIDMIN raises KeyError (`VariableChecks.AsWrittenMaxAlone`). | test `VALIDMAX < get_min(...)` | not executed | VariableChecks.AsWrittenSpuriousMax | VariableChecks.ValidRangeCorrectedTypeRange |
| spacepy/pycdf/istp.py:372-373 | `if not any(idx): continue` tests the 0-based descent positions for truthiness | an EPOCH variable with times [2, 1, 3] steps back only at record 1, so idx is [0] and nothing is reported (`FileChecks.ReportedDiffers`) | report whenever idx is non-empty | not executed | FileChecks.MonotonFileExample | FileChecks.TimeMonotonFlags |
