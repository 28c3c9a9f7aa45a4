/** TimingData (ParamPassTiming.cpp:103-148): three parallel tables of
    elapsed times indexed [element-size index][array-size index][run], written
    cell by cell by SetTimes and turned into report rows by OutputResults. */
module Timing {
  import opened SizeT
  import opened PowerOfTwo
  import opened Median

  /** kMaxArraySizex2: the sweep evaluates sizes up to half of this. */
  const MAX_ARRAY_SIZE_X2: nat := 4096

  /** kTotalRuns (the release value; odd, so that each median is a sample). */
  const TOTAL_RUNS: nat := 31

  /** kCountOfElemSizesToEval: element sizes 1, 2, 4 and 8 bytes. */
  const ELEM_SIZE_COUNT: nat := 4

  /** kCountOfArraySizesToEval: array sizes 1, 2, 4, ..., 2048. */
  const ARRAY_SIZE_COUNT: nat := 12

  /** The counts are the ones the source derives with Log2: one more than
      the exponent of sizeof(uint64_t), and the exponent of kMaxArraySizex2. */
  lemma TableDimensions()
    ensures ELEM_SIZE_COUNT == Log2Of(8) + 1 && ARRAY_SIZE_COUNT == Log2Of(MAX_ARRAY_SIZE_X2)
    ensures TOTAL_RUNS % 2 == 1
    ensures Exp2(ELEM_SIZE_COUNT - 1) == 8 && Exp2(ARRAY_SIZE_COUNT) == MAX_ARRAY_SIZE_X2
  {
    Log2OfExp2(3);
    Log2OfExp2(12);
    assert Pow2(3) == 8;
    Pow2Add(6, 6);
  }

  /** The indices SetTimes computes are inside the tables whenever sizeof(T)
      is 1, 2, 4 or 8 and the array size is a power of two below
      kMaxArraySizex2. */
  lemma TableIndicesInBounds(t: ElemType, arraySize: u64)
    requires HasSingleBit(arraySize) && arraySize < MAX_ARRAY_SIZE_X2
    ensures Log2Of(t.SizeOf()) < ELEM_SIZE_COUNT
    ensures arraySize >= 1 && Log2Of(arraySize) < ARRAY_SIZE_COUNT
  {
    TableDimensions();
    Exp2OfLog2(arraySize);
    BitWidthBelow(arraySize, 12);
    assert Log2Of(1) == 0 && Log2Of(2) == 1 && Log2Of(4) == 2 && Log2Of(8) == 3;
  }

  datatype PassMode = PassByRef | PassByVal
  {
    /** The header Output prints in front of each row of this mode. */
    function Label(): string
    {
      match this
      case PassByRef => "by ref"
      case PassByVal => "by val"
    }
  }

  /** One report row: mode, array size in elements, element size in bytes,
      and median(mode) - median(baseline). */
  datatype ResultRow = ResultRow(mode: PassMode, arraySize: nat, elemSize: nat, delta: int)

  /** The runs of one (element size, array size) cell. */
  type Samples = s: seq<int> | |s| == TOTAL_RUNS witness seq(TOTAL_RUNS, k => 0)

  const NO_SAMPLES: Samples := seq(TOTAL_RUNS, k => 0)

  /** The cells of one element size, by array-size index. */
  type SizeRow = r: seq<Samples> | |r| == ARRAY_SIZE_COUNT witness seq(ARRAY_SIZE_COUNT, s => NO_SAMPLES)

  const NO_ROW: SizeRow := seq(ARRAY_SIZE_COUNT, s => NO_SAMPLES)

  /** A table as the nested values it holds, by element-size index. */
  type Table = t: seq<SizeRow> | |t| == ELEM_SIZE_COUNT witness [NO_ROW, NO_ROW, NO_ROW, NO_ROW]

  /** Two tables that agree on every sample are equal. */
  lemma TablesEqual(a: Table, b: Table)
    requires forall e, s, r :: 0 <= e < ELEM_SIZE_COUNT && 0 <= s < ARRAY_SIZE_COUNT && 0 <= r < TOTAL_RUNS ==>
      a[e][s][r] == b[e][s][r]
    ensures a == b
  {
    forall e, s | 0 <= e < ELEM_SIZE_COUNT && 0 <= s < ARRAY_SIZE_COUNT
      ensures a[e][s] == b[e][s]
    {
      assert forall r :: 0 <= r < TOTAL_RUNS ==> a[e][s][r] == b[e][s][r];
    }
    forall e | 0 <= e < ELEM_SIZE_COUNT
      ensures a[e] == b[e]
    {
    }
  }

  /** Each cell of `now` holds the samples of the same cell of `before`,
      possibly in another order. */
  predicate CellsPermuted(now: Table, before: Table)
  {
    forall e, s :: 0 <= e < ELEM_SIZE_COUNT && 0 <= s < ARRAY_SIZE_COUNT ==>
      multiset(now[e][s]) == multiset(before[e][s])
  }

  /** The table t with the sample at (e, s, r) replaced by v. */
  function SetCell(t: Table, e: nat, s: nat, r: nat, v: int): (u: Table)
    requires e < ELEM_SIZE_COUNT && s < ARRAY_SIZE_COUNT && r < TOTAL_RUNS
    ensures u[e][s][r] == v
    ensures forall i, j, k ::
      (0 <= i < ELEM_SIZE_COUNT && 0 <= j < ARRAY_SIZE_COUNT && 0 <= k < TOTAL_RUNS && (i != e || j != s || k != r)) ==>
      u[i][j][k] == t[i][j][k]
  {
    t[e := t[e][s := t[e][s][r := v]]]
  }

  /** The row Output emits for the cell (e, s). */
  function RowAt(mode: PassMode, c: Table, base: Table, e: nat, s: nat): ResultRow
    requires e < ELEM_SIZE_COUNT && s < ARRAY_SIZE_COUNT
  {
    ResultRow(mode, Exp2(s), Exp2(e), MedianOf(c[e][s]) - MedianOf(base[e][s]))
  }

  /** The rows of one pass of Output's outer loop: element-size index e, by
      ascending array-size index. */
  function ElemRows(mode: PassMode, c: Table, base: Table, e: nat): (r: seq<ResultRow>)
    requires e < ELEM_SIZE_COUNT
    ensures |r| == ARRAY_SIZE_COUNT
  {
    seq(ARRAY_SIZE_COUNT, s requires 0 <= s < ARRAY_SIZE_COUNT => RowAt(mode, c, base, e, s))
  }

  /** The rows of the first n passes of Output's outer loop. */
  function BlocksBelow(mode: PassMode, c: Table, base: Table, n: nat): (r: seq<ResultRow>)
    requires n <= ELEM_SIZE_COUNT
    ensures |r| == ARRAY_SIZE_COUNT * n
  {
    if n == 0 then [] else BlocksBelow(mode, c, base, n - 1) + ElemRows(mode, c, base, n - 1)
  }

  /** The rows one Output call emits: element-size index in the outer loop,
      array-size index in the inner loop. */
  function ModeRows(mode: PassMode, c: Table, base: Table): (r: seq<ResultRow>)
  {
    BlocksBelow(mode, c, base, ELEM_SIZE_COUNT)
  }

  /** The whole report of OutputResults: the "by ref" rows, then the "by val"
      rows, both against the same baselines. */
  function Report(base: Table, refs: Table, vals: Table): seq<ResultRow>
  {
    ModeRows(PassByRef, refs, base) + ModeRows(PassByVal, vals, base)
  }

  // ---------------------------------------------------------------------
  // What the report promises

  /** 96 rows: 48 rows headed "by ref", then 48 rows headed "by val". */
  lemma ReportLayout(base: Table, refs: Table, vals: Table)
    ensures |Report(base, refs, vals)| == 2 * ELEM_SIZE_COUNT * ARRAY_SIZE_COUNT == 96
    ensures forall i :: 0 <= i < 48 ==>
      Report(base, refs, vals)[i].mode == PassByRef && Report(base, refs, vals)[i].mode.Label() == "by ref"
    ensures forall i :: 48 <= i < 96 ==>
      Report(base, refs, vals)[i].mode == PassByVal && Report(base, refs, vals)[i].mode.Label() == "by val"
  {
    var refRows, valRows := ModeRows(PassByRef, refs, base), ModeRows(PassByVal, vals, base);
    forall i | 0 <= i < 48
      ensures refRows[i].mode == PassByRef && valRows[i].mode == PassByVal
    {
      ModeRowAt(PassByRef, refs, base, i);
      ModeRowAt(PassByVal, vals, base, i);
    }
  }

  /** The row for cell (e, s) of each mode sits at position 12 * e + s of
      that mode's block and carries the cell's sizes and the difference of
      the medians, unclamped. */
  lemma ReportRowOfCell(base: Table, refs: Table, vals: Table, e: nat, s: nat)
    requires e < ELEM_SIZE_COUNT && s < ARRAY_SIZE_COUNT
    ensures var r := Report(base, refs, vals);
      |r| == 96 &&
      r[12 * e + s] == ResultRow(PassByRef, Exp2(s), Exp2(e), MedianOf(refs[e][s]) - MedianOf(base[e][s])) &&
      r[48 + 12 * e + s] == ResultRow(PassByVal, Exp2(s), Exp2(e), MedianOf(vals[e][s]) - MedianOf(base[e][s]))
  {
    TableDimensions();
    var r := Report(base, refs, vals);
    ModeRowAt(PassByRef, refs, base, 12 * e + s);
    ModeRowAt(PassByVal, vals, base, 12 * e + s);
    assert (12 * e + s) / 12 == e && (12 * e + s) % 12 == s;
    assert r[48 + 12 * e + s] == ModeRows(PassByVal, vals, base)[12 * e + s];
  }

  /** Row i of the first n blocks belongs to cell (i / 12, i % 12). */
  lemma {:induction false} BlocksBelowAt(mode: PassMode, c: Table, base: Table, n: nat, i: nat)
    requires n <= ELEM_SIZE_COUNT && i < ARRAY_SIZE_COUNT * n
    ensures i / 12 < ELEM_SIZE_COUNT && BlocksBelow(mode, c, base, n)[i] == RowAt(mode, c, base, i / 12, i % 12)
  {
    if i < ARRAY_SIZE_COUNT * (n - 1) {
      BlocksBelowAt(mode, c, base, n - 1, i);
    } else {
      var s := i - ARRAY_SIZE_COUNT * (n - 1);
      assert i / 12 == n - 1 && i % 12 == s;
    }
  }

  /** Row i of a mode's block belongs to cell (i / 12, i % 12). */
  lemma ModeRowAt(mode: PassMode, c: Table, base: Table, i: nat)
    requires i < ELEM_SIZE_COUNT * ARRAY_SIZE_COUNT
    ensures var r := ModeRows(mode, c, base);
      |r| == 48 && r[i] == RowAt(mode, c, base, i / 12, i % 12) &&
      r[i].elemSize == Exp2(i / 12) && r[i].arraySize == Exp2(i % 12)
  {
    BlocksBelowAt(mode, c, base, ELEM_SIZE_COUNT, i);
  }

  lemma ModeRowsOrder(mode: PassMode, c: Table, base: Table, a: nat, b: nat)
    requires a < b < ELEM_SIZE_COUNT * ARRAY_SIZE_COUNT
    ensures var r := ModeRows(mode, c, base);
      |r| == 48 &&
      (r[a].elemSize < r[b].elemSize ||
       (r[a].elemSize == r[b].elemSize && r[a].arraySize < r[b].arraySize))
  {
    ModeRowAt(mode, c, base, a);
    ModeRowAt(mode, c, base, b);
    if a / 12 < b / 12 {
      Exp2Increasing(a / 12, b / 12);
    } else {
      assert a / 12 == b / 12 && a % 12 < b % 12;
      Exp2Increasing(a % 12, b % 12);
    }
  }

  /** Within one mode, rows ascend by element size, and by array size among
      rows of the same element size. */
  lemma ReportOrder(base: Table, refs: Table, vals: Table, i: nat, j: nat)
    requires i < j < 96 && (j < 48 || 48 <= i)
    ensures var r := Report(base, refs, vals);
      |r| == 96 &&
      (r[i].elemSize < r[j].elemSize ||
       (r[i].elemSize == r[j].elemSize && r[i].arraySize < r[j].arraySize))
  {
    var r := Report(base, refs, vals);
    var refRows, valRows := ModeRows(PassByRef, refs, base), ModeRows(PassByVal, vals, base);
    assert |refRows| == 48 && |valRows| == 48 && r == refRows + valRows;
    if j < 48 {
      assert r[i] == refRows[i] && r[j] == refRows[j];
      ModeRowsOrder(PassByRef, refs, base, i, j);
    } else {
      assert r[i] == valRows[i - 48] && r[j] == valRows[j - 48];
      ModeRowsOrder(PassByVal, vals, base, i - 48, j - 48);
    }
  }

  /** Each (array size, element size) pair has exactly one row per mode. */
  lemma ReportRowsDistinct(base: Table, refs: Table, vals: Table, i: nat, j: nat)
    requires i < j < 96
    ensures var r := Report(base, refs, vals);
      |r| == 96 &&
      (r[i].mode, r[i].arraySize, r[i].elemSize) != (r[j].mode, r[j].arraySize, r[j].elemSize)
  {
    TableDimensions();
    if j < 48 || 48 <= i {
      ReportOrder(base, refs, vals, i, j);
    } else {
      ReportLayout(base, refs, vals);
    }
  }

  /** Reordering the samples of any cell, as the in-place medians do, does
      not change the rows. */
  lemma ModeRowsOfPermutation(mode: PassMode, c: Table, c': Table, base: Table, base': Table)
    requires CellsPermuted(c', c) && CellsPermuted(base', base)
    ensures ModeRows(mode, c, base) == ModeRows(mode, c', base')
  {
    TableDimensions();
    var r, r' := ModeRows(mode, c, base), ModeRows(mode, c', base');
    forall i | 0 <= i < 48
      ensures r[i] == r'[i]
    {
      ModeRowAt(mode, c, base, i);
      ModeRowAt(mode, c', base', i);
      var e, s := i / 12, i % 12;
      MedianOfPermutation(c[e][s], c'[e][s]);
      MedianOfPermutation(base[e][s], base'[e][s]);
    }
  }

  /** When a mode's samples for a cell are the baseline's samples in some
      order, that mode's delta for the cell is zero. */
  lemma SameSamplesZeroDelta(base: Table, refs: Table, vals: Table, e: nat, s: nat)
    requires e < ELEM_SIZE_COUNT && s < ARRAY_SIZE_COUNT
    ensures |Report(base, refs, vals)| == 96
    ensures multiset(refs[e][s]) == multiset(base[e][s]) ==> Report(base, refs, vals)[12 * e + s].delta == 0
    ensures multiset(vals[e][s]) == multiset(base[e][s]) ==> Report(base, refs, vals)[48 + 12 * e + s].delta == 0
  {
    TableDimensions();
    ReportRowOfCell(base, refs, vals, e, s);
    if multiset(refs[e][s]) == multiset(base[e][s]) {
      MedianOfPermutation(refs[e][s], base[e][s]);
    }
    if multiset(vals[e][s]) == multiset(base[e][s]) {
      MedianOfPermutation(vals[e][s], base[e][s]);
    }
  }

  // ---------------------------------------------------------------------
  // The tables in memory

  predicate Dims(t: array3<int>)
  {
    t.Length0 == ELEM_SIZE_COUNT && t.Length1 == ARRAY_SIZE_COUNT && t.Length2 == TOTAL_RUNS
  }

  /** The runs of cell (e, s) of a table. */
  ghost function Runs(t: array3<int>, e: nat, s: nat): (r: Samples)
    requires Dims(t) && e < ELEM_SIZE_COUNT && s < ARRAY_SIZE_COUNT
    reads t
    ensures |r| == TOTAL_RUNS && forall k :: 0 <= k < TOTAL_RUNS ==> r[k] == t[e, s, k]
  {
    seq(TOTAL_RUNS, k requires 0 <= k < TOTAL_RUNS reads t => t[e, s, k])
  }

  /** The values a table holds. */
  ghost function Cells(t: array3<int>): (r: Table)
    requires Dims(t)
    reads t
  {
    seq(ELEM_SIZE_COUNT, e requires 0 <= e < ELEM_SIZE_COUNT reads t =>
      seq(ARRAY_SIZE_COUNT, s requires 0 <= s < ARRAY_SIZE_COUNT reads t => Runs(t, e, s)))
  }

  /** Exactly the cell (e, s, r) of t changed, and it now holds v. */
  twostate predicate WroteCell(t: array3<int>, e: nat, s: nat, r: nat, v: int)
    requires Dims(t) && e < ELEM_SIZE_COUNT && s < ARRAY_SIZE_COUNT && r < TOTAL_RUNS
    reads t
  {
    t[e, s, r] == v &&
    forall i, j, k ::
      0 <= i < ELEM_SIZE_COUNT && 0 <= j < ARRAY_SIZE_COUNT && 0 <= k < TOTAL_RUNS && (i != e || j != s || k != r)
      ==> t[i, j, k] == old(t[i, j, k])
  }

  /** A table that differs from `before` only in holding v at (e, s, r)
      holds SetCell of `before`. */
  lemma CellsAfterWrite(t: array3<int>, before: Table, e: nat, s: nat, r: nat, v: int)
    requires Dims(t) && e < ELEM_SIZE_COUNT && s < ARRAY_SIZE_COUNT && r < TOTAL_RUNS
    requires t[e, s, r] == v
    requires forall i, j, k ::
      (0 <= i < ELEM_SIZE_COUNT && 0 <= j < ARRAY_SIZE_COUNT && 0 <= k < TOTAL_RUNS && (i != e || j != s || k != r)) ==>
      t[i, j, k] == before[i][j][k]
    ensures Cells(t) == SetCell(before, e, s, r, v)
  {
    var now, wanted := Cells(t), SetCell(before, e, s, r, v);
    forall i, j | 0 <= i < ELEM_SIZE_COUNT && 0 <= j < ARRAY_SIZE_COUNT
      ensures now[i][j] == wanted[i][j]
    {
      assert now[i][j] == Runs(t, i, j);
      assert forall k :: 0 <= k < TOTAL_RUNS ==> now[i][j][k] == wanted[i][j][k];
    }
    forall i | 0 <= i < ELEM_SIZE_COUNT
      ensures now[i] == wanted[i]
    {
    }
  }

  /** t[e][s][r] = v. */
  method WriteCell(t: array3<int>, e: nat, s: nat, r: nat, v: int)
    requires Dims(t) && e < ELEM_SIZE_COUNT && s < ARRAY_SIZE_COUNT && r < TOTAL_RUNS
    modifies t
    ensures WroteCell(t, e, s, r, v)
    ensures Cells(t) == SetCell(old(Cells(t)), e, s, r, v)
  {
    ghost var before := Cells(t);
    forall i, j, k | 0 <= i < ELEM_SIZE_COUNT && 0 <= j < ARRAY_SIZE_COUNT && 0 <= k < TOTAL_RUNS
      ensures before[i][j][k] == t[i, j, k]
    {
      assert before[i][j] == Runs(t, i, j);
    }
    t[e, s, r] := v;
    CellsAfterWrite(t, before, e, s, r, v);
  }

  /** The runs of cell (e, s) copied into a container of their own. */
  method CopyRuns(t: array3<int>, e: nat, s: nat) returns (runs: array<int>)
    requires Dims(t) && e < ELEM_SIZE_COUNT && s < ARRAY_SIZE_COUNT
    ensures fresh(runs) && runs[..] == Runs(t, e, s)
  {
    runs := new int[TOTAL_RUNS];
    forall k | 0 <= k < TOTAL_RUNS {
      runs[k] := t[e, s, k];
    }
  }

  /** Put the runs of cell (e, s) back; no other cell changes. */
  method StoreRuns(t: array3<int>, e: nat, s: nat, runs: array<int>)
    requires Dims(t) && e < ELEM_SIZE_COUNT && s < ARRAY_SIZE_COUNT && runs.Length == TOTAL_RUNS
    modifies t
    ensures Runs(t, e, s) == runs[..]
    ensures forall i, j :: 0 <= i < ELEM_SIZE_COUNT && 0 <= j < ARRAY_SIZE_COUNT && (i != e || j != s) ==>
      Runs(t, i, j) == old(Runs(t, i, j))
  {
    forall k | 0 <= k < TOTAL_RUNS {
      t[e, s, k] := runs[k];
    }
    forall i, j | 0 <= i < ELEM_SIZE_COUNT && 0 <= j < ARRAY_SIZE_COUNT && (i != e || j != s)
      ensures Runs(t, i, j) == old(Runs(t, i, j))
    {
      assert forall k :: 0 <= k < TOTAL_RUNS ==> Runs(t, i, j)[k] == old(Runs(t, i, j))[k];
    }
  }

  /** GetMedian applied in place to the runs of cell (e, s). */
  method MedianOfCell(t: array3<int>, e: nat, s: nat) returns (m: int)
    requires Dims(t) && e < ELEM_SIZE_COUNT && s < ARRAY_SIZE_COUNT
    modifies t
    ensures m == MedianOf(old(Cells(t))[e][s])
    ensures CellsPermuted(Cells(t), old(Cells(t)))
  {
    var runs := CopyRuns(t, e, s);
    m := GetMedian(runs);
    StoreRuns(t, e, s, runs);
  }

  class TimingData {
    const baselines: array3<int>
    const byRefs: array3<int>
    const byVals: array3<int>

    ghost predicate Valid()
      reads this
    {
      Dims(baselines) && Dims(byRefs) && Dims(byVals) &&
      baselines != byRefs && baselines != byVals && byRefs != byVals
    }

    /** The global instance starts zero-initialised. */
    constructor ()
      ensures Valid() && fresh(baselines) && fresh(byRefs) && fresh(byVals)
      ensures forall e, s, r :: 0 <= e < ELEM_SIZE_COUNT && 0 <= s < ARRAY_SIZE_COUNT && 0 <= r < TOTAL_RUNS ==>
        baselines[e, s, r] == 0 && byRefs[e, s, r] == 0 && byVals[e, s, r] == 0
    {
      TableDimensions();
      baselines := new int[ELEM_SIZE_COUNT, ARRAY_SIZE_COUNT, TOTAL_RUNS]((e, s, r) => 0);
      byRefs := new int[ELEM_SIZE_COUNT, ARRAY_SIZE_COUNT, TOTAL_RUNS]((e, s, r) => 0);
      byVals := new int[ELEM_SIZE_COUNT, ARRAY_SIZE_COUNT, TOTAL_RUNS]((e, s, r) => 0);
    }

    /** SetTimes<T>: store the three samples of one (T, arraySize, run) at
        [Log2(sizeof(T))][Log2(arraySize)][run], and nothing else. */
    method SetTimes(t: ElemType, arraySize: u64, run: nat, baseline: int, byRef: int, byVal: int)
      requires Valid()
      requires HasSingleBit(arraySize) && arraySize < MAX_ARRAY_SIZE_X2 && run < TOTAL_RUNS
      modifies baselines, byRefs, byVals
      ensures arraySize >= 1 && Log2Of(t.SizeOf()) < ELEM_SIZE_COUNT && Log2Of(arraySize) < ARRAY_SIZE_COUNT
      ensures WroteCell(baselines, Log2Of(t.SizeOf()), Log2Of(arraySize), run, baseline)
      ensures WroteCell(byRefs, Log2Of(t.SizeOf()), Log2Of(arraySize), run, byRef)
      ensures WroteCell(byVals, Log2Of(t.SizeOf()), Log2Of(arraySize), run, byVal)
      ensures Cells(baselines) == SetCell(old(Cells(baselines)), Log2Of(t.SizeOf()), Log2Of(arraySize), run, baseline)
      ensures Cells(byRefs) == SetCell(old(Cells(byRefs)), Log2Of(t.SizeOf()), Log2Of(arraySize), run, byRef)
      ensures Cells(byVals) == SetCell(old(Cells(byVals)), Log2Of(t.SizeOf()), Log2Of(arraySize), run, byVal)
    {
      TableIndicesInBounds(t, arraySize);
      var elemSizeIdx := Log2(t.SizeOf());
      var arrSizeIdx := Log2(arraySize);
      WriteCell(baselines, elemSizeIdx, arrSizeIdx, run, baseline);
      WriteCell(byRefs, elemSizeIdx, arrSizeIdx, run, byRef);
      WriteCell(byVals, elemSizeIdx, arrSizeIdx, run, byVal);
    }

    /** OutputResults: the "by ref" rows, then the "by val" rows, from the
        tables as they were; the medians leave every cell reordered. */
    method OutputResults() returns (rows: seq<ResultRow>)
      requires Valid()
      modifies baselines, byRefs, byVals
      ensures rows == Report(old(Cells(baselines)), old(Cells(byRefs)), old(Cells(byVals)))
      ensures CellsPermuted(Cells(baselines), old(Cells(baselines)))
      ensures CellsPermuted(Cells(byRefs), old(Cells(byRefs)))
      ensures CellsPermuted(Cells(byVals), old(Cells(byVals)))
    {
      ghost var base0 := Cells(baselines);
      var refRows := Output(byRefs, PassByRef);
      ghost var base1 := Cells(baselines);
      var valRows := Output(byVals, PassByVal);
      ModeRowsOfPermutation(PassByVal, old(Cells(byVals)), old(Cells(byVals)), base0, base1);
      rows := refRows + valRows;
    }

    /** Output: for each element-size index, for each array-size index, the
        median of the mode's runs minus the median of the baseline runs. */
    method Output(c: array3<int>, hdr: PassMode) returns (rows: seq<ResultRow>)
      requires Valid() && (c == byRefs || c == byVals)
      modifies baselines, c
      ensures rows == ModeRows(hdr, old(Cells(c)), old(Cells(baselines)))
      ensures CellsPermuted(Cells(baselines), old(Cells(baselines)))
      ensures CellsPermuted(Cells(c), old(Cells(c)))
    {
      ghost var c0, base0 := Cells(c), Cells(baselines);
      rows := [];
      var elemSizeIdx := 0;
      while elemSizeIdx < ELEM_SIZE_COUNT
        invariant 0 <= elemSizeIdx <= ELEM_SIZE_COUNT
        invariant rows == BlocksBelow(hdr, c0, base0, elemSizeIdx)
        invariant CellsPermuted(Cells(baselines), base0) && CellsPermuted(Cells(c), c0)
      {
        var block := OutputElemSize(c, hdr, elemSizeIdx, c0, base0);
        rows := rows + block;
        elemSizeIdx := elemSizeIdx + 1;
      }
    }

    /** One pass of Output's outer loop: the twelve rows of element-size
        index e, by ascending array-size index. */
    method OutputElemSize(c: array3<int>, hdr: PassMode, e: nat, ghost c0: Table, ghost base0: Table)
      returns (block: seq<ResultRow>)
      requires Valid() && Dims(c) && c != baselines && e < ELEM_SIZE_COUNT
      requires CellsPermuted(Cells(baselines), base0) && CellsPermuted(Cells(c), c0)
      modifies baselines, c
      ensures CellsPermuted(Cells(baselines), base0) && CellsPermuted(Cells(c), c0)
      ensures block == ElemRows(hdr, c0, base0, e)
    {
      block := [];
      var arrSizeIdx := 0;
      while arrSizeIdx < ARRAY_SIZE_COUNT
        invariant 0 <= arrSizeIdx <= ARRAY_SIZE_COUNT
        invariant |block| == arrSizeIdx
        invariant forall s :: 0 <= s < arrSizeIdx ==> block[s] == RowAt(hdr, c0, base0, e, s)
        invariant CellsPermuted(Cells(baselines), base0) && CellsPermuted(Cells(c), c0)
      {
        var row := OutputCell(c, hdr, e, arrSizeIdx, c0, base0);
        block := block + [row];
        arrSizeIdx := arrSizeIdx + 1;
      }
      assert block == ElemRows(hdr, c0, base0, e);
    }

    /** One step of Output's inner loop: the median of cell (e, s) of c minus
        the median of the same baseline cell, which are the medians of the
        cells as they were before any reordering. */
    method OutputCell(c: array3<int>, hdr: PassMode, e: nat, s: nat, ghost c0: Table, ghost base0: Table)
      returns (row: ResultRow)
      requires Valid() && Dims(c) && c != baselines
      requires e < ELEM_SIZE_COUNT && s < ARRAY_SIZE_COUNT
      requires CellsPermuted(Cells(baselines), base0) && CellsPermuted(Cells(c), c0)
      modifies baselines, c
      ensures CellsPermuted(Cells(baselines), base0) && CellsPermuted(Cells(c), c0)
      ensures row == RowAt(hdr, c0, base0, e, s)
    {
      ghost var baseNow, cNow := Cells(baselines), Cells(c);
      var baseline := MedianOfCell(baselines, e, s);
      var time := MedianOfCell(c, e, s);
      MedianOfPermutation(base0[e][s], baseNow[e][s]);
      MedianOfPermutation(c0[e][s], cNow[e][s]);
      var elemSize := Exp2(e);
      var arrSize := Exp2(s);
      row := ResultRow(hdr, arrSize, elemSize, time - baseline);
    }
  }
}
