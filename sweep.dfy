/** The benchmark driver: EvalParamPassing (ParamPassTiming.cpp:304-330)
    sweeps the array sizes 1, 2, 4, ..., kMaxArraySizex2 / 2 for one element
    type and one run, and main (ParamPassTiming.cpp:332-349) repeats that for
    the four element types in every run and then reports. The elapsed times
    the timers would read are an input: `measure(t, size, run)`. */
module Sweep {
  import opened SizeT
  import opened PowerOfTwo
  import opened FauxRandom
  import opened RandArrays
  import opened Timing

  /** kTotalPasses (the release value): passes per timing loop. */
  const TOTAL_PASSES: nat := 100_000_000

  /** The three elapsed times of one evaluation: baseline, by ref, by val. */
  datatype Times = Times(baseline: int, byRef: int, byVal: int)

  /** The elapsed times measured for element type t, array size and run. */
  type Stopwatch = (ElemType, nat, nat) -> Times

  /** Which of the three tables. */
  datatype Column = Baselines | ByRefs | ByVals
  {
    function Pick(times: Times): int
    {
      match this
      case Baselines => times.baseline
      case ByRefs => times.byRef
      case ByVals => times.byVal
    }
  }

  /** The element type of element-size index e: uint8_t .. uint64_t. */
  function ElemTypeAt(e: nat): (t: ElemType)
    requires e < ELEM_SIZE_COUNT
    ensures Log2Of(t.SizeOf()) == e
  {
    assert Log2Of(1) == 0 && Log2Of(2) == 1 && Log2Of(4) == 2 && Log2Of(8) == 3;
    [U8, U16, U32, U64][e]
  }

  /** The element-size index SetTimes<T> computes, Log2(sizeof(T)). */
  function ElemIndex(t: ElemType): (e: nat)
    ensures e < ELEM_SIZE_COUNT && e == Log2Of(t.SizeOf()) && ElemTypeAt(e) == t
  {
    assert Log2Of(1) == 0 && Log2Of(2) == 1 && Log2Of(4) == 2 && Log2Of(8) == 3;
    match t
    case U8 => 0
    case U16 => 1
    case U32 => 2
    case U64 => 3
  }

  /** The array sizes EvalParamPassing<T, Max, Exp2(i)> and its recursive
      instances evaluate, in order. */
  function SizesFrom(i: nat): (r: seq<nat>)
    requires i <= ARRAY_SIZE_COUNT
    ensures |r| == ARRAY_SIZE_COUNT - i
    ensures forall k :: 0 <= k < |r| ==> r[k] == Exp2(i + k)
    decreases ARRAY_SIZE_COUNT - i
  {
    if i == ARRAY_SIZE_COUNT then [] else [Exp2(i)] + SizesFrom(i + 1)
  }

  /** From any size on, each size the sweep evaluates doubles the last. */
  lemma SizesDouble(i: nat)
    requires i <= ARRAY_SIZE_COUNT
    ensures var r := SizesFrom(i); forall k :: 0 < k < |r| ==> r[k] == 2 * r[k - 1]
  {
    var r := SizesFrom(i);
    forall k | 0 < k < |r|
      ensures r[k] == 2 * r[k - 1]
    {
      Pow2Add(1, i + k - 1);
    }
  }

  /** From any size on, the sizes the sweep evaluates increase strictly and
      stay below kMaxArraySizex2, so none is evaluated twice. */
  lemma SizesIncreasing(i: nat)
    requires i <= ARRAY_SIZE_COUNT
    ensures var r := SizesFrom(i);
      (forall k :: 0 <= k < |r| ==> r[k] < MAX_ARRAY_SIZE_X2) &&
      (forall j, k :: 0 <= j < k < |r| ==> r[j] < r[k])
  {
    var r := SizesFrom(i);
    TableDimensions();
    forall k | 0 <= k < |r|
      ensures r[k] < MAX_ARRAY_SIZE_X2
    {
      Exp2Increasing(i + k, ARRAY_SIZE_COUNT);
    }
    forall j, k | 0 <= j < k < |r|
      ensures r[j] < r[k]
    {
      Exp2Increasing(i + j, i + k);
    }
  }

  /** Starting from size 1, the sweep evaluates 1, 2, 4, ..., 2048: twelve
      sizes in increasing order, each doubling the last, each below
      kMaxArraySizex2, so each is evaluated once. */
  lemma SweepSizes()
    ensures var r := SizesFrom(0);
      |r| == ARRAY_SIZE_COUNT && r[0] == 1 && r[|r| - 1] == 2048 &&
      (forall k :: 0 < k < |r| ==> r[k] == 2 * r[k - 1]) &&
      (forall k :: 0 <= k < |r| ==> r[k] < MAX_ARRAY_SIZE_X2) &&
      (forall j, k :: 0 <= j < k < |r| ==> r[j] < r[k])
  {
    var first: nat := 0;
    SizesDouble(first);
    SizesIncreasing(first);
    var r := SizesFrom(first);
    assert r[0] == Pow2(0) == 1;
    Pow2Add(1, 10);
    assert r[11] == Pow2(11) == 2 * Pow2(10) && Pow2(1) == 2;
  }

  /** The table main leaves behind for one column: every cell holds the
      times of its element type, array size and run. */
  function Measured(measure: Stopwatch, col: Column): (r: Table)
  {
    seq(ELEM_SIZE_COUNT, e requires 0 <= e < ELEM_SIZE_COUNT =>
      seq(ARRAY_SIZE_COUNT, s requires 0 <= s < ARRAY_SIZE_COUNT =>
        seq(TOTAL_RUNS, r requires 0 <= r < TOTAL_RUNS => col.Pick(measure(ElemTypeAt(e), Exp2(s), r)))))
  }

  // ---------------------------------------------------------------------
  // What the sweep does to a table, as values

  /** One column of the tables after EvalParamPassing<T, Max, Exp2(from)>
      for one run: the cells of T's element-size index and that run, from
      array-size index `from` on, hold the times of their own array size;
      every other cell is as in tab. */
  function Swept(tab: Table, col: Column, measure: Stopwatch, t: ElemType, from: nat, run: nat): Table
  {
    seq(ELEM_SIZE_COUNT, i requires 0 <= i < ELEM_SIZE_COUNT =>
      seq(ARRAY_SIZE_COUNT, j requires 0 <= j < ARRAY_SIZE_COUNT =>
        seq(TOTAL_RUNS, k requires 0 <= k < TOTAL_RUNS =>
          if i == ElemIndex(t) && from <= j && k == run then col.Pick(measure(t, Exp2(j), run))
          else tab[i][j][k])))
  }

  /** One column during one iteration of main's run loop, once the sweeps
      of the first `types` element types are done: their cells of that run
      hold their measured times. */
  function RunFilled(tab: Table, col: Column, measure: Stopwatch, run: nat, types: nat): Table
  {
    seq(ELEM_SIZE_COUNT, i requires 0 <= i < ELEM_SIZE_COUNT =>
      seq(ARRAY_SIZE_COUNT, j requires 0 <= j < ARRAY_SIZE_COUNT =>
        seq(TOTAL_RUNS, k requires 0 <= k < TOTAL_RUNS =>
          if i < types && k == run then col.Pick(measure(ElemTypeAt(i), Exp2(j), k)) else tab[i][j][k])))
  }

  /** One column after the first n iterations of main's run loop. */
  function RunsDone(tab: Table, col: Column, measure: Stopwatch, n: nat): Table
  {
    seq(ELEM_SIZE_COUNT, i requires 0 <= i < ELEM_SIZE_COUNT =>
      seq(ARRAY_SIZE_COUNT, j requires 0 <= j < ARRAY_SIZE_COUNT =>
        seq(TOTAL_RUNS, k requires 0 <= k < TOTAL_RUNS =>
          if k < n then col.Pick(measure(ElemTypeAt(i), Exp2(j), k)) else tab[i][j][k])))
  }

  /** The specialisation for kMaxArraySizex2 writes nothing. */
  lemma SweptNothing(tab: Table, col: Column, measure: Stopwatch, t: ElemType, run: nat)
    ensures Swept(tab, col, measure, t, ARRAY_SIZE_COUNT, run) == tab
  {
    TablesEqual(Swept(tab, col, measure, t, ARRAY_SIZE_COUNT, run), tab);
  }

  /** SetTimes at array-size index `from`, then the sweep from `from + 1`,
      is the sweep from `from`. */
  lemma SweptStep(tab: Table, written: Table, col: Column, measure: Stopwatch, t: ElemType, from: nat, run: nat)
    requires from < ARRAY_SIZE_COUNT && run < TOTAL_RUNS
    requires written == SetCell(tab, ElemIndex(t), from, run, col.Pick(measure(t, Exp2(from), run)))
    ensures Swept(written, col, measure, t, from + 1, run) == Swept(tab, col, measure, t, from, run)
  {
    var after, swept := Swept(written, col, measure, t, from + 1, run), Swept(tab, col, measure, t, from, run);
    forall i, j, k | 0 <= i < ELEM_SIZE_COUNT && 0 <= j < ARRAY_SIZE_COUNT && 0 <= k < TOTAL_RUNS
      ensures after[i][j][k] == swept[i][j][k]
    {
      if i == ElemIndex(t) && j == from && k == run {
        assert after[i][j][k] == written[i][j][k];
      } else if i == ElemIndex(t) && from < j && k == run {
      } else {
        assert written[i][j][k] == tab[i][j][k];
      }
    }
    TablesEqual(after, swept);
  }

  /** Before any sweep of the run nothing is filled. */
  lemma RunFilledNone(tab: Table, col: Column, measure: Stopwatch, run: nat)
    ensures RunFilled(tab, col, measure, run, 0) == tab
  {
    TablesEqual(RunFilled(tab, col, measure, run, 0), tab);
  }

  /** The sweep of the next element type from size 1 fills that type's
      cells of the run. */
  lemma RunFilledStep(tab: Table, col: Column, measure: Stopwatch, run: nat, types: nat)
    requires types < ELEM_SIZE_COUNT && run < TOTAL_RUNS
    ensures Swept(RunFilled(tab, col, measure, run, types), col, measure, ElemTypeAt(types), 0, run)
      == RunFilled(tab, col, measure, run, types + 1)
  {
    assert ElemIndex(ElemTypeAt(types)) == types;
    TablesEqual(Swept(RunFilled(tab, col, measure, run, types), col, measure, ElemTypeAt(types), 0, run),
                RunFilled(tab, col, measure, run, types + 1));
  }

  /** No runs done leaves the table as it was. */
  lemma RunsDoneNone(tab: Table, col: Column, measure: Stopwatch)
    ensures RunsDone(tab, col, measure, 0) == tab
  {
    TablesEqual(RunsDone(tab, col, measure, 0), tab);
  }

  /** Run n after the first n runs gives the first n + 1 runs. */
  lemma RunsDoneStep(tab: Table, col: Column, measure: Stopwatch, n: nat)
    ensures RunFilled(RunsDone(tab, col, measure, n), col, measure, n, ELEM_SIZE_COUNT)
      == RunsDone(tab, col, measure, n + 1)
  {
    TablesEqual(RunFilled(RunsDone(tab, col, measure, n), col, measure, n, ELEM_SIZE_COUNT),
                RunsDone(tab, col, measure, n + 1));
  }

  /** Whatever the tables held before, after all kTotalRuns runs every cell
      holds the times measured for its element type, array size and run. */
  lemma RunsDoneAll(tab: Table, col: Column, measure: Stopwatch)
    ensures RunsDone(tab, col, measure, TOTAL_RUNS) == Measured(measure, col)
  {
    TablesEqual(RunsDone(tab, col, measure, TOTAL_RUNS), Measured(measure, col));
  }

  /** The three tables of a TimingData, as values. */
  datatype Tables = Tables(baselines: Table, byRefs: Table, byVals: Table)

  ghost function TablesOf(data: TimingData): Tables
    requires data.Valid()
    reads data, data.baselines, data.byRefs, data.byVals
  {
    Tables(Cells(data.baselines), Cells(data.byRefs), Cells(data.byVals))
  }

  /** The tables after SetTimes stores the times of T and Exp2(from) for run. */
  function Stored(c: Tables, measure: Stopwatch, t: ElemType, from: nat, run: nat): Tables
    requires from < ARRAY_SIZE_COUNT && run < TOTAL_RUNS
  {
    var e, times := ElemIndex(t), measure(t, Exp2(from), run);
    Tables(SetCell(c.baselines, e, from, run, times.baseline),
           SetCell(c.byRefs, e, from, run, times.byRef),
           SetCell(c.byVals, e, from, run, times.byVal))
  }

  /** The three tables main leaves behind. */
  function MeasuredTables(measure: Stopwatch): Tables
  {
    Tables(Measured(measure, Baselines), Measured(measure, ByRefs), Measured(measure, ByVals))
  }

  function SweptTables(c: Tables, measure: Stopwatch, t: ElemType, from: nat, run: nat): Tables
  {
    Tables(Swept(c.baselines, Baselines, measure, t, from, run),
           Swept(c.byRefs, ByRefs, measure, t, from, run),
           Swept(c.byVals, ByVals, measure, t, from, run))
  }

  function RunFilledTables(c: Tables, measure: Stopwatch, run: nat, types: nat): Tables
  {
    Tables(RunFilled(c.baselines, Baselines, measure, run, types),
           RunFilled(c.byRefs, ByRefs, measure, run, types),
           RunFilled(c.byVals, ByVals, measure, run, types))
  }

  function RunsDoneTables(c: Tables, measure: Stopwatch, n: nat): Tables
  {
    Tables(RunsDone(c.baselines, Baselines, measure, n),
           RunsDone(c.byRefs, ByRefs, measure, n),
           RunsDone(c.byVals, ByVals, measure, n))
  }

  lemma SweptTablesNothing(c: Tables, measure: Stopwatch, t: ElemType, run: nat)
    ensures SweptTables(c, measure, t, ARRAY_SIZE_COUNT, run) == c
  {
    SweptNothing(c.baselines, Baselines, measure, t, run);
    SweptNothing(c.byRefs, ByRefs, measure, t, run);
    SweptNothing(c.byVals, ByVals, measure, t, run);
  }

  /** Storing the times of Exp2(from), then sweeping from `from + 1`, is
      sweeping from `from`. */
  lemma SweptTablesStep(c: Tables, stored: Tables, swept: Tables, measure: Stopwatch, t: ElemType, from: nat, run: nat)
    requires from < ARRAY_SIZE_COUNT && run < TOTAL_RUNS
    requires stored == Stored(c, measure, t, from, run)
    requires swept == SweptTables(stored, measure, t, from + 1, run)
    ensures swept == SweptTables(c, measure, t, from, run)
  {
    SweptStep(c.baselines, stored.baselines, Baselines, measure, t, from, run);
    SweptStep(c.byRefs, stored.byRefs, ByRefs, measure, t, from, run);
    SweptStep(c.byVals, stored.byVals, ByVals, measure, t, from, run);
  }

  /** The sweeps of uint8_t, uint16_t, uint32_t and uint64_t from size 1,
      one after the other, fill every cell of the run. */
  lemma SweepsFillRun(c: Tables, t8: Tables, t16: Tables, t32: Tables, t64: Tables, measure: Stopwatch, run: nat)
    requires run < TOTAL_RUNS
    requires t8 == SweptTables(c, measure, U8, 0, run)
    requires t16 == SweptTables(t8, measure, U16, 0, run)
    requires t32 == SweptTables(t16, measure, U32, 0, run)
    requires t64 == SweptTables(t32, measure, U64, 0, run)
    ensures t64 == RunFilledTables(c, measure, run, ELEM_SIZE_COUNT)
  {
    RunFilledTablesNone(c, measure, run);
    RunFilledTablesStep(c, measure, run, U8, 0);
    assert t8 == RunFilledTables(c, measure, run, 1);
    RunFilledTablesStep(c, measure, run, U16, 1);
    assert t16 == RunFilledTables(c, measure, run, 2);
    RunFilledTablesStep(c, measure, run, U32, 2);
    assert t32 == RunFilledTables(c, measure, run, 3);
    RunFilledTablesStep(c, measure, run, U64, 3);
  }

  lemma RunFilledTablesNone(c: Tables, measure: Stopwatch, run: nat)
    ensures RunFilledTables(c, measure, run, 0) == c
  {
    RunFilledNone(c.baselines, Baselines, measure, run);
    RunFilledNone(c.byRefs, ByRefs, measure, run);
    RunFilledNone(c.byVals, ByVals, measure, run);
  }

  lemma RunFilledTablesStep(c: Tables, measure: Stopwatch, run: nat, t: ElemType, types: nat)
    requires types < ELEM_SIZE_COUNT && run < TOTAL_RUNS && t == ElemTypeAt(types)
    ensures SweptTables(RunFilledTables(c, measure, run, types), measure, t, 0, run)
      == RunFilledTables(c, measure, run, types + 1)
  {
    RunFilledStep(c.baselines, Baselines, measure, run, types);
    RunFilledStep(c.byRefs, ByRefs, measure, run, types);
    RunFilledStep(c.byVals, ByVals, measure, run, types);
  }

  lemma RunsDoneTablesNone(c: Tables, measure: Stopwatch)
    ensures RunsDoneTables(c, measure, 0) == c
  {
    RunsDoneNone(c.baselines, Baselines, measure);
    RunsDoneNone(c.byRefs, ByRefs, measure);
    RunsDoneNone(c.byVals, ByVals, measure);
  }

  /** Run n, after the first n runs, gives the first n + 1 runs. */
  lemma RunsDoneTablesStep(c: Tables, before: Tables, after: Tables, measure: Stopwatch, n: nat)
    requires before == RunsDoneTables(c, measure, n)
    requires after == RunFilledTables(before, measure, n, ELEM_SIZE_COUNT)
    ensures after == RunsDoneTables(c, measure, n + 1)
  {
    RunsDoneStep(c.baselines, Baselines, measure, n);
    RunsDoneStep(c.byRefs, ByRefs, measure, n);
    RunsDoneStep(c.byVals, ByVals, measure, n);
  }

  lemma RunsDoneTablesAll(c: Tables, done: Tables, measure: Stopwatch)
    requires done == RunsDoneTables(c, measure, TOTAL_RUNS)
    ensures done == MeasuredTables(measure)
  {
    RunsDoneAll(c.baselines, Baselines, measure);
    RunsDoneAll(c.byRefs, ByRefs, measure);
    RunsDoneAll(c.byVals, ByVals, measure);
  }

  // ---------------------------------------------------------------------
  // The driver

  /** The body of EvalParamPassing<T, kMaxArraySizex2, arraySize>::Eval(run)
      below kMaxArraySizex2: build a RandArray of arraySize elements, run the
      three timing loops and store their times in the cell of T, arraySize
      and run, touching no other cell. */
  method EvalSize(t: ElemType, arraySize: u64, ghost exponent: nat, run: nat,
                  data: TimingData, rnd: FauxRand, work: array<u64>, measure: Stopwatch)
    requires data.Valid() && work.Length == SLOTS && run < TOTAL_RUNS
    requires exponent < ARRAY_SIZE_COUNT && arraySize == Exp2(exponent)
    modifies rnd, work, data.baselines, data.byRefs, data.byVals
    ensures TablesOf(data) == Stored(old(TablesOf(data)), measure, t, exponent, run)
  {
    TableDimensions();
    Exp2Increasing(exponent, ARRAY_SIZE_COUNT);
    var arr := new RandArray(t, arraySize, rnd);
    var baselineSum := TimeArrBaseline(arr, rnd, work, TOTAL_PASSES);
    var byRefSum := TimeArrByRef(arr, rnd, work, TOTAL_PASSES);
    var byValSum := TimeArrByVal(arr, rnd, work, TOTAL_PASSES);
    var times := measure(t, arraySize, run);
    Log2OfExp2(exponent);
    data.SetTimes(t, arraySize, run, times.baseline, times.byRef, times.byVal);
  }

  /** The recursion on Exp2(exponent) stops exactly at the last exponent,
      and otherwise moves on to twice the size, the next exponent. */
  lemma NextSize(exponent: nat)
    requires exponent <= ARRAY_SIZE_COUNT
    ensures Exp2(exponent) == MAX_ARRAY_SIZE_X2 <==> exponent == ARRAY_SIZE_COUNT
    ensures exponent < ARRAY_SIZE_COUNT ==> 2 * Exp2(exponent) == Exp2(exponent + 1)
  {
    TableDimensions();
    if exponent < ARRAY_SIZE_COUNT {
      Exp2Increasing(exponent, ARRAY_SIZE_COUNT);
    }
  }

  /** EvalParamPassing<T, kMaxArraySizex2, arraySize>::Eval(run): evaluate
      arraySize, then recurse on twice the size; the specialisation for
      arraySize == kMaxArraySizex2 does nothing. Returns, as a trace, the
      sizes it evaluated. */
  method EvalParamPassing(t: ElemType, arraySize: u64, ghost exponent: nat, run: nat,
                          data: TimingData, rnd: FauxRand, work: array<u64>, measure: Stopwatch)
    returns (ghost visited: seq<nat>)
    requires data.Valid() && work.Length == SLOTS && run < TOTAL_RUNS
    requires exponent <= ARRAY_SIZE_COUNT && arraySize == Exp2(exponent)
    modifies rnd, work, data.baselines, data.byRefs, data.byVals
    ensures visited == SizesFrom(exponent)
    ensures TablesOf(data) == SweptTables(old(TablesOf(data)), measure, t, exponent, run)
    decreases ARRAY_SIZE_COUNT - exponent
  {
    NextSize(exponent);
    if arraySize == MAX_ARRAY_SIZE_X2 {
      SweptTablesNothing(TablesOf(data), measure, t, run);
      visited := [];
      return;
    }
    ghost var before := TablesOf(data);
    EvalSize(t, arraySize, exponent, run, data, rnd, work, measure);
    ghost var stored := TablesOf(data);
    var rest := EvalParamPassing(t, 2 * arraySize, exponent + 1, run, data, rnd, work, measure);
    SweptTablesStep(before, stored, TablesOf(data), measure, t, exponent, run);
    ghost var size: nat := arraySize;
    visited := [size] + rest;
  }

  /** One iteration of main's run loop: the sweep for uint8_t, uint16_t,
      uint32_t and uint64_t, in that order. */
  method EvalRun(run: nat, data: TimingData, rnd: FauxRand, work: array<u64>, measure: Stopwatch)
    requires data.Valid() && work.Length == SLOTS && run < TOTAL_RUNS
    modifies rnd, work, data.baselines, data.byRefs, data.byVals
    ensures TablesOf(data) == RunFilledTables(old(TablesOf(data)), measure, run, ELEM_SIZE_COUNT)
  {
    ghost var start := TablesOf(data);
    assert Exp2(0) == 1;
    var _ := EvalParamPassing(U8, 1, 0, run, data, rnd, work, measure);
    ghost var t8 := TablesOf(data);
    var _ := EvalParamPassing(U16, 1, 0, run, data, rnd, work, measure);
    ghost var t16 := TablesOf(data);
    var _ := EvalParamPassing(U32, 1, 0, run, data, rnd, work, measure);
    ghost var t32 := TablesOf(data);
    var _ := EvalParamPassing(U64, 1, 0, run, data, rnd, work, measure);
    SweepsFillRun(start, t8, t16, t32, TablesOf(data), measure, run);
  }

  /** Iteration `run` of main's run loop, after the first `run` iterations,
      leaves the first run + 1 iterations done. */
  method NextRun(run: nat, ghost start: Tables, data: TimingData, rnd: FauxRand, work: array<u64>, measure: Stopwatch)
    requires data.Valid() && work.Length == SLOTS && run < TOTAL_RUNS
    requires TablesOf(data) == RunsDoneTables(start, measure, run)
    modifies rnd, work, data.baselines, data.byRefs, data.byVals
    ensures TablesOf(data) == RunsDoneTables(start, measure, run + 1)
  {
    ghost var before := TablesOf(data);
    EvalRun(run, data, rnd, work, measure);
    RunsDoneTablesStep(start, before, TablesOf(data), measure, run);
  }

  /** main's run loop: kTotalRuns iterations, each sweeping every element
      type and array size, leave every cell holding its own measured times,
      whatever the tables held before. */
  method RunAll(data: TimingData, rnd: FauxRand, work: array<u64>, measure: Stopwatch)
    requires data.Valid() && work.Length == SLOTS
    modifies rnd, work, data.baselines, data.byRefs, data.byVals
    ensures TablesOf(data) == MeasuredTables(measure)
  {
    ghost var start := TablesOf(data);
    RunsDoneTablesNone(start, measure);
    var run := 0;
    while run < TOTAL_RUNS
      invariant 0 <= run <= TOTAL_RUNS
      invariant TablesOf(data) == RunsDoneTables(start, measure, run)
    {
      NextRun(run, start, data, rnd, work, measure);
      run := run + 1;
    }
    RunsDoneTablesAll(start, TablesOf(data), measure);
  }

  /** main without its console output: the run loop, then OutputResults on
      the filled tables. */
  method RunBenchmark(data: TimingData, rnd: FauxRand, work: array<u64>, measure: Stopwatch)
    returns (rows: seq<ResultRow>)
    requires data.Valid() && work.Length == SLOTS
    modifies rnd, work, data.baselines, data.byRefs, data.byVals
    ensures rows == Report(Measured(measure, Baselines), Measured(measure, ByRefs), Measured(measure, ByVals))
  {
    RunAll(data, rnd, work, measure);
    rows := data.OutputResults();
  }
}
