# ParamPassTiming, modelled in Dafny

ParamPassTiming is a one-file C++ benchmark. It measures how much more it
costs to pass a fixed-size array of unsigned integers by value than by
reference. Element types are `uint8_t` to `uint64_t`; array sizes are 1 to
2048 elements. The program has five parts:

- a global linear-congruential generator, `FauxRand`;
- side work that defeats the optimiser: `RandomWork` scrambles a 16-slot
  accumulator, `gWork`, and `RandArray::ComputeValue` sums a few randomly
  chosen elements;
- three timing loops: a baseline that does that work inline, and one loop
  each through `ByRef` and `ByVal`;
- a sweep driver. `EvalParamPassing` walks the array sizes by template
  recursion; `main` repeats the sweep for four element types in each of 31
  runs;
- a store of all samples, `TimingData`. `SetTimes` fills it cell by cell.
  `OutputResults` reports, for each (mode, array size, element size), the
  median of the mode's runs minus the median of the baseline's runs.

The model has one module per part of the program:

| module (file) | models |
|---|---|
| `SizeT` (`size_t.dfy`) | `size_t` arithmetic: wrap-around `+`, `<<`, `^`; the four element types and `static_cast<T>` |
| `PowerOfTwo` (`power_of_two.dfy`) | `Exp2`, the `Log2` loop and their round trips |
| `Median` (`median.dfy`) | `nth_element` as an in-place quickselect on an `array<int>`; `GetMedian` is proved against a sort-based reference median |
| `Timing` (`timing_data.dfy`) | `TimingData` as a class with three `array3<int>` tables; `SetTimes`; `Output`/`OutputResults`, which return the report as a sequence of rows |
| `FauxRandom` (`faux_rand.dfy`) | `FauxRand` as a class with a mutable `next` field; `RandomWork` on a 16-slot `array` |
| `RandArrays` (`rand_array.dfy`) | `RandArray` as a class over an `array`; its constructor and `ComputeValue`; `ByVal`, `ByRef` and the three timing loops |
| `Sweep` (`sweep.dfy`) | `EvalParamPassing` as a recursive method over the exponent of the array size; `main`'s run loop and report |

Elapsed times are an input. `Sweep` takes a function
`measure(type, size, run)` that returns the three times the timers would
read. Every cell of the report is then proved to be a function of
`measure` alone: `Sweep.RunBenchmark` yields
`Report(Measured(measure, …))`. It does not depend on the generator's seed,
on `gWork`, or on what the tables held before.

Every `size_t` value is a `u64`, an integer `0 <= x < 2^64`.
Every wrap-around is written as an explicit `% 2^64`.

## Model

| member | source | states |
|---|---|---|
| `SizeT.Add` | ParamPassTiming.cpp:199 | `+=` on `size_t`: the exact sum when it fits in 64 bits, the sum minus 2^64 otherwise |
| `SizeT.Pow2FitsWord` | ParamPassTiming.cpp:74-75 | `1 << e` is a `size_t` value for every exponent the assertion admits (`e < 64`) |
| `SizeT.BitXorBelow` | ParamPassTiming.cpp:199 | the xor of two values below 2^n is below 2^n, so `random ^ (random << 1)` is a `size_t` |
| `SizeT.ElemType.SizeOf` | ParamPassTiming.cpp:109 | `sizeof(T)` is 1, 2, 4 or 8 for the four element types |
| `SizeT.RangeIsPow2` | ParamPassTiming.cpp:211 | each element type holds exactly 2^(8·sizeof T) values |
| `SizeT.Truncate` | ParamPassTiming.cpp:211 | `static_cast<T>` yields a value of T, and leaves a value that already fits unchanged |
| `PowerOfTwo.Exp2` | ParamPassTiming.cpp:72-76 | for exponent < 64, the result is 2^exponent and has exactly one set bit |
| `PowerOfTwo.Log2` | ParamPassTiming.cpp:78-85 | for an argument with a single set bit, the loop stops, and its result is the index of that bit, below 64, with `Exp2(result)` equal to the argument |
| `PowerOfTwo.Log2OfExp2` | ParamPassTiming.cpp:72-85 | `Log2(Exp2(e)) == e` for every e < 64 |
| `PowerOfTwo.Exp2OfLog2` | ParamPassTiming.cpp:72-85 | `Exp2(Log2(p)) == p`, with `Log2(p) < 64`, for every `size_t` p with a single set bit |
| `PowerOfTwo.Exp2Increasing` | ParamPassTiming.cpp:72-76 | Exp2 is strictly increasing, so exponents order the sizes they denote |
| `Median.SortCorrect` | ParamPassTiming.cpp:93-101 | the reference sort returns a sorted permutation of its input |
| `Median.CountsOfPermutation` | ParamPassTiming.cpp:99 | reordering a container does not change how many of its elements are below x, or at most x |
| `Median.PartitionedHasRank` | ParamPassTiming.cpp:99-100 | once nth_element has run, the element at position k has rank k |
| `Median.RankIsSortedElement` | ParamPassTiming.cpp:99-100 | a value of rank k is the k-th element of the sorted contents |
| `Median.MedianOfPermutation` | ParamPassTiming.cpp:93-101 | the median of an odd-length sequence does not depend on its order |
| `Median.MedianOfConstant` | ParamPassTiming.cpp:93-101 | the median of identical samples is that sample |
| `Median.PartitionScan` | ParamPassTiming.cpp:99 | the scan of the partition: the window's elements up to the pivot come first, the larger ones after, the pivot stays last; elements outside the window, the splits at both ends and the multiset are kept |
| `Median.Partition` | ParamPassTiming.cpp:99 | partitions a window around a pivot position; keeps the elements outside the window, the contents as a multiset, and the splits at both ends of the window |
| `Median.NthElement` | ParamPassTiming.cpp:99 | `nth_element(a, a + k)`: every element before position k is at most a[k], every element after it is at least a[k], and the contents are a permutation of the old ones |
| `Median.GetMedian` | ParamPassTiming.cpp:93-101 | requires odd length; leaves the container a permutation of its old contents, partitioned at the middle; returns the middle element, which has rank len/2 in the old contents and is their sorted median |
| `Timing.TableDimensions` | ParamPassTiming.cpp:88-91 | the counts the source derives with Log2 are 4 element sizes and 12 array sizes; kTotalRuns is odd, as the static_assert at ParamPassTiming.cpp:335 requires |
| `Timing.TableIndicesInBounds` | ParamPassTiming.cpp:107-114 | for every element type and every power-of-two array size below kMaxArraySizex2, the indices SetTimes computes are below 4 and 12 |
| `Timing.SetCell` | ParamPassTiming.cpp:111-113 | a table with one sample written holds the new value there, and the old values everywhere else |
| `Timing.CellsAfterWrite` | ParamPassTiming.cpp:111-113 | an array that differs from a table only at one sample holds that table with the sample written |
| `Timing.WriteCell` | ParamPassTiming.cpp:111 | assigns one sample of a table; no other sample changes |
| `Timing.ReportLayout` | ParamPassTiming.cpp:116-138 | the report has 96 rows: 48 rows headed "by ref", then 48 rows headed "by val" |
| `Timing.ReportRowOfCell` | ParamPassTiming.cpp:127-135 | the cell (e, s) of each mode is at position 12·e + s of that mode's block; the row holds array size Exp2(s), element size Exp2(e) and the unclamped difference of the two medians |
| `Timing.ModeRowAt` | ParamPassTiming.cpp:127-135 | row i of one Output call is the row of cell (i / 12, i % 12) |
| `Timing.ModeRowsOrder` | ParamPassTiming.cpp:127-130 | within one Output call, rows ascend by element size, and by array size among rows of the same element size |
| `Timing.ReportOrder` | ParamPassTiming.cpp:116-138 | the same ordering holds for any two rows of the same mode in the whole report |
| `Timing.ReportRowsDistinct` | ParamPassTiming.cpp:116-138 | no (mode, array size, element size) triple appears twice in the report |
| `Timing.ModeRowsOfPermutation` | ParamPassTiming.cpp:132-133 | reordering the samples of any cells, as the in-place medians do, does not change the rows |
| `Timing.SameSamplesZeroDelta` | ParamPassTiming.cpp:135 | for each mode: when its samples of cell (e, s) are the baseline's samples in any order, its row for that cell (position 12·e + s for "by ref", 48 + 12·e + s for "by val") has delta 0 |
| `Timing.CopyRuns` | ParamPassTiming.cpp:132-133 | copies the 31 runs of one cell into a fresh array |
| `Timing.StoreRuns` | ParamPassTiming.cpp:132-133 | writes the runs of one cell back; every other cell keeps its runs |
| `Timing.MedianOfCell` | ParamPassTiming.cpp:132-133 | GetMedian on one cell returns the median of that cell as it was, and leaves every cell a permutation of its old samples |
| `Timing.TimingData.constructor` | ParamPassTiming.cpp:141-145 | three distinct 4×12×31 tables, all zero, as in the zero-initialised global `timingData` |
| `Timing.TimingData.SetTimes` | ParamPassTiming.cpp:107-114 | the indices are in bounds; each table gets its value at [Log2(sizeof T)][Log2(arraySize)][run]; nothing else changes |
| `Timing.TimingData.OutputResults` | ParamPassTiming.cpp:116-120 | the "by ref" rows, then the "by val" rows, computed from the tables as they were before any median reordered them; afterwards every cell is a permutation of its old samples |
| `Timing.TimingData.Output` | ParamPassTiming.cpp:123-138 | the rows of one mode, element-size index in the outer loop and array-size index in the inner loop; every cell is left a permutation of its old samples |
| `Timing.TimingData.OutputElemSize` | ParamPassTiming.cpp:127-137 | one pass of the outer loop emits the twelve rows of its element size, in ascending array size |
| `Timing.TimingData.OutputCell` | ParamPassTiming.cpp:129-135 | one pass of the inner loop emits the row of its cell from the medians of the original samples |
| `FauxRandom.Draws` | ParamPassTiming.cpp:180-186 | the i-th value drawn from a state is that state advanced i + 1 times |
| `FauxRandom.StateAfterAdd` | ParamPassTiming.cpp:180-186 | m draws and then n draws leave the state that m + n draws leave |
| `FauxRandom.FauxRand.constructor` | ParamPassTiming.cpp:170-173 | the state starts at the seed, which defaults to 0 |
| `FauxRandom.FauxRand.Seed` | ParamPassTiming.cpp:175-178 | the state becomes the seed |
| `FauxRandom.FauxRand.Draw` | ParamPassTiming.cpp:180-186 | the state becomes (state·214013 + 2531011) mod 2^64, a function of the old state alone, and that new state is returned |
| `FauxRandom.WorkSlot` | ParamPassTiming.cpp:197 | the slot RandomWork picks is below kSlots (16) |
| `FauxRandom.WorkAfter` | ParamPassTiming.cpp:194-200 | the picked slot gains `random ^ (random << 1)` mod 2^64, where random is the second draw; the other 15 slots are unchanged |
| `FauxRandom.RandomWork` | ParamPassTiming.cpp:194-200 | exactly two draws; gWork becomes WorkAfter of its old contents |
| `RandArrays.Filled` | ParamPassTiming.cpp:206-213 | element i is the i-th value of the generator's stream (`Draws`), that is the state advanced i + 1 times, cut down to T |
| `RandArrays.SummandCount` | ParamPassTiming.cpp:218 | ComputeValue sums at most 3 elements |
| `RandArrays.SummandIndex` | ParamPassTiming.cpp:222 | each summand's index is below N |
| `RandArrays.WrappedSumAtMostRaw` | ParamPassTiming.cpp:219-224 | the `size_t` sum never exceeds the true sum, and equals it while the true sum fits in 64 bits |
| `RandArrays.RawSumBound` | ParamPassTiming.cpp:219-224 | i summands of type T add up to at most i·(2^(8·sizeof T) − 1) |
| `RandArrays.ComputedValueBounds` | ParamPassTiming.cpp:215-226 | k ≤ 3 summands; the returned value is at most k·(2^(8·sizeof T) − 1); for T of at most 32 bits the sum does not wrap |
| `RandArrays.PassDraws` | ParamPassTiming.cpp:272-273 | one pass (RandomWork, then ComputeValue) takes between 3 and 6 draws |
| `RandArrays.RunPasses` | ParamPassTiming.cpp:269-274 | n passes keep gWork at 16 slots |
| `RandArrays.PassesDrawCount` | ParamPassTiming.cpp:269-274 | n passes take between 3n and 6n draws, and leave the generator exactly that many draws on |
| `RandArrays.RandArray.constructor` | ParamPassTiming.cpp:206-213 | exactly N draws; element i is draw i + 1 truncated to T; so every element is a value of T |
| `RandArrays.RandArray.Copy` | ParamPassTiming.cpp:242 | the by-value parameter is a fresh array with the same elements |
| `RandArrays.RandArray.ComputeValue` | ParamPassTiming.cpp:215-226 | 1 + k draws; the result is the `size_t` sum of the k elements at the drawn indices; the array is only read |
| `RandArrays.BaselinePass` | ParamPassTiming.cpp:272-273 | the inline loop body: the generator state, gWork and the value, as functions of the state before the pass |
| `RandArrays.ByVal` | ParamPassTiming.cpp:241-247 | through a copy of the argument, exactly what one baseline pass computes from the same generator state |
| `RandArrays.ByRef` | ParamPassTiming.cpp:249-255 | exactly what one baseline pass computes from the same generator state |
| `RandArrays.TimeArrBaseline` | ParamPassTiming.cpp:264-276 | kTotalPasses inline passes: the generator, gWork and the `size_t` sum they leave are those of RunPasses |
| `RandArrays.TimeArrByVal` | ParamPassTiming.cpp:279-288 | passes through ByVal leave the same generator state, gWork and sum as the baseline loop |
| `RandArrays.TimeArrByRef` | ParamPassTiming.cpp:291-300 | passes through ByRef leave the same generator state, gWork and sum as the baseline loop |
| `Sweep.ElemTypeAt` | ParamPassTiming.cpp:341-344 | the element type the run loop evaluates as its e-th has element-size index e |
| `Sweep.ElemIndex` | ParamPassTiming.cpp:109 | `Log2(sizeof(T))` is below 4 and maps back to T |
| `Sweep.SizesFrom` | ParamPassTiming.cpp:306-330 | the recursion from `ArrSize = Exp2(i)` evaluates Exp2(i), Exp2(i + 1), … up to, but not including, kMaxArraySizex2 |
| `Sweep.SizesDouble` | ParamPassTiming.cpp:321 | each size the recursion evaluates is twice the one before |
| `Sweep.SizesIncreasing` | ParamPassTiming.cpp:321-330 | the sizes increase strictly and stay below kMaxArraySizex2, so none is evaluated twice |
| `Sweep.SweepSizes` | ParamPassTiming.cpp:306-330 | from size 1, twelve sizes 1, 2, …, 2048 are evaluated, each doubling the last |
| `Sweep.NextSize` | ParamPassTiming.cpp:321-330 | the recursion on Exp2(exponent) hits the kMaxArraySizex2 specialisation exactly at exponent 12, and otherwise moves to twice the size, which is Exp2(exponent + 1) |
| `Sweep.SweptNothing` | ParamPassTiming.cpp:326-330 | the specialisation for kMaxArraySizex2 writes nothing |
| `Sweep.SweptStep` | ParamPassTiming.cpp:309-322 | SetTimes at the current size, then the recursion on the doubled size, is the sweep from the current size |
| `Sweep.RunFilledNone` | ParamPassTiming.cpp:338-345 | before the first sweep of a run, no cell of that run is filled |
| `Sweep.RunFilledStep` | ParamPassTiming.cpp:341-344 | sweeping the next element type fills that type's cells of the run |
| `Sweep.RunsDoneNone` | ParamPassTiming.cpp:338 | before the first run, no run is done |
| `Sweep.RunsDoneStep` | ParamPassTiming.cpp:338-345 | one more iteration of the run loop fills one more run |
| `Sweep.RunsDoneAll` | ParamPassTiming.cpp:338-345 | after 31 runs every cell holds its own measured time, whatever the table held before |
| `Sweep.SweptTablesNothing` | ParamPassTiming.cpp:326-330 | SweptNothing for all three tables |
| `Sweep.SweptTablesStep` | ParamPassTiming.cpp:309-322 | SweptStep for all three tables |
| `Sweep.SweepsFillRun` | ParamPassTiming.cpp:341-344 | the sweeps of uint8_t, uint16_t, uint32_t and uint64_t, in turn, fill every cell of the run in all three tables |
| `Sweep.RunFilledTablesNone` | ParamPassTiming.cpp:338-345 | RunFilledNone for all three tables |
| `Sweep.RunFilledTablesStep` | ParamPassTiming.cpp:341-344 | RunFilledStep for all three tables |
| `Sweep.RunsDoneTablesNone` | ParamPassTiming.cpp:338 | RunsDoneNone for all three tables |
| `Sweep.RunsDoneTablesStep` | ParamPassTiming.cpp:338-345 | RunsDoneStep for all three tables |
| `Sweep.RunsDoneTablesAll` | ParamPassTiming.cpp:338-345 | RunsDoneAll for all three tables |
| `Sweep.EvalSize` | ParamPassTiming.cpp:309-318 | one evaluation stores the times of (T, arraySize, run) in all three tables and writes nothing else |
| `Sweep.EvalParamPassing` | ParamPassTiming.cpp:306-330 | visits exactly the sizes SizesFrom(exponent), in order, and leaves each table swept: the cells of T, this run and sizes from arraySize on hold their measured times; all other cells are unchanged |
| `Sweep.EvalRun` | ParamPassTiming.cpp:340-344 | one iteration of the run loop fills the run's cells of every element type and size, and no others |
| `Sweep.NextRun` | ParamPassTiming.cpp:338-345 | with the first `run` runs done, the next iteration leaves the first run + 1 runs done |
| `Sweep.RunAll` | ParamPassTiming.cpp:338-345 | after the run loop, whatever the tables held before, every cell of every table holds its own measured time |
| `Sweep.RunBenchmark` | ParamPassTiming.cpp:332-349 | the report main produces is the Report of the measured tables: it depends on the measured times alone, so identical timings give an identical report |

## Left out

- The timer and the clock (`Timer`, `sysclk`; ParamPassTiming.cpp:150-165,
  268, 275) are not modelled. Elapsed times are the `measure` input of
  `Sweep`. In the model the timing loops return the sum they accumulate,
  not an elapsed time.
- Console output (ParamPassTiming.cpp:135, 314, 337, 340, 348) is not
  modelled. `Output` returns rows of (mode, array size, element size,
  delta). It does not print lines.
- Samples are unbounded integers, in place of `std::chrono::milliseconds`,
  so the model does not capture overflow of `time - baseline`.
- `arrByValSums`/`arrByRefSums` and the exit code (ParamPassTiming.cpp:49-50,
  287, 299, 351) are not modelled: the timing loops hand back their sums and
  the sweep discards them. The checksum has no meaning.
- `#pragma optimize`, `NOINLINE` and `CDECL` are compiler directives with no
  meaning in the model.
  - Pass-by-value is the `Copy` constructor followed by the same body as
    pass-by-reference.
- The template parameters T and N become run-time values.
  - The `static_assert` on `sizeof(arr)` (ParamPassTiming.cpp:312) is a
    layout fact the model cannot state.
  - The static_assert on the run count (ParamPassTiming.cpp:335) is
    `Timing.TableDimensions`.
- Only the release values of kTotalRuns (31) and kTotalPasses (10^8) are
  modelled, not the `_DEBUG` ones.
- The globals `rnd`, `gWork` and `timingData` are parameters, not globals.
  The seed 42 is not fixed, because none of the proved results depends on it.
- `Median.NthElement` is a Lomuto quickselect. It guarantees what
  `std::ranges::nth_element` guarantees: the partition around position k,
  and a permutation. It does not reproduce the library's arrangement of the
  elements on either side of k.
- `Timing.MedianOfCell` copies a cell's runs into an array, selects the
  median there and stores them back. The source reorders the cell in place.
  The effect on the table is the same.
- `Exp2`, `Log2` and `GetMedian` check their arguments only with `assert`
  (ParamPassTiming.cpp:74, 80, 96). The model turns these assertions into
  preconditions: exponent < 64, a single set bit, odd length. Under
  `NDEBUG`, `Log2(0)` would return 0 and `GetMedian` would accept an even
  length; those cases are not modelled.
- `RandArrays.Filled` and `RandArrays.RandArray.constructor` assume that
  `std::ranges::transform` (ParamPassTiming.cpp:209) calls its lambda on the
  elements from front to back. The standard does not fix that order;
  mainstream libraries use it.
- `RandArrays.RandArray.ComputeValue` requires N ≥ 1, because `% N` with
  N = 0 is undefined in the source. The sweep never builds an empty array.
- `Sweep.EvalSize`, `Sweep.EvalParamPassing`, `Sweep.EvalRun`, `Sweep.NextRun`, `Sweep.RunAll`,
  `Sweep.RunBenchmark`: do not state the generator state or gWork after the
  sweep. Those depend on the values drawn; `RandArrays.PassesDrawCount`
  bounds the draws one timing loop takes.
