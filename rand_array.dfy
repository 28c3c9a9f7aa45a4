/** RandArray<T, N> (ParamPassTiming.cpp:202-230), the two call targets ByVal
    and ByRef (ParamPassTiming.cpp:241-255), and the timing loops around them
    (ParamPassTiming.cpp:264-301) without their clock reads. */
module RandArrays {
  import opened SizeT
  import opened FauxRandom

  /** kValuesToSumMax: ComputeValue sums fewer than this many elements. */
  const VALUES_TO_SUM_MAX: nat := 4

  /** The contents a construction from generator state `state` gives: the
      i-th element is the (i+1)-th draw cut down to T. */
  function Filled(t: ElemType, state: u64, n: nat): (r: seq<u64>)
    ensures |r| == n
    ensures forall i :: 0 <= i < n ==> r[i] == Truncate(StateAfter(state, i + 1), t)
    ensures forall i :: 0 <= i < n ==> r[i] == Truncate(Draws(state, n)[i], t)
  {
    if n == 0 then [] else Filled(t, state, n - 1) + [Truncate(StateAfter(state, n), t)]
  }

  /** How many elements ComputeValue sums when the generator holds `state`. */
  function SummandCount(state: u64): (k: nat)
    ensures k < VALUES_TO_SUM_MAX
  {
    StateAfter(state, 1) % VALUES_TO_SUM_MAX
  }

  /** The index of the i-th summand (from 0): drawn right after the count
      and the i summands before it. */
  function SummandIndex(n: nat, state: u64, i: nat): (slot: nat)
    requires n >= 1
    ensures slot < n
  {
    StateAfter(state, i + 2) % n
  }

  /** The first i summands added as mathematical integers (no wrap-around). */
  function RawSum(a: seq<u64>, state: u64, i: nat): nat
    requires |a| >= 1
  {
    if i == 0 then 0 else RawSum(a, state, i - 1) + a[SummandIndex(|a|, state, i - 1)]
  }

  /** The first i summands added on size_t, as the loop of ComputeValue
      adds them. */
  function WrappedSum(a: seq<u64>, state: u64, i: nat): u64
    requires |a| >= 1
  {
    if i == 0 then 0 else Add(WrappedSum(a, state, i - 1), a[SummandIndex(|a|, state, i - 1)])
  }

  /** What ComputeValue returns. */
  function ComputedValue(a: seq<u64>, state: u64): u64
    requires |a| >= 1
  {
    WrappedSum(a, state, SummandCount(state))
  }

  /** The wrapped sum never exceeds the true sum, and equals it while the
      true sum fits in a word. */
  lemma {:induction false} WrappedSumAtMostRaw(a: seq<u64>, state: u64, i: nat)
    requires |a| >= 1
    ensures WrappedSum(a, state, i) <= RawSum(a, state, i)
    ensures RawSum(a, state, i) < TWO_64 ==> WrappedSum(a, state, i) == RawSum(a, state, i)
  {
    if i > 0 {
      WrappedSumAtMostRaw(a, state, i - 1);
    }
  }

  predicate ElementsFit(a: seq<u64>, t: ElemType)
  {
    forall i :: 0 <= i < |a| ==> a[i] < t.Range()
  }

  lemma {:induction false} RawSumBound(a: seq<u64>, t: ElemType, state: u64, i: nat)
    requires |a| >= 1 && ElementsFit(a, t)
    ensures RawSum(a, state, i) <= i * (t.Range() - 1)
  {
    if i > 0 {
      RawSumBound(a, t, state, i - 1);
      assert (i - 1) * (t.Range() - 1) + (t.Range() - 1) == i * (t.Range() - 1);
    }
  }

  /** The sum is at most k times the largest value of T, where k < 4 is the
      number of summands; for T up to 32 bits it never wraps around. */
  lemma ComputedValueBounds(a: seq<u64>, t: ElemType, state: u64)
    requires |a| >= 1 && ElementsFit(a, t)
    ensures SummandCount(state) <= 3
    ensures ComputedValue(a, state) <= SummandCount(state) * (t.Range() - 1)
    ensures t.SizeOf() <= 4 ==> ComputedValue(a, state) == RawSum(a, state, SummandCount(state))
  {
    var k, m := SummandCount(state), t.Range() - 1;
    RawSumBound(a, t, state, k);
    WrappedSumAtMostRaw(a, state, k);
    if t.SizeOf() <= 4 {
      MulAtMost(k, 3, m);
      assert RawSum(a, state, k) <= 3 * m < TWO_64;
    }
  }

  lemma MulAtMost(a: nat, b: nat, c: nat)
    requires a <= b
    ensures a * c <= b * c
  {
  }

  /** Draws one timed pass takes: two for RandomWork, then the count and one
      per summand for ComputeValue. */
  function PassDraws(state: u64): (d: nat)
    ensures 3 <= d <= 6
  {
    2 + 1 + SummandCount(StateAfter(state, 2))
  }

  /** The value one pass (RandomWork, then ComputeValue) returns. */
  function PassValue(a: seq<u64>, state: u64): u64
    requires |a| >= 1
  {
    ComputedValue(a, StateAfter(state, 2))
  }

  /** Generator state, accumulator and running sum after some passes. */
  datatype Passes = Passes(next: u64, work: seq<u64>, sum: u64)

  /** The effect of n passes of the timing loop of ParamPassTiming.cpp:269-274. */
  function RunPasses(a: seq<u64>, state: u64, work: seq<u64>, n: nat): (r: Passes)
    requires |a| >= 1 && |work| == SLOTS
    ensures |r.work| == SLOTS
  {
    if n == 0 then Passes(state, work, 0)
    else
      var p := RunPasses(a, state, work, n - 1);
      Passes(StateAfter(p.next, PassDraws(p.next)), WorkAfter(p.work, p.next),
             Add(p.sum, PassValue(a, p.next)))
  }

  /** n passes consume between 3n and 6n draws of the generator. */
  lemma {:induction false} PassesDrawCount(a: seq<u64>, state: u64, work: seq<u64>, n: nat)
    returns (d: nat)
    requires |a| >= 1 && |work| == SLOTS
    ensures 3 * n <= d <= 6 * n
    ensures RunPasses(a, state, work, n).next == StateAfter(state, d)
  {
    if n == 0 {
      d := 0;
    } else {
      var e := PassesDrawCount(a, state, work, n - 1);
      var p := RunPasses(a, state, work, n - 1);
      StateAfterAdd(state, e, PassDraws(p.next));
      d := e + PassDraws(p.next);
    }
  }

  class RandArray {
    const elem: ElemType
    const arr: array<u64>

    /** Every element is a value of T. */
    ghost predicate Valid()
      reads this, arr
    {
      ElementsFit(arr[..], elem)
    }

    /** RandArray(): fill the N elements, in order, from the generator. */
    constructor (t: ElemType, n: nat, rnd: FauxRand)
      modifies rnd
      ensures Valid() && elem == t && fresh(arr) && arr.Length == n
      ensures arr[..] == Filled(t, old(rnd.next), n)
      ensures rnd.next == StateAfter(old(rnd.next), n)
    {
      var a := new u64[n];
      var i := 0;
      while i < n
        invariant 0 <= i <= n
        invariant rnd.next == StateAfter(old(rnd.next), i)
        invariant a[..i] == Filled(t, old(rnd.next), i)
      {
        var r := rnd.Draw();
        a[i] := Truncate(r, t);
        assert a[..i + 1] == a[..i] + [a[i]];
        i := i + 1;
      }
      assert a[..] == a[..n];
      elem, arr := t, a;
    }

    /** The implicit copy constructor, which passing by value invokes. */
    constructor Copy(other: RandArray)
      ensures elem == other.elem && fresh(arr) && arr[..] == other.arr[..]
    {
      var a := new u64[other.arr.Length];
      forall i | 0 <= i < a.Length {
        a[i] := other.arr[i];
      }
      elem, arr := other.elem, a;
    }

    /** ComputeValue: draw the count k < 4, then sum k elements at drawn
        indices. The array is only read. */
    method ComputeValue(rnd: FauxRand) returns (sum: u64)
      requires arr.Length >= 1
      modifies rnd
      ensures rnd.next == StateAfter(old(rnd.next), 1 + SummandCount(old(rnd.next)))
      ensures sum == ComputedValue(arr[..], old(rnd.next))
    {
      var count := rnd.Draw();
      var numValuesToSum := count % VALUES_TO_SUM_MAX;
      sum := 0;
      var i := 0;
      while i < numValuesToSum
        invariant 0 <= i <= numValuesToSum
        invariant rnd.next == StateAfter(old(rnd.next), 1 + i)
        invariant sum == WrappedSum(arr[..], old(rnd.next), i)
      {
        var r := rnd.Draw();
        var slot := r % arr.Length;
        assert slot == SummandIndex(arr.Length, old(rnd.next), i);
        sum := Add(sum, arr[slot]);
        i := i + 1;
      }
    }
  }

  /** The baseline loop body (ParamPassTiming.cpp:272-273): RandomWork, then
      ComputeValue, with no call boundary. */
  method BaselinePass(arr: RandArray, rnd: FauxRand, work: array<u64>) returns (value: u64)
    requires arr.arr.Length >= 1 && work.Length == SLOTS && work != arr.arr
    modifies rnd, work
    ensures rnd.next == StateAfter(old(rnd.next), PassDraws(old(rnd.next)))
    ensures work[..] == WorkAfter(old(work[..]), old(rnd.next))
    ensures value == PassValue(arr.arr[..], old(rnd.next))
  {
    RandomWork(rnd, work);
    value := arr.ComputeValue(rnd);
    StateAfterAdd(old(rnd.next), 2, 1 + SummandCount(StateAfter(old(rnd.next), 2)));
  }

  /** ByVal: the argument is a copy of the caller's RandArray. */
  method ByVal(arr: RandArray, rnd: FauxRand, work: array<u64>) returns (value: u64)
    requires arr.arr.Length >= 1 && work.Length == SLOTS && work != arr.arr
    modifies rnd, work
    ensures rnd.next == StateAfter(old(rnd.next), PassDraws(old(rnd.next)))
    ensures work[..] == WorkAfter(old(work[..]), old(rnd.next))
    ensures value == PassValue(arr.arr[..], old(rnd.next))
  {
    var copy := new RandArray.Copy(arr);
    RandomWork(rnd, work);
    value := copy.ComputeValue(rnd);
    StateAfterAdd(old(rnd.next), 2, 1 + SummandCount(StateAfter(old(rnd.next), 2)));
  }

  /** ByRef: the argument is the caller's RandArray itself. */
  method ByRef(arr: RandArray, rnd: FauxRand, work: array<u64>) returns (value: u64)
    requires arr.arr.Length >= 1 && work.Length == SLOTS && work != arr.arr
    modifies rnd, work
    ensures rnd.next == StateAfter(old(rnd.next), PassDraws(old(rnd.next)))
    ensures work[..] == WorkAfter(old(work[..]), old(rnd.next))
    ensures value == PassValue(arr.arr[..], old(rnd.next))
  {
    RandomWork(rnd, work);
    value := arr.ComputeValue(rnd);
    StateAfterAdd(old(rnd.next), 2, 1 + SummandCount(StateAfter(old(rnd.next), 2)));
  }

  /** The three timing loops: `passes` repetitions of one kind of pass,
      summing the results on size_t. The clock reads around the loop are not
      part of this model; the sum the loop accumulates is returned. */
  method TimeArrBaseline(arr: RandArray, rnd: FauxRand, work: array<u64>, passes: nat)
    returns (sum: u64)
    requires arr.arr.Length >= 1 && work.Length == SLOTS && work != arr.arr
    modifies rnd, work
    ensures var p := RunPasses(arr.arr[..], old(rnd.next), old(work[..]), passes);
      rnd.next == p.next && work[..] == p.work && sum == p.sum
  {
    sum := 0;
    var i := 0;
    while i < passes
      invariant 0 <= i <= passes
      invariant var p := RunPasses(arr.arr[..], old(rnd.next), old(work[..]), i);
        rnd.next == p.next && work[..] == p.work && sum == p.sum
    {
      var value := BaselinePass(arr, rnd, work);
      sum := Add(sum, value);
      i := i + 1;
    }
  }

  method TimeArrByVal(arr: RandArray, rnd: FauxRand, work: array<u64>, passes: nat)
    returns (sum: u64)
    requires arr.arr.Length >= 1 && work.Length == SLOTS && work != arr.arr
    modifies rnd, work
    ensures var p := RunPasses(arr.arr[..], old(rnd.next), old(work[..]), passes);
      rnd.next == p.next && work[..] == p.work && sum == p.sum
  {
    sum := 0;
    var i := 0;
    while i < passes
      invariant 0 <= i <= passes
      invariant var p := RunPasses(arr.arr[..], old(rnd.next), old(work[..]), i);
        rnd.next == p.next && work[..] == p.work && sum == p.sum
    {
      var value := ByVal(arr, rnd, work);
      sum := Add(sum, value);
      i := i + 1;
    }
  }

  method TimeArrByRef(arr: RandArray, rnd: FauxRand, work: array<u64>, passes: nat)
    returns (sum: u64)
    requires arr.arr.Length >= 1 && work.Length == SLOTS && work != arr.arr
    modifies rnd, work
    ensures var p := RunPasses(arr.arr[..], old(rnd.next), old(work[..]), passes);
      rnd.next == p.next && work[..] == p.work && sum == p.sum
  {
    sum := 0;
    var i := 0;
    while i < passes
      invariant 0 <= i <= passes
      invariant var p := RunPasses(arr.arr[..], old(rnd.next), old(work[..]), i);
        rnd.next == p.next && work[..] == p.work && sum == p.sum
    {
      var value := ByRef(arr, rnd, work);
      sum := Add(sum, value);
      i := i + 1;
    }
  }
}
