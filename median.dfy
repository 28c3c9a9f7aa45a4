/** GetMedian (ParamPassTiming.cpp:93-101): partially reorder an odd-length
    container with nth_element so that its middle position holds the element
    of middle rank, and return that element. nth_element is modelled as a
    quickselect with a Lomuto partition; only the guarantees nth_element gives
    are stated about the arrangement it leaves behind. */
module Median {

  // ---------------------------------------------------------------------
  // Order statistics on sequences

  /** Number of elements of s strictly below x. */
  function CountBelow(s: seq<int>, x: int): nat
  {
    if s == [] then 0 else (if s[0] < x then 1 else 0) + CountBelow(s[1..], x)
  }

  /** Number of elements of s at most x. */
  function CountAtMost(s: seq<int>, x: int): nat
  {
    if s == [] then 0 else (if s[0] <= x then 1 else 0) + CountAtMost(s[1..], x)
  }

  /** x is the element of rank k (counting from 0) of s, once s is sorted:
      at most k elements lie below it and more than k are at most it. */
  predicate HasRank(s: seq<int>, k: nat, x: int)
  {
    CountBelow(s, x) <= k < CountAtMost(s, x)
  }

  predicate Sorted(s: seq<int>)
  {
    forall i, j :: 0 <= i < j < |s| ==> s[i] <= s[j]
  }

  /** The arrangement nth_element leaves at position k: nothing before k is
      greater than s[k] and nothing after k is smaller. */
  predicate PartitionedAt(s: seq<int>, k: nat)
    requires k < |s|
  {
    (forall i :: 0 <= i < k ==> s[i] <= s[k]) &&
    (forall j :: k < j < |s| ==> s[k] <= s[j])
  }

  // ---------------------------------------------------------------------
  // A reference sort, so that "the middle of the sorted samples" is a value

  function Insert(x: int, s: seq<int>): (r: seq<int>)
    ensures |r| == |s| + 1
  {
    if s == [] then [x]
    else if x <= s[0] then [x] + s
    else [s[0]] + Insert(x, s[1..])
  }

  /** Insertion sort. */
  function Sort(s: seq<int>): (r: seq<int>)
    ensures |r| == |s|
  {
    if s == [] then [] else Insert(s[0], Sort(s[1..]))
  }

  /** The median of an odd number of samples: the middle of the sorted samples. */
  function MedianOf(s: seq<int>): int
    requires |s| % 2 == 1
  {
    Sort(s)[|s| / 2]
  }

  lemma {:induction false} InsertCorrect(x: int, s: seq<int>)
    requires Sorted(s)
    ensures Sorted(Insert(x, s)) && multiset(Insert(x, s)) == multiset(s) + multiset{x}
  {
    if s == [] {
    } else if x <= s[0] {
      SortedCons(x, s);
    } else {
      var rest := Insert(x, s[1..]);
      assert Insert(x, s) == [s[0]] + rest;
      assert s == [s[0]] + s[1..];
      InsertCorrect(x, s[1..]);
      LowerBoundOfInsert(s[0], x, s[1..]);
      SortedCons(s[0], rest);
    }
  }

  /** Putting a lower bound in front of a sorted sequence keeps it sorted. */
  lemma SortedCons(y: int, t: seq<int>)
    requires Sorted(t) && (|t| > 0 ==> y <= t[0])
    ensures Sorted([y] + t)
  {
    var r := [y] + t;
    forall i, j | 0 <= i < j < |r|
      ensures r[i] <= r[j]
    {
      if i > 0 {
        assert r[i] == t[i - 1] && r[j] == t[j - 1];
      } else {
        assert r[j] == t[j - 1] && t[0] <= t[j - 1];
      }
    }
  }

  /** A lower bound of x and of every element of s bounds Insert(x, s). */
  lemma LowerBoundOfInsert(y: int, x: int, s: seq<int>)
    requires y <= x && forall i :: 0 <= i < |s| ==> y <= s[i]
    requires multiset(Insert(x, s)) == multiset(s) + multiset{x}
    ensures forall k :: 0 <= k < |Insert(x, s)| ==> y <= Insert(x, s)[k]
  {
    var r := Insert(x, s);
    forall k | 0 <= k < |r|
      ensures y <= r[k]
    {
      assert r[k] in multiset(r);
      assert r[k] in multiset(s) || r[k] == x;
    }
  }

  /** Sort orders its argument and only rearranges it. */
  lemma {:induction false} SortCorrect(s: seq<int>)
    ensures Sorted(Sort(s)) && multiset(Sort(s)) == multiset(s)
  {
    if s != [] {
      assert s == [s[0]] + s[1..];
      SortCorrect(s[1..]);
      InsertCorrect(s[0], Sort(s[1..]));
    }
  }

  // ---------------------------------------------------------------------
  // Lemmas about ranks

  lemma {:induction false} CountsOfConcat(a: seq<int>, b: seq<int>, x: int)
    ensures CountBelow(a + b, x) == CountBelow(a, x) + CountBelow(b, x)
    ensures CountAtMost(a + b, x) == CountAtMost(a, x) + CountAtMost(b, x)
  {
    if a != [] {
      assert (a + b)[1..] == a[1..] + b;
      CountsOfConcat(a[1..], b, x);
    } else {
      assert a + b == b;
    }
  }

  lemma {:induction false} CountsBounded(s: seq<int>, x: int)
    ensures CountBelow(s, x) <= CountAtMost(s, x) <= |s|
  {
    if s != [] { CountsBounded(s[1..], x); }
  }

  lemma {:induction false} CountBelowNone(s: seq<int>, x: int)
    requires forall i :: 0 <= i < |s| ==> x <= s[i]
    ensures CountBelow(s, x) == 0
  {
    if s != [] { CountBelowNone(s[1..], x); }
  }

  lemma {:induction false} CountAtMostAll(s: seq<int>, x: int)
    requires forall i :: 0 <= i < |s| ==> s[i] <= x
    ensures CountAtMost(s, x) == |s|
  {
    if s != [] { CountAtMostAll(s[1..], x); }
  }

  lemma {:induction false} CountBelowAll(s: seq<int>, x: int)
    requires forall i :: 0 <= i < |s| ==> s[i] < x
    ensures CountBelow(s, x) == |s|
  {
    if s != [] { CountBelowAll(s[1..], x); }
  }

  lemma {:induction false} CountAtMostNone(s: seq<int>, x: int)
    requires forall i :: 0 <= i < |s| ==> x < s[i]
    ensures CountAtMost(s, x) == 0
  {
    if s != [] { CountAtMostNone(s[1..], x); }
  }

  /** Removing the element at j takes it out of the counts. */
  lemma CountsRemoveAt(t: seq<int>, j: nat, x: int)
    requires j < |t|
    ensures CountBelow(t, x) == (if t[j] < x then 1 else 0) + CountBelow(t[..j] + t[j + 1..], x)
    ensures CountAtMost(t, x) == (if t[j] <= x then 1 else 0) + CountAtMost(t[..j] + t[j + 1..], x)
  {
    assert t == t[..j] + ([t[j]] + t[j + 1..]);
    CountsOfConcat(t[..j], [t[j]] + t[j + 1..], x);
    CountsOfConcat([t[j]], t[j + 1..], x);
    CountsOfConcat(t[..j], t[j + 1..], x);
  }

  lemma MultisetRemoveAt(t: seq<int>, j: nat)
    requires j < |t|
    ensures multiset(t[..j] + t[j + 1..]) == multiset(t) - multiset{t[j]}
  {
    assert t == t[..j] + [t[j]] + t[j + 1..];
  }

  lemma MultisetTail(s: seq<int>)
    requires s != []
    ensures multiset(s[1..]) == multiset(s) - multiset{s[0]}
  {
    assert s == [s[0]] + s[1..];
  }

  /** An element of t's multiset is at some position of t. */
  lemma IndexOf(t: seq<int>, y: int) returns (j: nat)
    requires y in multiset(t)
    ensures j < |t| && t[j] == y
  {
    assert y in t;
    j :| 0 <= j < |t| && t[j] == y;
  }

  /** The first element of s sits somewhere in any permutation t of s, and
      the rest of s is a permutation of what is left of t. */
  lemma MatchFirst(s: seq<int>, t: seq<int>) returns (j: nat)
    requires s != [] && multiset(s) == multiset(t)
    ensures j < |t| && t[j] == s[0]
    ensures multiset(s[1..]) == multiset(t[..j] + t[j + 1..])
  {
    j := IndexOf(t, s[0]);
    MultisetRemoveAt(t, j);
    MultisetTail(s);
  }

  /** The counts depend only on the multiset of elements, not on their order. */
  lemma {:induction false} CountsOfPermutation(s: seq<int>, t: seq<int>, x: int)
    requires multiset(s) == multiset(t)
    ensures CountBelow(s, x) == CountBelow(t, x)
    ensures CountAtMost(s, x) == CountAtMost(t, x)
    decreases |s|
  {
    if s == [] {
      assert |t| == |multiset(t)| == 0;
    } else {
      var j := MatchFirst(s, t);
      CountsOfPermutation(s[1..], t[..j] + t[j + 1..], x);
      CountsRemoveAt(t, j, x);
    }
  }

  /** An arrangement partitioned at k holds the element of rank k there. */
  lemma PartitionedHasRank(s: seq<int>, k: nat)
    requires k < |s| && PartitionedAt(s, k)
    ensures HasRank(s, k, s[k])
  {
    var x := s[k];
    assert s == s[..k] + s[k..];
    CountsOfConcat(s[..k], s[k..], x);
    CountsBounded(s[..k], x);
    CountAtMostAll(s[..k], x);
    CountBelowNone(s[k..], x);
    assert s[k..] == [x] + s[k + 1..];
    CountsOfConcat([x], s[k + 1..], x);
  }

  /** In a sorted sequence, position k holds the only element of rank k. */
  lemma SortedRankIsUnique(t: seq<int>, k: nat, x: int)
    requires Sorted(t) && k < |t| && HasRank(t, k, x)
    ensures t[k] == x
  {
    assert t == t[..k + 1] + t[k + 1..];
    assert t == t[..k] + t[k..];
    if t[k] < x {
      CountsOfConcat(t[..k + 1], t[k + 1..], x);
      CountBelowAll(t[..k + 1], x);
    } else if x < t[k] {
      CountsOfConcat(t[..k], t[k..], x);
      CountAtMostNone(t[k..], x);
      CountsBounded(t[..k], x);
    }
  }

  /** Any x of rank k in s is the k-th element of s sorted. */
  lemma RankIsSortedElement(s: seq<int>, k: nat, x: int)
    requires k < |s| && HasRank(s, k, x)
    ensures |Sort(s)| == |s| && Sort(s)[k] == x
  {
    var t := Sort(s);
    SortCorrect(s);
    CountsOfPermutation(s, t, x);
    SortedRankIsUnique(t, k, x);
  }

  /** The median of the samples does not depend on their order. */
  lemma MedianOfPermutation(s: seq<int>, t: seq<int>)
    requires |s| % 2 == 1 && multiset(s) == multiset(t)
    ensures |t| == |s| && MedianOf(s) == MedianOf(t)
  {
    assert |t| == |multiset(t)| == |multiset(s)| == |s|;
    var k := |s| / 2;
    var sorted := Sort(s);
    SortCorrect(s);
    PartitionedHasRank(sorted, k);
    CountsOfPermutation(sorted, t, sorted[k]);
    RankIsSortedElement(t, k, sorted[k]);
  }

  /** The median of identical samples is that sample. */
  lemma MedianOfConstant(s: seq<int>, c: int)
    requires |s| % 2 == 1 && forall i :: 0 <= i < |s| ==> s[i] == c
    ensures MedianOf(s) == c
  {
    PartitionedHasRank(s, |s| / 2);
    RankIsSortedElement(s, |s| / 2, c);
  }

  // ---------------------------------------------------------------------
  // nth_element, in place

  method Swap(a: array<int>, i: int, j: int)
    requires 0 <= i < a.Length && 0 <= j < a.Length
    modifies a
    ensures a[i] == old(a[j]) && a[j] == old(a[i])
    ensures forall m :: 0 <= m < a.Length && m != i && m != j ==> a[m] == old(a[m])
    ensures multiset(a[..]) == old(multiset(a[..]))
  {
    a[i], a[j] := a[j], a[i];
  }

  /** Everything left of lo is at most everything from lo on. */
  ghost predicate SplitAt(a: array<int>, lo: int)
    reads a
  {
    forall i, j :: 0 <= i < lo <= j < a.Length ==> a[i] <= a[j]
  }

  /** A swap inside the window [lo, hi) keeps the splits at lo and hi. */
  method SwapWithin(a: array<int>, lo: int, hi: int, i: int, j: int)
    requires 0 <= lo <= i < hi <= a.Length && lo <= j < hi
    requires SplitAt(a, lo) && SplitAt(a, hi)
    modifies a
    ensures a[i] == old(a[j]) && a[j] == old(a[i])
    ensures forall m :: 0 <= m < a.Length && m != i && m != j ==> a[m] == old(a[m])
    ensures SplitAt(a, lo) && SplitAt(a, hi)
    ensures multiset(a[..]) == old(multiset(a[..]))
  {
    Swap(a, i, j);
  }

  /** The scan of the Lomuto partition: moves the elements of a[lo..hi - 1]
      that are at most the pivot a[hi - 1] to the front of the window, and
      returns where the larger ones begin. */
  method PartitionScan(a: array<int>, lo: int, hi: int) returns (p: int)
    requires 0 <= lo < hi <= a.Length
    requires SplitAt(a, lo) && SplitAt(a, hi)
    modifies a
    ensures lo <= p < hi && a[hi - 1] == old(a[hi - 1])
    ensures forall i :: lo <= i < p ==> a[i] <= a[hi - 1]
    ensures forall i :: p <= i < hi - 1 ==> a[hi - 1] < a[i]
    ensures SplitAt(a, lo) && SplitAt(a, hi)
    ensures forall m :: 0 <= m < a.Length && !(lo <= m < hi) ==> a[m] == old(a[m])
    ensures multiset(a[..]) == old(multiset(a[..]))
  {
    var pivot := a[hi - 1];
    p := lo;
    var j := lo;
    while j < hi - 1
      invariant lo <= p <= j <= hi - 1
      invariant a[hi - 1] == pivot
      invariant forall i :: lo <= i < p ==> a[i] <= pivot
      invariant forall i :: p <= i < j ==> pivot < a[i]
      invariant SplitAt(a, lo) && SplitAt(a, hi)
      invariant forall m :: 0 <= m < a.Length && !(lo <= m < hi) ==> a[m] == old(a[m])
      invariant multiset(a[..]) == old(multiset(a[..]))
    {
      if a[j] <= pivot {
        SwapWithin(a, lo, hi, p, j);
        p := p + 1;
      }
      j := j + 1;
    }
  }

  /** Lomuto partition of a[lo..hi) around its last element; the elements
      outside the window and the splits at lo and hi are kept. */
  method Partition(a: array<int>, lo: int, hi: int) returns (p: int)
    requires 0 <= lo < hi <= a.Length
    requires SplitAt(a, lo) && SplitAt(a, hi)
    modifies a
    ensures lo <= p < hi
    ensures forall i :: lo <= i < p ==> a[i] <= a[p]
    ensures forall j :: p < j < hi ==> a[p] <= a[j]
    ensures SplitAt(a, lo) && SplitAt(a, hi)
    ensures forall m :: 0 <= m < a.Length && !(lo <= m < hi) ==> a[m] == old(a[m])
    ensures multiset(a[..]) == old(multiset(a[..]))
  {
    p := PartitionScan(a, lo, hi);
    SwapWithin(a, lo, hi, p, hi - 1);
  }

  /** A window [lo, hi) split at both ends and partitioned around p is split
      on both sides of p. */
  lemma SplitAroundPivot(a: array<int>, lo: int, hi: int, p: int)
    requires 0 <= lo <= p < hi <= a.Length
    requires SplitAt(a, lo) && SplitAt(a, hi)
    requires forall i :: lo <= i < p ==> a[i] <= a[p]
    requires forall j :: p < j < hi ==> a[p] <= a[j]
    ensures SplitAt(a, p) && SplitAt(a, p + 1)
  {
  }

  /** Splits on both sides of k make a partition at k. */
  lemma SplitsPartition(a: array<int>, k: int)
    requires 0 <= k < a.Length && SplitAt(a, k) && SplitAt(a, k + 1)
    ensures PartitionedAt(a[..], k)
  {
  }

  /** std::ranges::nth_element(a, a.begin() + k). */
  method NthElement(a: array<int>, k: int)
    requires 0 <= k < a.Length
    modifies a
    ensures PartitionedAt(a[..], k)
    ensures multiset(a[..]) == old(multiset(a[..]))
  {
    var lo, hi := 0, a.Length;
    while lo + 1 < hi
      invariant 0 <= lo <= k < hi <= a.Length
      invariant SplitAt(a, lo) && SplitAt(a, hi)
      invariant multiset(a[..]) == old(multiset(a[..]))
      decreases hi - lo
    {
      var p := Partition(a, lo, hi);
      SplitAroundPivot(a, lo, hi, p);
      if p == k {
        lo, hi := k, k + 1;
      } else if k < p {
        hi := p;
      } else {
        lo := p + 1;
      }
    }
    SplitsPartition(a, k);
  }

  /** GetMedian: the container must have odd length; afterwards it is a
      permutation of what it held, partitioned at its middle, and the
      returned value is the median of the original contents. */
  method GetMedian(c: array<int>) returns (m: int)
    requires c.Length % 2 == 1
    modifies c
    ensures multiset(c[..]) == old(multiset(c[..]))
    ensures m == c[c.Length / 2] && PartitionedAt(c[..], c.Length / 2)
    ensures HasRank(old(c[..]), c.Length / 2, m)
    ensures m == MedianOf(old(c[..]))
  {
    var half := c.Length / 2;
    NthElement(c, half);
    m := c[half];
    PartitionedHasRank(c[..], half);
    CountsOfPermutation(c[..], old(c[..]), m);
    RankIsSortedElement(old(c[..]), half, m);
  }
}
