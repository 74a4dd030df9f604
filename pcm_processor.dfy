/** The loudness statistic of a capture window: the mean of the top ten
    percent of its 16-bit PCM samples (PCMDataProcessor.calculateAverageOfTopTenPercent). */
module PcmProcessor {

  /** Range of a signed 16-bit PCM sample (a Kotlin Short). */
  const SampleMin: int := -32768
  const SampleMax: int := 32767

  predicate IsSample(x: int) {
    SampleMin <= x <= SampleMax
  }

  predicate AllSamples(s: seq<int>) {
    forall i :: 0 <= i < |s| ==> IsSample(s[i])
  }

  predicate Sorted(s: seq<int>) {
    forall i, j :: 0 <= i < j < |s| ==> s[i] <= s[j]
  }

  // ---------------------------------------------------------------------
  // Sorting (Kotlin's List.sorted(): ascending, a new list)
  // ---------------------------------------------------------------------

  /** Putting an element no larger than the head in front of an ascending
      sequence keeps it ascending. */
  lemma ConsSorted(a: int, t: seq<int>)
    requires Sorted(t) && (t == [] || a <= t[0])
    ensures Sorted([a] + t)
  {
  }

  /** Inserts x into an ascending sequence, keeping it ascending. */
  function Insert(x: int, s: seq<int>): (r: seq<int>)
    requires Sorted(s)
    ensures Sorted(r)
    ensures multiset(r) == multiset(s) + multiset{x}
    ensures |r| == |s| + 1
    ensures r[0] == if s == [] || x <= s[0] then x else s[0]
  {
    if s == [] then [x]
    else if x <= s[0] then
      ConsSorted(x, s);
      [x] + s
    else
      var rest := Insert(x, s[1..]);
      ConsSorted(s[0], rest);
      assert s == [s[0]] + s[1..];
      assert multiset([s[0]] + rest) == multiset{s[0]} + multiset(rest);
      [s[0]] + rest
  }

  /** Insertion sort, inserting each sample into the sorted rest. */
  function InsertionSort(s: seq<int>): (r: seq<int>)
    ensures Sorted(r)
    ensures multiset(r) == multiset(s)
    ensures |r| == |s|
  {
    if s == [] then []
    else
      assert s == [s[0]] + s[1..];
      Insert(s[0], InsertionSort(s[1..]))
  }

  /** The samples in ascending order, as List.sorted() returns them. Stated
      apart from the recursive algorithm so that facts about the sorted list
      rest on this contract (and SortedUnique) rather than on unfolding it. */
  function Sort(s: seq<int>): (r: seq<int>)
    ensures Sorted(r)
    ensures multiset(r) == multiset(s)
    ensures |r| == |s|
  {
    InsertionSort(s)
  }

  /** Removing the first element removes one occurrence of it from the multiset. */
  lemma MultisetTail(a: seq<int>)
    requires |a| > 0
    ensures multiset(a[1..]) == multiset(a) - multiset{a[0]}
  {
    assert a == [a[0]] + a[1..];
  }

  /** The first element of an ascending list is at most every element of
      any list with the same multiset. */
  lemma HeadIsLeast(a: seq<int>, b: seq<int>)
    requires Sorted(b) && |a| > 0 && |b| > 0
    requires multiset(a) == multiset(b)
    ensures b[0] <= a[0]
  {
    assert a[0] in multiset(a);
    var j :| 0 <= j < |b| && b[j] == a[0];
  }

  /** Two ascending sequences with the same elements are equal: the sorted
      order of a multiset of integers is unique. */
  lemma {:induction false} SortedUnique(a: seq<int>, b: seq<int>)
    requires Sorted(a) && Sorted(b)
    requires multiset(a) == multiset(b)
    ensures a == b
  {
    assert |a| == |multiset(a)| == |multiset(b)| == |b|;
    if a != [] {
      HeadIsLeast(a, b);
      HeadIsLeast(b, a);
      MultisetTail(a);
      MultisetTail(b);
      SortedUnique(a[1..], b[1..]);
      assert a == [a[0]] + a[1..];
      assert b == [b[0]] + b[1..];
    }
  }

  /** Sorting an already ascending sequence leaves it unchanged. */
  lemma SortOfSorted(s: seq<int>)
    requires Sorted(s)
    ensures Sort(s) == s
  {
    SortedUnique(Sort(s), s);
  }

  /** Sorting depends only on the multiset of samples, not on their order. */
  lemma SortPermutationInvariant(s: seq<int>, t: seq<int>)
    requires multiset(s) == multiset(t)
    ensures Sort(s) == Sort(t)
  {
    SortedUnique(Sort(s), Sort(t));
  }

  // ---------------------------------------------------------------------
  // The top-ten-percent slice
  // ---------------------------------------------------------------------

  /** Start index of the top ten percent in a sorted list of n samples:
      (n * 0.9).toInt(), taken here as the integer floor(9n/10). */
  function TopStart(n: nat): (k: nat)
    ensures k <= n
    ensures n >= 1 ==> k < n
    ensures n - k == (n + 9) / 10
  {
    (9 * n) / 10
  }

  /** The selected slice sortedData.subList(k, n). */
  function TopSlice(samples: seq<int>): (r: seq<int>)
  {
    Sort(samples)[TopStart(|samples|)..]
  }

  function Sum(s: seq<int>): int {
    if s == [] then 0 else Sum(s[..|s| - 1]) + s[|s| - 1]
  }

  /** The arithmetic mean of a non-empty sequence, as List.average() computes it. */
  function Mean(s: seq<int>): real
    requires |s| > 0
  {
    Sum(s) as real / |s| as real
  }

  /** calculateAverageOfTopTenPercent: 0 for no samples, otherwise the mean
      of the top ten percent of the sorted samples. */
  function AverageOfTopTenPercent(samples: seq<int>): (r: real)
    ensures samples == [] ==> r == 0.0
  {
    if samples == [] then 0.0
    else Mean(TopSlice(samples))
  }

  // ---------------------------------------------------------------------
  // Properties of the slice
  // ---------------------------------------------------------------------

  /** The tail r[k..] of an ascending list is ascending, ends with the last
      element, and no element before k exceeds an element from k on. */
  lemma TailShape(r: seq<int>, k: nat)
    requires Sorted(r) && k < |r|
    ensures Sorted(r[k..])
    ensures r[k..][|r| - k - 1] == r[|r| - 1]
    ensures forall i, j :: 0 <= i < k <= j < |r| ==> r[i] <= r[j]
  {
  }

  /** The slice is non-empty, has ceil(n/10) elements, and holds the
      largest samples in ascending order, ending with the largest. */
  lemma TopSliceShape(samples: seq<int>)
    requires |samples| >= 1
    ensures var k := TopStart(|samples|);
      && 0 <= k < |samples|
      && |TopSlice(samples)| == |samples| - k == (|samples| + 9) / 10 >= 1
      && Sorted(TopSlice(samples))
      && TopSlice(samples)[|samples| - k - 1] == Sort(samples)[|samples| - 1]
  {
    var sorted := Sort(samples);
    var k := TopStart(|samples|);
    assert TopSlice(samples) == sorted[k..];
    TailShape(sorted, k);
  }

  /** For 1 to 10 samples the slice is exactly the single largest sample. */
  lemma SmallInputSlice(samples: seq<int>)
    requires 1 <= |samples| <= 10
    ensures TopSlice(samples) == [Sort(samples)[|samples| - 1]]
  {
  }

  /** The last element of an ascending permutation of the samples is their
      maximum: it is one of the samples, and no sample exceeds it. */
  lemma LastOfPermutationIsMax(r: seq<int>, samples: seq<int>)
    requires Sorted(r) && multiset(r) == multiset(samples) && |r| >= 1
    ensures r[|r| - 1] in samples
    ensures forall x :: x in samples ==> x <= r[|r| - 1]
  {
    assert r[|r| - 1] in multiset(r);
    forall x | x in samples
      ensures x <= r[|r| - 1]
    {
      assert x in multiset(samples);
      var i :| 0 <= i < |r| && r[i] == x;
    }
  }

  /** The last element of the sorted samples is their maximum. */
  lemma SortedLastIsMax(samples: seq<int>)
    requires |samples| >= 1
    ensures Sort(samples)[|samples| - 1] in samples
    ensures forall x :: x in samples ==> x <= Sort(samples)[|samples| - 1]
  {
    LastOfPermutationIsMax(Sort(samples), samples);
  }

  /** Every element of the sorted samples is one of the samples. */
  lemma SortedElementIsSample(samples: seq<int>, i: nat)
    requires i < |samples|
    ensures Sort(samples)[i] in samples
  {
    assert Sort(samples)[i] in multiset(Sort(samples));
  }

  // ---------------------------------------------------------------------
  // Properties of the mean
  // ---------------------------------------------------------------------

  lemma {:induction false} SumBounds(s: seq<int>, lo: int, hi: int)
    requires forall i :: 0 <= i < |s| ==> lo <= s[i] <= hi
    ensures |s| * lo <= Sum(s) <= |s| * hi
  {
    if s != [] {
      SumBounds(s[..|s| - 1], lo, hi);
      assert (|s| - 1) * lo + lo == |s| * lo;
      assert (|s| - 1) * hi + hi == |s| * hi;
    }
  }

  /** The mean lies between any lower and upper bound of the elements. */
  lemma MeanBounds(s: seq<int>, lo: int, hi: int)
    requires |s| > 0
    requires forall i :: 0 <= i < |s| ==> lo <= s[i] <= hi
    ensures lo as real <= Mean(s) <= hi as real
  {
    SumBounds(s, lo, hi);
    ProductAsReal(|s|, lo);
    ProductAsReal(|s|, hi);
    QuotientBounds(Sum(s) as real, |s| as real, lo as real, hi as real);
  }

  lemma ProductAsReal(a: int, b: int)
    ensures (a * b) as real == a as real * b as real
  {
  }

  lemma QuotientBounds(a: real, n: real, lo: real, hi: real)
    requires n > 0.0
    requires n * lo <= a <= n * hi
    ensures lo <= a / n <= hi
  {
  }

  lemma {:induction false} SumSingleton(x: int)
    ensures Sum([x]) == x
  {
    assert [x][..0] == [];
  }

  // ---------------------------------------------------------------------
  // Properties of the statistic
  // ---------------------------------------------------------------------

  /** The mean of the tail r[k..] of an ascending list lies between r[k]
      and the last element, and is at least every element before k. */
  lemma TailMeanBounds(r: seq<int>, k: nat)
    requires Sorted(r) && k < |r|
    ensures r[k] as real <= Mean(r[k..]) <= r[|r| - 1] as real
    ensures forall i :: 0 <= i < k ==> r[i] as real <= Mean(r[k..])
  {
    var tail := r[k..];
    assert forall i :: 0 <= i < |tail| ==> tail[i] == r[k + i];
    MeanBounds(tail, r[k], r[|r| - 1]);
  }

  /** For non-empty input the statistic lies between the k-th smallest
      sample and the largest sample (SortedLastIsMax), and is at least every
      sample outside the slice. */
  lemma AverageBounds(samples: seq<int>)
    requires |samples| >= 1
    ensures var r := AverageOfTopTenPercent(samples);
      var sorted := Sort(samples);
      var k := TopStart(|samples|);
      && sorted[k] as real <= r <= sorted[|samples| - 1] as real
      && (forall i :: 0 <= i < k ==> sorted[i] as real <= r)
  {
    var sorted := Sort(samples);
    var k := TopStart(|samples|);
    assert AverageOfTopTenPercent(samples) == Mean(sorted[k..]);
    TailMeanBounds(sorted, k);
  }

  /** 16-bit samples give a statistic in the 16-bit range. */
  lemma AverageInSampleRange(samples: seq<int>)
    requires AllSamples(samples)
    ensures SampleMin as real <= AverageOfTopTenPercent(samples) <= SampleMax as real
  {
    if samples != [] {
      var sorted := Sort(samples);
      var n := |samples|;
      var k := TopStart(n);
      AverageBounds(samples);
      SortedElementIsSample(samples, k);
      SortedElementIsSample(samples, n - 1);
    }
  }

  /** With 1 to 10 samples the statistic is the largest sample. */
  lemma SmallInputIsMax(samples: seq<int>)
    requires 1 <= |samples| <= 10
    ensures AverageOfTopTenPercent(samples) == Sort(samples)[|samples| - 1] as real
    ensures Sort(samples)[|samples| - 1] in samples
    ensures forall x :: x in samples ==> x <= Sort(samples)[|samples| - 1]
  {
    SmallInputSlice(samples);
    SumSingleton(Sort(samples)[|samples| - 1]);
    SortedLastIsMax(samples);
  }

  /** With 1 to 10 samples already in ascending order the statistic is the last one. */
  lemma SortedSmallInput(s: seq<int>)
    requires Sorted(s) && 1 <= |s| <= 10
    ensures AverageOfTopTenPercent(s) == s[|s| - 1] as real
  {
    SortOfSorted(s);
    SmallInputIsMax(s);
  }

  /** The statistic depends only on which samples occur, not on their order. */
  lemma AveragePermutationInvariant(s: seq<int>, t: seq<int>)
    requires multiset(s) == multiset(t)
    ensures AverageOfTopTenPercent(s) == AverageOfTopTenPercent(t)
  {
    assert |s| == |multiset(s)| == |multiset(t)| == |t|;
    SortPermutationInvariant(s, t);
  }

  /** Ten ascending samples 100, 200, ..., 1000: k = 9 and the statistic is 1000. */
  lemma TenAscendingSamples(s: seq<int>)
    requires s == [100, 200, 300, 400, 500, 600, 700, 800, 900, 1000]
    ensures TopStart(|s|) == 9
    ensures AverageOfTopTenPercent(s) == 1000.0
  {
    assert |s| == 10;
    assert Sorted(s);
    SortedSmallInput(s);
  }

  /** Samples are signed, so a window of negative samples has a negative statistic. */
  lemma NegativeWindow(s: seq<int>)
    requires s == [-300, -200, -100]
    ensures AverageOfTopTenPercent(s) == -100.0
  {
    assert Sorted(s);
    SortedSmallInput(s);
  }
}
