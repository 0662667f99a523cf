/** `median`, `average` and `standard_deviation` of html_generator.rs over the list of
    measured values. Values are `real`s: IEEE rounding and NaN are not modelled, and
    `f64::sqrt` is kept symbolic as a `SquareRoot`. */
module Statistics {
  import opened Sorting

  /** `a.partial_cmp(b)` is `Less` or `Equal`; on values that are not NaN it is total. */
  predicate RealLe(a: real, b: real) {
    a <= b
  }

  lemma RealLeIsTotalOrder()
    ensures TotalPreorder(RealLe) && Antisymmetric(RealLe)
  {
  }

  function Sum(numbers: seq<real>): real {
    if |numbers| == 0 then 0.0 else numbers[0] + Sum(numbers[1..])
  }

  /** How many values lie strictly below `v`. */
  function CountBelow(numbers: seq<real>, v: real): (n: nat)
    ensures n <= |numbers|
  {
    if |numbers| == 0 then 0
    else (if numbers[0] < v then 1 else 0) + CountBelow(numbers[1..], v)
  }

  /** How many values lie at or below `v`. */
  function CountAtMost(numbers: seq<real>, v: real): (n: nat)
    ensures n <= |numbers|
  {
    if |numbers| == 0 then 0
    else (if numbers[0] <= v then 1 else 0) + CountAtMost(numbers[1..], v)
  }

  /** `m` is the upper median: fewer than half of the values (rounded down) lie below it
      and more than that many lie at or below it. For an even count this is the upper
      of the two middle values, not their mean. */
  ghost predicate IsUpperMedian(numbers: seq<real>, m: real) {
    CountBelow(numbers, m) <= |numbers| / 2 < CountAtMost(numbers, m)
  }

  function Square(x: real): (r: real)
    ensures r >= 0.0
  {
    x * x
  }

  /** The sum of the squared distances of the values from `average`. */
  function SquaredDeviations(numbers: seq<real>, average: real): (r: real)
    ensures r >= 0.0
  {
    if |numbers| == 0 then 0.0
    else Square(numbers[0] - average) + SquaredDeviations(numbers[1..], average)
  }

  lemma {:induction false} SumAppend(a: seq<real>, b: seq<real>)
    ensures Sum(a + b) == Sum(a) + Sum(b)
    decreases |a|
  {
    if |a| > 0 {
      assert (a + b)[1..] == a[1..] + b;
      SumAppend(a[1..], b);
    } else {
      assert a + b == b;
    }
  }

  lemma {:induction false} CountBelowAppend(a: seq<real>, b: seq<real>, v: real)
    ensures CountBelow(a + b, v) == CountBelow(a, v) + CountBelow(b, v)
    decreases |a|
  {
    if |a| > 0 {
      assert (a + b)[1..] == a[1..] + b;
      CountBelowAppend(a[1..], b, v);
    } else {
      assert a + b == b;
    }
  }

  lemma {:induction false} CountAtMostAppend(a: seq<real>, b: seq<real>, v: real)
    ensures CountAtMost(a + b, v) == CountAtMost(a, v) + CountAtMost(b, v)
    decreases |a|
  {
    if |a| > 0 {
      assert (a + b)[1..] == a[1..] + b;
      CountAtMostAppend(a[1..], b, v);
    } else {
      assert a + b == b;
    }
  }

  lemma {:induction false} SquaredDeviationsAppend(a: seq<real>, b: seq<real>, average: real)
    ensures SquaredDeviations(a + b, average) == SquaredDeviations(a, average) + SquaredDeviations(b, average)
    decreases |a|
  {
    if |a| > 0 {
      assert (a + b)[1..] == a[1..] + b;
      SquaredDeviationsAppend(a[1..], b, average);
    } else {
      assert a + b == b;
    }
  }

  /** Taking out the element at index `j` takes its share out of every total. */
  lemma RemoveKeepsTotals(b: seq<real>, j: nat, v: real, average: real)
    requires j < |b|
    ensures Sum(b) == b[j] + Sum(b[..j] + b[j + 1..])
    ensures CountBelow(b, v) == (if b[j] < v then 1 else 0) + CountBelow(b[..j] + b[j + 1..], v)
    ensures CountAtMost(b, v) == (if b[j] <= v then 1 else 0) + CountAtMost(b[..j] + b[j + 1..], v)
    ensures SquaredDeviations(b, average)
         == Square(b[j] - average) + SquaredDeviations(b[..j] + b[j + 1..], average)
  {
    var front, back := b[..j], b[j + 1..];
    assert b == front + ([b[j]] + back);
    assert ([b[j]] + back)[1..] == back;
    SumAppend(front, [b[j]] + back);
    SumAppend(front, back);
    CountBelowAppend(front, [b[j]] + back, v);
    CountBelowAppend(front, back, v);
    CountAtMostAppend(front, [b[j]] + back, v);
    CountAtMostAppend(front, back, v);
    SquaredDeviationsAppend(front, [b[j]] + back, average);
    SquaredDeviationsAppend(front, back, average);
  }

  /** The first element of `a` occurs in its permutation `b`; without it the two are
      still permutations of each other. */
  lemma PermutationStep(a: seq<real>, b: seq<real>) returns (j: nat)
    requires |a| > 0 && multiset(a) == multiset(b)
    ensures j < |b| && b[j] == a[0]
    ensures multiset(a[1..]) == multiset(b[..j] + b[j + 1..])
  {
    assert a[0] in multiset(b);
    var k :| 0 <= k < |b| && b[k] == a[0];
    j := k;
    var front, back := b[..j], b[j + 1..];
    assert b == front + [b[j]] + back;
    assert multiset(b) == multiset(front) + multiset{a[0]} + multiset(back);
    assert multiset(front + back) == multiset(front) + multiset(back);
    assert a == [a[0]] + a[1..];
    assert multiset(a) == multiset{a[0]} + multiset(a[1..]);
    assert multiset(a[1..]) == multiset(a) - multiset{a[0]};
    assert multiset(front + back) == multiset(b) - multiset{a[0]};
  }

  /** The sum and the counts depend only on which values occur how often, not on their
      order: sorting changes none of them. */
  lemma {:induction false} PermutationKeepsTotals(a: seq<real>, b: seq<real>, v: real)
    requires multiset(a) == multiset(b)
    ensures Sum(a) == Sum(b)
    ensures CountBelow(a, v) == CountBelow(b, v)
    ensures CountAtMost(a, v) == CountAtMost(b, v)
    decreases |a|
  {
    assert |a| == |multiset(a)| == |multiset(b)| == |b|;
    if |a| > 0 {
      var j := PermutationStep(a, b);
      PermutationKeepsTotals(a[1..], b[..j] + b[j + 1..], v);
      RemoveKeepsTotals(b, j, v, 0.0);
      RemoveKeepsTotals(a, 0, v, 0.0);
      assert a[..0] + a[1..] == a[1..];
    }
  }

  /** Nor does the order change the squared deviations from a given average. */
  lemma {:induction false} PermutationKeepsDeviations(a: seq<real>, b: seq<real>, average: real)
    requires multiset(a) == multiset(b)
    ensures SquaredDeviations(a, average) == SquaredDeviations(b, average)
    decreases |a|
  {
    assert |a| == |multiset(a)| == |multiset(b)| == |b|;
    if |a| > 0 {
      var j := PermutationStep(a, b);
      PermutationKeepsDeviations(a[1..], b[..j] + b[j + 1..], average);
      RemoveKeepsTotals(b, j, 0.0, average);
    }
  }

  /** In a sorted list, the position of an element bounds how many values lie below it
      and at or below it. */
  lemma {:induction false} SortedCounts(sorted: seq<real>, v: real, k: nat)
    requires Sorted(sorted, RealLe) && k < |sorted|
    ensures sorted[k] < v ==> CountBelow(sorted, v) > k
    ensures v <= sorted[k] ==> CountBelow(sorted, v) <= k
    ensures sorted[k] <= v ==> CountAtMost(sorted, v) > k
    ensures v < sorted[k] ==> CountAtMost(sorted, v) <= k
    decreases k, |sorted|
  {
    var tail := sorted[1..];
    assert Sorted(tail, RealLe);
    if k > 0 {
      assert tail[k - 1] == sorted[k];
      SortedCounts(tail, v, k - 1);
      assert RealLe(sorted[0], sorted[k]);
    } else if |tail| > 0 {
      assert RealLe(sorted[0], tail[0]);
      SortedCounts(tail, v, 0);
    }
  }

  /** `median`: sorts the list in place (the first component, a sorted permutation of the
      input) and returns the element at index `len / 2`. An empty list makes the source
      index out of bounds, so it is excluded. */
  function Median(numbers: seq<real>): (r: (seq<real>, real))
    requires |numbers| > 0
    ensures Sorted(r.0, RealLe) && multiset(r.0) == multiset(numbers) && |r.0| == |numbers|
    ensures r.1 == r.0[|numbers| / 2]
    ensures IsUpperMedian(numbers, r.1)
  {
    RealLeIsTotalOrder();
    var sorted := InsertionSort(numbers, RealLe);
    var m := sorted[|sorted| / 2];
    PermutationKeepsTotals(numbers, sorted, m);
    SortedCounts(sorted, m, |sorted| / 2);
    (sorted, m)
  }

  /** The upper-median property determines the median: no other value has it. */
  lemma UpperMedianUnique(numbers: seq<real>, m: real)
    requires |numbers| > 0
    ensures IsUpperMedian(numbers, m) <==> m == Median(numbers).1
  {
    RealLeIsTotalOrder();
    var sorted := Median(numbers).0;
    PermutationKeepsTotals(numbers, sorted, m);
    SortedCounts(sorted, m, |numbers| / 2);
  }

  /** `sort_by` with `partial_cmp` is Rust's own sort, not `InsertionSort`; on reals the
      order is antisymmetric, so every sorted permutation is the one `Median` builds, and
      its middle element is the same. */
  lemma AnySortGivesMedian(numbers: seq<real>, sorted: seq<real>)
    requires |numbers| > 0
    requires Sorted(sorted, RealLe) && multiset(sorted) == multiset(numbers)
    ensures sorted == Median(numbers).0
    ensures |sorted| == |numbers| && sorted[|numbers| / 2] == Median(numbers).1
  {
    RealLeIsTotalOrder();
    SortedPermutationUnique(sorted, Median(numbers).0, RealLe);
  }

  /** `[1, 2, 3, 4]` has median 3, the upper of the two middle values. */
  lemma MedianOfFourIsUpper()
    ensures Median([1.0, 2.0, 3.0, 4.0]).1 == 3.0
  {
    var numbers := [1.0, 2.0, 3.0, 4.0];
    assert CountBelow(numbers, 3.0) == 2;
    assert CountAtMost(numbers, 3.0) == 3;
    UpperMedianUnique(numbers, 3.0);
  }

  /** `average`: the sum over the count. The source divides 0.0 by 0.0 (NaN) for an
      empty list; that case is excluded. */
  function Average(numbers: seq<real>): (r: real)
    requires |numbers| > 0
    ensures r * (|numbers| as real) == Sum(numbers)
  {
    Sum(numbers) / (|numbers| as real)
  }

  lemma {:induction false} SumBounds(numbers: seq<real>, low: real, high: real)
    requires forall i :: 0 <= i < |numbers| ==> low <= numbers[i] <= high
    ensures (|numbers| as real) * low <= Sum(numbers) <= (|numbers| as real) * high
    decreases |numbers|
  {
    if |numbers| > 0 {
      SumBounds(numbers[1..], low, high);
    }
  }

  /** The average lies within any bounds all the values lie within. */
  lemma AverageBounds(numbers: seq<real>, low: real, high: real)
    requires |numbers| > 0
    requires forall i :: 0 <= i < |numbers| ==> low <= numbers[i] <= high
    ensures low <= Average(numbers) <= high
  {
    SumBounds(numbers, low, high);
  }

  /** `f64::sqrt(radicand)`, kept symbolic. */
  datatype SquareRoot = SquareRootOf(radicand: real)

  /** `standard_deviation`: the square root of the sum of squared deviations from the
      given average. The sum is NOT divided by the number of values. */
  function StandardDeviation(numbers: seq<real>, average: real): (r: SquareRoot)
    ensures r.radicand >= 0.0
    ensures r.radicand == 0.0 <==> forall i :: 0 <= i < |numbers| ==> numbers[i] == average
  {
    ZeroDeviationsIffConstant(numbers, average);
    SquareRootOf(SquaredDeviations(numbers, average))
  }

  lemma SquarePositive(d: real)
    requires d != 0.0
    ensures Square(d) > 0.0
  {
    if d > 0.0 {
      calc {
        Square(d);
        d * d;
      >  { assert d * d > 0.0 * d; }
        0.0 * d;
        0.0;
      }
    } else {
      calc {
        Square(d);
        d * d;
        (-d) * (-d);
      >  { assert (-d) * (-d) > 0.0 * (-d); }
        0.0 * (-d);
        0.0;
      }
    }
  }

  lemma {:induction false} ZeroDeviationsIffConstant(numbers: seq<real>, average: real)
    ensures SquaredDeviations(numbers, average) == 0.0 <==>
      forall i :: 0 <= i < |numbers| ==> numbers[i] == average
    decreases |numbers|
  {
    if |numbers| > 0 {
      var tail := numbers[1..];
      ZeroDeviationsIffConstant(tail, average);
      assert forall i :: 1 <= i < |numbers| ==> numbers[i] == tail[i - 1];
      if numbers[0] != average {
        SquarePositive(numbers[0] - average);
      }
    }
  }

  /** Listing every value twice keeps the average and the spread of the values, and
      with them the population standard deviation, but doubles the radicand: the result
      is not divided by the number of values. */
  lemma StandardDeviationOfDoubled(numbers: seq<real>)
    requires |numbers| > 0
    ensures Average(numbers + numbers) == Average(numbers)
    ensures StandardDeviation(numbers + numbers, Average(numbers)).radicand
         == 2.0 * StandardDeviation(numbers, Average(numbers)).radicand
  {
    SumAppend(numbers, numbers);
    SquaredDeviationsAppend(numbers, numbers, Average(numbers));
    var n := |numbers| as real;
    assert |numbers + numbers| as real == 2.0 * n;
  }

  /** For `[2, 4, 4, 4, 5, 5, 7, 9]` the average is 5 and the radicand 32: the result is
      the square root of 32, where the population standard deviation would be 2. */
  lemma StandardDeviationOfEight()
    ensures Average([2.0, 4.0, 4.0, 4.0, 5.0, 5.0, 7.0, 9.0]) == 5.0
    ensures StandardDeviation([2.0, 4.0, 4.0, 4.0, 5.0, 5.0, 7.0, 9.0], 5.0).radicand == 32.0
  {
    var numbers := [2.0, 4.0, 4.0, 4.0, 5.0, 5.0, 7.0, 9.0];
    assert Sum(numbers) == 40.0 by {
      assert Sum(numbers[7..]) == 9.0;
      assert Sum(numbers[6..]) == 16.0;
      assert Sum(numbers[5..]) == 21.0;
      assert Sum(numbers[4..]) == 26.0;
      assert Sum(numbers[3..]) == 30.0;
      assert Sum(numbers[2..]) == 34.0;
      assert Sum(numbers[1..]) == 38.0;
    }
    assert SquaredDeviations(numbers, 5.0) == 32.0 by {
      assert SquaredDeviations(numbers[7..], 5.0) == 16.0;
      assert SquaredDeviations(numbers[6..], 5.0) == 20.0;
      assert SquaredDeviations(numbers[5..], 5.0) == 20.0;
      assert SquaredDeviations(numbers[4..], 5.0) == 20.0;
      assert SquaredDeviations(numbers[3..], 5.0) == 21.0;
      assert SquaredDeviations(numbers[2..], 5.0) == 22.0;
      assert SquaredDeviations(numbers[1..], 5.0) == 23.0;
    }
  }
}
