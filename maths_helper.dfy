/** The statistics helpers (src/model/maths-helper.ts): an in-place ascending sort,
    sum and mean, the maximum, and quantiles by linear interpolation between order
    statistics. A result JavaScript would give as `undefined` or NaN is `None`. */
module MathsHelper {
  import opened Wrappers

  // ---------------------------------------------------------------------------
  // Order

  predicate SortedAsc(s: seq<real>)
  {
    forall i, j :: 0 <= i < j < |s| ==> s[i] <= s[j]
  }

  predicate SortedDesc(s: seq<real>)
  {
    forall i, j :: 0 <= i < j < |s| ==> s[i] >= s[j]
  }

  /** `x` put into the ascending sequence `s` before the first larger element. */
  function Insert(x: real, s: seq<real>): (r: seq<real>)
    requires SortedAsc(s)
    ensures SortedAsc(r)
    ensures multiset(r) == multiset(s) + multiset{x}
    ensures |r| == |s| + 1
    decreases |s|
  {
    if s == [] then [x]
    else if x <= s[0] then [x] + s
    else
      var rest := Insert(x, s[1..]);
      KeepHead(x, s, rest);
      [s[0]] + rest
  }

  /** When `x` goes after the head of `s`, the head stays in front of the rest
      with `x` inserted. */
  lemma KeepHead(x: real, s: seq<real>, rest: seq<real>)
    requires SortedAsc(s) && |s| > 0 && s[0] < x
    requires SortedAsc(rest) && multiset(rest) == multiset(s[1..]) + multiset{x}
    ensures SortedAsc([s[0]] + rest)
    ensures multiset([s[0]] + rest) == multiset(s) + multiset{x}
  {
    assert s == [s[0]] + s[1..];
    forall j | 0 <= j < |rest| ensures s[0] <= rest[j] {
      assert rest[j] in multiset(rest);
      if rest[j] != x {
        assert rest[j] in multiset(s[1..]);
        var k :| 0 <= k < |s[1..]| && s[1..][k] == rest[j];
        assert s[k + 1] == rest[j];
      }
    }
  }

  /** Sorting by repeated insertion: one ascending arrangement of `s`. */
  function InsertionSort(s: seq<real>): (r: seq<real>)
    ensures SortedAsc(r)
    ensures multiset(r) == multiset(s)
    decreases |s|
  {
    if s == [] then []
    else
      assert s == s[..|s| - 1] + [s[|s| - 1]];
      Insert(s[|s| - 1], InsertionSort(s[..|s| - 1]))
  }

  /** Every sequence has an ascending arrangement. */
  lemma SortExists(s: seq<real>)
    ensures exists r :: SortedAsc(r) && multiset(r) == multiset(s)
  {
    var r := InsertionSort(s);
    assert SortedAsc(r) && multiset(r) == multiset(s);
  }

  /** The ascending arrangement of `s`: what `arr.sort((a, b) => a - b)` leaves.
      There is only one (`SortedUnique`). */
  ghost function SortedOf(s: seq<real>): (r: seq<real>)
    ensures SortedAsc(r)
    ensures multiset(r) == multiset(s)
    ensures |r| == |s|
  {
    SortExists(s);
    var r :| SortedAsc(r) && multiset(r) == multiset(s);
    assert |multiset(r)| == |r| && |multiset(s)| == |s|;
    r
  }

  /** The first element of an ascending sequence is at most any of its elements. */
  lemma HeadIsLeast(x: seq<real>, v: real)
    requires SortedAsc(x) && v in multiset(x)
    ensures |x| > 0 && x[0] <= v
  {
    var i :| 0 <= i < |x| && x[i] == v;
  }

  /** Two ascending arrangements of the same non-empty multiset start alike. */
  lemma SortedHeadsEqual(x: seq<real>, y: seq<real>)
    requires SortedAsc(x) && SortedAsc(y) && multiset(x) == multiset(y) && |x| > 0
    ensures |y| > 0 && x[0] == y[0]
  {
    assert x[0] in multiset(x);
    HeadIsLeast(y, x[0]);
    HeadIsLeast(x, y[0]);
  }

  /** Dropping the first element drops one occurrence of it from the multiset. */
  lemma TailMultiset(x: seq<real>)
    requires |x| > 0
    ensures multiset(x[1..]) == multiset(x) - multiset{x[0]}
  {
    assert x == [x[0]] + x[1..];
  }

  /** There is only one ascending arrangement of a multiset of numbers, so any
      ascending permutation of `s` is `SortedOf(s)`. */
  lemma {:induction false} SortedUnique(x: seq<real>, y: seq<real>)
    requires SortedAsc(x) && SortedAsc(y)
    requires multiset(x) == multiset(y)
    ensures x == y
    decreases |x|
  {
    if |x| == 0 {
      assert |multiset(y)| == |y|;
    } else {
      SortedHeadsEqual(x, y);
      TailMultiset(x);
      TailMultiset(y);
      SortedUnique(x[1..], y[1..]);
      assert x == [x[0]] + x[1..];
      assert y == [y[0]] + y[1..];
    }
  }

  /** The elements of `s` in the opposite order. */
  function Reversed(s: seq<real>): (r: seq<real>)
    ensures |r| == |s|
  {
    seq(|s|, i requires 0 <= i < |s| => s[|s| - 1 - i])
  }

  /** Reversing twice gives the sequence back, and reversing an ascending sequence
      gives a descending one with the same elements. */
  lemma ReversedProperties(s: seq<real>)
    ensures Reversed(Reversed(s)) == s
    ensures multiset(Reversed(s)) == multiset(s)
    ensures SortedAsc(s) ==> SortedDesc(Reversed(s))
  {
    ReversedMultiset(s);
  }

  lemma {:induction false} ReversedMultiset(s: seq<real>)
    ensures multiset(Reversed(s)) == multiset(s)
    decreases |s|
  {
    if s != [] {
      var init := s[..|s| - 1];
      ReversedMultiset(init);
      assert Reversed(s) == [s[|s| - 1]] + Reversed(init);
      assert s == init + [s[|s| - 1]];
    }
  }

  // ---------------------------------------------------------------------------
  // Sorting and reversing in place

  /** Exchanges two elements. */
  method Swap(a: array<real>, i: int, j: int)
    requires 0 <= i < a.Length && 0 <= j < a.Length
    modifies a
    ensures a[..] == old(a[..])[i := old(a[j])][j := old(a[i])]
    ensures multiset(a[..]) == multiset(old(a[..]))
  {
    a[i], a[j] := a[j], a[i];
  }

  /** One pass of the sort: moves `a[i]` left past every larger element, so that
      the first `i + 1` elements become ascending. */
  method SiftDown(a: array<real>, i: int)
    requires 0 <= i < a.Length
    requires SortedAsc(a[..i])
    modifies a
    ensures SortedAsc(a[..i + 1])
    ensures multiset(a[..]) == multiset(old(a[..]))
  {
    var j := i;
    while j > 0 && a[j - 1] > a[j]
      invariant 0 <= j <= i
      invariant multiset(a[..]) == multiset(old(a[..]))
      invariant forall k, l :: 0 <= k < l <= i && k != j && l != j ==> a[k] <= a[l]
      invariant forall l :: j < l <= i ==> a[j] < a[l]
    {
      Swap(a, j - 1, j);
      j := j - 1;
    }
  }

  /** `asc`: sorts the caller's array in place, ascending. */
  method Asc(a: array<real>)
    modifies a
    ensures SortedAsc(a[..])
    ensures multiset(a[..]) == multiset(old(a[..]))
    ensures a[..] == SortedOf(old(a[..]))
  {
    var i := 0;
    while i < a.Length
      invariant 0 <= i <= a.Length
      invariant SortedAsc(a[..i])
      invariant multiset(a[..]) == multiset(old(a[..]))
    {
      SiftDown(a, i);
      i := i + 1;
    }
    assert a[..a.Length] == a[..];
    SortedUnique(a[..], SortedOf(old(a[..])));
  }

  /** `Array.prototype.reverse`: reverses the array in place. */
  method ReverseInPlace(a: array<real>)
    modifies a
    ensures a[..] == Reversed(old(a[..]))
  {
    var i := 0;
    while i < a.Length / 2
      invariant 0 <= i <= a.Length / 2
      invariant forall k :: 0 <= k < i ==> a[k] == old(a[a.Length - 1 - k]) && a[a.Length - 1 - k] == old(a[k])
      invariant forall k :: i <= k < a.Length - i ==> a[k] == old(a[k])
    {
      a[i], a[a.Length - 1 - i] := a[a.Length - 1 - i], a[i];
      i := i + 1;
    }
  }

  // ---------------------------------------------------------------------------
  // Sum and mean

  /** `arr.reduce((a, b) => a + b, 0)`: a left fold from 0. */
  function Sum(s: seq<real>): real
    decreases |s|
  {
    if s == [] then 0.0 else Sum(s[..|s| - 1]) + s[|s| - 1]
  }

  /** The sum of a concatenation is the sum of the parts. */
  lemma {:induction false} SumAppend(a: seq<real>, b: seq<real>)
    ensures Sum(a + b) == Sum(a) + Sum(b)
    decreases |b|
  {
    if b == [] {
      assert a + b == a;
    } else {
      SumAppend(a, b[..|b| - 1]);
      assert (a + b)[..|a + b| - 1] == a + b[..|b| - 1];
      assert (a + b)[|a + b| - 1] == b[|b| - 1];
    }
  }

  /** A sum of `n` numbers between `lo` and `hi` lies between `n * lo` and `n * hi`. */
  lemma {:induction false} SumBounds(s: seq<real>, lo: real, hi: real)
    requires forall i :: 0 <= i < |s| ==> lo <= s[i] <= hi
    ensures |s| as real * lo <= Sum(s) <= |s| as real * hi
    decreases |s|
  {
    if s != [] {
      SumBounds(s[..|s| - 1], lo, hi);
    }
  }

  /** `sum(arr) / arr.length`; an empty array gives 0 / 0, NaN. */
  function Mean(s: seq<real>): (m: Option<real>)
    ensures m.Some? <==> |s| > 0
  {
    if |s| == 0 then None else Some(Sum(s) / |s| as real)
  }

  /** The mean of numbers between `lo` and `hi` is between them too. */
  lemma MeanBounds(s: seq<real>, lo: real, hi: real)
    requires |s| > 0
    requires forall i :: 0 <= i < |s| ==> lo <= s[i] <= hi
    ensures lo <= Mean(s).value <= hi
  {
    SumBounds(s, lo, hi);
    var n := |s| as real;
    assert Sum(s) / n >= lo by { assert Sum(s) >= n * lo; }
    assert Sum(s) / n <= hi by { assert Sum(s) <= n * hi; }
  }

  lemma DivideThenMultiply(x: real, n: real)
    requires n != 0.0
    ensures x / n * n == x
  {
  }

  /** The mean times the number of elements gives back their sum. */
  lemma MeanTimesLength(s: seq<real>)
    requires |s| > 0
    ensures Mean(s).value * |s| as real == Sum(s)
  {
    DivideThenMultiply(Sum(s), |s| as real);
  }

  // ---------------------------------------------------------------------------
  // Quantiles

  /** The element at a JavaScript index: `undefined` outside the array. */
  function At(sorted: seq<real>, i: int): (v: Option<real>)
    ensures v.Some? <==> 0 <= i < |sorted|
    ensures v.Some? ==> v.value == sorted[i]
  {
    if 0 <= i < |sorted| then Some(sorted[i]) else None
  }

  /** Linear interpolation: `lo` moved the fraction `rest` of the way towards `hi`. */
  function Interpolate(lo: real, hi: real, rest: real): real
  {
    lo + rest * (hi - lo)
  }

  /** The body of `quantile` after the sort, at position `(n - 1) * q`. */
  function QuantileOfSorted(sorted: seq<real>, q: real): Option<real>
  {
    QuantileAt(sorted, (|sorted| - 1) as real * q)
  }

  /** The value at a fractional position: with `base` its floor and `rest` its
      fraction, interpolate towards the next element when there is one, otherwise
      take the element at `base` (`undefined` when there is none; an `undefined`
      operand makes the interpolation NaN). */
  function QuantileAt(sorted: seq<real>, pos: real): (r: Option<real>)
    ensures r.Some? <==> 0 <= pos.Floor < |sorted|
  {
    var base := pos.Floor;
    var rest := pos - base as real;
    if At(sorted, base + 1).Some? then
      (if At(sorted, base).Some? then Some(Interpolate(sorted[base], sorted[base + 1], rest)) else None)
    else At(sorted, base)
  }

  /** `quantile(arr, q)` as a value: the interpolated order statistic of `arr`. */
  ghost function Quantile(s: seq<real>, q: real): (r: Option<real>)
    ensures 0.0 <= q <= 1.0 ==> (r.Some? <==> |s| > 0)
  {
    var sorted := SortedOf(s);
    PositionInRange(|sorted|, q);
    QuantileOfSorted(sorted, q)
  }

  /** Scaling by a non-negative factor keeps the order. */
  lemma ScaleMonotone(d: real, x: real, y: real)
    requires d >= 0.0 && x <= y
    ensures x * d <= y * d && d * x <= d * y
  {
    assert y * d - x * d == (y - x) * d;
    assert d * y - d * x == d * (y - x);
  }

  /** For `0 <= q <= 1` the position `(n - 1) * q` lies in `[0, n - 1]`; for an
      empty array it lies in `[-1, 0]`, where no index is defined. */
  lemma PositionInRange(n: nat, q: real)
    ensures 0.0 <= q <= 1.0 && n > 0 ==> 0.0 <= (n - 1) as real * q <= (n - 1) as real
    ensures 0.0 <= q <= 1.0 && n == 0 ==> -1.0 <= (n - 1) as real * q <= 0.0
  {
    if 0.0 <= q <= 1.0 && n > 0 {
      ScaleMonotone((n - 1) as real, q, 1.0);
      ScaleMonotone((n - 1) as real, 0.0, q);
    }
  }

  /** A fraction below one of the distance `d` from `lo` to `hi` stays between
      them. */
  lemma FractionOfDistance(lo: real, hi: real, d: real, rest: real)
    requires lo <= hi && d == hi - lo && 0.0 <= rest < 1.0
    ensures lo <= lo + rest * d <= hi
  {
    assert d - rest * d == (1.0 - rest) * d;
  }

  /** Moving a fraction below one from `lo` towards `hi` stays between them. */
  lemma InterpolateBetween(lo: real, hi: real, rest: real)
    requires lo <= hi && 0.0 <= rest < 1.0
    ensures lo <= Interpolate(lo, hi, rest) <= hi
  {
    FractionOfDistance(lo, hi, hi - lo, rest);
  }

  /** On an ascending sequence, at a position between the first and the last index,
      the result is the element at `base = floor(pos)` moved the fraction `rest`
      towards the next one, and it lies between the smallest and the largest
      element. */
  lemma QuantileAtInterpolates(sorted: seq<real>, pos: real)
    requires SortedAsc(sorted) && |sorted| > 0 && 0.0 <= pos <= (|sorted| - 1) as real
    ensures var base := pos.Floor;
      var rest := pos - base as real;
      0 <= base < |sorted| && 0.0 <= rest < 1.0
      && QuantileAt(sorted, pos).Some?
      && (base + 1 < |sorted| ==> QuantileAt(sorted, pos).value == Interpolate(sorted[base], sorted[base + 1], rest))
      && (base + 1 == |sorted| ==> QuantileAt(sorted, pos).value == sorted[base])
      && sorted[0] <= QuantileAt(sorted, pos).value <= sorted[|sorted| - 1]
  {
    var n := |sorted|;
    var base := pos.Floor;
    var rest := pos - base as real;
    assert 0 <= base <= n - 1;
    if base + 1 < n {
      var lo, hi := sorted[base], sorted[base + 1];
      assert sorted[0] <= lo <= hi <= sorted[n - 1];
      InterpolateBetween(lo, hi, rest);
    }
  }

  /** On an ascending sequence, for `0 <= q <= 1`, the result is the element at
      `base = floor((n - 1) * q)` moved the fraction `rest` towards the next one, and
      it lies between the smallest and the largest element. */
  lemma QuantileOfSortedInterpolates(sorted: seq<real>, q: real)
    requires SortedAsc(sorted) && |sorted| > 0 && 0.0 <= q <= 1.0
    ensures var pos := (|sorted| - 1) as real * q;
      var base := pos.Floor;
      var rest := pos - base as real;
      0 <= base < |sorted| && 0.0 <= rest < 1.0
      && QuantileOfSorted(sorted, q).Some?
      && (base + 1 < |sorted| ==> QuantileOfSorted(sorted, q).value == Interpolate(sorted[base], sorted[base + 1], rest))
      && (base + 1 == |sorted| ==> QuantileOfSorted(sorted, q).value == sorted[base])
      && sorted[0] <= QuantileOfSorted(sorted, q).value <= sorted[|sorted| - 1]
  {
    PositionInRange(|sorted|, q);
    QuantileAtInterpolates(sorted, (|sorted| - 1) as real * q);
  }

  /** For a non-empty array and `0 <= q <= 1` there is always a result, the
      interpolated order statistic, between the smallest and the largest element. */
  lemma QuantileInterpolates(s: seq<real>, q: real)
    requires |s| > 0 && 0.0 <= q <= 1.0
    ensures var sorted := SortedOf(s);
      var pos := (|s| - 1) as real * q;
      var base := pos.Floor;
      var rest := pos - base as real;
      0 <= base < |s| && 0.0 <= rest < 1.0
      && Quantile(s, q).Some?
      && (base + 1 < |s| ==> Quantile(s, q).value == Interpolate(sorted[base], sorted[base + 1], rest))
      && (base + 1 == |s| ==> Quantile(s, q).value == sorted[base])
      && sorted[0] <= Quantile(s, q).value <= sorted[|s| - 1]
  {
    var sorted := SortedOf(s);
    assert Quantile(s, q) == QuantileOfSorted(sorted, q);
    QuantileOfSortedInterpolates(sorted, q);
  }

  /** The first element of an ascending arrangement is the smallest, the last the
      largest. */
  lemma SortedEnds(s: seq<real>)
    requires |s| > 0
    ensures SortedOf(s)[0] in s && SortedOf(s)[|s| - 1] in s
    ensures forall i :: 0 <= i < |s| ==> SortedOf(s)[0] <= s[i] <= SortedOf(s)[|s| - 1]
  {
    var sorted := SortedOf(s);
    assert sorted[0] in multiset(s);
    assert sorted[|s| - 1] in multiset(s);
    forall i | 0 <= i < |s| ensures sorted[0] <= s[i] <= sorted[|s| - 1] {
      assert s[i] in multiset(sorted);
    }
  }

  /** `quantile(arr, 0)` is the smallest element. */
  lemma QuantileZeroIsMin(s: seq<real>)
    requires |s| > 0
    ensures Quantile(s, 0.0).Some?
    ensures Quantile(s, 0.0).value in s
    ensures forall i :: 0 <= i < |s| ==> Quantile(s, 0.0).value <= s[i]
  {
    var sorted := SortedOf(s);
    assert (|s| - 1) as real * 0.0 == 0.0;
    QuantileAtInterpolates(sorted, 0.0);
    SortedEnds(s);
  }

  /** `quantile(arr, 1)` is the largest element: position `n - 1` has no next
      element, so the element itself is returned. */
  lemma QuantileOneIsMax(s: seq<real>)
    requires |s| > 0
    ensures Quantile(s, 1.0).Some?
    ensures Quantile(s, 1.0).value in s
    ensures forall i :: 0 <= i < |s| ==> s[i] <= Quantile(s, 1.0).value
  {
    var sorted := SortedOf(s);
    assert (|s| - 1) as real * 1.0 == (|s| - 1) as real;
    QuantileAtInterpolates(sorted, (|s| - 1) as real);
    SortedEnds(s);
  }

  /** Moving further from `lo` towards a `hi` at least as large never gives less. */
  lemma InterpolateMonotone(lo: real, hi: real, rest1: real, rest2: real)
    requires lo <= hi && rest1 <= rest2
    ensures Interpolate(lo, hi, rest1) <= Interpolate(lo, hi, rest2)
  {
    ScaleMonotone(hi - lo, rest1, rest2);
  }

  /** On an ascending sequence the interpolated value never decreases as the
      position moves right. */
  lemma QuantileAtMonotone(sorted: seq<real>, pos1: real, pos2: real)
    requires SortedAsc(sorted) && |sorted| > 0
    requires 0.0 <= pos1 <= pos2 <= (|sorted| - 1) as real
    ensures QuantileAt(sorted, pos1).Some? && QuantileAt(sorted, pos2).Some?
    ensures QuantileAt(sorted, pos1).value <= QuantileAt(sorted, pos2).value
  {
    QuantileAtInterpolates(sorted, pos1);
    QuantileAtInterpolates(sorted, pos2);
    var n := |sorted|;
    var base1, base2 := pos1.Floor, pos2.Floor;
    var rest1, rest2 := pos1 - base1 as real, pos2 - base2 as real;
    assert base1 <= base2;
    if base1 + 1 == n {
      assert base2 == base1;
    } else if base1 == base2 {
      InterpolateMonotone(sorted[base1], sorted[base1 + 1], rest1, rest2);
    } else {
      InterpolateBetween(sorted[base1], sorted[base1 + 1], rest1);
      assert sorted[base1 + 1] <= sorted[base2];
      if base2 + 1 < n {
        InterpolateBetween(sorted[base2], sorted[base2 + 1], rest2);
      }
    }
  }

  /** The positions of two quantiles `q1 <= q2` are in order, within the array. */
  lemma PositionsInOrder(n: nat, q1: real, q2: real, pos1: real, pos2: real)
    requires n > 0 && 0.0 <= q1 <= q2 <= 1.0
    requires pos1 == (n - 1) as real * q1 && pos2 == (n - 1) as real * q2
    ensures 0.0 <= pos1 <= pos2 <= (n - 1) as real
  {
    PositionInRange(n, q1);
    PositionInRange(n, q2);
    ScaleMonotone((n - 1) as real, q1, q2);
  }

  /** On an ascending sequence a higher `q` never gives a smaller value. */
  lemma QuantileOfSortedMonotone(sorted: seq<real>, q1: real, q2: real)
    requires SortedAsc(sorted) && |sorted| > 0 && 0.0 <= q1 <= q2 <= 1.0
    ensures QuantileOfSorted(sorted, q1).Some? && QuantileOfSorted(sorted, q2).Some?
    ensures QuantileOfSorted(sorted, q1).value <= QuantileOfSorted(sorted, q2).value
  {
    PositionsInOrder(|sorted|, q1, q2, (|sorted| - 1) as real * q1, (|sorted| - 1) as real * q2);
    QuantileAtMonotone(sorted, (|sorted| - 1) as real * q1, (|sorted| - 1) as real * q2);
  }

  /** A higher quantile is never smaller: `quantile(arr, q)` is non-decreasing
      in `q` over `[0, 1]`, so `q25 <= median <= q75`. */
  lemma QuantileMonotone(s: seq<real>, q1: real, q2: real)
    requires |s| > 0 && 0.0 <= q1 <= q2 <= 1.0
    ensures Quantile(s, q1).Some? && Quantile(s, q2).Some?
    ensures Quantile(s, q1).value <= Quantile(s, q2).value
  {
    var sorted := SortedOf(s);
    assert Quantile(s, q1) == QuantileOfSorted(sorted, q1);
    assert Quantile(s, q2) == QuantileOfSorted(sorted, q2);
    QuantileOfSortedMonotone(sorted, q1, q2);
  }



  /** The median of an odd number of sorted elements is the middle one; of an even
      number, the mean of the two middle ones. */
  lemma MedianOfSorted(sorted: seq<real>)
    requires |sorted| > 0
    ensures |sorted| % 2 == 1 ==> QuantileOfSorted(sorted, 0.5) == Some(sorted[|sorted| / 2])
    ensures |sorted| % 2 == 0 ==> QuantileOfSorted(sorted, 0.5) == Some((sorted[|sorted| / 2 - 1] + sorted[|sorted| / 2]) / 2.0)
  {
    var n := |sorted|;
    var m := (n - 1) / 2;
    var pos := (n - 1) as real * 0.5;
    assert QuantileOfSorted(sorted, 0.5) == QuantileAt(sorted, pos);
    if n % 2 == 1 {
      assert n - 1 == 2 * m && n / 2 == m;
      assert pos == m as real;
      assert pos.Floor == m;
      assert pos - m as real == 0.0;
      if m + 1 < n {
        assert Interpolate(sorted[m], sorted[m + 1], 0.0) == sorted[m];
      } else {
        assert QuantileAt(sorted, pos) == Some(sorted[m]);
      }
    } else {
      assert n - 1 == 2 * m + 1 && n / 2 == m + 1;
      assert pos == m as real + 0.5;
      assert pos.Floor == m;
      assert pos - m as real == 0.5;
      assert Interpolate(sorted[m], sorted[m + 1], 0.5) == (sorted[m] + sorted[m + 1]) / 2.0;
    }
  }

  /** The median of an array: the middle element of its ascending arrangement, or
      the mean of the two middle ones. */
  lemma MedianIsMiddle(s: seq<real>)
    requires |s| > 0
    ensures |s| % 2 == 1 ==> Quantile(s, 0.5) == Some(SortedOf(s)[|s| / 2])
    ensures |s| % 2 == 0 ==> Quantile(s, 0.5) == Some((SortedOf(s)[|s| / 2 - 1] + SortedOf(s)[|s| / 2]) / 2.0)
  {
    MedianOfSorted(SortedOf(s));
  }

  // ---------------------------------------------------------------------------
  // The exported helpers

  /** `max`: sorts the caller's array ascending, reverses it in place and returns
      its first element, the largest; `undefined` for an empty array. */
  method Max(a: array<real>) returns (r: Option<real>)
    modifies a
    ensures a[..] == Reversed(SortedOf(old(a[..])))
    ensures SortedDesc(a[..])
    ensures r == Quantile(old(a[..]), 1.0)
  {
    ghost var before := a[..];
    Asc(a);
    ReverseInPlace(a);
    ReversedProperties(SortedOf(before));
    if a.Length > 0 {
      r := Some(a[0]);
      QuantileAtInterpolates(SortedOf(before), (a.Length - 1) as real);
      assert (a.Length - 1) as real * 1.0 == (a.Length - 1) as real;
    } else {
      r := None;
    }
  }

  /** `quantile(arr, q)`: sorts the caller's array in place, then interpolates. */
  method QuantileInPlace(a: array<real>, q: real) returns (r: Option<real>)
    modifies a
    ensures a[..] == SortedOf(old(a[..]))
    ensures r == Quantile(old(a[..]), q)
  {
    Asc(a);
    r := QuantileOfSorted(a[..], q);
  }

  /** `q25`: the first quartile. */
  method Q25(a: array<real>) returns (r: Option<real>)
    modifies a
    ensures a[..] == SortedOf(old(a[..]))
    ensures r == Quantile(old(a[..]), 0.25)
  {
    r := QuantileInPlace(a, 0.25);
  }

  /** `q50`: the second quartile. */
  method Q50(a: array<real>) returns (r: Option<real>)
    modifies a
    ensures a[..] == SortedOf(old(a[..]))
    ensures r == Quantile(old(a[..]), 0.5)
  {
    r := QuantileInPlace(a, 0.5);
  }

  /** `q75`: the third quartile. */
  method Q75(a: array<real>) returns (r: Option<real>)
    modifies a
    ensures a[..] == SortedOf(old(a[..]))
    ensures r == Quantile(old(a[..]), 0.75)
  {
    r := QuantileInPlace(a, 0.75);
  }

  /** `median`: `q50`. */
  method Median(a: array<real>) returns (r: Option<real>)
    modifies a
    ensures a[..] == SortedOf(old(a[..]))
    ensures r == Quantile(old(a[..]), 0.5)
  {
    r := Q50(a);
  }
}
