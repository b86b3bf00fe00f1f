/** The robust average used for consensus values, in 64-bit arithmetic that wraps around. */
module TrimmedMean {
  import opened Decimal
  import opened Sorting

  /** The value a 64-bit register holds. */
  function Wrap64(n: int): (r: int)
    ensures IsInt64(r)
    ensures IsInt64(n) ==> r == n
  {
    (n - MIN_INT64) % 0x1_0000_0000_0000_0000 + MIN_INT64
  }

  /** Division that truncates toward zero. */
  function TruncDiv(a: int, b: int): int
    requires b > 0
  {
    if a >= 0 then a / b else -(-a / b)
  }

  function Identity(): int -> Rank {
    (n: int) => ByNumber(n)
  }

  /** The range around the median outside of which values are dropped. */
  function LowerBound(median: int): int {
    if median == 0 then -10 else if median > 0 then TruncDiv(median, 5) else Wrap64(median * 5)
  }

  function UpperBound(median: int): int {
    if median == 0 then 10 else if median > 0 then Wrap64(median * 5) else TruncDiv(median, 5)
  }

  function Keep(s: seq<int>, lo: int, hi: int): seq<int> {
    if s == [] then []
    else if lo <= s[|s| - 1] <= hi then Keep(s[..|s| - 1], lo, hi) + [s[|s| - 1]]
    else Keep(s[..|s| - 1], lo, hi)
  }

  function WrappedSum(s: seq<int>): int {
    if s == [] then 0 else Wrap64(WrappedSum(s[..|s| - 1]) + s[|s| - 1])
  }

  function Kept(sorted: seq<int>): seq<int>
    requires sorted != []
  {
    var median := sorted[|sorted| / 2];
    Keep(sorted, LowerBound(median), UpperBound(median))
  }

  function OfSorted(sorted: seq<int>): int {
    if sorted == [] then 0
    else if |sorted| == 1 then sorted[0]
    else if Kept(sorted) == [] then sorted[|sorted| / 2]
    else TruncDiv(WrappedSum(Kept(sorted)), |Kept(sorted)|)
  }

  method TrimmedMeanInt64(values: seq<int>) returns (mean: int)
    requires forall v :: v in values ==> IsInt64(v)
    ensures exists sorted :: SortedArrangement(values, sorted, Identity()) && mean == OfSorted(sorted)
  {
    if |values| <= 1 {
      assert SortedArrangement(values, values, Identity());
      return if |values| == 0 then 0 else values[0];
    }
    var sorted := SortSlice(values, Identity());
    SameElements(values, sorted);
    var median := sorted[|sorted| / 2];
    var lowerBound, upperBound := Bounds(median);
    var filtered := FilterRange(sorted, lowerBound, upperBound);
    if |filtered| == 0 {
      mean := median;
    } else {
      mean := Average(filtered);
    }
    assert filtered == Kept(sorted);
  }

  method Bounds(median: int) returns (lowerBound: int, upperBound: int)
    ensures lowerBound == LowerBound(median) && upperBound == UpperBound(median)
  {
    if median == 0 {
      lowerBound, upperBound := -10, 10;
    } else if median > 0 {
      lowerBound, upperBound := TruncDiv(median, 5), Wrap64(median * 5);
    } else {
      lowerBound, upperBound := Wrap64(median * 5), TruncDiv(median, 5);
    }
  }

  method Average(filtered: seq<int>) returns (mean: int)
    requires filtered != []
    ensures mean == TruncDiv(WrappedSum(filtered), |filtered|)
  {
    var sum := 0;
    for i := 0 to |filtered|
      invariant sum == WrappedSum(filtered[..i])
    {
      assert filtered[..i + 1][..i] == filtered[..i];
      sum := Wrap64(sum + filtered[i]);
    }
    assert filtered[..|filtered|] == filtered;
    mean := TruncDiv(sum, |filtered|);
  }

  method FilterRange(s: seq<int>, lo: int, hi: int) returns (filtered: seq<int>)
    ensures filtered == Keep(s, lo, hi)
  {
    filtered := [];
    for i := 0 to |s|
      invariant filtered == Keep(s[..i], lo, hi)
    {
      assert s[..i + 1][..i] == s[..i];
      if s[i] >= lo && s[i] <= hi {
        filtered := filtered + [s[i]];
      }
    }
    assert s[..|s|] == s;
  }

  /** Zeros and negatives are no observations. */
  method TrimmedMeanPositive(values: seq<int>) returns (mean: int)
    requires forall v :: v in values ==> IsInt64(v)
    ensures exists sorted :: SortedArrangement(Keep(values, 1, MAX_INT64), sorted, Identity()) && mean == OfSorted(sorted)
  {
    var positive := FilterRange(values, 1, MAX_INT64);
    KeepMembers(values, 1, MAX_INT64);
    mean := TrimmedMeanInt64(positive);
  }

  // ---------- the result depends only on which values there are ----------

  lemma SortedAscending(s: seq<int>)
    requires Sorted(s, Identity())
    ensures Ascending(s)
  {
  }

  lemma {:induction false} AscendingUnique(a: seq<int>, b: seq<int>)
    requires multiset(a) == multiset(b) && Ascending(a) && Ascending(b)
    ensures a == b
  {
    SameElements(a, b);
    if a != [] {
      var n := |a| - 1;
      assert a == a[..n] + [a[n]] && b == b[..n] + [b[n]];
      assert a[n] in b && b[n] in a;
      assert a[n] == b[n];
      SameFront(a[..n], b[..n], a[n]);
      AscendingUnique(a[..n], b[..n]);
    }
  }

  lemma SortedAt(s: seq<int>, i: int, j: int)
    requires Sorted(s, Identity()) && 0 <= i <= j < |s|
    ensures s[i] <= s[j]
  {
  }

  /** The mean is a function of the multiset of values, wrap-around included. */
  lemma OrderIsIrrelevant(a: seq<int>, b: seq<int>, sa: seq<int>, sb: seq<int>)
    requires multiset(a) == multiset(b)
    requires SortedArrangement(a, sa, Identity()) && SortedArrangement(b, sb, Identity())
    ensures OfSorted(sa) == OfSorted(sb)
  {
    SortedAscending(sa);
    SortedAscending(sb);
    AscendingUnique(sa, sb);
  }

  // ---------- no overflow ----------

  function Sum(s: seq<int>): int {
    if s == [] then 0 else Sum(s[..|s| - 1]) + s[|s| - 1]
  }

  lemma {:induction false} SumBounds(s: seq<int>, lo: int, hi: int)
    requires forall v :: v in s ==> lo <= v <= hi
    ensures |s| * lo <= Sum(s) <= |s| * hi
  {
    if s != [] {
      var front := s[..|s| - 1];
      assert s[|s| - 1] in s;
      assert forall v :: v in front ==> v in s;
      SumBounds(front, lo, hi);
      assert |s| * lo == |front| * lo + lo && |s| * hi == |front| * hi + hi;
    }
  }

  lemma WrapShift(n: int, turns: int)
    ensures Wrap64(n + turns * 0x1_0000_0000_0000_0000) == Wrap64(n)
  {
    var x := n - MIN_INT64;
    var d, r := x / 0x1_0000_0000_0000_0000, x % 0x1_0000_0000_0000_0000;
    assert x + turns * 0x1_0000_0000_0000_0000 == (d + turns) * 0x1_0000_0000_0000_0000 + r;
  }

  lemma WrapOnce(a: int, b: int)
    ensures Wrap64(Wrap64(a) + b) == Wrap64(a + b)
  {
    var turns := (a - MIN_INT64) / 0x1_0000_0000_0000_0000;
    assert Wrap64(a) == a - turns * 0x1_0000_0000_0000_0000;
    WrapShift(a + b, -turns);
  }

  lemma {:induction false} WrapsAtTheEnd(s: seq<int>)
    ensures WrappedSum(s) == Wrap64(Sum(s))
  {
    if s != [] {
      WrapsAtTheEnd(s[..|s| - 1]);
      WrapOnce(Sum(s[..|s| - 1]), s[|s| - 1]);
    }
  }

  /** Overflow on the way does no harm: what decides is the sum itself. */
  lemma NoOverflowIff(s: seq<int>)
    ensures WrappedSum(s) == Sum(s) <==> IsInt64(Sum(s))
  {
    WrapsAtTheEnd(s);
  }

  lemma {:induction false} KeepMembers(s: seq<int>, lo: int, hi: int)
    ensures forall v :: v in Keep(s, lo, hi) <==> v in s && lo <= v <= hi
    ensures |Keep(s, lo, hi)| <= |s|
  {
    if s != [] {
      KeepMembers(s[..|s| - 1], lo, hi);
      assert s == s[..|s| - 1] + [s[|s| - 1]];
    }
  }

  /** The median is always inside its own range unless five times the median overflows; so
      the fallback for an empty selection is reached only through overflow. */
  lemma KeptContainsMedian(sorted: seq<int>)
    requires sorted != [] && IsInt64(5 * sorted[|sorted| / 2])
    ensures sorted[|sorted| / 2] in Kept(sorted)
  {
    var median := sorted[|sorted| / 2];
    KeepMembers(sorted, LowerBound(median), UpperBound(median));
  }

  lemma RemainderBound(a: int, n: int)
    requires n > 0
    ensures a >= 0 ==> 0 <= a - n * TruncDiv(a, n) < n
    ensures a < 0 ==> -n < a - n * TruncDiv(a, n) <= 0
  {
    if a >= 0 {
      assert a == n * TruncDiv(a, n) + a % n;
    } else {
      assert -a == n * (-a / n) + (-a) % n;
      Negate(n, -a / n);
    }
  }

  lemma Negate(n: int, a: int)
    ensures n * -a == -(n * a)
  {
  }

  lemma MeanBetween(total: int, n: nat, lo: int, hi: int)
    requires n > 0 && n * lo <= total <= n * hi
    ensures lo <= TruncDiv(total, n) <= hi
  {
    var q := TruncDiv(total, n);
    RemainderBound(total, n);
    assert n * (q + 1) == n * q + n && n * (hi + 1) == n * hi + n;
    if q < lo {
      Scale(n, q + 1, lo);
    }
    if hi < q {
      Scale(n, hi + 1, q);
    }
  }

  lemma Scale(n: int, a: int, b: int)
    requires 0 <= n && a <= b
    ensures n * a <= n * b
  {
  }

  /** The sum of the kept values is a 64-bit number. */
  predicate KeptFits(sorted: seq<int>) {
    sorted != [] ==> IsInt64(Sum(Kept(sorted)))
  }

  lemma QuotientsApart(a: int, b: int, n: int)
    requires n > 0 && TruncDiv(a, n) == TruncDiv(b, n)
    ensures -2 * n < a - b < 2 * n
  {
    RemainderBound(a, n);
    RemainderBound(b, n);
  }

  /** The result is the average of the kept values if and only if their sum is a 64-bit number. */
  lemma MeanIsAverageIff(sorted: seq<int>)
    requires |sorted| > 1 && 0 < |Kept(sorted)| <= MAX_INT64
    ensures OfSorted(sorted) == TruncDiv(Sum(Kept(sorted)), |Kept(sorted)|) <==> KeptFits(sorted)
  {
    var kept := Kept(sorted);
    WrapsAtTheEnd(kept);
    if TruncDiv(WrappedSum(kept), |kept|) == TruncDiv(Sum(kept), |kept|) {
      QuotientsApart(WrappedSum(kept), Sum(kept), |kept|);
    }
  }

  /** Otherwise it can be far from all of them. */
  lemma LargeMeanIsNegative()
    ensures OfSorted([0x4000_0000_0000_0000, 0x4000_0000_0000_0000]) == -0x4000_0000_0000_0000
  {
    var v := 0x4000_0000_0000_0000;
    assert [v, v][..1] == [v] && [v][..0] == [];
    assert LowerBound(v) <= v == UpperBound(v);
    assert Keep([v], LowerBound(v), UpperBound(v)) == [v];
    assert Kept([v, v]) == [v] + [v];
    assert [v] + [v] == [v, v];
    assert Sum([v]) == v;
    WrapsAtTheEnd([v, v]);
  }

  lemma MeanOfKept(sorted: seq<int>, lo: int, hi: int)
    requires |sorted| > 1 && Kept(sorted) != [] && KeptFits(sorted)
    requires forall v :: v in Kept(sorted) ==> lo <= v <= hi
    ensures lo <= OfSorted(sorted) <= hi
  {
    NoOverflowIff(Kept(sorted));
    SumBounds(Kept(sorted), lo, hi);
    MeanBetween(Sum(Kept(sorted)), |Kept(sorted)|, lo, hi);
  }

  /** The mean lies between the smallest and the largest value, if the sum of the kept ones is a
      64-bit number. Nothing is asked of the dropped ones, or of five times the median. */
  lemma MeanWithinRange(sorted: seq<int>)
    requires Sorted(sorted, Identity()) && sorted != [] && KeptFits(sorted)
    ensures sorted[0] <= OfSorted(sorted) <= sorted[|sorted| - 1]
  {
    var median := sorted[|sorted| / 2];
    SortedAt(sorted, 0, |sorted| / 2);
    SortedAt(sorted, |sorted| / 2, |sorted| - 1);
    if |sorted| > 1 && Kept(sorted) != [] {
      KeepMembers(sorted, LowerBound(median), UpperBound(median));
      forall v | v in Kept(sorted) ensures sorted[0] <= v <= sorted[|sorted| - 1] {
        var i :| 0 <= i < |sorted| && sorted[i] == v;
        SortedAt(sorted, 0, i);
        SortedAt(sorted, i, |sorted| - 1);
      }
      MeanOfKept(sorted, sorted[0], sorted[|sorted| - 1]);
    }
  }

  // ---------- which values take part ----------

  /** Within a factor of five of the median, give or take what the division cuts off; around a median of
      zero, within ten. */
  predicate TakesPart(median: int, v: int) {
    if median > 0 then median < 5 * v + 5 && v <= 5 * median
    else if median < 0 then 5 * median <= v && 5 * v - 5 < median
    else -10 <= v <= 10
  }

  function TakingPart(s: seq<int>, median: int): seq<int> {
    if s == [] then []
    else TakingPart(s[..|s| - 1], median) + if TakesPart(median, s[|s| - 1]) then [s[|s| - 1]] else []
  }

  lemma BoundsMean(median: int, v: int)
    requires IsInt64(5 * median)
    ensures LowerBound(median) <= v <= UpperBound(median) <==> TakesPart(median, v)
  {
  }

  lemma {:induction false} KeepTakingPart(s: seq<int>, median: int)
    requires IsInt64(5 * median)
    ensures Keep(s, LowerBound(median), UpperBound(median)) == TakingPart(s, median)
  {
    if s != [] {
      KeepTakingPart(s[..|s| - 1], median);
      BoundsMean(median, s[|s| - 1]);
    }
  }

  /** No values: zero. One value: that value. More: the average of those that take part around the
      upper median, as long as five times the median and the sum are 64-bit numbers. */
  lemma MeanOfThoseTakingPart(sorted: seq<int>)
    ensures sorted == [] ==> OfSorted(sorted) == 0
    ensures |sorted| == 1 ==> OfSorted(sorted) == sorted[0]
    ensures |sorted| > 1 && IsInt64(5 * sorted[|sorted| / 2]) ==>
              var part := TakingPart(sorted, sorted[|sorted| / 2]);
              && sorted[|sorted| / 2] in part
              && (IsInt64(Sum(part)) ==> OfSorted(sorted) == TruncDiv(Sum(part), |part|))
  {
    if |sorted| > 1 && IsInt64(5 * sorted[|sorted| / 2]) {
      KeepTakingPart(sorted, sorted[|sorted| / 2]);
      KeptContainsMedian(sorted);
      NoOverflowIff(Kept(sorted));
    }
  }

  lemma {:induction false} AllTakePart(s: seq<int>, median: int)
    requires forall v :: v in s ==> TakesPart(median, v)
    ensures TakingPart(s, median) == s
  {
    if s != [] {
      AllTakePart(s[..|s| - 1], median);
      assert s[|s| - 1] in s;
      assert s == s[..|s| - 1] + [s[|s| - 1]];
    }
  }

  /** The values have one sign and are within a factor of five of each other, or all are near zero. */
  predicate CloseTogether(sorted: seq<int>) {
    sorted != [] ==>
      var least, most := sorted[0], sorted[|sorted| - 1];
      || (0 < least && most <= 5 * least)
      || (most < 0 && 5 * most <= least)
      || (-10 <= least && most <= 10 && sorted[|sorted| / 2] == 0)
  }

  lemma CloseTakesPart(sorted: seq<int>, i: nat)
    requires Sorted(sorted, Identity()) && i < |sorted| && CloseTogether(sorted)
    ensures TakesPart(sorted[|sorted| / 2], sorted[i])
  {
    SortedAt(sorted, 0, |sorted| / 2);
    SortedAt(sorted, |sorted| / 2, |sorted| - 1);
    SortedAt(sorted, 0, i);
    SortedAt(sorted, i, |sorted| - 1);
  }

  lemma SumOfOne(v: int)
    ensures TruncDiv(Sum([v]), 1) == v
  {
    assert [v][..0] == [];
  }

  /** Nothing is dropped of values that are close together: the result is their average. */
  lemma NothingCloseIsDropped(sorted: seq<int>)
    requires Sorted(sorted, Identity()) && sorted != [] && CloseTogether(sorted)
    requires IsInt64(5 * sorted[|sorted| / 2]) && IsInt64(Sum(sorted))
    ensures OfSorted(sorted) == TruncDiv(Sum(sorted), |sorted|)
  {
    var median := sorted[|sorted| / 2];
    forall v | v in sorted ensures TakesPart(median, v) {
      var i :| 0 <= i < |sorted| && sorted[i] == v;
      CloseTakesPart(sorted, i);
    }
    AllTakePart(sorted, median);
    MeanOfThoseTakingPart(sorted);
    if |sorted| == 1 {
      assert sorted == [sorted[0]];
      SumOfOne(sorted[0]);
    }
  }

  // ---------- resistance to a minority ----------

  lemma {:induction false} KeepSkips(s: seq<int>, lo: int, hi: int, from: nat, until: nat)
    requires from <= until <= |s|
    requires forall i :: from <= i < until ==> !(lo <= s[i] <= hi)
    ensures |Keep(s, lo, hi)| <= |s| - (until - from)
  {
    if s != [] {
      var front := s[..|s| - 1];
      KeepSkips(front, lo, hi, if from <= |front| then from else |front|, if until <= |front| then until else |front|);
    }
  }

  lemma MedianOfMajority(sorted: seq<int>, lo: int, hi: int)
    requires Sorted(sorted, Identity()) && 2 * |Keep(sorted, lo, hi)| > |sorted|
    ensures lo <= sorted[|sorted| / 2] <= hi
  {
    var n, m := |sorted|, |sorted| / 2;
    if sorted[m] < lo {
      forall i | 0 <= i < m + 1 ensures !(lo <= sorted[i] <= hi) {
        SortedAt(sorted, i, m);
      }
      KeepSkips(sorted, lo, hi, 0, m + 1);
    } else if sorted[m] > hi {
      forall i | m <= i < n ensures !(lo <= sorted[i] <= hi) {
        SortedAt(sorted, m, i);
      }
      KeepSkips(sorted, lo, hi, m, n);
    }
  }

  /** What is kept when the median lies in `[lo, hi]`, even where five times the median overflows. */
  lemma KeptNearMedian(sorted: seq<int>, lo: int, hi: int)
    requires sorted != [] && 0 < lo <= sorted[|sorted| / 2] <= hi
    ensures forall v :: v in Kept(sorted) ==> lo / 5 <= v <= 5 * hi
    ensures |Kept(sorted)| <= |sorted|
  {
    var median := sorted[|sorted| / 2];
    WrapShrinks(5 * median);
    KeepMembers(sorted, LowerBound(median), UpperBound(median));
  }

  lemma WrapShrinks(n: int)
    requires n >= 0
    ensures Wrap64(n) <= n
  {
  }

  /** More than half of the values lie in `[lo, hi]`. */
  predicate Majority(values: seq<int>, lo: int, hi: int) {
    2 * |Keep(values, lo, hi)| > |values|
  }

  /** If more than half of the values lie in `[lo, hi]` with `lo` positive, then so does the
      median; and if the sum of the kept values is a 64-bit number, the mean lies in
      `[lo / 5, 5 * hi]`, whatever the others are. Nor can the mean fall below what bounds all
      values from below. */
  lemma MinorityCannotMove(sorted: seq<int>, lo: int, hi: int)
    requires Sorted(sorted, Identity()) && 0 < lo <= hi && Majority(sorted, lo, hi)
    ensures sorted != [] && lo <= sorted[|sorted| / 2] <= hi
    ensures KeptFits(sorted) ==> lo / 5 <= OfSorted(sorted) <= 5 * hi && sorted[0] <= OfSorted(sorted)
  {
    MedianOfMajority(sorted, lo, hi);
    KeptNearMedian(sorted, lo, hi);
    if KeptFits(sorted) {
      if |sorted| > 1 && Kept(sorted) != [] {
        MeanOfKept(sorted, lo / 5, 5 * hi);
      }
      MeanWithinRange(sorted);
    }
  }

  /** For a caller, who knows only the majority: the values kept can be summed if that many values
      of size `5 * hi` can. */
  predicate MajorityIn(values: seq<int>, lo: int, hi: int) {
    Majority(values, lo, hi) && 5 * hi * |values| <= MAX_INT64
  }

  lemma MajorityFits(sorted: seq<int>, lo: int, hi: int)
    requires Sorted(sorted, Identity()) && 0 < lo <= hi && MajorityIn(sorted, lo, hi)
    ensures KeptFits(sorted)
  {
    MedianOfMajority(sorted, lo, hi);
    KeptNearMedian(sorted, lo, hi);
    SumBounds(Kept(sorted), 0, 5 * hi);
    Scale(5 * hi, |Kept(sorted)|, |sorted|);
  }

  /** The same for the positive variant, whatever the zeros and negatives are: a majority among
      the positive values decides. */
  lemma MinorityCannotMovePositive(values: seq<int>, sorted: seq<int>, lo: int, hi: int, mean: int)
    requires SortedArrangement(Keep(values, 1, MAX_INT64), sorted, Identity()) && mean == OfSorted(sorted)
    requires 0 < lo <= hi <= MAX_INT64 && 2 * |Keep(values, lo, hi)| > |Keep(values, 1, MAX_INT64)|
    ensures sorted != [] && lo <= sorted[|sorted| / 2] <= hi
    ensures KeptFits(sorted) ==> lo / 5 <= mean <= 5 * hi && mean >= 1
  {
    var positive := Keep(values, 1, MAX_INT64);
    KeepMembers(values, 1, MAX_INT64);
    SameElements(positive, sorted);
    MajorityOfPositive(values, sorted, lo, hi);
    MinorityCannotMove(sorted, lo, hi);
    assert sorted[0] in sorted;
  }

  lemma MajorityOfPositive(values: seq<int>, sorted: seq<int>, lo: int, hi: int)
    requires multiset(sorted) == multiset(Keep(values, 1, MAX_INT64)) && 0 < lo <= hi <= MAX_INT64
    ensures |Keep(sorted, lo, hi)| == |Keep(values, lo, hi)| && |sorted| == |Keep(values, 1, MAX_INT64)|
  {
    KeepTwice(values, 1, MAX_INT64, lo, hi);
    KeepRearranged(Keep(values, 1, MAX_INT64), sorted, lo, hi);
    SameElements(Keep(values, 1, MAX_INT64), sorted);
  }

  lemma {:induction false} KeepTwice(s: seq<int>, lo: int, hi: int, lo': int, hi': int)
    requires lo <= lo' && hi' <= hi
    ensures Keep(Keep(s, lo, hi), lo', hi') == Keep(s, lo', hi')
  {
    if s != [] {
      var front, last := s[..|s| - 1], s[|s| - 1];
      KeepTwice(front, lo, hi, lo', hi');
      if lo <= last <= hi {
        KeepSnoc(Keep(front, lo, hi), last, lo', hi');
      }
    }
  }

  lemma KeepSnoc(s: seq<int>, v: int, lo: int, hi: int)
    ensures Keep(s + [v], lo, hi) == Keep(s, lo, hi) + if lo <= v <= hi then [v] else []
  {
  }

  lemma {:induction false} KeepMultiset(s: seq<int>, lo: int, hi: int, v: int)
    ensures multiset(Keep(s, lo, hi))[v] == if lo <= v <= hi then multiset(s)[v] else 0
  {
    if s != [] {
      KeepMultiset(s[..|s| - 1], lo, hi, v);
      assert s == s[..|s| - 1] + [s[|s| - 1]];
    }
  }

  lemma KeepRearranged(a: seq<int>, b: seq<int>, lo: int, hi: int)
    requires multiset(a) == multiset(b)
    ensures multiset(Keep(a, lo, hi)) == multiset(Keep(b, lo, hi)) && |Keep(a, lo, hi)| == |Keep(b, lo, hi)|
  {
    forall v ensures multiset(Keep(a, lo, hi))[v] == multiset(Keep(b, lo, hi))[v] {
      KeepMultiset(a, lo, hi, v);
      KeepMultiset(b, lo, hi, v);
    }
    SameElements(Keep(a, lo, hi), Keep(b, lo, hi));
  }
}
