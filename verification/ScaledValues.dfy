// What the normalizer makes of each value, read off the sorted group alone.
module ScaledValues {
  import opened Common
  import opened Grouping
  import opened Sorting
  import opened RobustScaling
  import opened Normalizer

  // ---- the quartiles by position ---------------------------------------------------------------------

  // The mean of the two positions that halve the first n elements from `from` on; one position
  // twice if n is odd.
  function MiddleOf(s: seq<real>, from: nat, n: nat): real
    requires n > 0 && from + n <= |s|
  {
    (s[from + (n - 1) / 2] + s[from + n / 2]) / 2.0
  }

  lemma MedianAt(s: seq<real>, from: nat, n: nat)
    requires n > 0 && from + n <= |s|
    ensures Median(s[from..from + n]) == MiddleOf(s, from, n)
  {
    assert s[from..from + n][n / 2] == s[from + n / 2];
    if n % 2 == 0 {
      assert (n - 1) / 2 == n / 2 - 1;
      assert s[from..from + n][n / 2 - 1] == s[from + n / 2 - 1];
    } else {
      assert (n - 1) / 2 == n / 2;
    }
  }

  lemma UpperHalf(sorted: seq<real>)
    requires |sorted| > 1
    ensures var n, h := |sorted|, |sorted| / 2;
            && sorted[0..n] == sorted && sorted[0..h] == sorted[..h]
            && sorted[n - h..n] == if n % 2 == 0 then sorted[h..] else sorted[h + 1..]
  {
  }

  // The median halves all the values, and the quartiles the lower and the upper half of them; the
  // middle one of an odd number belongs to neither.
  lemma QuartilesAt(sorted: seq<real>)
    requires |sorted| > 1
    ensures var n, h := |sorted|, |sorted| / 2;
            && Median(sorted) == MiddleOf(sorted, 0, n)
            && Quartiles(sorted).0 == MiddleOf(sorted, 0, h)
            && Quartiles(sorted).1 == MiddleOf(sorted, n - h, h)
  {
    var n, h := |sorted|, |sorted| / 2;
    UpperHalf(sorted);
    MedianAt(sorted, 0, n);
    MedianAt(sorted, 0, h);
    MedianAt(sorted, n - h, h);
  }

  // Half of the lower half lies below Q1 and the rest of the values above it; Q3 mirrors it.
  lemma QuartileHalves(sorted: seq<real>)
    requires SortedBy(AtMost, sorted) && |sorted| > 1
    ensures var n, h := |sorted|, |sorted| / 2;
            && (forall i | 0 <= i < (h + 1) / 2 :: sorted[i] <= Quartiles(sorted).0)
            && (forall i | h / 2 <= i < n :: Quartiles(sorted).0 <= sorted[i])
            && (forall i | 0 <= i < n - h / 2 :: sorted[i] <= Quartiles(sorted).1)
            && (forall i | n - (h + 1) / 2 <= i < n :: Quartiles(sorted).1 <= sorted[i])
  {
    QuartilesAt(sorted);
    forall i, j | 0 <= i <= j < |sorted|
      ensures sorted[i] <= sorted[j]
    {
      assert i < j ==> AtMost(sorted[i], sorted[j]);
    }
  }

  // ---- scaled values ---------------------------------------------------------------------------------

  // y is the distance of x from the middle of the sorted values, in units of their interquartile
  // range; where that is zero, and for a single value, it is 0.
  ghost predicate ScaledFrom(sorted: seq<real>, x: real, y: real) {
    var n, h := |sorted|, |sorted| / 2;
    if n > 1 && MiddleOf(sorted, 0, h) != MiddleOf(sorted, n - h, h)
    then y * (MiddleOf(sorted, n - h, h) - MiddleOf(sorted, 0, h)) == x - MiddleOf(sorted, 0, n)
    else y == 0.0
  }

  lemma Quotient(x: real, d: real)
    requires d != 0.0
    ensures x / d * d == x
  {
  }

  lemma ScaledBy(sorted: seq<real>, x: real)
    requires sorted != []
    ensures ScaledFrom(sorted, x, ScaleBy(sorted, x))
  {
    if |sorted| > 1 {
      QuartilesAt(sorted);
      if Iqr(sorted) != 0.0 {
        Quotient(x - Median(sorted), Iqr(sorted));
      }
    }
  }

  // Whichever way the group is sorted.
  lemma ScaledExactly(group: seq<real>, sorted: seq<real>, x: real)
    requires group != [] && SortedBy(AtMost, sorted) && multiset(sorted) == multiset(group)
    ensures ScaledFrom(sorted, x, ScaleIn(group, x))
  {
    SortedUnique(group, sorted);
    ScaledBy(sorted, x);
  }

  lemma QuotientStrict(x: real, y: real, d: real)
    requires x < y && d > 0.0
    ensures x / d < y / d
  {
    Quotient(x, d);
    Quotient(y, d);
    QuotientOrder(x, y, d);
  }

  lemma QuotientUnit(a: real, b: real, m: real, d: real)
    requires d == b - a && d != 0.0
    ensures (b - m) / d - (a - m) / d == 1.0
  {
    assert (b - m) / d - (a - m) / d == (b - a) / d;
  }

  lemma UnitsBy(s: seq<real>, q1: real, q3: real)
    requires |s| > 1 && Quartiles(s) == (q1, q3) && q1 < q3
    ensures forall x, y | x < y :: ScaleBy(s, x) < ScaleBy(s, y)
    ensures ScaleBy(s, Median(s)) == 0.0 && ScaleBy(s, q3) - ScaleBy(s, q1) == 1.0
  {
    var m, d := Median(s), q3 - q1;
    assert Iqr(s) == d;
    forall x, y | x < y
      ensures ScaleBy(s, x) < ScaleBy(s, y)
    {
      QuotientStrict(x - m, y - m, d);
    }
    QuotientUnit(q1, q3, m, d);
  }

  // Where the quartiles differ, scaling is strictly increasing, takes the median to 0 and puts the
  // quartiles 1 apart; where they agree, every value becomes 0.
  lemma ScaledUnits(group: seq<real>)
    requires |group| > 1
    ensures var s := SortedOf(group);
            var (q1, q3) := Quartiles(s);
            && (q1 == q3 ==> forall x :: ScaleIn(group, x) == 0.0)
            && (q1 != q3 ==>
                  && (forall x, y | x < y :: ScaleIn(group, x) < ScaleIn(group, y))
                  && ScaleIn(group, Median(s)) == 0.0
                  && ScaleIn(group, q3) - ScaleIn(group, q1) == 1.0)
  {
    var s := SortedOf(group);
    var (q1, q3) := Quartiles(s);
    assert forall x :: ScaleIn(group, x) == ScaleBy(s, x);
    SortedOfSound(group);
    QuartilesOrdered(s);
    if q1 != q3 {
      UnitsBy(s, q1, q3);
    }
  }

  // ---- whole lists -----------------------------------------------------------------------------------

  lemma NormalizedSnoc(all: seq<MetricValue>, metrics: seq<MetricValue>, n: nat)
    requires |metrics| == n + 1
    ensures NormalizedAll(all, metrics) == NormalizedAll(all, metrics[..n]) + [Normalized(all, metrics[n])]
  {
  }

  lemma {:induction false} EveryMetric(all: seq<MetricValue>, metrics: seq<MetricValue>, ids: set<string>)
    requires forall m | m in metrics :: m.id in ids
    ensures NormalizedOf(all, metrics, ids) == NormalizedAll(all, metrics)
  {
    if metrics != [] {
      var n := |metrics| - 1;
      assert metrics[n] in metrics;
      assert forall m | m in metrics[..n] :: m in metrics;
      EveryMetric(all, metrics[..n], ids);
      NormalizedSnoc(all, metrics, n);
    }
  }

  lemma GroupNotEmpty(all: seq<MetricValue>, m: MetricValue)
    requires m in all
    ensures WithId(all, m.id) != []
  {
    WithIdCount(all, m.id, m);
    assert m in multiset(all);
  }

  // The i-th metric of the list and its normalized value, against every sorting of its group.
  ghost predicate NormalizedAt(all: seq<MetricValue>, scaled: seq<MetricValue>, i: nat) {
    && i < |all| && i < |scaled| && scaled[i] == all[i].(value := scaled[i].value)
    && forall sorted | SortedBy(AtMost, sorted) && multiset(sorted) == multiset(Values(WithId(all, all[i].id))) ::
         ScaledFrom(sorted, all[i].value, scaled[i].value)
  }

  lemma NormalizedList(all: seq<MetricValue>, base: seq<MetricValue>) returns (scaled: seq<MetricValue>)
    requires NormalizationOf(base, all)
    ensures multiset(base) == multiset(scaled) && |scaled| == |all|
    ensures forall i | 0 <= i < |all| :: NormalizedAt(all, scaled, i)
  {
    scaled := NormalizedAll(all, all);
    EveryMetric(all, all, Ids(all));
    forall i | 0 <= i < |all|
      ensures NormalizedAt(all, scaled, i)
    {
      var group := Values(WithId(all, all[i].id));
      GroupNotEmpty(all, all[i]);
      forall sorted | SortedBy(AtMost, sorted) && multiset(sorted) == multiset(group)
        ensures ScaledFrom(sorted, all[i].value, scaled[i].value)
      {
        ScaledExactly(group, sorted, all[i].value);
      }
    }
  }

  // Lifted so that the least value is e times the spread, all differences kept.
  ghost predicate OffsetBy(result: seq<MetricValue>, base: seq<MetricValue>, e: real) {
    if base == [] then result == [] else LiftedTo(result, base, e * (Greatest(base) - Least(base)))
  }

  lemma OffsetIs(base: seq<MetricValue>, e: real)
    ensures OffsetBy(WithOffset(base, Some(e)), base, e)
  {
    if base != [] {
      var floor := FloorOf(base, e);
      OffsetLifts(base, e, floor);
    }
  }

  // Normalize returns the list with every value scaled so, in some order, as it is without an offset
  // and lifted with one.
  lemma NormalizedExactly(all: seq<MetricValue>, result: seq<MetricValue>, e: Option<real>)
    returns (scaled: seq<MetricValue>, base: seq<MetricValue>)
    requires NormalizedWith(result, all, e)
    ensures |scaled| == |all| && forall i | 0 <= i < |all| :: NormalizedAt(all, scaled, i)
    ensures multiset(base) == multiset(scaled)
    ensures match e case None => result == base case Some(offset) => OffsetBy(result, base, offset)
  {
    base :| NormalizationOf(base, all) && result == WithOffset(base, e);
    scaled := NormalizedList(all, base);
    if e.Some? {
      OffsetIs(base, e.value);
    }
  }
}
