// Robust scaling of a group of values, in exact arithmetic.
module RobustScaling {
  import opened Sorting

  predicate AtMost(x: real, y: real) {
    x <= y
  }

  function Insert(x: real, s: seq<real>): (r: seq<real>)
    ensures |r| == |s| + 1
  {
    if s == [] || x <= s[0] then [x] + s else [s[0]] + Insert(x, s[1..])
  }

  function SortedOf(s: seq<real>): (r: seq<real>)
    ensures |r| == |s|
  {
    if s == [] then [] else Insert(s[0], SortedOf(s[1..]))
  }

  function Median(sorted: seq<real>): real
    requires sorted != []
  {
    var middle := |sorted| / 2;
    if |sorted| % 2 == 0 then (sorted[middle - 1] + sorted[middle]) / 2.0 else sorted[middle]
  }

  function Quartiles(sorted: seq<real>): (real, real)
    requires |sorted| > 1
  {
    var n := |sorted|;
    (Median(sorted[..n / 2]), Median(if n % 2 == 0 then sorted[n / 2..] else sorted[n / 2 + 1..]))
  }

  function Iqr(sorted: seq<real>): real {
    if |sorted| > 1 then Quartiles(sorted).1 - Quartiles(sorted).0 else 0.0
  }

  function ScaleBy(sorted: seq<real>, x: real): real
    requires sorted != []
  {
    if Iqr(sorted) == 0.0 then 0.0 else (x - Median(sorted)) / Iqr(sorted)
  }

  // What a value of a group of values is scaled to.
  function ScaleIn(group: seq<real>, x: real): real {
    if group == [] then 0.0 else ScaleBy(SortedOf(group), x)
  }

  // ---- sorting -----------------------------------------------------------------------------------

  lemma AtMostIsTotalPreorder()
    ensures TotalPreorder(AtMost)
  {
    assert forall x, y :: Total(AtMost, x, y);
    assert forall x, y, z :: Transitive(AtMost, x, y, z);
  }

  lemma {:induction false} InsertMembers(x: real, s: seq<real>)
    ensures multiset(Insert(x, s)) == multiset(s) + multiset{x}
  {
    if s != [] && x > s[0] {
      InsertMembers(x, s[1..]);
      assert s == [s[0]] + s[1..];
    }
  }

  lemma {:induction false} InsertSound(x: real, s: seq<real>)
    requires SortedBy(AtMost, s)
    ensures SortedBy(AtMost, Insert(x, s))
  {
    if s != [] && x > s[0] {
      var rest := Insert(x, s[1..]);
      InsertSound(x, s[1..]);
      InsertMembers(x, s[1..]);
      forall i | 0 <= i < |rest|
        ensures s[0] <= rest[i]
      {
        assert rest[i] in multiset(rest);
        assert rest[i] == x || rest[i] in s[1..];
      }
    }
  }

  lemma {:induction false} SortedOfSound(s: seq<real>)
    ensures SortedBy(AtMost, SortedOf(s)) && multiset(SortedOf(s)) == multiset(s)
  {
    if s != [] {
      SortedOfSound(s[1..]);
      InsertSound(s[0], SortedOf(s[1..]));
      InsertMembers(s[0], SortedOf(s[1..]));
      assert s == [s[0]] + s[1..];
    }
  }

  lemma SortedUnique(s: seq<real>, t: seq<real>)
    requires SortedBy(AtMost, t) && multiset(t) == multiset(s)
    ensures t == SortedOf(s)
  {
    SortedOfSound(s);
    AtMostIsTotalPreorder();
    SortedAgree(AtMost, t, SortedOf(s));
    forall i | 0 <= i < |t|
      ensures t[i] == SortedOf(s)[i]
    {
      assert Tied(AtMost, t[i], SortedOf(s)[i]);
    }
  }

  // ---- what scaling promises ------------------------------------------------------------------------

  function Map(s: seq<real>, f: real -> real): seq<real> {
    seq(|s|, i requires 0 <= i < |s| => f(s[i]))
  }

  // Named instances, so that the laws are used only where they are mentioned.
  ghost predicate Orders(f: real -> real, x: real, y: real) {
    f(x) <= f(y) <==> x <= y
  }

  ghost predicate Midpoint(f: real -> real, x: real, y: real) {
    (f(x) + f(y)) / 2.0 == f((x + y) / 2.0)
  }

  ghost predicate Stretch(f: real -> real, a: real, x: real, y: real) {
    f(x) - f(y) == a * (x - y)
  }

  ghost predicate Increasing(f: real -> real) {
    forall x, y :: Orders(f, x, y)
  }

  ghost predicate KeepsMidpoints(f: real -> real) {
    forall x, y :: Midpoint(f, x, y)
  }

  // Differences are stretched by a.
  ghost predicate Stretches(f: real -> real, a: real) {
    forall x, y :: Stretch(f, a, x, y)
  }

  lemma {:induction false} MapInsert(x: real, s: seq<real>, f: real -> real)
    requires Increasing(f)
    ensures Insert(f(x), Map(s, f)) == Map(Insert(x, s), f)
  {
    if s != [] {
      assert Orders(f, x, s[0]);
      if x > s[0] {
        MapInsert(x, s[1..], f);
        assert Map(s, f)[1..] == Map(s[1..], f);
      }
    }
  }

  // Sorting commutes with every increasing map.
  lemma {:induction false} MapSorted(s: seq<real>, f: real -> real)
    requires Increasing(f)
    ensures SortedOf(Map(s, f)) == Map(SortedOf(s), f)
  {
    if s != [] {
      MapSorted(s[1..], f);
      assert Map(s, f)[1..] == Map(s[1..], f);
      MapInsert(s[0], SortedOf(s[1..]), f);
    }
  }

  // The median, for either parity, and the quartiles commute with maps that keep midpoints.
  lemma MapMedian(s: seq<real>, f: real -> real)
    requires KeepsMidpoints(f) && s != []
    ensures Median(Map(s, f)) == f(Median(s))
  {
    var m := |s| / 2;
    if |s| % 2 == 0 {
      assert Midpoint(f, s[m - 1], s[m]);
    }
  }

  lemma MapQuartiles(s: seq<real>, f: real -> real)
    requires KeepsMidpoints(f) && |s| > 1
    ensures Quartiles(Map(s, f)) == (f(Quartiles(s).0), f(Quartiles(s).1))
  {
    var n := |s|;
    var upper := if n % 2 == 0 then n / 2 else n / 2 + 1;
    assert Map(s, f)[..n / 2] == Map(s[..n / 2], f);
    assert Map(s, f)[upper..] == Map(s[upper..], f);
    MapMedian(s[..n / 2], f);
    MapMedian(s[upper..], f);
  }

  lemma CancelFactor(a: real, x: real, i: real)
    requires a > 0.0
    ensures i == 0.0 <==> a * i == 0.0
    ensures i != 0.0 ==> (a * x) / (a * i) == x / i
  {
    if i != 0.0 {
      var q := x / i;
      assert x == q * i;
      assert a * x == q * (a * i);
    }
  }

  lemma Ratio(x: real, x': real, m: real, m': real, i: real, i': real, a: real)
    requires a > 0.0 && x' - m' == a * (x - m) && i' == a * i
    ensures i == 0.0 <==> i' == 0.0
    ensures i != 0.0 ==> (x' - m') / i' == (x - m) / i
  {
    CancelFactor(a, x - m, i);
  }

  lemma MapIqr(s: seq<real>, f: real -> real, a: real)
    requires KeepsMidpoints(f) && Stretches(f, a)
    ensures Iqr(Map(s, f)) == a * Iqr(s)
  {
    if |s| > 1 {
      MapQuartiles(s, f);
      var (q1, q3) := Quartiles(s);
      assert Stretch(f, a, q3, q1);
    }
  }

  lemma ScaleByInvariant(s: seq<real>, f: real -> real, a: real, x: real)
    requires KeepsMidpoints(f) && Stretches(f, a) && a > 0.0 && s != []
    ensures ScaleBy(Map(s, f), f(x)) == ScaleBy(s, x)
  {
    MapMedian(s, f);
    MapIqr(s, f, a);
    assert Stretch(f, a, x, Median(s));
    Ratio(x, f(x), Median(s), f(Median(s)), Iqr(s), Iqr(Map(s, f)), a);
  }

  // Scaling undoes any increasing change of unit and origin.
  lemma ScaleInvariant(group: seq<real>, f: real -> real, a: real, x: real)
    requires Increasing(f) && KeepsMidpoints(f) && Stretches(f, a) && a > 0.0
    ensures ScaleIn(Map(group, f), f(x)) == ScaleIn(group, x)
  {
    if group != [] {
      MapSorted(group, f);
      ScaleByInvariant(SortedOf(group), f, a, x);
    }
  }

  function AffineMap(a: real, b: real): real -> real {
    x => a * x + b
  }

  lemma SameSign(a: real, d: real)
    requires a > 0.0
    ensures a * d <= 0.0 <==> d <= 0.0
  {
    if d > 0.0 {
      assert a * d > 0.0;
    } else {
      assert a * -d >= 0.0;
      assert a * d == -(a * -d);
    }
  }

  lemma Differences(a: real, x: real, y: real)
    ensures a * x - a * y == a * (x - y)
  {
  }

  lemma Midpoints(a: real, x: real, y: real)
    ensures a * x + a * y == 2.0 * (a * ((x + y) / 2.0))
  {
    var z := (x + y) / 2.0;
    assert y == 2.0 * z - x;
    Differences(a, 2.0 * z, x);
  }

  lemma AffineOrder(a: real, b: real, x: real, y: real)
    requires a > 0.0
    ensures Orders(AffineMap(a, b), x, y)
  {
    var f, p, q, d := AffineMap(a, b), a * x, a * y, x - y;
    assert f(x) == p + b && f(y) == q + b;
    Differences(a, x, y);
    SameSign(a, d);
    assert p - q <= 0.0 <==> d <= 0.0;
  }

  lemma AffineMidpoint(a: real, b: real, x: real, y: real)
    ensures Midpoint(AffineMap(a, b), x, y)
  {
    var f, z := AffineMap(a, b), (x + y) / 2.0;
    var p, q, r := a * x, a * y, a * z;
    assert f(x) == p + b && f(y) == q + b && f(z) == r + b;
    Midpoints(a, x, y);
    assert p + q == 2.0 * r;
  }

  lemma AffineStretch(a: real, b: real, x: real, y: real)
    ensures Stretch(AffineMap(a, b), a, x, y)
  {
    var f, p, q := AffineMap(a, b), a * x, a * y;
    assert f(x) == p + b && f(y) == q + b;
    Differences(a, x, y);
    assert p - q == a * (x - y);
  }

  lemma AffineLaws(a: real, b: real)
    requires a > 0.0
    ensures Increasing(AffineMap(a, b)) && KeepsMidpoints(AffineMap(a, b)) && Stretches(AffineMap(a, b), a)
  {
    forall x, y
      ensures Orders(AffineMap(a, b), x, y) && Midpoint(AffineMap(a, b), x, y) && Stretch(AffineMap(a, b), a, x, y)
    {
      AffineOrder(a, b, x, y);
      AffineMidpoint(a, b, x, y);
      AffineStretch(a, b, x, y);
    }
  }

  // Rescaling a metric, in any unit and from any origin, changes nothing.
  lemma AffineInvariant(group: seq<real>, a: real, b: real, x: real)
    requires a > 0.0
    ensures ScaleIn(Map(group, AffineMap(a, b)), AffineMap(a, b)(x)) == ScaleIn(group, x)
  {
    AffineLaws(a, b);
    ScaleInvariant(group, AffineMap(a, b), a, x);
  }

  // ---- reflection ------------------------------------------------------------------------------------

  // The negated values in reverse order: sorted again if they were sorted.
  function Mirror(s: seq<real>): seq<real> {
    seq(|s|, i requires 0 <= i < |s| => -s[|s| - 1 - i])
  }

  lemma {:induction false} MirrorMembers(s: seq<real>, x: real)
    ensures multiset(Mirror(s))[-x] == multiset(s)[x]
  {
    if s != [] {
      MirrorMembers(s[1..], x);
      assert s == [s[0]] + s[1..];
      assert Mirror(s) == Mirror(s[1..]) + [-s[0]];
    }
  }

  lemma MirrorPermuted(s: seq<real>, t: seq<real>)
    requires multiset(s) == multiset(t)
    ensures multiset(Mirror(s)) == multiset(Mirror(t))
  {
    forall y: real
      ensures multiset(Mirror(s))[y] == multiset(Mirror(t))[y]
    {
      MirrorMembers(s, -y);
      MirrorMembers(t, -y);
      assert y == -(-y);
    }
  }

  lemma MirrorSorted(s: seq<real>)
    ensures SortedOf(Mirror(s)) == Mirror(SortedOf(s))
  {
    var sorted := SortedOf(s);
    SortedOfSound(s);
    MirrorPermuted(s, sorted);
    forall i, j | 0 <= i < j < |s|
      ensures AtMost(Mirror(sorted)[i], Mirror(sorted)[j])
    {
      assert AtMost(sorted[|s| - 1 - j], sorted[|s| - 1 - i]);
    }
    SortedUnique(Mirror(s), Mirror(sorted));
  }

  lemma MirrorMedian(s: seq<real>)
    requires s != []
    ensures Median(Mirror(s)) == -Median(s)
  {
  }

  lemma MirrorSlices(s: seq<real>, k: nat)
    requires k <= |s|
    ensures Mirror(s)[..k] == Mirror(s[|s| - k..])
    ensures Mirror(s)[k..] == Mirror(s[..|s| - k])
  {
  }

  // The lower half of the mirror image is the mirror image of the upper half, and conversely.
  lemma MirrorHalves(s: seq<real>, upper: nat)
    requires |s| > 1 && upper == |s| - |s| / 2
    ensures Mirror(s)[..|s| / 2] == Mirror(s[upper..])
    ensures Mirror(s)[upper..] == Mirror(s[..|s| / 2])
  {
    MirrorSlices(s, |s| / 2);
    MirrorSlices(s, upper);
  }

  lemma MirrorQuartiles(s: seq<real>)
    requires |s| > 1
    ensures Quartiles(Mirror(s)).0 == -Quartiles(s).1
    ensures Quartiles(Mirror(s)).1 == -Quartiles(s).0
  {
    var half := |s| / 2;
    var upper := |s| - half;
    assert upper == if |s| % 2 == 0 then half else half + 1;
    MirrorHalves(s, upper);
    MirrorMedian(s[..half]);
    MirrorMedian(s[upper..]);
  }

  lemma MirrorIqr(s: seq<real>)
    ensures Iqr(Mirror(s)) == Iqr(s)
  {
    if |s| > 1 {
      MirrorQuartiles(s);
    }
  }

  lemma ScaleByReflected(s: seq<real>, x: real)
    requires s != []
    ensures ScaleBy(Mirror(s), -x) == -ScaleBy(s, x)
  {
    MirrorMedian(s);
    MirrorIqr(s);
  }

  // Turning a metric upside down turns its scaled values upside down: neither side is favoured.
  lemma ScaleReflected(group: seq<real>, x: real)
    ensures ScaleIn(Mirror(group), -x) == -ScaleIn(group, x)
  {
    if group != [] {
      MirrorSorted(group);
      ScaleByReflected(SortedOf(group), x);
    }
  }

  // ---- order -----------------------------------------------------------------------------------------

  lemma MedianWithin(s: seq<real>, lo: real, hi: real)
    requires s != [] && forall x | x in s :: lo <= x <= hi
    ensures lo <= Median(s) <= hi
  {
    var m := |s| / 2;
    assert s[m] in s;
    if |s| % 2 == 0 {
      assert s[m - 1] in s;
    }
  }

  // At least half of the values are at most the median, and at least half are at least it.
  lemma MedianHalves(sorted: seq<real>)
    requires SortedBy(AtMost, sorted) && sorted != []
    ensures forall i | 0 <= i < (|sorted| + 1) / 2 :: sorted[i] <= Median(sorted)
    ensures forall i | |sorted| / 2 <= i < |sorted| :: Median(sorted) <= sorted[i]
  {
    var m := |sorted| / 2;
    forall i, j | 0 <= i <= j < |sorted|
      ensures sorted[i] <= sorted[j]
    {
      assert i < j ==> AtMost(sorted[i], sorted[j]);
    }
    assert |sorted| % 2 == 0 ==> sorted[m - 1] <= Median(sorted) <= sorted[m];
  }

  // The lower half lies below the median and the upper half above it, so Q1 <= median <= Q3.
  lemma QuartilesOrdered(sorted: seq<real>)
    requires SortedBy(AtMost, sorted) && |sorted| > 1
    ensures Quartiles(sorted).0 <= Median(sorted) <= Quartiles(sorted).1
  {
    var n := |sorted|;
    var m := n / 2;
    var upper := if n % 2 == 0 then m else m + 1;
    forall i, j | 0 <= i <= j < n
      ensures sorted[i] <= sorted[j]
    {
      assert i < j ==> AtMost(sorted[i], sorted[j]);
    }
    var below := if n % 2 == 0 then sorted[m - 1] else sorted[m];
    MedianWithin(sorted[..m], sorted[0], below);
    MedianWithin(sorted[upper..], sorted[m], sorted[n - 1]);
  }

  lemma QuotientOrder(x: real, y: real, d: real)
    requires x <= y && d > 0.0
    ensures x / d <= y / d
  {
    assert y / d - x / d == (y - x) / d;
  }

  // Within a metric a larger value is never scaled below a smaller one.
  lemma ScaleMonotone(group: seq<real>, x: real, y: real)
    requires x <= y
    ensures ScaleIn(group, x) <= ScaleIn(group, y)
  {
    var s := SortedOf(group);
    SortedOfSound(group);
    if |s| > 1 && Iqr(s) != 0.0 {
      QuartilesOrdered(s);
      QuotientOrder(x - Median(s), y - Median(s), Iqr(s));
    }
  }

  // The order in which the values were polled is immaterial.
  lemma ScaleOrderFree(group: seq<real>, group': seq<real>, x: real)
    requires multiset(group) == multiset(group')
    ensures ScaleIn(group, x) == ScaleIn(group', x)
  {
    SortedOfSound(group);
    SortedUnique(group', SortedOf(group));
    assert |group| == |multiset(group)| == |multiset(group')| == |group'|;
  }
}
