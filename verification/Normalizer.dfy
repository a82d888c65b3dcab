// Normalize: metric values grouped by metric, scaled within their group, and lifted by an offset.
module Normalizer {
  import opened Common
  import opened Grouping
  import opened Sorting
  import opened RobustScaling

  function Values(metrics: seq<MetricValue>): seq<real> {
    seq(|metrics|, i requires 0 <= i < |metrics| => metrics[i].value)
  }

  function Normalized(all: seq<MetricValue>, m: MetricValue): MetricValue {
    m.(value := ScaleIn(Values(WithId(all, m.id)), m.value))
  }

  function NormalizedAll(all: seq<MetricValue>, metrics: seq<MetricValue>): seq<MetricValue> {
    seq(|metrics|, i requires 0 <= i < |metrics| => Normalized(all, metrics[i]))
  }

  // The metrics of some IDs, normalized against the whole list.
  function NormalizedOf(all: seq<MetricValue>, metrics: seq<MetricValue>, ids: set<string>): seq<MetricValue> {
    if metrics == [] then []
    else
      var n := |metrics| - 1;
      var rest := NormalizedOf(all, metrics[..n], ids);
      if metrics[n].id in ids then rest + [Normalized(all, metrics[n])] else rest
  }

  // Groups are visited in the order of a map, so the result is known up to order.
  ghost predicate NormalizationOf(base: seq<MetricValue>, all: seq<MetricValue>) {
    multiset(base) == multiset(NormalizedOf(all, all, Ids(all)))
  }

  function Least(s: seq<MetricValue>): real
    requires s != []
  {
    if |s| == 1 then s[0].value
    else
      var least := Least(s[..|s| - 1]);
      if s[|s| - 1].value < least then s[|s| - 1].value else least
  }

  function Greatest(s: seq<MetricValue>): real
    requires s != []
  {
    if |s| == 1 then s[0].value
    else
      var greatest := Greatest(s[..|s| - 1]);
      if s[|s| - 1].value > greatest then s[|s| - 1].value else greatest
  }

  function OffsetOver(least: real, greatest: real, e: real): real {
    -least + e * (greatest - least)
  }

  function Offset(s: seq<MetricValue>, e: real): real
    requires s != []
  {
    OffsetOver(Least(s), Greatest(s), e)
  }

  function Shift(s: seq<MetricValue>, offset: real): seq<MetricValue> {
    seq(|s|, i requires 0 <= i < |s| => s[i].(value := s[i].value + offset))
  }

  function WithOffset(base: seq<MetricValue>, e: Option<real>): seq<MetricValue> {
    if e == None || base == [] then base else Shift(base, Offset(base, e.value))
  }

  lemma {:induction false} SplitIds(all: seq<MetricValue>, metrics: seq<MetricValue>, ids: set<string>, id: string)
    requires id !in ids
    ensures multiset(NormalizedOf(all, metrics, ids + {id}))
         == multiset(NormalizedOf(all, metrics, ids)) + multiset(NormalizedOf(all, metrics, {id}))
  {
    if metrics != [] {
      SplitIds(all, metrics[..|metrics| - 1], ids, id);
    }
  }

  method GroupById(all: seq<MetricValue>) returns (metricsById: map<string, seq<MetricValue>>)
    ensures Groups(metricsById, all)
  {
    metricsById := map[];
    for i := 0 to |all|
      invariant Groups(metricsById, all[..i])
    {
      metricsById := AddToGroup(metricsById, all[..i], all[i]);
      assert all[..i + 1] == all[..i] + [all[i]];
    }
    assert all[..|all|] == all;
  }

  method SortValues(metrics: seq<MetricValue>) returns (sorted: seq<real>)
    ensures sorted == SortedOf(Values(metrics))
  {
    var a := new real[|metrics|](i requires 0 <= i < |metrics| => metrics[i].value);
    assert a[..] == Values(metrics);
    AtMostIsTotalPreorder();
    SortArray(a, AtMost);
    sorted := a[..];
    SortedUnique(Values(metrics), sorted);
  }

  method ComputeIqr(sorted: seq<real>) returns (iqr: real)
    ensures iqr == Iqr(sorted)
  {
    iqr := 0.0;
    if |sorted| > 1 {
      var (q1, q3) := Quartiles(sorted);
      iqr := q3 - q1;
    }
  }

  method ScaleValue(ghost metrics: seq<MetricValue>, sorted: seq<real>, iqr: real, x: real) returns (value: real)
    requires metrics != [] && sorted == SortedOf(Values(metrics)) && iqr == Iqr(sorted)
    ensures value == ScaleIn(Values(metrics), x)
  {
    value := if iqr == 0.0 then 0.0 else (x - Median(sorted)) / iqr;
  }

  method ScaleGroup(all: seq<MetricValue>, id: string, metrics: seq<MetricValue>) returns (normalized: seq<MetricValue>)
    requires metrics == WithId(all, id)
    ensures normalized == NormalizedAll(all, metrics)
  {
    var sorted := SortValues(metrics);
    var iqr := ComputeIqr(sorted);
    WithIdHasId(all, id);
    normalized := [];
    for i := 0 to |metrics|
      invariant |normalized| == i
      invariant forall j | 0 <= j < i :: normalized[j] == Normalized(all, metrics[j])
    {
      var value := ScaleValue(metrics, sorted, iqr, metrics[i].value);
      assert metrics[i].id == id;
      normalized := normalized + [metrics[i].(value := value)];
    }
  }

  lemma {:induction false} GroupNormalized(all: seq<MetricValue>, metrics: seq<MetricValue>, id: string)
    ensures NormalizedOf(all, metrics, {id}) == NormalizedAll(all, WithId(metrics, id))
  {
    if metrics != [] {
      GroupNormalized(all, metrics[..|metrics| - 1], id);
    }
  }

  lemma GroupAppended(all: seq<MetricValue>, done: set<string>, id: string,
        normalized: seq<MetricValue>, group: seq<MetricValue>)
    requires id !in done && group == NormalizedAll(all, WithId(all, id))
    requires multiset(normalized) == multiset(NormalizedOf(all, all, done))
    ensures multiset(normalized + group) == multiset(NormalizedOf(all, all, done + {id}))
  {
    GroupNormalized(all, all, id);
    SplitIds(all, all, done, id);
  }

  method ScaleAll(all: seq<MetricValue>) returns (normalized: seq<MetricValue>)
    ensures NormalizationOf(normalized, all)
  {
    var metricsById := GroupById(all);
    normalized := [];
    var pending := metricsById.Keys;
    ghost var done: set<string> := {};
    NoIds(all, all);
    while pending != {}
      invariant done + pending == metricsById.Keys && done !! pending
      invariant multiset(normalized) == multiset(NormalizedOf(all, all, done))
    {
      var id :| id in pending;
      var group := ScaleGroup(all, id, metricsById[id]);
      GroupAppended(all, done, id, normalized, group);
      normalized := normalized + group;
      pending := pending - {id};
      done := done + {id};
    }
    assert done == Ids(all);
  }

  lemma {:induction false} NoIds(all: seq<MetricValue>, metrics: seq<MetricValue>)
    ensures NormalizedOf(all, metrics, {}) == []
  {
    if metrics != [] {
      NoIds(all, metrics[..|metrics| - 1]);
    }
  }

  method AddOffset(base: seq<MetricValue>, e: real) returns (shifted: seq<MetricValue>)
    ensures shifted == WithOffset(base, Some(e))
  {
    shifted := base;
    if base == [] {
      return;
    }
    var minValue, maxValue := base[0].value, base[0].value;
    for i := 1 to |base|
      invariant minValue == Least(base[..i]) && maxValue == Greatest(base[..i])
    {
      assert base[..i + 1][..i] == base[..i];
      if base[i].value < minValue {
        minValue := base[i].value;
      }
      if base[i].value > maxValue {
        maxValue := base[i].value;
      }
    }
    assert base[..|base|] == base;
    shifted := ShiftAll(base, OffsetOver(minValue, maxValue, e));
  }

  method ShiftAll(base: seq<MetricValue>, offset: real) returns (shifted: seq<MetricValue>)
    ensures shifted == Shift(base, offset)
  {
    shifted := base;
    for i := 0 to |base|
      invariant |shifted| == |base|
      invariant forall j | 0 <= j < |base| ::
                  shifted[j] == if j < i then base[j].(value := base[j].value + offset) else base[j]
    {
      shifted := shifted[i := shifted[i].(value := shifted[i].value + offset)];
    }
  }

  // What Normalize may return: some order of the scaled metrics, offset if so configured.
  ghost predicate NormalizedWith(result: seq<MetricValue>, all: seq<MetricValue>, e: Option<real>) {
    exists base :: NormalizationOf(base, all) && result == WithOffset(base, e)
  }

  method Normalize(e: Option<real>, all: seq<MetricValue>) returns (result: seq<MetricValue>)
    ensures NormalizedWith(result, all, e)
  {
    result := ScaleAll(all);
    ghost var base := result;
    if e.Some? {
      result := AddOffset(result, e.value);
    }
    assert result == WithOffset(base, e);
  }

  // ---- over whole lists ------------------------------------------------------------------------------------

  function Rescaled(m: MetricValue, id: string, f: real -> real): MetricValue {
    if m.id == id then m.(value := f(m.value)) else m
  }

  function RescaledAll(all: seq<MetricValue>, id: string, f: real -> real): seq<MetricValue> {
    seq(|all|, i requires 0 <= i < |all| => Rescaled(all[i], id, f))
  }

  lemma ValuesSnoc(metrics: seq<MetricValue>, m: MetricValue, f: real -> real)
    ensures Values(metrics + [m]) == Values(metrics) + [m.value]
    ensures Map(Values(metrics + [m]), f) == Map(Values(metrics), f) + [f(m.value)]
  {
  }

  lemma {:induction false} RescaledGroup(all: seq<MetricValue>, id: string, other: string, f: real -> real)
    ensures Values(WithId(RescaledAll(all, id, f), other))
         == if other == id then Map(Values(WithId(all, id)), f) else Values(WithId(all, other))
  {
    if all != [] {
      var n := |all| - 1;
      RescaledGroup(all[..n], id, other, f);
      assert RescaledAll(all, id, f)[..n] == RescaledAll(all[..n], id, f);
      assert RescaledAll(all, id, f)[n] == Rescaled(all[n], id, f);
      ValuesSnoc(WithId(RescaledAll(all[..n], id, f), other), Rescaled(all[n], id, f), f);
      ValuesSnoc(WithId(all[..n], other), all[n], f);
    }
  }

  lemma MetricInvariant(all: seq<MetricValue>, id: string, a: real, b: real, m: MetricValue)
    requires a > 0.0
    ensures Normalized(RescaledAll(all, id, AffineMap(a, b)), Rescaled(m, id, AffineMap(a, b))) == Normalized(all, m)
  {
    RescaledGroup(all, id, m.id, AffineMap(a, b));
    AffineInvariant(Values(WithId(all, m.id)), a, b, m.value);
  }

  lemma {:induction false} ListInvariant(all: seq<MetricValue>, metrics: seq<MetricValue>, ids: set<string>,
        id: string, a: real, b: real)
    requires a > 0.0
    ensures var f := AffineMap(a, b);
            NormalizedOf(RescaledAll(all, id, f), RescaledAll(metrics, id, f), ids) == NormalizedOf(all, metrics, ids)
  {
    if metrics != [] {
      var n, f := |metrics| - 1, AffineMap(a, b);
      ListInvariant(all, metrics[..n], ids, id, a, b);
      assert RescaledAll(metrics, id, f)[..n] == RescaledAll(metrics[..n], id, f);
      MetricInvariant(all, id, a, b, metrics[n]);
    }
  }

  lemma RescaledIds(all: seq<MetricValue>, id: string, f: real -> real)
    ensures Ids(RescaledAll(all, id, f)) == Ids(all)
  {
    var r := RescaledAll(all, id, f);
    forall i | 0 <= i < |all|
      ensures r[i].id in Ids(all) && all[i].id in Ids(r)
    {
      assert all[i] in all && r[i] in r;
    }
  }

  lemma NormalizationInvariant(all: seq<MetricValue>, base: seq<MetricValue>, id: string, a: real, b: real)
    requires a > 0.0
    ensures NormalizationOf(base, RescaledAll(all, id, AffineMap(a, b))) <==> NormalizationOf(base, all)
  {
    RescaledIds(all, id, AffineMap(a, b));
    ListInvariant(all, all, Ids(all), id, a, b);
  }

  // Changing the unit and the origin of one metric leaves the whole output as it was, with an offset
  // or without.
  lemma NormalizeInvariant(all: seq<MetricValue>, result: seq<MetricValue>, e: Option<real>, id: string,
        a: real, b: real)
    requires a > 0.0
    ensures NormalizedWith(result, RescaledAll(all, id, AffineMap(a, b)), e) <==> NormalizedWith(result, all, e)
  {
    forall base
      ensures NormalizationOf(base, RescaledAll(all, id, AffineMap(a, b))) <==> NormalizationOf(base, all)
    {
      NormalizationInvariant(all, base, id, a, b);
    }
  }

  lemma {:induction false} LeastGreatest(s: seq<MetricValue>)
    requires s != []
    ensures forall m | m in s :: Least(s) <= m.value <= Greatest(s)
    ensures exists m :: m in s && m.value == Least(s)
    ensures exists m :: m in s && m.value == Greatest(s)
  {
    if |s| > 1 {
      var n := |s| - 1;
      LeastGreatest(s[..n]);
      var least :| least in s[..n] && least.value == Least(s[..n]);
      var greatest :| greatest in s[..n] && greatest.value == Greatest(s[..n]);
      assert least in s && greatest in s && s[n] in s;
      assert forall m | m in s :: m in s[..n] || m == s[n];
    }
  }

  // The same metrics with every difference kept, none below the floor and one exactly there.
  ghost predicate LiftedTo(r: seq<MetricValue>, base: seq<MetricValue>, floor: real) {
    && |r| == |base|
    && (forall i, j | 0 <= i < |r| && 0 <= j < |r| :: r[i].value - r[j].value == base[i].value - base[j].value)
    && (forall i | 0 <= i < |r| :: r[i].value >= floor && r[i] == base[i].(value := r[i].value))
    && (exists i :: 0 <= i < |r| && r[i].value == floor)
  }

  lemma ShiftLaws(base: seq<MetricValue>, offset: real, floor: real)
    requires base != [] && floor == Least(base) + offset
    ensures LiftedTo(Shift(base, offset), base, floor)
  {
    LeastGreatest(base);
    var least :| least in base && least.value == Least(base);
    var i :| 0 <= i < |base| && base[i] == least;
    assert Shift(base, offset)[i].value == floor;
    assert forall j | 0 <= j < |base| :: base[j] in base;
  }

  lemma OffsetOf(base: seq<MetricValue>, e: real, floor: real) returns (offset: real)
    requires base != [] && floor == e * (Greatest(base) - Least(base))
    ensures WithOffset(base, Some(e)) == Shift(base, offset) && floor == Least(base) + offset
  {
    offset := Offset(base, e);
  }

  // The offset lifts the least value to exactly e times the spread and keeps every difference.
  lemma OffsetLifts(base: seq<MetricValue>, e: real, floor: real)
    requires base != [] && floor == e * (Greatest(base) - Least(base))
    ensures LiftedTo(WithOffset(base, Some(e)), base, floor)
  {
    var offset := OffsetOf(base, e, floor);
    ShiftLaws(base, offset, floor);
  }

  lemma FloorOf(base: seq<MetricValue>, e: real) returns (floor: real)
    requires base != []
    ensures floor == e * (Greatest(base) - Least(base))
    ensures e >= 0.0 ==> floor >= 0.0
  {
    LeastGreatest(base);
    var spread := Greatest(base) - Least(base);
    assert base[0] in base && spread >= 0.0;
    floor := e * spread;
  }

  // A non-negative offset leaves no value negative.
  lemma OffsetNonNegative(base: seq<MetricValue>, e: real)
    requires e >= 0.0
    ensures forall m | m in WithOffset(base, Some(e)) :: m.value >= 0.0
  {
    if base != [] {
      var floor := FloorOf(base, e);
      OffsetLifts(base, e, floor);
    }
  }
}
