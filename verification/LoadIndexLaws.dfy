// What the load indexes do and do not depend on, and when they are loads a packer can bound.
module LoadIndexLaws {
  import opened Common
  import opened Grouping
  import opened LoadIndexer
  import opened Sorting

  // ---- the order of the metrics -----------------------------------------------------------------------

  lemma {:induction false} OfShardCount(values: seq<MetricValue>, uid: string, m: MetricValue)
    ensures multiset(OfShard(values, uid))[m] == if m.shard.uid == uid then multiset(values)[m] else 0
  {
    if values != [] {
      var n := |values| - 1;
      OfShardCount(values[..n], uid, m);
      assert values == values[..n] + [values[n]];
    }
  }

  // The first metric of a shard in the list is the first of the shard's own.
  lemma {:induction false} FirstOfShard(values: seq<MetricValue>, uid: string, i: nat)
    requires i < |values| && values[i].shard.uid == uid && forall j | 0 <= j < i :: values[j].shard.uid != uid
    ensures OfShard(values, uid) != [] && OfShard(values, uid)[0] == values[i]
  {
    var n := |values| - 1;
    if i < n {
      FirstOfShard(values[..n], uid, i);
    } else {
      NoneOfShard(values[..n], uid);
    }
  }

  lemma {:induction false} NoneOfShard(values: seq<MetricValue>, uid: string)
    requires forall i | 0 <= i < |values| :: values[i].shard.uid != uid
    ensures OfShard(values, uid) == []
  {
    if values != [] {
      NoneOfShard(values[..|values| - 1], uid);
    }
  }

  lemma OfShardPermuted(values: seq<MetricValue>, values': seq<MetricValue>, uid: string)
    requires multiset(values) == multiset(values')
    ensures multiset(OfShard(values, uid)) == multiset(OfShard(values', uid))
  {
    forall m: MetricValue
      ensures multiset(OfShard(values, uid))[m] == multiset(OfShard(values', uid))[m]
    {
      OfShardCount(values, uid, m);
      OfShardCount(values', uid, m);
    }
  }

  lemma WithIdPermuted(metrics: seq<MetricValue>, metrics': seq<MetricValue>, id: string)
    requires multiset(metrics) == multiset(metrics')
    ensures |WithId(metrics, id)| == |WithId(metrics', id)|
  {
    forall m: MetricValue
      ensures multiset(WithId(metrics, id))[m] == multiset(WithId(metrics', id))[m]
    {
      WithIdCount(metrics, id, m);
      WithIdCount(metrics', id, m);
    }
    assert multiset(WithId(metrics, id)) == multiset(WithId(metrics', id));
    assert |multiset(WithId(metrics, id))| == |WithId(metrics, id)|;
    assert |multiset(WithId(metrics', id))| == |WithId(metrics', id)|;
  }

  // What one metric adds to the power sum.
  function Share(norm: Norm, weights: map<string, real>, m: MetricValue): real {
    if m.id in weights then Term(norm, weights[m.id], m.value) else 0.0
  }

  lemma {:induction false} PowerSumWithout(norm: Norm, weights: map<string, real>, metrics: seq<MetricValue>, j: nat)
    requires j < |metrics|
    ensures PowerSum(norm, weights, metrics)
         == PowerSum(norm, weights, Without(metrics, j)) + Share(norm, weights, metrics[j])
  {
    var last := |metrics| - 1;
    if j == last {
      assert Without(metrics, j) == metrics[..last];
    } else {
      PowerSumWithout(norm, weights, metrics[..last], j);
      assert Without(metrics, j)[..last - 1] == Without(metrics[..last], j);
      assert Without(metrics, j)[last - 1] == metrics[last];
    }
  }

  lemma {:induction false} PowerSumPermuted(norm: Norm, weights: map<string, real>,
        metrics: seq<MetricValue>, metrics': seq<MetricValue>)
    requires multiset(metrics) == multiset(metrics')
    ensures PowerSum(norm, weights, metrics) == PowerSum(norm, weights, metrics')
  {
    if metrics == [] {
      assert |metrics'| == |multiset(metrics')| == |multiset(metrics)|;
    } else {
      var j := MatchLast(metrics, metrics');
      PowerSumWithout(norm, weights, metrics', j);
      PowerSumPermuted(norm, weights, metrics[..|metrics| - 1], Without(metrics', j));
    }
  }

  lemma ShardUidsPermuted(values: seq<MetricValue>, values': seq<MetricValue>)
    requires multiset(values) == multiset(values')
    ensures ShardUids(values) == ShardUids(values')
  {
    assert forall m :: m in values <==> m in multiset(values);
    assert forall m :: m in values' <==> m in multiset(values');
  }

  // Reordering the metrics changes neither whether they are complete nor the load index of any shard.
  lemma OrderFree(norm: Norm, weights: map<string, real>, values: seq<MetricValue>, values': seq<MetricValue>)
    requires multiset(values) == multiset(values')
    ensures Complete(values, weights) <==> Complete(values', weights)
    ensures ShardUids(values) == ShardUids(values')
    ensures forall uid :: Index(norm, weights, values, uid) == Index(norm, weights, values', uid)
  {
    ShardUidsPermuted(values, values');
    forall uid: string, id: string
      ensures OncePerShard(values, uid, id) <==> OncePerShard(values', uid, id)
    {
      OfShardPermuted(values, values', uid);
      WithIdPermuted(OfShard(values, uid), OfShard(values', uid), id);
    }
    forall uid: string
      ensures Index(norm, weights, values, uid) == Index(norm, weights, values', uid)
    {
      OfShardPermuted(values, values', uid);
      PowerSumPermuted(norm, weights, OfShard(values, uid), OfShard(values', uid));
    }
  }

  // Two runs over the same metrics in different orders give every shard the same value.
  lemma ResultsAgree(norm: Norm, weights: map<string, real>, values: seq<MetricValue>, values': seq<MetricValue>,
                     r: seq<LoadIndex>, r': seq<LoadIndex>)
    requires multiset(values) == multiset(values')
    requires IndexesOf(r, norm, weights, values) && IndexesOf(r', norm, weights, values')
    ensures (set li | li in r :: li.shard.uid) == (set li | li in r' :: li.shard.uid)
    ensures forall li, li' | li in r && li' in r' && li.shard.uid == li'.shard.uid :: li.value == li'.value
  {
    OrderFree(norm, weights, values, values');
  }

  // ---- one term per weight ------------------------------------------------------------------------------

  // The sum over the weights instead of over the metrics.
  function WeightedSum(norm: Norm, weights: map<string, real>, ids: seq<string>, metrics: seq<MetricValue>): real
    requires forall id | id in ids :: id in weights && |WithId(metrics, id)| == 1
  {
    if ids == [] then 0.0
    else
      var n := |ids| - 1;
      WeightedSum(norm, weights, ids[..n], metrics) + Term(norm, weights[ids[n]], WithId(metrics, ids[n])[0].value)
  }

  lemma {:induction false} SplitWeight(norm: Norm, w: map<string, real>, id: string, metrics: seq<MetricValue>)
    requires id in w
    ensures PowerSum(norm, w, metrics) == PowerSum(norm, w - {id}, metrics) + PowerSum(norm, w, WithId(metrics, id))
  {
    if metrics != [] {
      SplitWeight(norm, w, id, metrics[..|metrics| - 1]);
    }
  }

  lemma {:induction false} NoWeights(norm: Norm, metrics: seq<MetricValue>)
    ensures PowerSum(norm, map[], metrics) == 0.0
  {
    if metrics != [] {
      NoWeights(norm, metrics[..|metrics| - 1]);
    }
  }

  lemma SingleTerm(norm: Norm, w: map<string, real>, id: string, metrics: seq<MetricValue>)
    requires id in w && |WithId(metrics, id)| == 1
    ensures PowerSum(norm, w, WithId(metrics, id)) == Term(norm, w[id], WithId(metrics, id)[0].value)
  {
    WithIdHasId(metrics, id);
    var only := WithId(metrics, id);
    assert only[..0] == [] && only[0] in only;
  }

  // Once the check has passed, every weight enters the sum exactly once and nothing else does.
  lemma {:induction false} EachWeightOnce(norm: Norm, w: map<string, real>, weights: map<string, real>,
        ids: seq<string>, metrics: seq<MetricValue>)
    requires forall id | id in ids :: id in weights && |WithId(metrics, id)| == 1
    requires forall i, j | 0 <= i < j < |ids| :: ids[i] != ids[j]
    requires forall id :: id in w <==> id in ids
    requires forall id | id in w :: w[id] == weights[id]
    ensures PowerSum(norm, w, metrics) == WeightedSum(norm, weights, ids, metrics)
  {
    if ids == [] {
      assert w == map[];
      NoWeights(norm, metrics);
    } else {
      var n := |ids| - 1;
      assert ids[n] in ids;
      assert forall id :: id in ids <==> id in ids[..n] || id == ids[n];
      EachWeightOnce(norm, w - {ids[n]}, weights, ids[..n], metrics);
      SplitWeight(norm, w, ids[n], metrics);
      SingleTerm(norm, w, ids[n], metrics);
    }
  }

  // ---- the sign -------------------------------------------------------------------------------------------

  function Power(x: real, p: nat): real {
    if p == 0 then 1.0 else x * Power(x, p - 1)
  }

  // A positive p, exact powers, and roots that keep non-negative sums non-negative.
  ghost predicate Exact(norm: Norm) {
    && norm.p >= 1
    && (forall x :: norm.pow(x, norm.p) == Power(x, norm.p))
    && (forall s :: s >= 0.0 ==> norm.root(s, norm.p) >= 0.0)
  }

  lemma Square(x: real)
    ensures x * x >= 0.0
  {
    if x < 0.0 {
      assert x * x == (-x) * (-x);
    }
  }

  lemma {:induction false} PowerNonNegative(x: real, p: nat)
    requires x >= 0.0 || p % 2 == 0
    ensures Power(x, p) >= 0.0
  {
    if p > 0 {
      if x >= 0.0 {
        PowerNonNegative(x, p - 1);
      } else {
        PowerNonNegative(x, p - 2);
        Square(x);
        assert Power(x, p) == x * (x * Power(x, p - 2)) == (x * x) * Power(x, p - 2);
      }
    }
  }

  lemma {:induction false} PowerSumNonNegative(norm: Norm, weights: map<string, real>, metrics: seq<MetricValue>)
    requires Exact(norm) && forall id | id in weights :: weights[id] >= 0.0
    requires norm.p % 2 == 0 || forall m | m in metrics :: m.value >= 0.0
    ensures PowerSum(norm, weights, metrics) >= 0.0
  {
    if metrics != [] {
      var last := metrics[|metrics| - 1];
      assert last in metrics;
      PowerSumNonNegative(norm, weights, metrics[..|metrics| - 1]);
      if last.id in weights {
        PowerNonNegative(last.value, norm.p);
      }
    }
  }

  lemma OfShardMembers(values: seq<MetricValue>, uid: string)
    ensures forall m | m in OfShard(values, uid) :: m in values
  {
    forall m | m in OfShard(values, uid)
      ensures m in values
    {
      OfShardCount(values, uid, m);
      assert m in multiset(OfShard(values, uid));
      assert m in multiset(values);
    }
  }

  // Non-negative weights, and non-negative values unless p is even, give non-negative loads.
  lemma IndexesNonNegative(r: seq<LoadIndex>, norm: Norm, weights: map<string, real>, values: seq<MetricValue>)
    requires IndexesOf(r, norm, weights, values)
    requires Exact(norm) && forall id | id in weights :: weights[id] >= 0.0
    requires norm.p % 2 == 0 || forall m | m in values :: m.value >= 0.0
    ensures forall li | li in r :: li.value >= 0.0
  {
    forall li | li in r
      ensures li.value >= 0.0
    {
      var uid := li.shard.uid;
      OfShardMembers(values, uid);
      PowerSumNonNegative(norm, weights, OfShard(values, uid));
    }
  }

  // ---- the norm written out ------------------------------------------------------------------------------------

  // Each weight times the p-th power of the one value of its metric.
  function PlainSum(weights: map<string, real>, p: nat, ids: seq<string>, metrics: seq<MetricValue>): real
    requires forall id | id in ids :: id in weights && |WithId(metrics, id)| == 1
  {
    if ids == [] then 0.0
    else
      var n := |ids| - 1;
      PlainSum(weights, p, ids[..n], metrics) + weights[ids[n]] * Power(WithId(metrics, ids[n])[0].value, p)
  }

  lemma {:induction false} ExactSum(norm: Norm, weights: map<string, real>, ids: seq<string>, metrics: seq<MetricValue>)
    requires forall id | id in ids :: id in weights && |WithId(metrics, id)| == 1
    requires Exact(norm)
    ensures WeightedSum(norm, weights, ids, metrics) == PlainSum(weights, norm.p, ids, metrics)
  {
    if ids != [] {
      var n := |ids| - 1;
      ExactSum(norm, weights, ids[..n], metrics);
      assert norm.pow(WithId(metrics, ids[n])[0].value, norm.p) == Power(WithId(metrics, ids[n])[0].value, norm.p);
    }
  }

  // Every weighted metric of the shard is there, and ids lists the weights once each.
  ghost predicate Listed(weights: map<string, real>, ids: seq<string>, values: seq<MetricValue>, uid: string) {
    && Complete(values, weights) && uid in ShardUids(values)
    && (forall i, j | 0 <= i < j < |ids| :: ids[i] != ids[j])
    && forall id :: id in weights <==> id in ids
  }

  lemma ListedOnce(weights: map<string, real>, ids: seq<string>, values: seq<MetricValue>, uid: string)
    requires Listed(weights, ids, values, uid)
    ensures forall id | id in ids :: id in weights && |WithId(OfShard(values, uid), id)| == 1
  {
    assert forall id | id in ids :: OncePerShard(values, uid, id);
  }

  // For every p >= 1 the load of a shard is the p-th root of its weighted sum of p-th powers, the
  // weights outside the powers.
  lemma NormIndex(norm: Norm, weights: map<string, real>, ids: seq<string>, values: seq<MetricValue>, uid: string)
    requires Exact(norm) && Listed(weights, ids, values, uid)
    ensures forall id | id in ids :: id in weights && |WithId(OfShard(values, uid), id)| == 1
    ensures Index(norm, weights, values, uid) == norm.root(PlainSum(weights, norm.p, ids, OfShard(values, uid)), norm.p)
  {
    ListedOnce(weights, ids, values, uid);
    EachWeightOnce(norm, weights, weights, ids, OfShard(values, uid));
    ExactSum(norm, weights, ids, OfShard(values, uid));
  }

  function LinearSum(weights: map<string, real>, ids: seq<string>, metrics: seq<MetricValue>): real
    requires forall id | id in ids :: id in weights && |WithId(metrics, id)| == 1
  {
    if ids == [] then 0.0
    else
      var n := |ids| - 1;
      LinearSum(weights, ids[..n], metrics) + weights[ids[n]] * WithId(metrics, ids[n])[0].value
  }

  lemma {:induction false} FirstPowers(weights: map<string, real>, ids: seq<string>, metrics: seq<MetricValue>)
    requires forall id | id in ids :: id in weights && |WithId(metrics, id)| == 1
    ensures PlainSum(weights, 1, ids, metrics) == LinearSum(weights, ids, metrics)
  {
    if ids != [] {
      var n := |ids| - 1;
      var x := WithId(metrics, ids[n])[0].value;
      FirstPowers(weights, ids[..n], metrics);
      assert Power(x, 1) == x * Power(x, 0) == x;
    }
  }

  // The shipped default, p = 1: the load of a shard is the plain weighted sum of its metrics.
  lemma LinearIndex(norm: Norm, weights: map<string, real>, ids: seq<string>, values: seq<MetricValue>, uid: string)
    requires norm.p == 1 && Exact(norm) && forall x :: norm.root(x, 1) == x
    requires Listed(weights, ids, values, uid)
    ensures forall id | id in ids :: id in weights && |WithId(OfShard(values, uid), id)| == 1
    ensures Index(norm, weights, values, uid) == LinearSum(weights, ids, OfShard(values, uid))
  {
    NormIndex(norm, weights, ids, values, uid);
    FirstPowers(weights, ids, OfShard(values, uid));
  }

  // ---- one factor for all metrics ---------------------------------------------------------------------------------

  lemma Products(a: real, x: real, b: real, y: real)
    ensures (a * x) * (b * y) == (a * b) * (x * y)
  {
  }

  lemma {:induction false} PowerProduct(a: real, x: real, p: nat)
    ensures Power(a * x, p) == Power(a, p) * Power(x, p)
  {
    if p > 0 {
      PowerProduct(a, x, p - 1);
      Products(a, x, Power(a, p - 1), Power(x, p - 1));
    }
  }

  // A product the solver does not take apart.
  function Product(a: real, x: real): real {
    a * x
  }

  function Enlarged(m: MetricValue, a: real): MetricValue {
    m.(value := Product(a, m.value))
  }

  function Times(values: seq<MetricValue>, a: real): seq<MetricValue> {
    seq(|values|, i requires 0 <= i < |values| => Enlarged(values[i], a))
  }

  lemma TimesSnoc(values: seq<MetricValue>, a: real, n: nat)
    requires |values| == n + 1
    ensures Times(values, a)[..n] == Times(values[..n], a) && Times(values, a)[n] == Enlarged(values[n], a)
    ensures Times(values, a) == Times(values[..n], a) + [Enlarged(values[n], a)]
  {
  }

  lemma TimesAppend(values: seq<MetricValue>, m: MetricValue, a: real)
    ensures Times(values + [m], a) == Times(values, a) + [Enlarged(m, a)]
  {
  }

  lemma {:induction false} OfShardTimes(values: seq<MetricValue>, a: real, uid: string)
    ensures OfShard(Times(values, a), uid) == Times(OfShard(values, uid), a)
  {
    if values != [] {
      var n := |values| - 1;
      OfShardTimes(values[..n], a, uid);
      TimesSnoc(values, a, n);
      TimesAppend(OfShard(values[..n], uid), values[n], a);
    }
  }

  lemma FactorOut(w: real, a: real, x: real, rest: real)
    ensures a * rest + w * (a * x) == a * (rest + w * x)
  {
    assert w * (a * x) == a * (w * x);
  }

  // One metric's part of the sum.
  lemma TermTimes(norm: Norm, w: real, x: real, a: real, rest: real)
    requires Exact(norm)
    ensures Product(Power(a, norm.p), rest) + Term(norm, w, Product(a, x))
         == Product(Power(a, norm.p), rest + Term(norm, w, x))
  {
    PowerProduct(a, x, norm.p);
    FactorOut(w, Power(a, norm.p), Power(x, norm.p), rest);
  }

  lemma {:induction false} PowerSumTimes(norm: Norm, weights: map<string, real>, metrics: seq<MetricValue>, a: real)
    requires Exact(norm)
    ensures PowerSum(norm, weights, Times(metrics, a)) == Product(Power(a, norm.p), PowerSum(norm, weights, metrics))
  {
    if metrics != [] {
      var n := |metrics| - 1;
      PowerSumTimes(norm, weights, metrics[..n], a);
      TimesSnoc(metrics, a, n);
      if metrics[n].id in weights {
        TermTimes(norm, weights[metrics[n].id], metrics[n].value, a, PowerSum(norm, weights, metrics[..n]));
      }
    }
  }

  // The root undoes the power, both ways, where both are non-negative.
  ghost predicate ExactRoot(norm: Norm) {
    && Exact(norm)
    && (forall y :: y >= 0.0 ==> norm.root(Power(y, norm.p), norm.p) == y)
    && (forall s :: s >= 0.0 ==> Power(norm.root(s, norm.p), norm.p) == s)
  }

  lemma ProductOf(a: real, r: real) returns (y: real)
    requires a >= 0.0 && r >= 0.0
    ensures y == Product(a, r) == a * r && y >= 0.0
  {
    y := a * r;
  }

  lemma RootTimes(norm: Norm, a: real, s: real)
    requires ExactRoot(norm) && a >= 0.0 && s >= 0.0
    ensures norm.root(Product(Power(a, norm.p), s), norm.p) == Product(a, norm.root(s, norm.p))
  {
    var r := norm.root(s, norm.p);
    assert Power(r, norm.p) == s && r >= 0.0;
    var y := ProductOf(a, r);
    PowerProduct(a, r, norm.p);
    assert Power(y, norm.p) == Product(Power(a, norm.p), s);
  }

  // A norm: multiplying every metric by one factor multiplies every load by it.
  lemma Homogeneous(norm: Norm, weights: map<string, real>, values: seq<MetricValue>, uid: string, a: real)
    requires ExactRoot(norm) && a >= 0.0 && forall id | id in weights :: weights[id] >= 0.0
    requires norm.p % 2 == 0 || forall m | m in values :: m.value >= 0.0
    ensures Index(norm, weights, Times(values, a), uid) == a * Index(norm, weights, values, uid)
  {
    var metrics := OfShard(values, uid);
    OfShardTimes(values, a, uid);
    OfShardMembers(values, uid);
    PowerSumNonNegative(norm, weights, metrics);
    PowerSumTimes(norm, weights, metrics, a);
    RootTimes(norm, a, PowerSum(norm, weights, metrics));
  }
}
