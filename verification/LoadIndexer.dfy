// Calculate: the weighted p-norm of every shard's metrics.
module LoadIndexer {
  import opened Common
  import opened Grouping

  // Floating-point powers and roots, as far as the code calls them: pow(x, p) and the p-th root.
  datatype Norm = Norm(p: int, pow: (real, int) -> real, root: (real, int) -> real)

  function Term(norm: Norm, weight: real, value: real): real {
    weight * norm.pow(value, norm.p)
  }

  // Metrics without a weight are skipped.
  function PowerSum(norm: Norm, weights: map<string, real>, metrics: seq<MetricValue>): real {
    if metrics == [] then 0.0
    else
      var n := |metrics| - 1;
      var rest := PowerSum(norm, weights, metrics[..n]);
      if metrics[n].id in weights then rest + Term(norm, weights[metrics[n].id], metrics[n].value) else rest
  }

  function OfShard(values: seq<MetricValue>, uid: string): seq<MetricValue> {
    if values == [] then []
    else
      var n := |values| - 1;
      if values[n].shard.uid == uid then OfShard(values[..n], uid) + [values[n]] else OfShard(values[..n], uid)
  }

  function ShardUids(values: seq<MetricValue>): set<string> {
    set m | m in values :: m.shard.uid
  }

  ghost predicate OncePerShard(values: seq<MetricValue>, uid: string, id: string) {
    |WithId(OfShard(values, uid), id)| == 1
  }

  // Every shard has every weighted metric exactly once.
  ghost predicate Complete(values: seq<MetricValue>, weights: map<string, real>) {
    forall uid, id | uid in ShardUids(values) && id in weights :: OncePerShard(values, uid, id)
  }

  function Index(norm: Norm, weights: map<string, real>, values: seq<MetricValue>, uid: string): real {
    norm.root(PowerSum(norm, weights, OfShard(values, uid)), norm.p)
  }

  // One load index for each of some shard UIDs, in any order, with the shard as it was first seen.
  ghost predicate IndexesFor(result: seq<LoadIndex>, norm: Norm, weights: map<string, real>,
                             values: seq<MetricValue>, uids: set<string>) {
    && DistinctUids(result)
    && (set li | li in result :: li.shard.uid) == uids
    && forall li | li in result ::
         && OfShard(values, li.shard.uid) != []
         && li.shard == OfShard(values, li.shard.uid)[0].shard
         && li.value == Index(norm, weights, values, li.shard.uid)
  }

  ghost predicate IndexesOf(result: seq<LoadIndex>, norm: Norm, weights: map<string, real>, values: seq<MetricValue>) {
    IndexesFor(result, norm, weights, values, ShardUids(values))
  }

  // ---- the loops ---------------------------------------------------------------------------------------

  type ByShard = map<string, seq<MetricValue>>

  type ByShardById = map<string, map<string, seq<MetricValue>>>

  ghost predicate GroupedById(byShardById: ByShardById, values: seq<MetricValue>) {
    && byShardById.Keys == ShardUids(values)
    && forall uid | uid in byShardById :: Groups(byShardById[uid], OfShard(values, uid))
  }

  ghost predicate GroupedByShard(byShard: ByShard, values: seq<MetricValue>) {
    && byShard.Keys == ShardUids(values)
    && forall uid | uid in byShard :: byShard[uid] == OfShard(values, uid)
  }

  ghost predicate FirstSeen(shards: map<string, Shard>, values: seq<MetricValue>) {
    && shards.Keys == ShardUids(values)
    && forall uid | uid in shards :: OfShard(values, uid) != [] && shards[uid] == OfShard(values, uid)[0].shard
  }

  lemma {:induction false} NotSeen(values: seq<MetricValue>, uid: string)
    requires uid !in ShardUids(values)
    ensures OfShard(values, uid) == []
  {
    if values != [] {
      var n := |values| - 1;
      assert values[n] in values;
      assert forall m | m in values[..n] :: m in values;
      NotSeen(values[..n], uid);
    }
  }

  lemma {:induction false} OfShardHasUid(values: seq<MetricValue>, uid: string)
    ensures forall m | m in OfShard(values, uid) :: m.shard.uid == uid
  {
    if values != [] {
      OfShardHasUid(values[..|values| - 1], uid);
    }
  }

  lemma FirstSeenUid(shards: map<string, Shard>, values: seq<MetricValue>, uid: string)
    requires FirstSeen(shards, values) && uid in shards
    ensures shards[uid].uid == uid && OfShard(values, uid) != [] && shards[uid] == OfShard(values, uid)[0].shard
  {
    OfShardHasUid(values, uid);
  }

  lemma ShardSnoc(values: seq<MetricValue>, m: MetricValue)
    ensures ShardUids(values + [m]) == ShardUids(values) + {m.shard.uid}
    ensures forall uid :: OfShard(values + [m], uid)
                       == if uid == m.shard.uid then OfShard(values, uid) + [m] else OfShard(values, uid)
  {
    assert (values + [m])[..|values|] == values;
  }

  method AddById(byShardById: ByShardById, ghost values: seq<MetricValue>, m: MetricValue)
    returns (byShardById': ByShardById)
    requires GroupedById(byShardById, values)
    ensures GroupedById(byShardById', values + [m])
  {
    var uid := m.shard.uid;
    byShardById' := byShardById;
    ShardSnoc(values, m);
    if uid !in byShardById' {
      NotSeen(values, uid);
      byShardById' := byShardById'[uid := map[]];
    }
    var byId := AddToGroup(byShardById'[uid], OfShard(values, uid), m);
    byShardById' := byShardById'[uid := byId];
  }

  method AddByShard(byShard: ByShard, ghost values: seq<MetricValue>, m: MetricValue) returns (byShard': ByShard)
    requires GroupedByShard(byShard, values)
    ensures GroupedByShard(byShard', values + [m])
  {
    var uid := m.shard.uid;
    byShard' := byShard;
    ShardSnoc(values, m);
    if uid !in byShard' {
      NotSeen(values, uid);
      byShard' := byShard'[uid := []];
    }
    byShard' := byShard'[uid := byShard'[uid] + [m]];
  }

  method AddShard(shards: map<string, Shard>, ghost values: seq<MetricValue>, m: MetricValue)
    returns (shards': map<string, Shard>)
    requires FirstSeen(shards, values)
    ensures FirstSeen(shards', values + [m])
  {
    var uid := m.shard.uid;
    shards' := shards;
    ShardSnoc(values, m);
    if uid !in shards' {
      NotSeen(values, uid);
      shards' := shards'[uid := m.shard];
    }
  }

  method GroupByShard(values: seq<MetricValue>)
    returns (byShardById: ByShardById, byShard: ByShard, shards: map<string, Shard>)
    ensures GroupedById(byShardById, values) && GroupedByShard(byShard, values) && FirstSeen(shards, values)
  {
    byShardById, byShard, shards := map[], map[], map[];
    for i := 0 to |values|
      invariant GroupedById(byShardById, values[..i])
      invariant GroupedByShard(byShard, values[..i])
      invariant FirstSeen(shards, values[..i])
    {
      byShardById := AddById(byShardById, values[..i], values[i]);
      byShard := AddByShard(byShard, values[..i], values[i]);
      shards := AddShard(shards, values[..i], values[i]);
      assert values[..i + 1] == values[..i] + [values[i]];
    }
    assert values[..|values|] == values;
  }

  method CheckShard(byId: map<string, seq<MetricValue>>, weights: map<string, real>, ghost metrics: seq<MetricValue>)
    returns (ok: bool)
    requires Groups(byId, metrics)
    ensures ok <==> forall id | id in weights :: |WithId(metrics, id)| == 1
  {
    var pending := weights.Keys;
    while pending != {}
      invariant pending <= weights.Keys
      invariant forall id | id in weights && id !in pending :: |WithId(metrics, id)| == 1
    {
      var id :| id in pending;
      if id !in byId {
        NotThere(metrics, id);
        return false;
      }
      if |byId[id]| != 1 {
        return false;
      }
      pending := pending - {id};
    }
    return true;
  }

  method Check(byShardById: ByShardById, weights: map<string, real>, ghost values: seq<MetricValue>) returns (ok: bool)
    requires GroupedById(byShardById, values)
    ensures ok <==> Complete(values, weights)
  {
    var pending := byShardById.Keys;
    while pending != {}
      invariant pending <= byShardById.Keys
      invariant forall uid, id | uid in byShardById && uid !in pending && id in weights :: OncePerShard(values, uid, id)
    {
      var uid :| uid in pending;
      ok := CheckShard(byShardById[uid], weights, OfShard(values, uid));
      if !ok {
        assert exists id :: id in weights && !OncePerShard(values, uid, id);
        return false;
      }
      pending := pending - {uid};
    }
    return true;
  }

  method LoadIndexOf(norm: Norm, weights: map<string, real>, values: seq<MetricValue>) returns (index: real)
    ensures index == norm.root(PowerSum(norm, weights, values), norm.p)
  {
    var sum := 0.0;
    for i := 0 to |values|
      invariant sum == PowerSum(norm, weights, values[..i])
    {
      assert values[..i + 1][..i] == values[..i];
      if values[i].id !in weights {
        continue;
      }
      sum := sum + weights[values[i].id] * norm.pow(values[i].value, norm.p);
    }
    assert values[..|values|] == values;
    index := norm.root(sum, norm.p);
  }

  lemma IndexAppended(result: seq<LoadIndex>, norm: Norm, weights: map<string, real>, values: seq<MetricValue>,
                      uids: set<string>, li: LoadIndex)
    requires IndexesFor(result, norm, weights, values, uids) && li.shard.uid !in uids
    requires OfShard(values, li.shard.uid) != [] && li.shard == OfShard(values, li.shard.uid)[0].shard
    requires li.value == Index(norm, weights, values, li.shard.uid)
    ensures IndexesFor(result + [li], norm, weights, values, uids + {li.shard.uid})
  {
    var result' := result + [li];
    assert li in result';
    assert forall x :: x in result' <==> x in result || x == li;
    forall i | 0 <= i < |result|
      ensures result[i].shard.uid != li.shard.uid
    {
      assert result[i] in result;
    }
  }

  method IndexAll(norm: Norm, weights: map<string, real>, byShard: ByShard, shards: map<string, Shard>,
                  ghost values: seq<MetricValue>)
    returns (result: seq<LoadIndex>)
    requires GroupedByShard(byShard, values) && FirstSeen(shards, values)
    ensures IndexesOf(result, norm, weights, values)
  {
    result := [];
    var pending := byShard.Keys;
    ghost var done: set<string> := {};
    while pending != {}
      invariant done + pending == byShard.Keys && done !! pending
      invariant IndexesFor(result, norm, weights, values, done)
    {
      var uid :| uid in pending;
      var index := LoadIndexOf(norm, weights, byShard[uid]);
      FirstSeenUid(shards, values, uid);
      var li := LoadIndex(shards[uid], index);
      IndexAppended(result, norm, weights, values, done, li);
      result := result + [li];
      pending := pending - {uid};
      done := done + {uid};
    }
    assert done == ShardUids(values);
  }

  method Calculate(norm: Norm, weights: map<string, real>, values: seq<MetricValue>) returns (r: Option<seq<LoadIndex>>)
    ensures r.Some? <==> Complete(values, weights)
    ensures r.Some? ==> IndexesOf(r.value, norm, weights, values)
  {
    var byShardById, byShard, shards := GroupByShard(values);
    var ok := Check(byShardById, weights, values);
    if !ok {
      return None;
    }
    var result := IndexAll(norm, weights, byShard, shards, values);
    return Some(result);
  }
}
