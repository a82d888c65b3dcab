// The links of the pipeline: from polled metrics to shard numbers that name a replica.
module Pipeline {
  import opened Common
  import opened Serialization
  import opened Grouping
  import opened Partitioner
  import opened Packing
  import opened ShardManager
  import opened Scaler
  import Normalizer
  import LoadIndexer
  import LoadIndexLaws
  import Strconv
  import XZeroY

  // ---- normalizing keeps the labels ---------------------------------------------------------------------

  // The same metrics of the same shards, whatever their values.
  ghost predicate SameLabels(s: seq<MetricValue>, t: seq<MetricValue>) {
    && |s| == |t|
    && forall i | 0 <= i < |s| :: s[i].id == t[i].id && s[i].shard == t[i].shard && s[i].query == t[i].query
  }

  lemma {:induction false} LabelsOfShard(s: seq<MetricValue>, t: seq<MetricValue>, uid: string)
    requires SameLabels(s, t)
    ensures SameLabels(LoadIndexer.OfShard(s, uid), LoadIndexer.OfShard(t, uid))
  {
    if s != [] {
      LabelsOfShard(s[..|s| - 1], t[..|t| - 1], uid);
    }
  }

  lemma {:induction false} LabelsWithId(s: seq<MetricValue>, t: seq<MetricValue>, id: string)
    requires SameLabels(s, t)
    ensures |WithId(s, id)| == |WithId(t, id)|
  {
    if s != [] {
      LabelsWithId(s[..|s| - 1], t[..|t| - 1], id);
    }
  }

  lemma LabelsUids(s: seq<MetricValue>, t: seq<MetricValue>)
    requires SameLabels(s, t)
    ensures LoadIndexer.ShardUids(s) == LoadIndexer.ShardUids(t)
  {
    forall i | 0 <= i < |s|
      ensures s[i].shard.uid in LoadIndexer.ShardUids(t) && t[i].shard.uid in LoadIndexer.ShardUids(s)
    {
      assert s[i] in s && t[i] in t;
    }
  }

  lemma LabelsComplete(s: seq<MetricValue>, t: seq<MetricValue>, weights: map<string, real>)
    requires SameLabels(s, t)
    ensures LoadIndexer.Complete(s, weights) <==> LoadIndexer.Complete(t, weights)
  {
    LabelsUids(s, t);
    forall uid: string, id: string
      ensures LoadIndexer.OncePerShard(s, uid, id) <==> LoadIndexer.OncePerShard(t, uid, id)
    {
      LabelsOfShard(s, t, uid);
      LabelsWithId(LoadIndexer.OfShard(s, uid), LoadIndexer.OfShard(t, uid), id);
    }
  }

  lemma SnocLabels(s: seq<MetricValue>, t: seq<MetricValue>, x: MetricValue, y: MetricValue)
    requires SameLabels(s, t) && x == y.(value := x.value)
    ensures SameLabels(s + [x], t + [y])
  {
  }

  lemma {:induction false} EveryIdKept(all: seq<MetricValue>, metrics: seq<MetricValue>, ids: set<string>)
    requires forall m | m in metrics :: m.id in ids
    ensures SameLabels(Normalizer.NormalizedOf(all, metrics, ids), metrics)
  {
    if metrics != [] {
      var n := |metrics| - 1;
      assert metrics[n] in metrics;
      EveryIdKept(all, metrics[..n], ids);
      SnocLabels(Normalizer.NormalizedOf(all, metrics[..n], ids), metrics[..n],
                 Normalizer.Normalized(all, metrics[n]), metrics[n]);
      assert metrics == metrics[..n] + [metrics[n]];
    }
  }

  lemma NormalizationKeepsLabels(all: seq<MetricValue>, base: seq<MetricValue>, weights: map<string, real>)
    requires Normalizer.NormalizationOf(base, all)
    ensures LoadIndexer.ShardUids(base) == LoadIndexer.ShardUids(all)
    ensures LoadIndexer.Complete(base, weights) <==> LoadIndexer.Complete(all, weights)
  {
    var plain := Normalizer.NormalizedOf(all, all, Ids(all));
    var norm := LoadIndexer.Norm(1, (x, p) => x, (x, p) => x);
    EveryIdKept(all, all, Ids(all));
    LabelsUids(plain, all);
    LabelsComplete(plain, all, weights);
    LoadIndexLaws.OrderFree(norm, weights, base, plain);
  }

  // Normalizing loses no metric and no shard, so the load indexer accepts the normalized metrics
  // exactly when it would have accepted the polled ones.
  lemma NormalizingKeepsLabels(all: seq<MetricValue>, e: Option<real>, metrics: seq<MetricValue>,
        weights: map<string, real>)
    requires Normalizer.NormalizedWith(metrics, all, e)
    ensures LoadIndexer.ShardUids(metrics) == LoadIndexer.ShardUids(all)
    ensures LoadIndexer.Complete(metrics, weights) <==> LoadIndexer.Complete(all, weights)
  {
    var base :| Normalizer.NormalizationOf(base, all) && metrics == Normalizer.WithOffset(base, e);
    NormalizationKeepsLabels(all, base, weights);
    LabelsUids(metrics, base);
    LabelsComplete(metrics, base, weights);
  }

  // ---- from metrics to a partition -----------------------------------------------------------------------

  // A non-negative offset and non-negative weights supply what the packing bounds ask for.
  lemma LoadsNonNegative(all: seq<MetricValue>, e: real, metrics: seq<MetricValue>, norm: LoadIndexer.Norm,
                         weights: map<string, real>, loads: seq<LoadIndex>)
    requires Normalizer.NormalizedWith(metrics, all, Some(e))
    requires LoadIndexer.IndexesOf(loads, norm, weights, metrics)
    requires e >= 0.0 && LoadIndexLaws.Exact(norm) && forall id | id in weights :: weights[id] >= 0.0
    ensures NonNegative(loads) && DistinctUids(loads)
  {
    var base :| Normalizer.NormalizationOf(base, all) && metrics == Normalizer.WithOffset(base, Some(e));
    Normalizer.OffsetNonNegative(base, e);
    LoadIndexLaws.IndexesNonNegative(loads, norm, weights, metrics);
  }

  lemma {:induction false} FlattenDenoted(list: ReplicaList)
    ensures Denote(list).Keys == Uids(Flatten(list))
  {
    if list != [] {
      var n := |list| - 1;
      FlattenDenoted(list[..n]);
      UidsAppend(Flatten(list[..n]), list[n].loadIndexes);
    }
  }

  lemma UidsAppend(s: seq<LoadIndex>, t: seq<LoadIndex>)
    ensures Uids(s + t) == Uids(s) + Uids(t)
  {
    assert forall li :: li in s + t <==> li in s || li in t;
  }

  lemma PermutedUids(s: seq<LoadIndex>, t: seq<LoadIndex>)
    requires multiset(s) == multiset(t)
    ensures Uids(s) == Uids(t)
  {
    assert forall li :: li in s <==> li in multiset(s);
    assert forall li :: li in t <==> li in multiset(t);
  }

  // Exactly the shards for which anything was polled are assigned, each to one replica.
  lemma PolledShardsAssigned(all: seq<MetricValue>, e: Option<real>, metrics: seq<MetricValue>, norm: LoadIndexer.Norm,
                             weights: map<string, real>, loads: seq<LoadIndex>,
                             desc: seq<LoadIndex>, max: int, list: ReplicaList)
    requires Normalizer.NormalizedWith(metrics, all, e)
    requires LoadIndexer.IndexesOf(loads, norm, weights, metrics)
    requires PartitionOf(list, desc, loads, max)
    ensures Denote(list).Keys == LoadIndexer.ShardUids(all)
    ensures DistinctUids(Flatten(list))
    ensures forall uid, id :: Assigns(list, uid, id) <==> uid in Denote(list) && Denote(list)[uid] == id
  {
    NormalizingKeepsLabels(all, e, metrics, weights);
    PartitionSound(list, desc, loads, max);
    PartitionUids(list, desc, loads, max);
    FlattenDenoted(list);
    PermutedUids(Flatten(list), loads);
    forall uid, id
      ensures Assigns(list, uid, id) <==> uid in Denote(list) && Denote(list)[uid] == id
    {
      AssignsIffDenoted(list, uid, id);
    }
  }

  lemma MemberFlattened(list: ReplicaList, r: Replica, li: LoadIndex)
    requires r in list && li in r.loadIndexes
    ensures li in Flatten(list)
  {
    var i :| 0 <= i < |list| && list[i] == r;
    var j :| 0 <= j < |r.loadIndexes| && r.loadIndexes[j] == li;
    var p := FlattenIndex(list, i, j);
  }

  // What the partitioner returns is a partition the scaler's comparisons can be trusted with.
  lemma PartitionWellFormed(list: ReplicaList, desc: seq<LoadIndex>, input: seq<LoadIndex>, max: int)
    requires PartitionOf(list, desc, input, max) && DistinctUids(input) && |list| <= 0x8000_0000
    requires forall li | li in input :: Clean(li.shard.uid)
    ensures WellFormed(list)
  {
    PartitionSound(list, desc, input, max);
    PartitionUids(list, desc, input, max);
    forall r, li | r in list && li in r.loadIndexes
      ensures Clean(li.shard.uid)
    {
      MemberFlattened(list, r, li);
      assert li in multiset(Flatten(list));
    }
  }

  // ---- from a partition to shard numbers -------------------------------------------------------------------

  // In either mode: once the shard manager has applied its spec and everything agrees, every listed
  // secret names the replica it is listed under, one of those the StatefulSet runs, exactly when it did
  // not start out with an alias of that number.
  lemma AppliedShardsExist(c: Settings, w: World, f: Faults, i: nat)
    requires CanonicalKey(c.key) && WellFormed(w.partition) && WellFormed(w.manager.spec)
    requires Succeeds(w.manager, f)
    requires Agreement(c, w.(manager := ManagerStep(w.manager, f)))
    requires i < |w.manager.secrets| && w.manager.secrets[i].uid in Denote(w.partition)
    ensures var before, after := w.manager.secrets[i], ManagerStep(w.manager, f).secrets[i];
            && after.uid == before.uid && after.shard.Some? && Strconv.Atoi(after.shard.value).Some?
            && var n := Strconv.Atoi(after.shard.value).value;
               && (0 <= n < w.sts.statusReplicas <==> !Aliased(Denote(w.partition), before))
               && (n == Denote(w.partition)[after.uid] <==> !Aliased(Denote(w.partition), before))
    ensures w.sts.specReplicas == Some(w.sts.statusReplicas)
  {
    var w', m := w.(manager := ManagerStep(w.manager, f)), Denote(w.manager.spec);
    StepApplies(w.manager, f);
    DenoteInt32(w.manager.spec);
    AppliedIsQuiet(m, w.manager.secrets, w'.manager.secrets);
    assert KeyAgrees(c.key, w.partition, w.manager.spec);
    DesiredAgrees(m, w.manager.secrets[i]);
    XZeroY.ReadyShardsExist(c, w', w'.manager.secrets[i]);
  }
}
