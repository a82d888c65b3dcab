// What the greedy packing guarantees.
module Packing {
  import opened Common
  import opened Sorting
  import opened Partitioner

  // ---- sums -------------------------------------------------------------------------------------

  function SumLoads(s: seq<LoadIndex>): real {
    if s == [] then 0.0 else SumLoads(s[..|s| - 1]) + s[|s| - 1].value
  }

  lemma {:induction false} SumAppend(s: seq<LoadIndex>, t: seq<LoadIndex>)
    ensures SumLoads(s + t) == SumLoads(s) + SumLoads(t)
  {
    if t == [] {
      assert s + t == s;
    } else {
      SumAppend(s, t[..|t| - 1]);
      assert (s + t)[..|s + t| - 1] == s + t[..|t| - 1];
    }
  }

  lemma Snoc<T>(s: seq<T>)
    requires s != []
    ensures multiset(s) == multiset(s[..|s| - 1]) + multiset{s[|s| - 1]}
  {
    assert s == s[..|s| - 1] + [s[|s| - 1]];
  }

  lemma {:induction false} SumWithout(t: seq<LoadIndex>, j: nat)
    requires j < |t|
    ensures SumLoads(t) == SumLoads(Without(t, j)) + t[j].value
  {
    var last := |t| - 1;
    if j == last {
      assert Without(t, j) == t[..last];
    } else {
      SumWithout(t[..last], j);
      assert Without(t, j)[..last - 1] == Without(t[..last], j);
    }
  }

  lemma {:induction false} SumPermutation(s: seq<LoadIndex>, t: seq<LoadIndex>)
    requires multiset(s) == multiset(t)
    ensures SumLoads(s) == SumLoads(t)
  {
    if s == [] {
      assert |t| == |multiset(t)| == |multiset(s)|;
    } else {
      var j := MatchLast(s, t);
      SumWithout(t, j);
      SumPermutation(s[..|s| - 1], Without(t, j));
    }
  }

  lemma {:induction false} SumNonNegative(s: seq<LoadIndex>)
    requires NonNegative(s)
    ensures SumLoads(s) >= 0.0
    ensures forall li | li in s :: li.value <= SumLoads(s)
  {
    if s != [] {
      SumNonNegative(s[..|s| - 1]);
      assert s == s[..|s| - 1] + [s[|s| - 1]];
    }
  }

  // ---- conservation -----------------------------------------------------------------------------

  ghost predicate Tallied(list: ReplicaList, max: int) {
    forall i | 0 <= i < |list| ::
      && list[i].totalLoad == SumLoads(list[i].loadIndexes)
      && (max > 0 ==> |list[i].loadIndexes| <= max)
  }

  lemma SplitUpdate<T>(s: seq<T>, x: nat, t: T)
    requires x < |s|
    ensures s == s[..|s| - 1] + [s[|s| - 1]]
    ensures s[x := t] == if x == |s| - 1 then s[..|s| - 1] + [t] else s[..|s| - 1][x := t] + [s[|s| - 1]]
  {
  }

  lemma {:induction false} FlattenGrow(list: ReplicaList, x: nat, r: Replica, shard: LoadIndex)
    requires x < |list| && r.loadIndexes == list[x].loadIndexes + [shard]
    ensures multiset(Flatten(list[x := r])) == multiset(Flatten(list)) + multiset{shard}
  {
    var init, last := list[..|list| - 1], list[|list| - 1];
    SplitUpdate(list, x, r);
    FlattenLast(init, last);
    if x == |list| - 1 {
      FlattenLast(init, r);
    } else {
      FlattenGrow(init, x, r, shard);
      FlattenLast(init[x := r], last);
    }
  }

  lemma FlattenLast(init: ReplicaList, last: Replica)
    ensures multiset(Flatten(init + [last])) == multiset(Flatten(init)) + multiset(last.loadIndexes)
  {
    assert (init + [last])[..|init|] == init;
  }

  lemma PlaceFlattens(list: ReplicaList, shard: LoadIndex, bucket: real, max: int)
    ensures multiset(Flatten(Place(list, shard, bucket, max))) == multiset(Flatten(list)) + multiset{shard}
  {
    var x := Select(list, shard, bucket, max);
    if x < 0 {
      FlattenLast(list, Replica(|list|, [shard], shard.value));
    } else {
      FlattenGrow(list, x, Place(list, shard, bucket, max)[x], shard);
    }
  }

  lemma PlaceSound(list: ReplicaList, shard: LoadIndex, bucket: real, max: int)
    requires Numbered(list) && Tallied(list, max)
    ensures Numbered(Place(list, shard, bucket, max)) && Tallied(Place(list, shard, bucket, max), max)
  {
    var x := Select(list, shard, bucket, max);
    assert SumLoads([shard]) == shard.value by { assert [shard][..0] == []; }
    if x >= 0 {
      SumAppend(list[x].loadIndexes, [shard]);
    }
  }

  lemma {:induction false} PackSound(shards: seq<LoadIndex>, bucket: real, max: int)
    ensures Numbered(Pack(shards, bucket, max)) && Tallied(Pack(shards, bucket, max), max)
    ensures multiset(Flatten(Pack(shards, bucket, max))) == multiset(shards)
  {
    if shards != [] {
      var n := |shards| - 1;
      PackSound(shards[..n], bucket, max);
      PlaceSound(Pack(shards[..n], bucket, max), shards[n], bucket, max);
      PlaceFlattens(Pack(shards[..n], bucket, max), shards[n], bucket, max);
      Snoc(shards);
    }
  }

  lemma PartitionPacks(list: ReplicaList, desc: seq<LoadIndex>, input: seq<LoadIndex>, max: int)
    returns (shards: seq<LoadIndex>, b: real)
    requires PartitionOf(list, desc, input, max)
    ensures list == Pack(shards, b, max)
    ensures multiset(shards) == multiset(input)
    ensures input != [] ==> Heaviest(b, input)
  {
    shards, b := Lift(desc), Bucket(desc);
    LiftShape(desc, input);
    if input != [] {
      BucketIsHeaviest(desc, input);
    }
  }

  lemma PartitionPacksInto(list: ReplicaList, desc: seq<LoadIndex>, input: seq<LoadIndex>, max: int, b: real)
    returns (shards: seq<LoadIndex>)
    requires PartitionOf(list, desc, input, max) && Heaviest(b, input)
    ensures list == Pack(shards, b, max)
    ensures forall li :: li in shards <==> li in input
  {
    var b';
    shards, b' := PartitionPacks(list, desc, input, max);
    HeaviestUnique(b, b', input);
    assert forall li :: li in shards <==> li in multiset(shards);
    assert forall li :: li in input <==> li in multiset(input);
  }

  lemma HeaviestUnique(b: real, c: real, s: seq<LoadIndex>)
    requires Heaviest(b, s) && (s != [] ==> Heaviest(c, s))
    ensures b == c && s != []
  {
    var h :| h in s && h.value == b;
    var g :| g in s && g.value == c;
  }

  // Nothing is lost, duplicated or misplaced: IDs are 0..k-1, no replica is empty or over the
  // cap, totals are exact, and together the replicas hold exactly the input.
  lemma PartitionSound(list: ReplicaList, desc: seq<LoadIndex>, input: seq<LoadIndex>, max: int)
    requires PartitionOf(list, desc, input, max)
    ensures Numbered(list) && Tallied(list, max)
    ensures multiset(Flatten(list)) == multiset(input)
  {
    var shards, b := PartitionPacks(list, desc, input, max);
    PackSound(shards, b, max);
  }

  lemma PartitionUids(list: ReplicaList, desc: seq<LoadIndex>, input: seq<LoadIndex>, max: int)
    requires PartitionOf(list, desc, input, max) && DistinctUids(input)
    ensures DistinctUids(Flatten(list))
  {
    PartitionSound(list, desc, input, max);
    DistinctPermutation(Flatten(list), input);
  }

  lemma {:induction false} DistinctPermutation(s: seq<LoadIndex>, t: seq<LoadIndex>)
    requires multiset(s) == multiset(t) && DistinctUids(t)
    ensures DistinctUids(s)
  {
    if s != [] {
      var n := |s| - 1;
      var j := MatchLast(s, t);
      DistinctPermutation(s[..n], Without(t, j));
      forall i | 0 <= i < n
        ensures s[i].shard.uid != s[n].shard.uid
      {
        assert s[..n][i] in multiset(s[..n]);
        assert s[i] in Without(t, j);
      }
    }
  }

  // ---- makespan ---------------------------------------------------------------------------------

  // The first shard packed opens replica 0.
  lemma {:induction false} PackOpens(shards: seq<LoadIndex>, bucket: real, max: int)
    requires shards != []
    ensures var list := Pack(shards, bucket, max);
            list != [] && list[0].loadIndexes != [] && list[0].loadIndexes[0] == shards[0]
  {
    var n := |shards| - 1;
    if n == 0 {
      assert Pack(shards[..0], bucket, max) == [];
    } else {
      PackOpens(shards[..n], bucket, max);
    }
  }

  // A sole in-cluster shard opens replica 0 exactly when the search finds it or it is the heaviest.
  lemma InClusterOpensIff(list: ReplicaList, desc: seq<LoadIndex>, input: seq<LoadIndex>, max: int, x: nat)
    requires PartitionOf(list, desc, input, max) && SoleInCluster(desc, x)
    ensures list != [] && list[0].loadIndexes != []
    ensures InCluster(list[0].loadIndexes[0]) <==> x == 0 || IsHalving(|desc| - x, |desc| + 1)
  {
    InClusterLeadsIff(desc, x);
    PackOpens(Lift(desc), Bucket(desc), max);
  }

  ghost predicate WithinBucket(list: ReplicaList, b: real) {
    forall i | 0 <= i < |list| :: list[i].totalLoad <= b
  }

  lemma {:induction false} PackWithinBucket(shards: seq<LoadIndex>, b: real, max: int)
    requires forall li | li in shards :: li.value <= b
    ensures WithinBucket(Pack(shards, b, max), b)
  {
    if shards != [] {
      PackWithinBucket(shards[..|shards| - 1], b, max);
    }
  }

  // Wherever a shard of load b sits, it sits alone.
  ghost predicate HeavyAlone(list: ReplicaList, b: real) {
    forall i, li | 0 <= i < |list| && li in list[i].loadIndexes && li.value == b :: |list[i].loadIndexes| == 1
  }

  ghost predicate AllNonNegative(list: ReplicaList) {
    forall i | 0 <= i < |list| :: NonNegative(list[i].loadIndexes)
  }

  lemma {:induction false} PackHeavyAlone(shards: seq<LoadIndex>, b: real, max: int)
    requires NonNegative(shards)
    ensures HeavyAlone(Pack(shards, b, max), b) && AllNonNegative(Pack(shards, b, max))
  {
    if shards != [] {
      var n := |shards| - 1;
      var before, shard := Pack(shards[..n], b, max), shards[n];
      PackHeavyAlone(shards[..n], b, max);
      PackSound(shards[..n], b, max);
      var x := Select(before, shard, b, max);
      if x >= 0 {
        SumNonNegative(before[x].loadIndexes);
      }
    }
  }

  // An assignment of the shards to any number of replicas.
  ghost predicate Assignment(bins: seq<seq<LoadIndex>>, input: seq<LoadIndex>) {
    multiset(Concat(bins)) == multiset(input)
  }

  function Concat(bins: seq<seq<LoadIndex>>): seq<LoadIndex> {
    if bins == [] then [] else Concat(bins[..|bins| - 1]) + bins[|bins| - 1]
  }

  lemma {:induction false} ConcatMember(bins: seq<seq<LoadIndex>>, li: LoadIndex) returns (q: nat)
    requires li in Concat(bins)
    ensures q < |bins| && li in bins[q]
  {
    var last := |bins| - 1;
    if li in bins[last] {
      q := last;
    } else {
      q := ConcatMember(bins[..last], li);
    }
  }

  lemma {:induction false} BinNonNegative(bins: seq<seq<LoadIndex>>, q: nat)
    requires NonNegative(Concat(bins)) && q < |bins|
    ensures NonNegative(bins[q])
  {
    var last := |bins| - 1;
    if q < last {
      BinNonNegative(bins[..last], q);
    }
  }

  lemma AnyAssignmentCarriesHeaviest(bins: seq<seq<LoadIndex>>, input: seq<LoadIndex>, b: real)
    requires Assignment(bins, input) && NonNegative(input) && Heaviest(b, input)
    ensures exists q :: 0 <= q < |bins| && SumLoads(bins[q]) >= b
  {
    var h :| h in input && h.value == b;
    assert h in multiset(Concat(bins));
    var q := ConcatMember(bins, h);
    forall li | li in Concat(bins)
      ensures li.value >= 0.0
    {
      assert li in multiset(input);
    }
    BinNonNegative(bins, q);
    SumNonNegative(bins[q]);
  }

  // No replica exceeds the heaviest shard, with or without a cap and whatever the signs.
  lemma PartitionWithinHeaviest(list: ReplicaList, desc: seq<LoadIndex>, input: seq<LoadIndex>, max: int, b: real)
    requires PartitionOf(list, desc, input, max) && Heaviest(b, input)
    ensures WithinBucket(list, b)
  {
    var shards := PartitionPacksInto(list, desc, input, max, b);
    PackWithinBucket(shards, b, max);
  }

  // Optimal makespan: for non-negative loads the fullest replica carries exactly the heaviest
  // shard, alone, and no assignment to any number of replicas does better.
  lemma OptimalMakespan(list: ReplicaList, desc: seq<LoadIndex>, input: seq<LoadIndex>, max: int, b: real)
    requires PartitionOf(list, desc, input, max) && NonNegative(input) && Heaviest(b, input)
    ensures WithinBucket(list, b) && HeavyAlone(list, b)
    ensures exists i :: 0 <= i < |list| && list[i].totalLoad == b
    ensures forall bins | Assignment(bins, input) ::
              exists q :: 0 <= q < |bins| && SumLoads(bins[q]) >= b
  {
    PartitionWithinHeaviest(list, desc, input, max, b);
    PartitionHeavyAlone(list, desc, input, max, b);
    HeaviestReached(list, desc, input, max, b);
    forall bins | Assignment(bins, input)
      ensures exists q :: 0 <= q < |bins| && SumLoads(bins[q]) >= b
    {
      AnyAssignmentCarriesHeaviest(bins, input, b);
    }
  }

  lemma PartitionHeavyAlone(list: ReplicaList, desc: seq<LoadIndex>, input: seq<LoadIndex>, max: int, b: real)
    requires PartitionOf(list, desc, input, max) && NonNegative(input) && Heaviest(b, input)
    ensures HeavyAlone(list, b) && AllNonNegative(list)
  {
    var shards := PartitionPacksInto(list, desc, input, max, b);
    PackHeavyAlone(shards, b, max);
  }

  lemma HeaviestReached(list: ReplicaList, desc: seq<LoadIndex>, input: seq<LoadIndex>, max: int, b: real)
    requires PartitionOf(list, desc, input, max) && Heaviest(b, input) && HeavyAlone(list, b)
    ensures exists i :: 0 <= i < |list| && list[i].totalLoad == b
  {
    PartitionSound(list, desc, input, max);
    var h :| h in input && h.value == b;
    assert h in multiset(input) && h in multiset(Flatten(list));
    var i := FlattenMember(list, h);
    SumSingle(list[i].loadIndexes, h);
  }

  lemma SumSingle(s: seq<LoadIndex>, li: LoadIndex)
    requires |s| == 1 && li in s
    ensures SumLoads(s) == li.value
  {
    assert s[0] == li && s[..0] == [];
  }

  lemma {:induction false} FlattenMember(list: ReplicaList, li: LoadIndex) returns (i: nat)
    requires li in Flatten(list)
    ensures i < |list| && li in list[i].loadIndexes
  {
    var last := |list| - 1;
    if li in list[last].loadIndexes {
      i := last;
    } else {
      i := FlattenMember(list[..last], li);
    }
  }
}
