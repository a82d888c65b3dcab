// How many replicas the greedy packing opens.
module PackingBound {
  import opened Common
  import opened Arith
  import opened Partitioner
  import opened Packing

  function SumReals(s: seq<real>): real {
    if s == [] then 0.0 else SumReals(s[..|s| - 1]) + s[|s| - 1]
  }

  // ---- the number of replicas -------------------------------------------------------------------

  // The earlier of two replicas was full, or too loaded, when the later one was opened.
  ghost predicate OpenedForReason(list: ReplicaList, b: real, max: int) {
    forall i, j | 0 <= i < j < |list| :: Full(list[i], max) || list[i].totalLoad + list[j].totalLoad >= b
  }

  lemma PlaceOpened(list: ReplicaList, shard: LoadIndex, b: real, max: int)
    requires OpenedForReason(list, b, max) && shard.value >= 0.0
    ensures OpenedForReason(Place(list, shard, b, max), b, max)
  {
    var x, placed := Select(list, shard, b, max), Place(list, shard, b, max);
    if x >= 0 {
      assert forall i | 0 <= i < |list| :: placed[i].totalLoad >= list[i].totalLoad;
      assert forall i | 0 <= i < |list| :: Full(list[i], max) ==> Full(placed[i], max);
    }
  }

  lemma {:induction false} PackOpened(shards: seq<LoadIndex>, b: real, max: int)
    requires NonNegative(shards)
    ensures OpenedForReason(Pack(shards, b, max), b, max)
  {
    if shards != [] {
      var n := |shards| - 1;
      PackOpened(shards[..n], b, max);
      PlaceOpened(Pack(shards[..n], b, max), shards[n], b, max);
    }
  }

  ghost predicate PairwiseReach(ts: seq<real>, b: real) {
    forall i, j | 0 <= i < j < |ts| :: ts[i] + ts[j] >= b
  }

  lemma SumOfThree(ts: seq<real>)
    requires |ts| == 3
    ensures SumReals(ts) == ts[0] + ts[1] + ts[2]
  {
    assert ts[..2][..1] == ts[..1] && ts[..1][..0] == [];
    assert SumReals(ts[..1]) == ts[0] && SumReals(ts[..2]) == ts[0] + ts[1];
  }

  lemma SumLastTwo(ts: seq<real>)
    requires |ts| >= 2
    ensures SumReals(ts) == SumReals(ts[..|ts| - 2]) + ts[|ts| - 2] + ts[|ts| - 1]
  {
    assert ts[..|ts| - 1][..|ts| - 2] == ts[..|ts| - 2];
  }

  lemma ThreeBuckets(b: real)
    ensures Buckets(3, b) == 3.0 * b
  {
    assert Buckets(1, b) == b;
    assert Buckets(2, b) == 2.0 * b;
  }

  // Two at a time.
  lemma {:induction false} PairBound(ts: seq<real>, b: real)
    requires PairwiseReach(ts, b) && |ts| != 1
    ensures Buckets(|ts|, b) <= 2.0 * SumReals(ts)
  {
    var n := |ts|;
    if n == 3 {
      SumOfThree(ts);
      ThreeBuckets(b);
      assert ts[0] + ts[1] >= b && ts[0] + ts[2] >= b && ts[1] + ts[2] >= b;
    } else if n >= 2 {
      PairBound(ts[..n - 2], b);
      SumLastTwo(ts);
      assert ts[n - 2] + ts[n - 1] >= b;
    }
  }

  // The totals of the replicas that still have room, in order.
  function RoomyTotals(list: ReplicaList, max: int): seq<real> {
    if list == [] then []
    else
      var last := list[|list| - 1];
      RoomyTotals(list[..|list| - 1], max) + if Full(last, max) then [] else [last.totalLoad]
  }

  lemma {:induction false} RoomyMember(list: ReplicaList, max: int, t: real) returns (i: nat)
    requires t in RoomyTotals(list, max)
    ensures i < |list| && !Full(list[i], max) && list[i].totalLoad == t
  {
    var last := |list| - 1;
    if t in RoomyTotals(list[..last], max) {
      i := RoomyMember(list[..last], max, t);
    } else {
      i := last;
    }
  }

  lemma {:induction false} RoomyPairwise(list: ReplicaList, b: real, max: int)
    requires OpenedForReason(list, b, max)
    ensures PairwiseReach(RoomyTotals(list, max), b)
  {
    if list != [] {
      var last := |list| - 1;
      var init := RoomyTotals(list[..last], max);
      RoomyPairwise(list[..last], b, max);
      forall i | 0 <= i < |init|
        ensures init[i] + list[last].totalLoad >= b || Full(list[last], max)
      {
        var r := RoomyMember(list[..last], max, init[i]);
        assert list[r] == list[..last][r];
      }
    }
  }

  // Full replicas account for max shards each, the others for their total load.
  lemma {:induction false} RoomyCount(list: ReplicaList, max: int)
    requires Tallied(list, max)
    ensures |RoomyTotals(list, max)| <= |list|
    ensures max > 0 ==> (|list| - |RoomyTotals(list, max)|) * max <= |Flatten(list)|
    ensures max <= 0 ==> |RoomyTotals(list, max)| == |list|
  {
    if list != [] {
      var last := |list| - 1;
      RoomyCount(list[..last], max);
      if Full(list[last], max) {
        OneMoreFull(last - |RoomyTotals(list[..last], max)|, max, |Flatten(list[..last])|, |list[last].loadIndexes|);
      }
    }
  }

  lemma {:induction false} RoomySum(list: ReplicaList, max: int)
    requires Tallied(list, max) && AllNonNegative(list)
    ensures SumReals(RoomyTotals(list, max)) <= SumLoads(Flatten(list))
    ensures max <= 0 ==> SumReals(RoomyTotals(list, max)) == SumLoads(Flatten(list))
  {
    if list != [] {
      var last := |list| - 1;
      var init := RoomyTotals(list[..last], max);
      RoomySum(list[..last], max);
      SumAppend(Flatten(list[..last]), list[last].loadIndexes);
      SumNonNegative(list[last].loadIndexes);
      assert (init + [list[last].totalLoad])[..|init|] == init;
      assert init + [] == init;
    }
  }

  // What the bounds are derived from.
  ghost predicate Balanced(list: ReplicaList, input: seq<LoadIndex>, b: real, max: int) {
    && Tallied(list, max) && AllNonNegative(list) && OpenedForReason(list, b, max)
    && |Flatten(list)| == |input| && SumLoads(Flatten(list)) == SumLoads(input)
    && 0.0 <= b <= SumLoads(input)
  }

  lemma PartitionBalanced(list: ReplicaList, desc: seq<LoadIndex>, input: seq<LoadIndex>, max: int, b: real)
    requires PartitionOf(list, desc, input, max) && NonNegative(input) && Heaviest(b, input)
    ensures Balanced(list, input, b, max)
  {
    PartitionHeavyAlone(list, desc, input, max, b);
    PartitionSound(list, desc, input, max);
    SumPermutation(Flatten(list), input);
    assert |Flatten(list)| == |multiset(Flatten(list))| == |multiset(input)| == |input|;
    SumNonNegative(input);
    PartitionOpened(list, desc, input, max, b);
  }

  lemma PartitionOpened(list: ReplicaList, desc: seq<LoadIndex>, input: seq<LoadIndex>, max: int, b: real)
    requires PartitionOf(list, desc, input, max) && NonNegative(input) && Heaviest(b, input)
    ensures OpenedForReason(list, b, max)
  {
    var shards := PartitionPacksInto(list, desc, input, max, b);
    PackOpened(shards, b, max);
  }

  // k is the number of roomy replicas.
  lemma RoomyBound(ts: seq<real>, k: nat, b: real, total: real)
    requires k == |ts|
    requires PairwiseReach(ts, b) && SumReals(ts) <= total && 0.0 <= b <= total
    ensures Buckets(k, b) <= b + 2.0 * total
    ensures k != 1 || SumReals(ts) == total ==> Buckets(k, b) <= 2.0 * total
  {
    if k != 1 {
      PairBound(ts, b);
    }
  }

  lemma RoomyReplicas(list: ReplicaList, input: seq<LoadIndex>, b: real, max: int) returns (k: nat)
    requires Balanced(list, input, b, max)
    ensures k <= |list|
    ensures max > 0 ==> (|list| - k) * max <= |input|
    ensures max <= 0 ==> k == |list|
    ensures Buckets(k, b) <= b + 2.0 * SumLoads(input)
    ensures max <= 0 ==> Buckets(k, b) <= 2.0 * SumLoads(input)
  {
    var ts := RoomyTotals(list, max);
    k := |ts|;
    RoomyCount(list, max);
    RoomySum(list, max);
    RoomyPairwise(list, b, max);
    RoomyBound(ts, k, b, SumLoads(input));
  }

  // The buckets that replicas full at a cap may take up.
  function CapAllowance(n: nat, max: int, b: real): real
    requires max > 0
  {
    Buckets(n / max + 1, b)
  }

  // With a cap m > 0 at most n/m replicas are full, and the others pair up.
  lemma CappedBound(list: ReplicaList, input: seq<LoadIndex>, b: real, max: nat)
    requires Balanced(list, input, b, max) && max > 0
    ensures Buckets(|list|, b) <= CapAllowance(|input|, max, b) + 2.0 * SumLoads(input)
  {
    var k := RoomyReplicas(list, input, b, max);
    SplitBound(|list|, k, |input|, max, b, 2.0 * SumLoads(input));
  }

  // Without a cap all of them pair up.
  lemma UncappedBound(list: ReplicaList, input: seq<LoadIndex>, b: real, max: int)
    requires Balanced(list, input, b, max) && max <= 0
    ensures Buckets(|list|, b) <= 2.0 * SumLoads(input)
  {
    var k := RoomyReplicas(list, input, b, max);
  }

  ghost predicate WithinBins(bins: seq<seq<LoadIndex>>, b: real) {
    forall q | 0 <= q < |bins| :: SumLoads(bins[q]) <= b
  }

  lemma {:induction false} BinsTotal(bins: seq<seq<LoadIndex>>, b: real)
    requires WithinBins(bins, b)
    ensures SumLoads(Concat(bins)) <= Buckets(|bins|, b)
  {
    if bins != [] {
      var last := |bins| - 1;
      BinsTotal(bins[..last], b);
      SumAppend(Concat(bins[..last]), bins[last]);
    }
  }

  lemma TwiceOptimal(list: ReplicaList, input: seq<LoadIndex>, b: real, max: int, bins: seq<seq<LoadIndex>>)
    requires Balanced(list, input, b, max) && max <= 0 && b > 0.0
    requires Assignment(bins, input) && WithinBins(bins, b)
    ensures |list| <= 2 * |bins|
  {
    UncappedBound(list, input, b, max);
    BinsTotal(bins, b);
    SumPermutation(Concat(bins), input);
    AtMostTwice(|list|, |bins|, b, SumLoads(input));
  }

  // Any two replicas together reach the bucket.
  ghost predicate EveryPairReaches(list: ReplicaList, b: real) {
    forall i, j | 0 <= i < j < |list| :: list[i].totalLoad + list[j].totalLoad >= b
  }

  // At most twice as many replicas as bins, however the shards are packed into bins of size b.
  ghost predicate TwiceAnyPacking(list: ReplicaList, input: seq<LoadIndex>, b: real) {
    forall bins | Assignment(bins, input) && WithinBins(bins, b) :: |list| <= 2 * |bins|
  }

  // k replicas of bucket b for n shards of this total: k times b is at most twice the total, and
  // (n/m + 1) times b more with a cap m.
  ghost predicate CountBounded(k: nat, n: nat, max: int, b: real, total: real) {
    if max > 0 then k as real * b <= (n / max + 1) as real * b + 2.0 * total
    else k as real * b <= 2.0 * total
  }

  lemma BucketsBound(k: nat, n: nat, max: int, b: real, total: real)
    requires if max > 0 then Buckets(k, b) <= CapAllowance(n, max, b) + 2.0 * total else Buckets(k, b) <= 2.0 * total
    ensures CountBounded(k, n, max, b, total)
  {
    BucketsProduct(k, b);
    if max > 0 {
      BucketsProduct(n / max + 1, b);
    }
  }

  lemma CountsBound(list: ReplicaList, input: seq<LoadIndex>, b: real, max: int)
    requires Balanced(list, input, b, max)
    ensures CountBounded(|list|, |input|, max, b, SumLoads(input))
  {
    if max > 0 {
      CappedBound(list, input, b, max);
    } else {
      UncappedBound(list, input, b, max);
    }
    BucketsBound(|list|, |input|, max, b, SumLoads(input));
  }

  // For non-negative loads and no cap: every two replicas together carry at least the heaviest
  // load b, so k times b never exceeds twice the total load, and when b > 0 there are at most
  // twice as many replicas as in any packing into bins of size b. With a cap m > 0 the full
  // replicas add at most (n/m + 1) times b.
  lemma PackingBound(list: ReplicaList, desc: seq<LoadIndex>, input: seq<LoadIndex>, max: int, b: real)
    requires PartitionOf(list, desc, input, max) && NonNegative(input) && Heaviest(b, input)
    ensures max <= 0 ==> EveryPairReaches(list, b)
    ensures CountBounded(|list|, |input|, max, b, SumLoads(input))
    ensures max <= 0 && b > 0.0 ==> TwiceAnyPacking(list, input, b)
  {
    PartitionBalanced(list, desc, input, max, b);
    CountsBound(list, input, b, max);
    forall bins | max <= 0 && b > 0.0 && Assignment(bins, input) && WithinBins(bins, b)
      ensures |list| <= 2 * |bins|
    {
      TwiceOptimal(list, input, b, max, bins);
    }
  }
}
