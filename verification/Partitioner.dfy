// The longest-processing-time partitioner: sorting with the in-cluster lift, greedy packing.
module Partitioner {
  import opened Common
  import opened Sorting

  const IN_CLUSTER := "in-cluster"

  predicate InCluster(li: LoadIndex) {
    li.shard.name == IN_CLUSTER
  }

  // LoadIndexesDesc: x may stand before y unless y is strictly heavier.
  predicate Desc(x: LoadIndex, y: LoadIndex) {
    !(y.value > x.value)
  }

  lemma DescIsTotalPreorder()
    ensures TotalPreorder(Desc)
  {
    assert forall x, y :: Total(Desc, x, y);
    assert forall x, y, z :: Transitive(Desc, x, y, z);
  }

  ghost predicate NonNegative(shards: seq<LoadIndex>) {
    forall li | li in shards :: li.value >= 0.0
  }

  // ---- Sort -----------------------------------------------------------------------------------

  // The standard library's binary search for the first index where the condition holds,
  // run on a condition that need not be monotone.
  function SearchFrom(s: seq<LoadIndex>, i: nat, j: nat): (r: nat)
    requires i <= j <= |s|
    ensures i <= r <= j
    decreases j - i
  {
    if i < j then
      var h := (i + j) / 2;
      if !InCluster(s[h]) then SearchFrom(s, h + 1, j) else SearchFrom(s, i, h)
    else i
  }

  function FoundIndex(s: seq<LoadIndex>): Option<nat> {
    var x := SearchFrom(s, 0, |s|);
    if x < |s| && InCluster(s[x]) then Some(x) else None
  }

  // The slice Sort returns for a descending arrangement.
  function Lift(desc: seq<LoadIndex>): seq<LoadIndex> {
    match FoundIndex(desc)
    case None => desc
    case Some(x) => [desc[x]] + Without(desc, x)
  }

  // What Sort leaves in the caller's array.
  function Residue(desc: seq<LoadIndex>): seq<LoadIndex> {
    match FoundIndex(desc)
    case None => desc
    case Some(x) => desc[..x] + desc[x + 1..] + [desc[|desc| - 1]]
  }

  function Bucket(desc: seq<LoadIndex>): real {
    if desc == [] then 0.0 else desc[0].value
  }

  // desc is one of the arrangements an unstable descending sort of s may produce.
  ghost predicate DescOf(desc: seq<LoadIndex>, s: seq<LoadIndex>) {
    SortedBy(Desc, desc) && multiset(desc) == multiset(s)
  }

  method Search(a: array<LoadIndex>) returns (x: nat)
    ensures x == SearchFrom(a[..], 0, a.Length)
  {
    var i, j := 0, a.Length;
    while i < j
      invariant 0 <= i <= j <= a.Length
      invariant SearchFrom(a[..], i, j) == SearchFrom(a[..], 0, a.Length)
    {
      var h := (i + j) / 2;
      if !InCluster(a[h]) {
        i := h + 1;
      } else {
        j := h;
      }
    }
    x := i;
  }

  method ShiftDown(a: array<LoadIndex>, x: nat)
    requires x < a.Length
    modifies a
    ensures a[..] == old(a[..x]) + old(a[x + 1..]) + [old(a[a.Length - 1])]
  {
    for k := x to a.Length - 1
      invariant forall q | 0 <= q < a.Length :: a[q] == if x <= q < k then old(a[q + 1]) else old(a[q])
    {
      a[k] := a[k + 1];
    }
  }

  method LiftInCluster(a: array<LoadIndex>) returns (sorted: seq<LoadIndex>)
    modifies a
    ensures sorted == Lift(old(a[..]))
    ensures a[..] == Residue(old(a[..]))
  {
    var x := Search(a);
    if x < a.Length && InCluster(a[x]) {
      var lifted := a[x];
      ShiftDown(a, x);
      sorted := [lifted] + a[..a.Length - 1];
    } else {
      sorted := a[..];
    }
  }

  method Sort(a: array<LoadIndex>) returns (sorted: seq<LoadIndex>, bucket: real, ghost desc: seq<LoadIndex>)
    modifies a
    ensures DescOf(desc, old(a[..]))
    ensures sorted == Lift(desc) && bucket == Bucket(desc)
    ensures a[..] == Residue(desc)
  {
    DescIsTotalPreorder();
    SortArray(a, Desc);
    desc := a[..];
    bucket := if a.Length == 0 then 0.0 else a[0].value;
    sorted := LiftInCluster(a);
  }

  // ---- the shape of the sorted slice ------------------------------------------------------------

  ghost predicate Heaviest(b: real, s: seq<LoadIndex>) {
    (exists li :: li in s && li.value == b) && forall li | li in s :: li.value <= b
  }

  lemma BucketIsHeaviest(desc: seq<LoadIndex>, s: seq<LoadIndex>)
    requires DescOf(desc, s) && s != []
    ensures Heaviest(Bucket(desc), s)
  {
    assert |desc| == |multiset(desc)| == |multiset(s)| == |s|;
    forall li | li in s
      ensures li.value <= Bucket(desc)
    {
      assert li in multiset(desc);
    }
    assert desc[0] in multiset(s);
  }

  lemma LiftMembers(desc: seq<LoadIndex>)
    ensures multiset(Lift(desc)) == multiset(desc)
  {
    match FoundIndex(desc)
    case None =>
    case Some(x) => MultisetWithout(desc, x);
  }

  lemma LastAgain(desc: seq<LoadIndex>, x: nat)
    requires SortedBy(Desc, desc) && x < |desc|
    ensures SortedBy(Desc, Without(desc, x) + [desc[|desc| - 1]])
    ensures multiset(Without(desc, x) + [desc[|desc| - 1]]) + multiset{desc[x]}
         == multiset(desc) + multiset{desc[|desc| - 1]}
  {
    MultisetWithout(desc, x);
    var rest, last := Without(desc, x), desc[|desc| - 1];
    assert Total(Desc, last, last);
    forall i | 0 <= i < |rest|
      ensures Desc(rest[i], last)
    {
      assert rest[i] == desc[if i < x then i else i + 1];
    }
  }

  // Where a shard is lifted the caller's array stays in order, but that shard is missing there and
  // the last one doubled.
  lemma ResidueShape(desc: seq<LoadIndex>, x: nat)
    requires SortedBy(Desc, desc) && FoundIndex(desc) == Some(x)
    ensures SortedBy(Desc, Residue(desc))
    ensures multiset(Residue(desc)) + multiset{desc[x]} == multiset(desc) + multiset{desc[|desc| - 1]}
  {
    LastAgain(desc, x);
    assert Residue(desc) == Without(desc, x) + [desc[|desc| - 1]];
  }

  lemma LiftSorted(desc: seq<LoadIndex>)
    requires SortedBy(Desc, desc)
    ensures SortedBy(Desc, Lift(desc))
         || (InCluster(Lift(desc)[0]) && SortedBy(Desc, Lift(desc)[1..]))
  {
    match FoundIndex(desc)
    case None =>
    case Some(x) =>
      SortedWithout(Desc, desc, x);
      assert Lift(desc)[1..] == Without(desc, x);
  }

  // Whatever the search does: a permutation, led by an in-cluster shard or not, descending after it.
  lemma LiftShape(desc: seq<LoadIndex>, s: seq<LoadIndex>)
    requires DescOf(desc, s)
    ensures multiset(Lift(desc)) == multiset(s)
    ensures SortedBy(Desc, Lift(desc))
         || (InCluster(Lift(desc)[0]) && SortedBy(Desc, Lift(desc)[1..]))
  {
    LiftMembers(desc);
    LiftSorted(desc);
  }

  // m halved k times, rounding down.
  function Halved(m: nat, k: nat): nat {
    if k == 0 then m else Halved(m / 2, k - 1)
  }

  lemma {:induction false} HalvedAtMost(m: nat, k: nat)
    ensures Halved(m, k) <= m
  {
    if k > 0 {
      HalvedAtMost(m / 2, k - 1);
    }
  }

  // d is a floor of some (m / 2^k) with k at least 1
  ghost predicate IsHalving(d: nat, m: nat) {
    exists k: nat :: k >= 1 && d == Halved(m, k)
  }

  lemma HalvingStep(d: nat, m: nat)
    requires m >= 1
    ensures IsHalving(d, m) <==> d == m / 2 || (d < m / 2 && IsHalving(d, m / 2))
  {
    if IsHalving(d, m) {
      var k: nat :| k >= 1 && d == Halved(m, k);
      if k >= 2 {
        assert d == Halved(m / 2, k - 1);
        HalvedAtMost(m / 2, k - 1);
      } else {
        assert Halved(m / 2, 0) == m / 2;
      }
    }
    if d == m / 2 {
      assert Halved(m / 2, 0) == m / 2;
      assert d == Halved(m, 1);
    }
    if IsHalving(d, m / 2) {
      var k: nat :| k >= 1 && d == Halved(m / 2, k);
      assert d == Halved(m, k + 1);
    }
  }

  ghost predicate SoleInCluster(s: seq<LoadIndex>, x: nat) {
    x < |s| && forall i | 0 <= i < |s| :: InCluster(s[i]) <==> i == x
  }

  // Once the only in-cluster shard has been probed, or is out of range, every probe is false.
  lemma {:induction false} SearchAllFalse(s: seq<LoadIndex>, i: nat, j: nat)
    requires i <= j <= |s|
    requires forall q | i <= q < j :: !InCluster(s[q])
    ensures SearchFrom(s, i, j) == j
    decreases j - i
  {
    if i < j {
      SearchAllFalse(s, (i + j) / 2 + 1, j);
    }
  }

  // What remains after a failed probe is half of what there was.
  lemma Probe(s: seq<LoadIndex>, x: nat, i: nat) returns (h: nat)
    requires SoleInCluster(s, x) && i <= x
    ensures i <= h < |s|
    ensures SearchFrom(s, i, |s|) == if h == x then SearchFrom(s, i, h) else SearchFrom(s, h + 1, |s|)
    ensures IsHalving(|s| - x, |s| - i + 1) <==> x == h || (x > h && IsHalving(|s| - x, |s| - h))
  {
    h := (i + |s|) / 2;
    HalvingStep(|s| - x, |s| - i + 1);
  }

  lemma {:induction false} SearchHits(s: seq<LoadIndex>, x: nat, i: nat)
    requires SoleInCluster(s, x) && i <= |s|
    ensures SearchFrom(s, i, |s|) == x <==> i <= x && IsHalving(|s| - x, |s| - i + 1)
    ensures SearchFrom(s, i, |s|) != x ==> SearchFrom(s, i, |s|) == |s|
    decreases |s| - i
  {
    if i > x {
      SearchAllFalse(s, i, |s|);
    } else {
      var h := Probe(s, x, i);
      if h == x {
        SearchAllFalse(s, i, x);
      } else {
        SearchHits(s, x, h + 1);
        assert |s| - (h + 1) + 1 == |s| - h;
      }
    }
  }

  // The intent is that the in-cluster shard always comes first. It does exactly when it is the
  // heaviest, or its distance from the end is one of the successive halvings of n + 1.
  lemma InClusterLeadsIff(desc: seq<LoadIndex>, x: nat)
    requires SoleInCluster(desc, x)
    ensures InCluster(Lift(desc)[0]) <==> x == 0 || IsHalving(|desc| - x, |desc| + 1)
  {
    FoundIff(desc, x);
  }

  lemma FoundIff(desc: seq<LoadIndex>, x: nat)
    requires SoleInCluster(desc, x)
    ensures FoundIndex(desc) == if IsHalving(|desc| - x, |desc| + 1) then Some(x) else None
  {
    SearchHits(desc, x, 0);
  }

  // Second of four, the in-cluster shard is missed.
  lemma InClusterMissed(desc: seq<LoadIndex>)
    requires |desc| == 4 && SoleInCluster(desc, 1)
    ensures !InCluster(Lift(desc)[0])
  {
    InClusterLeadsIff(desc, 1);
    HalvingStep(3, 5);
  }

  // ---- Partition --------------------------------------------------------------------------------

  predicate Full(r: Replica, max: int) {
    max > 0 && |r.loadIndexes| >= max
  }

  predicate Fits(r: Replica, shard: LoadIndex, bucket: real) {
    r.totalLoad + shard.value < bucket
  }

  predicate Candidate(r: Replica, shard: LoadIndex, bucket: real, max: int) {
    !Full(r, max) && Fits(r, shard, bucket)
  }

  // The inner loop: the first of the least loaded candidates, or -1.
  function Select(replicas: ReplicaList, shard: LoadIndex, bucket: real, max: int): (x: int)
    ensures -1 <= x < |replicas|
    ensures x < 0 ==> forall i | 0 <= i < |replicas| :: !Candidate(replicas[i], shard, bucket, max)
    ensures x >= 0 ==> Candidate(replicas[x], shard, bucket, max)
    ensures x >= 0 ==> forall i | 0 <= i < |replicas| && Candidate(replicas[i], shard, bucket, max) ::
                         replicas[x].totalLoad < replicas[i].totalLoad
                         || (replicas[x].totalLoad == replicas[i].totalLoad && x <= i)
  {
    if replicas == [] then -1
    else
      var last := |replicas| - 1;
      var best := Select(replicas[..last], shard, bucket, max);
      if !Full(replicas[last], max)
         && (best == -1 || replicas[last].totalLoad < replicas[best].totalLoad)
         && Fits(replicas[last], shard, bucket)
      then last
      else best
  }

  function Place(replicas: ReplicaList, shard: LoadIndex, bucket: real, max: int): ReplicaList {
    var x := Select(replicas, shard, bucket, max);
    if x < 0 then replicas + [Replica(|replicas|, [shard], shard.value)]
    else
      var r := replicas[x];
      replicas[x := Replica(r.id, r.loadIndexes + [shard], r.totalLoad + shard.value)]
  }

  function Pack(shards: seq<LoadIndex>, bucket: real, max: int): ReplicaList {
    if shards == [] then []
    else Place(Pack(shards[..|shards| - 1], bucket, max), shards[|shards| - 1], bucket, max)
  }

  // The partition of an input, when the sort arranged it as desc.
  ghost predicate PartitionOf(list: ReplicaList, desc: seq<LoadIndex>, input: seq<LoadIndex>, max: int) {
    DescOf(desc, input) && list == Pack(Lift(desc), Bucket(desc), max)
  }

  method SelectLoop(replicas: ReplicaList, shard: LoadIndex, bucket: real, max: int) returns (x: int)
    ensures x == Select(replicas, shard, bucket, max)
  {
    x := -1;
    var minLoad := 0.0;
    for i := 0 to |replicas|
      invariant x == Select(replicas[..i], shard, bucket, max)
      invariant x >= 0 ==> minLoad == replicas[x].totalLoad
    {
      assert replicas[..i + 1][..i] == replicas[..i];
      if max > 0 && |replicas[i].loadIndexes| >= max {
        continue;
      }
      if x == -1 || replicas[i].totalLoad < minLoad {
        if replicas[i].totalLoad + shard.value < bucket {
          x := i;
          minLoad := replicas[i].totalLoad;
        }
      }
    }
    assert replicas[..|replicas|] == replicas;
  }

  method PlaceShard(replicas: ReplicaList, shard: LoadIndex, bucket: real, max: int, replicaCount: int)
    returns (replicas': ReplicaList, replicaCount': int)
    requires replicaCount == |replicas|
    ensures replicas' == Place(replicas, shard, bucket, max) && replicaCount' == |replicas'|
  {
    replicas', replicaCount' := replicas, replicaCount;
    var x := SelectLoop(replicas, shard, bucket, max);
    if x < 0 {
      replicaCount' := replicaCount' + 1;
      replicas' := replicas' + [Replica(replicaCount' - 1, [shard], shard.value)];
    } else {
      var r := replicas'[x];
      r := r.(loadIndexes := r.loadIndexes + [shard]);
      r := r.(totalLoad := r.totalLoad + shard.value);
      replicas' := replicas'[x := r];
    }
  }

  method PackLoop(sorted: seq<LoadIndex>, bucket: real, max: int) returns (replicas: ReplicaList)
    ensures replicas == Pack(sorted, bucket, max)
  {
    replicas := [];
    var replicaCount := 0;
    for i := 0 to |sorted|
      invariant replicaCount == |replicas|
      invariant replicas == Pack(sorted[..i], bucket, max)
    {
      assert sorted[..i + 1][..i] == sorted[..i];
      replicas, replicaCount := PlaceShard(replicas, sorted[i], bucket, max, replicaCount);
    }
    assert sorted[..|sorted|] == sorted;
  }

  // The contract spells the result out; Packing.dfy proves what it is worth.
  method Partition(a: array<LoadIndex>, max: int) returns (replicas: ReplicaList, ghost desc: seq<LoadIndex>)
    modifies a
    ensures PartitionOf(replicas, desc, old(a[..]), max)
    ensures a[..] == Residue(desc)
  {
    if a.Length == 0 {
      return [], [];
    }
    var sorted, bucket;
    sorted, bucket, desc := Sort(a);
    replicas := PackLoop(sorted, bucket, max);
  }
}
