// The partition does not depend on the order in which the shards are presented.
module OrderIndependence {
  import opened Common
  import opened Sorting
  import opened Partitioner

  // ---- order independence -----------------------------------------------------------------------

  ghost predicate SameValues(s: seq<LoadIndex>, t: seq<LoadIndex>) {
    |s| == |t| && forall i | 0 <= i < |s| :: s[i].value == t[i].value
  }

  // Same number of replicas, same number of shards and same total load in each.
  ghost predicate SameShape(a: ReplicaList, b: ReplicaList) {
    && |a| == |b|
    && forall i | 0 <= i < |a| ::
         a[i].totalLoad == b[i].totalLoad && |a[i].loadIndexes| == |b[i].loadIndexes| && a[i].id == b[i].id
  }

  lemma {:induction false} SelectShape(a: ReplicaList, b: ReplicaList, s: LoadIndex, t: LoadIndex,
        bucket: real, max: int)
    requires SameShape(a, b) && s.value == t.value
    ensures Select(a, s, bucket, max) == Select(b, t, bucket, max)
  {
    if a != [] {
      SelectShape(a[..|a| - 1], b[..|b| - 1], s, t, bucket, max);
    }
  }

  lemma PlaceShape(a: ReplicaList, b: ReplicaList, s: LoadIndex, t: LoadIndex, bucket: real, max: int)
    requires SameShape(a, b) && s.value == t.value
    ensures SameShape(Place(a, s, bucket, max), Place(b, t, bucket, max))
  {
    SelectShape(a, b, s, t, bucket, max);
  }

  lemma {:induction false} PackShape(s: seq<LoadIndex>, t: seq<LoadIndex>, bucket: real, max: int)
    requires SameValues(s, t)
    ensures SameShape(Pack(s, bucket, max), Pack(t, bucket, max))
  {
    if s != [] {
      var n := |s| - 1;
      PackShape(s[..n], t[..n], bucket, max);
      PlaceShape(Pack(s[..n], bucket, max), Pack(t[..n], bucket, max), s[n], t[n], bucket, max);
    }
  }

  lemma DescValuesAgree(d: seq<LoadIndex>, e: seq<LoadIndex>, s: seq<LoadIndex>, t: seq<LoadIndex>)
    requires DescOf(d, s) && DescOf(e, t) && multiset(s) == multiset(t)
    ensures SameValues(d, e)
  {
    DescIsTotalPreorder();
    SortedAgree(Desc, d, e);
    forall i | 0 <= i < |d|
      ensures d[i].value == e[i].value
    {
      assert Tied(Desc, d[i], e[i]);
    }
  }

  // Presenting the shards in another order changes neither the number of replicas nor their loads.
  lemma OrderIndependentShape(a: ReplicaList, d: seq<LoadIndex>, s: seq<LoadIndex>,
        b: ReplicaList, e: seq<LoadIndex>, t: seq<LoadIndex>, max: int)
    requires PartitionOf(a, d, s, max) && PartitionOf(b, e, t, max) && multiset(s) == multiset(t)
    requires forall li | li in multiset(s) :: !InCluster(li)
    ensures SameShape(a, b)
  {
    DescValuesAgree(d, e, s, t);
    PackShape(d, e, Bucket(d), max);
  }

  lemma DistinctLoadsAgree(d: seq<LoadIndex>, e: seq<LoadIndex>, s: seq<LoadIndex>)
    requires SameValues(d, e) && multiset(d) == multiset(s) && multiset(e) == multiset(s)
    requires forall x, y | x in multiset(s) && y in multiset(s) && x.value == y.value :: x == y
    ensures d == e
  {
    forall i | 0 <= i < |d|
      ensures d[i] == e[i]
    {
      assert d[i] in multiset(d) && e[i] in multiset(e);
    }
  }

  // With pairwise distinct loads the partition is a function of the set of shards.
  lemma OrderIndependent(a: ReplicaList, d: seq<LoadIndex>, s: seq<LoadIndex>,
        b: ReplicaList, e: seq<LoadIndex>, t: seq<LoadIndex>, max: int)
    requires PartitionOf(a, d, s, max) && PartitionOf(b, e, t, max) && multiset(s) == multiset(t)
    requires forall x, y | x in multiset(s) && y in multiset(s) && x.value == y.value :: x == y
    ensures a == b
  {
    DescValuesAgree(d, e, s, t);
    DistinctLoadsAgree(d, e, s);
  }
}
