// The packing without its loops: what order and which choices the returned list bears witness to.
module Greedy {
  import opened Common
  import opened Sorting
  import opened Partitioner
  import opened Packing
  import opened PackingBound

  // ---- heaviest first --------------------------------------------------------------------------------

  // The shards of a replica, without the one that leads the whole list if one was lifted there.
  function Rest(list: ReplicaList, i: nat, led: bool): seq<LoadIndex>
    requires i < |list| && list[i].loadIndexes != []
  {
    if led && i == 0 then list[0].loadIndexes[1..] else list[i].loadIndexes
  }

  function FirstLoad(r: Replica): real
    requires r.loadIndexes != []
  {
    r.loadIndexes[0].value
  }

  // No empty replica; loads never increase inside a replica, nor the first loads with the ID. If
  // the list is led by a lifted shard, that holds after it.
  ghost predicate Descending(list: ReplicaList, led: bool) {
    && (forall i | 0 <= i < |list| :: list[i].loadIndexes != [])
    && (forall i | 0 <= i < |list| :: SortedBy(Desc, Rest(list, i, led)))
    && (forall i, j | (if led then 1 else 0) <= i < j < |list| :: FirstLoad(list[i]) >= FirstLoad(list[j]))
  }

  ghost predicate Within(list: ReplicaList, led: bool, shards: seq<LoadIndex>) {
    && (forall i | 0 <= i < |list| :: list[i].loadIndexes != [])
    && forall i, li | 0 <= i < |list| && li in Rest(list, i, led) :: li in shards
  }

  // li is no heavier than any of them.
  ghost predicate AtLeast(s: seq<LoadIndex>, li: LoadIndex) {
    forall x | x in s :: Desc(x, li)
  }

  lemma SortedSnoc(s: seq<LoadIndex>, li: LoadIndex)
    requires SortedBy(Desc, s) && AtLeast(s, li)
    ensures SortedBy(Desc, s + [li])
  {
  }

  lemma RestGrows(list: ReplicaList, led: bool, x: nat, r: Replica, shard: LoadIndex)
    requires forall i | 0 <= i < |list| :: list[i].loadIndexes != []
    requires x < |list| && r.loadIndexes == list[x].loadIndexes + [shard]
    ensures Rest(list[x := r], x, led) == Rest(list, x, led) + [shard]
    ensures FirstLoad(r) == FirstLoad(list[x])
  {
  }

  // One shard, no heavier than any packed before it, the leading one excepted.
  lemma PlaceDescends(list: ReplicaList, led: bool, shards: seq<LoadIndex>, shard: LoadIndex, b: real, max: int)
    requires Descending(list, led) && Within(list, led, shards) && (led ==> list != [])
    requires AtLeast(shards, shard)
    ensures Descending(Place(list, shard, b, max), led)
    ensures Within(Place(list, shard, b, max), led, shards + [shard])
  {
    var x := Select(list, shard, b, max);
    var placed := Place(list, shard, b, max);
    if x < 0 {
      OpenedDescends(list, led, shards, shard, Replica(|list|, [shard], shard.value));
    } else {
      GrownDescends(list, led, shards, shard, x, placed[x]);
    }
  }

  lemma OpenedDescends(list: ReplicaList, led: bool, shards: seq<LoadIndex>, shard: LoadIndex, r: Replica)
    requires Descending(list, led) && Within(list, led, shards) && (led ==> list != [])
    requires AtLeast(shards, shard)
    requires r.loadIndexes == [shard]
    ensures Descending(list + [r], led) && Within(list + [r], led, shards + [shard])
  {
    var placed := list + [r];
    forall i | 0 <= i < |placed|
      ensures placed[i].loadIndexes != []
    {
    }
    forall i | 0 <= i < |list|
      ensures Rest(placed, i, led) == Rest(list, i, led)
    {
    }
    assert Rest(placed, |list|, led) == [shard];
    forall i | (if led then 1 else 0) <= i < |list|
      ensures FirstLoad(placed[i]) >= shard.value
    {
      assert Rest(list, i, led) == list[i].loadIndexes;
      assert Desc(list[i].loadIndexes[0], shard);
    }
  }

  lemma GrownDescends(list: ReplicaList, led: bool, shards: seq<LoadIndex>, shard: LoadIndex, x: nat, r: Replica)
    requires Descending(list, led) && Within(list, led, shards)
    requires AtLeast(shards, shard)
    requires x < |list| && r.loadIndexes == list[x].loadIndexes + [shard]
    ensures Descending(list[x := r], led) && Within(list[x := r], led, shards + [shard])
  {
    var placed := list[x := r];
    RestGrows(list, led, x, r, shard);
    assert AtLeast(Rest(list, x, led), shard);
    SortedSnoc(Rest(list, x, led), shard);
    forall i | 0 <= i < |list| && i != x
      ensures placed[i] == list[i] && Rest(placed, i, led) == Rest(list, i, led)
    {
    }
  }

  lemma LastIsLightest(s: seq<LoadIndex>)
    requires SortedBy(Desc, s) && s != []
    ensures SortedBy(Desc, s[..|s| - 1]) && AtLeast(s[..|s| - 1], s[|s| - 1])
    ensures s == s[..|s| - 1] + [s[|s| - 1]]
  {
  }

  // Shards in descending order.
  lemma {:induction false} PackDescends(shards: seq<LoadIndex>, b: real, max: int)
    requires SortedBy(Desc, shards)
    ensures Descending(Pack(shards, b, max), false) && Within(Pack(shards, b, max), false, shards)
  {
    if shards != [] {
      var n := |shards| - 1;
      LastIsLightest(shards);
      PackDescends(shards[..n], b, max);
      PlaceDescends(Pack(shards[..n], b, max), false, shards[..n], shards[n], b, max);
    }
  }

  // Shards in descending order after the first.
  lemma {:induction false} PackDescendsAfter(lead: LoadIndex, shards: seq<LoadIndex>, b: real, max: int)
    requires SortedBy(Desc, shards)
    ensures var list := Pack([lead] + shards, b, max);
            list != [] && Descending(list, true) && Within(list, true, shards)
  {
    PackOpens([lead] + shards, b, max);
    if shards == [] {
      PackOne(lead, b, max);
      assert [lead] + shards == [lead];
    } else {
      var n := |shards| - 1;
      LastIsLightest(shards);
      PackDescendsAfter(lead, shards[..n], b, max);
      PlaceDescends(Pack([lead] + shards[..n], b, max), true, shards[..n], shards[n], b, max);
      assert ([lead] + shards)[..n + 1] == [lead] + shards[..n];
    }
  }

  lemma PackOne(lead: LoadIndex, b: real, max: int)
    ensures Pack([lead], b, max) == [Replica(0, [lead], lead.value)]
  {
    assert [lead][..0] == [];
  }

  // Read off the returned list: it was filled from the heaviest shard down, except for an in-cluster
  // shard found by the search, which then is the first of all.
  lemma HeaviestFirst(list: ReplicaList, desc: seq<LoadIndex>, input: seq<LoadIndex>, max: int)
    requires PartitionOf(list, desc, input, max)
    ensures Descending(list, false)
         || (list != [] && Descending(list, true) && InCluster(list[0].loadIndexes[0]))
    ensures (forall li | li in input :: !InCluster(li)) ==> Descending(list, false)
  {
    var shards := Lift(desc);
    LiftShape(desc, input);
    if SortedBy(Desc, shards) {
      PackDescends(shards, Bucket(desc), max);
    } else {
      assert shards[0] in multiset(shards) && shards[0] in multiset(input);
      assert shards == [shards[0]] + shards[1..];
      PackDescendsAfter(shards[0], shards[1..], Bucket(desc), max);
      PackOpens(shards, Bucket(desc), max);
    }
  }

  // ---- an optimal count ------------------------------------------------------------------------------

  predicate IsBig(li: LoadIndex, b: real) {
    2.0 * li.value > b
  }

  // How many shards are heavier than half a bucket.
  function Bigs(s: seq<LoadIndex>, b: real): nat {
    if s == [] then 0 else Bigs(s[..|s| - 1], b) + if IsBig(s[|s| - 1], b) then 1 else 0
  }

  lemma {:induction false} BigsAppend(s: seq<LoadIndex>, t: seq<LoadIndex>, b: real)
    ensures Bigs(s + t, b) == Bigs(s, b) + Bigs(t, b)
  {
    if t == [] {
      assert s + t == s;
    } else {
      BigsAppend(s, t[..|t| - 1], b);
      assert (s + t)[..|s + t| - 1] == s + t[..|t| - 1];
    }
  }

  lemma {:induction false} BigsWithout(t: seq<LoadIndex>, j: nat, b: real)
    requires j < |t|
    ensures Bigs(t, b) == Bigs(Without(t, j), b) + if IsBig(t[j], b) then 1 else 0
  {
    var last := |t| - 1;
    if j == last {
      assert Without(t, j) == t[..last];
    } else {
      BigsWithout(t[..last], j, b);
      assert Without(t, j)[..last - 1] == Without(t[..last], j);
    }
  }

  lemma {:induction false} BigsPermutation(s: seq<LoadIndex>, t: seq<LoadIndex>, b: real)
    requires multiset(s) == multiset(t)
    ensures Bigs(s, b) == Bigs(t, b)
  {
    if s == [] {
      assert |t| == |multiset(t)| == |multiset(s)|;
    } else {
      var j := MatchLast(s, t);
      BigsWithout(t, j, b);
      BigsPermutation(s[..|s| - 1], Without(t, j), b);
    }
  }

  // A bin of size b has room for one of them.
  lemma {:induction false} BigsInBin(s: seq<LoadIndex>, b: real)
    requires NonNegative(s) && SumLoads(s) <= b
    ensures Bigs(s, b) <= 1
    ensures Bigs(s, b) == 1 ==> 2.0 * SumLoads(s) > b
  {
    if s != [] {
      var n := |s| - 1;
      assert s[n] in s && forall li | li in s[..n] :: li in s;
      SumNonNegative(s[..n]);
      BigsInBin(s[..n], b);
    }
  }

  lemma {:induction false} BigsInBins(bins: seq<seq<LoadIndex>>, b: real)
    requires NonNegative(Concat(bins)) && WithinBins(bins, b)
    ensures Bigs(Concat(bins), b) <= |bins|
  {
    if bins != [] {
      var n := |bins| - 1;
      BigsInBins(bins[..n], b);
      BinNonNegative(bins, n);
      BigsInBin(bins[n], b);
      BigsAppend(Concat(bins[..n]), bins[n], b);
    }
  }

  lemma {:induction false} BigMember(s: seq<LoadIndex>, j: nat, b: real)
    requires j < |s| && IsBig(s[j], b)
    ensures Bigs(s, b) >= 1
  {
    BigsWithout(s, j, b);
  }

  // From the skip-th replica on each begins with one of them.
  lemma {:induction false} BigsInReplicas(list: ReplicaList, skip: nat, b: real)
    requires skip <= |list|
    requires forall i | skip <= i < |list| :: list[i].loadIndexes != [] && IsBig(list[i].loadIndexes[0], b)
    ensures Bigs(Flatten(list), b) >= |list| - skip
  {
    if |list| > skip {
      var n := |list| - 1;
      BigsInReplicas(list[..n], skip, b);
      BigMember(list[n].loadIndexes, 0, b);
      BigsAppend(Flatten(list[..n]), list[n].loadIndexes, b);
    }
  }

  lemma BigsBound(packed: seq<LoadIndex>, input: seq<LoadIndex>, b: real, bins: seq<seq<LoadIndex>>)
    requires multiset(packed) == multiset(input) && NonNegative(input)
    requires Assignment(bins, input) && WithinBins(bins, b)
    ensures Bigs(packed, b) <= |bins|
  {
    forall li | li in Concat(bins)
      ensures li.value >= 0.0
    {
      assert li in multiset(Concat(bins)) && li in multiset(input);
    }
    BigsInBins(bins, b);
    BigsPermutation(packed, Concat(bins), b);
  }

  lemma BigOpeners(list: ReplicaList, led: bool, b: real)
    requires Descending(list, led) && list != [] && IsBig(list[|list| - 1].loadIndexes[0], b)
    ensures Bigs(Flatten(list), b) >= |list| - if led then 1 else 0
  {
    var skip := if led then 1 else 0;
    forall i | skip <= i < |list|
      ensures IsBig(list[i].loadIndexes[0], b)
    {
      assert i < |list| - 1 ==> FirstLoad(list[i]) >= FirstLoad(list[|list| - 1]);
    }
    BigsInReplicas(list, skip, b);
  }

  // If the replica opened last begins with more than half of some size, no packing into bins of that
  // size gets by with fewer bins; with a lifted shard in front, at most with one fewer.
  lemma OptimalCount(list: ReplicaList, desc: seq<LoadIndex>, input: seq<LoadIndex>, max: int, b: real,
                     bins: seq<seq<LoadIndex>>)
    requires PartitionOf(list, desc, input, max) && NonNegative(input)
    requires list != [] && list[|list| - 1].loadIndexes != [] && IsBig(list[|list| - 1].loadIndexes[0], b)
    requires Assignment(bins, input) && WithinBins(bins, b)
    ensures |list| <= |bins| + 1
    ensures (forall li | li in input :: !InCluster(li)) ==> |list| <= |bins|
  {
    HeaviestFirst(list, desc, input, max);
    PartitionSound(list, desc, input, max);
    BigOpeners(list, !Descending(list, false), b);
    BigsBound(Flatten(list), input, b, bins);
  }
}
