// The packing as a list of choices, one per shard: a definition without the code's loops.
module Placement {
  import opened Common
  import opened Sorting
  import opened Partitioner
  import opened Packing

  // The shards given to replica i, in order, when the k-th shard goes to replica where[k].
  ghost function Given(shards: seq<LoadIndex>, where: seq<nat>, i: nat): seq<LoadIndex>
    requires |where| == |shards|
  {
    if shards == [] then []
    else
      var n := |shards| - 1;
      Given(shards[..n], where[..n], i) + if where[n] == i then [shards[n]] else []
  }

  // How many replicas there are.
  ghost function Opened(where: seq<nat>): nat {
    if where == [] then 0
    else
      var n := |where| - 1;
      if where[n] >= Opened(where[..n]) then where[n] + 1 else Opened(where[..n])
  }

  // Replica i may take the shard: it is below the cap, and stays below the bucket.
  ghost predicate Takes(shards: seq<LoadIndex>, where: seq<nat>, i: nat, shard: LoadIndex, b: real, max: int)
    requires |where| == |shards|
  {
    && i < Opened(where)
    && (max > 0 ==> |Given(shards, where, i)| < max)
    && SumLoads(Given(shards, where, i)) + shard.value < b
  }

  // Replica x is the least loaded one that may take the shard, the first of them if tied, or a new
  // one if none may.
  ghost predicate Chosen(shards: seq<LoadIndex>, where: seq<nat>, x: nat, shard: LoadIndex, b: real, max: int)
    requires |where| == |shards|
  {
    if x == Opened(where) then forall i :: !Takes(shards, where, i, shard, b, max)
    else
      && Takes(shards, where, x, shard, b, max)
      && forall i | Takes(shards, where, i, shard, b, max) ::
           var mine, other := SumLoads(Given(shards, where, x)), SumLoads(Given(shards, where, i));
           mine < other || (mine == other && x <= i)
  }

  ghost predicate AllChosen(shards: seq<LoadIndex>, where: seq<nat>, b: real, max: int)
    requires |where| == |shards|
  {
    forall k | 0 <= k < |shards| :: Chosen(shards[..k], where[..k], where[k], shards[k], b, max)
  }

  ghost predicate IsReplica(r: Replica, shards: seq<LoadIndex>, where: seq<nat>, i: nat)
    requires |where| == |shards|
  {
    && r.id == i && r.loadIndexes == Given(shards, where, i)
    && r.totalLoad == SumLoads(Given(shards, where, i))
  }

  // The replicas are what the choices make of them.
  ghost predicate Lists(list: ReplicaList, shards: seq<LoadIndex>, where: seq<nat>)
    requires |where| == |shards|
  {
    && |list| == Opened(where)
    && forall i | 0 <= i < |list| :: IsReplica(list[i], shards, where, i)
  }

  ghost predicate Placed(list: ReplicaList, shards: seq<LoadIndex>, where: seq<nat>, b: real, max: int) {
    |where| == |shards| && AllChosen(shards, where, b, max) && Lists(list, shards, where)
  }

  // ---- one more choice -------------------------------------------------------------------------------

  lemma GivenSnoc(shards: seq<LoadIndex>, where: seq<nat>, shard: LoadIndex, x: nat, i: nat)
    requires |where| == |shards|
    ensures Given(shards + [shard], where + [x], i) == Given(shards, where, i) + if x == i then [shard] else []
  {
    assert (shards + [shard])[..|shards|] == shards && (where + [x])[..|where|] == where;
  }

  lemma OpenedSnoc(where: seq<nat>, x: nat)
    ensures Opened(where + [x]) == if x >= Opened(where) then x + 1 else Opened(where)
  {
    assert (where + [x])[..|where|] == where;
  }

  lemma SnocPrefix<T>(s: seq<T>, x: T, k: nat)
    requires k <= |s|
    ensures (s + [x])[..k] == s[..k]
  {
  }

  lemma Whole<T>(s: seq<T>)
    requires s != []
    ensures s == s[..|s| - 1] + [s[|s| - 1]]
  {
  }

  lemma AllChosenSnoc(shards: seq<LoadIndex>, where: seq<nat>, shard: LoadIndex, x: nat, b: real, max: int)
    requires |where| == |shards|
    ensures AllChosen(shards + [shard], where + [x], b, max) <==>
              AllChosen(shards, where, b, max) && Chosen(shards, where, x, shard, b, max)
  {
    forall k | 0 <= k <= |shards|
      ensures (shards + [shard])[..k] == shards[..k] && (where + [x])[..k] == where[..k]
    {
      SnocPrefix(shards, shard, k);
      SnocPrefix(where, x, k);
    }
    assert shards[..|shards|] == shards && where[..|where|] == where;
    var shards', where' := shards + [shard], where + [x];
    forall k | 0 <= k < |shards|
      ensures shards'[k] == shards[k] && where'[k] == where[k]
    {
    }
    if AllChosen(shards', where', b, max) {
      assert Chosen(shards'[..|shards|], where'[..|shards|], where'[|shards|], shards'[|shards|], b, max);
      forall k | 0 <= k < |shards|
        ensures Chosen(shards[..k], where[..k], where[k], shards[k], b, max)
      {
        assert Chosen(shards'[..k], where'[..k], where'[k], shards'[k], b, max);
      }
    }
  }

  lemma NoneGiven(shards: seq<LoadIndex>, where: seq<nat>, i: nat)
    requires |where| == |shards| && i >= Opened(where)
    ensures Given(shards, where, i) == []
  {
    if shards != [] {
      NoneGiven(shards[..|shards| - 1], where[..|where| - 1], i);
    }
  }

  lemma SumSnoc(s: seq<LoadIndex>, shard: LoadIndex)
    ensures SumLoads(s + [shard]) == SumLoads(s) + shard.value && s + [] == s
  {
    assert (s + [shard])[..|s|] == s;
  }

  // Replica i once one more shard goes to replica x.
  lemma ReplicaNext(shards: seq<LoadIndex>, where: seq<nat>, shard: LoadIndex, x: nat, i: nat)
    requires |where| == |shards|
    ensures var before, after := Given(shards, where, i), Given(shards + [shard], where + [x], i);
            && after == (if i == x then before + [shard] else before)
            && SumLoads(after) == (if i == x then SumLoads(before) + shard.value else SumLoads(before))
  {
    GivenSnoc(shards, where, shard, x, i);
    SumSnoc(Given(shards, where, i), shard);
  }

  lemma OtherReplica(r: Replica, shards: seq<LoadIndex>, where: seq<nat>, shard: LoadIndex, x: nat, i: nat)
    requires |where| == |shards| && IsReplica(r, shards, where, i) && i != x
    ensures IsReplica(r, shards + [shard], where + [x], i)
  {
    ReplicaNext(shards, where, shard, x, i);
  }

  lemma GrownReplica(r: Replica, shards: seq<LoadIndex>, where: seq<nat>, shard: LoadIndex, x: nat)
    requires |where| == |shards| && IsReplica(r, shards, where, x)
    ensures IsReplica(Replica(x, r.loadIndexes + [shard], r.totalLoad + shard.value), shards + [shard], where + [x], x)
  {
    ReplicaNext(shards, where, shard, x, x);
  }

  lemma NewReplica(shards: seq<LoadIndex>, where: seq<nat>, shard: LoadIndex, x: nat)
    requires |where| == |shards| && x == Opened(where)
    ensures IsReplica(Replica(x, [shard], shard.value), shards + [shard], where + [x], x)
  {
    NoneGiven(shards, where, x);
    ReplicaNext(shards, where, shard, x, x);
  }

  lemma ListsNext(list: ReplicaList, shards: seq<LoadIndex>, where: seq<nat>, shard: LoadIndex, x: nat,
        list': ReplicaList)
    requires |where| == |shards| && Lists(list, shards, where) && x <= |list|
    requires list' == if x == |list| then list + [Replica(x, [shard], shard.value)]
                      else list[x := Replica(x, list[x].loadIndexes + [shard], list[x].totalLoad + shard.value)]
    ensures Lists(list', shards + [shard], where + [x])
  {
    OpenedSnoc(where, x);
    forall i | 0 <= i < |list'|
      ensures IsReplica(list'[i], shards + [shard], where + [x], i)
    {
      if i != x {
        OtherReplica(list[i], shards, where, shard, x, i);
      } else if x < |list| {
        GrownReplica(list[x], shards, where, shard, x);
      } else {
        NewReplica(shards, where, shard, x);
      }
    }
  }

  lemma SelectChosen(list: ReplicaList, shards: seq<LoadIndex>, where: seq<nat>, shard: LoadIndex, b: real, max: int)
    returns (x: nat)
    requires |where| == |shards| && Lists(list, shards, where)
    ensures Chosen(shards, where, x, shard, b, max) && x <= |list|
    ensures Place(list, shard, b, max)
         == if x == |list| then list + [Replica(x, [shard], shard.value)]
            else list[x := Replica(x, list[x].loadIndexes + [shard], list[x].totalLoad + shard.value)]
  {
    var selected := Select(list, shard, b, max);
    x := if selected < 0 then |list| else selected;
    forall i: nat
      ensures Takes(shards, where, i, shard, b, max) <==> i < |list| && Candidate(list[i], shard, b, max)
    {
    }
  }

  lemma PlaceNext(list: ReplicaList, shards: seq<LoadIndex>, where: seq<nat>, shard: LoadIndex, b: real, max: int)
    returns (where': seq<nat>)
    requires Placed(list, shards, where, b, max)
    ensures Placed(Place(list, shard, b, max), shards + [shard], where', b, max)
  {
    var x := SelectChosen(list, shards, where, shard, b, max);
    ListsNext(list, shards, where, shard, x, Place(list, shard, b, max));
    AllChosenSnoc(shards, where, shard, x, b, max);
    where' := where + [x];
  }

  lemma {:induction false} PackPlaced(shards: seq<LoadIndex>, b: real, max: int) returns (where: seq<nat>)
    ensures Placed(Pack(shards, b, max), shards, where, b, max)
  {
    if shards == [] {
      where := [];
    } else {
      var n := |shards| - 1;
      where := PackPlaced(shards[..n], b, max);
      where := PlaceNext(Pack(shards[..n], b, max), shards[..n], where, shards[n], b, max);
      Whole(shards);
    }
  }

  // ---- the placement --------------------------------------------------------------------------------

  // Shards in descending order, behind an in-cluster shard at most.
  ghost predicate LedDescending(shards: seq<LoadIndex>) {
    SortedBy(Desc, shards) || (InCluster(shards[0]) && SortedBy(Desc, shards[1..]))
  }

  // Every returned list comes about like this: the shards, heaviest first, each go to the least
  // loaded replica that may take them, and open a new one only if there is none.
  lemma GreedyPlacement(list: ReplicaList, desc: seq<LoadIndex>, input: seq<LoadIndex>, max: int)
    returns (shards: seq<LoadIndex>, where: seq<nat>, b: real)
    requires PartitionOf(list, desc, input, max)
    ensures multiset(shards) == multiset(input) && LedDescending(shards)
    ensures input != [] ==> Heaviest(b, input)
    ensures Placed(list, shards, where, b, max)
  {
    shards, b := Lift(desc), Bucket(desc);
    LiftShape(desc, input);
    if input != [] {
      BucketIsHeaviest(desc, input);
    }
    where := PackPlaced(shards, b, max);
  }

  lemma ChosenOnce(shards: seq<LoadIndex>, where: seq<nat>, x: nat, y: nat, shard: LoadIndex, b: real, max: int)
    requires |where| == |shards|
    requires Chosen(shards, where, x, shard, b, max) && Chosen(shards, where, y, shard, b, max)
    ensures x == y
  {
  }

  lemma AllChosenLast(shards: seq<LoadIndex>, where: seq<nat>, n: nat, b: real, max: int)
    requires |where| == |shards| == n + 1 && AllChosen(shards, where, b, max)
    ensures AllChosen(shards[..n], where[..n], b, max) && Chosen(shards[..n], where[..n], where[n], shards[n], b, max)
  {
    Whole(shards);
    Whole(where);
    AllChosenSnoc(shards[..n], where[..n], shards[n], where[n], b, max);
  }

  lemma {:induction false} ChoicesForced(shards: seq<LoadIndex>, v: seq<nat>, w: seq<nat>, b: real, max: int)
    requires |v| == |w| == |shards| && AllChosen(shards, v, b, max) && AllChosen(shards, w, b, max)
    ensures v == w
  {
    if shards != [] {
      var n := |shards| - 1;
      AllChosenLast(shards, v, n, b, max);
      AllChosenLast(shards, w, n, b, max);
      ChoicesForced(shards[..n], v[..n], w[..n], b, max);
      ChosenOnce(shards[..n], v[..n], v[n], w[n], shards[n], b, max);
      Whole(v);
      Whole(w);
    }
  }

  // The order of the shards leaves no choice: only one list comes about.
  lemma PlacedOnce(a: ReplicaList, v: seq<nat>, c: ReplicaList, w: seq<nat>, shards: seq<LoadIndex>, b: real, max: int)
    requires Placed(a, shards, v, b, max) && Placed(c, shards, w, b, max)
    ensures a == c
  {
    ChoicesForced(shards, v, w, b, max);
  }
}
