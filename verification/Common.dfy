// The vocabulary shared by every controller of the pipeline.
module Common {

  datatype Option<+T> = None | Some(value: T)

  // A destination cluster. Only the UID is unique.
  datatype Shard = Shard(uid: string, id: string, namespace: string, name: string, server: string)

  // The value of one metric for one shard.
  datatype MetricValue = MetricValue(id: string, shard: Shard, query: string, value: real)

  // A shard with the load it puts on the replica that owns it.
  datatype LoadIndex = LoadIndex(shard: Shard, value: real)

  // One controller replica, the shards it owns and the sum of their loads.
  datatype Replica = Replica(id: int, loadIndexes: seq<LoadIndex>, totalLoad: real)

  type ReplicaList = seq<Replica>

  ghost predicate DistinctUids(list: seq<LoadIndex>) {
    forall i, j | 0 <= i < j < |list| :: list[i].shard.uid != list[j].shard.uid
  }

  // All the load indexes of a list, replica after replica.
  function Flatten(list: ReplicaList): seq<LoadIndex> {
    if list == [] then [] else Flatten(list[..|list| - 1]) + list[|list| - 1].loadIndexes
  }

  // The shape every partition leaving the partitioner has: IDs 0..k-1 and no empty replica.
  ghost predicate Numbered(list: ReplicaList) {
    forall i | 0 <= i < |list| :: list[i].id == i && list[i].loadIndexes != []
  }
}
