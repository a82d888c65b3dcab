// The shard manager for cluster secrets: it writes replica IDs into secrets, one at a time.
module ShardManager {
  import opened Common
  import opened Strconv
  import opened Serialization

  datatype Secret = Secret(
    uid: string, name: string, namespace: string, clusterName: string, server: string,
    shard: Option<string>)

  datatype Manager = Manager(
    secrets: seq<Secret>,
    spec: ReplicaList,
    status: ReplicaList,
    shards: seq<Shard>,
    ready: bool)

  // What may go wrong in one reconcile: listing the secrets, the failAt-th secret update, the
  // final or error status update.
  datatype Faults = Faults(listFails: bool, failAt: Option<nat>, statusFails: bool)

  const NO_FAULTS := Faults(false, None, false)

  // Conversion to int32 keeps the low 32 bits.
  function ToInt32(n: int): int {
    (n + 0x8000_0000) % 0x1_0000_0000 - 0x8000_0000
  }

  predicate IsInt32(n: int) {
    -0x8000_0000 <= n < 0x8000_0000
  }

  ghost predicate Int32Ids(list: ReplicaList) {
    forall r | r in list :: IsInt32(r.id)
  }

  predicate Readable(s: Secret) {
    s.shard.Some? ==> Atoi(s.shard.value).Some?
  }

  predicate AllReadable(secrets: seq<Secret>) {
    forall i | 0 <= i < |secrets| :: Readable(secrets[i])
  }

  // Listed, and without the number of its replica.
  predicate Outdated(m: map<string, int>, s: Secret) {
    s.uid in m
    && (s.shard == None || Atoi(s.shard.value) == None || m[s.uid] != ToInt32(Atoi(s.shard.value).value))
  }

  function Updated(m: map<string, int>, s: Secret): Secret
    requires s.uid in m
  {
    s.(shard := Some(Itoa(m[s.uid])))
  }

  function Desired(m: map<string, int>, s: Secret): Secret {
    if Outdated(m, s) then Updated(m, s) else s
  }

  // The positions of the secrets to update, in listing order.
  function OutdatedAt(m: map<string, int>, secrets: seq<Secret>): (r: seq<nat>)
    ensures forall q | 0 <= q < |r| :: r[q] < |secrets| && Outdated(m, secrets[r[q]])
  {
    if secrets == [] then []
    else
      var n := |secrets| - 1;
      OutdatedAt(m, secrets[..n]) + if Outdated(m, secrets[n]) then [n] else []
  }

  // The updated secrets with their positions.
  function Updates(m: map<string, int>, secrets: seq<Secret>): (r: seq<(nat, Secret)>)
    ensures |r| == |OutdatedAt(m, secrets)|
  {
    if secrets == [] then []
    else
      var n := |secrets| - 1;
      Updates(m, secrets[..n]) + if Outdated(m, secrets[n]) then [(n, Updated(m, secrets[n]))] else []
  }

  lemma {:induction false} UpdatesAt(m: map<string, int>, secrets: seq<Secret>, q: nat)
    requires q < |OutdatedAt(m, secrets)|
    ensures Updates(m, secrets)[q] == (OutdatedAt(m, secrets)[q], Updated(m, secrets[OutdatedAt(m, secrets)[q]]))
  {
    var n := |secrets| - 1;
    if q < |OutdatedAt(m, secrets[..n])| {
      UpdatesAt(m, secrets[..n], q);
    }
  }

  // Every outdated secret is among them, in listing order.
  lemma {:induction false} OutdatedAtAll(m: map<string, int>, secrets: seq<Secret>)
    ensures forall q, p | 0 <= q < p < |OutdatedAt(m, secrets)| :: OutdatedAt(m, secrets)[q] < OutdatedAt(m, secrets)[p]
    ensures forall i | 0 <= i < |secrets| && Outdated(m, secrets[i]) :: i in OutdatedAt(m, secrets)
  {
    if secrets != [] {
      OutdatedAtAll(m, secrets[..|secrets| - 1]);
    }
  }

  // The secrets after the first k updates.
  function WriteFirst(m: map<string, int>, secrets: seq<Secret>, k: nat): (r: seq<Secret>)
    requires k <= |OutdatedAt(m, secrets)|
    ensures |r| == |secrets|
  {
    if k == 0 then secrets
    else
      var i := OutdatedAt(m, secrets)[k - 1];
      WriteFirst(m, secrets, k - 1)[i := Updated(m, secrets[i])]
  }

  function ShardOf(s: Secret): Shard {
    Shard(s.uid, s.name, s.namespace, s.clusterName, s.server)
  }

  function ShardsOf(secrets: seq<Secret>): seq<Shard> {
    seq(|secrets|, i requires 0 <= i < |secrets| => ShardOf(secrets[i]))
  }

  function NotReady(st: Manager, f: Faults): Manager {
    if f.statusFails then st else st.(ready := false)
  }

  ghost predicate WellFormedSpec(spec: ReplicaList) {
    DistinctUids(Flatten(spec))
  }

  // How many updates go through.
  ghost function Written(m: map<string, int>, secrets: seq<Secret>, f: Faults): nat {
    if f.failAt.Some? && f.failAt.value < |OutdatedAt(m, secrets)| then f.failAt.value else |OutdatedAt(m, secrets)|
  }

  ghost function ManagerStep(st: Manager, f: Faults): Manager {
    var m := Denote(st.spec);
    if f.listFails || !WellFormedSpec(st.spec) || !AllReadable(st.secrets) then NotReady(st, f)
    else
      var k := Written(m, st.secrets, f);
      var written := st.(secrets := WriteFirst(m, st.secrets, k));
      if k < |OutdatedAt(m, st.secrets)| then NotReady(written, f)
      else if f.statusFails then written
      else written.(status := st.spec, shards := ShardsOf(st.secrets), ready := true)
  }

  // ---- the reconciler ----------------------------------------------------------------------------

  lemma FlattenSnoc(list: ReplicaList, i: nat)
    requires i < |list|
    ensures Flatten(list[..i + 1]) == Flatten(list[..i]) + list[i].loadIndexes
  {
    assert list[..i + 1][..i] == list[..i];
  }

  lemma {:induction false} FlattenPrefix(list: ReplicaList, i: nat)
    requires i <= |list|
    ensures Flatten(list[..i]) <= Flatten(list)
    decreases |list| - i
  {
    if i == |list| {
      assert list[..i] == list;
    } else {
      FlattenPrefix(list, i + 1);
      FlattenSnoc(list, i);
    }
  }

  // The shards read so far and the one about to be read start the whole list.
  lemma ReadPrefix(list: ReplicaList, i: nat, j: nat)
    requires i < |list| && j < |list[i].loadIndexes|
    ensures Flatten(list[..i]) + list[i].loadIndexes[..j] + [list[i].loadIndexes[j]] <= Flatten(list)
  {
    FlattenPrefix(list, i + 1);
    FlattenSnoc(list, i);
    var read := Flatten(list[..i]);
    assert list[i].loadIndexes[..j] + [list[i].loadIndexes[j]] == list[i].loadIndexes[..j + 1];
    assert read + list[i].loadIndexes[..j + 1] <= read + list[i].loadIndexes;
    assert read + list[i].loadIndexes[..j] + [list[i].loadIndexes[j]] == read + list[i].loadIndexes[..j + 1];
  }

  // The next shard to read repeats one already read, or joins them.
  lemma ReadNext(list: ReplicaList, i: nat, j: nat, read: seq<LoadIndex>)
    requires i < |list| && j < |list[i].loadIndexes|
    requires read == Flatten(list[..i]) + list[i].loadIndexes[..j] && DistinctUids(read)
    ensures var li := list[i].loadIndexes[j];
            && (li.shard.uid in Uids(read) ==> !WellFormedSpec(list))
            && (li.shard.uid !in Uids(read) ==> DistinctUids(read + [li]))
            && Uids(read + [li]) == Uids(read) + {li.shard.uid}
            && read + [li] == Flatten(list[..i]) + list[i].loadIndexes[..j + 1]
  {
    ReadPrefix(list, i, j);
    ReadOne(read, list[i].loadIndexes[j], Flatten(list));
    assert list[i].loadIndexes[..j] + [list[i].loadIndexes[j]] == list[i].loadIndexes[..j + 1];
    assert Flatten(list[..i]) + (list[i].loadIndexes[..j] + [list[i].loadIndexes[j]])
        == read + [list[i].loadIndexes[j]];
  }

  lemma ReadOne(read: seq<LoadIndex>, li: LoadIndex, whole: seq<LoadIndex>)
    requires DistinctUids(read) && read + [li] <= whole
    ensures li.shard.uid in Uids(read) ==> !DistinctUids(whole)
    ensures li.shard.uid !in Uids(read) ==> DistinctUids(read + [li])
    ensures Uids(read + [li]) == Uids(read) + {li.shard.uid}
  {
    if li.shard.uid in Uids(read) {
      var q :| 0 <= q < |read| && read[q].shard.uid == li.shard.uid;
      assert whole[q] == (read + [li])[q] == read[q];
      assert whole[|read|] == (read + [li])[|read|] == li;
    }
  }

  lemma ReadablePrefix(secrets: seq<Secret>, n: nat)
    requires n < |secrets|
    ensures AllReadable(secrets[..n + 1]) <==> AllReadable(secrets[..n]) && Readable(secrets[n])
    ensures !Readable(secrets[n]) ==> !AllReadable(secrets)
  {
    var prefix := secrets[..n + 1];
    assert prefix[n] == secrets[n];
    assert forall i | 0 <= i < n :: prefix[i] == secrets[..n][i];
  }

  lemma ShardsPrefix(secrets: seq<Secret>, n: nat)
    requires n < |secrets|
    ensures ShardsOf(secrets[..n + 1]) == ShardsOf(secrets[..n]) + [ShardOf(secrets[n])]
  {
  }

  lemma UpdatesPrefix(m: map<string, int>, secrets: seq<Secret>, n: nat)
    requires n < |secrets|
    ensures Updates(m, secrets[..n + 1])
         == Updates(m, secrets[..n]) + if Outdated(m, secrets[n]) then [(n, Updated(m, secrets[n]))] else []
  {
    var prefix := secrets[..n + 1];
    assert prefix[..n] == secrets[..n] && prefix[n] == secrets[n];
  }

  class ShardManagerReconciler {
    var secrets: seq<Secret>
    var spec: ReplicaList
    var status: ReplicaList
    var shards: seq<Shard>
    var ready: bool

    ghost function State(): Manager
      reads this
    {
      Manager(secrets, spec, status, shards, ready)
    }

    // The shards of the i-th replica join the ones read before it, unless one is among them.
    method ReadReplica(i: nat, before: map<string, int>) returns (replicasByUID: map<string, int>, duplicate: bool)
      requires i < |spec| && DistinctUids(Flatten(spec[..i])) && before.Keys == Uids(Flatten(spec[..i]))
      ensures duplicate ==> !WellFormedSpec(spec)
      ensures !duplicate ==> DistinctUids(Flatten(spec[..i + 1]))
      ensures !duplicate ==> replicasByUID == before + ReplicaMap(spec[i].loadIndexes, spec[i].id)
      ensures !duplicate ==> replicasByUID.Keys == Uids(Flatten(spec[..i + 1]))
    {
      replicasByUID, duplicate := before, false;
      var replica := spec[i];
      ghost var read := Flatten(spec[..i]);
      for j := 0 to |replica.loadIndexes|
        invariant DistinctUids(read)
        invariant read == Flatten(spec[..i]) + replica.loadIndexes[..j]
        invariant replicasByUID == before + ReplicaMap(replica.loadIndexes[..j], replica.id)
        invariant replicasByUID.Keys == Uids(read)
      {
        var li := replica.loadIndexes[j];
        ReadNext(spec, i, j, read);
        if li.shard.uid in replicasByUID {
          duplicate := true;
          return;
        }
        replicasByUID := replicasByUID[li.shard.uid := replica.id];
        ReplicaMapSnoc(before, replica.loadIndexes, j, replica.id);
        read := read + [li];
      }
      assert replica.loadIndexes[..|replica.loadIndexes|] == replica.loadIndexes;
      FlattenSnoc(spec, i);
    }

    // The replica of each shard, unless some shard is listed twice.
    method ReadSpec() returns (replicasByUID: map<string, int>, duplicate: bool)
      ensures duplicate <==> !WellFormedSpec(spec)
      ensures !duplicate ==> replicasByUID == Denote(spec)
    {
      replicasByUID, duplicate := map[], false;
      for i := 0 to |spec|
        invariant !duplicate && DistinctUids(Flatten(spec[..i]))
        invariant replicasByUID == Denote(spec[..i]) && replicasByUID.Keys == Uids(Flatten(spec[..i]))
      {
        replicasByUID, duplicate := ReadReplica(i, replicasByUID);
        if duplicate {
          return;
        }
        assert spec[..i + 1][..i] == spec[..i];
      }
      assert spec[..|spec|] == spec;
    }

    method ReadSecret(replicasByUID: map<string, int>, secret: Secret) returns (ok: bool, outdated: bool)
      ensures ok <==> Readable(secret)
      ensures ok ==> (outdated <==> Outdated(replicasByUID, secret))
    {
      var actual := 0;
      if secret.shard.Some? {
        var parsed := Atoi(secret.shard.value);
        if parsed.None? {
          return false, false;
        }
        actual := parsed.value;
      }
      ok := true;
      outdated := secret.uid in replicasByUID
                  && (secret.shard.None? || replicasByUID[secret.uid] != ToInt32(actual));
    }

    method ReadSecrets(replicasByUID: map<string, int>)
      returns (found: seq<Shard>, toUpdate: seq<(nat, Secret)>, ok: bool)
      ensures ok <==> AllReadable(secrets)
      ensures ok ==> found == ShardsOf(secrets)
      ensures ok ==> toUpdate == Updates(replicasByUID, secrets)
    {
      found, toUpdate, ok := [], [], true;
      for n := 0 to |secrets|
        invariant ok && AllReadable(secrets[..n])
        invariant found == ShardsOf(secrets[..n])
        invariant toUpdate == Updates(replicasByUID, secrets[..n])
      {
        ReadablePrefix(secrets, n);
        ShardsPrefix(secrets, n);
        UpdatesPrefix(replicasByUID, secrets, n);
        var outdated;
        ok, outdated := ReadSecret(replicasByUID, secrets[n]);
        if !ok {
          return;
        }
        found := found + [ShardOf(secrets[n])];
        if outdated {
          var update: (nat, Secret) := (n, Updated(replicasByUID, secrets[n]));
          toUpdate := toUpdate + [update];
        }
      }
      assert secrets[..|secrets|] == secrets;
    }

    method WriteSecrets(replicasByUID: map<string, int>, toUpdate: seq<(nat, Secret)>, f: Faults) returns (ok: bool)
      requires toUpdate == Updates(replicasByUID, secrets)
      modifies this`secrets
      ensures secrets == WriteFirst(replicasByUID, old(secrets), Written(replicasByUID, old(secrets), f))
      ensures ok <==> Written(replicasByUID, old(secrets), f) == |toUpdate|
    {
      ghost var k := Written(replicasByUID, secrets, f);
      for q := 0 to |toUpdate|
        invariant q <= k && secrets == WriteFirst(replicasByUID, old(secrets), q)
      {
        if f.failAt.Some? && f.failAt.value == q {
          return false;
        }
        UpdatesAt(replicasByUID, old(secrets), q);
        secrets := secrets[toUpdate[q].0 := toUpdate[q].1];
      }
      ok := true;
    }

    method SetNotReady(f: Faults)
      modifies this`ready
      ensures ready == if f.statusFails then old(ready) else false
    {
      if !f.statusFails {
        ready := false;
      }
    }

    method Reconcile(f: Faults)
      modifies this
      ensures State() == ManagerStep(old(State()), f)
    {
      if f.listFails {
        SetNotReady(f);
        return;
      }
      var replicasByUID, duplicate := ReadSpec();
      if duplicate {
        SetNotReady(f);
        return;
      }
      var found, toUpdate, readable := ReadSecrets(replicasByUID);
      if !readable {
        SetNotReady(f);
        return;
      }
      var written := WriteSecrets(replicasByUID, toUpdate, f);
      if !written {
        SetNotReady(f);
        return;
      }
      if !f.statusFails {
        shards := found;
        status := spec;
        ready := true;
      }
    }
  }

  // ---- what a run of reconciles does ---------------------------------------------------------------

  lemma TakeNext(at: seq<nat>, k: nat, i: nat)
    requires 0 < k <= |at|
    ensures i in at[..k] <==> i in at[..k - 1] || i == at[k - 1]
  {
    assert at[..k] == at[..k - 1] + [at[k - 1]];
  }

  lemma {:induction false} WriteFirstAt(m: map<string, int>, secrets: seq<Secret>, k: nat, i: nat)
    requires k <= |OutdatedAt(m, secrets)| && i < |secrets|
    ensures WriteFirst(m, secrets, k)[i]
         == if i in OutdatedAt(m, secrets)[..k] then Desired(m, secrets[i]) else secrets[i]
  {
    if k > 0 {
      var at := OutdatedAt(m, secrets);
      WriteFirstAt(m, secrets, k - 1, i);
      TakeNext(at, k, i);
      if i == at[k - 1] {
        assert Desired(m, secrets[i]) == Updated(m, secrets[i]);
      } else {
        assert WriteFirst(m, secrets, k)[i] == WriteFirst(m, secrets, k - 1)[i];
      }
    }
  }

  // Some of the secrets are as desired, the others as they were.
  ghost predicate PartlyApplied(m: map<string, int>, before: seq<Secret>, after: seq<Secret>) {
    |after| == |before|
    && forall i | 0 <= i < |before| :: after[i] == before[i] || after[i] == Desired(m, before[i])
  }

  ghost predicate FullyApplied(m: map<string, int>, before: seq<Secret>, after: seq<Secret>) {
    |after| == |before|
    && forall i | 0 <= i < |before| :: after[i] == Desired(m, before[i])
  }

  lemma WriteFirstApplies(m: map<string, int>, secrets: seq<Secret>, k: nat)
    requires k <= |OutdatedAt(m, secrets)|
    ensures PartlyApplied(m, secrets, WriteFirst(m, secrets, k))
    ensures k == |OutdatedAt(m, secrets)| ==> FullyApplied(m, secrets, WriteFirst(m, secrets, k))
  {
    var at := OutdatedAt(m, secrets);
    forall i | 0 <= i < |secrets|
      ensures WriteFirst(m, secrets, k)[i] == if i in at[..k] then Desired(m, secrets[i]) else secrets[i]
    {
      WriteFirstAt(m, secrets, k, i);
    }
    OutdatedAtAll(m, secrets);
    assert at[..|at|] == at;
  }

  ghost predicate Int32Map(m: map<string, int>) {
    forall k | k in m :: IsInt32(m[k])
  }

  lemma {:induction false} DenoteInt32(list: ReplicaList)
    requires Int32Ids(list)
    ensures Int32Map(Denote(list))
  {
    if list != [] {
      DenoteInt32(list[..|list| - 1]);
    }
  }

  // Writing twice is writing once.
  lemma DesiredStable(m: map<string, int>, s: Secret)
    requires Int32Map(m)
    ensures !Outdated(m, Desired(m, s)) && Desired(m, Desired(m, s)) == Desired(m, s)
    ensures Readable(s) ==> Readable(Desired(m, s))
  {
    if Outdated(m, s) {
      AtoiItoa(m[s.uid]);
    }
  }

  lemma AppliedTwice(m: map<string, int>, s0: seq<Secret>, s1: seq<Secret>, s2: seq<Secret>)
    requires Int32Map(m) && PartlyApplied(m, s0, s1)
    ensures PartlyApplied(m, s1, s2) ==> PartlyApplied(m, s0, s2)
    ensures FullyApplied(m, s1, s2) ==> FullyApplied(m, s0, s2)
    ensures AllReadable(s0) ==> AllReadable(s1)
  {
    forall i | 0 <= i < |s0|
      ensures Desired(m, s1[i]) == Desired(m, s0[i])
      ensures Readable(s0[i]) ==> Readable(s1[i])
    {
      DesiredStable(m, s0[i]);
    }
  }

  // A run of reconciles against an unchanged spec.
  ghost function ManagerRun(st: Manager, faults: seq<Faults>): Manager {
    if faults == [] then st
    else ManagerStep(ManagerRun(st, faults[..|faults| - 1]), faults[|faults| - 1])
  }

  lemma {:induction false} RunPartlyApplied(st: Manager, faults: seq<Faults>)
    requires Int32Ids(st.spec)
    ensures var st' := ManagerRun(st, faults);
            PartlyApplied(Denote(st.spec), st.secrets, st'.secrets) && st'.spec == st.spec
  {
    if faults != [] {
      var n := |faults| - 1;
      var st1 := ManagerRun(st, faults[..n]);
      RunPartlyApplied(st, faults[..n]);
      DenoteInt32(st.spec);
      StepApplies(st1, faults[n]);
      AppliedTwice(Denote(st.spec), st.secrets, st1.secrets, ManagerStep(st1, faults[n]).secrets);
    }
  }

  // The reconcile runs to the end and its status write succeeds.
  ghost predicate Succeeds(st: Manager, f: Faults) {
    && !f.listFails && !f.statusFails && WellFormedSpec(st.spec) && AllReadable(st.secrets)
    && Written(Denote(st.spec), st.secrets, f) == |OutdatedAt(Denote(st.spec), st.secrets)|
  }

  lemma StepApplies(st: Manager, f: Faults)
    ensures var st' := ManagerStep(st, f);
            && st'.spec == st.spec
            && PartlyApplied(Denote(st.spec), st.secrets, st'.secrets)
            && (Succeeds(st, f) ==> FullyApplied(Denote(st.spec), st.secrets, st'.secrets)
                                    && st'.status == st.spec && st'.ready)
            && (!Succeeds(st, f) ==> st'.status == st.status)
  {
    WriteFirstApplies(Denote(st.spec), st.secrets, Written(Denote(st.spec), st.secrets, f));
  }

  // No secret is written unless the spec lists every shard once and every recorded number parses.
  lemma NothingWrittenUnless(st: Manager, f: Faults)
    ensures ManagerStep(st, f).secrets != st.secrets ==> WellFormedSpec(st.spec) && AllReadable(st.secrets)
  {
  }

  // Listed, with a recorded number outside int32 whose low 32 bits are the number wanted: the
  // comparison takes it for that number.
  predicate Aliased(m: map<string, int>, s: Secret) {
    && s.uid in m && s.shard.Some? && Atoi(s.shard.value).Some?
    && !IsInt32(Atoi(s.shard.value).value) && ToInt32(Atoi(s.shard.value).value) == m[s.uid]
  }

  // Each listed secret holds the number of its replica.
  ghost predicate Agrees(m: map<string, int>, secrets: seq<Secret>) {
    forall s | s in secrets && s.uid in m :: s.shard.Some? && Atoi(s.shard.value) == Some(m[s.uid])
  }

  lemma DesiredAgrees(m: map<string, int>, s: Secret)
    requires Int32Map(m) && s.uid in m
    ensures Desired(m, s).shard.Some? && Atoi(Desired(m, s).shard.value).Some?
    ensures Atoi(Desired(m, s).shard.value) == Some(m[s.uid]) <==> !Aliased(m, s)
    ensures Aliased(m, Desired(m, s)) <==> Aliased(m, s)
  {
    if Outdated(m, s) {
      AtoiItoa(m[s.uid]);
    }
  }

  // After the updates every listed secret holds its replica's number exactly when none of them
  // was recorded with an alias of it.
  lemma AgreesIff(m: map<string, int>, before: seq<Secret>, after: seq<Secret>)
    requires Int32Map(m) && FullyApplied(m, before, after)
    ensures Agrees(m, after) <==> forall s | s in before :: !Aliased(m, s)
  {
    forall i | 0 <= i < |before| && before[i].uid in m
      ensures after[i].uid == before[i].uid && after[i].shard.Some?
      ensures Atoi(after[i].shard.value) == Some(m[after[i].uid]) <==> !Aliased(m, before[i])
    {
      DesiredAgrees(m, before[i]);
    }
    forall i | 0 <= i < |before|
      ensures after[i] in after && before[i] in before && after[i].uid == before[i].uid
    {
    }
  }

  lemma {:induction false} NothingOutdated(m: map<string, int>, secrets: seq<Secret>)
    requires forall i | 0 <= i < |secrets| :: !Outdated(m, secrets[i])
    ensures OutdatedAt(m, secrets) == []
  {
    if secrets != [] {
      NothingOutdated(m, secrets[..|secrets| - 1]);
    }
  }

  // Whatever failed and was retried before it, the first reconcile that succeeds leaves exactly
  // the outcome of a single clean one: every listed secret holds its replica's number, unless it
  // started out with an alias of it, all other secrets and fields are untouched, the status is the
  // spec, and the next reconcile, if it can read the list, writes nothing.
  lemma RetriesConverge(st: Manager, faults: seq<Faults>, f: Faults, next: Faults)
    requires Int32Ids(st.spec)
    requires Succeeds(ManagerRun(st, faults), f)
    ensures var st' := ManagerStep(ManagerRun(st, faults), f);
            && FullyApplied(Denote(st.spec), st.secrets, st'.secrets)
            && (Agrees(Denote(st.spec), st'.secrets) <==> forall s | s in st.secrets :: !Aliased(Denote(st.spec), s))
            && st'.status == st.spec && st'.ready
            && ManagerStep(st', next).secrets == st'.secrets
  {
    var m := Denote(st.spec);
    var st1 := ManagerRun(st, faults);
    var st' := ManagerStep(st1, f);
    DenoteInt32(st.spec);
    RunPartlyApplied(st, faults);
    StepApplies(st1, f);
    AppliedTwice(m, st.secrets, st1.secrets, st'.secrets);
    AgreesIff(m, st.secrets, st'.secrets);
    AppliedIsQuiet(m, st.secrets, st'.secrets);
    QuietStep(st', next);
  }

  lemma QuietStep(st: Manager, f: Faults)
    requires OutdatedAt(Denote(st.spec), st.secrets) == []
    ensures ManagerStep(st, f).secrets == st.secrets
  {
    assert Written(Denote(st.spec), st.secrets, f) == 0;
  }

  lemma AppliedIsQuiet(m: map<string, int>, before: seq<Secret>, after: seq<Secret>)
    requires Int32Map(m) && FullyApplied(m, before, after)
    ensures OutdatedAt(m, after) == []
  {
    forall i | 0 <= i < |after|
      ensures !Outdated(m, after[i])
    {
      DesiredStable(m, before[i]);
    }
    NothingOutdated(m, after);
  }

  // Such secrets exist: a number off by 2^32 is left in place.
  lemma TruncatedNumberAccepted(s: Secret, id: int)
    requires IsInt32(id) && s.shard == Some(Itoa(id + 0x1_0000_0000))
    ensures Aliased(map[s.uid := id], s) && Desired(map[s.uid := id], s) == s
    ensures !Agrees(map[s.uid := id], [s])
  {
    AtoiItoa(id + 0x1_0000_0000);
    assert s in [s];
  }
}
