// The replica-set scaler: one reconcile over the partition, the shard manager, its own status
// and the StatefulSet.
module Scaler {
  import opened Common
  import opened Strconv
  import opened Serialization
  import opened ShardManager
  import opened StatefulSets

  datatype Mode = Default(rolloutRestart: bool) | XZeroY

  // key is what replica lists are compared by: their canonical string.
  datatype Settings = Settings(mode: Mode, ghost key: ReplicaList -> string) {
    ghost predicate Same(a: ReplicaList, b: ReplicaList) {
      key(a) == key(b)
    }

    ghost predicate ComparesSerialized() {
      forall p {:trigger Serialize(p)} :: key(p) == Serialize(p)
    }
  }

  datatype Reason =
    | Paused | PartitionProviderNotReady | ShardManagerNotReady
    | ErrorScalingToZero | BeginningScalingToZero | WaitingForScaleToZero
    | ErrorUpdatingShardManager | WaitingForShardManager
    | ErrorScaling | BeginningScaling | EnforcingDesiredState | WaitingForScale
    | Ready

  // Everything a reconcile reads or writes, and the pods behind the StatefulSet, each with the
  // value of the replicas variable it was created under.
  datatype World = World(
    paused: bool,
    providerReady: bool,
    partition: ReplicaList,
    manager: Manager,
    scaled: ReplicaList,
    ready: bool,
    reason: Reason,
    sts: Sts,
    pods: seq<Option<string>>)

  // Which of a reconcile's writes fail. A failed write leaves its object as it was.
  datatype ScalerFaults = ScalerFaults(scaleFails: bool, managerFails: bool, statusFails: bool, now: string)

  const NO_SCALER_FAULTS := ScalerFaults(false, false, false, "")

  function SetStatus(w: World, f: ScalerFaults, ready: bool, reason: Reason): World {
    if f.statusFails then w else w.(ready := ready, reason := reason)
  }

  predicate ScaleFails(w: World, f: ScalerFaults) {
    f.scaleFails || !HasApp(w.sts.containers)
  }

  function Enforce(w: World, f: ScalerFaults, n: nat): World {
    if ScaleFails(w, f) then SetStatus(w, f, false, ErrorScaling)
    else SetStatus(w.(sts := Scaled(w.sts, n, false, f.now)), f, false, EnforcingDesiredState)
  }

  // X-0-Y only: the partition wanted is not the one last scaled to.
  ghost predicate Pending(c: Settings, w: World) {
    c.mode.XZeroY? && !c.Same(w.partition, w.scaled)
  }

  function ScaleToZero(w: World, f: ScalerFaults): World {
    if w.sts.specReplicas.None? then w // the source dereferences nil here: nothing gets written
    else if w.sts.specReplicas.value > 0 then
      if ScaleFails(w, f) then SetStatus(w, f, false, ErrorScalingToZero)
      else SetStatus(w.(sts := Scaled(w.sts, 0, false, f.now)), f, false, BeginningScalingToZero)
    else SetStatus(w, f, false, WaitingForScaleToZero)
  }

  // The shard manager has applied the partition, but it is not the one last scaled to.
  function ScaleOut(c: Settings, w: World, f: ScalerFaults): World {
    var n := |w.partition|;
    var restart := c.mode.Default? && c.mode.rolloutRestart;
    if restart || w.sts.statusReplicas != n then
      if ScaleFails(w, f) then SetStatus(w, f, false, ErrorScaling)
      else
        var w' := w.(sts := Scaled(w.sts, n, restart, f.now));
        if f.statusFails then w' else w'.(scaled := w.manager.spec, ready := false, reason := BeginningScaling)
    else if f.statusFails then w
    else w.(scaled := w.manager.spec, ready := false, reason := BeginningScaling)
  }

  // Once the shard manager's spec is the partition.
  ghost function AfterManager(c: Settings, w: World, f: ScalerFaults): World {
    var n := |w.partition|;
    if !c.Same(w.partition, w.manager.status) then SetStatus(w, f, false, WaitingForShardManager)
    else if !c.Same(w.scaled, w.manager.status) then ScaleOut(c, w, f)
    else if NeedsEnforcement(w.sts, n) then Enforce(w, f, n)
    else if w.sts.statusReplicas != n then SetStatus(w, f, false, WaitingForScale)
    else SetStatus(w, f, true, Ready)
  }

  // The shard manager given the partition to apply.
  function Instructed(w: World): World {
    w.(manager := w.manager.(spec := w.partition))
  }

  ghost function Advance(c: Settings, w: World, f: ScalerFaults): World {
    if c.Same(w.partition, w.manager.spec) then AfterManager(c, w, f)
    else if f.managerFails then SetStatus(w, f, false, ErrorUpdatingShardManager)
    else AfterManager(c, Instructed(w), f)
  }

  ghost function ScalerStep(c: Settings, w: World, f: ScalerFaults): World {
    if w.paused then SetStatus(w, f, false, Paused)
    else if !w.providerReady then SetStatus(w, f, false, PartitionProviderNotReady)
    else if !w.manager.ready then SetStatus(w, f, false, ShardManagerNotReady)
    else if Pending(c, w) && w.sts.statusReplicas > 0 then ScaleToZero(w, f)
    else if !Pending(c, w) && |w.partition| > 0 && IsZero(w.sts) then Enforce(w, f, |w.partition|)
    else Advance(c, w, f)
  }

  // ---- the reconciler ------------------------------------------------------------------------------

  class Reconciler {
    const settings: Settings
    var paused: bool
    var providerReady: bool
    var partition: ReplicaList
    var manager: Manager
    var scaled: ReplicaList
    var ready: bool
    var reason: Reason
    var sts: Sts
    var pods: seq<Option<string>>

    ghost function State(): World
      reads this
    {
      World(paused, providerReady, partition, manager, scaled, ready, reason, sts, pods)
    }

    constructor (c: Settings, w: World)
      ensures settings == c && State() == w
    {
      settings := c;
      paused, providerReady, partition, manager, scaled, ready, reason, sts, pods :=
        w.paused, w.providerReady, w.partition, w.manager, w.scaled, w.ready, w.reason, w.sts, w.pods;
    }

    method SameString(a: ReplicaList, b: ReplicaList) returns (same: bool)
      requires settings.ComparesSerialized()
      ensures same <==> settings.Same(a, b)
    {
      var x := SerializeToString(a);
      var y := SerializeToString(b);
      same := x == y;
    }

    method UpdateStatus(f: ScalerFaults, newReady: bool, newReason: Reason)
      modifies this`ready, this`reason
      ensures State() == SetStatus(old(State()), f, newReady, newReason)
    {
      if !f.statusFails {
        ready, reason := newReady, newReason;
      }
    }

    // Reads the StatefulSet, scales the copy in place, and writes it back unless that fails.
    method ScaleAndUpdate(f: ScalerFaults, n: nat, restart: bool) returns (ok: bool)
      modifies this`sts
      ensures ok <==> !ScaleFails(old(State()), f)
      ensures State() == if ok then old(State()).(sts := Scaled(old(sts), n, restart, f.now)) else old(State())
    {
      var statefulSet := new StatefulSet(sts);
      var found := statefulSet.ScaleTo(n, restart, f.now);
      ok := found && !f.scaleFails;
      if ok {
        sts := statefulSet.Value();
      }
    }

    method EnforceDesiredState(f: ScalerFaults, n: nat)
      modifies this
      ensures State() == Enforce(old(State()), f, n)
    {
      var ok := ScaleAndUpdate(f, n, false);
      UpdateStatus(f, false, if ok then EnforcingDesiredState else ErrorScaling);
    }

    method ScaleDown(f: ScalerFaults)
      modifies this
      ensures State() == ScaleToZero(old(State()), f)
    {
      if sts.specReplicas.None? {
        return;
      }
      if sts.specReplicas.value > 0 {
        var ok := ScaleAndUpdate(f, 0, false);
        UpdateStatus(f, false, if ok then BeginningScalingToZero else ErrorScalingToZero);
      } else {
        UpdateStatus(f, false, WaitingForScaleToZero);
      }
    }

    method StartScaling(f: ScalerFaults)
      modifies this
      ensures State() == ScaleOut(settings, old(State()), f)
    {
      var restart := settings.mode.Default? && settings.mode.rolloutRestart;
      if restart || sts.statusReplicas != |partition| {
        var ok := ScaleAndUpdate(f, |partition|, restart);
        if !ok {
          UpdateStatus(f, false, ErrorScaling);
          return;
        }
      }
      if !f.statusFails {
        scaled := manager.spec;
        ready, reason := false, BeginningScaling;
      }
    }

    method Settle(f: ScalerFaults)
      modifies this
      ensures State() == if NeedsEnforcement(old(sts), |old(partition)|) then Enforce(old(State()), f, |old(partition)|)
                         else if old(sts).statusReplicas != |old(partition)|
                         then SetStatus(old(State()), f, false, WaitingForScale)
                         else SetStatus(old(State()), f, true, Ready)
    {
      var statefulSet := new StatefulSet(sts);
      var enforce := statefulSet.NeedsDesiredStateEnforcement(|partition|);
      if enforce {
        EnforceDesiredState(f, |partition|);
      } else if sts.statusReplicas != |partition| {
        UpdateStatus(f, false, WaitingForScale);
      } else {
        UpdateStatus(f, true, Ready);
      }
    }

    method UpdateManager(f: ScalerFaults) returns (ok: bool)
      requires settings.ComparesSerialized()
      modifies this`manager
      ensures ok <==> settings.Same(partition, old(manager).spec) || !f.managerFails
      ensures manager == if !settings.Same(partition, old(manager).spec) && !f.managerFails
                         then old(manager).(spec := partition) else old(manager)
    {
      var wanted := SameString(partition, manager.spec);
      ok := wanted || !f.managerFails;
      if !wanted && ok {
        manager := manager.(spec := partition);
      }
    }

    method Proceed(f: ScalerFaults)
      requires settings.ComparesSerialized()
      modifies this
      ensures State() == Advance(settings, old(State()), f)
    {
      var updated := UpdateManager(f);
      if !updated {
        UpdateStatus(f, false, ErrorUpdatingShardManager);
        return;
      }
      var applied := SameString(partition, manager.status);
      if !applied {
        UpdateStatus(f, false, WaitingForShardManager);
        return;
      }
      var done := SameString(scaled, manager.status);
      if !done {
        StartScaling(f);
      } else {
        Settle(f);
      }
    }

    method Reconcile(f: ScalerFaults)
      requires settings.ComparesSerialized()
      modifies this
      ensures State() == ScalerStep(settings, old(State()), f)
    {
      if paused {
        UpdateStatus(f, false, Paused);
        return;
      }
      if !providerReady {
        UpdateStatus(f, false, PartitionProviderNotReady);
        return;
      }
      if !manager.ready {
        UpdateStatus(f, false, ShardManagerNotReady);
        return;
      }
      var same := SameString(partition, scaled);
      var pending := settings.mode.XZeroY? && !same;
      if pending && sts.statusReplicas > 0 {
        ScaleDown(f);
        return;
      }
      if !pending && |partition| > 0 && IsZero(sts) {
        EnforceDesiredState(f, |partition|);
        return;
      }
      Proceed(f);
    }
  }

  // ---- what Ready means ----------------------------------------------------------------------------

  // All four lists compare equal, and the StatefulSet wants, has and advertises one replica per
  // entry of the partition.
  ghost predicate Agreement(c: Settings, w: World) {
    && c.Same(w.partition, w.manager.spec) && c.Same(w.partition, w.manager.status) && c.Same(w.partition, w.scaled)
    && w.sts.specReplicas == Some(|w.partition|) && w.sts.statusReplicas == |w.partition|
    && FirstEnv(w.sts.containers) == Some(Itoa(|w.partition|))
  }

  // The one reconcile that writes nothing: it dereferences an unset replica count.
  ghost predicate Panics(c: Settings, w: World) {
    && !w.paused && w.providerReady && w.manager.ready
    && Pending(c, w) && w.sts.statusReplicas > 0 && w.sts.specReplicas.None?
  }

  // Ready is written only in agreement, and in agreement it is written.
  lemma ReadyMeansAgreement(c: Settings, w: World, f: ScalerFaults)
    requires !f.statusFails
    ensures Panics(c, w) ==> ScalerStep(c, w, f) == w
    ensures !Panics(c, w) && ScalerStep(c, w, f).ready ==>
              Agreement(c, ScalerStep(c, w, f)) && !w.paused && w.providerReady && w.manager.ready
    ensures Agreement(c, w) && !w.paused && w.providerReady && w.manager.ready ==>
              ScalerStep(c, w, f) == w.(ready := true, reason := Ready)
  {
  }

  // ---- the canonical string, as far as the protocol relies on it --------------------------------------

  // What the partition provider emits.
  ghost predicate WellFormed(list: ReplicaList) {
    Numbered(list) && CleanList(list) && DistinctUids(Flatten(list)) && Int32Ids(list)
  }

  ghost predicate KeyAgrees(key: ReplicaList -> string, a: ReplicaList, b: ReplicaList) {
    WellFormed(a) && WellFormed(b) && key(a) == key(b) ==> |a| == |b| && Denote(a) == Denote(b)
  }

  ghost predicate CanonicalKey(key: ReplicaList -> string) {
    forall a, b :: KeyAgrees(key, a, b)
  }

  lemma SerializeIsCanonical(c: Settings)
    requires c.ComparesSerialized()
    ensures CanonicalKey(c.key)
  {
    forall a, b
      ensures KeyAgrees(c.key, a, b)
    {
      assert c.key(a) == Serialize(a) && c.key(b) == Serialize(b);
      if WellFormed(a) && WellFormed(b) && Same(a, b) {
        SerializationAgrees(a, b);
      }
    }
  }

  lemma SerializationAgrees(a: ReplicaList, b: ReplicaList)
    requires WellFormed(a) && WellFormed(b) && Same(a, b)
    ensures |a| == |b| && Denote(a) == Denote(b)
  {
    SameCount(a, b);
    Canonical(a, b);
  }
}
