// The scaler object by object: when a reconcile writes which object, and what it leaves there. The
// reconcile itself is written branch by branch.
module ScalerWrites {
  import opened Common
  import opened Strconv
  import opened Serialization
  import opened ShardManager
  import opened StatefulSets
  import opened Scaler

  // ---- the phases of a reconcile ---------------------------------------------------------------------

  ghost predicate Admitted(w: World) {
    !w.paused && w.providerReady && w.manager.ready
  }

  // X-0-Y: another partition is wanted than the one last scaled to, and there are pods.
  ghost predicate Emptying(c: Settings, w: World) {
    Admitted(w) && c.mode.XZeroY? && !c.Same(w.partition, w.scaled) && w.sts.statusReplicas > 0
  }

  // Outside an X-0-Y transition pods are wanted, and there are none or none are asked for.
  ghost predicate Reviving(c: Settings, w: World) {
    && Admitted(w) && (c.mode.XZeroY? ==> c.Same(w.partition, w.scaled))
    && w.partition != [] && (w.sts.specReplicas == Some(0) || w.sts.statusReplicas == 0)
  }

  // The shard manager's spec compares equal to the partition, or is replaced by it now.
  ghost predicate Handed(c: Settings, w: World, f: ScalerFaults) {
    && Admitted(w) && !Emptying(c, w) && !Reviving(c, w)
    && (c.Same(w.partition, w.manager.spec) || !f.managerFails)
  }

  // The shard manager has applied the partition, and it is not the one last scaled to.
  ghost predicate ScalingOut(c: Settings, w: World, f: ScalerFaults) {
    Handed(c, w, f) && c.Same(w.partition, w.manager.status) && !c.Same(w.scaled, w.manager.status)
  }

  ghost predicate Settling(c: Settings, w: World, f: ScalerFaults) {
    Handed(c, w, f) && c.Same(w.partition, w.manager.status) && c.Same(w.scaled, w.manager.status)
  }

  ghost predicate CanScale(w: World, f: ScalerFaults) {
    !f.scaleFails && exists k :: k in w.sts.containers && k.name == APP_CONTAINER
  }

  // ---- what is written -------------------------------------------------------------------------------

  // The spec of the shard manager is replaced, by the partition, exactly when it differs and no
  // pods have to go or come back first.
  ghost predicate ManagerWritten(c: Settings, w: World, f: ScalerFaults, w': World) {
    w'.manager
      == if Handed(c, w, f) && !c.Same(w.partition, w.manager.spec) then w.manager.(spec := w.partition) else w.manager
  }

  // The list last scaled to is replaced exactly at a scale-out whose writes succeed; if the pods are
  // as many already and need no restart, the StatefulSet is not among them.
  ghost predicate ScaledRecorded(c: Settings, w: World, f: ScalerFaults, w': World) {
    w'.scaled
      == if ScalingOut(c, w, f) && !f.statusFails
            && (CanScale(w, f) || (c.mode != Default(true) && w.sts.statusReplicas == |w.partition|))
         then w'.manager.spec else w.scaled
  }

  // Pods are restarted exactly at a scale-out in default mode with a rollout restart, whatever the
  // number of replicas; no other annotation ever changes.
  ghost predicate Restarted(c: Settings, w: World, f: ScalerFaults, w': World) {
    w'.sts.annotations
      == if ScalingOut(c, w, f) && c.mode == Default(true) && CanScale(w, f)
         then w.sts.annotations[RESTARTED_AT := f.now] else w.sts.annotations
  }

  ghost predicate Asks(s: Sts, n: nat) {
    s.specReplicas == Some(n) && FirstEnv(s.containers) == Some(Itoa(n))
  }

  // How many replicas a reconcile asks for, if it asks: none to empty, as many as the partition
  // has to revive and to settle, and to scale out unless the pods are as many already.
  ghost function Asked(c: Settings, w: World, f: ScalerFaults): Option<nat> {
    if Emptying(c, w) && w.sts.specReplicas != None && w.sts.specReplicas != Some(0) then Some(0)
    else if Reviving(c, w) || Settling(c, w, f) then Some(|w.partition|)
    else if ScalingOut(c, w, f) && (c.mode == Default(true) || w.sts.statusReplicas != |w.partition|)
    then Some(|w.partition|)
    else None
  }

  ghost predicate ReplicasAsked(c: Settings, w: World, f: ScalerFaults, s': Sts) {
    if CanScale(w, f) && Asked(c, w, f).Some? then Asks(s', Asked(c, w, f).value) else s' == w.sts
  }

  // Nothing else is touched.
  ghost predicate OnlyThese(w: World, w': World) {
    && w'.paused == w.paused && w'.providerReady == w.providerReady && w'.partition == w.partition
    && w'.pods == w.pods && w'.sts.statusReplicas == w.sts.statusReplicas
  }

  // A failing status write leaves the whole status as it was.
  ghost predicate StatusKept(w: World, w': World) {
    w'.ready == w.ready && w'.reason == w.reason && w'.scaled == w.scaled
  }

  // What each reported reason says.
  ghost predicate ReasonTells(c: Settings, w: World, f: ScalerFaults, w': World) {
    && (w'.ready <==> w'.reason == Ready)
    && (w'.reason == Paused <==> w.paused)
    && (w'.reason == PartitionProviderNotReady <==> !w.paused && !w.providerReady)
    && (w'.reason == ShardManagerNotReady <==> !w.paused && w.providerReady && !w.manager.ready)
    && (w'.reason == ErrorScalingToZero <==> Emptying(c, w) && w.sts.specReplicas != Some(0) && !CanScale(w, f))
    && (w'.reason == BeginningScalingToZero <==> Emptying(c, w) && w.sts.specReplicas != Some(0) && CanScale(w, f))
    && (w'.reason == WaitingForScaleToZero <==> Emptying(c, w) && w.sts.specReplicas == Some(0))
    && (w'.reason == ErrorUpdatingShardManager <==>
          Admitted(w) && !Emptying(c, w) && !Reviving(c, w) && !Handed(c, w, f))
    && (w'.reason == WaitingForShardManager <==> Handed(c, w, f) && !c.Same(w.partition, w.manager.status))
    && (w'.reason == BeginningScaling <==> ScalingOut(c, w, f) && w'.reason != ErrorScaling)
    && (w'.reason == ErrorScaling ==> !CanScale(w, f) && w'.sts == w.sts)
    && (w'.reason == EnforcingDesiredState ==> CanScale(w, f) && (Reviving(c, w) || Settling(c, w, f)))
    && (w'.reason == WaitingForScale ==> Settling(c, w, f) && w.sts.statusReplicas != |w.partition|)
  }

  // The StatefulSet is what scaling makes of it.
  ghost predicate ScaledTo(c: Settings, w: World, f: ScalerFaults, s': Sts) {
    if !CanScale(w, f) || Asked(c, w, f).None? then s' == w.sts
    else
      || s' == Scaled(w.sts, Asked(c, w, f).value, ScalingOut(c, w, f) && c.mode == Default(true), f.now)
      || (Settling(c, w, f) && s' == w.sts && !NeedsEnforcement(w.sts, |w.partition|))
  }

  ghost predicate Effects(c: Settings, w: World, f: ScalerFaults, w': World) {
    && ManagerWritten(c, w, f, w') && ScaledRecorded(c, w, f, w') && ScaledTo(c, w, f, w'.sts) && OnlyThese(w, w')
    && (if f.statusFails then StatusKept(w, w') else !Panics(c, w) ==> ReasonTells(c, w, f, w'))
  }

  lemma NotAdmitted(c: Settings, w: World, f: ScalerFaults)
    requires !Admitted(w)
    ensures Effects(c, w, f, ScalerStep(c, w, f))
  {
  }

  lemma WhenEmptying(c: Settings, w: World, f: ScalerFaults)
    requires Emptying(c, w)
    ensures Effects(c, w, f, ScalerStep(c, w, f))
  {
  }

  lemma WhenReviving(c: Settings, w: World, f: ScalerFaults)
    requires Reviving(c, w)
    ensures Effects(c, w, f, ScalerStep(c, w, f))
  {
  }

  lemma WhenRefused(c: Settings, w: World, f: ScalerFaults)
    requires Admitted(w) && !Emptying(c, w) && !Reviving(c, w) && !Handed(c, w, f)
    ensures Effects(c, w, f, ScalerStep(c, w, f))
  {
  }

  lemma WhenWaiting(c: Settings, w: World, f: ScalerFaults)
    requires Handed(c, w, f) && !c.Same(w.partition, w.manager.status)
    ensures Effects(c, w, f, ScalerStep(c, w, f))
  {
  }

  // The world the last phases work on: the shard manager instructed, if it needed to be.
  ghost predicate Told(c: Settings, w: World, told: World) {
    told == if c.Same(w.partition, w.manager.spec) then w else Instructed(w)
  }

  lemma ScaleOutEffects(c: Settings, w: World, f: ScalerFaults, told: World)
    requires ScalingOut(c, w, f) && Told(c, w, told)
    ensures Effects(c, w, f, ScaleOut(c, told, f))
  {
    if c.mode == Default(true) || w.sts.statusReplicas != |w.partition| {
      if !ScaleFails(w, f) {
        assert ScaleOut(c, told, f).sts == Scaled(w.sts, |w.partition|, c.mode == Default(true), f.now);
      }
    }
  }

  lemma WhenScalingOut(c: Settings, w: World, f: ScalerFaults)
    requires ScalingOut(c, w, f)
    ensures Effects(c, w, f, ScalerStep(c, w, f))
  {
    var told := if c.Same(w.partition, w.manager.spec) then w else Instructed(w);
    ScaleOutEffects(c, w, f, told);
    assert ScalerStep(c, w, f) == ScaleOut(c, told, f);
  }

  lemma SettleEffects(c: Settings, w: World, f: ScalerFaults, told: World, w': World)
    requires Settling(c, w, f) && Told(c, w, told)
    requires w' == if NeedsEnforcement(w.sts, |w.partition|) then Enforce(told, f, |w.partition|)
                   else if w.sts.statusReplicas != |w.partition| then SetStatus(told, f, false, WaitingForScale)
                   else SetStatus(told, f, true, Ready)
    ensures Effects(c, w, f, w')
  {
  }

  lemma WhenSettling(c: Settings, w: World, f: ScalerFaults)
    requires Settling(c, w, f)
    ensures Effects(c, w, f, ScalerStep(c, w, f))
  {
    var told := if c.Same(w.partition, w.manager.spec) then w else Instructed(w);
    SettleEffects(c, w, f, told, ScalerStep(c, w, f));
  }

  lemma ScaledAsks(s: Sts, n: nat, restart: bool, now: string)
    requires HasApp(s.containers)
    ensures Asks(Scaled(s, n, restart, now), n)
  {
    ScaledEnvIs(s, n, restart, now);
    EnvIsSeen(Scaled(s, n, restart, now).containers, n);
  }

  lemma RestartEffect(c: Settings, w: World, f: ScalerFaults, w': World)
    requires ScaledTo(c, w, f, w'.sts)
    ensures Restarted(c, w, f, w')
  {
  }

  lemma ReplicasEffect(c: Settings, w: World, f: ScalerFaults, s': Sts)
    requires ScaledTo(c, w, f, s')
    ensures ReplicasAsked(c, w, f, s')
  {
    if CanScale(w, f) && Asked(c, w, f).Some? {
      ScaledAsks(w.sts, Asked(c, w, f).value, ScalingOut(c, w, f) && c.mode == Default(true), f.now);
    }
  }

  // Every reconcile, in either mode and with any of its writes failing.
  lemma ReconcileWrites(c: Settings, w: World, f: ScalerFaults)
    ensures var w' := ScalerStep(c, w, f);
            && ManagerWritten(c, w, f, w') && ScaledRecorded(c, w, f, w') && Restarted(c, w, f, w')
            && ReplicasAsked(c, w, f, w'.sts) && OnlyThese(w, w')
            && (if f.statusFails then StatusKept(w, w') else !Panics(c, w) ==> ReasonTells(c, w, f, w'))
  {
    if !Admitted(w) {
      NotAdmitted(c, w, f);
    } else if Emptying(c, w) {
      WhenEmptying(c, w, f);
    } else if Reviving(c, w) {
      WhenReviving(c, w, f);
    } else if !Handed(c, w, f) {
      WhenRefused(c, w, f);
    } else if !c.Same(w.partition, w.manager.status) {
      WhenWaiting(c, w, f);
    } else if !c.Same(w.scaled, w.manager.status) {
      WhenScalingOut(c, w, f);
    } else {
      WhenSettling(c, w, f);
    }
    RestartEffect(c, w, f, ScalerStep(c, w, f));
    ReplicasEffect(c, w, f, ScalerStep(c, w, f).sts);
  }

  // In default mode a new list is recorded with a restart if and only if restarts are configured.
  lemma RestartedWhenRecorded(c: Settings, w: World, f: ScalerFaults)
    requires c.mode.Default? && ScalerStep(c, w, f).scaled != w.scaled
    ensures ScalerStep(c, w, f).sts.annotations
         == if c.mode.rolloutRestart then w.sts.annotations[RESTARTED_AT := f.now] else w.sts.annotations
  {
    ReconcileWrites(c, w, f);
  }
}
