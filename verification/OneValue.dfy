// X-0-Y mode: at no point in time do two pods run under different values of the replicas variable.
module OneValue {
  import opened Common
  import opened Strconv
  import opened ShardManager
  import opened StatefulSets
  import opened Scaler
  import opened Sorting
  import opened XZeroY

  predicate Each(pods: seq<Option<string>>, value: Option<string>) {
    forall i | 0 <= i < |pods| :: pods[i] == value
  }

  // All the pods in existence were created under one value of ARGOCD_CONTROLLER_REPLICAS.
  predicate OneValued(w: World) {
    forall i, j | 0 <= i < |w.pods| && 0 <= j < |w.pods| :: w.pods[i] == w.pods[j]
  }

  // Where several pods may meet, they have the value new pods get; and where the scaler may return
  // to several replicas of the partition last scaled to, they have the value of that one.
  ghost predicate Valued(w: World) {
    && OneValued(w)
    && (Wants(w) >= 2 ==> Each(w.pods, PodEnv(w.sts.containers)))
    && (|w.scaled| >= 2 ==> Each(w.pods, Some(Itoa(|w.scaled|))))
    && (|w.scaled| >= 2 && Wants(w) > 0 ==> PodEnv(w.sts.containers) == Some(Itoa(|w.scaled|)))
  }

  ghost predicate ValueInv(w: World) {
    Listed(w) && Counts(w) && Valued(w)
  }

  // The pods of a steady state run under the size of the partition.
  ghost predicate SteadyPods(c: Settings, w: World) {
    && Steady(c, w)
    && (|w.partition| > 0 ==> Each(w.pods, Some(Itoa(|w.partition|)))
                              && PodEnv(w.sts.containers) == Some(Itoa(|w.partition|)))
  }

  lemma SteadyValued(c: Settings, w: World)
    requires CanonicalKey(c.key) && SteadyPods(c, w)
    ensures ValueInv(w)
  {
    assert KeyAgrees(c.key, w.partition, w.scaled);
  }

  // ---- one reconcile ------------------------------------------------------------------------------------

  // The reconcile scales out to another number of replicas than the two or more it last recorded,
  // and the status write that would record it is lost.
  ghost predicate LostRecord(c: Settings, w: World, f: ScalerFaults) {
    && f.statusFails && !ScaleFails(w, f)
    && !w.paused && w.providerReady && w.manager.ready
    && Pending(c, w) && w.pods == []
    && (c.Same(w.partition, w.manager.spec) || !f.managerFails) && c.Same(w.partition, w.manager.status)
    && |w.partition| > 0 && |w.scaled| >= 2 && |w.partition| != |w.scaled|
  }

  lemma ScaledPodEnv(s: Sts, n: nat, now: string)
    requires HasApp(s.containers)
    ensures PodEnv(Scaled(s, n, false, now).containers) == Some(Itoa(n))
    ensures HasApp(Scaled(s, n, false, now).containers)
  {
    ScaledEnvIs(s, n, false, now);
    EnvIsSeen(Scaled(s, n, false, now).containers, n);
  }

  lemma EnforceValued(c: Settings, w: World, f: ScalerFaults)
    requires c.mode == XZeroY && Valued(w) && !Pending(c, w) && |w.partition| == |w.scaled|
    ensures Valued(Enforce(w, f, |w.partition|))
  {
    if !ScaleFails(w, f) {
      ScaledPodEnv(w.sts, |w.partition|, f.now);
    }
  }

  lemma ScaleOutValued(c: Settings, w: World, f: ScalerFaults)
    requires c.mode == XZeroY && Valued(w) && Counts(w) && w.pods == [] && |w.manager.spec| == |w.partition|
    ensures Valued(ScaleOut(c, w, f)) <==>
            !(f.statusFails && !ScaleFails(w, f) && |w.partition| > 0 && |w.scaled| >= 2 && |w.partition| != |w.scaled|)
  {
    if |w.partition| > 0 && !ScaleFails(w, f) {
      ScaledPodEnv(w.sts, |w.partition|, f.now);
      ItoaInjective(|w.partition|, |w.scaled|);
    }
  }

  // Lists that compare equal have as many replicas.
  ghost predicate Counted(c: Settings, w: World) {
    && (c.Same(w.partition, w.scaled) ==> |w.partition| == |w.scaled|)
    && (c.Same(w.partition, w.manager.spec) ==> |w.partition| == |w.manager.spec|)
  }

  lemma ListedCounted(c: Settings, w: World)
    requires CanonicalKey(c.key) && Listed(w)
    ensures Counted(c, w)
  {
    assert KeyAgrees(c.key, w.partition, w.scaled) && KeyAgrees(c.key, w.partition, w.manager.spec);
  }

  lemma AfterManagerValued(c: Settings, w: World, f: ScalerFaults)
    requires c.mode == XZeroY && Valued(w) && Counts(w) && Counted(c, w)
    requires !w.paused && w.providerReady && w.manager.ready
    requires c.Same(w.partition, w.manager.spec) && (Pending(c, w) ==> w.pods == [])
    ensures Valued(AfterManager(c, w, f)) <==> !LostRecord(c, w, f)
  {
    if !c.Same(w.partition, w.manager.status) {
    } else if !c.Same(w.scaled, w.manager.status) {
      ScaleOutValued(c, w, f);
    } else if NeedsEnforcement(w.sts, |w.partition|) {
      EnforceValued(c, w, f);
    }
  }

  lemma ScalerValued(c: Settings, w: World, f: ScalerFaults)
    requires c.mode == XZeroY && Valued(w) && Counts(w) && Counted(c, w)
    ensures Valued(ScalerStep(c, w, f)) <==> !LostRecord(c, w, f)
  {
    if w.paused || !w.providerReady || !w.manager.ready {
    } else if Pending(c, w) && w.sts.statusReplicas > 0 {
    } else if !Pending(c, w) && |w.partition| > 0 && IsZero(w.sts) {
      EnforceValued(c, w, f);
    } else if c.Same(w.partition, w.manager.spec) {
      AfterManagerValued(c, w, f);
    } else if !f.managerFails {
      AfterManagerValued(c, Instructed(w), f);
    }
  }

  // A reconcile keeps the invariant exactly when it loses no such record.
  lemma ScalerValueIff(c: Settings, w: World, f: ScalerFaults)
    requires c.mode == XZeroY && CanonicalKey(c.key) && ValueInv(w)
    ensures ValueInv(ScalerStep(c, w, f)) <==> !LostRecord(c, w, f)
  {
    ListedCounted(c, w);
    ScalerValued(c, w, f);
    ScalerLists(c, w, f);
  }

  // ---- whole runs -------------------------------------------------------------------------------------------

  lemma PodUpValued(w: World)
    requires ValueInv(w) && |w.pods| < Wants(w)
    ensures ValueInv(SetPods(w, w.pods + [PodEnv(w.sts.containers)]))
  {
  }

  lemma PodDownValued(w: World, i: nat)
    requires ValueInv(w) && i < |w.pods|
    ensures ValueInv(SetPods(w, Without(w.pods, i)))
  {
    assert forall q | 0 <= q < |w.pods| - 1 :: Without(w.pods, i)[q] in w.pods;
  }

  lemma ManagerValued(w: World, f: Faults)
    requires ValueInv(w)
    ensures ValueInv(w.(manager := ManagerStep(w.manager, f)))
  {
    ManagerEffect(w.manager, f);
  }

  ghost predicate LosesRecord(c: Settings, w: World, a: Action) {
    a.ScalerActs? && LostRecord(c, w, a.scalerFaults)
  }

  lemma StepValued(c: Settings, w: World, a: Action)
    requires c.mode == XZeroY && CanonicalKey(c.key) && ValueInv(w)
    requires Enabled(w, a) && !LosesRecord(c, w, a)
    ensures ValueInv(Apply(c, w, a))
  {
    match a
    case ScalerActs(f) => ScalerValueIff(c, w, f);
    case ManagerActs(f) => ManagerValued(w, f);
    case PodUp => PodUpValued(w);
    case PodDown(i) => PodDownValued(w, i);
    case Provide(q) =>
    case SetFlags(p, r) =>
    case SecretAppears(s) =>
    case SecretVanishes(i) =>
  }

  ghost predicate NoneLost(c: Settings, ws: seq<World>, actions: seq<Action>) {
    |actions| <= |ws| && forall i | 0 <= i < |actions| :: !LosesRecord(c, ws[i], actions[i])
  }

  lemma {:induction false} RunValued(c: Settings, ws: seq<World>, actions: seq<Action>, k: nat)
    requires c.mode == XZeroY && CanonicalKey(c.key)
    requires IsRun(c, ws, actions) && NoneLost(c, ws, actions) && ValueInv(ws[0]) && k < |ws|
    ensures ValueInv(ws[k])
  {
    if k > 0 {
      RunValued(c, ws, actions, k - 1);
      StepValued(c, ws[k - 1], actions[k - 1]);
    }
  }

  // From a steady state, whatever the provider publishes and whichever pods are lost, with any
  // writes failing except those: all the pods in existence run under one value.
  lemma OneValueThroughout(c: Settings, ws: seq<World>, actions: seq<Action>, k: nat)
    requires c.mode == XZeroY && CanonicalKey(c.key)
    requires IsRun(c, ws, actions) && NoneLost(c, ws, actions) && SteadyPods(c, ws[0]) && k < |ws|
    ensures OneValued(ws[k])
  {
    SteadyValued(c, ws[0]);
    RunValued(c, ws, actions, k);
  }
}
