// X-0-Y mode: shards are never reassigned under running pods, whatever the interleaving.
module XZeroY {
  import opened Common
  import opened Strconv
  import opened Serialization
  import opened ShardManager
  import opened StatefulSets
  import opened Scaler
  import opened Sorting

  // ---- the system ----------------------------------------------------------------------------------

  // The steps of the system: the scaler and the shard manager with any of their writes failing,
  // the StatefulSet controller and the cluster moving pods, the provider publishing another
  // partition, cluster secrets coming and going, and a user pausing the scaler.
  datatype Action =
    | ScalerActs(scalerFaults: ScalerFaults)
    | ManagerActs(managerFaults: Faults)
    | PodUp
    | PodDown(pod: nat)
    | Provide(partition: ReplicaList)
    | SetFlags(paused: bool, providerReady: bool)
    | SecretAppears(secret: Secret)
    | SecretVanishes(at: nat)

  function Wants(w: World): nat {
    match w.sts.specReplicas case None => 1 case Some(n) => n
  }

  // Pods exist, or are wanted and may appear at any moment.
  predicate Running(w: World) {
    Wants(w) > 0 || w.pods != []
  }

  function SetPods(w: World, pods: seq<Option<string>>): World {
    w.(pods := pods, sts := w.sts.(statusReplicas := |pods|))
  }

  function SetSecrets(w: World, secrets: seq<Secret>): World {
    w.(manager := w.manager.(secrets := secrets))
  }

  // What the environment may do. A pod may be lost, evicted or rolled at any time. A new secret is a
  // new object, so no list names its UID yet.
  ghost predicate Enabled(w: World, a: Action) {
    match a
    case ScalerActs(_) => true
    case ManagerActs(_) => true
    case PodUp => |w.pods| < Wants(w)
    case PodDown(i) => i < |w.pods|
    case Provide(q) => WellFormed(q)
    case SetFlags(_, _) => true
    case SecretAppears(s) => s.uid !in Denote(w.manager.spec)
    case SecretVanishes(i) => i < |w.manager.secrets|
  }

  ghost function Apply(c: Settings, w: World, a: Action): World
    requires Enabled(w, a)
  {
    match a
    case ScalerActs(f) => ScalerStep(c, w, f)
    case ManagerActs(f) => w.(manager := ManagerStep(w.manager, f))
    case PodUp => SetPods(w, w.pods + [PodEnv(w.sts.containers)])
    case PodDown(i) => SetPods(w, Without(w.pods, i))
    case Provide(q) => w.(partition := q)
    case SetFlags(p, r) => w.(paused := p, providerReady := r)
    case SecretAppears(s) => SetSecrets(w, w.manager.secrets + [s])
    case SecretVanishes(i) => SetSecrets(w, Without(w.manager.secrets, i))
  }

  // The states visited by a sequence of actions, as long as each is enabled.
  ghost predicate IsRun(c: Settings, ws: seq<World>, actions: seq<Action>) {
    && |ws| == |actions| + 1
    && forall i | 0 <= i < |actions| :: Enabled(ws[i], actions[i]) && ws[i + 1] == Apply(c, ws[i], actions[i])
  }

  // A run that leads from one state to another, whatever it does in between.
  ghost predicate Leads(c: Settings, ws: seq<World>, actions: seq<Action>, first: World, last: World) {
    IsRun(c, ws, actions) && ws[0] == first && ws[|actions|] == last
  }

  lemma Extend(c: Settings, ws: seq<World>, actions: seq<Action>, first: World, w: World, a: Action)
    returns (ws': seq<World>, actions': seq<Action>, w': World)
    requires Leads(c, ws, actions, first, w) && Enabled(w, a)
    ensures w' == Apply(c, w, a) && ws' == ws + [w'] && actions' == actions + [a]
    ensures Leads(c, ws', actions', first, w')
  {
    w' := Apply(c, w, a);
    ws', actions' := ws + [w'], actions + [a];
  }

  // The scaler only copies lists around, and touches neither secrets nor pods nor their count.
  ghost predicate CopiesLists(w: World, w': World) {
    && w'.partition == w.partition && w'.manager.status == w.manager.status
    && (w'.manager.spec == w.manager.spec || w'.manager.spec == w.partition)
    && (w'.scaled == w.scaled || w'.scaled == w.manager.spec || w'.scaled == w.partition)
    && w'.manager.secrets == w.manager.secrets
    && w'.pods == w.pods && w'.sts.statusReplicas == w.sts.statusReplicas
  }

  lemma ScaleOutLists(c: Settings, w: World, f: ScalerFaults)
    ensures CopiesLists(w, ScaleOut(c, w, f))
  {
  }

  lemma EnforceLists(w: World, f: ScalerFaults, n: nat)
    ensures CopiesLists(w, Enforce(w, f, n))
  {
  }

  lemma StatusLists(w: World, f: ScalerFaults, ready: bool, reason: Reason)
    ensures CopiesLists(w, SetStatus(w, f, ready, reason))
  {
  }

  lemma AfterManagerLists(c: Settings, w: World, f: ScalerFaults)
    ensures CopiesLists(w, AfterManager(c, w, f))
  {
    if !c.Same(w.partition, w.manager.status) {
    } else if !c.Same(w.scaled, w.manager.status) {
      ScaleOutLists(c, w, f);
    } else if NeedsEnforcement(w.sts, |w.partition|) {
      EnforceLists(w, f, |w.partition|);
    } else {
      StatusLists(w, f, false, WaitingForScale);
      StatusLists(w, f, true, Ready);
    }
  }

  lemma AdvanceLists(c: Settings, w: World, f: ScalerFaults)
    ensures CopiesLists(w, Advance(c, w, f))
  {
    if c.Same(w.partition, w.manager.spec) {
      AfterManagerLists(c, w, f);
    } else if f.managerFails {
      StatusLists(w, f, false, ErrorUpdatingShardManager);
    } else {
      AfterManagerLists(c, Instructed(w), f);
    }
  }

  lemma ScalerLists(c: Settings, w: World, f: ScalerFaults)
    ensures CopiesLists(w, ScalerStep(c, w, f))
  {
    if w.paused || !w.providerReady || !w.manager.ready {
    } else if Pending(c, w) && w.sts.statusReplicas > 0 {
    } else if !Pending(c, w) && |w.partition| > 0 && IsZero(w.sts) {
      EnforceLists(w, f, |w.partition|);
    } else {
      AdvanceLists(c, w, f);
    }
  }

  // ---- reassignments and pods apart ------------------------------------------------------------------

  ghost predicate Applied(c: Settings, w: World) {
    c.Same(w.manager.spec, w.manager.status)
  }

  // The shard manager would write no secret.
  ghost predicate Quiet(m: Manager) {
    OutdatedAt(Denote(m.spec), m.secrets) == []
  }

  // While pods exist or are wanted, the shard manager has applied its spec and has nothing to write.
  ghost predicate Apart(c: Settings, w: World) {
    Running(w) ==> Applied(c, w) && Quiet(w.manager)
  }

  // A secret's recorded replica changes: a shard moves.
  ghost predicate MovesShard(w: World, a: Action, w': World) {
    a.ManagerActs? && w'.manager.secrets != w.manager.secrets
  }

  ghost predicate Counts(w: World) {
    w.sts.statusReplicas == |w.pods|
  }

  // The reconcile is about to bring pods back, or to keep them, while the shard manager has
  // secrets to write or another list to apply.
  ghost predicate Hazard(c: Settings, w: World, f: ScalerFaults) {
    && !w.paused && w.providerReady && w.manager.ready
    && !(Pending(c, w) && w.sts.statusReplicas > 0)
    && if !Pending(c, w) && |w.partition| > 0 && IsZero(w.sts)
       then !ScaleFails(w, f) && !Running(w) && !(Applied(c, w) && Quiet(w.manager))
       else if c.Same(w.partition, w.manager.spec)
       then c.Same(w.partition, w.manager.status) && StartsPods(c, w, f) && !Running(w) && !Quiet(w.manager)
       else !f.managerFails
            && if c.Same(w.partition, w.manager.status)
               then (StartsPods(c, w, f) || KeepsPods(c, w, f))
                    && OutdatedAt(Denote(w.partition), w.manager.secrets) != []
               else Running(w)
  }

  // Past the shard manager, an X-0-Y transition scales out.
  ghost predicate StartsPods(c: Settings, w: World, f: ScalerFaults) {
    Pending(c, w) && |w.partition| > 0 && !ScaleFails(w, f)
  }

  // Past the shard manager, pods stay or stay wanted.
  ghost predicate KeepsPods(c: Settings, w: World, f: ScalerFaults) {
    if Pending(c, w) || |w.partition| > 0 || ScaleFails(w, f) then Running(w) else w.pods != []
  }

  lemma ScaleOutRuns(c: Settings, w: World, f: ScalerFaults)
    requires c.mode == XZeroY && Counts(w) && Pending(c, w) && w.pods == []
    ensures ScaleOut(c, w, f).manager == w.manager
    ensures Running(ScaleOut(c, w, f)) <==> StartsPods(c, w, f) || KeepsPods(c, w, f)
  {
  }

  lemma EnforceRuns(c: Settings, w: World, f: ScalerFaults)
    requires c.mode == XZeroY && Counts(w) && !Pending(c, w) && !(|w.partition| > 0 && IsZero(w.sts))
    ensures Running(Enforce(w, f, |w.partition|)) <==> StartsPods(c, w, f) || KeepsPods(c, w, f)
    ensures !NeedsEnforcement(w.sts, |w.partition|) ==> (Running(w) <==> StartsPods(c, w, f) || KeepsPods(c, w, f))
  {
  }

  // What follows once the shard manager's spec is the partition.
  lemma AfterManagerApart(c: Settings, w: World, f: ScalerFaults)
    requires c.mode == XZeroY && Counts(w) && c.Same(w.partition, w.manager.spec)
    requires !(Pending(c, w) && w.pods != []) && !(!Pending(c, w) && |w.partition| > 0 && IsZero(w.sts))
    ensures AfterManager(c, w, f).manager == w.manager
    ensures !c.Same(w.partition, w.manager.status) ==> (Running(AfterManager(c, w, f)) <==> Running(w))
    ensures c.Same(w.partition, w.manager.status) ==>
              (Running(AfterManager(c, w, f)) <==> StartsPods(c, w, f) || KeepsPods(c, w, f))
  {
    if !c.Same(w.partition, w.manager.status) {
    } else if Pending(c, w) {
      ScaleOutRuns(c, w, f);
    } else {
      EnforceRuns(c, w, f);
    }
  }

  lemma AdvanceApart(c: Settings, w: World, f: ScalerFaults)
    requires c.mode == XZeroY && Counts(w) && Apart(c, w)
    requires !w.paused && w.providerReady && w.manager.ready
    requires !(Pending(c, w) && w.pods != []) && !(!Pending(c, w) && |w.partition| > 0 && IsZero(w.sts))
    ensures Apart(c, Advance(c, w, f)) <==> !Hazard(c, w, f)
  {
    if c.Same(w.partition, w.manager.spec) {
      AfterManagerApart(c, w, f);
    } else if !f.managerFails {
      AfterManagerApart(c, Instructed(w), f);
    }
  }

  // From any state with the two apart, a reconcile keeps them apart exactly when this guard is false.
  lemma StepApartIff(c: Settings, w: World, f: ScalerFaults)
    requires c.mode == XZeroY && Counts(w) && Apart(c, w)
    ensures Apart(c, ScalerStep(c, w, f)) <==> !Hazard(c, w, f)
  {
    if w.paused || !w.providerReady || !w.manager.ready {
    } else if Pending(c, w) && w.sts.statusReplicas > 0 {
    } else if !Pending(c, w) && |w.partition| > 0 && IsZero(w.sts) {
    } else {
      AdvanceApart(c, w, f);
    }
  }

  // No other step ever brings the two together.
  lemma OthersApart(c: Settings, w: World, a: Action)
    requires Enabled(w, a) && !a.ScalerActs? && Apart(c, w)
    ensures Apart(c, Apply(c, w, a))
  {
    match a
    case ManagerActs(f) =>
    case SecretAppears(s) => SecretsQuiet(c, w, a);
    case SecretVanishes(i) => SecretsQuiet(c, w, a);
    case PodUp =>
    case PodDown(i) =>
    case Provide(q) =>
    case SetFlags(p, r) =>
  }

  lemma OutdatedNone(m: map<string, int>, secrets: seq<Secret>)
    ensures OutdatedAt(m, secrets) == [] <==> forall i | 0 <= i < |secrets| :: !Outdated(m, secrets[i])
  {
    var at := OutdatedAt(m, secrets);
    OutdatedAtAll(m, secrets);
    if at != [] {
      assert Outdated(m, secrets[at[0]]);
    }
  }

  lemma AppearedQuiet(m: map<string, int>, secrets: seq<Secret>, s: Secret)
    requires OutdatedAt(m, secrets) == [] && s.uid !in m
    ensures OutdatedAt(m, secrets + [s]) == []
  {
    OutdatedNone(m, secrets);
    OutdatedNone(m, secrets + [s]);
  }

  lemma VanishedQuiet(m: map<string, int>, secrets: seq<Secret>, i: nat)
    requires OutdatedAt(m, secrets) == [] && i < |secrets|
    ensures OutdatedAt(m, Without(secrets, i)) == []
  {
    OutdatedNone(m, secrets);
    OutdatedNone(m, Without(secrets, i));
  }

  lemma SecretsQuiet(c: Settings, w: World, a: Action)
    requires Enabled(w, a) && (a.SecretAppears? || a.SecretVanishes?)
    ensures Quiet(w.manager) ==> Quiet(Apply(c, w, a).manager)
  {
    if Quiet(w.manager) {
      match a
      case SecretAppears(s) => AppearedQuiet(Denote(w.manager.spec), w.manager.secrets, s);
      case SecretVanishes(i) => VanishedQuiet(Denote(w.manager.spec), w.manager.secrets, i);
    }
  }

  lemma StepCounts(c: Settings, w: World, a: Action)
    requires Enabled(w, a) && Counts(w)
    ensures Counts(Apply(c, w, a))
  {
    if a.ScalerActs? {
      ScalerLists(c, w, a.scalerFaults);
    }
  }

  // Apart, no shard moves under pods.
  lemma ApartMovesNothing(c: Settings, w: World, a: Action)
    requires Enabled(w, a) && Apart(c, w) && MovesShard(w, a, Apply(c, w, a))
    ensures !Running(w) && !Running(Apply(c, w, a))
  {
  }

  // Having something to write means that the next clean turn of the shard manager moves a shard.
  lemma ManagerMoves(c: Settings, w: World)
    requires WellFormed(w.manager.spec) && AllReadable(w.manager.secrets)
    ensures MovesShard(w, ManagerActs(NO_FAULTS), Apply(c, w, ManagerActs(NO_FAULTS))) <==> !Quiet(w.manager)
  {
    var m, secrets := Denote(w.manager.spec), w.manager.secrets;
    OutdatedNone(m, secrets);
    StepApplies(w.manager, NO_FAULTS);
    DenoteInt32(w.manager.spec);
    if !Quiet(w.manager) {
      var i :| 0 <= i < |secrets| && Outdated(m, secrets[i]);
      DesiredStable(m, secrets[i]);
      assert ManagerStep(w.manager, NO_FAULTS).secrets[i] == Desired(m, secrets[i]) != secrets[i];
    }
  }

  ghost predicate HazardAt(c: Settings, w: World, a: Action) {
    a.ScalerActs? && Hazard(c, w, a.scalerFaults)
  }

  ghost predicate HazardFree(c: Settings, ws: seq<World>, actions: seq<Action>) {
    |actions| <= |ws| && forall i | 0 <= i < |actions| :: !HazardAt(c, ws[i], actions[i])
  }

  lemma ActionApartIff(c: Settings, w: World, a: Action)
    requires c.mode == XZeroY && Enabled(w, a) && Counts(w) && Apart(c, w)
    ensures Apart(c, Apply(c, w, a)) <==> !HazardAt(c, w, a)
  {
    if a.ScalerActs? {
      StepApartIff(c, w, a.scalerFaults);
    } else {
      OthersApart(c, w, a);
    }
  }

  lemma {:induction false} RunCounts(c: Settings, ws: seq<World>, actions: seq<Action>, k: nat)
    requires IsRun(c, ws, actions) && Counts(ws[0]) && k < |ws|
    ensures Counts(ws[k])
  {
    if k > 0 {
      RunCounts(c, ws, actions, k - 1);
      StepCounts(c, ws[k - 1], actions[k - 1]);
    }
  }

  lemma {:induction false} HazardFreeApart(c: Settings, ws: seq<World>, actions: seq<Action>, k: nat)
    requires c.mode == XZeroY && IsRun(c, ws, actions) && Counts(ws[0]) && Apart(c, ws[0])
    requires HazardFree(c, ws, actions) && k < |ws|
    ensures Apart(c, ws[k])
  {
    if k > 0 {
      HazardFreeApart(c, ws, actions, k - 1);
      RunCounts(c, ws, actions, k - 1);
      ActionApartIff(c, ws[k - 1], actions[k - 1]);
    }
  }

  lemma ApartHazardFree(c: Settings, ws: seq<World>, actions: seq<Action>, i: nat)
    requires c.mode == XZeroY && IsRun(c, ws, actions) && Counts(ws[0]) && i < |actions|
    requires Apart(c, ws[i]) && Apart(c, ws[i + 1])
    ensures !HazardAt(c, ws[i], actions[i])
  {
    RunCounts(c, ws, actions, i);
    ActionApartIff(c, ws[i], actions[i]);
  }

  // Over whole runs, whatever the provider, the pods and the failing writes do: reassignments and
  // pods stay apart throughout exactly when no reconcile of the scaler starts in a hazard.
  lemma RunApartIff(c: Settings, ws: seq<World>, actions: seq<Action>)
    requires c.mode == XZeroY && IsRun(c, ws, actions) && Counts(ws[0]) && Apart(c, ws[0])
    ensures (forall k | 0 <= k < |ws| :: Apart(c, ws[k])) <==> HazardFree(c, ws, actions)
  {
    if HazardFree(c, ws, actions) {
      forall k | 0 <= k < |ws|
        ensures Apart(c, ws[k])
      {
        HazardFreeApart(c, ws, actions, k);
      }
    }
    if forall k | 0 <= k < |ws| :: Apart(c, ws[k]) {
      forall i | 0 <= i < |actions|
        ensures !HazardAt(c, ws[i], actions[i])
      {
        ApartHazardFree(c, ws, actions, i);
      }
    }
  }

  // ---- a provider that keeps clear of every hazard ------------------------------------------------------

  // The scaler has nothing in hand: the shard manager holds the partition last scaled to, applied.
  ghost predicate NotBegun(c: Settings, w: World) {
    Applied(c, w) && c.Same(w.scaled, w.manager.spec)
  }

  // Everything is in place for q, except that the scaler has not recorded it.
  ghost predicate AlreadyIn(c: Settings, w: World, q: ReplicaList) {
    Applied(c, w) && c.Same(q, w.manager.spec)
  }

  // At any time, except back to the partition last scaled to once its replacement has begun;
  // or to another one while pods are wanted and none is there; or to what the shard manager's
  // status still says while it is applying something else.
  ghost predicate CalmChange(c: Settings, w: World, q: ReplicaList) {
    && (c.Same(q, w.scaled) ==> NotBegun(c, w))
    && (!c.Same(q, w.scaled) && Wants(w) > 0 && w.pods == [] ==> AlreadyIn(c, w, q))
    && (!Applied(c, w) ==> !c.Same(q, w.manager.status))
  }

  // The provider's changes are calm, and the last pod is not lost from when a transition is due
  // until the StatefulSet is at zero.
  ghost predicate Calm(c: Settings, w: World, a: Action) {
    match a
    case Provide(q) => CalmChange(c, w, q)
    case PodDown(_) => |w.pods| > Wants(w) || |w.pods| >= 2 || c.Same(w.partition, w.scaled)
    case _ => true
  }

  // The four lists in play.
  ghost predicate Listed(w: World) {
    WellFormed(w.partition) && WellFormed(w.manager.spec) && WellFormed(w.manager.status) && WellFormed(w.scaled)
  }

  // Inductive, unlike being apart alone.
  ghost predicate Core(c: Settings, w: World) {
    && Counts(w)
    && (Running(w) ==> Applied(c, w))
    && (Applied(c, w) ==> Quiet(w.manager))
    && CalmChange(c, w, w.partition)
  }

  ghost predicate Inv(c: Settings, w: World) {
    Listed(w) && Core(c, w)
  }

  // In a ready state, or any other in agreement, every change is calm.
  lemma SettledIsCalm(c: Settings, w: World, q: ReplicaList)
    requires Inv(c, w) && Agreement(c, w)
    ensures CalmChange(c, w, q)
  {
  }

  lemma ScaleOutCore(c: Settings, w: World, f: ScalerFaults)
    requires c.mode == XZeroY && Core(c, w) && Pending(c, w) && w.pods == []
    requires c.Same(w.partition, w.manager.spec) && c.Same(w.partition, w.manager.status)
    ensures Core(c, ScaleOut(c, w, f))
  {
  }

  // Scaling to the partition already scaled to.
  lemma EnforceCore(c: Settings, w: World, f: ScalerFaults, n: nat)
    requires c.mode == XZeroY && Core(c, w) && !Pending(c, w)
    ensures Core(c, Enforce(w, f, n))
  {
  }

  lemma AfterManagerCore(c: Settings, w: World, f: ScalerFaults)
    requires c.mode == XZeroY && Core(c, w) && c.Same(w.partition, w.manager.spec)
    requires Pending(c, w) ==> w.pods == []
    ensures Core(c, AfterManager(c, w, f))
  {
    if !c.Same(w.partition, w.manager.status) {
    } else if !c.Same(w.scaled, w.manager.status) {
      ScaleOutCore(c, w, f);
    } else if NeedsEnforcement(w.sts, |w.partition|) {
      EnforceCore(c, w, f, |w.partition|);
    }
  }

  lemma ScalerCore(c: Settings, w: World, f: ScalerFaults)
    requires c.mode == XZeroY && Core(c, w)
    ensures Core(c, ScalerStep(c, w, f))
  {
    if w.paused || !w.providerReady || !w.manager.ready {
    } else if Pending(c, w) && w.sts.statusReplicas > 0 {
    } else if !Pending(c, w) && |w.partition| > 0 && IsZero(w.sts) {
      EnforceCore(c, w, f, |w.partition|);
    } else if c.Same(w.partition, w.manager.spec) {
      AfterManagerCore(c, w, f);
    } else if !f.managerFails {
      AfterManagerCore(c, Instructed(w), f);
    }
  }

  lemma ScalerInv(c: Settings, w: World, f: ScalerFaults)
    requires c.mode == XZeroY && Inv(c, w)
    ensures Inv(c, ScalerStep(c, w, f))
  {
    ScalerCore(c, w, f);
    ScalerLists(c, w, f);
  }

  // What one shard-manager reconcile does to the assignment.
  lemma ManagerEffect(m: Manager, f: Faults)
    requires WellFormed(m.spec)
    ensures ManagerStep(m, f).spec == m.spec
    ensures ManagerStep(m, f).status in {m.status, m.spec}
    ensures Quiet(m) ==> ManagerStep(m, f).secrets == m.secrets
    ensures ManagerStep(m, f).status != m.status ==> Quiet(ManagerStep(m, f))
  {
    StepApplies(m, f);
    DenoteInt32(m.spec);
    if Succeeds(m, f) {
      AppliedIsQuiet(Denote(m.spec), m.secrets, ManagerStep(m, f).secrets);
    }
  }

  lemma ManagerInv(c: Settings, w: World, f: Faults)
    requires Inv(c, w)
    ensures Inv(c, w.(manager := ManagerStep(w.manager, f)))
  {
    ManagerEffect(w.manager, f);
  }

  lemma PodUpInv(c: Settings, w: World)
    requires Inv(c, w) && |w.pods| < Wants(w)
    ensures Inv(c, SetPods(w, w.pods + [PodEnv(w.sts.containers)]))
  {
  }

  lemma PodDownInv(c: Settings, w: World, i: nat)
    requires c.mode == XZeroY && Inv(c, w) && i < |w.pods| && Calm(c, w, PodDown(i))
    ensures Inv(c, SetPods(w, Without(w.pods, i)))
  {
  }

  lemma StepInv(c: Settings, w: World, a: Action)
    requires c.mode == XZeroY && Inv(c, w)
    requires Enabled(w, a) && Calm(c, w, a)
    ensures Inv(c, Apply(c, w, a))
  {
    match a
    case ScalerActs(f) => ScalerInv(c, w, f);
    case ManagerActs(f) => ManagerInv(c, w, f);
    case SecretAppears(s) => SecretsQuiet(c, w, a);
    case SecretVanishes(i) => SecretsQuiet(c, w, a);
    case PodUp => PodUpInv(c, w);
    case PodDown(i) => PodDownInv(c, w, i);
    case Provide(q) =>
    case SetFlags(p, r) =>
  }

  // Everything agrees and the secrets hold their replicas.
  ghost predicate Steady(c: Settings, w: World) {
    Listed(w) && Counts(w) && Agreement(c, w) && Quiet(w.manager)
  }

  ghost predicate CalmRun(c: Settings, ws: seq<World>, actions: seq<Action>) {
    IsRun(c, ws, actions) && forall i | 0 <= i < |actions| :: Calm(c, ws[i], actions[i])
  }

  lemma {:induction false} RunInv(c: Settings, ws: seq<World>, actions: seq<Action>, k: nat)
    requires c.mode == XZeroY && CalmRun(c, ws, actions) && Steady(c, ws[0]) && k < |ws|
    ensures Inv(c, ws[k])
  {
    if k > 0 {
      RunInv(c, ws, actions, k - 1);
      StepInv(c, ws[k - 1], actions[k - 1]);
    }
  }

  // From a steady state, over every interleaving with calm changes: while pods exist or are wanted
  // the shard manager has applied its spec and has nothing to write, and no step moves a shard.
  lemma XZeroYSafety(c: Settings, ws: seq<World>, actions: seq<Action>, k: nat)
    requires c.mode == XZeroY && CalmRun(c, ws, actions) && Steady(c, ws[0]) && k < |ws|
    ensures Apart(c, ws[k])
    ensures k < |actions| && MovesShard(ws[k], actions[k], ws[k + 1]) ==> !Running(ws[k]) && !Running(ws[k + 1])
  {
    RunInv(c, ws, actions, k);
    if k < |actions| && MovesShard(ws[k], actions[k], ws[k + 1]) {
      ApartMovesNothing(c, ws[k], actions[k]);
    }
  }

  lemma RecordInRange(m: map<string, int>, s: Secret, k: nat)
    requires !Outdated(m, s) && s.uid in m && 0 <= m[s.uid] < k <= 0x8000_0000
    ensures s.shard.Some? && Atoi(s.shard.value).Some?
    ensures 0 <= Atoi(s.shard.value).value < k <==> !Aliased(m, s)
    ensures Atoi(s.shard.value).value == m[s.uid] <==> !Aliased(m, s)
  {
  }

  lemma ReplicasInRange(list: ReplicaList)
    requires WellFormed(list)
    ensures |list| <= 0x8000_0000
  {
    if list != [] {
      var last := list[|list| - 1];
      assert last in list && last.id == |list| - 1;
    }
  }

  // In a ready state every listed secret names one of the replicas there are, the one it is listed
  // under, exactly when its number is not an alias.
  lemma ReadyShardsExist(c: Settings, w: World, s: Secret)
    requires CanonicalKey(c.key) && WellFormed(w.partition) && WellFormed(w.manager.spec)
    requires Agreement(c, w) && Quiet(w.manager)
    requires s in w.manager.secrets && s.uid in Denote(w.partition)
    ensures Wants(w) == w.sts.statusReplicas == |w.partition|
    ensures s.shard.Some? && Atoi(s.shard.value).Some?
    ensures 0 <= Atoi(s.shard.value).value < w.sts.statusReplicas <==> !Aliased(Denote(w.partition), s)
    ensures Atoi(s.shard.value).value == Denote(w.partition)[s.uid] <==> !Aliased(Denote(w.partition), s)
  {
    assert KeyAgrees(c.key, w.partition, w.manager.spec);
    OutdatedNone(Denote(w.manager.spec), w.manager.secrets);
    DenoteRange(w.partition);
    ReplicasInRange(w.partition);
    RecordInRange(Denote(w.partition), s, |w.partition|);
  }
}
