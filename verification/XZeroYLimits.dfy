// Why each restriction on the provider, on the pods and on the status writes is needed.
module XZeroYLimits {
  import opened Common
  import opened Strconv
  import opened Serialization
  import opened ShardManager
  import opened StatefulSets
  import opened Scaler
  import opened XZeroY
  import opened OneValue
  import opened LostRecords

  // Steady and unhindered.
  ghost predicate Idle(c: Settings, w: World) {
    && c.mode == XZeroY && CanonicalKey(c.key) && SteadyPods(c, w)
    && !w.paused && w.providerReady && w.manager.ready && AllReadable(w.manager.secrets)
    && HasApp(w.sts.containers)
  }

  // ---- such states exist ---------------------------------------------------------------------------

  function OneShard(id: int, uid: string): Replica {
    Replica(id, [LoadIndex(Shard(uid, "", "", "", ""), 1.0)], 1.0)
  }

  lemma OneShardUids(id: int, uid: string)
    ensures Uids(OneShard(id, uid).loadIndexes) == {uid}
  {
    assert OneShard(id, uid).loadIndexes[0] in OneShard(id, uid).loadIndexes;
  }

  lemma OneListed(uid: string) returns (list: ReplicaList)
    requires Serialization.Clean(uid)
    ensures list == [OneShard(0, uid)] && WellFormed(list) && Denote(list) == map[uid := 0]
  {
    list := [OneShard(0, uid)];
    OneShardUids(0, uid);
    assert list[..0] == [] && Denote([]) == map[] && Flatten([]) == [];
  }

  lemma TwoListed(a: string, b: string) returns (list: ReplicaList)
    requires Serialization.Clean(a) && Serialization.Clean(b) && a != b
    ensures |list| == 2 && WellFormed(list) && Denote(list) == map[a := 0, b := 1]
  {
    var first := OneListed(a);
    list := [OneShard(0, a), OneShard(1, b)];
    OneShardUids(1, b);
    assert list[..1] == first && Flatten(list) == Flatten(first) + list[1].loadIndexes;
    assert Flatten(first) == [] + first[0].loadIndexes by { assert first[..0] == []; }
  }

  lemma AppSts(n: nat) returns (sts: Sts)
    ensures sts.specReplicas == Some(n) && sts.statusReplicas == n && HasApp(sts.containers)
    ensures FirstEnv(sts.containers) == Some(Itoa(n)) && PodEnv(sts.containers) == Some(Itoa(n))
  {
    sts := Sts(Some(n), n, [Container(APP_CONTAINER, [EnvVar(REPLICAS_ENV, Itoa(n))])], map[]);
    var app := sts.containers[0];
    assert app in sts.containers && app.env[0] in app.env;
    EnvIsSeen(sts.containers, n);
  }

  lemma IdleExists(c: Settings, p: ReplicaList, secrets: seq<Secret>) returns (w: World)
    requires c.mode == XZeroY && CanonicalKey(c.key) && WellFormed(p) && AllReadable(secrets)
    requires forall s | s in secrets :: s.uid !in Denote(p)
    ensures Idle(c, w) && w.partition == p && w.manager.secrets == secrets
  {
    var sts := AppSts(|p|);
    var pods := seq(|p|, _ => Some(Itoa(|p|)));
    w := World(false, true, p, Manager(secrets, p, p, [], true), p, true, Ready, sts, pods);
    OutdatedNone(Denote(p), secrets);
    assert Each(pods, Some(Itoa(|p|)));
    assert Steady(c, w);
  }

  // Two partitions that differ in where they put b, and a state with neither in place.
  lemma OneReplicaExists() returns (c: Settings, w: World, q: ReplicaList, r: ReplicaList)
    ensures Idle(c, w) && |w.partition| == 1 && WellFormed(q) && WellFormed(r)
    ensures !c.Same(q, w.partition) && !c.Same(r, w.partition) && !c.Same(r, q)
    ensures |w.manager.secrets| == 1 && var uid := w.manager.secrets[0].uid;
            uid in Denote(q) && uid in Denote(r) && Denote(q)[uid] != Denote(r)[uid]
    ensures Outdated(Denote(q), w.manager.secrets[0])
  {
    c := Settings(XZeroY, p => Serialize(p));
    SerializeIsCanonical(c);
    var p := OneListed("a");
    q := OneListed("b");
    r := TwoListed("a", "b");
    w := IdleExists(c, p, [Secret("b", "", "", "", "", None)]);
    assert "a" in Denote(p) && "a" !in Denote(q) && "b" !in Denote(p);
    assert KeyAgrees(c.key, q, p) && KeyAgrees(c.key, r, p) && KeyAgrees(c.key, r, q);
  }

  lemma TwoReplicasExist() returns (c: Settings, w: World, q: ReplicaList)
    ensures Idle(c, w) && |w.partition| == 2 && WellFormed(q) && |q| == 1 && !c.Same(q, w.partition)
  {
    c := Settings(XZeroY, p => Serialize(p));
    SerializeIsCanonical(c);
    var p := TwoListed("a", "b");
    q := OneListed("a");
    w := IdleExists(c, p, []);
    assert KeyAgrees(c.key, q, p);
  }

  // ---- a transition begins --------------------------------------------------------------------------

  ghost function CleanStep(c: Settings, w: World): World {
    ScalerStep(c, w, NO_SCALER_FAULTS)
  }

  const SCALES := ScalerActs(NO_SCALER_FAULTS)

  ghost predicate CalmLeads(c: Settings, ws: seq<World>, actions: seq<Action>, first: World, last: World) {
    Leads(c, ws, actions, first, last) && CalmRun(c, ws, actions) && NoneLost(c, ws, actions)
  }

  lemma ExtendCalm(c: Settings, ws: seq<World>, actions: seq<Action>, first: World, w: World, a: Action)
    returns (ws': seq<World>, actions': seq<Action>, w': World)
    requires CalmLeads(c, ws, actions, first, w)
    requires Enabled(w, a) && Calm(c, w, a) && !LosesRecord(c, w, a)
    ensures CalmLeads(c, ws', actions', first, w') && w' == Apply(c, w, a)
  {
    ws', actions', w' := Extend(c, ws, actions, first, w, a);
  }

  // The provider publishes q, and the scaler asks for no pods.
  ghost predicate GoingDown(w0: World, q: ReplicaList, w: World) {
    && w.partition == q && w.manager == w0.manager && w.scaled == w0.scaled && Counts(w)
    && w.sts.specReplicas == Some(0) && HasApp(w.sts.containers)
    && !w.paused && w.providerReady
  }

  lemma Announced(c: Settings, w0: World, q: ReplicaList)
    requires Idle(c, w0) && w0.partition != [] && !c.Same(q, w0.partition)
    ensures CalmChange(c, w0, q)
    ensures GoingDown(w0, q, CleanStep(c, w0.(partition := q)))
    ensures CleanStep(c, w0.(partition := q)).pods == w0.pods
  {
    ScaledPodEnv(w0.sts, 0, "");
  }

  // With the pods gone, the shard manager is told to apply q.
  ghost predicate Told(w0: World, q: ReplicaList, w: World) {
    && w.partition == q && w.manager == w0.manager.(spec := q) && w.scaled == w0.scaled && Counts(w)
    && w.sts.specReplicas == Some(0) && HasApp(w.sts.containers) && w.pods == []
    && !w.paused && w.providerReady
  }

  lemma Telling(c: Settings, w0: World, q: ReplicaList, w: World)
    requires Idle(c, w0) && !c.Same(q, w0.partition) && GoingDown(w0, q, w) && w.pods == []
    ensures Told(w0, q, CleanStep(c, w))
  {
  }

  lemma TransitionBegins(c: Settings, w0: World, q: ReplicaList)
    returns (ws: seq<World>, actions: seq<Action>, w: World)
    requires Idle(c, w0) && |w0.partition| == 1 && WellFormed(q) && !c.Same(q, w0.partition)
    ensures CalmLeads(c, ws, actions, w0, w) && Told(w0, q, w)
  {
    Announced(c, w0, q);
    ws, actions, w := [w0], [], w0;
    ws, actions, w := ExtendCalm(c, ws, actions, w0, w, Provide(q));
    ws, actions, w := ExtendCalm(c, ws, actions, w0, w, SCALES);
    ws, actions, w := ExtendCalm(c, ws, actions, w0, w, PodDown(0));
    assert GoingDown(w0, q, w) && w.pods == [];
    Telling(c, w0, q, w);
    ws, actions, w := ExtendCalm(c, ws, actions, w0, w, SCALES);
  }

  // A pod runs while the next clean turn of the shard manager moves a shard.
  ghost predicate MovesUnderPods(c: Settings, w: World) {
    w.pods != [] && MovesShard(w, ManagerActs(NO_FAULTS), Apply(c, w, ManagerActs(NO_FAULTS)))
  }

  lemma OutdatedMoves(c: Settings, w: World, i: nat)
    requires WellFormed(w.manager.spec) && AllReadable(w.manager.secrets) && w.pods != []
    requires i < |w.manager.secrets| && Outdated(Denote(w.manager.spec), w.manager.secrets[i])
    ensures MovesUnderPods(c, w)
  {
    ManagerMoves(c, w);
    OutdatedNone(Denote(w.manager.spec), w.manager.secrets);
  }

  // ---- what breaks the promise about reassignments --------------------------------------------------

  // The provider publishes q, the pods go, the shard manager starts on q, and the provider returns
  // to the first partition. The scaler then brings the pods back, because its own status still names
  // that partition, with q about to be applied.
  lemma ReturningBreaksIt(c: Settings, w0: World, q: ReplicaList, i: nat)
    returns (ws: seq<World>, actions: seq<Action>, w: World, up: World)
    requires Idle(c, w0) && |w0.partition| == 1 && WellFormed(q) && !c.Same(q, w0.partition)
    requires i < |w0.manager.secrets| && Outdated(Denote(q), w0.manager.secrets[i])
    ensures CalmLeads(c, ws, actions, w0, w) && !CalmChange(c, w, w0.partition)
    ensures var back := CleanStep(c, w.(partition := w0.partition));
            Enabled(back, PodUp) && up == Apply(c, back, PodUp) && MovesUnderPods(c, up)
  {
    ws, actions, w := TransitionBegins(c, w0, q);
    var back := CleanStep(c, w.(partition := w0.partition));
    assert back.sts == Scaled(w.sts, 1, false, "") && back.manager == w.manager;
    up := Apply(c, back, PodUp);
    OutdatedMoves(c, up, i);
  }

  // The scale-to-zero phase is skipped when no pod happens to exist: if the only pod is lost around
  // the time the provider changes, before or after, the shard manager starts on q with a pod about to
  // come back.
  lemma LosingTheLastPodBreaksIt(c: Settings, w0: World, q: ReplicaList, i: nat) returns (up: World)
    requires Idle(c, w0) && |w0.partition| == 1 && WellFormed(q) && !c.Same(q, w0.partition)
    requires i < |w0.manager.secrets| && Outdated(Denote(q), w0.manager.secrets[i])
    ensures !Calm(c, w0.(partition := q), PodDown(0)) && !CalmChange(c, SetPods(w0, []), q)
    ensures var w := CleanStep(c, SetPods(w0.(partition := q), []));
            Enabled(w, PodUp) && up == Apply(c, w, PodUp) && MovesUnderPods(c, up)
  {
    var w := CleanStep(c, SetPods(w0.(partition := q), []));
    assert w.manager == w0.manager.(spec := q) && w.sts.specReplicas == Some(1) && w.pods == [];
    up := Apply(c, w, PodUp);
    OutdatedMoves(c, up, i);
  }

  const UNRECORDED := Faults(false, None, true)

  // A turn of the shard manager that writes every secret, its status recorded or not.
  lemma Writes(m: Manager, f: Faults)
    requires WellFormed(m.spec) && AllReadable(m.secrets) && f in {NO_FAULTS, UNRECORDED}
    ensures var m' := ManagerStep(m, f);
            && m'.spec == m.spec && FullyApplied(Denote(m.spec), m.secrets, m'.secrets) && AllReadable(m'.secrets)
            && m'.status == (if f == NO_FAULTS then m.spec else m.status) && (m.ready ==> m'.ready)
  {
    var desired := Denote(m.spec);
    WriteFirstApplies(desired, m.secrets, |OutdatedAt(desired, m.secrets)|);
    DenoteInt32(m.spec);
    AppliedTwice(desired, m.secrets, ManagerStep(m, f).secrets, ManagerStep(m, f).secrets);
  }

  // The pods gone, q applied, and r half applied: every secret written, the status not.
  ghost predicate HalfApplied(c: Settings, w0: World, q: ReplicaList, r: ReplicaList, w: World) {
    && w.manager.spec == r && w.manager.status == q && w.manager.ready && AllReadable(w.manager.secrets)
    && w.scaled == w0.scaled && Counts(w) && w.pods == []
    && w.sts.specReplicas == Some(0) && HasApp(w.sts.containers) && !w.paused && w.providerReady
    && SameUids(w0.manager.secrets, w.manager.secrets)
    && forall i | 0 <= i < |w.manager.secrets| :: !Outdated(Denote(r), w.manager.secrets[i])
  }

  lemma AppliedUids(m: map<string, int>, before: seq<Secret>, after: seq<Secret>)
    requires Int32Map(m) && FullyApplied(m, before, after)
    ensures forall i | 0 <= i < |after| :: after[i].uid == before[i].uid && !Outdated(m, after[i])
  {
    forall i | 0 <= i < |after|
      ensures after[i].uid == before[i].uid && !Outdated(m, after[i])
    {
      DesiredStable(m, before[i]);
    }
  }

  // The pods gone, and q applied.
  ghost predicate InPlace(w0: World, q: ReplicaList, w: World) {
    && w.partition == q && w.manager.spec == q && w.manager.status == q && w.manager.ready
    && AllReadable(w.manager.secrets) && SameUids(w0.manager.secrets, w.manager.secrets)
    && w.scaled == w0.scaled && Counts(w) && w.pods == []
    && w.sts.specReplicas == Some(0) && HasApp(w.sts.containers) && !w.paused && w.providerReady
  }

  ghost predicate SameUids(before: seq<Secret>, after: seq<Secret>) {
    |after| == |before| && forall i | 0 <= i < |before| :: after[i].uid == before[i].uid
  }

  lemma Applying(c: Settings, w0: World, q: ReplicaList) returns (ws: seq<World>, actions: seq<Action>, w: World)
    requires Idle(c, w0) && |w0.partition| == 1 && WellFormed(q) && !c.Same(q, w0.partition)
    ensures CalmLeads(c, ws, actions, w0, w) && InPlace(w0, q, w)
  {
    ws, actions, w := TransitionBegins(c, w0, q);
    var m := w.manager;
    Writes(m, NO_FAULTS);
    DenoteInt32(q);
    AppliedUids(Denote(q), m.secrets, ManagerStep(m, NO_FAULTS).secrets);
    ws, actions, w := ExtendCalm(c, ws, actions, w0, w, ManagerActs(NO_FAULTS));
  }

  // The next transition, told to the shard manager at once since nothing runs.
  lemma TellingNext(c: Settings, w0: World, q: ReplicaList, r: ReplicaList, w: World)
    requires c.mode == XZeroY && InPlace(w0, q, w) && !c.Same(r, w0.scaled) && !c.Same(r, q)
    ensures CalmChange(c, w, r)
    ensures CleanStep(c, w.(partition := r)).manager == w.manager.(spec := r)
    ensures var told := CleanStep(c, w.(partition := r));
            InPlace(w0, r, told.(manager := told.manager.(status := r)))
  {
  }

  lemma WritingHalf(c: Settings, w0: World, q: ReplicaList, r: ReplicaList, w: World)
    requires WellFormed(r) && w.manager.spec == r && w.manager.status == q
    requires InPlace(w0, r, w.(manager := w.manager.(status := r)))
    ensures HalfApplied(c, w0, q, r, w.(manager := ManagerStep(w.manager, UNRECORDED)))
  {
    Writes(w.manager, UNRECORDED);
    DenoteInt32(r);
    AppliedUids(Denote(r), w.manager.secrets, ManagerStep(w.manager, UNRECORDED).secrets);
  }

  lemma HalfApplying(c: Settings, w0: World, q: ReplicaList, r: ReplicaList)
    returns (ws: seq<World>, actions: seq<Action>, w: World)
    requires Idle(c, w0) && |w0.partition| == 1 && WellFormed(q) && WellFormed(r)
    requires !c.Same(q, w0.partition) && !c.Same(r, w0.partition) && !c.Same(r, q)
    ensures CalmLeads(c, ws, actions, w0, w) && HalfApplied(c, w0, q, r, w)
  {
    ws, actions, w := Applying(c, w0, q);
    TellingNext(c, w0, q, r, w);
    ws, actions, w := ExtendCalm(c, ws, actions, w0, w, Provide(r));
    ws, actions, w := ExtendCalm(c, ws, actions, w0, w, SCALES);
    WritingHalf(c, w0, q, r, w);
    ws, actions, w := ExtendCalm(c, ws, actions, w0, w, ManagerActs(UNRECORDED));
  }

  lemma ReturnToStale(c: Settings, w0: World, q: ReplicaList, r: ReplicaList, w: World, i: nat) returns (up: World)
    requires c.mode == XZeroY && HalfApplied(c, w0, q, r, w) && WellFormed(q) && q != []
    requires !c.Same(q, w0.scaled) && !c.Same(r, q)
    requires i < |w0.manager.secrets|
    requires var uid := w0.manager.secrets[i].uid;
             uid in Denote(q) && uid in Denote(r) && Denote(q)[uid] != Denote(r)[uid]
    ensures !CalmChange(c, w, q)
    ensures var back := CleanStep(c, w.(partition := q));
            Enabled(back, PodUp) && up == Apply(c, back, PodUp) && MovesUnderPods(c, up)
  {
    var back := CleanStep(c, w.(partition := q));
    assert back.manager == w.manager.(spec := q) && back.sts == Scaled(w.sts, |q|, false, "");
    up := Apply(c, back, PodUp);
    OutdatedMoves(c, up, i);
  }

  // Returning to what the shard manager's status still says, while it is applying something else:
  // the scaler takes q for applied and brings pods up, but the secrets hold the numbers of r.
  lemma StaleStatusBreaksIt(c: Settings, w0: World, q: ReplicaList, r: ReplicaList, i: nat)
    returns (ws: seq<World>, actions: seq<Action>, w: World, up: World)
    requires Idle(c, w0) && |w0.partition| == 1 && WellFormed(q) && WellFormed(r)
    requires !c.Same(q, w0.partition) && !c.Same(r, w0.partition) && !c.Same(r, q)
    requires i < |w0.manager.secrets|
    requires var uid := w0.manager.secrets[i].uid;
             uid in Denote(q) && uid in Denote(r) && Denote(q)[uid] != Denote(r)[uid]
    ensures CalmLeads(c, ws, actions, w0, w) && !CalmChange(c, w, q)
    ensures var back := CleanStep(c, w.(partition := q));
            Enabled(back, PodUp) && up == Apply(c, back, PodUp) && MovesUnderPods(c, up)
  {
    ws, actions, w := HalfApplying(c, w0, q, r);
    assert q != [];
    up := ReturnToStale(c, w0, q, r, w, i);
  }

  // ---- what breaks the promise about the variable ------------------------------------------------------

  const UNSAVED := ScalerFaults(false, false, true, "")

  // A transition from two replicas to another number, up to the reconcile that scales out.
  lemma ReadyToScaleOut(c: Settings, w0: World, q: ReplicaList)
    returns (ws: seq<World>, actions: seq<Action>, w: World)
    requires Idle(c, w0) && |w0.partition| == 2 && WellFormed(q) && q != [] && |q| != 2 && !c.Same(q, w0.partition)
    ensures CalmLeads(c, ws, actions, w0, w) && LostRecord(c, w, UNSAVED)
  {
    assert KeyAgrees(c.key, w0.partition, w0.scaled);
    Announced(c, w0, q);
    ws, actions, w := [w0], [], w0;
    ws, actions, w := ExtendCalm(c, ws, actions, w0, w, Provide(q));
    ws, actions, w := ExtendCalm(c, ws, actions, w0, w, SCALES);
    ws, actions, w := ExtendCalm(c, ws, actions, w0, w, PodDown(0));
    ws, actions, w := ExtendCalm(c, ws, actions, w0, w, PodDown(0));
    assert GoingDown(w0, q, w) && w.pods == [];
    Telling(c, w0, q, w);
    ws, actions, w := ExtendCalm(c, ws, actions, w0, w, SCALES);
    Writes(w.manager, NO_FAULTS);
    ws, actions, w := ExtendCalm(c, ws, actions, w0, w, ManagerActs(NO_FAULTS));
  }

  // The status write after scaling out is lost, and the provider returns: two values at a time.
  lemma LostWriteBreaksIt(c: Settings, w0: World, q: ReplicaList)
    returns (ws: seq<World>, actions: seq<Action>, w: World, ws': seq<World>, actions': seq<Action>, last: World)
    requires Idle(c, w0) && |w0.partition| == 2 && WellFormed(q) && q != [] && |q| != 2 && !c.Same(q, w0.partition)
    ensures CalmLeads(c, ws, actions, w0, w) && LostRecord(c, w, UNSAVED)
    ensures Leads(c, ws', actions', ScalerStep(c, w, UNSAVED), last) && NoneLost(c, ws', actions') && !OneValued(last)
  {
    ws, actions, w := ReadyToScaleOut(c, w0, q);
    SteadyValued(c, w0);
    RunValued(c, ws, actions, |actions|);
    ws', actions' := LostRecordBreaks(c, w, UNSAVED);
    last := ws'[|actions'|];
  }
}
