// With the partition fixed and nobody failing, the scaler becomes ready and stays ready.
module Convergence {
  import opened Common
  import opened Strconv
  import opened Serialization
  import opened ShardManager
  import opened StatefulSets
  import opened Scaler
  import opened XZeroY

  datatype Actor = ScalerTurn | ManagerTurn | StsTurn

  // The StatefulSet controller brings the pods one closer to the number wanted.
  function MovePods(w: World): World {
    if |w.pods| < Wants(w) then SetPods(w, w.pods + [PodEnv(w.sts.containers)])
    else if |w.pods| > Wants(w) then SetPods(w, w.pods[..|w.pods| - 1])
    else w
  }

  ghost function Turn(c: Settings, w: World, a: Actor): World {
    match a
    case ScalerTurn => ScalerStep(c, w, NO_SCALER_FAULTS)
    case ManagerTurn => w.(manager := ManagerStep(w.manager, NO_FAULTS))
    case StsTurn => MovePods(w)
  }

  // ---- where progress is possible --------------------------------------------------------------------

  // The conditions of the claim: neither paused nor waiting for the provider, a partition the
  // provider may emit, 32-bit replica IDs, and a StatefulSet with its replicas set.
  ghost predicate Given(w: World) {
    && !w.paused && w.providerReady
    && WellFormedSpec(w.partition) && Int32Ids(w.partition) && Int32Ids(w.manager.spec)
    && w.sts.specReplicas.Some? && w.sts.statusReplicas == |w.pods|
  }

  // No shard listed twice, every recorded number parses, and there is a container to configure.
  ghost predicate Workable(w: World) {
    WellFormedSpec(w.manager.spec) && AllReadable(w.manager.secrets) && HasApp(w.sts.containers)
  }

  ghost predicate Viable(w: World) {
    Given(w) && Workable(w)
  }

  // ---- the measure --------------------------------------------------------------------------------------

  // How far the shard manager is from the partition.
  ghost function Lag(c: Settings, w: World): nat {
    if !c.Same(w.partition, w.manager.spec) then 2
    else if !c.Same(w.partition, w.manager.status) then 1
    else 0
  }

  // The StatefulSet is not set to the partition.
  predicate Off(w: World) {
    w.sts.specReplicas != Some(|w.partition|) || FirstEnv(w.sts.containers) != Some(Itoa(|w.partition|))
  }

  function Bit(b: bool): nat {
    if b then 1 else 0
  }

  // In order of weight: the manager's readiness; a pending X-0-Y transition; its StatefulSet not
  // yet at zero; the manager's lag; pods about to appear during a transition; in default mode,
  // the partition not yet scaled to; the StatefulSet's settings.
  ghost function Rank(c: Settings, w: World): nat {
    var up := Pending(c, w) && Wants(w) > 0;
    96 * Bit(!w.manager.ready) + 48 * Bit(Pending(c, w)) + 24 * Bit(up) + 8 * Lag(c, w)
    + 4 * Bit(up && w.pods == []) + 2 * Bit(c.mode.Default? && !c.Same(w.partition, w.scaled)) + Bit(Off(w))
  }

  function Distance(w: World): nat {
    if |w.pods| < Wants(w) then Wants(w) - |w.pods| else |w.pods| - Wants(w)
  }

  ghost predicate Settled(c: Settings, w: World) {
    Rank(c, w) == 0 && Distance(w) == 0
  }

  ghost predicate Done(c: Settings, w: World) {
    Settled(c, w) && w.ready
  }

  ghost function Last(c: Settings, w: World): nat {
    Bit(Settled(c, w) && !w.ready)
  }

  ghost predicate Closer(c: Settings, w': World, w: World) {
    || Rank(c, w') < Rank(c, w)
    || (Rank(c, w') == Rank(c, w) && Distance(w') < Distance(w))
    || (Rank(c, w') == Rank(c, w) && Distance(w') == Distance(w) && Last(c, w') < Last(c, w))
  }

  ghost predicate AsClose(c: Settings, w': World, w: World) {
    Rank(c, w') == Rank(c, w) && Distance(w') == Distance(w) && Last(c, w') == Last(c, w)
  }

  // Whose turn brings progress.
  ghost function Helpful(c: Settings, w: World): Actor {
    if !w.manager.ready then ManagerTurn
    else if Pending(c, w) && w.pods != [] then (if Wants(w) > 0 then ScalerTurn else StsTurn)
    else if !Pending(c, w) && |w.partition| > 0 && IsZero(w.sts) then (if Off(w) then ScalerTurn else StsTurn)
    else if Lag(c, w) == 1 then ManagerTurn
    else if Lag(c, w) == 0 && !Pending(c, w) && c.Same(w.partition, w.scaled) && !Off(w) && Distance(w) > 0 then StsTurn
    else ScalerTurn
  }

  // What every turn guarantees, and the helpful actor's turn in particular.
  ghost predicate Progress(c: Settings, w: World, w': World, helpful: bool) {
    && Viable(w')
    && (Closer(c, w', w) || (AsClose(c, w', w) && Helpful(c, w') == Helpful(c, w)))
    && (helpful && !Done(c, w) ==> Closer(c, w', w))
    && (Done(c, w) ==> Done(c, w'))
  }

  // ---- one turn -------------------------------------------------------------------------------------------

  lemma StsProgress(c: Settings, w: World)
    requires Viable(w)
    ensures Progress(c, w, MovePods(w), Helpful(c, w) == StsTurn)
  {
    if |w.pods| < Wants(w) {
    } else if |w.pods| > Wants(w) {
    }
  }

  lemma ManagerTurnEffect(m: Manager)
    requires WellFormedSpec(m.spec) && AllReadable(m.secrets) && Int32Ids(m.spec)
    ensures var m' := ManagerStep(m, NO_FAULTS);
            m'.spec == m.spec && m'.status == m.spec && m'.ready && AllReadable(m'.secrets)
  {
    StepApplies(m, NO_FAULTS);
    DenoteInt32(m.spec);
    AppliedTwice(Denote(m.spec), m.secrets, ManagerStep(m, NO_FAULTS).secrets, ManagerStep(m, NO_FAULTS).secrets);
  }

  lemma ManagerProgress(c: Settings, w: World)
    requires Viable(w)
    ensures Progress(c, w, Turn(c, w, ManagerTurn), Helpful(c, w) == ManagerTurn)
  {
    ManagerTurnEffect(w.manager);
  }

  // Scaling to the partition's size.
  lemma ScaledEffect(w: World, n: nat, restart: bool)
    requires HasApp(w.sts.containers)
    ensures var s := Scaled(w.sts, n, restart, "");
            && s.specReplicas == Some(n) && s.statusReplicas == w.sts.statusReplicas
            && FirstEnv(s.containers) == Some(Itoa(n)) && HasApp(s.containers)
  {
    ScaledEnvIs(w.sts, n, restart, "");
    EnvIsSeen(Scaled(w.sts, n, restart, "").containers, n);
  }

  lemma ToZeroProgress(c: Settings, w: World)
    requires Viable(w) && w.manager.ready && Pending(c, w) && w.pods != []
    ensures Progress(c, w, ScaleToZero(w, NO_SCALER_FAULTS), Helpful(c, w) == ScalerTurn)
  {
    ScaledEffect(w, 0, false);
  }

  lemma EnforceProgress(c: Settings, w: World)
    requires Viable(w) && w.manager.ready && !Pending(c, w)
    requires (|w.partition| > 0 && IsZero(w.sts)) || Off(w)
    requires IsZero(w.sts) || Lag(c, w) == 0
    requires |w.partition| == 0 ==> Lag(c, w) == 0
    ensures Progress(c, w, Enforce(w, NO_SCALER_FAULTS, |w.partition|), Helpful(c, w) == ScalerTurn)
  {
    ScaledEffect(w, |w.partition|, false);
  }

  lemma ScaleOutProgress(c: Settings, w: World)
    requires Viable(w) && w.manager.ready && Lag(c, w) == 0 && !c.Same(w.partition, w.scaled)
    requires c.mode.XZeroY? ==> w.pods == []
    ensures Viable(ScaleOut(c, w, NO_SCALER_FAULTS))
    ensures Rank(c, ScaleOut(c, w, NO_SCALER_FAULTS)) < Rank(c, w)
  {
    ScaledEffect(w, |w.partition|, false);
    ScaledEffect(w, |w.partition|, true);
  }

  // Past the two branches taken before the shard manager is looked at.
  ghost predicate Advances(c: Settings, w: World) {
    && Viable(w) && w.manager.ready
    && !(Pending(c, w) && w.pods != [])
    && !(!Pending(c, w) && |w.partition| > 0 && IsZero(w.sts))
  }

  lemma AfterManagerProgress(c: Settings, w: World)
    requires Advances(c, w) && Lag(c, w) <= 1
    ensures Progress(c, w, AfterManager(c, w, NO_SCALER_FAULTS), Helpful(c, w) == ScalerTurn)
  {
    var f := NO_SCALER_FAULTS;
    if Lag(c, w) == 1 {
    } else if !c.Same(w.partition, w.scaled) {
      ScaleOutProgress(c, w);
    } else if NeedsEnforcement(w.sts, |w.partition|) {
      EnforceProgress(c, w);
    } else if w.sts.statusReplicas == |w.partition| {
      assert Settled(c, w);
    }
  }

  lemma InstructedProgress(c: Settings, w: World)
    requires Advances(c, w) && Lag(c, w) == 2
    ensures Advances(c, Instructed(w)) && Lag(c, Instructed(w)) <= 1
    ensures Rank(c, Instructed(w)) < Rank(c, w)
  {
  }

  lemma ScalerProgress(c: Settings, w: World)
    requires Viable(w)
    ensures Progress(c, w, Turn(c, w, ScalerTurn), Helpful(c, w) == ScalerTurn)
  {
    if !w.manager.ready {
    } else if Pending(c, w) && w.sts.statusReplicas > 0 {
      ToZeroProgress(c, w);
    } else if !Pending(c, w) && |w.partition| > 0 && IsZero(w.sts) {
      EnforceProgress(c, w);
    } else if Lag(c, w) <= 1 {
      AfterManagerProgress(c, w);
    } else {
      InstructedProgress(c, w);
      AfterManagerProgress(c, Instructed(w));
    }
  }

  lemma TurnProgress(c: Settings, w: World, a: Actor)
    requires Viable(w)
    ensures Progress(c, w, Turn(c, w, a), Helpful(c, w) == a)
  {
    match a
    case ScalerTurn => ScalerProgress(c, w);
    case ManagerTurn => ManagerProgress(c, w);
    case StsTurn => StsProgress(c, w);
  }

  // ---- fair runs --------------------------------------------------------------------------------------------

  // Every actor gets another turn, always.
  ghost predicate HasTurnFrom(sched: nat -> Actor, a: Actor, i: nat) {
    exists j: nat :: i <= j && sched(j) == a
  }

  ghost predicate Fair(sched: nat -> Actor) {
    forall a, i: nat :: HasTurnFrom(sched, a, i)
  }

  ghost predicate Follows(c: Settings, run: nat -> World, sched: nat -> Actor, i: nat) {
    run(i + 1) == Turn(c, run(i), sched(i))
  }

  ghost predicate IsTrajectory(c: Settings, run: nat -> World, sched: nat -> Actor) {
    forall i: nat :: Follows(c, run, sched, i)
  }

  // Ready, with everything in agreement, from some point on.
  ghost predicate ReadyFrom(c: Settings, run: nat -> World, n: nat) {
    forall m: nat | m >= n :: run(m).ready && Agreement(c, run(m))
  }

  lemma {:induction false} StateViable(c: Settings, run: nat -> World, sched: nat -> Actor, i: nat)
    requires IsTrajectory(c, run, sched) && Viable(run(0))
    ensures Viable(run(i))
  {
    if i > 0 {
      StateViable(c, run, sched, i - 1);
      assert Follows(c, run, sched, i - 1);
      TurnProgress(c, run(i - 1), sched(i - 1));
    }
  }

  lemma StepProgress(c: Settings, run: nat -> World, sched: nat -> Actor, i: nat)
    requires IsTrajectory(c, run, sched) && Viable(run(0))
    ensures Viable(run(i)) && Progress(c, run(i), run(i + 1), Helpful(c, run(i)) == sched(i))
  {
    StateViable(c, run, sched, i);
    assert Follows(c, run, sched, i);
    TurnProgress(c, run(i), sched(i));
  }

  // Up to the helpful actor's next turn, something brings the state closer.
  lemma {:induction false} Awaited(c: Settings, run: nat -> World, sched: nat -> Actor, i: nat, j: nat) returns (k: nat)
    requires IsTrajectory(c, run, sched) && Viable(run(0)) && i <= j
    requires !Done(c, run(i)) && sched(j) == Helpful(c, run(i))
    ensures i < k && Closer(c, run(k), run(i))
    decreases j - i
  {
    StepProgress(c, run, sched, i);
    if Closer(c, run(i + 1), run(i)) {
      k := i + 1;
    } else {
      k := Awaited(c, run, sched, i + 1, j);
    }
  }

  lemma {:induction false} Reaches(c: Settings, run: nat -> World, sched: nat -> Actor, i: nat) returns (k: nat)
    requires IsTrajectory(c, run, sched) && Viable(run(0)) && Fair(sched)
    ensures i <= k && Done(c, run(k))
    decreases Rank(c, run(i)), Distance(run(i)), Last(c, run(i))
  {
    if Done(c, run(i)) {
      k := i;
    } else {
      assert HasTurnFrom(sched, Helpful(c, run(i)), i);
      var j: nat :| i <= j && sched(j) == Helpful(c, run(i));
      var i' := Awaited(c, run, sched, i, j);
      k := Reaches(c, run, sched, i');
    }
  }

  lemma StepDone(c: Settings, run: nat -> World, sched: nat -> Actor, i: nat)
    requires IsTrajectory(c, run, sched) && Viable(run(0)) && Done(c, run(i))
    ensures Done(c, run(i + 1))
  {
    StepProgress(c, run, sched, i);
  }

  lemma {:induction false} DoneStays(c: Settings, run: nat -> World, sched: nat -> Actor, k: nat, m: nat)
    requires IsTrajectory(c, run, sched) && Viable(run(0))
    requires k <= m && Done(c, run(k))
    ensures Done(c, run(m))
    decreases m - k
  {
    if k < m {
      StepDone(c, run, sched, k);
      DoneStays(c, run, sched, k + 1, m);
    }
  }

  lemma DoneAgrees(c: Settings, w: World)
    requires Viable(w) && Done(c, w)
    ensures w.ready && Agreement(c, w)
  {
  }

  // From every viable state, in either mode and under every fair schedule.
  lemma Converges(c: Settings, run: nat -> World, sched: nat -> Actor)
    requires IsTrajectory(c, run, sched) && Viable(run(0)) && Fair(sched)
    ensures exists n: nat :: ReadyFrom(c, run, n)
  {
    var n := Reaches(c, run, sched, 0);
    forall m: nat | m >= n
      ensures run(m).ready && Agreement(c, run(m))
    {
      DoneStays(c, run, sched, n, m);
      StateViable(c, run, sched, m);
      DoneAgrees(c, run(m));
    }
    assert ReadyFrom(c, run, n);
  }

  // ---- and from no other ----------------------------------------------------------------------------------------

  // The shard manager refuses its spec or cannot read a secret, so the scaler never gets to
  // replace that spec; or there is no container to configure.
  ghost predicate Hopeless(w: World) {
    && Given(w)
    && (!HasApp(w.sts.containers)
        || (!w.manager.ready && !(WellFormedSpec(w.manager.spec) && AllReadable(w.manager.secrets))))
  }

  lemma NoAppNoEnv(containers: seq<Container>)
    requires !HasApp(containers)
    ensures FirstEnv(containers) == None
  {
    if containers != [] {
      assert containers[0] in containers;
      assert forall d | d in containers[1..] :: d in containers;
      NoAppNoEnv(containers[1..]);
    }
  }

  lemma ScalerHopeless(c: Settings, w: World)
    requires Hopeless(w)
    ensures Hopeless(Turn(c, w, ScalerTurn)) && !Turn(c, w, ScalerTurn).ready
  {
    if !HasApp(w.sts.containers) {
      NoAppNoEnv(w.sts.containers);
    }
  }

  lemma StsHopeless(c: Settings, w: World)
    requires Hopeless(w)
    ensures Hopeless(Turn(c, w, StsTurn)) && Turn(c, w, StsTurn).ready == w.ready
  {
  }

  function RoundRobin(i: nat): Actor {
    if i % 3 == 0 then ManagerTurn else if i % 3 == 1 then ScalerTurn else StsTurn
  }

  lemma RoundRobinFair()
    ensures Fair(RoundRobin)
  {
    forall a, i: nat
      ensures HasTurnFrom(RoundRobin, a, i)
    {
      var j := match a case ManagerTurn => 3 * i case ScalerTurn => 3 * i + 1 case StsTurn => 3 * i + 2;
      assert RoundRobin(j) == a;
    }
  }

  ghost function StateAt(c: Settings, w: World, sched: nat -> Actor, i: nat): World {
    if i == 0 then w else Turn(c, StateAt(c, w, sched, i - 1), sched(i - 1))
  }

  lemma TrajectoryExists(c: Settings, w: World, sched: nat -> Actor) returns (run: nat -> World)
    ensures IsTrajectory(c, run, sched) && run(0) == w
  {
    run := (i: nat) => StateAt(c, w, sched, i);
    assert forall i: nat :: Follows(c, run, sched, i);
  }

  lemma TurnHopeless(c: Settings, w: World, a: Actor)
    requires Hopeless(w)
    ensures Hopeless(Turn(c, w, a))
    ensures !w.ready || a == ScalerTurn ==> !Turn(c, w, a).ready
  {
    match a
    case ScalerTurn => ScalerHopeless(c, w);
    case ManagerTurn =>
    case StsTurn => StsHopeless(c, w);
  }

  lemma FirstTurnHopeless(c: Settings, run: nat -> World)
    requires IsTrajectory(c, run, RoundRobin) && Given(run(0)) && !Workable(run(0))
    ensures Hopeless(run(1))
  {
    assert Follows(c, run, RoundRobin, 0);
  }

  lemma NextHopeless(c: Settings, run: nat -> World, i: nat)
    requires IsTrajectory(c, run, RoundRobin) && Hopeless(run(i))
    ensures Hopeless(run(i + 1))
    ensures !run(i).ready || i == 1 ==> !run(i + 1).ready
  {
    assert Follows(c, run, RoundRobin, i);
    TurnHopeless(c, run(i), RoundRobin(i));
  }

  lemma {:induction false} NeverReady(c: Settings, run: nat -> World, i: nat)
    requires IsTrajectory(c, run, RoundRobin) && Given(run(0)) && !Workable(run(0)) && i >= 1
    ensures Hopeless(run(i))
    ensures i >= 2 ==> !run(i).ready
  {
    if i == 1 {
      FirstTurnHopeless(c, run);
    } else {
      NeverReady(c, run, i - 1);
      NextHopeless(c, run, i - 1);
    }
  }

  ghost predicate AlwaysConverges(c: Settings, w: World) {
    forall run: nat -> World, sched: nat -> Actor | IsTrajectory(c, run, sched) && run(0) == w && Fair(sched) ::
      exists n: nat :: ReadyFrom(c, run, n)
  }

  // Convergence under every fair schedule holds exactly from the workable states.
  lemma ConvergesIff(c: Settings, w: World)
    requires Given(w)
    ensures AlwaysConverges(c, w) <==> Workable(w)
  {
    if Workable(w) {
      forall run: nat -> World, sched: nat -> Actor | IsTrajectory(c, run, sched) && run(0) == w && Fair(sched)
        ensures exists n: nat :: ReadyFrom(c, run, n)
      {
        Converges(c, run, sched);
      }
    } else {
      RoundRobinFair();
      var run := TrajectoryExists(c, w, RoundRobin);
      forall n: nat
        ensures !ReadyFrom(c, run, n)
      {
        NeverReady(c, run, n + 2);
      }
    }
  }
}
