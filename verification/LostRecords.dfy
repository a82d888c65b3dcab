// What losing the record of a scale-out leads to: exactly then pods of two values can meet.
module LostRecords {
  import opened Common
  import opened Strconv
  import opened StatefulSets
  import opened Scaler
  import opened XZeroY
  import opened OneValue

  // With its record lost, the reconcile takes the pods it just asked for to belong to a transition
  // still due and scales back to zero; if the provider then returns to the partition last recorded,
  // new pods come up beside the old one.
  lemma LostRecordBreaks(c: Settings, w: World, f: ScalerFaults) returns (ws: seq<World>, actions: seq<Action>)
    requires c.mode == XZeroY && ValueInv(w) && LostRecord(c, w, f)
    ensures IsRun(c, ws, actions) && ws[0] == ScalerStep(c, w, f) && NoneLost(c, ws, actions)
    ensures !OneValued(ws[|actions|])
  {
    var acts := ScalerActs(NO_SCALER_FAULTS);
    var w1 := ScalerStep(c, w, f);
    var w2, w3 := FirstPod(c, w, f, w1);
    ws, actions := [w1], [];
    var x;
    ws, actions, x := ExtendKept(c, ws, actions, w1, w1, PodUp);
    ws, actions, x := ExtendKept(c, ws, actions, w1, w2, acts);
    ws, actions, x := ExtendKept(c, ws, actions, w1, w3, Provide(w3.scaled));
    var w5, w6 := SecondPod(c, x, |w.partition|);
    ws, actions, x := ExtendKept(c, ws, actions, w1, x, acts);
    ws, actions, x := ExtendKept(c, ws, actions, w1, w5, PodUp);
  }

  lemma ExtendKept(c: Settings, ws: seq<World>, actions: seq<Action>, first: World, w: World, a: Action)
    returns (ws': seq<World>, actions': seq<Action>, w': World)
    requires Leads(c, ws, actions, first, w) && NoneLost(c, ws, actions)
    requires Enabled(w, a) && !LosesRecord(c, w, a)
    ensures Leads(c, ws', actions', first, w') && NoneLost(c, ws', actions') && w' == Apply(c, w, a)
  {
    ws', actions', w' := Extend(c, ws, actions, first, w, a);
    NoneLostSnoc(c, ws, actions, w', a);
  }

  lemma NoneLostSnoc(c: Settings, ws: seq<World>, actions: seq<Action>, w: World, a: Action)
    requires |ws| == |actions| + 1 && NoneLost(c, ws, actions) && !LosesRecord(c, ws[|actions|], a)
    ensures NoneLost(c, ws + [w], actions + [a])
  {
  }

  lemma FirstPod(c: Settings, w: World, f: ScalerFaults, w1: World) returns (w2: World, w3: World)
    requires c.mode == XZeroY && ValueInv(w) && LostRecord(c, w, f) && w1 == ScalerStep(c, w, f)
    ensures Enabled(w1, PodUp) && w2 == Apply(c, w1, PodUp)
    ensures w3 == ScalerStep(c, w2, NO_SCALER_FAULTS)
    ensures w3.scaled == w.scaled && Counts(w3) && w3.pods == [Some(Itoa(|w.partition|))]
    ensures w3.sts.specReplicas == Some(0) && HasApp(w3.sts.containers)
    ensures !w3.paused && w3.providerReady && w3.manager.ready
  {
    ScaledPodEnv(w.sts, |w.partition|, f.now);
    assert w1.sts == Scaled(w.sts, |w.partition|, false, f.now) && w1.pods == [];
    assert w1.partition == w.partition && w1.scaled == w.scaled;
    w2 := Apply(c, w1, PodUp);
    ScaledPodEnv(w2.sts, 0, "");
    w3 := ScalerStep(c, w2, NO_SCALER_FAULTS);
    assert w3.sts == Scaled(w2.sts, 0, false, "");
  }

  lemma SecondPod(c: Settings, w4: World, n: nat) returns (w5: World, w6: World)
    requires c.mode == XZeroY && Counts(w4) && w4.partition == w4.scaled && |w4.scaled| >= 2 && n != |w4.scaled|
    requires w4.pods == [Some(Itoa(n))] && w4.sts.specReplicas == Some(0) && HasApp(w4.sts.containers)
    requires !w4.paused && w4.providerReady && w4.manager.ready
    ensures w5 == ScalerStep(c, w4, NO_SCALER_FAULTS)
    ensures Enabled(w5, PodUp) && w6 == Apply(c, w5, PodUp)
    ensures !OneValued(w6)
  {
    var m := |w4.scaled|;
    ScaledPodEnv(w4.sts, m, "");
    ItoaInjective(m, n);
    w5 := ScalerStep(c, w4, NO_SCALER_FAULTS);
    assert w5.sts == Scaled(w4.sts, m, false, "");
    w6 := Apply(c, w5, PodUp);
    assert w6.pods == [Some(Itoa(n)), Some(Itoa(m))];
    assert w6.pods[0] != w6.pods[1];
  }

  // Nothing that may follow ever brings pods of two values together.
  ghost predicate StaysOneValued(c: Settings, w: World) {
    forall ws, actions | IsRun(c, ws, actions) && NoneLost(c, ws, actions) && ws[0] == w ::
      OneValued(ws[|actions|])
  }

  // A reconcile, whichever of its writes fail, leaves it at that exactly when it loses no such record.
  lemma OneValueIff(c: Settings, w: World, f: ScalerFaults)
    requires c.mode == XZeroY && CanonicalKey(c.key) && ValueInv(w)
    ensures StaysOneValued(c, ScalerStep(c, w, f)) <==> !LostRecord(c, w, f)
  {
    if LostRecord(c, w, f) {
      var ws, actions := LostRecordBreaks(c, w, f);
    } else {
      ScalerValueIff(c, w, f);
      forall ws, actions | IsRun(c, ws, actions) && NoneLost(c, ws, actions) && ws[0] == ScalerStep(c, w, f)
        ensures OneValued(ws[|actions|])
      {
        RunValued(c, ws, actions, |actions|);
      }
    }
  }
}
