// The StatefulSet the scaler drives: its replicas, its pod template, and ScaleTo.
module StatefulSets {
  import opened Common
  import opened Strconv

  const APP_CONTAINER := "argocd-application-controller"
  const REPLICAS_ENV := "ARGOCD_CONTROLLER_REPLICAS"
  const RESTARTED_AT := "autoscaler.argoproj.io/restartedAt"

  datatype EnvVar = EnvVar(name: string, value: string)

  datatype Container = Container(name: string, env: seq<EnvVar>)

  datatype Sts = Sts(
    specReplicas: Option<nat>,
    statusReplicas: nat,
    containers: seq<Container>,
    annotations: map<string, string>)

  predicate IsApp(c: Container) {
    c.name == APP_CONTAINER
  }

  predicate HasApp(containers: seq<Container>) {
    exists c :: c in containers && IsApp(c)
  }

  predicate HasReplicasEnv(env: seq<EnvVar>) {
    exists e :: e in env && e.name == REPLICAS_ENV
  }

  // ---- ScaleTo -----------------------------------------------------------------------------------

  function SetValue(e: EnvVar, value: string): EnvVar {
    if e.name == REPLICAS_ENV then e.(value := value) else e
  }

  // Every entry of the variable is set; without one, an entry is appended.
  function SetEnv(env: seq<EnvVar>, value: string): seq<EnvVar> {
    if HasReplicasEnv(env)
    then seq(|env|, i requires 0 <= i < |env| => SetValue(env[i], value))
    else env + [EnvVar(REPLICAS_ENV, value)]
  }

  function ScaleContainer(c: Container, value: string): Container {
    if IsApp(c) then c.(env := SetEnv(c.env, value)) else c
  }

  function ScaleContainers(containers: seq<Container>, value: string): seq<Container> {
    seq(|containers|, i requires 0 <= i < |containers| => ScaleContainer(containers[i], value))
  }

  function Scaled(s: Sts, n: nat, restart: bool, now: string): Sts {
    s.(specReplicas := Some(n),
       containers := ScaleContainers(s.containers, Itoa(n)),
       annotations := if restart then s.annotations[RESTARTED_AT := now] else s.annotations)
  }

  // ---- the checks --------------------------------------------------------------------------------

  // The first entry of the variable in the first application container.
  function FirstValue(env: seq<EnvVar>): Option<string> {
    if env == [] then None
    else if env[0].name == REPLICAS_ENV then Some(env[0].value)
    else FirstValue(env[1..])
  }

  function FirstEnv(containers: seq<Container>): Option<string> {
    if containers == [] then None
    else if IsApp(containers[0]) then FirstValue(containers[0].env)
    else FirstEnv(containers[1..])
  }

  predicate NeedsEnforcement(s: Sts, n: nat) {
    s.specReplicas != Some(n) || (n > 0 && s.statusReplicas == 0) || FirstEnv(s.containers) != Some(Itoa(n))
  }

  predicate IsZero(s: Sts) {
    s.specReplicas == Some(0) || s.statusReplicas == 0
  }

  class StatefulSet {
    var specReplicas: Option<nat>
    var statusReplicas: nat
    var containers: seq<Container>
    var annotations: map<string, string>

    constructor (s: Sts)
      ensures Value() == s
    {
      specReplicas, statusReplicas, containers, annotations :=
        s.specReplicas, s.statusReplicas, s.containers, s.annotations;
    }

    function Value(): Sts
      reads this
    {
      Sts(specReplicas, statusReplicas, containers, annotations)
    }

    method SetContainerEnv(i: nat, value: string)
      requires i < |containers|
      modifies this`containers
      ensures containers == old(containers)[i := old(containers)[i].(env := SetEnv(old(containers)[i].env, value))]
    {
      ghost var env0 := containers[i].env;
      var envFound := false;
      for j := 0 to |containers[i].env|
        invariant |containers| == |old(containers)|
        invariant |containers[i].env| == |env0|
        invariant containers == old(containers)[i := old(containers)[i].(env := containers[i].env)]
        invariant forall q | 0 <= q < |env0| ::
                    containers[i].env[q] == if q < j then SetValue(env0[q], value) else env0[q]
        invariant envFound <==> HasReplicasEnv(env0[..j])
      {
        assert env0[..j + 1] == env0[..j] + [env0[j]];
        if containers[i].env[j].name == REPLICAS_ENV {
          envFound := true;
          var env := containers[i].env[j := containers[i].env[j].(value := value)];
          containers := containers[i := containers[i].(env := env)];
        }
      }
      assert env0[..|env0|] == env0;
      if !envFound {
        var env := containers[i].env + [EnvVar(REPLICAS_ENV, value)];
        assert containers[i].env == env0;
        containers := containers[i := containers[i].(env := env)];
      } else {
        assert containers[i].env == SetEnv(env0, value);
      }
    }

    // The error is "container not found"; the object is changed in memory even then, so a caller
    // that gets it must not write the object back.
    method ScaleTo(replicas: nat, restart: bool, now: string) returns (containerFound: bool)
      modifies this
      ensures containerFound <==> HasApp(old(containers))
      ensures containerFound ==> Value() == Scaled(old(Value()), replicas, restart, now)
      ensures !containerFound ==> Value() == old(Value()).(specReplicas := Some(replicas))
    {
      specReplicas := Some(replicas);
      containerFound := false;
      for i := 0 to |containers|
        invariant |containers| == |old(containers)|
        invariant forall q | 0 <= q < |containers| ::
                    containers[q]
                    == if q < i then ScaleContainer(old(containers)[q], Itoa(replicas)) else old(containers)[q]
        invariant containerFound <==> HasApp(old(containers)[..i])
        invariant specReplicas == Some(replicas) && statusReplicas == old(statusReplicas)
        invariant annotations == old(annotations)
      {
        assert old(containers)[..i + 1] == old(containers)[..i] + [old(containers)[i]];
        if containers[i].name == APP_CONTAINER {
          containerFound := true;
          SetContainerEnv(i, Itoa(replicas));
        }
      }
      assert old(containers)[..|containers|] == old(containers);
      if !containerFound {
        assert containers == old(containers);
        return;
      }
      assert containers == ScaleContainers(old(containers), Itoa(replicas));
      if restart {
        annotations := annotations[RESTARTED_AT := now];
      }
    }

    method NeedsDesiredStateEnforcement(replicas: nat) returns (b: bool)
      ensures b <==> NeedsEnforcement(Value(), replicas)
    {
      if specReplicas.None? || specReplicas.value != replicas {
        return true;
      }
      if replicas > 0 && statusReplicas == 0 {
        return true;
      }
      var expected := Itoa(replicas);
      var first := FirstEnvLoop();
      b := first != Some(expected);
    }

    method FirstEnvLoop() returns (value: Option<string>)
      ensures value == FirstEnv(containers)
    {
      for i := 0 to |containers|
        invariant FirstEnv(containers) == FirstEnv(containers[i..])
      {
        assert containers[i..][0] == containers[i] && containers[i..][1..] == containers[i + 1..];
        if containers[i].name != APP_CONTAINER {
          continue;
        }
        var env := containers[i].env;
        for j := 0 to |env|
          invariant FirstValue(env) == FirstValue(env[j..])
        {
          assert env[j..][0] == env[j] && env[j..][1..] == env[j + 1..];
          if env[j].name == REPLICAS_ENV {
            return Some(env[j].value);
          }
        }
        return None;
      }
      value := None;
    }
  }

  // ---- what ScaleTo achieves ------------------------------------------------------------------------

  // Every application container has the variable, and nothing but this value for it.
  ghost predicate EnvIs(containers: seq<Container>, n: nat) {
    && HasApp(containers)
    && forall c | c in containers && IsApp(c) ::
         HasReplicasEnv(c.env) && forall e | e in c.env && e.name == REPLICAS_ENV :: e.value == Itoa(n)
  }

  // The value a pod created from the template runs with: among repeated entries the last one
  // wins, in the first (in fact the only) application container.
  function LastValue(env: seq<EnvVar>): Option<string> {
    if env == [] then None
    else if env[|env| - 1].name == REPLICAS_ENV then Some(env[|env| - 1].value)
    else LastValue(env[..|env| - 1])
  }

  function PodEnv(containers: seq<Container>): Option<string> {
    if containers == [] then None
    else if IsApp(containers[0]) then LastValue(containers[0].env)
    else PodEnv(containers[1..])
  }

  lemma {:induction false} EnvValues(env: seq<EnvVar>, value: string)
    requires HasReplicasEnv(env) && forall e | e in env && e.name == REPLICAS_ENV :: e.value == value
    ensures FirstValue(env) == Some(value)
    ensures LastValue(env) == Some(value)
    decreases |env|
  {
    var n := |env| - 1;
    assert env[0] in env && env[n] in env;
    if env[0].name != REPLICAS_ENV {
      assert env == [env[0]] + env[1..];
      EnvValues(env[1..], value);
    }
    if env[n].name != REPLICAS_ENV {
      assert env == env[..n] + [env[n]];
      EnvValues(env[..n], value);
    }
  }

  lemma {:induction false} EnvIsSeen(containers: seq<Container>, n: nat)
    requires EnvIs(containers, n)
    ensures FirstEnv(containers) == Some(Itoa(n)) && PodEnv(containers) == Some(Itoa(n))
  {
    if IsApp(containers[0]) {
      EnvValues(containers[0].env, Itoa(n));
    } else {
      assert containers == [containers[0]] + containers[1..];
      EnvIsSeen(containers[1..], n);
    }
  }

  // What enforcement looks at: the first entry of the variable in the first application container,
  // and no other container even if that one has none.
  lemma {:induction false} FirstValueIs(env: seq<EnvVar>, j: nat)
    requires j <= |env| && forall q | 0 <= q < j :: env[q].name != REPLICAS_ENV
    requires j < |env| ==> env[j].name == REPLICAS_ENV
    ensures FirstValue(env) == if j < |env| then Some(env[j].value) else None
  {
    if j > 0 {
      FirstValueIs(env[1..], j - 1);
    }
  }

  lemma {:induction false} FirstEnvIs(containers: seq<Container>, i: nat, j: nat)
    requires i < |containers| && IsApp(containers[i]) && forall q | 0 <= q < i :: !IsApp(containers[q])
    requires j <= |containers[i].env| && forall q | 0 <= q < j :: containers[i].env[q].name != REPLICAS_ENV
    requires j < |containers[i].env| ==> containers[i].env[j].name == REPLICAS_ENV
    ensures FirstEnv(containers) == if j < |containers[i].env| then Some(containers[i].env[j].value) else None
  {
    if i == 0 {
      FirstValueIs(containers[0].env, j);
    } else {
      FirstEnvIs(containers[1..], i - 1, j);
    }
  }

  lemma SetEnvValues(env: seq<EnvVar>, value: string)
    ensures HasReplicasEnv(SetEnv(env, value))
    ensures forall e | e in SetEnv(env, value) && e.name == REPLICAS_ENV :: e.value == value
  {
    var env' := SetEnv(env, value);
    if HasReplicasEnv(env) {
      var e :| e in env && e.name == REPLICAS_ENV;
      var i :| 0 <= i < |env| && env[i] == e;
      assert env'[i].name == REPLICAS_ENV;
    } else {
      assert env'[|env|].name == REPLICAS_ENV;
    }
  }

  lemma ScaledEnvIs(s: Sts, n: nat, restart: bool, now: string)
    requires HasApp(s.containers)
    ensures EnvIs(Scaled(s, n, restart, now).containers, n)
  {
    var scaled := ScaleContainers(s.containers, Itoa(n));
    var c :| c in s.containers && IsApp(c);
    var i :| 0 <= i < |s.containers| && s.containers[i] == c;
    assert IsApp(scaled[i]);
    forall d | d in scaled && IsApp(d)
      ensures HasReplicasEnv(d.env) && forall e | e in d.env && e.name == REPLICAS_ENV :: e.value == Itoa(n)
    {
      var j :| 0 <= j < |scaled| && scaled[j] == d;
      SetEnvValues(s.containers[j].env, Itoa(n));
    }
  }

  // A successful ScaleTo leaves nothing to enforce, unless pods are wanted and none exists yet.
  lemma ScaleToCloses(s: Sts, n: nat, restart: bool, now: string)
    requires HasApp(s.containers)
    ensures NeedsEnforcement(Scaled(s, n, restart, now), n) <==> n > 0 && s.statusReplicas == 0
  {
    ScaledEnvIs(s, n, restart, now);
    EnvIsSeen(Scaled(s, n, restart, now).containers, n);
  }

  // The other entries of an environment, in order.
  function OtherEnv(env: seq<EnvVar>): seq<EnvVar> {
    if env == [] then []
    else (if env[0].name == REPLICAS_ENV then [] else [env[0]]) + OtherEnv(env[1..])
  }

  lemma {:induction false} OtherEnvAppend(env: seq<EnvVar>, e: EnvVar)
    requires e.name == REPLICAS_ENV
    ensures OtherEnv(env + [e]) == OtherEnv(env)
  {
    if env != [] {
      OtherEnvAppend(env[1..], e);
      assert (env + [e])[1..] == env[1..] + [e];
    } else {
      assert (env + [e])[1..] == [];
    }
  }

  lemma {:induction false} OtherEnvSet(env: seq<EnvVar>, env': seq<EnvVar>, value: string)
    requires |env'| == |env| && forall i | 0 <= i < |env| :: env'[i] == SetValue(env[i], value)
    ensures OtherEnv(env') == OtherEnv(env)
  {
    if env != [] {
      OtherEnvSet(env[1..], env'[1..], value);
    }
  }

  // ScaleTo touches nothing else: no other container, no other variable, and no annotation unless a
  // restart is asked for, and then only that one, with the time. An entry is added only if there is none.
  lemma ScaleToFrame(s: Sts, n: nat, restart: bool, now: string)
    ensures var s' := Scaled(s, n, restart, now);
            && |s'.containers| == |s.containers|
            && (forall i | 0 <= i < |s.containers| ::
                  && s'.containers[i].name == s.containers[i].name
                  && OtherEnv(s'.containers[i].env) == OtherEnv(s.containers[i].env)
                  && (!IsApp(s.containers[i]) ==> s'.containers[i] == s.containers[i])
                  && (IsApp(s.containers[i]) ==>
                        |s'.containers[i].env|
                        == |s.containers[i].env| + if HasReplicasEnv(s.containers[i].env) then 0 else 1))
            && s'.annotations == (if restart then s.annotations[RESTARTED_AT := now] else s.annotations)
            && s'.statusReplicas == s.statusReplicas
  {
    forall i | 0 <= i < |s.containers|
      ensures OtherEnv(ScaleContainer(s.containers[i], Itoa(n)).env) == OtherEnv(s.containers[i].env)
    {
      var env := s.containers[i].env;
      if HasReplicasEnv(env) {
        OtherEnvSet(env, SetEnv(env, Itoa(n)), Itoa(n));
      } else {
        OtherEnvAppend(env, EnvVar(REPLICAS_ENV, Itoa(n)));
      }
    }
  }
}
