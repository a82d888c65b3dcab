// What one reconcile of the shard manager writes, secret by secret, and what ready means over runs.
module ShardManagerRuns {
  import opened Common
  import opened Strconv
  import opened Serialization
  import opened ShardManager

  // ---- one reconcile -----------------------------------------------------------------------------

  // The outdated secrets listed before the i-th.
  ghost function OutdatedBefore(m: map<string, int>, secrets: seq<Secret>, i: nat): set<int>
    requires i <= |secrets|
  {
    set j | 0 <= j < i && Outdated(m, secrets[j])
  }

  lemma OutdatedBeforeNext(m: map<string, int>, secrets: seq<Secret>, i: nat)
    requires i < |secrets|
    ensures |OutdatedBefore(m, secrets, i + 1)|
         == |OutdatedBefore(m, secrets, i)| + if Outdated(m, secrets[i]) then 1 else 0
  {
    if Outdated(m, secrets[i]) {
      assert OutdatedBefore(m, secrets, i + 1) == OutdatedBefore(m, secrets, i) + {i};
    } else {
      assert OutdatedBefore(m, secrets, i + 1) == OutdatedBefore(m, secrets, i);
    }
  }

  lemma OutdatedAtNext(m: map<string, int>, secrets: seq<Secret>, n: nat)
    requires n < |secrets|
    ensures OutdatedAt(m, secrets[..n + 1]) == OutdatedAt(m, secrets[..n]) + if Outdated(m, secrets[n]) then [n] else []
  {
    assert secrets[..n + 1][..n] == secrets[..n];
  }

  // An outdated secret's place in the list of updates is the number of those before it.
  ghost predicate Ranked(m: map<string, int>, secrets: seq<Secret>, at: seq<nat>, n: nat)
    requires n <= |secrets|
  {
    && |at| == |OutdatedBefore(m, secrets, n)|
    && forall i | 0 <= i < n && Outdated(m, secrets[i]) ::
         |OutdatedBefore(m, secrets, i)| < |at| && at[|OutdatedBefore(m, secrets, i)|] == i
  }

  lemma RankedNext(m: map<string, int>, secrets: seq<Secret>, at: seq<nat>, n: nat)
    requires n < |secrets| && Ranked(m, secrets, at, n)
    ensures Ranked(m, secrets, at + if Outdated(m, secrets[n]) then [n] else [], n + 1)
  {
    OutdatedBeforeNext(m, secrets, n);
    var at' := at + if Outdated(m, secrets[n]) then [n] else [];
    forall i | 0 <= i <= n && Outdated(m, secrets[i])
      ensures |OutdatedBefore(m, secrets, i)| < |at'| && at'[|OutdatedBefore(m, secrets, i)|] == i
    {
      if i < n {
        assert at[|OutdatedBefore(m, secrets, i)|] == i;
      }
    }
  }

  lemma PrefixRanked(m: map<string, int>, secrets: seq<Secret>, n: nat, at: seq<nat>, at': seq<nat>)
    requires n < |secrets| && Ranked(m, secrets, at, n)
    requires at == OutdatedAt(m, secrets[..n]) && at' == OutdatedAt(m, secrets[..n + 1])
    ensures Ranked(m, secrets, at', n + 1)
  {
    OutdatedAtNext(m, secrets, n);
    RankedNext(m, secrets, at, n);
  }

  lemma NothingRanked(m: map<string, int>, secrets: seq<Secret>)
    ensures Ranked(m, secrets, OutdatedAt(m, secrets[..0]), 0)
  {
    assert OutdatedBefore(m, secrets, 0) == {};
  }

  lemma {:induction false} OutdatedRanked(m: map<string, int>, secrets: seq<Secret>, n: nat) returns (at: seq<nat>)
    requires n <= |secrets|
    ensures at == OutdatedAt(m, secrets[..n]) && Ranked(m, secrets, at, n)
  {
    at := OutdatedAt(m, secrets[..n]);
    if n == 0 {
      NothingRanked(m, secrets);
    } else {
      var before := OutdatedRanked(m, secrets, n - 1);
      PrefixRanked(m, secrets, n - 1, before, at);
    }
  }

  // One of the first k updates, exactly when fewer than k come before it.
  lemma AmongFirst(m: map<string, int>, secrets: seq<Secret>, k: nat, i: nat)
    requires k <= |OutdatedAt(m, secrets)| && i < |secrets|
    ensures i in OutdatedAt(m, secrets)[..k] <==> Outdated(m, secrets[i]) && |OutdatedBefore(m, secrets, i)| < k
  {
    var at := OutdatedAt(m, secrets);
    assert secrets[..|secrets|] == secrets;
    var ranked := OutdatedRanked(m, secrets, |secrets|);
    OutdatedAtAll(m, secrets);
    if i in at[..k] {
      var q :| 0 <= q < k && at[q] == i;
      assert q == |OutdatedBefore(m, secrets, i)|;
    }
  }

  // What it takes to get as far as the secrets.
  ghost predicate Acceptable(st: Manager, f: Faults) {
    !f.listFails && WellFormedSpec(st.spec) && AllReadable(st.secrets)
  }

  // No write of a secret fails: fewer are outdated than succeed.
  ghost predicate Completes(st: Manager, f: Faults) {
    && Acceptable(st, f)
    && (f.failAt.Some? ==> |OutdatedBefore(Denote(st.spec), st.secrets, |st.secrets|)| <= f.failAt.value)
  }

  // A secret is rewritten exactly if it is outdated and its turn comes before the write that fails,
  // and then only its number changes, to that of its replica.
  lemma SecretWrittenIff(st: Manager, f: Faults, i: nat)
    requires i < |st.secrets|
    ensures var m, s, st' := Denote(st.spec), st.secrets[i], ManagerStep(st, f);
            && |st'.secrets| == |st.secrets|
            && st'.secrets[i]
               == if Acceptable(st, f) && Outdated(m, s)
                     && (f.failAt.Some? ==> |OutdatedBefore(m, st.secrets, i)| < f.failAt.value)
                  then s.(shard := Some(Itoa(m[s.uid]))) else s
  {
    if Acceptable(st, f) {
      var m := Denote(st.spec);
      var k := Written(m, st.secrets, f);
      WriteFirstAt(m, st.secrets, k, i);
      AmongFirst(m, st.secrets, k, i);
      AmongFirst(m, st.secrets, |OutdatedAt(m, st.secrets)|, i);
      assert OutdatedAt(m, st.secrets)[..|OutdatedAt(m, st.secrets)|] == OutdatedAt(m, st.secrets);
      OutdatedAtAll(m, st.secrets);
    }
  }

  lemma SucceedsIff(st: Manager, f: Faults)
    ensures Succeeds(st, f) <==> !f.statusFails && Completes(st, f)
  {
    var m := Denote(st.spec);
    assert st.secrets[..|st.secrets|] == st.secrets;
    var ranked := OutdatedRanked(m, st.secrets, |st.secrets|);
  }

  // Ready is reported exactly after a complete reconcile, together with the spec as applied and with
  // the shards of the secrets found; a failing status write reports nothing.
  lemma ReportedIff(st: Manager, f: Faults)
    ensures var st' := ManagerStep(st, f);
            && st'.ready == (if f.statusFails then st.ready else Completes(st, f))
            && st'.status == (if !f.statusFails && Completes(st, f) then st.spec else st.status)
            && (f.statusFails || !Completes(st, f) ==> st'.shards == st.shards)
            && (!f.statusFails && Completes(st, f) ==>
                  && |st'.shards| == |st.secrets|
                  && forall i | 0 <= i < |st.secrets| ::
                       var s := st.secrets[i];
                       && st'.shards[i].uid == s.uid && st'.shards[i].id == s.name
                       && st'.shards[i].namespace == s.namespace
                       && st'.shards[i].name == s.clusterName && st'.shards[i].server == s.server)
  {
    SucceedsIff(st, f);
    ReportsWhat(st, f);
  }

  lemma ReportsWhat(st: Manager, f: Faults)
    ensures var st' := ManagerStep(st, f);
            && st'.ready == (if f.statusFails then st.ready else Succeeds(st, f))
            && st'.status == (if Succeeds(st, f) then st.spec else st.status)
            && st'.shards == (if Succeeds(st, f) then ShardsOf(st.secrets) else st.shards)
  {
  }

  // ---- runs --------------------------------------------------------------------------------------

  // The k-th reconcile of a run completes, and no later one can report anything.
  ghost predicate LastReport(st: Manager, faults: seq<Faults>, k: nat) {
    && k < |faults| && !faults[k].statusFails && Completes(ManagerRun(st, faults[..k]), faults[k])
    && forall j | k < j < |faults| :: faults[j].statusFails
  }

  ghost predicate NothingReported(faults: seq<Faults>) {
    forall j | 0 <= j < |faults| :: faults[j].statusFails
  }

  ghost predicate SomethingReported(st: Manager, faults: seq<Faults>) {
    exists k :: LastReport(st, faults, k)
  }

  lemma LastReportSnoc(st: Manager, faults: seq<Faults>, k: nat)
    requires k + 1 < |faults|
    ensures LastReport(st, faults, k) <==> LastReport(st, faults[..|faults| - 1], k) && faults[|faults| - 1].statusFails
  {
    assert faults[..|faults| - 1][..k] == faults[..k];
  }

  lemma ReportedSnoc(st: Manager, faults: seq<Faults>, n: nat)
    requires |faults| == n + 1
    ensures SomethingReported(st, faults) <==>
              if faults[n].statusFails then SomethingReported(st, faults[..n])
              else Completes(ManagerRun(st, faults[..n]), faults[n])
  {
    forall k: nat | k < n
      ensures LastReport(st, faults, k) <==> LastReport(st, faults[..n], k) && faults[n].statusFails
    {
      LastReportSnoc(st, faults, k);
    }
    assert LastReport(st, faults, n) <==> !faults[n].statusFails && Completes(ManagerRun(st, faults[..n]), faults[n]);
  }

  // Ready after a run exactly if the last reconcile that reported anything was complete, or if none
  // reported anything and it was ready before.
  lemma {:induction false} ReadyIff(st: Manager, faults: seq<Faults>)
    ensures ManagerRun(st, faults).ready <==> (NothingReported(faults) && st.ready) || SomethingReported(st, faults)
  {
    if faults != [] {
      var n := |faults| - 1;
      ReadyIff(st, faults[..n]);
      ReportedIff(ManagerRun(st, faults[..n]), faults[n]);
      ReportedSnoc(st, faults, n);
      assert NothingReported(faults) <==> NothingReported(faults[..n]) && faults[n].statusFails;
    }
  }

  // Applied and reported: each listed secret as desired, and the spec in the status.
  ghost predicate Applied(st: Manager, st': Manager) {
    && FullyApplied(Denote(st.spec), st.secrets, st'.secrets)
    && st'.spec == st.spec && st'.status == st.spec
  }

  lemma StepAfterApplied(st: Manager, st1: Manager, f: Faults)
    requires Int32Ids(st.spec) && Applied(st, st1) && f.statusFails
    ensures Applied(st, ManagerStep(st1, f))
  {
    DenoteInt32(st.spec);
    AppliedIsQuiet(Denote(st.spec), st.secrets, st1.secrets);
    QuietStep(st1, f);
    ReportedIff(st1, f);
    StepApplies(st1, f);
  }

  lemma CompleteStepApplies(st: Manager, st1: Manager, f: Faults)
    requires Int32Ids(st.spec) && st1.spec == st.spec && PartlyApplied(Denote(st.spec), st.secrets, st1.secrets)
    requires Succeeds(st1, f)
    ensures Applied(st, ManagerStep(st1, f))
  {
    DenoteInt32(st.spec);
    StepApplies(st1, f);
    AppliedTwice(Denote(st.spec), st.secrets, st1.secrets, ManagerStep(st1, f).secrets);
  }

  // Whatever failed on the way: a shard manager that became ready in a run has applied its spec to
  // every secret and reported it.
  lemma {:induction false} ReadyMeansApplied(st: Manager, faults: seq<Faults>)
    requires Int32Ids(st.spec) && !st.ready && ManagerRun(st, faults).ready
    ensures Applied(st, ManagerRun(st, faults))
  {
    var n := |faults| - 1;
    var st1, f := ManagerRun(st, faults[..n]), faults[n];
    ReportedIff(st1, f);
    if f.statusFails {
      ReadyMeansApplied(st, faults[..n]);
      StepAfterApplied(st, st1, f);
    } else {
      RunPartlyApplied(st, faults[..n]);
      SucceedsIff(st1, f);
      CompleteStepApplies(st, st1, f);
    }
  }
}
