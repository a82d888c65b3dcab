// How the evaluator loses track of the leader, and for how long at most.
module EvaluatorAwaiting {
  import opened Common
  import opened Strconv
  import opened Evaluator
  import opened EvaluatorRuns

  // Three partitions with different hashes, and both periods 10.
  ghost predicate Setting(c: Config, x: ReplicaList, y: ReplicaList, z: ReplicaList) {
    && c.Valid() && c.ScaleUpPeriod() == 10 && c.ScaleDownPeriod() == 10
    && c.Hash(x) != c.Hash(y) && c.Hash(x) != c.Hash(z) && c.Hash(y) != c.Hash(z)
  }

  lemma TopOfOne(r: Record)
    ensures Top([r]) == Some(r)
  {
    assert [r][..0] == [];
  }

  lemma TopOfTwo(r: Record, q: Record)
    ensures Top([r, q]) == if Beats(q, r) then Some(q) else Some(r)
  {
    TopOfOne(r);
    assert [r, q][..1] == [r];
  }

  lemma OnlyRecordBumped(c: Config, r: Record, now: int, p: ReplicaList)
    requires r.hash == c.Hash(p) && c.Retention() > 0
    ensures Prune(Observe([r], c.Hash(p), now), c.Retention(), now) == [Record(now, r.hash, r.seenTimes + 1)]
  {
    assert [r][1..] == [];
    assert [Record(now, r.hash, r.seenTimes + 1)][1..] == [];
  }

  lemma RivalAppended(c: Config, r: Record, now: int, p: ReplicaList)
    requires r.hash != c.Hash(p) && c.Retention() > 0 && r.timestamp + c.Retention() > now
    ensures Prune(Observe([r], c.Hash(p), now), c.Retention(), now) == [r, Record(now, c.Hash(p), 1)]
  {
    assert [r][1..] == [];
    var h := [r, Record(now, c.Hash(p), 1)];
    assert Observe([r], c.Hash(p), now) == h;
    BothRetained(h[0], h[1], c.Retention(), now);
  }

  lemma BothRetained(r: Record, q: Record, retention: int, now: int)
    requires r.timestamp + retention > now && q.timestamp + retention > now
    ensures Prune([r, q], retention, now) == [r, q]
  {
    assert [r, q][1..] == [q] && [q][1..] == [];
    assert Prune([q], retention, now) == [q];
  }

  lemma RivalBumped(c: Config, r: Record, q: Record, now: int, p: ReplicaList)
    requires r.hash != c.Hash(p) && q.hash == c.Hash(p) && c.Retention() > 0 && r.timestamp + c.Retention() > now
    ensures Prune(Observe([r, q], c.Hash(p), now), c.Retention(), now) == [r, Record(now, q.hash, q.seenTimes + 1)]
  {
    assert [r, q][1..] == [q] && [q][1..] == [];
    var h := [r, Record(now, q.hash, q.seenTimes + 1)];
    assert Observe([r, q], c.Hash(p), now) == h;
    BothRetained(h[0], h[1], c.Retention(), now);
  }

  lemma LeaderPruned(c: Config, r: Record, q: Record, now: int, p: ReplicaList)
    requires r.hash != c.Hash(p) && q.hash != c.Hash(p) && c.Retention() > 0
    requires r.timestamp + c.Retention() <= now < q.timestamp + c.Retention()
    ensures Prune(Observe([r, q], c.Hash(p), now), c.Retention(), now) == [q, Record(now, c.Hash(p), 1)]
  {
    var mine := Record(now, c.Hash(p), 1);
    assert [r, q][1..] == [q] && [q][1..] == [];
    assert Observe([q], c.Hash(p), now) == [q, mine];
    assert Observe([r, q], c.Hash(p), now) == [r, q, mine];
    assert [r, q, mine][1..] == [q, mine] && [q, mine][1..] == [mine] && [mine][1..] == [];
    BothRetained(q, mine, c.Retention(), now);
  }

  function Observations(x: ReplicaList, y: ReplicaList, z: ReplicaList): seq<Obs> {
    [Obs(0, x), Obs(1, x), Obs(2, x), Obs(3, y), Obs(4, y), Obs(12, z)]
  }

  lemma ObservationsIncrease(x: ReplicaList, y: ReplicaList, z: ReplicaList)
    ensures Increasing(Observations(x, y, z))
  {
  }

  // The state after the first k observations; the next one is only known by its properties.
  ghost predicate After(c: Config, obs: seq<Obs>, k: nat, s: Status) {
    k <= |obs| && s == Run(c, obs[..k])
  }

  lemma RunNext(c: Config, obs: seq<Obs>, k: nat, s: Status) returns (s': Status)
    requires k < |obs| && After(c, obs, k, s)
    ensures s' == Step(c, s, obs[k].time, obs[k].partition) && After(c, obs, k + 1, s')
  {
    s' := Run(c, obs[..k + 1]);
    assert obs[..k + 1][..k] == obs[..k];
  }

  // A step that changes the history only: the leader is the projection's and nothing is due.
  lemma StepKeepsLeader(c: Config, s: Status, now: int, p: ReplicaList, h: seq<Record>, leader: Record)
    requires NewHistory(c, s, now, p) == h && Top(h) == Some(leader) && leader.hash == c.Hash(s.projection)
    requires p == s.projection || leader.hash != c.Hash(p)
    requires s.lastEvaluation == Some(0) && now < 10 && c.ScaleUpPeriod() == 10 && c.ScaleDownPeriod() == 10
    ensures Step(c, s, now, p) == s.(history := h, ready := true)
  {
  }

  lemma RunKeepsLeader(c: Config, obs: seq<Obs>, k: nat, s: Status, h: seq<Record>, leader: Record) returns (s': Status)
    requires k < |obs| && After(c, obs, k, s) && NewHistory(c, s, obs[k].time, obs[k].partition) == h
    requires Top(h) == Some(leader) && leader.hash == c.Hash(s.projection)
    requires obs[k].partition == s.projection || leader.hash != c.Hash(obs[k].partition)
    requires s.lastEvaluation == Some(0) && obs[k].time < 10 && c.ScaleUpPeriod() == 10 && c.ScaleDownPeriod() == 10
    ensures After(c, obs, k + 1, s') && s' == s.(history := h, ready := true)
  {
    s' := RunNext(c, obs, k, s);
    StepKeepsLeader(c, s, obs[k].time, obs[k].partition, h, leader);
  }

  lemma FirstStepPromotes(c: Config, x: ReplicaList)
    requires c.Retention() > 0
    ensures Step(c, INITIAL, 0, x) == Status([Record(0, c.Hash(x), 1)], x, x, Some(0), true)
  {
    var r := Record(0, c.Hash(x), 1);
    TopOfOne(r);
    assert [r][1..] == [];
    assert Prune([r], c.Retention(), 0) == [r];
    assert NewHistory(c, INITIAL, 0, x) == [r] && NewProjection(c, INITIAL, 0, x) == x;
  }

  lemma LeaderSeenThrice(c: Config, x: ReplicaList, y: ReplicaList, z: ReplicaList) returns (s: Status)
    requires Setting(c, x, y, z)
    ensures After(c, Observations(x, y, z), 3, s)
    ensures s == Status([Record(2, c.Hash(x), 3)], x, x, Some(0), true)
  {
    var hx, obs := c.Hash(x), Observations(x, y, z);
    FirstStepPromotes(c, x);
    assert obs[..0] == [];
    s := RunNext(c, obs, 0, INITIAL);
    OnlyRecordBumped(c, Record(0, hx, 1), 1, x);
    TopOfOne(Record(1, hx, 2));
    s := RunKeepsLeader(c, obs, 1, s, [Record(1, hx, 2)], Record(1, hx, 2));
    OnlyRecordBumped(c, Record(1, hx, 2), 2, x);
    TopOfOne(Record(2, hx, 3));
    s := RunKeepsLeader(c, obs, 2, s, [Record(2, hx, 3)], Record(2, hx, 3));
  }

  lemma RivalSeenOnce(c: Config, x: ReplicaList, y: ReplicaList, z: ReplicaList, s2: Status) returns (s: Status)
    requires Setting(c, x, y, z) && After(c, Observations(x, y, z), 3, s2)
    requires s2 == Status([Record(2, c.Hash(x), 3)], x, x, Some(0), true)
    ensures After(c, Observations(x, y, z), 4, s)
    ensures s == Status([Record(2, c.Hash(x), 3), Record(3, c.Hash(y), 1)], x, x, Some(0), true)
  {
    var r, q, obs := Record(2, c.Hash(x), 3), Record(3, c.Hash(y), 1), Observations(x, y, z);
    RivalAppended(c, r, 3, y);
    TopOfTwo(r, q);
    s := RunKeepsLeader(c, obs, 3, s2, [r, q], r);
  }

  lemma RivalSeenTwice(c: Config, x: ReplicaList, y: ReplicaList, z: ReplicaList, s3: Status) returns (s: Status)
    requires Setting(c, x, y, z) && After(c, Observations(x, y, z), 4, s3)
    requires s3 == Status([Record(2, c.Hash(x), 3), Record(3, c.Hash(y), 1)], x, x, Some(0), true)
    ensures After(c, Observations(x, y, z), 5, s)
    ensures s == Status([Record(2, c.Hash(x), 3), Record(4, c.Hash(y), 2)], x, x, Some(0), true)
  {
    var r, q, obs := Record(2, c.Hash(x), 3), Record(3, c.Hash(y), 1), Observations(x, y, z);
    RivalBumped(c, r, q, 4, y);
    TopOfTwo(r, Record(4, c.Hash(y), 2));
    s := RunKeepsLeader(c, obs, 4, s3, [r, Record(4, c.Hash(y), 2)], r);
  }

  lemma StepLosesLeader(c: Config, x: ReplicaList, y: ReplicaList, z: ReplicaList, s: Status)
    requires Setting(c, x, y, z)
    requires s == Status([Record(2, c.Hash(x), 3), Record(4, c.Hash(y), 2)], x, x, Some(0), true)
    ensures !Step(c, s, 12, z).ready
  {
    var q := Record(4, c.Hash(y), 2);
    LeaderPruned(c, Record(2, c.Hash(x), 3), q, 12, z);
    TopOfTwo(q, Record(12, c.Hash(z), 1));
    assert NewHistory(c, s, 12, z) == [q, Record(12, c.Hash(z), 1)];
    assert TopHash(NewHistory(c, s, 12, z)) == c.Hash(y) && NewProjection(c, s, 12, z) == x;
  }

  // Ready after all observations but the last, and not ready after that.
  ghost predicate LosesLeaderAtLast(c: Config, obs: seq<Obs>) {
    obs != [] && Increasing(obs) && Run(c, obs[..|obs| - 1]).ready && !Run(c, obs).ready
  }

  // x seen at 0, 1 and 2, y at 3 and 4, z at 12: by then the record of x is pruned, y outvotes z, and
  // all that is known of y is its hash.
  lemma AwaitingHappens(c: Config, x: ReplicaList, y: ReplicaList, z: ReplicaList)
    requires Setting(c, x, y, z)
    ensures LosesLeaderAtLast(c, Observations(x, y, z))
  {
    var obs := Observations(x, y, z);
    ObservationsIncrease(x, y, z);
    var s2 := LeaderSeenThrice(c, x, y, z);
    var s3 := RivalSeenOnce(c, x, y, z, s2);
    var s4 := RivalSeenTwice(c, x, y, z, s3);
    StepLosesLeader(c, x, y, z, s4);
    var last := RunNext(c, obs, 5, s4);
    assert obs[..6] == obs;
  }

  // Such a setting, with its run.
  lemma AwaitingRun() returns (c: Config, x: ReplicaList, y: ReplicaList, z: ReplicaList)
    ensures Setting(c, x, y, z) && LosesLeaderAtLast(c, Observations(x, y, z))
  {
    c := Config(10, None, None, p => Itoa(|p|));
    x := [];
    y := [Replica(0, [], 0.0)];
    z := [Replica(0, [], 0.0), Replica(1, [], 0.0)];
    ItoaInjective(0, 1);
    ItoaInjective(0, 2);
    ItoaInjective(1, 2);
    AwaitingHappens(c, x, y, z);
  }


  // ---- and it ends ---------------------------------------------------------------------------------------

  // i retention periods.
  function Periods(i: nat, retention: int): int {
    if i == 0 then 0 else Periods(i - 1, retention) + retention
  }

  lemma {:induction false} PeriodsProduct(i: nat, retention: int)
    ensures Periods(i, retention) == i * retention
  {
    if i > 0 {
      PeriodsProduct(i - 1, retention);
      OneMore(i, retention);
    }
  }

  // A record last seen i periods after t0 or later has i + 1 votes less than the most there were.
  ghost predicate Faded(r: Record, t0: int, retention: int, most: int, i: nat) {
    r.timestamp >= t0 + Periods(i, retention) ==> r.seenTimes <= most - 1 - i
  }

  ghost predicate Fading(h: seq<Record>, t0: int, retention: int, most: int) {
    forall r | r in h :: r.seenTimes <= most && forall i: nat :: Faded(r, t0, retention, most, i)
  }

  // A rival that outvotes the current partition was last seen less than a period ago, so the current
  // one, with at least a vote less than it, has faded a period further.
  lemma RivalFades(r: Record, mine: Record, t0: int, retention: int, most: int, i: nat)
    requires retention > 0 && mine.timestamp >= t0 && mine.seenTimes < r.seenTimes <= most
    requires r.timestamp + retention > mine.timestamp
    requires forall k: nat :: Faded(r, t0, retention, most, k)
    ensures Faded(mine, t0, retention, most, i)
  {
    if i > 0 {
      assert Faded(r, t0, retention, most, i - 1);
    }
  }

  // A step that does not end ready elects a rival of the current partition.
  lemma NotReadyFades(c: Config, s: Status, now: int, p: ReplicaList, t0: int, most: int)
    requires c.Retention() > 0 && Fresh(s, now) && t0 <= now && Fading(s.history, t0, c.Retention(), most)
    requires !Step(c, s, now, p).ready
    ensures Fading(NewHistory(c, s, now, p), t0, c.Retention(), most)
    ensures most >= 1 && now < t0 + Periods(most - 1, c.Retention())
  {
    var mine := Bumped(s.history, c.Hash(p), now);
    CurrentLosesIff(c, s, now, p);
    var rival :| rival in s.history && rival.hash != c.Hash(p)
      && rival.timestamp + c.Retention() > now && rival.seenTimes > Votes(s.history, c.Hash(p)) + 1;
    HistoryAfter(c, s, now, p);
    CurrentRecorded(c, s, now, p);
    forall i: nat
      ensures Faded(mine, t0, c.Retention(), most, i)
    {
      RivalFades(rival, mine, t0, c.Retention(), most, i);
    }
    assert mine.seenTimes >= 1;
    assert Faded(mine, t0, c.Retention(), most, most - 1);
  }

  // Not ready after any of the observations.
  ghost predicate NeverReady(c: Config, s: Status, obs: seq<Obs>) {
    forall k | 0 < k <= |obs| :: !RunFrom(c, s, obs[..k]).ready
  }

  lemma {:induction false} PeriodsPositive(i: nat, retention: int)
    requires retention > 0
    ensures Periods(i, retention) >= 0
  {
    if i > 0 {
      PeriodsPositive(i - 1, retention);
    }
  }

  lemma StartFades(h: seq<Record>, t0: int, retention: int, most: int)
    requires retention > 0 && forall r | r in h :: r.seenTimes <= most && r.timestamp < t0
    ensures Fading(h, t0, retention, most)
  {
    forall r, i: nat | r in h
      ensures Faded(r, t0, retention, most, i)
    {
      PeriodsPositive(i, retention);
    }
  }

  lemma FreshBeforeLast(c: Config, s: Status, obs: seq<Obs>)
    requires obs != [] && Increasing(obs) && StartsFresh(s, obs)
    ensures Fresh(RunFrom(c, s, obs[..|obs| - 1]), obs[|obs| - 1].time)
  {
    assert forall o | o in obs :: Fresh(s, o.time);
    RunFresh(c, s, obs[..|obs| - 1], obs[|obs| - 1].time);
  }

  lemma LastFades(c: Config, s: Status, obs: seq<Obs>, t0: int, most: int)
    requires c.Retention() > 0 && obs != [] && t0 <= obs[|obs| - 1].time
    requires Fresh(RunFrom(c, s, obs[..|obs| - 1]), obs[|obs| - 1].time)
    requires Fading(RunFrom(c, s, obs[..|obs| - 1]).history, t0, c.Retention(), most)
    requires !RunFrom(c, s, obs).ready
    ensures Fading(RunFrom(c, s, obs).history, t0, c.Retention(), most)
    ensures most >= 1 && obs[|obs| - 1].time < t0 + Periods(most - 1, c.Retention())
  {
    var o := obs[|obs| - 1];
    NotReadyFades(c, RunFrom(c, s, obs[..|obs| - 1]), o.time, o.partition, t0, most);
  }

  lemma {:induction false} NeverReadyFades(c: Config, s: Status, obs: seq<Obs>, most: int)
    requires c.Retention() > 0 && obs != [] && Increasing(obs) && StartsFresh(s, obs)
    requires (forall r | r in s.history :: r.seenTimes <= most) && NeverReady(c, s, obs)
    ensures Fading(RunFrom(c, s, obs).history, obs[0].time, c.Retention(), most)
    ensures most >= 1 && obs[|obs| - 1].time < obs[0].time + Periods(most - 1, c.Retention())
  {
    var n := |obs| - 1;
    if n == 0 {
      assert obs[0] in obs && obs[..0] == [];
      StartFades(s.history, obs[0].time, c.Retention(), most);
    } else {
      PrefixAhead(s, obs, n);
      NeverReadyPrefix(c, s, obs, n);
      NeverReadyFades(c, s, obs[..n], most);
    }
    assert obs[..n + 1] == obs;
    FreshBeforeLast(c, s, obs);
    LastFades(c, s, obs, obs[0].time, most);
  }

  lemma PrefixAhead(s: Status, obs: seq<Obs>, n: nat)
    requires n <= |obs| && Increasing(obs) && StartsFresh(s, obs)
    ensures Increasing(obs[..n]) && StartsFresh(s, obs[..n])
  {
    assert forall o | o in obs[..n] :: o in obs;
  }

  lemma TakeTake<T>(s: seq<T>, n: nat, k: nat)
    requires k <= n <= |s|
    ensures s[..n][..k] == s[..k]
  {
  }

  lemma NeverReadyPrefix(c: Config, s: Status, obs: seq<Obs>, n: nat)
    requires n <= |obs| && NeverReady(c, s, obs)
    ensures NeverReady(c, s, obs[..n])
  {
    forall k | 0 < k <= n
      ensures !RunFrom(c, s, obs[..n][..k]).ready
    {
      TakeTake(obs, n, k);
    }
  }

  lemma SpanBound(most: int, retention: int, span: int)
    requires most >= 1 && span < Periods(most - 1, retention)
    ensures span < (most - 1) * retention
  {
    PeriodsProduct(most - 1, retention);
  }

  lemma NeverReadySpan(c: Config, s: Status, obs: seq<Obs>, most: int)
    requires c.Retention() > 0 && obs != [] && Increasing(obs) && StartsFresh(s, obs)
    requires (forall r | r in s.history :: r.seenTimes <= most) && NeverReady(c, s, obs)
    ensures obs[|obs| - 1].time - obs[0].time < (most - 1) * c.Retention()
  {
    NeverReadyFades(c, s, obs, most);
    SpanBound(most, c.Retention(), obs[|obs| - 1].time - obs[0].time);
  }

  // From any sound history whose counts are at most M: once the observations, whatever they are,
  // span M - 1 retention periods, the evaluator has been ready after one of them.
  lemma AwaitingEnds(c: Config, s: Status, obs: seq<Obs>, most: int)
    requires c.Retention() > 0 && obs != [] && Increasing(obs) && StartsFresh(s, obs)
    requires forall r | r in s.history :: r.seenTimes <= most
    requires obs[|obs| - 1].time - obs[0].time >= (most - 1) * c.Retention()
    ensures exists k :: 0 < k <= |obs| && RunFrom(c, s, obs[..k]).ready
  {
    if NeverReady(c, s, obs) {
      NeverReadySpan(c, s, obs, most);
    }
  }
}
