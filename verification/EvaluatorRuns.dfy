// The evaluator over whole runs.
module EvaluatorRuns {
  import opened Common
  import opened Evaluator

  // One observation: the partition reported at an observing reconcile.
  datatype Obs = Obs(time: int, partition: ReplicaList)

  ghost predicate Increasing(obs: seq<Obs>) {
    forall i, j | 0 <= i < j < |obs| :: obs[i].time < obs[j].time
  }

  ghost function RunFrom(c: Config, s: Status, obs: seq<Obs>): Status {
    if obs == [] then s
    else
      var o := obs[|obs| - 1];
      Step(c, RunFrom(c, s, obs[..|obs| - 1]), o.time, o.partition)
  }

  ghost function Run(c: Config, obs: seq<Obs>): Status {
    RunFrom(c, INITIAL, obs)
  }

  lemma {:induction false} RunFresh(c: Config, s: Status, obs: seq<Obs>, now: int)
    requires Increasing(obs) && (forall o | o in obs :: o.time < now)
    requires forall o | o in obs :: Fresh(s, o.time)
    requires Fresh(s, now)
    ensures Fresh(RunFrom(c, s, obs), now)
  {
    if obs != [] {
      var n := |obs| - 1;
      RunFresh(c, s, obs[..n], obs[n].time);
      StepFresh(c, RunFrom(c, s, obs[..n]), obs[n].time, obs[n].partition, now);
    }
  }

  // ---- the leader --------------------------------------------------------------------------------

  // The projection's record leads the history: what a ready status means.
  ghost predicate Leads(c: Config, s: Status, leader: Record) {
    IsTop(s.history, leader) && leader.hash == c.Hash(s.projection)
  }

  ghost predicate Retained(c: Config, leader: Record, now: int, p: ReplicaList) {
    leader.hash == c.Hash(p) || leader.timestamp + c.Retention() > now
  }

  lemma {:induction false} VotesOf(h: seq<Record>, r: Record)
    requires Sound(h) && r in h
    ensures Votes(h, r.hash) == r.seenTimes
  {
    if h[0] != r {
      assert r in h[1..];
      VotesOf(h[1..], r);
    }
  }

  // A leader observed again leads by one more vote.
  lemma LeaderBumped(c: Config, s: Status, now: int, p: ReplicaList, leader: Record)
    requires c.Retention() > 0 && Fresh(s, now)
    requires IsTop(s.history, leader) && leader.hash == c.Hash(p)
    ensures Top(NewHistory(c, s, now, p)) == Some(Record(now, c.Hash(p), leader.seenTimes + 1))
  {
    VotesOf(s.history, leader);
    var h := NewHistory(c, s, now, p);
    HistoryAfter(c, s, now, p);
    CurrentRecorded(c, s, now, p);
    var mine := Bumped(s.history, c.Hash(p), now);
    forall x | x in h && x != mine
      ensures Beats(mine, x)
    {
      assert x in s.history && Beats(leader, x);
    }
    TopUnique(h, mine);
  }

  // While the leader's record is retained, the top seen record is either the projection or the
  // current partition, so the evaluator never loses track of it.
  lemma LeaderIsProjectionOrCurrent(c: Config, s: Status, now: int, p: ReplicaList, leader: Record)
    requires c.Valid() && c.Retention() > 0 && Fresh(s, now) && Leads(c, s, leader)
    requires Retained(c, leader, now, p)
    ensures TopHash(NewHistory(c, s, now, p)) in {c.Hash(p), c.Hash(s.projection)}
    ensures Step(c, s, now, p).ready
  {
    if leader.hash == c.Hash(p) {
      LeaderBumped(c, s, now, p, leader);
    } else {
      var h := NewHistory(c, s, now, p);
      HistoryAfter(c, s, now, p);
      CurrentRecorded(c, s, now, p);
      assert leader in h;
    }
  }

  // A record that outlives the step and outvotes the current partition, its new vote included.
  ghost predicate RivalRemains(c: Config, s: Status, now: int, p: ReplicaList) {
    exists r :: r in s.history && r.hash != c.Hash(p)
                && r.timestamp + c.Retention() > now && r.seenTimes > Votes(s.history, c.Hash(p)) + 1
  }

  // The current partition loses the election exactly to such a record.
  lemma CurrentLosesIff(c: Config, s: Status, now: int, p: ReplicaList)
    requires c.Retention() > 0 && Fresh(s, now)
    ensures TopHash(NewHistory(c, s, now, p)) != c.Hash(p) <==> RivalRemains(c, s, now, p)
  {
    var h, mine := NewHistory(c, s, now, p), Bumped(s.history, c.Hash(p), now);
    HistoryAfter(c, s, now, p);
    CurrentRecorded(c, s, now, p);
    var top := Top(h).value;
    NoOtherRecord(h, top, mine);
    if top.hash != c.Hash(p) {
      assert Beats(top, mine) && top in s.history;
    }
    forall r | r in s.history && r.hash != c.Hash(p)
      && r.timestamp + c.Retention() > now && r.seenTimes > Votes(s.history, c.Hash(p)) + 1
      ensures top != mine
    {
      assert r in h && !Beats(mine, r);
    }
  }

  // "AwaitingNewProjection" is entered exactly by pruning the leader while a record of some other
  // partition remains that outvotes the current one.
  lemma AwaitingIff(c: Config, s: Status, now: int, p: ReplicaList, leader: Record)
    requires c.Valid() && c.Retention() > 0 && Fresh(s, now) && Leads(c, s, leader)
    ensures !Step(c, s, now, p).ready <==> !Retained(c, leader, now, p) && RivalRemains(c, s, now, p)
  {
    CurrentLosesIff(c, s, now, p);
    if Retained(c, leader, now, p) {
      LeaderIsProjectionOrCurrent(c, s, now, p, leader);
    } else {
      var h := NewHistory(c, s, now, p);
      HistoryAfter(c, s, now, p);
      CurrentRecorded(c, s, now, p);
      if Top(h).value.hash != c.Hash(p) {
        NoOtherRecord(s.history, leader, Top(h).value);
      }
    }
  }

  lemma NoOtherRecord(h: seq<Record>, a: Record, b: Record)
    requires Sound(h) && a in h && b in h
    ensures a.hash == b.hash ==> a == b
  {
  }

  // A ready status always has a known leader, so the two lemmas above apply along whole runs.
  lemma ReadyLeads(c: Config, s: Status, now: int, p: ReplicaList) returns (leader: Record)
    requires c.Valid() && Fresh(s, now) && Step(c, s, now, p).ready
    ensures Leads(c, Step(c, s, now, p), leader)
  {
    var s' := Step(c, s, now, p);
    HistoryAfter(c, s, now, p);
    if Promotes(c, s, now, p) {
      leader := s'.history[0];
    } else {
      TopWins(s'.history);
      leader := Top(s'.history).value;
    }
  }

  // Without a positive retention the history empties itself at every step and nothing is ever
  // published: the premise of the lemmas above is needed.
  lemma {:induction false} NothingWithoutRetention(c: Config, obs: seq<Obs>)
    requires c.Valid() && c.Retention() <= 0 && Increasing(obs)
    ensures Run(c, obs).history == [] && !Run(c, obs).ready && Run(c, obs).replicas == []
  {
    if obs != [] {
      var n := |obs| - 1;
      NothingWithoutRetention(c, obs[..n]);
      PruneNothing(Observe([], c.Hash(obs[n].partition), obs[n].time), c.Retention(), obs[n].time);
    }
  }

  lemma {:induction false} PruneNothing(h: seq<Record>, retention: int, now: int)
    requires forall r | r in h :: r.timestamp + retention <= now
    ensures Prune(h, retention, now) == []
  {
    if h != [] {
      assert h[0] in h;
      PruneNothing(h[1..], retention, now);
    }
  }

  // ---- the periods, read off the configuration ---------------------------------------------------

  // A gap long enough to publish `after` replicas in place of `before`: fewer replicas wait for the
  // scale-down period, the same number or more for the scale-up period, and a period that is not
  // set is the common one.
  ghost predicate Waited(c: Config, gap: int, after: nat, before: nat) {
    if after < before
    then gap >= if c.scaleDown.Some? then c.scaleDown.value else c.stabilization
    else gap >= if c.scaleUp.Some? then c.scaleUp.value else c.stabilization
  }

  // Either way.
  ghost predicate WaitedBoth(c: Config, gap: int) {
    Waited(c, gap, 0, 1) && Waited(c, gap, 1, 0)
  }

  // No wait is shorter than p.
  ghost predicate NoShorter(c: Config, p: int) {
    forall gap, after, before | Waited(c, gap, after, before) :: gap >= p
  }

  // Enough time since the last promotion, if there was one, to publish n replicas.
  ghost predicate Elapsed(c: Config, s: Status, now: int, n: nat) {
    s.lastEvaluation == None || Waited(c, now - s.lastEvaluation.value, n, |s.replicas|)
  }

  // The projection is published exactly when it leads and the wait of its direction is over.
  lemma PromotesIff(c: Config, s: Status, now: int, p: ReplicaList)
    ensures Promotes(c, s, now, p) <==>
              LeaderKnown(c, s, now, p) && Elapsed(c, s, now, |NewProjection(c, s, now, p)|)
  {
  }

  // A record outlives an observation exactly while one of the two waits, counted from its last
  // sighting, is not over.
  lemma RetainedIff(c: Config, age: int)
    ensures age < c.Retention() <==> !WaitedBoth(c, age)
  {
  }

  // ---- hysteresis --------------------------------------------------------------------------------

  datatype Promotion = Promotion(time: int, before: ReplicaList, after: ReplicaList, votes: seq<Record>)

  // The promotion a reconcile makes, if any.
  ghost function Promoted(c: Config, s: Status, o: Obs): seq<Promotion> {
    if Promotes(c, s, o.time, o.partition)
    then [Promotion(o.time, s.replicas, NewProjection(c, s, o.time, o.partition),
                    NewHistory(c, s, o.time, o.partition))]
    else []
  }

  // The promotions of a run, in order.
  ghost function Promotions(c: Config, obs: seq<Obs>): seq<Promotion> {
    if obs == [] then []
    else
      var n := |obs| - 1;
      Promotions(c, obs[..n]) + Promoted(c, Run(c, obs[..n]), obs[n])
  }

  // A promotion comes at least the period of its direction after the one before it, and
  // replaces what that one published.
  ghost predicate Spaced(c: Config, log: seq<Promotion>) {
    forall i | 0 < i < |log| ::
      && log[i].before == log[i - 1].after
      && Waited(c, log[i].time - log[i - 1].time, |log[i].after|, |log[i].before|)
  }

  ghost predicate Matches(s: Status, log: seq<Promotion>) {
    if log == [] then s.lastEvaluation == None && s.replicas == []
    else s.lastEvaluation == Some(log[|log| - 1].time) && s.replicas == log[|log| - 1].after
  }

  lemma StepSpaced(c: Config, s: Status, log: seq<Promotion>, m: Promotion)
    requires Spaced(c, log) && Matches(s, log)
    requires m.before == s.replicas
    requires Elapsed(c, s, m.time, |m.after|)
    ensures Spaced(c, log + [m])
  {
  }

  lemma StepUnspaced(c: Config, s: Status, o: Obs, log: seq<Promotion>)
    requires Matches(s, log)
    requires !Promotes(c, s, o.time, o.partition)
    ensures Matches(Step(c, s, o.time, o.partition), log)
    ensures log + Promoted(c, s, o) == log
  {
  }

  lemma {:induction false} PromotionsSpaced(c: Config, obs: seq<Obs>)
    ensures Spaced(c, Promotions(c, obs)) && Matches(Run(c, obs), Promotions(c, obs))
  {
    if obs != [] {
      var n := |obs| - 1;
      PromotionsSpaced(c, obs[..n]);
      if Promotes(c, Run(c, obs[..n]), obs[n].time, obs[n].partition) {
        StepSpaced(c, Run(c, obs[..n]), Promotions(c, obs[..n]), Promoted(c, Run(c, obs[..n]), obs[n])[0]);
      } else {
        StepUnspaced(c, Run(c, obs[..n]), obs[n], Promotions(c, obs[..n]));
      }
    }
  }

  lemma OneMore(n: nat, p: int)
    ensures n * p == (n - 1) * p + p
  {
  }

  // n promotions span at least n - 1 times the shorter wait.
  lemma {:induction false} PromotionsSpan(c: Config, log: seq<Promotion>, p: int)
    requires Spaced(c, log) && log != [] && NoShorter(c, p)
    ensures log[|log| - 1].time - log[0].time >= (|log| - 1) * p
  {
    var n := |log| - 1;
    if n > 0 {
      PromotionsSpan(c, log[..n], p);
      assert log[n].time - log[n - 1].time >= p;
      OneMore(n, p);
    }
  }

  // Some partition with this hash, or this very partition, had been observed by then.
  ghost predicate SeenHash(c: Config, obs: seq<Obs>, hash: string, until: int) {
    exists o :: o in obs && o.time <= until && c.Hash(o.partition) == hash
  }

  ghost predicate SeenPartition(obs: seq<Obs>, p: ReplicaList, until: int) {
    exists o :: o in obs && o.time <= until && o.partition == p
  }

  // Every record, and the projection once there is one, comes from an observation.
  ghost predicate Grounded(c: Config, obs: seq<Obs>, s: Status, until: int) {
    && (forall r | r in s.history :: SeenHash(c, obs, r.hash, until))
    && (s.projection == [] || SeenPartition(obs, s.projection, until))
  }

  lemma SeenLonger(c: Config, obs: seq<Obs>, o: Obs, until: int)
    requires until <= o.time
    ensures forall h | SeenHash(c, obs, h, until) ::
              SeenHash(c, obs + [o], h, until) && SeenHash(c, obs + [o], h, o.time)
    ensures forall p | SeenPartition(obs, p, until) ::
              SeenPartition(obs + [o], p, until) && SeenPartition(obs + [o], p, o.time)
    ensures SeenHash(c, obs + [o], c.Hash(o.partition), o.time) && SeenPartition(obs + [o], o.partition, o.time)
  {
    assert forall q | q in obs :: q in obs + [o];
    assert o in obs + [o];
  }

  lemma HistoryGrounded(c: Config, obs: seq<Obs>, s: Status, o: Obs, until: int)
    requires Fresh(s, o.time) && Grounded(c, obs, s, until) && until <= o.time
    ensures forall r | r in NewHistory(c, s, o.time, o.partition) :: SeenHash(c, obs + [o], r.hash, o.time)
    ensures NewProjection(c, s, o.time, o.partition) == []
         || SeenPartition(obs + [o], NewProjection(c, s, o.time, o.partition), o.time)
  {
    HistoryAfter(c, s, o.time, o.partition);
    SeenLonger(c, obs, o, until);
    forall r | r in NewHistory(c, s, o.time, o.partition)
      ensures SeenHash(c, obs + [o], r.hash, o.time)
    {
      assert r.hash == c.Hash(o.partition) || r in s.history;
    }
  }

  // A known leader's hash was observed: it is the hash of a record.
  lemma LeaderSeen(c: Config, obs: seq<Obs>, s: Status, o: Obs, until: int)
    requires c.Valid() && Fresh(s, o.time) && Grounded(c, obs, s, until) && until <= o.time
    requires LeaderKnown(c, s, o.time, o.partition)
    ensures var h := NewHistory(c, s, o.time, o.partition);
            Top(h).Some? && IsTop(h, Top(h).value)
            && Top(h).value.hash == c.Hash(NewProjection(c, s, o.time, o.partition))
            && MostVoted(h, Top(h).value)
    ensures SeenHash(c, obs + [o], c.Hash(NewProjection(c, s, o.time, o.partition)), o.time)
  {
    HistoryAfter(c, s, o.time, o.partition);
    HistoryGrounded(c, obs, s, o, until);
    TopWins(NewHistory(c, s, o.time, o.partition));
  }

  lemma StepGrounded(c: Config, obs: seq<Obs>, s: Status, o: Obs, until: int)
    requires c.Valid() && Fresh(s, o.time) && Grounded(c, obs, s, until) && until <= o.time
    ensures Grounded(c, obs + [o], Step(c, s, o.time, o.partition), o.time)
  {
    HistoryGrounded(c, obs, s, o, until);
    if LeaderKnown(c, s, o.time, o.partition) {
      LeaderSeen(c, obs, s, o, until);
    }
  }

  lemma {:induction false} RunGrounded(c: Config, obs: seq<Obs>, until: int)
    requires c.Valid() && Increasing(obs) && forall o | o in obs :: o.time <= until
    ensures Grounded(c, obs, Run(c, obs), until)
  {
    if obs != [] {
      var n := |obs| - 1;
      SplitLast(obs);
      RunGrounded(c, obs[..n], obs[n].time);
      RunFresh(c, INITIAL, obs[..n], obs[n].time);
      StepGrounded(c, obs[..n], Run(c, obs[..n]), obs[n], obs[n].time);
    }
  }

  // No record has more votes, and none with as many was seen later.
  ghost predicate MostVoted(h: seq<Record>, r: Record) {
    && r in h
    && forall x | x in h :: x.seenTimes <= r.seenTimes && (x.seenTimes == r.seenTimes ==> x.timestamp <= r.timestamp)
  }

  // What a promotion publishes led the election held at that moment, and had been observed by then.
  ghost predicate Elected(c: Config, obs: seq<Obs>, m: Promotion) {
    && (exists r :: MostVoted(m.votes, r) && r.hash == c.Hash(m.after))
    && SeenHash(c, obs, c.Hash(m.after), m.time)
    && (m.after == [] || SeenPartition(obs, m.after, m.time))
  }

  lemma StepElected(c: Config, obs: seq<Obs>, s: Status, o: Obs, log: seq<Promotion>)
    requires c.Valid() && Fresh(s, o.time) && Grounded(c, obs, s, o.time)
    requires forall m | m in log :: Elected(c, obs, m) && m.time <= o.time
    ensures forall m | m in log + Promoted(c, s, o) :: Elected(c, obs + [o], m)
  {
    forall m | m in log
      ensures Elected(c, obs + [o], m)
    {
      SeenLonger(c, obs, o, m.time);
    }
    if Promotes(c, s, o.time, o.partition) {
      LeaderSeen(c, obs, s, o, o.time);
      HistoryGrounded(c, obs, s, o, o.time);
    }
  }

  lemma SplitLast<T>(s: seq<T>)
    requires s != []
    ensures s == s[..|s| - 1] + [s[|s| - 1]]
  {
  }

  lemma {:induction false} PromotionTimes(c: Config, obs: seq<Obs>, until: int)
    requires forall o | o in obs :: o.time <= until
    ensures forall m | m in Promotions(c, obs) :: m.time <= until
  {
    if obs != [] {
      PromotionTimes(c, obs[..|obs| - 1], until);
    }
  }

  lemma {:induction false} PromotionsElected(c: Config, obs: seq<Obs>)
    requires c.Valid() && Increasing(obs)
    ensures forall m | m in Promotions(c, obs) :: Elected(c, obs, m)
  {
    if obs != [] {
      var n := |obs| - 1;
      PromotionsElected(c, obs[..n]);
      PromotionTimes(c, obs[..n], obs[n].time);
      RunGrounded(c, obs[..n], obs[n].time);
      RunFresh(c, INITIAL, obs[..n], obs[n].time);
      StepElected(c, obs[..n], Run(c, obs[..n]), obs[n], Promotions(c, obs[..n]));
      SplitLast(obs);
    }
  }

  // Whole runs: promotions are spaced by the wait of their direction, n of them span n - 1 times
  // the shorter one, and each publishes an observed partition that led the election.
  lemma Hysteresis(c: Config, obs: seq<Obs>, p: int)
    requires c.Valid() && Increasing(obs) && NoShorter(c, p)
    ensures var log := Promotions(c, obs);
            && Spaced(c, log)
            && (log != [] ==> log[|log| - 1].time - log[0].time >= (|log| - 1) * p)
            && (forall m | m in log :: Elected(c, obs, m))
            && Matches(Run(c, obs), log)
  {
    PromotionsSpaced(c, obs);
    PromotionsElected(c, obs);
    if Promotions(c, obs) != [] {
      PromotionsSpan(c, Promotions(c, obs), p);
    }
  }

  // ---- recovery ----------------------------------------------------------------------------------

  // Partitions are told apart by their hashes only. Every vote of a rival of `hash` is at most `most`.
  ghost predicate RivalsAtMost(s: Status, hash: string, most: int) {
    forall r | r in s.history && r.hash != hash :: r.seenTimes <= most
  }

  ghost predicate Leading(c: Config, s: Status, hash: string) {
    && s.ready && c.Hash(s.projection) == hash
    && exists r :: IsTop(s.history, r) && r.hash == hash
  }

  // If the partition just observed does not lead, it is at least two votes behind.
  lemma NotLeading(c: Config, s: Status, now: int, p: ReplicaList, most: int)
    requires c.Retention() > 0 && Fresh(s, now) && RivalsAtMost(s, c.Hash(p), most)
    requires TopHash(NewHistory(c, s, now, p)) != c.Hash(p)
    ensures most - Votes(s.history, c.Hash(p)) > 1
    ensures Votes(NewHistory(c, s, now, p), c.Hash(p)) == Votes(s.history, c.Hash(p)) + 1
    ensures forall r | r in NewHistory(c, s, now, p) && r.hash != c.Hash(p) :: r.seenTimes <= most
  {
    var h := NewHistory(c, s, now, p);
    HistoryAfter(c, s, now, p);
    CurrentRecorded(c, s, now, p);
    var mine, rival := Bumped(s.history, c.Hash(p), now), Top(h).value;
    VotesOf(h, mine);
    assert rival in s.history && Beats(rival, mine);
  }

  lemma CurrentLeads(c: Config, s: Status, now: int, p: ReplicaList)
    requires c.Retention() > 0 && Fresh(s, now)
    requires TopHash(NewHistory(c, s, now, p)) == c.Hash(p)
    ensures Leading(c, Step(c, s, now, p), c.Hash(p))
  {
    CurrentRecorded(c, s, now, p);
    var s' := Step(c, s, now, p);
    assert IsTop(s'.history, s'.history[0]) || IsTop(s'.history, Top(NewHistory(c, s, now, p)).value);
  }

  // One more sighting of p: either p leads, or its deficit was more than one and shrinks, even
  // when a rival is promoted and the history wiped.
  lemma OneSighting(c: Config, s: Status, now: int, p: ReplicaList, most: int) returns (most': int)
    requires c.Valid() && c.Retention() > 0 && Fresh(s, now) && RivalsAtMost(s, c.Hash(p), most)
    ensures Leading(c, Step(c, s, now, p), c.Hash(p))
            || (RivalsAtMost(Step(c, s, now, p), c.Hash(p), most')
                && most' - Votes(Step(c, s, now, p).history, c.Hash(p)) < most - Votes(s.history, c.Hash(p))
                && most - Votes(s.history, c.Hash(p)) > 1)
  {
    most' := most;
    if TopHash(NewHistory(c, s, now, p)) == c.Hash(p) {
      CurrentLeads(c, s, now, p);
    } else {
      NotLeading(c, s, now, p, most);
      if Promotes(c, s, now, p) {
        most' := 1;
      }
    }
  }

  // A leader that keeps being observed stays the leader.
  lemma LeaderStays(c: Config, s: Status, now: int, p: ReplicaList)
    requires c.Valid() && c.Retention() > 0 && Fresh(s, now) && Leading(c, s, c.Hash(p))
    ensures Leading(c, Step(c, s, now, p), c.Hash(p))
  {
    var leader :| IsTop(s.history, leader) && leader.hash == c.Hash(p);
    LeaderBumped(c, s, now, p, leader);
    CurrentLeads(c, s, now, p);
  }

  // Observed again, a leader is published exactly when the period of its direction has elapsed.
  lemma PublishedWhenDue(c: Config, s: Status, now: int, p: ReplicaList)
    requires c.Valid() && c.Retention() > 0 && Fresh(s, now) && Leading(c, s, c.Hash(p))
    ensures Step(c, s, now, p).replicas == (if Elapsed(c, s, now, |p|) then p else s.replicas)
    ensures Step(c, s, now, p).lastEvaluation == (if Elapsed(c, s, now, |p|) then Some(now) else s.lastEvaluation)
  {
    var leader :| IsTop(s.history, leader) && leader.hash == c.Hash(p);
    LeaderBumped(c, s, now, p, leader);
  }

  // Every observation is of a partition with this hash.
  ghost predicate Constant(c: Config, obs: seq<Obs>, hash: string) {
    forall o | o in obs :: c.Hash(o.partition) == hash
  }

  ghost predicate StartsFresh(s: Status, obs: seq<Obs>) {
    Sound(s.history) && forall o, r | o in obs && r in s.history :: r.timestamp < o.time
  }

  lemma DropTake<T>(s: seq<T>, n: nat)
    requires 0 < n <= |s|
    ensures s[..n][1..] == s[1..][..n - 1]
  {
  }

  // Recovery is counted from the first observation, so the run is unrolled from its front.
  lemma {:induction false} RunUnroll(c: Config, s: Status, obs: seq<Obs>)
    requires obs != []
    ensures RunFrom(c, s, obs) == RunFrom(c, Step(c, s, obs[0].time, obs[0].partition), obs[1..])
  {
    var n := |obs| - 1;
    if n > 0 {
      RunUnroll(c, s, obs[..n]);
      DropTake(obs, n);
    } else {
      assert obs[..0] == [] && obs[1..] == [];
    }
  }

  lemma FreshAfter(c: Config, s: Status, obs: seq<Obs>)
    requires obs != [] && Increasing(obs) && StartsFresh(s, obs)
    ensures Fresh(s, obs[0].time)
    ensures StartsFresh(Step(c, s, obs[0].time, obs[0].partition), obs[1..])
  {
    assert obs[0] in obs;
    var s' := Step(c, s, obs[0].time, obs[0].partition);
    HistoryAfter(c, s, obs[0].time, obs[0].partition);
    forall o, r | o in obs[1..] && r in s'.history
      ensures r.timestamp < o.time
    {
      var i :| 0 <= i < |obs| - 1 && obs[1..][i] == o;
      assert obs[0].time < obs[i + 1].time;
      assert o in obs;
    }
  }

  // What recovery starts from: a positive retention, any sound history, and from now on only
  // observations with this hash.
  ghost predicate Ahead(c: Config, s: Status, hash: string, obs: seq<Obs>) {
    c.Valid() && c.Retention() > 0 && Increasing(obs) && StartsFresh(s, obs) && Constant(c, obs, hash)
  }

  // The first observation of a run, taken off; the next status is only known by its properties.
  lemma Advance(c: Config, s: Status, hash: string, obs: seq<Obs>) returns (s': Status)
    requires Ahead(c, s, hash, obs) && obs != []
    ensures s' == Step(c, s, obs[0].time, obs[0].partition)
    ensures Ahead(c, s', hash, obs[1..])
    ensures RunFrom(c, s, obs) == RunFrom(c, s', obs[1..])
    ensures Fresh(s, obs[0].time) && c.Hash(obs[0].partition) == hash
  {
    assert obs[0] in obs;
    s' := Step(c, s, obs[0].time, obs[0].partition);
    FreshAfter(c, s, obs);
    RunUnroll(c, s, obs);
  }

  lemma AdvanceLeader(c: Config, s: Status, hash: string, obs: seq<Obs>) returns (s': Status)
    requires Ahead(c, s, hash, obs) && obs != [] && Leading(c, s, hash)
    ensures Ahead(c, s', hash, obs[1..]) && Leading(c, s', hash)
    ensures RunFrom(c, s, obs) == RunFrom(c, s', obs[1..])
    ensures Elapsed(c, s, obs[0].time, |obs[0].partition|) ==> c.Hash(s'.replicas) == hash
    ensures !Elapsed(c, s, obs[0].time, |obs[0].partition|) ==>
              s'.replicas == s.replicas && s'.lastEvaluation == s.lastEvaluation
  {
    s' := Advance(c, s, hash, obs);
    LeaderStays(c, s, obs[0].time, obs[0].partition);
    PublishedWhenDue(c, s, obs[0].time, obs[0].partition);
  }

  lemma AdvanceRival(c: Config, s: Status, hash: string, most: int, obs: seq<Obs>) returns (s': Status, most': int)
    requires Ahead(c, s, hash, obs) && obs != [] && RivalsAtMost(s, hash, most)
    ensures Ahead(c, s', hash, obs[1..])
    ensures RunFrom(c, s, obs) == RunFrom(c, s', obs[1..])
    ensures Leading(c, s', hash)
            || (RivalsAtMost(s', hash, most') && Deficit(s', hash, most') < Deficit(s, hash, most)
                && Deficit(s, hash, most) > 1)
  {
    s' := Advance(c, s, hash, obs);
    most' := OneSighting(c, s, obs[0].time, obs[0].partition, most);
  }

  // How many votes a hash is behind.
  function Deficit(s: Status, hash: string, most: int): int {
    most - Votes(s.history, hash)
  }

  lemma {:induction false} StaysLeading(c: Config, s: Status, hash: string, obs: seq<Obs>)
    requires Ahead(c, s, hash, obs) && Leading(c, s, hash)
    ensures Leading(c, RunFrom(c, s, obs), hash)
    ensures c.Hash(s.replicas) == hash ==> c.Hash(RunFrom(c, s, obs).replicas) == hash
    decreases |obs|
  {
    if obs != [] {
      var s' := AdvanceLeader(c, s, hash, obs);
      StaysLeading(c, s', hash, obs[1..]);
    }
  }

  function Max(a: int, b: int): int {
    if a > b then a else b
  }

  // Bounded recovery: if from now on every observation is of one partition, then it is the
  // projection, and the evaluator ready, after max(1, M - c) of them, M the highest count of a rival
  // and c its own.
  lemma {:induction false} BoundedRecovery(c: Config, s: Status, hash: string, most: int, obs: seq<Obs>)
    requires Ahead(c, s, hash, obs) && RivalsAtMost(s, hash, most)
    requires |obs| >= Max(1, Deficit(s, hash, most))
    ensures Leading(c, RunFrom(c, s, obs), hash)
    decreases |obs|
  {
    var s', most' := AdvanceRival(c, s, hash, most, obs);
    if Leading(c, s', hash) {
      StaysLeading(c, s', hash, obs[1..]);
    } else {
      BoundedRecovery(c, s', hash, most', obs[1..]);
    }
  }

  // Some observation comes a period of its direction after the last promotion.
  ghost predicate BecomesDue(c: Config, s: Status, obs: seq<Obs>) {
    exists o :: o in obs && Elapsed(c, s, o.time, |o.partition|)
  }

  // A leader that keeps being observed is published exactly when one of the observations comes the
  // period of its direction after the last promotion; and then for good.
  lemma {:induction false} PublishedIff(c: Config, s: Status, hash: string, obs: seq<Obs>)
    requires Ahead(c, s, hash, obs) && Leading(c, s, hash)
    ensures c.Hash(RunFrom(c, s, obs).replicas) == hash <==> c.Hash(s.replicas) == hash || BecomesDue(c, s, obs)
    decreases |obs|
  {
    if obs != [] {
      var s' := AdvanceLeader(c, s, hash, obs);
      assert forall o :: o in obs <==> o == obs[0] || o in obs[1..];
      if Elapsed(c, s, obs[0].time, |obs[0].partition|) {
        StaysLeading(c, s', hash, obs[1..]);
      } else {
        PublishedIff(c, s', hash, obs[1..]);
        assert forall o: Obs :: Elapsed(c, s', o.time, |o.partition|) <==> Elapsed(c, s, o.time, |o.partition|);
      }
    }
  }

  lemma DropAppend<T>(first: seq<T>, rest: seq<T>)
    requires first != []
    ensures (first + rest)[1..] == first[1..] + rest
  {
  }

  lemma UnrollBoth(c: Config, s: Status, first: seq<Obs>, rest: seq<Obs>) returns (s': Status)
    requires first != []
    ensures RunFrom(c, s, first) == RunFrom(c, s', first[1..])
    ensures RunFrom(c, s, first + rest) == RunFrom(c, s', first[1..] + rest)
  {
    s' := Step(c, s, first[0].time, first[0].partition);
    RunUnroll(c, s, first);
    RunUnroll(c, s, first + rest);
    DropAppend(first, rest);
  }

  lemma {:induction false} RunAppend(c: Config, s: Status, first: seq<Obs>, rest: seq<Obs>)
    ensures RunFrom(c, s, first + rest) == RunFrom(c, RunFrom(c, s, first), rest)
    decreases |first|
  {
    if first == [] {
      assert first + rest == rest;
    } else {
      var s' := UnrollBoth(c, s, first, rest);
      RunAppend(c, s', first[1..], rest);
    }
  }

  // What remains of a run once its beginning is over.
  lemma {:induction false} AheadAfter(c: Config, s: Status, hash: string, first: seq<Obs>, rest: seq<Obs>)
    requires Ahead(c, s, hash, first + rest)
    ensures Ahead(c, RunFrom(c, s, first), hash, rest)
    decreases |first|
  {
    if first == [] {
      assert first + rest == rest;
    } else {
      var s' := Advance(c, s, hash, first + rest);
      DropAppend(first, rest);
      AheadAfter(c, s', hash, first[1..], rest);
      RunUnroll(c, s, first);
    }
  }

  lemma AheadPrefix(c: Config, s: Status, hash: string, first: seq<Obs>, rest: seq<Obs>)
    requires Ahead(c, s, hash, first + rest)
    ensures Ahead(c, s, hash, first)
  {
    var obs := first + rest;
    assert forall i | 0 <= i < |first| :: first[i] == obs[i];
    assert forall o | o in first :: o in obs;
  }

  // From any sound history: after max(1, M - c) observations the partition leads, whatever was
  // promoted meanwhile, and stays the leader; it is published exactly when it already is or one of
  // the observations after them comes the period of its direction after the last promotion.
  lemma Recovery(c: Config, s: Status, hash: string, most: int, first: seq<Obs>, rest: seq<Obs>)
    requires Ahead(c, s, hash, first + rest) && RivalsAtMost(s, hash, most)
    requires |first| >= Max(1, Deficit(s, hash, most))
    ensures var leading, end := RunFrom(c, s, first), RunFrom(c, s, first + rest);
            && Leading(c, leading, hash) && Leading(c, end, hash)
            && (c.Hash(end.replicas) == hash <==>
                  c.Hash(leading.replicas) == hash || BecomesDue(c, leading, rest))
  {
    AheadPrefix(c, s, hash, first, rest);
    BoundedRecovery(c, s, hash, most, first);
    AheadAfter(c, s, hash, first, rest);
    RunAppend(c, s, first, rest);
    StaysLeading(c, RunFrom(c, s, first), hash, rest);
    PublishedIff(c, RunFrom(c, s, first), hash, rest);
  }

  lemma {:induction false} EvaluatedBy(c: Config, s: Status, obs: seq<Obs>, t: int)
    requires s.lastEvaluation.Some? ==> s.lastEvaluation.value <= t
    requires forall o | o in obs :: o.time <= t
    ensures RunFrom(c, s, obs).lastEvaluation.Some? ==> RunFrom(c, s, obs).lastEvaluation.value <= t
  {
    if obs != [] {
      EvaluatedBy(c, s, obs[..|obs| - 1], t);
    }
  }

  // In particular whatever was promoted meanwhile: published at the latest by an observation that
  // comes the longer wait after those first ones.
  lemma RecoveryBound(c: Config, s: Status, hash: string, most: int, first: seq<Obs>, rest: seq<Obs>, t: int)
    requires Ahead(c, s, hash, first + rest) && RivalsAtMost(s, hash, most)
    requires |first| >= Max(1, Deficit(s, hash, most))
    requires s.lastEvaluation.Some? ==> s.lastEvaluation.value <= t
    requires forall o | o in first :: o.time <= t
    requires rest != [] && WaitedBoth(c, rest[|rest| - 1].time - t)
    ensures c.Hash(RunFrom(c, s, first + rest).replicas) == hash
  {
    Recovery(c, s, hash, most, first, rest);
    EvaluatedBy(c, s, first, t);
    DueAfterBoth(c, RunFrom(c, s, first), rest, t);
  }

  lemma DueAfterBoth(c: Config, s: Status, obs: seq<Obs>, t: int)
    requires s.lastEvaluation.Some? ==> s.lastEvaluation.value <= t
    requires obs != [] && WaitedBoth(c, obs[|obs| - 1].time - t)
    ensures BecomesDue(c, s, obs)
  {
    var o := obs[|obs| - 1];
    assert o in obs && Elapsed(c, s, o.time, |o.partition|);
  }
}
