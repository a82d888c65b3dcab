// The compressed history is a faithful summary of the observations since the last promotion.
module EvaluatorTrace {
  import opened Evaluator
  import opened EvaluatorRuns

  datatype Sighting = Sighting(time: int, hash: string)

  ghost predicate Ordered(tr: seq<Sighting>) {
    forall i, j | 0 <= i < j < |tr| :: tr[i].time < tr[j].time
  }

  // All the sightings since the last promotion, which counts as one sighting of its winner.
  ghost function TraceOf(c: Config, obs: seq<Obs>): seq<Sighting> {
    if obs == [] then []
    else
      var n := |obs| - 1;
      var s, o := Run(c, obs[..n]), obs[n];
      if Promotes(c, s, o.time, o.partition)
      then [Sighting(o.time, c.Hash(NewProjection(c, s, o.time, o.partition)))]
      else TraceOf(c, obs[..n]) + [Sighting(o.time, c.Hash(o.partition))]
  }

  // ---- streaks -----------------------------------------------------------------------------------

  // Step k observed something else, at least a retention period after sighting a, the last one
  // before it.
  ghost predicate Lapsed(tr: seq<Sighting>, hash: string, retention: int, a: int, k: int) {
    && 0 <= a < k < |tr| && tr[a].hash == hash
    && (forall b | a < b <= k :: tr[b].hash != hash)
    && tr[k].time >= tr[a].time + retention
  }

  // Sighting i belongs to the current streak: nothing lapsed from it on.
  ghost predicate InStreak(tr: seq<Sighting>, hash: string, retention: int, i: int) {
    && 0 <= i < |tr| && tr[i].hash == hash
    && forall a, k | i <= a :: !Lapsed(tr, hash, retention, a, k)
  }

  ghost function Streak(tr: seq<Sighting>, hash: string, retention: int): set<int> {
    set i | 0 <= i < |tr| && InStreak(tr, hash, retention, i)
  }

  // The last sighting, or -1.
  function Last(tr: seq<Sighting>, hash: string): (i: int)
    ensures -1 <= i < |tr|
    ensures i >= 0 ==> tr[i].hash == hash
    ensures forall b | i < b < |tr| :: tr[b].hash != hash
  {
    if tr == [] then -1
    else if tr[|tr| - 1].hash == hash then |tr| - 1
    else Last(tr[..|tr| - 1], hash)
  }

  lemma LapsedSnoc(tr: seq<Sighting>, e: Sighting, hash: string, retention: int, a: int, k: int)
    ensures k < |tr| ==> (Lapsed(tr + [e], hash, retention, a, k) <==> Lapsed(tr, hash, retention, a, k))
    ensures k == |tr| ==> (Lapsed(tr + [e], hash, retention, a, k) <==>
              e.hash != hash && a >= 0 && a == Last(tr, hash) && e.time >= tr[a].time + retention)
  {
    var t := tr + [e];
    assert forall b | 0 <= b < |tr| :: t[b] == tr[b];
    assert t[|tr|] == e;
    if k == |tr| && Lapsed(t, hash, retention, a, k) {
      assert t[k].hash != hash;
      assert a == Last(tr, hash);
    }
  }

  // A sighting extends the streak.
  lemma StreakSeen(tr: seq<Sighting>, e: Sighting, hash: string, retention: int)
    requires e.hash == hash
    ensures Streak(tr + [e], hash, retention) == Streak(tr, hash, retention) + {|tr|}
    ensures |Streak(tr + [e], hash, retention)| == |Streak(tr, hash, retention)| + 1
  {
    forall i | 0 <= i <= |tr|
      ensures InStreak(tr + [e], hash, retention, i) <==> i == |tr| || InStreak(tr, hash, retention, i)
    {
      forall a, k
        ensures Lapsed(tr + [e], hash, retention, a, k) <==> Lapsed(tr, hash, retention, a, k)
      {
        LapsedSnoc(tr, e, hash, retention, a, k);
      }
    }
  }

  // Another observation keeps the streak if it comes within retention, and ends it otherwise.
  lemma StreakUnseen(tr: seq<Sighting>, e: Sighting, hash: string, retention: int)
    requires e.hash != hash
    ensures Streak(tr + [e], hash, retention)
         == if Last(tr, hash) >= 0 && e.time < tr[Last(tr, hash)].time + retention
            then Streak(tr, hash, retention) else {}
  {
    var last := Last(tr, hash);
    forall a, k
      ensures Lapsed(tr + [e], hash, retention, a, k) <==>
              Lapsed(tr, hash, retention, a, k)
              || (k == |tr| && a == last && last >= 0 && e.time >= tr[last].time + retention)
    {
      LapsedSnoc(tr, e, hash, retention, a, k);
    }
    forall i | 0 <= i <= |tr|
      ensures InStreak(tr + [e], hash, retention, i) <==>
              InStreak(tr, hash, retention, i) && last >= 0 && e.time < tr[last].time + retention
    {
      if 0 <= i < |tr| && tr[i].hash == hash {
        assert i <= last;
        if e.time >= tr[last].time + retention {
          assert Lapsed(tr + [e], hash, retention, last, |tr|);
        }
      }
    }
  }

  // A streak is alive exactly when the last sighting is within retention of the latest step.
  lemma {:induction false} StreakAlive(tr: seq<Sighting>, hash: string, retention: int)
    requires Ordered(tr) && retention > 0
    ensures Streak(tr, hash, retention) != {} <==>
            Last(tr, hash) >= 0 && tr[|tr| - 1].time < tr[Last(tr, hash)].time + retention
  {
    if tr != [] {
      var n := |tr| - 1;
      var e := tr[n];
      assert tr == tr[..n] + [e];
      StreakAlive(tr[..n], hash, retention);
      if e.hash == hash {
        StreakSeen(tr[..n], e, hash, retention);
        assert n in Streak(tr, hash, retention);
      } else {
        StreakUnseen(tr[..n], e, hash, retention);
        assert Last(tr, hash) == Last(tr[..n], hash);
      }
    }
  }

  // ---- refinement --------------------------------------------------------------------------------

  ghost predicate HasRecord(h: seq<Record>, hash: string) {
    exists r :: r in h && r.hash == hash
  }

  // Exactly the hashes with a live streak have a record; it holds the length of the streak and
  // the time of its last sighting.
  ghost predicate Represents(h: seq<Record>, tr: seq<Sighting>, retention: int) {
    && Sound(h)
    && (forall hash :: HasRecord(h, hash) <==> Streak(tr, hash, retention) != {})
    && (forall r | r in h :: Last(tr, r.hash) >= 0 && r.timestamp == tr[Last(tr, r.hash)].time
                             && r.seenTimes == |Streak(tr, r.hash, retention)|)
  }

  lemma {:induction false} VotesOfNone(h: seq<Record>, hash: string)
    requires !HasRecord(h, hash)
    ensures Votes(h, hash) == 0
  {
    if h != [] {
      assert h[0] in h;
      assert forall r | r in h[1..] :: r in h;
      VotesOfNone(h[1..], hash);
    }
  }

  lemma VotesAreStreak(h: seq<Record>, tr: seq<Sighting>, retention: int, hash: string)
    requires Represents(h, tr, retention)
    ensures Votes(h, hash) == |Streak(tr, hash, retention)|
  {
    if HasRecord(h, hash) {
      var r :| r in h && r.hash == hash;
      VotesOf(h, r);
    } else {
      VotesOfNone(h, hash);
      assert Streak(tr, hash, retention) == {};
    }
  }

  lemma LastSnoc(tr: seq<Sighting>, e: Sighting, hash: string)
    ensures Last(tr + [e], hash) == if e.hash == hash then |tr| else Last(tr, hash)
  {
    assert (tr + [e])[..|tr|] == tr;
  }

  // One observation without a promotion.
  lemma ObservationRepresented(c: Config, s: Status, o: Obs, tr: seq<Sighting>)
    requires c.Retention() > 0 && Fresh(s, o.time) && Represents(s.history, tr, c.Retention())
    ensures Represents(NewHistory(c, s, o.time, o.partition),
                       tr + [Sighting(o.time, c.Hash(o.partition))], c.Retention())
  {
    var h, e := NewHistory(c, s, o.time, o.partition), Sighting(o.time, c.Hash(o.partition));
    HistoryAfter(c, s, o.time, o.partition);
    CurrentRecorded(c, s, o.time, o.partition);
    forall hash
      ensures HasRecord(h, hash) <==> Streak(tr + [e], hash, c.Retention()) != {}
    {
      RecordKept(c, s, o, tr, hash);
    }
    forall r | r in h
      ensures Last(tr + [e], r.hash) >= 0 && r.timestamp == (tr + [e])[Last(tr + [e], r.hash)].time
      ensures r.seenTimes == |Streak(tr + [e], r.hash, c.Retention())|
    {
      RecordRepresented(c, s, o, tr, r);
    }
  }

  lemma RecordRepresented(c: Config, s: Status, o: Obs, tr: seq<Sighting>, r: Record)
    requires c.Retention() > 0 && Fresh(s, o.time) && Represents(s.history, tr, c.Retention())
    requires r in NewHistory(c, s, o.time, o.partition)
    ensures var t := tr + [Sighting(o.time, c.Hash(o.partition))];
            && Last(t, r.hash) >= 0 && r.timestamp == t[Last(t, r.hash)].time
            && r.seenTimes == |Streak(t, r.hash, c.Retention())|
  {
    var e := Sighting(o.time, c.Hash(o.partition));
    HistoryAfter(c, s, o.time, o.partition);
    LastSnoc(tr, e, r.hash);
    if r.hash == e.hash {
      VotesAreStreak(s.history, tr, c.Retention(), r.hash);
      StreakSeen(tr, e, r.hash, c.Retention());
    } else {
      StreakUnseen(tr, e, r.hash, c.Retention());
    }
  }

  lemma RecordKept(c: Config, s: Status, o: Obs, tr: seq<Sighting>, hash: string)
    requires c.Retention() > 0 && Fresh(s, o.time) && Represents(s.history, tr, c.Retention())
    ensures HasRecord(NewHistory(c, s, o.time, o.partition), hash)
       <==> Streak(tr + [Sighting(o.time, c.Hash(o.partition))], hash, c.Retention()) != {}
  {
    var h, e := NewHistory(c, s, o.time, o.partition), Sighting(o.time, c.Hash(o.partition));
    HistoryAfter(c, s, o.time, o.partition);
    if hash == e.hash {
      CurrentRecorded(c, s, o.time, o.partition);
      StreakSeen(tr, e, hash, c.Retention());
      assert |tr| in Streak(tr + [e], hash, c.Retention());
      assert Bumped(s.history, hash, o.time).hash == hash;
    } else {
      StreakUnseen(tr, e, hash, c.Retention());
      if HasRecord(h, hash) {
        var r :| r in h && r.hash == hash;
        assert r in s.history && HasRecord(s.history, hash);
      } else if HasRecord(s.history, hash) {
        var r :| r in s.history && r.hash == hash;
        assert r !in h;
      }
    }
  }

  lemma PromotionRepresented(time: int, hash: string, retention: int)
    requires retention > 0
    ensures Represents([Record(time, hash, 1)], [Sighting(time, hash)], retention)
  {
    var h, tr := [Record(time, hash, 1)], [Sighting(time, hash)];
    forall other
      ensures Streak(tr, other, retention) == if other == hash then {0} else {}
      ensures HasRecord(h, other) <==> other == hash
    {
      if other == hash {
        assert InStreak(tr, hash, retention, 0);
        assert h[0] in h;
      }
    }
  }

  // In every reachable state the history represents the trace since the last promotion.
  lemma {:induction false} HistoryRefinesTrace(c: Config, obs: seq<Obs>)
    requires c.Valid() && c.Retention() > 0 && Increasing(obs)
    ensures Represents(Run(c, obs).history, TraceOf(c, obs), c.Retention())
  {
    if obs != [] {
      var n := |obs| - 1;
      var s, o := Run(c, obs[..n]), obs[n];
      HistoryRefinesTrace(c, obs[..n]);
      RunFresh(c, INITIAL, obs[..n], o.time);
      if Promotes(c, s, o.time, o.partition) {
        PromotionRepresented(o.time, c.Hash(NewProjection(c, s, o.time, o.partition)), c.Retention());
      } else {
        ObservationRepresented(c, s, o, TraceOf(c, obs[..n]));
      }
    }
  }

  lemma {:induction false} TraceOrdered(c: Config, obs: seq<Obs>)
    requires Increasing(obs)
    ensures Ordered(TraceOf(c, obs))
    ensures obs != [] ==> TraceOf(c, obs) != [] && TraceOf(c, obs)[|TraceOf(c, obs)| - 1].time == obs[|obs| - 1].time
  {
    if obs != [] {
      TraceOrdered(c, obs[..|obs| - 1]);
    }
  }

  // The same with retention as a number.
  lemma RecordRetained(c: Config, obs: seq<Obs>, hash: string)
    requires c.Valid() && c.Retention() > 0 && Increasing(obs) && obs != []
    ensures var h, tr := Run(c, obs).history, TraceOf(c, obs);
            && (HasRecord(h, hash) <==>
                  Last(tr, hash) >= 0 && obs[|obs| - 1].time - tr[Last(tr, hash)].time < c.Retention())
            && Votes(h, hash) == |Streak(tr, hash, c.Retention())|
  {
    HistoryRefinesTrace(c, obs);
    TraceOrdered(c, obs);
    StreakAlive(TraceOf(c, obs), hash, c.Retention());
    VotesAreStreak(Run(c, obs).history, TraceOf(c, obs), c.Retention(), hash);
  }

  // One of the two waits, counted from the last sighting, is not over.
  ghost predicate SeenWithin(c: Config, tr: seq<Sighting>, hash: string, now: int) {
    Last(tr, hash) >= 0 && !WaitedBoth(c, now - tr[Last(tr, hash)].time)
  }

  lemma SeenWithinIff(c: Config, tr: seq<Sighting>, hash: string, now: int)
    ensures SeenWithin(c, tr, hash, now) <==>
              Last(tr, hash) >= 0 && now - tr[Last(tr, hash)].time < c.Retention()
  {
    if Last(tr, hash) >= 0 {
      RetainedIff(c, now - tr[Last(tr, hash)].time);
    }
  }

  // Read as a statement about one partition: it has a record exactly when it was seen within
  // retention, and the record counts its current streak.
  lemma RecordIff(c: Config, obs: seq<Obs>, hash: string)
    requires c.Valid() && c.Retention() > 0 && Increasing(obs) && obs != []
    ensures var h, tr := Run(c, obs).history, TraceOf(c, obs);
            && (HasRecord(h, hash) <==> SeenWithin(c, tr, hash, obs[|obs| - 1].time))
            && Votes(h, hash) == |Streak(tr, hash, c.Retention())|
  {
    RecordRetained(c, obs, hash);
    SeenWithinIff(c, TraceOf(c, obs), hash, obs[|obs| - 1].time);
  }
}
