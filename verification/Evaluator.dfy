// The "most wanted" two-phase hysteresis evaluator.
module Evaluator {
  import opened Common
  import opened Serialization

  // The stabilization periods, of which the directed ones are optional, and what the records of a
  // history identify partitions by: the hash of their canonical string.
  datatype Config = Config(
    stabilization: int,
    scaleUp: Option<int>,
    scaleDown: Option<int>,
    ghost hash: ReplicaList -> string)
  {
    // A hash is never the empty string, which stands for "no record" in an election.
    ghost predicate Valid() {
      forall p :: hash(p) != ""
    }

    function ScaleUpPeriod(): int {
      match scaleUp case Some(d) => d case None => stabilization
    }

    function ScaleDownPeriod(): int {
      match scaleDown case Some(d) => d case None => stabilization
    }

    function Retention(): int {
      if ScaleUpPeriod() > ScaleDownPeriod() then ScaleUpPeriod() else ScaleDownPeriod()
    }

    function PeriodFor(projected: nat, published: nat): int {
      if projected < published then ScaleDownPeriod() else ScaleUpPeriod()
    }

    ghost function Hash(p: ReplicaList): string {
      hash(p)
    }

    ghost predicate HashesWith(sha: string -> string) {
      forall p {:trigger Serialize(p)} :: hash(p) == sha(Serialize(p))
    }
  }

  datatype Record = Record(timestamp: int, hash: string, seenTimes: int)

  datatype Status = Status(
    history: seq<Record>,
    projection: ReplicaList,
    replicas: ReplicaList,
    lastEvaluation: Option<int>,
    ready: bool)

  const INITIAL := Status([], [], [], None, false)

  // ---- the election -----------------------------------------------------------------------------

  predicate Beats(a: Record, b: Record) {
    a.seenTimes > b.seenTimes || (a.seenTimes == b.seenTimes && a.timestamp > b.timestamp)
  }

  // Sound histories: every record was seen, hashes are pairwise distinct, and so are the times
  // they were last seen at, because two observations never happen at the same time.
  ghost predicate Sound(h: seq<Record>) {
    && (forall i | 0 <= i < |h| :: h[i].seenTimes >= 1)
    && (forall i, j | 0 <= i < j < |h| :: h[i].hash != h[j].hash && h[i].timestamp != h[j].timestamp)
  }

  ghost predicate IsTop(h: seq<Record>, r: Record) {
    r in h && forall x | x in h && x != r :: Beats(r, x)
  }

  function Top(h: seq<Record>): Option<Record> {
    if h == [] then None
    else
      var last := h[|h| - 1];
      match Top(h[..|h| - 1])
      case None => Some(last)
      case Some(best) => if Beats(last, best) then Some(last) else Some(best)
  }

  function TopHash(h: seq<Record>): string {
    match Top(h) case None => "" case Some(r) => r.hash
  }

  lemma {:induction false} TopWins(h: seq<Record>)
    requires Sound(h) && h != []
    ensures Top(h).Some? && IsTop(h, Top(h).value)
  {
    var n := |h| - 1;
    if n > 0 {
      TopWins(h[..n]);
      assert forall x | x in h :: x in h[..n] || x == h[n];
    }
  }

  lemma TopUnique(h: seq<Record>, r: Record)
    requires Sound(h) && IsTop(h, r)
    ensures Top(h) == Some(r)
  {
    TopWins(h);
  }

  // The best of the records visited so far, and its votes.
  ghost predicate Visited(h: seq<Record>, recordByHash: map<string, Record>, hashes: set<string>,
                          top: Record, maxSeen: int)
  {
    if hashes == {} then top == Record(0, "", 0) && maxSeen == 0
    else
      && top in h && maxSeen == top.seenTimes && hashes <= recordByHash.Keys
      && forall hash | hash in hashes :: recordByHash[hash] == top || Beats(top, recordByHash[hash])
  }

  lemma VisitNext(h: seq<Record>, recordByHash: map<string, Record>, hashes: set<string>, top: Record, hash: string,
                  top': Record)
    requires Sound(h) && Visited(h, recordByHash, hashes, top, top.seenTimes)
    requires hash in recordByHash && recordByHash[hash] in h
    requires top' == if recordByHash[hash].seenTimes > top.seenTimes
                        || (recordByHash[hash].seenTimes == top.seenTimes
                            && recordByHash[hash].timestamp > top.timestamp)
                     then recordByHash[hash] else top
    ensures Visited(h, recordByHash, hashes + {hash}, top', top'.seenTimes)
  {
    var r := recordByHash[hash];
    if hashes != {} && top' == top {
      assert r == top || Beats(top, r);
    }
  }

  lemma WinnerIsTop(h: seq<Record>, recordByHash: map<string, Record>, top: Record)
    requires Sound(h) && top in h
    requires forall j | 0 <= j < |h| :: h[j].hash in recordByHash && recordByHash[h[j].hash] == h[j]
    requires forall hash | hash in recordByHash :: recordByHash[hash] == top || Beats(top, recordByHash[hash])
    ensures TopHash(h) == top.hash
  {
    forall x | x in h && x != top
      ensures Beats(top, x)
    {
      assert x.hash in recordByHash && recordByHash[x.hash] == x;
    }
    TopUnique(h, top);
  }

  // The votes of all the records of a hash, and the first of those records.
  function Tally(h: seq<Record>, hash: string): int {
    if h == [] then 0
    else
      var n := |h| - 1;
      Tally(h[..n], hash) + if h[n].hash == hash then h[n].seenTimes else 0
  }

  function FirstWith(h: seq<Record>, hash: string): Option<Record> {
    if h == [] then None
    else
      var n := |h| - 1;
      var first := FirstWith(h[..n], hash);
      if first == None && h[n].hash == hash then Some(h[n]) else first
  }

  // Each record with the hash counts, wherever it stands.
  lemma {:induction false} TallyAdds(h: seq<Record>, r: Record, rest: seq<Record>, hash: string)
    ensures Tally(h + [r] + rest, hash) == Tally(h + rest, hash) + if r.hash == hash then r.seenTimes else 0
  {
    if rest == [] {
      assert h + [r] + [] == h + [r] && (h + [r])[..|h|] == h && h + [] == h;
    } else {
      var n := |rest| - 1;
      TallyAdds(h, r, rest[..n], hash);
      assert (h + [r] + rest)[..|h| + 1 + n] == h + [r] + rest[..n] && (h + rest)[..|h| + n] == h + rest[..n];
    }
  }

  lemma {:induction false} FirstWithIs(h: seq<Record>, hash: string, i: nat)
    requires i < |h| && h[i].hash == hash && forall j | 0 <= j < i :: h[j].hash != hash
    ensures FirstWith(h, hash) == Some(h[i])
  {
    var n := |h| - 1;
    if i < n {
      FirstWithIs(h[..n], hash, i);
    } else {
      NothingNoticed(h[..n], hash);
    }
  }

  predicate Noticed(h: seq<Record>, hash: string, record: Record, seenTimes: int) {
    FirstWith(h, hash) == Some(record) && Tally(h, hash) == seenTimes
  }

  lemma NoticeNext(h: seq<Record>, i: nat)
    requires i < |h|
    ensures forall hash :: Tally(h[..i + 1], hash)
                        == Tally(h[..i], hash) + if h[i].hash == hash then h[i].seenTimes else 0
    ensures forall hash :: FirstWith(h[..i + 1], hash)
                        == if FirstWith(h[..i], hash) == None && h[i].hash == hash then Some(h[i])
                           else FirstWith(h[..i], hash)
  {
    assert h[..i + 1][..i] == h[..i];
  }

  lemma {:induction false} NothingNoticed(h: seq<Record>, hash: string)
    requires forall i | 0 <= i < |h| :: h[i].hash != hash
    ensures FirstWith(h, hash) == None && Tally(h, hash) == 0
  {
    if h != [] {
      NothingNoticed(h[..|h| - 1], hash);
    }
  }

  // Where hashes are distinct a hash has the votes of its one record.
  lemma {:induction false} NoticedInSound(h: seq<Record>, j: nat)
    requires Sound(h) && j < |h|
    ensures Noticed(h, h[j].hash, h[j], h[j].seenTimes)
  {
    var n := |h| - 1;
    if j == n {
      NothingNoticed(h[..n], h[j].hash);
    } else {
      NoticedInSound(h[..n], j);
    }
  }

  // ---- one reconcile ----------------------------------------------------------------------------

  // Bump the record of an observed partition, or append one.
  function Observe(h: seq<Record>, hash: string, now: int): seq<Record> {
    if h == [] then [Record(now, hash, 1)]
    else if h[0].hash == hash then [Record(now, hash, h[0].seenTimes + 1)] + h[1..]
    else [h[0]] + Observe(h[1..], hash, now)
  }

  // Drop the records last seen outside the retention period.
  function Prune(h: seq<Record>, retention: int, now: int): seq<Record> {
    if h == [] then []
    else (if h[0].timestamp + retention > now then [h[0]] else []) + Prune(h[1..], retention, now)
  }

  ghost function NewHistory(c: Config, s: Status, now: int, p: ReplicaList): seq<Record> {
    Prune(Observe(s.history, c.Hash(p), now), c.Retention(), now)
  }

  ghost function NewProjection(c: Config, s: Status, now: int, p: ReplicaList): ReplicaList {
    if TopHash(NewHistory(c, s, now, p)) == c.Hash(p) then p else s.projection
  }

  // The top seen record is the projection's.
  ghost predicate LeaderKnown(c: Config, s: Status, now: int, p: ReplicaList) {
    TopHash(NewHistory(c, s, now, p)) == c.Hash(NewProjection(c, s, now, p))
  }

  ghost predicate Due(c: Config, s: Status, now: int, projection: ReplicaList) {
    s.lastEvaluation == None || now - s.lastEvaluation.value >= c.PeriodFor(|projection|, |s.replicas|)
  }

  ghost predicate Promotes(c: Config, s: Status, now: int, p: ReplicaList) {
    LeaderKnown(c, s, now, p) && Due(c, s, now, NewProjection(c, s, now, p))
  }

  ghost function Step(c: Config, s: Status, now: int, p: ReplicaList): Status {
    var projection := NewProjection(c, s, now, p);
    if !LeaderKnown(c, s, now, p) then
      s.(history := NewHistory(c, s, now, p), projection := projection, ready := false)
    else if Due(c, s, now, projection) then
      Status([Record(now, c.Hash(projection), 1)], projection, projection, Some(now), true)
    else
      s.(history := NewHistory(c, s, now, p), projection := projection, ready := true)
  }

  // ---- the reconciler ---------------------------------------------------------------------------

  class Evaluation {
    const config: Config
    const sha: string -> string
    var history: seq<Record>
    var projection: ReplicaList
    var replicas: ReplicaList
    var lastEvaluation: Option<int>
    var ready: bool

    constructor (c: Config, sha: string -> string)
      requires c.HashesWith(sha)
      ensures config == c && this.sha == sha && State() == INITIAL
    {
      config, this.sha := c, sha;
      history, projection, replicas, lastEvaluation, ready := [], [], [], None, false;
    }

    ghost function State(): Status
      reads this
    {
      Status(history, projection, replicas, lastEvaluation, ready)
    }

    method HashOf(p: ReplicaList) returns (hash: string)
      requires config.HashesWith(sha)
      ensures hash == config.Hash(p)
    {
      var serialized := SerializeToString(p);
      hash := sha(serialized);
    }

    method ObserveLoop(hash: string, now: int)
      modifies this`history
      ensures history == Observe(old(history), hash, now)
    {
      ghost var h := history;
      var i := 0;
      while i < |history| && history[i].hash != hash
        invariant 0 <= i <= |history| && history == h
        invariant Observe(h, hash, now) == h[..i] + Observe(h[i..], hash, now)
      {
        ObserveSkips(h, i, hash, now);
        i := i + 1;
      }
      if i < |history| {
        assert h[i..][0] == h[i] && h[i..][1..] == h[i + 1..];
        history := history[i := Record(now, hash, history[i].seenTimes + 1)];
      } else {
        history := history + [Record(now, hash, 1)];
      }
    }

    method PruneLoop(now: int)
      modifies this`history
      ensures history == Prune(old(history), config.Retention(), now)
    {
      var retention := config.Retention();
      var clean: seq<Record> := [];
      for i := 0 to |history|
        invariant history == old(history)
        invariant clean + Prune(history[i..], retention, now) == Prune(history, retention, now)
      {
        PruneHead(history, i, retention, now);
        if history[i].timestamp + retention > now {
          clean := clean + [history[i]];
        }
      }
      if |clean| != |history| {
        history := clean;
      } else {
        PruneAll(history, retention, now);
      }
    }

    // Each hash with its first record and the votes of all its records.
    method Notice() returns (recordByHash: map<string, Record>, seenTimes: map<string, int>)
      ensures recordByHash.Keys == seenTimes.Keys == set j | 0 <= j < |history| :: history[j].hash
      ensures forall hash | hash in recordByHash :: Noticed(history, hash, recordByHash[hash], seenTimes[hash])
    {
      recordByHash, seenTimes := map[], map[];
      for i := 0 to |history|
        invariant recordByHash.Keys == seenTimes.Keys == set j | 0 <= j < i :: history[j].hash
        invariant forall hash | hash in recordByHash :: Noticed(history[..i], hash, recordByHash[hash], seenTimes[hash])
      {
        var hash := history[i].hash;
        NoticeNext(history, i);
        if hash !in recordByHash {
          NothingNoticed(history[..i], hash);
          recordByHash := recordByHash[hash := history[i]];
          seenTimes := seenTimes[hash := history[i].seenTimes];
        } else {
          seenTimes := seenTimes[hash := seenTimes[hash] + history[i].seenTimes];
        }
      }
      assert history[..|history|] == history;
    }

    // The election visits the records in the order of a map, that is, in any order.
    method Elect() returns (topHash: string)
      requires Sound(history)
      ensures topHash == TopHash(history)
    {
      var recordByHash, seenTimes := Notice();
      forall j | 0 <= j < |history|
        ensures recordByHash[history[j].hash] == history[j] && seenTimes[history[j].hash] == history[j].seenTimes
      {
        NoticedInSound(history, j);
      }
      topHash := Winner(recordByHash, seenTimes);
    }

    method Winner(recordByHash: map<string, Record>, seenTimes: map<string, int>) returns (topHash: string)
      requires Sound(history)
      requires recordByHash.Keys == seenTimes.Keys == set j | 0 <= j < |history| :: history[j].hash
      requires forall j | 0 <= j < |history| :: recordByHash[history[j].hash] == history[j]
      requires forall j | 0 <= j < |history| :: seenTimes[history[j].hash] == history[j].seenTimes
      ensures topHash == TopHash(history)
    {
      var top := Record(0, "", 0);
      var maxSeen := 0;
      var pending := seenTimes.Keys;
      while pending != {}
        invariant pending <= seenTimes.Keys
        invariant Visited(history, recordByHash, seenTimes.Keys - pending, top, maxSeen)
      {
        var hash :| hash in pending;
        ghost var before := top;
        if seenTimes[hash] > maxSeen {
          maxSeen := seenTimes[hash];
          top := recordByHash[hash];
        } else if seenTimes[hash] == maxSeen && recordByHash[hash].timestamp > top.timestamp {
          top := recordByHash[hash];
        }
        VisitNext(history, recordByHash, seenTimes.Keys - pending, before, hash, top);
        pending := pending - {hash};
        assert seenTimes.Keys - pending == seenTimes.Keys - (pending + {hash}) + {hash};
      }
      topHash := top.hash;
      assert seenTimes.Keys - pending == seenTimes.Keys;
      if history != [] {
        assert history[0].hash in seenTimes.Keys;
        WinnerIsTop(history, recordByHash, top);
      }
    }

    // One observing reconcile. `now` is later than every recorded observation.
    method Reconcile(current: ReplicaList, now: int)
      requires config.HashesWith(sha)
      requires Sound(history) && forall r | r in history :: r.timestamp < now
      modifies this
      ensures State() == Step(config, old(State()), now, current)
    {
      var currentHash := HashOf(current);
      ObserveLoop(currentHash, now);
      ObserveSound(old(history), currentHash, now);
      PruneSound(history, config.Retention(), now);
      PruneLoop(now);
      var topHash := Elect();
      if topHash == currentHash {
        projection := current;
      }
      var projectionHash := HashOf(projection);
      if topHash != projectionHash {
        ready := false;
        return;
      }
      var period := config.PeriodFor(|projection|, |replicas|);
      if lastEvaluation == None || now - lastEvaluation.value >= period {
        replicas := projection;
        lastEvaluation := Some(now);
        history := [Record(now, projectionHash, 1)];
      }
      ready := true;
    }
  }

  // ---- what observing and pruning do to a history ------------------------------------------------

  // Passing a record of another hash.
  lemma ObserveSkips(h: seq<Record>, i: nat, hash: string, now: int)
    requires i < |h| && h[i].hash != hash
    ensures h[..i] + Observe(h[i..], hash, now) == h[..i + 1] + Observe(h[i + 1..], hash, now)
  {
    assert h[i..][1..] == h[i + 1..];
    assert h[..i + 1] == h[..i] + [h[i]];
  }

  lemma PruneHead(h: seq<Record>, i: nat, retention: int, now: int)
    requires i < |h|
    ensures Prune(h[i..], retention, now)
         == (if h[i].timestamp + retention > now then [h[i]] else []) + Prune(h[i + 1..], retention, now)
  {
    assert h[i..][1..] == h[i + 1..];
  }

  lemma {:induction false} PruneAll(h: seq<Record>, retention: int, now: int)
    ensures |Prune(h, retention, now)| <= |h|
    ensures |Prune(h, retention, now)| == |h| ==> Prune(h, retention, now) == h
  {
    if h != [] {
      PruneAll(h[1..], retention, now);
    }
  }

  lemma {:induction false} PruneMembers(h: seq<Record>, retention: int, now: int)
    ensures forall r :: r in Prune(h, retention, now) <==> r in h && r.timestamp + retention > now
  {
    if h != [] {
      PruneMembers(h[1..], retention, now);
      assert forall r :: r in h <==> r == h[0] || r in h[1..];
    }
  }

  lemma SoundCons(r: Record, rest: seq<Record>)
    requires Sound(rest) && r.seenTimes >= 1
    requires forall x | x in rest :: x.hash != r.hash && x.timestamp != r.timestamp
    ensures Sound([r] + rest)
  {
    assert forall i | 0 <= i < |rest| :: rest[i] in rest;
  }

  lemma {:induction false} PruneSound(h: seq<Record>, retention: int, now: int)
    requires Sound(h)
    ensures Sound(Prune(h, retention, now))
  {
    if h != [] {
      PruneSound(h[1..], retention, now);
      PruneMembers(h[1..], retention, now);
      SoundCons(h[0], Prune(h[1..], retention, now));
    }
  }

  // The bumped or fresh record of the observed hash.
  function Bumped(h: seq<Record>, hash: string, now: int): Record {
    Record(now, hash, Votes(h, hash) + 1)
  }

  // The count of a hash, 0 when it has no record.
  function Votes(h: seq<Record>, hash: string): int {
    if h == [] then 0
    else if h[0].hash == hash then h[0].seenTimes
    else Votes(h[1..], hash)
  }

  lemma {:induction false} ObserveMembers(h: seq<Record>, hash: string, now: int)
    requires Sound(h)
    ensures forall r :: r in Observe(h, hash, now) <==> r == Bumped(h, hash, now) || (r in h && r.hash != hash)
  {
    if h != [] {
      assert forall r :: r in h <==> r == h[0] || r in h[1..];
      if h[0].hash == hash {
        assert forall r | r in h[1..] :: r.hash != hash;
      } else {
        ObserveMembers(h[1..], hash, now);
      }
    }
  }

  lemma {:induction false} ObserveSound(h: seq<Record>, hash: string, now: int)
    requires Sound(h) && forall r | r in h :: r.timestamp < now
    ensures Sound(Observe(h, hash, now))
  {
    if h != [] && h[0].hash != hash {
      ObserveSound(h[1..], hash, now);
      ObserveMembers(h[1..], hash, now);
      var rest := Observe(h[1..], hash, now);
      forall r | r in rest
        ensures r.hash != h[0].hash && r.timestamp != h[0].timestamp
      {
        assert r == Bumped(h[1..], hash, now) || r in h[1..];
      }
      SoundCons(h[0], rest);
    }
  }

  // Sound, and every record older than `now`.
  ghost predicate Fresh(s: Status, now: int) {
    Sound(s.history) && forall r | r in s.history :: r.timestamp < now
  }

  // The history after an observation: the observed hash gets one more vote now; the others stay
  // as they are while they are within retention.
  lemma HistoryAfter(c: Config, s: Status, now: int, p: ReplicaList)
    requires Fresh(s, now)
    ensures Sound(NewHistory(c, s, now, p))
    ensures forall r :: r in NewHistory(c, s, now, p) <==>
                        r.timestamp + c.Retention() > now
                        && (r == Bumped(s.history, c.Hash(p), now) || (r in s.history && r.hash != c.Hash(p)))
  {
    ObserveSound(s.history, c.Hash(p), now);
    ObserveMembers(s.history, c.Hash(p), now);
    PruneSound(Observe(s.history, c.Hash(p), now), c.Retention(), now);
    PruneMembers(Observe(s.history, c.Hash(p), now), c.Retention(), now);
  }

  // With a positive retention the partition just observed always has a record.
  lemma CurrentRecorded(c: Config, s: Status, now: int, p: ReplicaList)
    requires Fresh(s, now) && c.Retention() > 0
    ensures Sound(NewHistory(c, s, now, p))
    ensures Bumped(s.history, c.Hash(p), now) in NewHistory(c, s, now, p)
    ensures Top(NewHistory(c, s, now, p)).Some?
    ensures IsTop(NewHistory(c, s, now, p), Top(NewHistory(c, s, now, p)).value)
  {
    HistoryAfter(c, s, now, p);
    var mine := Bumped(s.history, c.Hash(p), now);
    assert mine.timestamp + c.Retention() > now;
    TopWins(NewHistory(c, s, now, p));
  }

  lemma StepFresh(c: Config, s: Status, now: int, p: ReplicaList, later: int)
    requires Fresh(s, now) && now < later
    ensures Fresh(Step(c, s, now, p), later)
  {
    HistoryAfter(c, s, now, p);
  }
}
