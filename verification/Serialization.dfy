// The canonical string of a replica list: the equality test of the evaluator and of the scaler.
module Serialization {
  import opened Common
  import opened Sorting
  import opened Strconv

  // ---- the byte order of strings ------------------------------------------------------------

  predicate LexLeq(s: string, t: string) {
    if s == [] then true
    else if t == [] then false
    else if s[0] == t[0] then LexLeq(s[1..], t[1..])
    else s[0] < t[0]
  }

  lemma LexTotal(s: string, t: string)
    ensures LexLeq(s, t) || LexLeq(t, s)
    ensures LexLeq(s, t) && LexLeq(t, s) ==> s == t
  {
    if s != [] && t != [] && s[0] == t[0] {
      LexTotal(s[1..], t[1..]);
      assert s == [s[0]] + s[1..] && t == [t[0]] + t[1..];
    }
  }

  lemma LexTransitive(s: string, t: string, u: string)
    ensures LexLeq(s, t) && LexLeq(t, u) ==> LexLeq(s, u)
  {
    if s != [] && t != [] && u != [] && s[0] == t[0] == u[0] {
      LexTransitive(s[1..], t[1..], u[1..]);
    }
  }

  lemma LexIsTotalPreorder()
    ensures TotalPreorder(LexLeq)
  {
    forall s, t
      ensures Total(LexLeq, s, t)
    {
      LexTotal(s, t);
    }
    forall s, t, u
      ensures Transitive(LexLeq, s, t, u)
    {
      LexTransitive(s, t, u);
    }
  }

  // s stands before t where they first differ, or is its beginning.
  ghost predicate DifferAt(s: string, t: string, k: nat) {
    k < |s| && k < |t| && s[..k] == t[..k] && s[k] < t[k]
  }

  ghost predicate ComesBefore(s: string, t: string) {
    exists k: nat :: DifferAt(s, t, k)
  }

  lemma DifferLater(s: string, t: string, k: nat)
    requires s != [] && t != [] && s[0] == t[0]
    ensures DifferAt(s, t, k + 1) <==> DifferAt(s[1..], t[1..], k)
  {
    if k < |s| - 1 && k < |t| - 1 {
      assert s[..k + 1] == [s[0]] + s[1..][..k] && t[..k + 1] == [t[0]] + t[1..][..k];
      assert s[1..][..k] == s[..k + 1][1..] && t[1..][..k] == t[..k + 1][1..];
    }
  }

  lemma BeforeTail(s: string, t: string)
    requires s != [] && t != [] && s[0] == t[0]
    ensures ComesBefore(s, t) <==> ComesBefore(s[1..], t[1..])
  {
    if ComesBefore(s, t) {
      var k: nat :| DifferAt(s, t, k);
      DifferLater(s, t, k - 1);
    }
    if ComesBefore(s[1..], t[1..]) {
      var k: nat :| DifferAt(s[1..], t[1..], k);
      DifferLater(s, t, k);
    }
  }

  lemma PrefixTail(s: string, t: string)
    requires s != [] && t != [] && s[0] == t[0]
    ensures s <= t <==> s[1..] <= t[1..]
  {
    assert s == [s[0]] + s[1..] && t == [t[0]] + t[1..];
  }

  // The byte order: the beginning of t, or smaller where they first differ.
  lemma {:induction false} ByteOrder(s: string, t: string)
    ensures LexLeq(s, t) <==> s <= t || ComesBefore(s, t)
  {
    if s != [] && t != [] {
      if s[0] == t[0] {
        ByteOrder(s[1..], t[1..]);
        BeforeTail(s, t);
        PrefixTail(s, t);
      } else if s[0] < t[0] {
        assert DifferAt(s, t, 0);
      }
    }
  }

  // ---- what a list denotes ------------------------------------------------------------------

  function Uids(loadIndexes: seq<LoadIndex>): set<string> {
    set li | li in loadIndexes :: li.shard.uid
  }

  function ReplicaMap(loadIndexes: seq<LoadIndex>, id: int): map<string, int> {
    map uid | uid in Uids(loadIndexes) :: id
  }

  // Which replica each shard belongs to; a later replica overrides an earlier one.
  function Denote(list: ReplicaList): map<string, int> {
    if list == [] then map[]
    else
      var last := list[|list| - 1];
      Denote(list[..|list| - 1]) + ReplicaMap(last.loadIndexes, last.id)
  }

  // ---- the string ---------------------------------------------------------------------------

  ghost predicate Lists(keys: seq<string>, s: set<string>) {
    && SortedBy(LexLeq, keys)
    && multiset(keys) == multiset(s)
  }

  function Item(key: string, id: int): string {
    key + "=" + Itoa(id)
  }

  function Items(m: map<string, int>, keys: seq<string>): seq<string>
    requires forall k | k in keys :: k in m
  {
    seq(|keys|, i requires 0 <= i < |keys| => Item(keys[i], m[keys[i]]))
  }

  function Join(items: seq<string>): string {
    if |items| == 0 then ""
    else if |items| == 1 then items[0]
    else items[0] + "," + Join(items[1..])
  }

  // The keys of a map in byte order: there is exactly one such listing.
  lemma ListingExists(s: set<string>) returns (keys: seq<string>)
    ensures Lists(keys, s)
  {
    LexIsTotalPreorder();
    if s == {} {
      keys := [];
    } else {
      var x :| x in s;
      var rest := ListingExists(s - {x});
      keys := InsertSorted(rest, x);
      assert s == (s - {x}) + {x};
    }
  }

  lemma InsertSorted(keys: seq<string>, x: string) returns (r: seq<string>)
    requires SortedBy(LexLeq, keys)
    ensures SortedBy(LexLeq, r) && multiset(r) == multiset(keys) + multiset{x}
  {
    if keys == [] {
      r := [x];
    } else if LexLeq(x, keys[0]) {
      r := [x] + keys;
      forall i | 0 < i < |r|
        ensures LexLeq(x, r[i])
      {
        LexTransitive(x, keys[0], r[i]);
      }
      assert keys == r[1..];
    } else {
      LexTotal(x, keys[0]);
      var tail := InsertSorted(keys[1..], x);
      r := [keys[0]] + tail;
      assert keys == [keys[0]] + keys[1..];
      forall i | 0 < i < |r|
        ensures LexLeq(r[0], r[i])
      {
        assert r[i] in multiset(tail);
        assert r[i] == x || r[i] in keys[1..];
      }
    }
  }

  lemma ListingUnique(a: seq<string>, b: seq<string>, s: set<string>)
    requires Lists(a, s) && Lists(b, s)
    ensures a == b
  {
    LexIsTotalPreorder();
    SortedAgree(LexLeq, a, b);
    forall i | 0 <= i < |a|
      ensures a[i] == b[i]
    {
      assert Tied(LexLeq, a[i], b[i]);
      LexTotal(a[i], b[i]);
    }
  }

  lemma ListingMembers(keys: seq<string>, s: set<string>)
    requires Lists(keys, s)
    ensures forall k :: k in keys <==> k in s
  {
    forall k
      ensures k in keys <==> k in s
    {
      assert k in keys <==> k in multiset(keys);
    }
  }

  ghost function Listing(s: set<string>): (keys: seq<string>)
    ensures Lists(keys, s)
    ensures forall k :: k in keys <==> k in s
  {
    assert exists keys :: Lists(keys, s) by {
      var keys := ListingExists(s);
    }
    var keys :| Lists(keys, s);
    ListingMembers(keys, s);
    keys
  }

  ghost function Serialize(list: ReplicaList): string {
    var m := Denote(list);
    Join(Items(m, Listing(m.Keys)))
  }

  // The string, key by key.
  function Shown(m: map<string, int>, keys: seq<string>): string
    requires forall k | k in keys :: k in m
  {
    if keys == [] then ""
    else keys[0] + "=" + Itoa(m[keys[0]]) + if |keys| == 1 then "" else "," + Shown(m, keys[1..])
  }

  lemma TailIs<T>(s: seq<T>, t: seq<T>)
    requires |s| == |t| + 1 && forall i | 0 <= i < |t| :: t[i] == s[i + 1]
    ensures s[1..] == t
  {
  }

  lemma ItemsTail(m: map<string, int>, keys: seq<string>)
    requires keys != [] && forall k | k in keys :: k in m
    ensures Items(m, keys)[0] == Item(keys[0], m[keys[0]]) && Items(m, keys)[1..] == Items(m, keys[1..])
  {
    TailIs(Items(m, keys), Items(m, keys[1..]));
  }

  lemma Regroup(a: string, b: string)
    ensures a + "," + b == a + ("," + b) && a + "" == a
  {
  }

  lemma {:induction false} JoinShows(m: map<string, int>, keys: seq<string>)
    requires forall k | k in keys :: k in m
    ensures Join(Items(m, keys)) == Shown(m, keys)
  {
    if keys != [] {
      ItemsTail(m, keys);
      Regroup(Item(keys[0], m[keys[0]]), Shown(m, keys[1..]));
      if |keys| > 1 {
        JoinShows(m, keys[1..]);
      }
    }
  }

  // Every UID with its replica, in byte order of the UIDs.
  lemma SerializeShows(list: ReplicaList, keys: seq<string>)
    requires Lists(keys, Denote(list).Keys)
    ensures forall k | k in keys :: k in Denote(list)
    ensures Serialize(list) == Shown(Denote(list), keys)
  {
    ListingMembers(keys, Denote(list).Keys);
    ListingUnique(keys, Listing(Denote(list).Keys), Denote(list).Keys);
    JoinShows(Denote(list), keys);
  }

  // Two lists the controllers take for equal.
  ghost predicate Same(a: ReplicaList, b: ReplicaList) {
    Serialize(a) == Serialize(b)
  }

  // ---- the loops ----------------------------------------------------------------------------

  lemma ReplicaMapSnoc(m: map<string, int>, loadIndexes: seq<LoadIndex>, j: nat, id: int)
    requires j < |loadIndexes|
    ensures m + ReplicaMap(loadIndexes[..j + 1], id)
         == (m + ReplicaMap(loadIndexes[..j], id))[loadIndexes[j].shard.uid := id]
  {
    assert loadIndexes[..j + 1] == loadIndexes[..j] + [loadIndexes[j]];
    assert Uids(loadIndexes[..j + 1]) == Uids(loadIndexes[..j]) + {loadIndexes[j].shard.uid};
  }

  method DenoteLoop(list: ReplicaList) returns (m: map<string, int>)
    ensures m == Denote(list)
  {
    m := map[];
    for i := 0 to |list|
      invariant m == Denote(list[..i])
    {
      var replica := list[i];
      ghost var before := m;
      for j := 0 to |replica.loadIndexes|
        invariant m == before + ReplicaMap(replica.loadIndexes[..j], replica.id)
      {
        m := m[replica.loadIndexes[j].shard.uid := replica.id];
        ReplicaMapSnoc(before, replica.loadIndexes, j, replica.id);
      }
      assert replica.loadIndexes[..|replica.loadIndexes|] == replica.loadIndexes;
      assert list[..i + 1][..i] == list[..i];
    }
    assert list[..|list|] == list;
  }

  method SortedKeys(m: map<string, int>) returns (keys: seq<string>)
    ensures keys == Listing(m.Keys)
  {
    keys := [];
    var pending := m.Keys;
    while pending != {}
      invariant pending <= m.Keys
      invariant multiset(keys) == multiset(m.Keys - pending)
    {
      var k :| k in pending;
      assert m.Keys - (pending - {k}) == (m.Keys - pending) + {k};
      keys := keys + [k];
      pending := pending - {k};
    }
    assert m.Keys - pending == m.Keys;
    var a := new string[|keys|](i requires 0 <= i < |keys| => keys[i]);
    assert a[..] == keys;
    LexIsTotalPreorder();
    SortArray(a, LexLeq);
    keys := a[..];
    ListingUnique(keys, Listing(m.Keys), m.Keys);
  }

  method JoinLoop(items: seq<string>) returns (s: string)
    ensures s == Join(items)
  {
    s := "";
    var i := |items|;
    while i > 0
      invariant 0 <= i <= |items|
      invariant s == Join(items[i..])
    {
      i := i - 1;
      s := if i == |items| - 1 then items[i] else items[i] + "," + s;
      assert items[i..][1..] == items[i + 1..];
    }
    assert items[0..] == items;
  }

  method ItemsLoop(m: map<string, int>, keys: seq<string>) returns (items: seq<string>)
    requires forall k | k in keys :: k in m
    ensures items == Items(m, keys)
  {
    items := [];
    for i := 0 to |keys|
      invariant |items| == i
      invariant forall j | 0 <= j < i :: items[j] == Item(keys[j], m[keys[j]])
    {
      items := items + [Item(keys[i], m[keys[i]])];
    }
  }

  method SerializeToString(list: ReplicaList) returns (s: string)
    ensures s == Serialize(list)
  {
    var m := DenoteLoop(list);
    var keys := SortedKeys(m);
    var items := ItemsLoop(m, keys);
    s := JoinLoop(items);
  }

  // ---- canonicity ---------------------------------------------------------------------------

  // Shard UIDs are Kubernetes object UIDs: neither separator occurs in them.
  predicate Clean(key: string) {
    '=' !in key && ',' !in key
  }

  ghost predicate CleanList(list: ReplicaList) {
    forall r, li | r in list && li in r.loadIndexes :: Clean(li.shard.uid)
  }

  lemma {:induction false} DenoteClean(list: ReplicaList)
    requires CleanList(list)
    ensures forall k | k in Denote(list) :: Clean(k)
  {
    if list != [] {
      DenoteClean(list[..|list| - 1]);
    }
  }

  // If two strings split at a separator absent from both left parts, the parts are equal.
  lemma {:induction false} SplitUnique(a: string, b: string, x: string, y: string, sep: char)
    requires sep !in a && sep !in b
    requires a + [sep] + x == b + [sep] + y
    ensures a == b && x == y
  {
    var s, t := a + [sep] + x, b + [sep] + y;
    assert s[|a|] == sep && t[|b|] == sep;
    assert forall i | 0 <= i < |a| :: s[i] == a[i] && a[i] != sep;
    assert forall i | 0 <= i < |b| :: t[i] == b[i] && b[i] != sep;
    assert |a| == |b|;
    assert a == s[..|a|] && b == t[..|b|] && x == s[|a| + 1..] && y == t[|b| + 1..];
  }

  lemma ItemInjective(k: string, i: int, l: string, j: int)
    requires Clean(k) && Clean(l)
    requires Item(k, i) == Item(l, j)
    ensures k == l && i == j
  {
    SplitUnique(k, l, Itoa(i), Itoa(j), '=');
    ItemsNumber(i, j);
  }

  lemma ItemsNumber(i: int, j: int)
    requires Itoa(i) == Itoa(j)
    ensures i == j
  {
    ItoaInjective(i, j);
  }

  lemma ItemNoComma(k: string, i: int)
    requires Clean(k)
    ensures ',' !in Item(k, i) && Item(k, i) != []
  {
    if ',' in Itoa(i) {
      ItoaChars(i, ',');
    }
  }

  ghost predicate PlainItems(items: seq<string>) {
    forall x | x in items :: ',' !in x && x != []
  }

  // A joined string contains a comma exactly when it joins two items or more.
  lemma JoinComma(items: seq<string>)
    requires PlainItems(items)
    ensures ',' in Join(items) <==> |items| > 1
    ensures Join(items) == [] <==> items == []
  {
    assert items != [] ==> items[0] in items;
    if |items| > 1 {
      assert Join(items)[|items[0]|] == ',';
    }
  }

  lemma JoinSplit(items: seq<string>)
    requires |items| > 1
    ensures Join(items) == items[0] + [','] + Join(items[1..])
  {
  }

  // Two joins of two items or more agree in the first item and in the rest.
  lemma JoinHeads(xs: seq<string>, ys: seq<string>)
    requires PlainItems(xs) && PlainItems(ys) && |xs| > 1 && |ys| > 1
    requires Join(xs) == Join(ys)
    ensures xs[0] == ys[0] && Join(xs[1..]) == Join(ys[1..])
  {
    var x, y, u, v := xs[0], ys[0], Join(xs[1..]), Join(ys[1..]);
    assert x in xs && y in ys;
    assert ',' !in x && ',' !in y;
    JoinSplit(xs);
    JoinSplit(ys);
    assert x + [','] + u == y + [','] + v;
    SplitUnique(x, y, u, v, ',');
  }

  lemma PlainTail(items: seq<string>)
    requires PlainItems(items) && items != []
    ensures PlainItems(items[1..])
  {
    assert forall x | x in items[1..] :: x in items;
  }

  lemma {:induction false} JoinInjective(xs: seq<string>, ys: seq<string>)
    requires PlainItems(xs) && PlainItems(ys)
    requires Join(xs) == Join(ys)
    ensures xs == ys
  {
    JoinComma(xs);
    JoinComma(ys);
    if |xs| > 1 {
      JoinHeads(xs, ys);
      PlainTail(xs);
      PlainTail(ys);
      JoinInjective(xs[1..], ys[1..]);
      assert xs == [xs[0]] + xs[1..] && ys == [ys[0]] + ys[1..];
    }
  }

  lemma ItemsPlain(m: map<string, int>, keys: seq<string>)
    requires forall k | k in keys :: k in m && Clean(k)
    ensures PlainItems(Items(m, keys))
  {
    forall x | x in Items(m, keys)
      ensures ',' !in x && x != []
    {
      var i :| 0 <= i < |keys| && x == Item(keys[i], m[keys[i]]);
      ItemNoComma(keys[i], m[keys[i]]);
    }
  }

  lemma ItemsInjective(m: map<string, int>, n: map<string, int>)
    requires forall k | k in m.Keys + n.Keys :: Clean(k)
    requires Items(m, Listing(m.Keys)) == Items(n, Listing(n.Keys))
    ensures m == n
  {
    var ks, ls := Listing(m.Keys), Listing(n.Keys);
    assert |Items(m, ks)| == |Items(n, ls)|;
    forall i | 0 <= i < |ks|
      ensures ks[i] == ls[i] && m[ks[i]] == n[ls[i]]
    {
      assert Items(m, ks)[i] == Items(n, ls)[i];
      ItemInjective(ks[i], m[ks[i]], ls[i], n[ls[i]]);
    }
    assert ks == ls;
    forall k | k in m
      ensures k in n && m[k] == n[k]
    {
      var i :| 0 <= i < |ks| && ks[i] == k;
    }
    assert m.Keys == n.Keys;
  }

  // Equal strings exactly when the lists assign the same shards to the same replica IDs,
  // whatever the order of replicas and shards.
  lemma Canonical(a: ReplicaList, b: ReplicaList)
    requires CleanList(a) && CleanList(b)
    ensures Same(a, b) <==> Denote(a) == Denote(b)
  {
    if Same(a, b) {
      DenoteClean(a);
      DenoteClean(b);
      var m, n := Denote(a), Denote(b);
      ItemsPlain(m, Listing(m.Keys));
      ItemsPlain(n, Listing(n.Keys));
      JoinInjective(Items(m, Listing(m.Keys)), Items(n, Listing(n.Keys)));
      ItemsInjective(m, n);
    }
  }

  // ---- what equality means for well-shaped lists -----------------------------------------------

  lemma {:induction false} DenoteRange(list: ReplicaList)
    requires Numbered(list)
    ensures forall k | k in Denote(list) :: 0 <= Denote(list)[k] < |list|
    ensures list != [] ==> exists k :: k in Denote(list) && Denote(list)[k] == |list| - 1
  {
    if list != [] {
      var init, last := list[..|list| - 1], list[|list| - 1];
      DenoteRange(init);
      assert last.loadIndexes[0].shard.uid in Uids(last.loadIndexes);
      assert Denote(list)[last.loadIndexes[0].shard.uid] == last.id;
    }
  }

  // The number of replicas of a numbered list can be read off its string.
  lemma SameCount(a: ReplicaList, b: ReplicaList)
    requires CleanList(a) && CleanList(b) && Numbered(a) && Numbered(b)
    requires Same(a, b)
    ensures |a| == |b|
  {
    Canonical(a, b);
    DenoteRange(a);
    DenoteRange(b);
  }

  // A shard listed once is denoted with the ID of the replica that lists it.
  lemma {:induction false} DenoteMember(list: ReplicaList, r: nat, j: nat)
    requires DistinctUids(Flatten(list))
    requires r < |list| && j < |list[r].loadIndexes|
    ensures list[r].loadIndexes[j].shard.uid in Denote(list)
    ensures Denote(list)[list[r].loadIndexes[j].shard.uid] == list[r].id
  {
    var init, last := list[..|list| - 1], list[|list| - 1];
    var li := list[r].loadIndexes[j];
    assert Flatten(list) == Flatten(init) + last.loadIndexes;
    if r == |list| - 1 {
      assert li.shard.uid in Uids(last.loadIndexes);
    } else {
      forall p, q | 0 <= p < q < |Flatten(init)|
        ensures Flatten(init)[p].shard.uid != Flatten(init)[q].shard.uid
      {
        assert Flatten(list)[p] == Flatten(init)[p] && Flatten(list)[q] == Flatten(init)[q];
      }
      DenoteMember(init, r, j);
      var p := FlattenIndex(init, r, j);
      assert Flatten(list)[p] == li;
      forall q | 0 <= q < |last.loadIndexes|
        ensures last.loadIndexes[q].shard.uid != li.shard.uid
      {
        assert Flatten(list)[|Flatten(init)| + q] == last.loadIndexes[q];
      }
    }
  }

  lemma {:induction false} FlattenIndex(list: ReplicaList, r: nat, j: nat) returns (p: nat)
    requires r < |list| && j < |list[r].loadIndexes|
    ensures p < |Flatten(list)| && Flatten(list)[p] == list[r].loadIndexes[j]
  {
    var init, last := list[..|list| - 1], list[|list| - 1];
    if r == |list| - 1 {
      p := |Flatten(init)| + j;
    } else {
      p := FlattenIndex(init, r, j);
    }
  }

  ghost predicate Assigns(list: ReplicaList, uid: string, id: int) {
    exists r, j :: 0 <= r < |list| && 0 <= j < |list[r].loadIndexes|
                   && list[r].loadIndexes[j].shard.uid == uid && list[r].id == id
  }

  lemma {:induction false} DenoteSound(list: ReplicaList, uid: string)
    requires uid in Denote(list)
    ensures Assigns(list, uid, Denote(list)[uid])
  {
    var init, last := list[..|list| - 1], list[|list| - 1];
    if uid in Uids(last.loadIndexes) {
      var j :| 0 <= j < |last.loadIndexes| && last.loadIndexes[j].shard.uid == uid;
      assert list[|list| - 1].loadIndexes[j].shard.uid == uid;
    } else {
      DenoteSound(init, uid);
      var r, j :| 0 <= r < |init| && 0 <= j < |init[r].loadIndexes|
        && init[r].loadIndexes[j].shard.uid == uid && init[r].id == Denote(init)[uid];
      assert list[r] == init[r];
    }
  }

  // Lists free of repeated UIDs serialise alike exactly when they hold the same assignments:
  // the order of replicas, and of shards inside a replica, is immaterial.
  lemma OrderImmaterial(a: ReplicaList, b: ReplicaList)
    requires CleanList(a) && CleanList(b)
    requires DistinctUids(Flatten(a)) && DistinctUids(Flatten(b))
    ensures Same(a, b) <==> forall uid, id :: Assigns(a, uid, id) <==> Assigns(b, uid, id)
  {
    Canonical(a, b);
    forall uid, id
      ensures Assigns(a, uid, id) <==> uid in Denote(a) && Denote(a)[uid] == id
      ensures Assigns(b, uid, id) <==> uid in Denote(b) && Denote(b)[uid] == id
    {
      AssignsIffDenoted(a, uid, id);
      AssignsIffDenoted(b, uid, id);
    }
    if forall uid, id :: Assigns(a, uid, id) <==> Assigns(b, uid, id) {
      forall uid
        ensures uid in Denote(a) <==> uid in Denote(b)
        ensures uid in Denote(a) ==> Denote(a)[uid] == Denote(b)[uid]
      {
        assert uid in Denote(a) ==> Assigns(a, uid, Denote(a)[uid]);
        assert uid in Denote(b) ==> Assigns(b, uid, Denote(b)[uid]);
      }
      assert Denote(a).Keys == Denote(b).Keys;
    }
  }

  lemma AssignsIffDenoted(a: ReplicaList, uid: string, id: int)
    requires DistinctUids(Flatten(a))
    ensures Assigns(a, uid, id) <==> uid in Denote(a) && Denote(a)[uid] == id
  {
    if Assigns(a, uid, id) {
      var r, j :| 0 <= r < |a| && 0 <= j < |a[r].loadIndexes|
        && a[r].loadIndexes[j].shard.uid == uid && a[r].id == id;
      DenoteMember(a, r, j);
    }
    if uid in Denote(a) {
      DenoteSound(a, uid);
    }
  }
}
