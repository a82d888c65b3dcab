// Sorting in place through a comparison, as the Go standard library does it: the result is
// ordered and a permutation, and nothing more may be relied upon (equal elements may move).
module Sorting {

  // The two laws are named predicates so that they are used only where they are mentioned.
  ghost predicate Total<T>(leq: (T, T) -> bool, x: T, y: T) {
    leq(x, y) || leq(y, x)
  }

  ghost predicate Transitive<T>(leq: (T, T) -> bool, x: T, y: T, z: T) {
    leq(x, y) && leq(y, z) ==> leq(x, z)
  }

  ghost predicate TotalPreorder<T(!new)>(leq: (T, T) -> bool) {
    && (forall x, y :: Total(leq, x, y))
    && (forall x, y, z :: Transitive(leq, x, y, z))
  }

  ghost predicate SortedBy<T>(leq: (T, T) -> bool, s: seq<T>) {
    forall i, j | 0 <= i < j < |s| :: leq(s[i], s[j])
  }

  ghost predicate Tied<T>(leq: (T, T) -> bool, x: T, y: T) {
    leq(x, y) && leq(y, x)
  }

  method Swap<T>(a: array<T>, i: nat, j: nat)
    requires i < a.Length && j < a.Length
    modifies a
    ensures a[..] == old(a[..])[i := old(a[j])][j := old(a[i])]
    ensures multiset(a[..]) == multiset(old(a[..]))
  {
    a[i], a[j] := a[j], a[i];
  }

  method SortArray<T(!new)>(a: array<T>, leq: (T, T) -> bool)
    requires TotalPreorder(leq)
    modifies a
    ensures SortedBy(leq, a[..])
    ensures multiset(a[..]) == multiset(old(a[..]))
  {
    for i := 0 to a.Length
      invariant forall p, q | 0 <= p < q < a.Length && p < i :: leq(a[p], a[q])
      invariant multiset(a[..]) == multiset(old(a[..]))
    {
      var m := i;
      assert Total(leq, a[i], a[i]);
      for j := i + 1 to a.Length
        invariant i <= m < a.Length
        invariant forall q | i <= q < j :: leq(a[m], a[q])
      {
        if !leq(a[m], a[j]) {
          assert Total(leq, a[m], a[j]) && Total(leq, a[j], a[j]);
          assert forall q | i <= q < j :: Transitive(leq, a[j], a[m], a[q]);
          m := j;
        }
      }
      Swap(a, i, m);
    }
  }

  function Without<T>(s: seq<T>, k: nat): seq<T>
    requires k < |s|
  {
    s[..k] + s[k + 1..]
  }

  lemma MultisetWithout<T>(s: seq<T>, k: nat)
    requires k < |s|
    ensures multiset(Without(s, k)) == multiset(s) - multiset{s[k]}
  {
    assert s == s[..k] + [s[k]] + s[k + 1..];
  }

  lemma SortedWithout<T>(leq: (T, T) -> bool, s: seq<T>, k: nat)
    requires SortedBy(leq, s) && k < |s|
    ensures SortedBy(leq, Without(s, k))
    ensures multiset(Without(s, k)) == multiset(s) - multiset{s[k]}
  {
    MultisetWithout(s, k);
  }

  // Where the last element of one arrangement sits in another, and what is left without it.
  lemma MatchLast<T>(s: seq<T>, t: seq<T>) returns (j: nat)
    requires multiset(s) == multiset(t) && s != []
    ensures j < |t| && t[j] == s[|s| - 1]
    ensures multiset(s[..|s| - 1]) == multiset(Without(t, j))
  {
    var n := |s| - 1;
    assert s == s[..n] + [s[n]];
    assert s[n] in multiset(t);
    j :| 0 <= j < |t| && t[j] == s[n];
    MultisetWithout(t, j);
    assert multiset(s[..n]) == multiset(s) - multiset{s[n]};
  }

  // Everything up to an element tied with the first one is tied.
  lemma TiedUpTo<T(!new)>(leq: (T, T) -> bool, t: seq<T>, x: T, j: nat)
    requires TotalPreorder(leq) && SortedBy(leq, t)
    requires j < |t| && t[j] == x && leq(x, t[0])
    ensures forall i | 0 <= i <= j :: Tied(leq, t[i], x)
  {
    assert Total(leq, x, x) && Total(leq, t[0], t[0]);
    assert forall i | 0 <= i <= j :: Transitive(leq, x, t[0], t[i]);
  }

  lemma HeadsTied<T(!new)>(leq: (T, T) -> bool, s: seq<T>, t: seq<T>) returns (j: nat)
    requires TotalPreorder(leq)
    requires SortedBy(leq, s) && SortedBy(leq, t) && multiset(s) == multiset(t) && s != []
    ensures |s| == |t| && j < |t| && t[j] == s[0]
    ensures forall i | 0 <= i <= j :: Tied(leq, t[i], s[0])
  {
    assert |s| == |multiset(s)| == |multiset(t)| == |t|;
    assert s[0] in multiset(t) && t[0] in multiset(s);
    j :| 0 <= j < |t| && t[j] == s[0];
    var k :| 0 <= k < |s| && s[k] == t[0];
    assert Total(leq, s[0], s[0]);
    TiedUpTo(leq, t, s[0], j);
  }

  // If s without its head and t without its j-th element agree, so do s and t.
  lemma Reinsert<T(!new)>(leq: (T, T) -> bool, s: seq<T>, t: seq<T>, j: nat)
    requires TotalPreorder(leq)
    requires |s| == |t| && j < |t|
    requires forall i | 0 <= i <= j :: Tied(leq, t[i], s[0])
    requires forall i | 0 <= i < |s| - 1 :: Tied(leq, Without(s, 0)[i], Without(t, j)[i])
    ensures forall i | 0 <= i < |s| :: Tied(leq, s[i], t[i])
  {
    forall i | 0 < i < |s|
      ensures Tied(leq, s[i], t[i])
    {
      assert Tied(leq, Without(s, 0)[i - 1], Without(t, j)[i - 1]);
      if i <= j {
        assert Tied(leq, t[i - 1], s[0]) && Tied(leq, t[i], s[0]);
        assert Transitive(leq, s[i], t[i - 1], s[0]) && Transitive(leq, s[0], t[i - 1], s[i]);
        assert Transitive(leq, s[i], s[0], t[i]) && Transitive(leq, t[i], s[0], s[i]);
      }
    }
    assert Tied(leq, t[0], s[0]);
  }

  // Two sorted arrangements of the same elements agree, position by position, up to ties.
  lemma {:induction false} SortedAgree<T(!new)>(leq: (T, T) -> bool, s: seq<T>, t: seq<T>)
    requires TotalPreorder(leq)
    requires SortedBy(leq, s) && SortedBy(leq, t) && multiset(s) == multiset(t)
    ensures |s| == |t|
    ensures forall i | 0 <= i < |s| :: Tied(leq, s[i], t[i])
  {
    if s == [] {
      assert |t| == |multiset(t)| == |multiset(s)|;
    } else {
      var j := HeadsTied(leq, s, t);
      SortedWithout(leq, s, 0);
      SortedWithout(leq, t, j);
      SortedAgree(leq, Without(s, 0), Without(t, j));
      Reinsert(leq, s, t, j);
    }
  }
}
