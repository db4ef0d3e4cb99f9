/**
 * Sequences used as insertion-ordered sets (Java's `LinkedHashSet` and the
 * key order of a `LinkedHashMap`), and cardinality facts about sets and maps.
 */
module Collections {

  /** No element occurs twice. */
  predicate NoDup<T(==)>(s: seq<T>) {
    forall i, j :: 0 <= i < j < |s| ==> s[i] != s[j]
  }

  /** The elements of `s`, as a set. */
  function Elems<T>(s: seq<T>): set<T> {
    set x | x in s
  }

  /** `LinkedHashSet.add`: appends `x` unless it is already present. */
  function AddLast<T(==)>(s: seq<T>, x: T): (r: seq<T>)
    ensures Elems(r) == Elems(s) + {x}
    ensures NoDup(s) ==> NoDup(r)
    ensures x in s ==> r == s
    ensures x !in s ==> r == s + [x]
  {
    if x in s then s else s + [x]
  }

  /** `LinkedHashSet.remove`: drops `x`, keeping the order of the rest. */
  function Without<T(==)>(s: seq<T>, x: T): (r: seq<T>)
    ensures Elems(r) == Elems(s) - {x}
    ensures NoDup(s) ==> NoDup(r)
    ensures |r| <= |s|
  {
    if s == [] then []
    else if s[0] == x then Without(s[1..], x)
    else
      var rest := Without(s[1..], x);
      assert Elems(s) == {s[0]} + Elems(s[1..]);
      assert Elems([s[0]] + rest) == {s[0]} + Elems(rest);
      assert NoDup(s) ==> s[0] !in Elems(s[1..]);
      [s[0]] + rest
  }

  /** `Without` keeps every other element in its place: nothing changes when `x`
      is absent, and a duplicate-free `s` loses exactly the one position holding `x`. */
  lemma WithoutDropsOne<T>(s: seq<T>, x: T)
    ensures x !in s ==> Without(s, x) == s
    ensures NoDup(s) && x in s ==>
      exists k :: 0 <= k < |s| && s[k] == x && Without(s, x) == s[..k] + s[k+1..]
  {
    if x !in s {
      WithoutAbsent(s, x);
    }
    if NoDup(s) && x in s {
      var k :| 0 <= k < |s| && s[k] == x;
      assert x !in s[..k];
      assert x !in s[k+1..];
      WithoutAt(s, k, x);
    }
  }

  lemma {:induction false} WithoutAbsent<T>(s: seq<T>, x: T)
    requires x !in s
    ensures Without(s, x) == s
  {
    if s != [] {
      assert x !in s[1..];
      WithoutAbsent(s[1..], x);
      assert [s[0]] + s[1..] == s;
    }
  }

  /** Removing the only occurrence of `x`, found at position `k`. */
  lemma {:induction false} WithoutAt<T>(s: seq<T>, k: nat, x: T)
    requires k < |s| && s[k] == x
    requires x !in s[..k] && x !in s[k+1..]
    ensures Without(s, x) == s[..k] + s[k+1..]
  {
    if k == 0 {
      WithoutAbsent(s[1..], x);
    } else {
      assert s[..k] == [s[0]] + s[1..][..k-1];
      assert s[k+1..] == s[1..][k..];
      WithoutAt(s[1..], k - 1, x);
    }
  }

  /** The elements of `s`, last first. */
  function Reverse<T>(s: seq<T>): seq<T> {
    if s == [] then [] else Reverse(s[1..]) + [s[0]]
  }

  /** A sequence without duplicates has as many elements as its set. */
  lemma {:induction false} NoDupCard<T>(s: seq<T>)
    requires NoDup(s)
    ensures |Elems(s)| == |s|
  {
    if s != [] {
      NoDupCard(s[1..]);
      assert Elems(s) == {s[0]} + Elems(s[1..]);
      assert s[0] !in Elems(s[1..]);
    }
  }

  lemma SubsetCard<T>(a: set<T>, b: set<T>)
    requires a <= b
    ensures |a| <= |b|
  {
    assert b == a + (b - a);
  }

  lemma StrictSubsetCard<T>(a: set<T>, b: set<T>, x: T)
    requires a <= b && x in b && x !in a
    ensures |a| < |b|
  {
    assert b == a + (b - a);
    assert x in b - a;
  }

  /** A map whose keys are among another's has at most as many entries. */
  lemma MapCardMono<K, V, W>(small: map<K, V>, big: map<K, W>)
    requires small.Keys <= big.Keys
    ensures |small| <= |big|
  {
    assert |small| == |small.Keys| && |big| == |big.Keys|;
    SubsetCard(small.Keys, big.Keys);
  }

  /** Removing a present key drops one entry. */
  lemma MapRemoveCard<K, V>(m: map<K, V>, k: K)
    requires k in m
    ensures |m - {k}| < |m|
  {
    assert (m - {k}).Keys == m.Keys - {k};
    StrictSubsetCard(m.Keys - {k}, m.Keys, k);
  }

  lemma ElemsConcat<T>(a: seq<T>, b: seq<T>)
    ensures Elems(a + b) == Elems(a) + Elems(b)
  {
  }

  /** Two duplicate-free sequences with no common element concatenate without duplicates. */
  lemma NoDupConcat<T>(a: seq<T>, b: seq<T>)
    requires NoDup(a) && NoDup(b) && Elems(a) !! Elems(b)
    ensures NoDup(a + b)
  {
    forall i, j | 0 <= i < j < |a + b|
      ensures (a + b)[i] != (a + b)[j]
    {
      if i < |a| && |a| <= j {
        assert (a + b)[i] in Elems(a) && (a + b)[j] in Elems(b);
      }
    }
  }
}
