/** The in-place sort the service applies to its result slices, and facts
    about permutations that the callers use to carry properties across it.

    `before(x, y)` is the "less" function given to the sort: x must come
    before y. The sort is not stable, so the only promise is that no element
    is placed after one it must come before. */
module Sorting {

  /** `before` is a strict weak order: asymmetric, and its complement
      ("need not come before") is transitive. */
  ghost predicate StrictWeakOrder<T(!new)>(before: (T, T) -> bool) {
    && (forall x, y :: before(x, y) ==> !before(y, x))
    && (forall x, y, z :: !before(x, y) && !before(y, z) ==> !before(x, z))
  }

  /** No element of `s` must come before an element placed ahead of it. */
  ghost predicate Ordered<T>(s: seq<T>, before: (T, T) -> bool) {
    forall i, j :: 0 <= i < j < |s| ==> !before(s[j], s[i])
  }

  /** Sorts `a` in place by `before` (insertion sort by adjacent swaps). */
  method SortBy<T(!new)>(a: array<T>, before: (T, T) -> bool)
    requires StrictWeakOrder(before)
    modifies a
    ensures Ordered(a[..], before)
    ensures multiset(a[..]) == old(multiset(a[..]))
  {
    var i := 0;
    while i < a.Length
      invariant 0 <= i <= a.Length
      invariant forall k, m :: 0 <= k < m < i ==> !before(a[m], a[k])
      invariant multiset(a[..]) == old(multiset(a[..]))
    {
      Insert(a, i, before);
      i := i + 1;
    }
  }

  /** Moves a[i] left into the ordered prefix a[..i]. */
  method Insert<T(!new)>(a: array<T>, i: int, before: (T, T) -> bool)
    requires StrictWeakOrder(before)
    requires 0 <= i < a.Length
    requires forall k, m :: 0 <= k < m < i ==> !before(a[m], a[k])
    modifies a
    ensures forall k, m :: 0 <= k < m <= i ==> !before(a[m], a[k])
    ensures forall k :: i < k < a.Length ==> a[k] == old(a[k])
    ensures multiset(a[..]) == old(multiset(a[..]))
  {
    var j := i;
    while 0 < j && before(a[j], a[j - 1])
      invariant 0 <= j <= i
      invariant forall k, m :: 0 <= k < m < j ==> !before(a[m], a[k])
      invariant forall k, m :: j < k < m <= i ==> !before(a[m], a[k])
      invariant forall k, m :: 0 <= k < j < m <= i ==> !before(a[m], a[k])
      invariant forall m :: j < m <= i ==> before(a[j], a[m])
      invariant forall k :: i < k < a.Length ==> a[k] == old(a[k])
      invariant multiset(a[..]) == old(multiset(a[..]))
    {
      Swap(a, j);
      j := j - 1;
    }
    forall k, m | 0 <= k < m <= i
      ensures !before(a[m], a[k])
    {
      if m == j && k < j - 1 {
        assert !before(a[j], a[j - 1]) && !before(a[j - 1], a[k]);
      }
    }
  }

  /** Exchanges a[j - 1] and a[j]. */
  method Swap<T>(a: array<T>, j: int)
    requires 0 < j < a.Length
    modifies a
    ensures a[j - 1] == old(a[j]) && a[j] == old(a[j - 1])
    ensures forall k :: 0 <= k < a.Length && k != j - 1 && k != j ==> a[k] == old(a[k])
    ensures multiset(a[..]) == old(multiset(a[..]))
  {
    ghost var was := a[..];
    a[j - 1], a[j] := a[j], a[j - 1];
    assert a[..] == was[j - 1 := was[j]][j := was[j - 1]];
  }

  /** A permutation has the same length and the same elements. */
  lemma {:induction false} SameElements<T>(s: seq<T>, t: seq<T>)
    requires multiset(s) == multiset(t)
    ensures |s| == |t|
    ensures forall x :: x in s <==> x in t
  {
    assert |multiset(s)| == |s| && |multiset(t)| == |t|;
    forall x ensures x in s <==> x in t {
      assert x in s <==> x in multiset(s);
      assert x in t <==> x in multiset(t);
    }
  }

  /** No element occurs twice. */
  ghost predicate NoDuplicates<T>(s: seq<T>) {
    forall i, j :: 0 <= i < j < |s| ==> s[i] != s[j]
  }

  lemma {:induction false} NoDuplicatesOnce<T>(s: seq<T>, x: T)
    requires NoDuplicates(s)
    ensures multiset(s)[x] <= 1
  {
    if s != [] {
      var n := |s| - 1;
      assert s == s[..n] + [s[n]];
      assert NoDuplicates(s[..n]);
      NoDuplicatesOnce(s[..n], x);
      if s[n] == x {
        assert x !in s[..n];
      }
    }
  }

  lemma RepeatedTwice<T>(s: seq<T>, i: int, j: int)
    requires 0 <= i < j < |s| && s[i] == s[j]
    ensures multiset(s)[s[i]] >= 2
  {
    assert s == s[..j] + [s[j]] + s[j + 1..];
    assert s[i] in s[..j];
  }

  /** A permutation of a sequence without duplicates has none either. */
  lemma PermutationKeepsNoDuplicates<T>(s: seq<T>, t: seq<T>)
    requires NoDuplicates(s) && multiset(s) == multiset(t)
    ensures NoDuplicates(t)
  {
    forall i, j | 0 <= i < j < |t|
      ensures t[i] != t[j]
    {
      if t[i] == t[j] {
        RepeatedTwice(t, i, j);
        NoDuplicatesOnce(s, t[i]);
        assert false;
      }
    }
  }
}
