/**
 * Sequence vocabulary shared by the models: the elements of a sequence,
 * distinctness, order by a real-valued key, and the in-place sort that
 * Go's `sort.Slice` and `sort.Float64s` perform. Go's sort is not stable,
 * so only the order of keys and the multiset of elements are promised.
 */
module Sequences {

  function Elems<T>(s: seq<T>): set<T> {
    set x | x in s
  }

  predicate Distinct<T(==)>(s: seq<T>) {
    forall i, j :: 0 <= i < j < |s| ==> s[i] != s[j]
  }

  /** `s` is ordered by `key`, largest first (equal keys in any order). */
  ghost predicate NonIncreasing<T>(s: seq<T>, key: T -> real) {
    forall i, j :: 0 <= i < j < |s| ==> key(s[i]) >= key(s[j])
  }

  /** Some element of a non-empty set, for choosing the next key of a map to visit. */
  lemma Member<T>(s: set<T>) returns (x: T)
    requires s != {}
    ensures x in s
  {
    if forall y :: y !in s {
      assert false;
    }
    x :| x in s;
  }

  /** An element that occurs at two positions is counted at least twice. */
  lemma CountedTwice<T>(s: seq<T>, i: int, j: int)
    requires 0 <= i < j < |s|
    ensures s[i] == s[j] ==> multiset(s)[s[i]] >= 2
  {
    assert s == s[..i] + [s[i]] + s[i+1..j] + [s[j]] + s[j+1..];
  }

  /** A sequence with the multiset of a set lists that set, each element once. */
  lemma EnumeratesSet<T>(s: seq<T>, S: set<T>)
    requires multiset(s) == multiset(S)
    ensures Distinct(s) && Elems(s) == S && |s| == |S|
  {
    forall i, j | 0 <= i < j < |s|
      ensures s[i] != s[j]
    {
      CountedTwice(s, i, j);
    }
    forall x
      ensures x in Elems(s) <==> x in S
    {
      assert x in s <==> x in multiset(s);
    }
    assert |s| == |multiset(s)| == |multiset(S)|;
  }

  /** A sequence without repetitions has the multiset of its set of elements. */
  lemma {:induction false} DistinctMultiset<T>(s: seq<T>)
    requires Distinct(s)
    ensures multiset(s) == multiset(Elems(s))
  {
    if s != [] {
      var init, x := s[..|s| - 1], s[|s| - 1];
      assert s == init + [x];
      DistinctMultiset(init);
      assert Elems(s) == Elems(init) + {x};
      assert x !in Elems(init);
    }
  }

  /** Reordering a sequence without repetitions gives one without repetitions. */
  lemma PermutationKeepsDistinct<T>(a: seq<T>, b: seq<T>)
    requires Distinct(a) && multiset(a) == multiset(b)
    ensures Distinct(b) && Elems(b) == Elems(a)
  {
    DistinctMultiset(a);
    EnumeratesSet(b, Elems(a));
  }

  /** A sequence without repetitions is as long as its set of elements is large. */
  lemma DistinctSize<T>(s: seq<T>)
    requires Distinct(s)
    ensures |Elems(s)| == |s|
  {
    DistinctMultiset(s);
    assert |multiset(s)| == |multiset(Elems(s))|;
  }

  /** Every element of a prefix of a sorted sequence outranks every element left out of it. */
  lemma PrefixHoldsLargest<T>(s: seq<T>, n: int, key: T -> real)
    requires NonIncreasing(s, key) && 0 <= n <= |s|
    ensures forall x, y :: x in s[..n] && y in s && y !in s[..n] ==> key(x) >= key(y)
  {
    forall x, y | x in s[..n] && y in s && y !in s[..n]
      ensures key(x) >= key(y)
    {
      var i :| 0 <= i < n && s[i] == x;
      var j :| 0 <= j < |s| && s[j] == y;
      assert forall k :: 0 <= k < n ==> s[..n][k] == s[k];
      assert i < j;
    }
  }

  /** Sorts `a` in place so that keys are non-increasing. */
  method SortByKey<T>(a: array<T>, key: T -> real)
    modifies a
    ensures NonIncreasing(a[..], key)
    ensures multiset(a[..]) == multiset(old(a[..]))
  {
    var i := 0;
    while i < a.Length
      invariant 0 <= i <= a.Length
      invariant NonIncreasing(a[..i], key)
      invariant multiset(a[..]) == multiset(old(a[..]))
    {
      InsertBackwards(a, i, key);
      i := i + 1;
    }
  }

  /** Moves `a[i]` down into the ordered prefix `a[..i]`, one swap at a time. */
  method InsertBackwards<T>(a: array<T>, i: int, key: T -> real)
    requires 0 <= i < a.Length
    requires NonIncreasing(a[..i], key)
    modifies a
    ensures NonIncreasing(a[..i + 1], key)
    ensures multiset(a[..]) == multiset(old(a[..]))
    ensures a[i + 1..] == old(a[i + 1..])
  {
    var j := i;
    while 0 < j && key(a[j - 1]) < key(a[j])
      invariant 0 <= j <= i
      invariant a[i + 1..] == old(a[i + 1..])
      invariant forall p, q :: 0 <= p < q <= i && p != j && q != j ==> key(a[p]) >= key(a[q])
      invariant forall q :: j < q <= i ==> key(a[j]) > key(a[q])
      invariant multiset(a[..]) == multiset(old(a[..]))
    {
      SwapDown(a, j);
      j := j - 1;
    }
  }

  /** Exchanges `a[j - 1]` and `a[j]`. */
  method SwapDown<T>(a: array<T>, j: int)
    requires 0 < j < a.Length
    modifies a
    ensures a[..] == old(a[..])[j - 1 := old(a[j])][j := old(a[j - 1])]
    ensures multiset(a[..]) == multiset(old(a[..]))
  {
    a[j - 1], a[j] := a[j], a[j - 1];
  }
}
