/**
 * What the two insertion sorts of the scanner have in common: they order by a two-part key,
 * swap neighbours only when strictly out of order, and never leave the inner loop early.
 */
module StableSort {
  type Key = (int, int)

  predicate Less(a: Key, b: Key) {
    a.0 < b.0 || (a.0 == b.0 && a.1 < b.1)
  }

  ghost predicate Sorted<T>(s: seq<T>, key: T -> Key) {
    forall i, j :: 0 <= i < j < |s| ==> !Less(key(s[j]), key(s[i]))
  }

  /** The elements with one key, in order. */
  function Class<T>(s: seq<T>, key: T -> Key, k: Key): seq<T> {
    if s == [] then []
    else Class(s[..|s| - 1], key, k) + if key(s[|s| - 1]) == k then [s[|s| - 1]] else []
  }

  /** `t` has the elements of `s`, those with equal keys in the same order. */
  ghost predicate StablePermutation<T>(s: seq<T>, t: seq<T>, key: T -> Key) {
    multiset(s) == multiset(t) && forall k :: Class(s, key, k) == Class(t, key, k)
  }

  lemma {:induction false} ClassConcat<T>(s: seq<T>, t: seq<T>, key: T -> Key, k: Key)
    ensures Class(s + t, key, k) == Class(s, key, k) + Class(t, key, k)
    decreases |t|
  {
    if t == [] {
      assert s + t == s;
    } else {
      ClassConcat(s, t[..|t| - 1], key, k);
      assert (s + t)[..|s + t| - 1] == s + t[..|t| - 1];
    }
  }

  /** The sequence with its elements at j - 1 and j exchanged. */
  function Swapped<T>(s: seq<T>, j: nat): seq<T>
    requires 0 < j < |s|
  {
    s[j - 1 := s[j]][j := s[j - 1]]
  }

  /** The parallel assignment with which both sorts exchange neighbours. */
  method SwapNeighbours<T>(a: array<T>, j: nat)
    requires 0 < j < a.Length
    modifies a
    ensures a[..] == Swapped(old(a[..]), j)
  {
    a[j], a[j - 1] := a[j - 1], a[j];
  }

  lemma ClassOne<T>(x: T, key: T -> Key, k: Key)
    ensures Class([x], key, k) == if key(x) == k then [x] else []
  {
    assert [x][..0] == [];
  }

  lemma ClassSwap<T>(p: seq<T>, x: T, y: T, q: seq<T>, key: T -> Key, k: Key)
    requires key(x) != key(y)
    ensures Class(p + [x] + [y] + q, key, k) == Class(p + [y] + [x] + q, key, k)
  {
    hide Class;
    ClassConcat(p + [x] + [y], q, key, k);
    ClassConcat(p + [y] + [x], q, key, k);
    ClassConcat(p + [x], [y], key, k);
    ClassConcat(p + [y], [x], key, k);
    ClassConcat(p, [x], key, k);
    ClassConcat(p, [y], key, k);
    ClassOne(x, key, k);
    ClassOne(y, key, k);
  }

  /** Exchanging neighbours with different keys is a stable permutation. */
  lemma SwapIsStable<T>(s: seq<T>, j: nat, key: T -> Key)
    requires 0 < j < |s| && key(s[j]) != key(s[j - 1])
    ensures StablePermutation(s, Swapped(s, j), key)
  {
    hide Class, Swapped;
    SwapParts(s, j);
    var p, x, y, q := s[..j - 1], s[j - 1], s[j], s[j + 1..];
    forall k ensures Class(s, key, k) == Class(Swapped(s, j), key, k) {
      ClassSwap(p, x, y, q, key, k);
    }
    SwapMultiset(p, x, y, q);
  }

  lemma SwapParts<T>(s: seq<T>, j: nat)
    requires 0 < j < |s|
    ensures s == s[..j - 1] + [s[j - 1]] + [s[j]] + s[j + 1..]
    ensures Swapped(s, j) == s[..j - 1] + [s[j]] + [s[j - 1]] + s[j + 1..]
  {}

  lemma SwapMultiset<T>(p: seq<T>, x: T, y: T, q: seq<T>)
    ensures multiset(p + [x] + [y] + q) == multiset(p + [y] + [x] + q)
  {}

  lemma SameElements<T>(s: seq<T>, t: seq<T>, key: T -> Key)
    requires StablePermutation(s, t, key)
    ensures multiset(s) == multiset(t)
  {}

  lemma StableTrans<T>(s: seq<T>, t: seq<T>, u: seq<T>, key: T -> Key)
    requires StablePermutation(s, t, key) && StablePermutation(t, u, key)
    ensures StablePermutation(s, u, key)
  {}

  /** The first `n` elements are in order, except that the one at `hole` may come too late. */
  ghost predicate SortedBut<T>(s: seq<T>, n: nat, hole: nat, key: T -> Key) {
    n <= |s| && forall i, j :: 0 <= i < j < n && j != hole ==> !Less(key(s[j]), key(s[i]))
  }

  /** One step of the inner loop moves the hole down by one, whether or not it swaps. */
  lemma InnerStep<T>(s: seq<T>, n: nat, j: nat, key: T -> Key)
    requires 0 < j < n && SortedBut(s, n, j, key)
    ensures Less(key(s[j]), key(s[j - 1])) ==>
              SortedBut(Swapped(s, j), n, j - 1, key) && StablePermutation(s, Swapped(s, j), key)
    ensures !Less(key(s[j]), key(s[j - 1])) ==> SortedBut(s, n, j - 1, key)
  {
    if Less(key(s[j]), key(s[j - 1])) { SwapIsStable(s, j, key); }
  }

  /** The same for a sort under way that started from `was`. */
  lemma Sink<T>(was: seq<T>, s: seq<T>, t: seq<T>, n: nat, j: nat, key: T -> Key)
    requires 0 < j < n <= |s| && SortedBut(s, n, j, key) && StablePermutation(was, s, key)
    requires t == if Less(key(s[j]), key(s[j - 1])) then Swapped(s, j) else s
    ensures SortedBut(t, n, j - 1, key) && StablePermutation(was, t, key)
  {
    hide SortedBut, StablePermutation;
    InnerStep(s, n, j, key);
    if t != s { StableTrans(was, s, t, key); }
  }

  lemma StartsSorted<T>(s: seq<T>, key: T -> Key)
    ensures SortedBut(s, if 1 <= |s| then 1 else 0, 0, key)
  {}

  lemma HoleOpens<T>(s: seq<T>, n: nat, key: T -> Key)
    requires n < |s| && SortedBut(s, n, 0, key)
    ensures SortedBut(s, n + 1, n, key)
  {}

  lemma HoleCloses<T>(s: seq<T>, key: T -> Key)
    requires SortedBut(s, |s|, 0, key)
    ensures Sorted(s, key)
  {}

  lemma StableRefl<T>(s: seq<T>, key: T -> Key)
    ensures StablePermutation(s, s, key)
  {}

  /** Ordered and stable together leave no choice: there is only one such result. */
  lemma {:induction false} SortedStableIsUnique<T>(t: seq<T>, u: seq<T>, key: T -> Key)
    requires Sorted(t, key) && Sorted(u, key) && StablePermutation(t, u, key)
    ensures t == u
    decreases |t|
  {
    hide Class;
    hide StablePermutation;
    SameLength(t, u, key);
    if t != [] {
      var n := |t| - 1;
      LastHasGreatestKey(t, u, key);
      LastHasGreatestKey(u, t, key);
      DropLast(t, u, key);
      SortedStableIsUnique(t[..n], u[..n], key);
      assert t == t[..n] + [t[n]] && u == u[..n] + [u[n]];
    }
  }

  lemma SameLength<T>(t: seq<T>, u: seq<T>, key: T -> Key)
    requires StablePermutation(t, u, key)
    ensures |t| == |u| && StablePermutation(u, t, key)
  {
    assert |multiset(t)| == |multiset(u)|;
  }

  lemma DropLast<T>(t: seq<T>, u: seq<T>, key: T -> Key)
    requires StablePermutation(t, u, key) && |t| == |u| > 0
    requires key(t[|t| - 1]) == key(u[|u| - 1])
    ensures t[|t| - 1] == u[|u| - 1] && StablePermutation(t[..|t| - 1], u[..|u| - 1], key)
  {
    hide Class;
    var n := |t| - 1;
    ClassDropLast(t, key, key(t[n]));
    ClassDropLast(u, key, key(t[n]));
    forall k ensures Class(t[..n], key, k) == Class(u[..n], key, k) {
      ClassDropLast(t, key, k);
      ClassDropLast(u, key, k);
    }
    MultisetDropLast(t);
    MultisetDropLast(u);
  }

  lemma MultisetDropLast<T>(s: seq<T>)
    requires s != []
    ensures multiset(s[..|s| - 1]) == multiset(s) - multiset{s[|s| - 1]}
  {
    assert s == s[..|s| - 1] + [s[|s| - 1]];
  }

  lemma ClassDropLast<T>(s: seq<T>, key: T -> Key, k: Key)
    requires s != []
    ensures var n, c := |s| - 1, Class(s, key, k);
            if key(s[n]) == k then c != [] && c[|c| - 1] == s[n] && Class(s[..n], key, k) == c[..|c| - 1]
            else Class(s[..n], key, k) == c
  {}

  lemma LastHasGreatestKey<T>(t: seq<T>, u: seq<T>, key: T -> Key)
    requires Sorted(u, key) && StablePermutation(t, u, key) && |t| == |u| > 0
    ensures !Less(key(u[|u| - 1]), key(t[|t| - 1]))
  {
    var x := t[|t| - 1];
    assert x in multiset(t);
    assert x in multiset(u);
    var i :| 0 <= i < |u| && u[i] == x;
  }
}
