/** What it means that a sequence consists of some elements of another one, in their order. */
module Filters {
  /** part[i] is what `f` makes of the element of `whole` at idx[i], which satisfies `keep`. */
  ghost predicate Comes<T, U>(whole: seq<T>, part: seq<U>, keep: T -> bool, f: T -> U, idx: seq<nat>, i: nat)
    requires i < |idx| == |part|
  {
    idx[i] < |whole| && keep(whole[idx[i]]) && part[i] == f(whole[idx[i]])
  }

  /** `part` is what `f` makes of exactly those elements of `whole` that satisfy `keep`, in order. */
  ghost predicate IsFilter<T, U>(whole: seq<T>, part: seq<U>, keep: T -> bool, f: T -> U, idx: seq<nat>) {
    && |idx| == |part|
    && (forall i: nat :: i < |idx| ==> Comes(whole, part, keep, f, idx, i))
    && (forall i, j :: 0 <= i < j < |idx| ==> idx[i] < idx[j])
    && (forall k: nat :: k < |whole| && keep(whole[k]) ==> k in idx)
  }

  ghost predicate Filtered<T, U>(whole: seq<T>, part: seq<U>, keep: T -> bool, f: T -> U) {
    exists idx: seq<nat> :: IsFilter(whole, part, keep, f, idx)
  }

  lemma FilterNone<T, U>(keep: T -> bool, f: T -> U)
    ensures Filtered([], [], keep, f)
  {
    assert IsFilter([], [], keep, f, []);
  }

  /** Filtering goes element by element. */
  lemma FilterSnoc<T, U>(whole: seq<T>, part: seq<U>, keep: T -> bool, f: T -> U, x: T)
    requires Filtered(whole, part, keep, f)
    ensures Filtered(whole + [x], part + if keep(x) then [f(x)] else [], keep, f)
  {
    hide IsFilter;
    var idx: seq<nat> :| IsFilter(whole, part, keep, f, idx);
    if keep(x) {
      FilterTakes(whole, part, keep, f, x, idx);
    } else {
      FilterSkips(whole, part, keep, f, x, idx);
      assert part + [] == part;
    }
  }

  lemma FilterSkips<T, U>(whole: seq<T>, part: seq<U>, keep: T -> bool, f: T -> U, x: T, idx: seq<nat>)
    requires IsFilter(whole, part, keep, f, idx) && !keep(x)
    ensures IsFilter(whole + [x], part, keep, f, idx)
  {
    forall i: nat | i < |idx| ensures Comes(whole + [x], part, keep, f, idx, i) {
      assert Comes(whole, part, keep, f, idx, i);
    }
  }

  lemma FilterTakes<T, U>(whole: seq<T>, part: seq<U>, keep: T -> bool, f: T -> U, x: T, idx: seq<nat>)
    requires IsFilter(whole, part, keep, f, idx) && keep(x)
    ensures IsFilter(whole + [x], part + [f(x)], keep, f, idx + [|whole|])
  {
    hide Comes;
    var n, idx', whole', part' := |idx|, idx + [|whole|], whole + [x], part + [f(x)];
    forall i: nat | i < |idx'| ensures Comes(whole', part', keep, f, idx', i) {
      if i < n { ComesStill(whole, part, keep, f, idx, i, x); } else { ComesLast(whole, part, keep, f, idx, x); }
    }
    forall i, j | 0 <= i < j < |idx'| ensures idx'[i] < idx'[j] {
      if j == n { ComesFrom(whole, part, keep, f, idx, i); }
    }
    forall k: nat | k < |whole'| && keep(whole'[k]) ensures k in idx' {
      if k < |whole| { assert k in idx; } else { assert idx'[n] == k; }
    }
  }

  lemma ComesStill<T, U>(whole: seq<T>, part: seq<U>, keep: T -> bool, f: T -> U, idx: seq<nat>, i: nat, x: T)
    requires i < |idx| == |part| && Comes(whole, part, keep, f, idx, i)
    ensures Comes(whole + [x], part + [f(x)], keep, f, idx + [|whole|], i)
  {}

  lemma ComesLast<T, U>(whole: seq<T>, part: seq<U>, keep: T -> bool, f: T -> U, idx: seq<nat>, x: T)
    requires |idx| == |part| && keep(x)
    ensures Comes(whole + [x], part + [f(x)], keep, f, idx + [|whole|], |idx|)
  {}

  lemma ComesFrom<T, U>(whole: seq<T>, part: seq<U>, keep: T -> bool, f: T -> U, idx: seq<nat>, i: nat)
    requires i < |idx| == |part| && Comes(whole, part, keep, f, idx, i)
    ensures idx[i] < |whole|
  {}

  /** The conditions need agree only on the elements. */
  lemma FilterSame<T, U>(whole: seq<T>, part: seq<U>, keep: T -> bool, keep': T -> bool, f: T -> U)
    requires Filtered(whole, part, keep, f)
    requires forall k :: 0 <= k < |whole| ==> keep(whole[k]) == keep'(whole[k])
    ensures Filtered(whole, part, keep', f)
  {
    var idx: seq<nat> :| IsFilter(whole, part, keep, f, idx);
    forall i: nat | i < |idx| ensures Comes(whole, part, keep', f, idx, i) {
      assert Comes(whole, part, keep, f, idx, i);
    }
    assert IsFilter(whole, part, keep', f, idx);
  }

  /** Nothing is left exactly if nothing satisfies the condition. */
  lemma FilterEmpty<T, U>(whole: seq<T>, part: seq<U>, keep: T -> bool, f: T -> U)
    requires Filtered(whole, part, keep, f)
    ensures part == [] <==> forall k :: 0 <= k < |whole| ==> !keep(whole[k])
  {
    var idx: seq<nat> :| IsFilter(whole, part, keep, f, idx);
    if part != [] { assert Comes(whole, part, keep, f, idx, 0); }
  }

  /** Every element left satisfies the condition. */
  lemma FilterHolds<T(!new)>(whole: seq<T>, part: seq<T>, keep: T -> bool, f: T -> T)
    requires Filtered(whole, part, keep, f) && forall x :: f(x) == x
    ensures forall x :: x in part <==> x in whole && keep(x)
  {
    var idx: seq<nat> :| IsFilter(whole, part, keep, f, idx);
    forall x ensures x in part <==> x in whole && keep(x) {
      if x in part {
        var i :| 0 <= i < |part| && part[i] == x;
        assert Comes(whole, part, keep, f, idx, i);
      }
      if x in whole && keep(x) {
        var k :| 0 <= k < |whole| && whole[k] == x;
        assert k in idx;
        var i :| 0 <= i < |idx| && idx[i] == k;
        assert Comes(whole, part, keep, f, idx, i);
      }
    }
  }
}
