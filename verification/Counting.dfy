/** Cardinalities of finite index sets, and sums over sequences. */
module Counting {
  /** A one-to-one image fits in its target. */
  lemma {:induction false} InjectionSize(A: set<nat>, B: set<nat>, f: nat -> nat)
    requires forall x :: x in A ==> f(x) in B
    requires forall x, y :: x in A && y in A && f(x) == f(y) ==> x == y
    ensures |A| <= |B|
  {
    if A != {} {
      var x :| x in A;
      InjectionSize(A - {x}, B - {f(x)}, f);
    }
  }

  /** The indices below n. */
  function Below(n: nat): (r: set<nat>)
    ensures forall i: nat :: i in r <==> i < n
  {
    if n == 0 then {} else Below(n - 1) + {n - 1}
  }

  lemma {:induction false} BelowSize(n: nat)
    ensures |Below(n)| == n
  {
    if n > 0 {
      BelowSize(n - 1);
    }
  }

  function Sum<T>(xs: seq<T>, f: T -> nat): nat {
    if xs == [] then 0 else Sum(xs[..|xs| - 1], f) + f(xs[|xs| - 1])
  }

  lemma SumAppend<T>(xs: seq<T>, x: T, f: T -> nat)
    ensures Sum(xs + [x], f) == Sum(xs, f) + f(x)
  {
    assert (xs + [x])[..|xs|] == xs;
  }

  lemma {:induction false} SumUpdate<T>(xs: seq<T>, i: nat, x: T, f: T -> nat)
    requires i < |xs|
    ensures Sum(xs[i := x], f) + f(xs[i]) == Sum(xs, f) + f(x)
  {
    var last := |xs| - 1;
    if i == last {
      assert xs[i := x][..last] == xs[..last];
    } else {
      assert xs[i := x][..last] == xs[..last][i := x];
      SumUpdate(xs[..last], i, x, f);
    }
  }

  lemma {:induction false} SumExtend<T>(xs: seq<T>, ys: seq<T>, f: T -> nat)
    ensures Sum(xs, f) <= Sum(xs + ys, f)
  {
    if ys == [] {
      assert xs + ys == xs;
    } else {
      assert (xs + ys)[..|xs + ys| - 1] == xs + ys[..|ys| - 1];
      SumExtend(xs, ys[..|ys| - 1], f);
    }
  }
}
