/** Sums over finite sequences of naturals and sizes of sets, used for step measures and totals over threads. */
module Sums {

  function Sum(xs: seq<nat>): nat {
    if xs == [] then 0 else xs[0] + Sum(xs[1..])
  }

  /** Changing one entry changes the sum by exactly that entry's change. */
  lemma {:induction false} SumUpdate(xs: seq<nat>, i: nat, v: nat)
    requires i < |xs|
    ensures Sum(xs[i := v]) + xs[i] == Sum(xs) + v
  {
    if i == 0 {
      assert xs[0 := v][1..] == xs[1..];
    } else {
      SumUpdate(xs[1..], i - 1, v);
      assert xs[i := v][1..] == xs[1..][i - 1 := v];
    }
  }

  lemma {:induction false} SumAtLeast(xs: seq<nat>, i: nat)
    requires i < |xs|
    ensures xs[i] <= Sum(xs)
  {
    if i > 0 {
      SumAtLeast(xs[1..], i - 1);
    }
  }

  lemma {:induction false} SumUniform(xs: seq<nat>, k: nat)
    requires forall i :: 0 <= i < |xs| ==> xs[i] == k
    ensures Sum(xs) == |xs| * k
  {
    if xs != [] {
      SumUniform(xs[1..], k);
      assert |xs| * k == k + (|xs| - 1) * k;
    }
  }

  lemma {:induction false} SumZero(xs: seq<nat>)
    requires Sum(xs) == 0
    ensures forall i :: 0 <= i < |xs| ==> xs[i] == 0
  {
    forall i | 0 <= i < |xs| ensures xs[i] == 0 {
      SumAtLeast(xs, i);
    }
  }

  lemma {:induction false} SumBelow(xs: seq<nat>, k: nat)
    requires Sum(xs) < |xs| * k
    ensures exists i :: 0 <= i < |xs| && xs[i] < k
  {
    if forall i :: 0 <= i < |xs| ==> xs[i] >= k {
      SumAbove(xs, k);
    }
  }

  lemma {:induction false} SumAbove(xs: seq<nat>, k: nat)
    requires forall i :: 0 <= i < |xs| ==> xs[i] >= k
    ensures Sum(xs) >= |xs| * k
  {
    if xs != [] {
      SumAbove(xs[1..], k);
      assert |xs| * k == k + (|xs| - 1) * k;
    }
  }

  lemma {:induction false} SumMonotone(xs: seq<nat>, ys: seq<nat>)
    requires |xs| == |ys| && forall i :: 0 <= i < |xs| ==> xs[i] <= ys[i]
    ensures Sum(xs) <= Sum(ys)
    ensures xs != ys ==> Sum(xs) < Sum(ys)
  {
    if xs != [] {
      SumMonotone(xs[1..], ys[1..]);
      assert xs == [xs[0]] + xs[1..] && ys == [ys[0]] + ys[1..];
    }
  }

  lemma SubsetSize(xs: set<nat>, ys: set<nat>)
    requires xs <= ys
    ensures |xs| <= |ys|
  {
    assert ys == xs + (ys - xs);
  }
}
