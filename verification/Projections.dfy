/**
 Sequences of items that each carry the number of the thread that produced them, and the
 subsequence produced by one thread. A merged sequence is an order-preserving interleaving of
 the threads' own sequences exactly when every thread's projection is that thread's sequence.
 */
module Projections {

  datatype Item = Item(sender: nat, payload: int)

  function From(xs: seq<Item>, t: nat): seq<int> {
    if xs == [] then []
    else From(xs[..|xs| - 1], t) + (if xs[|xs| - 1].sender == t then [xs[|xs| - 1].payload] else [])
  }

  lemma FromSnoc(xs: seq<Item>, x: Item, t: nat)
    ensures From(xs + [x], t) == From(xs, t) + (if x.sender == t then [x.payload] else [])
  {
  }

  lemma {:induction false} FromConcat(xs: seq<Item>, ys: seq<Item>, t: nat)
    ensures From(xs + ys, t) == From(xs, t) + From(ys, t)
    decreases |ys|
  {
    if ys == [] {
      assert xs + ys == xs;
    } else {
      var init, last := ys[..|ys| - 1], ys[|ys| - 1];
      FromConcat(xs, init, t);
      assert xs + ys == (xs + init) + [last] && ys == init + [last];
      FromSnoc(xs + init, last, t);
      FromSnoc(init, last, t);
    }
  }
}
