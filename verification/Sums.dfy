/** Sums of a weight over a sequence and how an update moves them; sequences of
    sequences laid end to end. */
module Sums {

  function Sum<T>(xs: seq<T>, weight: T -> nat): nat {
    if xs == [] then 0
    else Sum(xs[..|xs| - 1], weight) + weight(xs[|xs| - 1])
  }

  lemma SumAppend<T>(xs: seq<T>, x: T, weight: T -> nat)
    ensures Sum(xs + [x], weight) == Sum(xs, weight) + weight(x)
  {
    assert (xs + [x])[..|xs|] == xs;
  }

  lemma {:induction false} SumConcat<T>(xs: seq<T>, ys: seq<T>, weight: T -> nat)
    ensures Sum(xs + ys, weight) == Sum(xs, weight) + Sum(ys, weight)
  {
    if ys == [] {
      assert xs + ys == xs;
    } else {
      var last := |ys| - 1;
      assert (xs + ys)[..|xs + ys| - 1] == xs + ys[..last];
      SumConcat(xs, ys[..last], weight);
    }
  }

  lemma {:induction false} SumUpdate<T>(xs: seq<T>, i: nat, x: T, weight: T -> nat)
    requires i < |xs|
    ensures Sum(xs[i := x], weight) + weight(xs[i]) == Sum(xs, weight) + weight(x)
  {
    var last := |xs| - 1;
    if i == last {
      assert xs[i := x][..last] == xs[..last];
    } else {
      SumUpdate(xs[..last], i, x, weight);
      assert xs[i := x][..last] == xs[..last][i := x];
    }
  }

  lemma {:induction false} SumAtLeast<T>(xs: seq<T>, i: nat, weight: T -> nat)
    requires i < |xs|
    ensures weight(xs[i]) <= Sum(xs, weight)
  {
    if i < |xs| - 1 {
      SumAtLeast(xs[..|xs| - 1], i, weight);
    }
  }

  /** A positive sum has a positive summand. */
  lemma {:induction false} PositiveSummand<T>(xs: seq<T>, weight: T -> nat) returns (i: nat)
    requires Sum(xs, weight) > 0
    ensures i < |xs| && weight(xs[i]) > 0
  {
    i := |xs| - 1;
    if weight(xs[i]) == 0 {
      i := PositiveSummand(xs[..i], weight);
    }
  }

  lemma {:induction false} SumZero<T>(xs: seq<T>, weight: T -> nat)
    requires forall i :: 0 <= i < |xs| ==> weight(xs[i]) == 0
    ensures Sum(xs, weight) == 0
  {
    if xs != [] {
      SumZero(xs[..|xs| - 1], weight);
    }
  }

  function Flat<T>(parts: seq<seq<T>>): seq<T> {
    if parts == [] then [] else Flat(parts[..|parts| - 1]) + parts[|parts| - 1]
  }

  lemma FlatAppend<T>(parts: seq<seq<T>>, part: seq<T>)
    ensures Flat(parts + [part]) == Flat(parts) + part
  {
    assert (parts + [part])[..|parts|] == parts;
  }
}
