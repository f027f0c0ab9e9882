/** Sums over the threads of a system: how a sum changes when one thread does,
    and what a sum says about its parts. */
module Counting {

  ghost function Total(xs: seq<nat>): nat {
    if xs == [] then 0 else xs[0] + Total(xs[1..])
  }

  lemma {:induction false} TotalUpdate(xs: seq<nat>, i: nat, x: nat)
    requires i < |xs|
    ensures Total(xs[i := x]) + xs[i] == Total(xs) + x
  {
    var ys := xs[i := x];
    if i == 0 {
      assert ys[1..] == xs[1..];
    } else {
      TotalUpdate(xs[1..], i - 1, x);
      assert ys[1..] == xs[1..][i - 1 := x];
    }
  }

  lemma {:induction false} TotalBounds(xs: seq<nat>, b: nat)
    requires forall i :: 0 <= i < |xs| ==> xs[i] <= b
    ensures Total(xs) <= b * |xs|
    ensures forall i :: 0 <= i < |xs| ==> xs[i] <= Total(xs)
    ensures Total(xs) == b * |xs| ==> forall i :: 0 <= i < |xs| ==> xs[i] == b
    ensures (forall i :: 0 <= i < |xs| ==> xs[i] == b) ==> Total(xs) == b * |xs|
  {
    if xs != [] {
      var rest := xs[1..];
      forall i | 0 <= i < |rest| ensures rest[i] == xs[i + 1] {}
      TotalBounds(rest, b);
      assert b * |xs| == b + b * |rest|;
      forall i | 0 < i < |xs| ensures xs[i] == rest[i - 1] {}
    }
  }

  /** Two different parts together do not exceed the sum. */
  lemma TotalOfTwo(xs: seq<nat>, i: nat, j: nat)
    requires i < |xs| && j < |xs| && i != j
    ensures xs[i] + xs[j] <= Total(xs)
  {
    TotalUpdate(xs, i, 0);
    TotalAtLeast(xs[i := 0], j);
  }

  lemma {:induction false} TotalAtLeast(xs: seq<nat>, i: nat)
    requires i < |xs|
    ensures xs[i] <= Total(xs)
  {
    if i > 0 {
      TotalAtLeast(xs[1..], i - 1);
    }
  }

  /** A positive sum has a positive part. */
  lemma {:induction false} TotalPositive(xs: seq<nat>) returns (i: nat)
    requires Total(xs) > 0
    ensures i < |xs| && xs[i] > 0
  {
    i := 0;
    if xs[0] == 0 {
      var k := TotalPositive(xs[1..]);
      i := k + 1;
    }
  }
}
