/** Sums over exact reals.  All numeric claims of this project are about real
    arithmetic, not about floating point. */
module Reals {

  function Sum(xs: seq<real>): real {
    if xs == [] then 0.0 else Sum(xs[..|xs| - 1]) + xs[|xs| - 1]
  }

  /** `np.dot` of two vectors. */
  function Dot(xs: seq<real>, ys: seq<real>): real
    requires |xs| == |ys|
  {
    if xs == [] then 0.0
    else Dot(xs[..|xs| - 1], ys[..|xs| - 1]) + xs[|xs| - 1] * ys[|xs| - 1]
  }

  function Times(c: real, x: real): real {
    c * x
  }

  /** Changing one term changes the sum by the difference. */
  lemma {:induction false} SumUpdate(xs: seq<real>, i: nat, v: real)
    requires i < |xs|
    ensures Sum(xs[i := v]) == Sum(xs) - xs[i] + v
  {
    var n := |xs| - 1;
    if i < n {
      assert xs[i := v][..n] == xs[..n][i := v];
      SumUpdate(xs[..n], i, v);
    } else {
      assert xs[i := v][..n] == xs[..n];
    }
  }

  lemma {:induction false} SumZeros(n: nat)
    ensures Sum(seq(n, _ => 0.0)) == 0.0
  {
    if n > 0 {
      assert seq(n, _ => 0.0)[..n - 1] == seq(n - 1, _ => 0.0);
      SumZeros(n - 1);
    }
  }

  lemma {:induction false} SumNonNegative(xs: seq<real>)
    requires forall i :: 0 <= i < |xs| ==> xs[i] >= 0.0
    ensures Sum(xs) >= 0.0
  {
    if xs != [] { SumNonNegative(xs[..|xs| - 1]); }
  }

  function Divided(xs: seq<real>, c: real): (ys: seq<real>)
    requires c != 0.0
    ensures |ys| == |xs|
  {
    seq(|xs|, i requires 0 <= i < |xs| => xs[i] / c)
  }

  lemma {:induction false} SumDivided(xs: seq<real>, c: real)
    requires c != 0.0
    ensures Sum(Divided(xs, c)) == Sum(xs) / c
  {
    if xs != [] {
      var n := |xs| - 1;
      assert Divided(xs, c)[..n] == Divided(xs[..n], c);
      SumDivided(xs[..n], c);
      assert Sum(xs[..n]) / c + xs[n] / c == (Sum(xs[..n]) + xs[n]) / c;
    }
  }

  /** Python's `round` to an integer: halves go to the even neighbour. */
  function Round(x: real): int {
    var f := x.Floor;
    var half := x - f as real;
    if half < 0.5 || (half == 0.5 && f % 2 == 0) then f else f + 1
  }

  /** It is a nearest integer, and the even one if two are equally near. */
  lemma RoundIs(x: real)
    ensures -0.5 <= x - Round(x) as real <= 0.5
    ensures x - Round(x) as real == 0.5 || x - Round(x) as real == -0.5 ==> Round(x) % 2 == 0
  {
  }

  lemma RoundMono(x: real, y: real)
    requires x <= y
    ensures Round(x) <= Round(y)
  {
  }
}
