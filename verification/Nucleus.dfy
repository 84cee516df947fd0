/** The top-p filter of `_sample` in `sw/runtime/gemma/inference.py`.

    The descending order is whatever the library sort returns: any permutation of
    the tokens with non-increasing probabilities, ties in any order. */
module Nucleus {
  import opened Reals

  ghost predicate IsDistribution(p: seq<real>) {
    p != [] && (forall i :: 0 <= i < |p| ==> p[i] >= 0.0) && Sum(p) == 1.0
  }

  /** Distinct tokens. */
  ghost predicate Ranks(p: seq<real>, order: seq<nat>) {
    && |order| == |p|
    && (forall r :: 0 <= r < |order| ==> order[r] < |p|)
    && (forall q, r :: 0 <= q < r < |order| ==> order[q] != order[r])
  }

  ghost predicate Descends(p: seq<real>, order: seq<nat>)
    requires Ranks(p, order)
  {
    forall q, r :: 0 <= q < r < |order| ==> p[order[q]] >= p[order[r]]
  }

  ghost predicate IsDescendingOrder(p: seq<real>, order: seq<nat>) {
    && Ranks(p, order) && Descends(p, order)
    && (forall i :: 0 <= i < |p| ==> i in order)
  }

  /** The mass of the first `n` tokens of the order. */
  function Mass(p: seq<real>, order: seq<nat>, n: nat): real
    requires n <= |order| && forall r :: 0 <= r < |order| ==> order[r] < |p|
  {
    if n == 0 then 0.0 else Mass(p, order, n - 1) + p[order[n - 1]]
  }

  /** The probabilities of a set of tokens, zero elsewhere, and their sum. */
  function Masked(p: seq<real>, tokens: set<nat>): (q: seq<real>)
    ensures |q| == |p|
  {
    seq(|p|, i requires 0 <= i < |p| => if i in tokens then p[i] else 0.0)
  }

  function MassOf(p: seq<real>, tokens: set<nat>): real {
    Sum(Masked(p, tokens))
  }

  lemma MassOfAdd(p: seq<real>, tokens: set<nat>, t: nat, more: set<nat>)
    requires t < |p| && t !in tokens && more == tokens + {t}
    ensures MassOf(p, more) == MassOf(p, tokens) + p[t] && |more| == |tokens| + 1
  {
    assert Masked(p, more) == Masked(p, tokens)[t := p[t]];
    SumUpdate(Masked(p, tokens), t, p[t]);
  }

  function First(order: seq<nat>, n: nat): set<nat>
    requires n <= |order|
  {
    set i | i in order[..n]
  }

  lemma {:induction false} MassOfFirst(p: seq<real>, order: seq<nat>, n: nat)
    requires Ranks(p, order) && n <= |p|
    ensures MassOf(p, First(order, n)) == Mass(p, order, n) && |First(order, n)| == n
  {
    if n == 0 {
      MassOfNone(p, order);
    } else {
      MassOfFirst(p, order, n - 1);
      MassOfNext(p, order, n - 1, n);
    }
  }

  lemma MassOfNone(p: seq<real>, order: seq<nat>)
    ensures MassOf(p, First(order, 0)) == 0.0 && First(order, 0) == {}
  {
    assert Masked(p, First(order, 0)) == seq(|p|, _ => 0.0);
    SumZeros(|p|);
  }

  lemma MassOfNext(p: seq<real>, order: seq<nat>, n: nat, m: nat)
    requires Ranks(p, order) && m == n + 1 <= |order|
    ensures MassOf(p, First(order, m)) == MassOf(p, First(order, n)) + p[order[n]]
    ensures |First(order, m)| == |First(order, n)| + 1
  {
    FirstNext(order, n, m);
    NotYet(p, order, n);
    MassOfAdd(p, First(order, n), order[n], First(order, m));
  }

  lemma NotYet(p: seq<real>, order: seq<nat>, n: nat)
    requires Ranks(p, order) && n < |order|
    ensures order[n] !in First(order, n)
  {
  }

  lemma FirstNext(order: seq<nat>, n: nat, m: nat)
    requires m == n + 1 <= |order|
    ensures First(order, m) == First(order, n) + {order[n]}
  {
    assert order[..m] == order[..n] + [order[n]];
  }

  lemma AllMass(p: seq<real>, order: seq<nat>)
    requires IsDescendingOrder(p, order)
    ensures Mass(p, order, |p|) == Sum(p)
  {
    MassOfFirst(p, order, |p|);
    assert order[..|p|] == order;
    assert Masked(p, First(order, |p|)) == p;
  }

  /** No `n` tokens weigh more than the first `n` of the order. */
  lemma {:induction false} TopIsHeaviest(p: seq<real>, order: seq<nat>, tokens: set<nat>, r: nat)
    requires Ranks(p, order) && Descends(p, order) && r <= |order| && tokens <= First(order, r)
    ensures |tokens| <= r && MassOf(p, tokens) <= Mass(p, order, |tokens|)
  {
    if r == 0 {
      assert tokens == {} == First(order, 0);
      MassOfFirst(p, order, 0);
    } else {
      var t, n := order[r - 1], r - 1;
      FirstNext(order, n, r);
      if t in tokens {
        var rest := tokens - {t};
        TopIsHeaviest(p, order, rest, n);
        HeavierLast(p, order, rest, tokens, n);
      } else {
        TopIsHeaviest(p, order, tokens, n);
      }
    }
  }

  lemma HeavierLast(p: seq<real>, order: seq<nat>, rest: set<nat>, tokens: set<nat>, last: nat)
    requires Ranks(p, order) && Descends(p, order) && last < |order|
    requires order[last] !in rest && tokens == rest + {order[last]} && |rest| <= last
    requires MassOf(p, rest) <= Mass(p, order, |rest|)
    ensures |tokens| == |rest| + 1 && MassOf(p, tokens) <= Mass(p, order, |tokens|)
  {
    MassOfAdd(p, rest, order[last], tokens);
    MassNext(p, order, |rest|, |tokens|);
    Descending(p, order, |rest|, last);
  }

  lemma MassNext(p: seq<real>, order: seq<nat>, n: nat, m: nat)
    requires Ranks(p, order) && m == n + 1 <= |order|
    ensures Mass(p, order, m) == Mass(p, order, n) + p[order[n]]
  {
  }

  lemma Descending(p: seq<real>, order: seq<nat>, q: nat, r: nat)
    requires Ranks(p, order) && Descends(p, order) && q <= r < |order|
    ensures p[order[q]] >= p[order[r]]
  {
  }

  // ----- the filter

  /** How many tokens `keep` selects: those whose preceding mass is below top_p. */
  function Cut(p: seq<real>, order: seq<nat>, topP: real, n: nat): (c: nat)
    requires n <= |order| && forall r :: 0 <= r < |order| ==> order[r] < |p|
    ensures c <= n
    ensures forall k :: 0 <= k < c ==> Mass(p, order, k) < topP
    ensures c < n ==> Mass(p, order, c) >= topP
  {
    if n == 0 then 0
    else
      var c := Cut(p, order, topP, n - 1);
      if c == n - 1 && Mass(p, order, c) < topP then n else c
  }

  lemma {:induction false} MassGrows(p: seq<real>, order: seq<nat>, a: nat, b: nat)
    requires IsDescendingOrder(p, order) && a <= b <= |p|
    requires forall i :: 0 <= i < |p| ==> p[i] >= 0.0
    ensures Mass(p, order, a) <= Mass(p, order, b)
    decreases b
  {
    if a < b { MassGrows(p, order, a, b - 1); }
  }

  /** The heaviest token of a distribution has positive probability. */
  lemma TopPositive(p: seq<real>, order: seq<nat>)
    requires IsDistribution(p) && IsDescendingOrder(p, order)
    ensures p[order[0]] > 0.0
  {
    if p[order[0]] <= 0.0 {
      forall i | 0 <= i < |p| ensures p[i] == 0.0 {
        assert i in order;
        var r :| 0 <= r < |order| && order[r] == i;
        if r > 0 { assert p[order[0]] >= p[order[r]]; }
      }
      assert p == seq(|p|, _ => 0.0);
      SumZeros(|p|);
    }
  }

  /** The kept tokens are the shortest prefix of the order whose mass reaches top_p,
      and no set of tokens reaching top_p is smaller. */
  lemma ShortestNucleus(p: seq<real>, order: seq<nat>, topP: real, tokens: set<nat>)
    requires IsDistribution(p) && IsDescendingOrder(p, order) && topP < 1.0
    ensures var c := Cut(p, order, topP, |p|);
      && Mass(p, order, c) >= topP
      && (forall k :: 0 <= k < c ==> Mass(p, order, k) < topP)
      && (c == 0 <==> topP <= 0.0)
      && ((forall t :: t in tokens ==> t < |p|) && MassOf(p, tokens) >= topP ==> |tokens| >= c)
  {
    var c := Cut(p, order, topP, |p|);
    AllMass(p, order);
    if c == |p| { assert Mass(p, order, c) == 1.0; }
    assert Mass(p, order, 0) == 0.0;
    if c > 0 { assert Mass(p, order, 0) < topP; }
    if (forall t :: t in tokens ==> t < |p|) && MassOf(p, tokens) >= topP {
      assert order[..|order|] == order;
      TopIsHeaviest(p, order, tokens, |order|);
    }
  }

  lemma KeepIsPrefix(p: seq<real>, order: seq<nat>, topP: real, r: nat)
    requires IsDistribution(p) && IsDescendingOrder(p, order) && r < |p|
    ensures Mass(p, order, r) < topP <==> r < Cut(p, order, topP, |p|)
  {
    var c := Cut(p, order, topP, |p|);
    if c <= r { MassGrows(p, order, c, r); }
  }

  lemma KeptMassPositive(p: seq<real>, order: seq<nat>, n: nat)
    requires IsDistribution(p) && IsDescendingOrder(p, order) && 0 < n <= |p|
    ensures Mass(p, order, n) > 0.0
  {
    TopPositive(p, order);
    MassGrows(p, order, 1, n);
    assert Mass(p, order, 1) == Mass(p, order, 0) + p[order[0]];
  }

  /** The filtered distribution: the kept probabilities scaled by one positive
      factor, all others zero; the single heaviest token when nothing is kept. */
  ghost predicate IsFiltered(p: seq<real>, order: seq<nat>, topP: real, out: seq<real>)
    requires IsDescendingOrder(p, order)
  {
    var c := Cut(p, order, topP, |p|);
    && |out| == |p|
    && (c == 0 ==> forall i :: 0 <= i < |p| ==> out[i] == if i == order[0] then 1.0 else 0.0)
    && (c > 0 ==>
          var s := Mass(p, order, c);
          s > 0.0 && forall i :: 0 <= i < |p| ==> out[i] == if i in First(order, c) then p[i] / s else 0.0)
  }

  /** `filtered.sum()` */
  method SumOf(a: array<real>) returns (total: real)
    ensures total == Sum(a[..])
  {
    total := 0.0;
    for i := 0 to a.Length
      invariant total == Sum(a[..i])
    {
      assert a[..i + 1][..i] == a[..i];
      total := total + a[i];
    }
    assert a[..a.Length] == a[..];
  }

  lemma MaskedNext(p: seq<real>, order: seq<nat>, n: nat, m: nat)
    requires m == n + 1 <= |order| && order[n] < |p|
    ensures Masked(p, First(order, m)) == Masked(p, First(order, n))[order[n] := p[order[n]]]
  {
    FirstNext(order, n, m);
  }

  /** The selection loop: exactly the tokens before the cut are copied. */
  method Select(p: seq<real>, order: seq<nat>, topP: real) returns (filtered: array<real>)
    requires IsDistribution(p) && IsDescendingOrder(p, order)
    ensures fresh(filtered) && filtered[..] == Masked(p, First(order, Cut(p, order, topP, |p|)))
  {
    filtered := new real[|p|](_ => 0.0);
    var cumsum := 0.0;
    ghost var c := Cut(p, order, topP, |p|);
    ghost var n: nat := 0;
    assert filtered[..] == Masked(p, First(order, 0));
    for r := 0 to |p|
      invariant cumsum == Mass(p, order, r)
      invariant n == (if r <= c then r else c) && filtered[..] == Masked(p, First(order, n))
    {
      cumsum := cumsum + p[order[r]];
      KeepIsPrefix(p, order, topP, r);
      if cumsum - p[order[r]] < topP {
        MaskedNext(p, order, r, r + 1);
        filtered[order[r]] := p[order[r]];
        n := n + 1;
      }
    }
  }

  /** `filtered / filtered.sum()` */
  method Renormalise(filtered: array<real>) returns (out: array<real>)
    requires Sum(filtered[..]) != 0.0
    ensures fresh(out) && out[..] == Divided(filtered[..], Sum(filtered[..])) && Sum(out[..]) == 1.0
  {
    var total := SumOf(filtered);
    ghost var w := filtered[..];
    SumDivided(w, total);
    assert Sum(w) / total == 1.0;
    out := new real[filtered.Length];
    for i := 0 to filtered.Length
      invariant out[..i] == Divided(w, total)[..i] && filtered[..] == w
    {
      out[i] := filtered[i] / total;
    }
    assert out[..] == Divided(w, total);
  }

  /** The filter of `_sample` for top_p below 1. */
  method Filter(p: seq<real>, order: seq<nat>, topP: real) returns (out: array<real>)
    requires IsDistribution(p) && IsDescendingOrder(p, order)
    ensures fresh(out) && IsFiltered(p, order, topP, out[..]) && Sum(out[..]) == 1.0
  {
    var filtered := Select(p, order, topP);
    ghost var c := Cut(p, order, topP, |p|);
    MassOfFirst(p, order, c);
    if c > 0 { KeptMassPositive(p, order, c); }
    ghost var kept := filtered[..];
    var total := SumOf(filtered);
    if total == 0.0 {
      filtered[order[0]] := 1.0;
      assert filtered[..] == kept[order[0] := 1.0];
      SumUpdate(kept, order[0], 1.0);
    }
    ghost var w := filtered[..];
    out := Renormalise(filtered);
    if c == 0 {
      OneHotIsFiltered(p, order, topP, w, out[..]);
    } else {
      DividedIsFiltered(p, order, topP, w, Sum(w), out[..]);
    }
  }

  lemma OneHotIsFiltered(p: seq<real>, order: seq<nat>, topP: real, w: seq<real>, out: seq<real>)
    requires p != [] && IsDescendingOrder(p, order) && Cut(p, order, topP, |p|) == 0
    requires w == Masked(p, First(order, 0))[order[0] := 1.0] && Sum(w) == 1.0 && out == Divided(w, 1.0)
    ensures IsFiltered(p, order, topP, out)
  {
  }

  lemma DividedIsFiltered(p: seq<real>, order: seq<nat>, topP: real, weights: seq<real>, total: real, out: seq<real>)
    requires IsDescendingOrder(p, order)
    requires var c := Cut(p, order, topP, |p|);
      c > 0 && total == Mass(p, order, c) > 0.0 && weights == Masked(p, First(order, c))
    requires |out| == |p| && forall i :: 0 <= i < |p| ==> out[i] == weights[i] / total
    ensures IsFiltered(p, order, topP, out)
  {
    assert 0.0 / total == 0.0;
  }

  // ----- what the filter promises

  /** The tokens that can still be drawn. */
  function Kept(p: seq<real>, order: seq<nat>, topP: real): set<nat>
    requires p != [] && IsDescendingOrder(p, order)
  {
    var c := Cut(p, order, topP, |p|);
    First(order, if c == 0 then 1 else c)
  }

  /** Only kept tokens have weight, there is at least one, and none is less probable
      than a dropped one. */
  lemma KeptDominates(p: seq<real>, order: seq<nat>, topP: real, out: seq<real>, i: nat, j: nat)
    requires IsDistribution(p) && IsDescendingOrder(p, order) && IsFiltered(p, order, topP, out)
    requires i in Kept(p, order, topP) && j < |p| && j !in Kept(p, order, topP)
    ensures out[j] == 0.0 && order[0] in Kept(p, order, topP)
    ensures i < |p| && p[i] >= p[j]
  {
    var c := Cut(p, order, topP, |p|);
    var n := if c == 0 then 1 else c;
    var q :| 0 <= q < n && order[..n][q] == i;
    assert j in order;
    var r :| 0 <= r < |order| && order[r] == j;
    EarlyIsFirst(order, n, r);
    assert order[..n][0] == order[0];
  }

  lemma EarlyIsFirst(order: seq<nat>, n: nat, r: nat)
    requires n <= |order| && r < |order|
    ensures r < n ==> order[r] in First(order, n)
  {
    if r < n { assert order[..n][r] == order[r]; }
  }

  /** After a token without weight nothing is added. */
  lemma {:induction false} MassFlat(p: seq<real>, order: seq<nat>, q: nat, n: nat)
    requires IsDistribution(p) && IsDescendingOrder(p, order) && q < n <= |p| && p[order[q]] == 0.0
    ensures Mass(p, order, n) == Mass(p, order, q)
    decreases n
  {
    MassNext(p, order, n - 1, n);
    Descending(p, order, q, n - 1);
    assert p[order[n - 1]] >= 0.0;
    if q < n - 1 { MassFlat(p, order, q, n - 1); }
  }

  /** A token before the cut has weight, because the mass before it is below one. */
  lemma EarlyPositive(p: seq<real>, order: seq<nat>, topP: real, q: nat)
    requires IsDistribution(p) && IsDescendingOrder(p, order) && topP < 1.0
    requires q < Cut(p, order, topP, |p|)
    ensures p[order[q]] > 0.0
  {
    if p[order[q]] <= 0.0 {
      MassFlat(p, order, q, |p|);
      AllMass(p, order);
    }
  }

  lemma KeptAtRank(p: seq<real>, order: seq<nat>, topP: real, i: nat) returns (q: nat)
    requires p != [] && IsDescendingOrder(p, order) && i in Kept(p, order, topP)
    ensures q < |p| && order[q] == i && (q < Cut(p, order, topP, |p|) || (q == 0 == Cut(p, order, topP, |p|)))
  {
    var c := Cut(p, order, topP, |p|);
    var n := if c == 0 then 1 else c;
    q :| 0 <= q < n && order[..n][q] == i;
  }

  /** x : y == a : b */
  predicate InProportion(x: real, y: real, a: real, b: real) {
    x * b == y * a
  }

  /** Exactly the kept tokens can be drawn, and the ratios between them are those
      of the given probabilities. */
  lemma RatiosKept(p: seq<real>, order: seq<nat>, topP: real, out: seq<real>, i: nat, j: nat)
    requires IsDistribution(p) && IsDescendingOrder(p, order) && IsFiltered(p, order, topP, out) && topP < 1.0
    requires i in Kept(p, order, topP) && j in Kept(p, order, topP)
    ensures i < |p| && j < |p| && out[i] > 0.0 && InProportion(out[i], out[j], p[i], p[j])
  {
    var c := Cut(p, order, topP, |p|);
    var q := KeptAtRank(p, order, topP, i);
    var r := KeptAtRank(p, order, topP, j);
    if c > 0 {
      EarlyPositive(p, order, topP, q);
      var s := Mass(p, order, c);
      Scaled(p, order, topP, out, q, i, s);
      Scaled(p, order, topP, out, r, j, s);
      QuotientPositive(p[i], s, out[i]);
      CrossQuotients(p[i], p[j], s, out[i], out[j]);
    } else {
      assert i == j == order[0];
    }
  }

  lemma Scaled(p: seq<real>, order: seq<nat>, topP: real, out: seq<real>, q: nat, i: nat, s: real)
    requires IsDescendingOrder(p, order) && IsFiltered(p, order, topP, out)
    requires q < Cut(p, order, topP, |p|) && order[q] == i && s == Mass(p, order, Cut(p, order, topP, |p|))
    ensures s > 0.0 && out[i] == p[i] / s
  {
    EarlyIsFirst(order, Cut(p, order, topP, |p|), q);
  }

  lemma QuotientPositive(a: real, s: real, x: real)
    requires a > 0.0 && s > 0.0 && x == a / s
    ensures x > 0.0
  {
  }

  lemma CrossQuotients(a: real, b: real, s: real, x: real, y: real)
    requires s > 0.0 && x == a / s && y == b / s
    ensures InProportion(x, y, a, b)
  {
    assert a == x * s && b == y * s;
  }
}
