/** The sparsity threshold of `sw/runtime/gemma/ops.py`: keep the entries at or
    above mean + k standard deviations. */
module GaussianTopK {
  import opened Reals

  /** 1.645 */
  const SIGMA: real := 1.645

  function Mean(xs: seq<real>): real
    requires xs != []
  {
    Sum(xs) / |xs| as real
  }

  function Sq(e: real): (r: real)
    ensures r >= 0.0
  {
    e * e
  }

  /** (k (x - mean) + s)^2 */
  function Term(x: real, mean: real, k: real, s: real): real {
    Sq(k * (x - mean) + s)
  }

  function SquaredDeviations(xs: seq<real>, mean: real): real {
    if xs == [] then 0.0
    else SquaredDeviations(xs[..|xs| - 1], mean) + Sq(xs[|xs| - 1] - mean)
  }

  function Variance(xs: seq<real>): real
    requires xs != []
  {
    SquaredDeviations(xs, Mean(xs)) / |xs| as real
  }

  /** `np.std`: the non-negative root of the variance. */
  ghost predicate IsStd(xs: seq<real>, std: real)
    requires xs != []
  {
    std >= 0.0 && std * std == Variance(xs)
  }

  function Threshold(xs: seq<real>, k: real, std: real): real
    requires xs != []
  {
    Mean(xs) + k * std
  }

  /** `gaussian_topk`: zero out everything below the threshold. */
  function TopK(xs: seq<real>, k: real, std: real): (ys: seq<real>)
    requires xs != []
    ensures |ys| == |xs|
  {
    seq(|xs|, i requires 0 <= i < |xs| => if xs[i] >= Threshold(xs, k, std) then xs[i] else 0.0)
  }

  /** Entries at or above mean + k std come through unchanged, all others become zero. */
  lemma TopKSelects(xs: seq<real>, k: real, std: real, t: real, i: nat)
    requires i < |xs| && t == Mean(xs) + k * std
    ensures var out := TopK(xs, k, std)[i];
      && (xs[i] >= t ==> out == xs[i])
      && (out != 0.0 ==> out == xs[i])
      && (out == 0.0 <==> xs[i] == 0.0 || xs[i] < t)
  {
    assert t == Threshold(xs, k, std);
  }

  lemma {:induction false} SelectedDot(xs: seq<real>, out: seq<real>)
    requires |xs| == |out| && forall i :: 0 <= i < |xs| ==> out[i] == xs[i] || out[i] == 0.0
    ensures Dot(out, xs) == Dot(out, out)
  {
    if xs != [] {
      var n := |xs| - 1;
      SelectedDot(xs[..n], out[..n]);
      assert out[n] * xs[n] == out[n] * out[n];
    }
  }

  /** So the output is the projection of the input on the surviving entries. */
  lemma TopKProjects(xs: seq<real>, k: real, std: real)
    requires xs != []
    ensures Dot(TopK(xs, k, std), xs) == Dot(TopK(xs, k, std), TopK(xs, k, std))
  {
    var out := TopK(xs, k, std);
    forall i | 0 <= i < |xs| ensures out[i] == xs[i] || out[i] == 0.0 {
      TopKSelects(xs, k, std, Mean(xs) + k * std, i);
    }
    SelectedDot(xs, out);
  }

  /** How many entries stand at or above a threshold. */
  function Survivors(xs: seq<real>, t: real): nat {
    if xs == [] then 0 else Survivors(xs[..|xs| - 1], t) + if xs[|xs| - 1] >= t then 1 else 0
  }

  function NonZeros(ys: seq<real>): nat {
    if ys == [] then 0 else NonZeros(ys[..|ys| - 1]) + if ys[|ys| - 1] != 0.0 then 1 else 0
  }

  /** At most the survivors stay non-zero. */
  lemma NonZerosSurvive(xs: seq<real>, k: real, std: real)
    requires xs != []
    ensures NonZeros(TopK(xs, k, std)) <= Survivors(xs, Threshold(xs, k, std))
  {
    NonZerosAmong(xs, TopK(xs, k, std), Threshold(xs, k, std));
  }

  lemma {:induction false} NonZerosAmong(xs: seq<real>, ys: seq<real>, t: real)
    requires |xs| == |ys| && forall i :: 0 <= i < |xs| ==> ys[i] == if xs[i] >= t then xs[i] else 0.0
    ensures NonZeros(ys) <= Survivors(xs, t)
  {
    if xs != [] {
      NonZerosAmong(xs[..|xs| - 1], ys[..|ys| - 1], t);
    }
  }

  /** The sum of (k d + s)^2 over the deviations d, and how much of it survivors
      contribute. */
  function Shifted(xs: seq<real>, mean: real, k: real, s: real): real {
    if xs == [] then 0.0
    else Shifted(xs[..|xs| - 1], mean, k, s) + Term(xs[|xs| - 1], mean, k, s)
  }

  lemma ExpandTerm(x: real, mean: real, k: real, s: real, k2: real, c: real, s2: real)
    requires k2 == k * k && c == 2.0 * k * s && s2 == s * s
    ensures Term(x, mean, k, s) == k2 * Sq(x - mean) + c * (x - mean) + s2
  {
    var d := x - mean;
    assert (k * d + s) * (k * d + s) == k2 * (d * d) + c * d + s2;
  }

  /** The sum of the deviations. */
  function Drift(xs: seq<real>, mean: real): real {
    if xs == [] then 0.0 else Drift(xs[..|xs| - 1], mean) + (xs[|xs| - 1] - mean)
  }

  lemma {:induction false} DriftIs(xs: seq<real>, mean: real)
    ensures Drift(xs, mean) == Sum(xs) - |xs| as real * mean
  {
    if xs != [] {
      DriftIs(xs[..|xs| - 1], mean);
      OneMore(|xs| - 1, mean);
    }
  }

  lemma {:induction false} ShiftedIs(
      xs: seq<real>, mean: real, k: real, s: real, k2: real, c: real, s2: real, n: nat)
    requires k2 == k * k && c == 2.0 * k * s && s2 == s * s && n == |xs|
    ensures Shifted(xs, mean, k, s) == k2 * SquaredDeviations(xs, mean) + c * Drift(xs, mean) + n as real * s2
    decreases n
  {
    if n > 0 {
      var before, x := xs[..n - 1], xs[n - 1];
      ShiftedIs(before, mean, k, s, k2, c, s2, n - 1);
      ExpandTerm(x, mean, k, s, k2, c, s2);
      Collect(k2, c, s2, SquaredDeviations(before, mean), Drift(before, mean), n - 1, Sq(x - mean), x - mean,
              SquaredDeviations(xs, mean), Drift(xs, mean), n);
    } else {
      Collected(k2, c, s2);
    }
  }

  lemma Collected(k2: real, c: real, s2: real)
    ensures k2 * 0.0 + c * 0.0 + 0 as real * s2 == 0.0
  {
  }

  lemma Collect(k2: real, c: real, s2: real, sd: real, b: real, n: nat, sq: real, d: real, sd': real, b': real,
                next: nat)
    requires sd' == sd + sq && b' == b + d && next == n + 1
    ensures k2 * sd' + c * b' + next as real * s2
         == (k2 * sd + c * b + n as real * s2) + (k2 * sq + c * d + s2)
  {
  }

  lemma SquareMono(a: real, b: real)
    requires 0.0 <= a <= b
    ensures a * a <= b * b
  {
    assert a * a <= a * b <= b * b;
  }

  /** What one survivor contributes. */
  function Share(k: real, s: real): real {
    Sq(s * (k * k + 1.0))
  }

  lemma OneSurvivor(x: real, mean: real, k: real, s: real)
    requires k > 0.0 && s > 0.0 && x >= mean + k * s
    ensures Term(x, mean, k, s) >= Share(k, s)
  {
    var d := x - mean;
    var c := s * (k * k + 1.0);
    assert k * d >= k * (k * s);
    assert k * (k * s) + s == c;
    assert c > 0.0 by { assert k * k > 0.0; }
    SquareMono(c, k * d + s);
  }

  /** `q` for every survivor. */
  function Credit(xs: seq<real>, t: real, q: real): real {
    if xs == [] then 0.0 else Credit(xs[..|xs| - 1], t, q) + if xs[|xs| - 1] >= t then q else 0.0
  }

  lemma {:induction false} CreditIs(xs: seq<real>, t: real, q: real, m: real)
    requires m == Survivors(xs, t) as real
    ensures Credit(xs, t, q) == m * q
  {
    if xs != [] {
      var before := Survivors(xs[..|xs| - 1], t);
      CreditIs(xs[..|xs| - 1], t, q, before as real);
      OneMore(before, q);
    }
  }

  lemma OneMore(m: nat, q: real)
    ensures (m + 1) as real * q == m as real * q + q
  {
  }

  lemma {:induction false} SurvivorsContribute(xs: seq<real>, mean: real, k: real, s: real, t: real, q: real)
    requires forall x :: x >= t ==> Term(x, mean, k, s) >= q
    ensures Shifted(xs, mean, k, s) >= Credit(xs, t, q)
  {
    if xs != [] {
      SurvivorsContribute(xs[..|xs| - 1], mean, k, s, t, q);
    }
  }

  lemma ProductPositive(a: real, b: real, p: real)
    requires a > 0.0 && b > 0.0 && p == a * b
    ensures p > 0.0
  {
    assert a * b > 0.0;
  }

  lemma MeanBalances(xs: seq<real>, n: real, sum: real)
    requires xs != [] && n == |xs| as real && sum == Sum(xs)
    ensures n * Mean(xs) == sum
  {
    TimesQuotient(sum, n);
  }

  lemma VarianceBalances(xs: seq<real>, n: real, sd: real)
    requires xs != [] && n == |xs| as real && sd == SquaredDeviations(xs, Mean(xs))
    ensures n * Variance(xs) == sd
  {
    TimesQuotient(sd, n);
  }

  lemma TimesQuotient(a: real, b: real)
    requires b != 0.0
    ensures b * (a / b) == a
  {
  }

  /** m (1 + k^2) <= n */
  predicate WithinBound(m: nat, n: nat, k: real) {
    m as real * (1.0 + k * k) <= n as real
  }

  /** Cantelli's bound: whatever the vector, at most one entry in 1 + k^2 stands at or
      above mean + k std, if the standard deviation is positive. */
  lemma SparsityBound(xs: seq<real>, k: real, std: real)
    requires xs != [] && k > 0.0 && IsStd(xs, std) && std > 0.0
    ensures WithinBound(Survivors(xs, Threshold(xs, k, std)), |xs|, k)
  {
    Bounded(xs, k, std, Survivors(xs, Threshold(xs, k, std)), |xs|);
  }

  lemma Bounded(xs: seq<real>, k: real, std: real, m: nat, n: nat)
    requires xs != [] && k > 0.0 && IsStd(xs, std) && std > 0.0
    requires m == Survivors(xs, Threshold(xs, k, std)) && n == |xs|
    ensures WithinBound(m, n, k)
  {
    var k2, nr, mr := k * k, n as real, m as real;
    Balance(xs, k, std, k2, nr, mr);
    Within(m, n, k, k2, mr, nr);
  }

  lemma Within(m: nat, n: nat, k: real, k2: real, mr: real, nr: real)
    requires k2 == k * k && mr == m as real && nr == n as real && mr * (1.0 + k2) <= nr
    ensures WithinBound(m, n, k)
  {
  }

  lemma Balance(xs: seq<real>, k: real, std: real, k2: real, n: real, m: real)
    requires xs != [] && k > 0.0 && IsStd(xs, std) && std > 0.0 && k2 == k * k
    requires n == |xs| as real && m == Survivors(xs, Threshold(xs, k, std)) as real
    ensures m * (1.0 + k2) <= n
  {
    var q := Share(k, std);
    ShiftedExceeds(xs, k, std, Threshold(xs, k, std), m, q);
    var v, total := ShiftedTotal(xs, k, std, k2, n);
    CancelShare(m, n, k, std, k2, v, q, total);
  }

  lemma ShiftedExceeds(xs: seq<real>, k: real, std: real, t: real, m: real, q: real)
    requires xs != [] && k > 0.0 && std > 0.0 && t == Threshold(xs, k, std)
    requires m == Survivors(xs, t) as real && q == Share(k, std)
    ensures Shifted(xs, Mean(xs), k, std) >= m * q
  {
    var mean := Mean(xs);
    forall x | x >= t ensures Term(x, mean, k, std) >= q {
      OneSurvivor(x, mean, k, std);
    }
    SurvivorsContribute(xs, mean, k, std, t, q);
    CreditIs(xs, t, q, m);
  }

  lemma ShiftedTotal(xs: seq<real>, k: real, std: real, k2: real, n: real) returns (v: real, total: real)
    requires xs != [] && IsStd(xs, std) && k2 == k * k && n == |xs| as real
    ensures v == std * std && total == Shifted(xs, Mean(xs), k, std)
    ensures total == k2 * (n * v) + n * v
  {
    v, total := std * std, Shifted(xs, Mean(xs), k, std);
    var sd, drift, c := SquaredDeviations(xs, Mean(xs)), Drift(xs, Mean(xs)), 2.0 * k * std;
    NoDrift(xs, n, drift);
    VarianceBalances(xs, n, sd);
    ShiftedIs(xs, Mean(xs), k, std, k2, c, v, |xs|);
    TimesZero(c, drift);
  }

  lemma NoDrift(xs: seq<real>, n: real, drift: real)
    requires xs != [] && n == |xs| as real && drift == Drift(xs, Mean(xs))
    ensures drift == 0.0
  {
    MeanBalances(xs, n, Sum(xs));
    DriftIs(xs, Mean(xs));
  }

  lemma TimesZero(c: real, z: real)
    requires z == 0.0
    ensures c * z == 0.0
  {
  }

  lemma CancelShare(m: real, n: real, k: real, std: real, k2: real, v: real, q: real, total: real)
    requires std > 0.0 && v == std * std && k > 0.0 && k2 == k * k && q == Share(k, std)
    requires total == k2 * (n * v) + n * v && total >= m * q
    ensures m * (1.0 + k2) <= n
  {
    ProductPositive(k, k, k2);
    ProductPositive(std, std, v);
    ShareIs(k, std, k2, v, q);
    CancelFactor(m, n, k2, v, q, total);
  }

  lemma ShareIs(k: real, s: real, k2: real, v: real, q: real)
    requires k2 == k * k && v == s * s && q == Share(k, s)
    ensures q == v * (1.0 + k2) * (1.0 + k2)
  {
  }

  lemma CancelFactor(m: real, n: real, k2: real, v: real, q: real, total: real)
    requires k2 > 0.0 && v > 0.0 && q == v * (1.0 + k2) * (1.0 + k2)
    requires total == k2 * (n * v) + n * v && total >= m * q
    ensures m * (1.0 + k2) <= n
  {
    var w := 1.0 + k2;
    var p := v * w;
    ProductPositive(v, w, p);
    assert m * q == p * (m * w) && total == p * n;
    if m * w > n { ProductPositive(p, m * w - n, p * (m * w) - p * n); }
  }

  lemma SqZero(e: real)
    ensures Sq(e) == 0.0 <==> e == 0.0
  {
    if e > 0.0 { ProductPositive(e, e, Sq(e)); }
    if e < 0.0 { ProductPositive(-e, -e, Sq(e)); }
  }

  lemma {:induction false} DeviationsNonNegative(xs: seq<real>, mean: real)
    ensures SquaredDeviations(xs, mean) >= 0.0
  {
    if xs != [] { DeviationsNonNegative(xs[..|xs| - 1], mean); }
  }

  lemma {:induction false} NoDeviation(xs: seq<real>, mean: real)
    requires SquaredDeviations(xs, mean) <= 0.0
    ensures Survivors(xs, mean) == |xs| && forall i :: 0 <= i < |xs| ==> xs[i] == mean
    ensures SquaredDeviations(xs, mean) == 0.0
  {
    if xs != [] {
      var n := |xs| - 1;
      DeviationsNonNegative(xs[..n], mean);
      NoDeviation(xs[..n], mean);
      SqZero(xs[n] - mean);
    }
  }

  /** Without spread nothing is dropped. */
  lemma ZeroVarianceKeepsAll(xs: seq<real>, k: real)
    requires xs != [] && Variance(xs) == 0.0
    ensures IsStd(xs, 0.0)
    ensures Survivors(xs, Threshold(xs, k, 0.0)) == |xs| && TopK(xs, k, 0.0) == xs
  {
    VarianceBalances(xs, |xs| as real, SquaredDeviations(xs, Mean(xs)));
    NoDeviation(xs, Mean(xs));
  }

  /** For the constant of the code at most 27 entries in 100 stay non-zero. */
  lemma CodeSparsity(xs: seq<real>, std: real)
    requires xs != [] && IsStd(xs, std) && std > 0.0
    ensures NonZeros(TopK(xs, SIGMA, std)) as real <= 0.27 * |xs| as real
  {
    NonZerosSurvive(xs, SIGMA, std);
    SparsityBound(xs, SIGMA, std);
  }

  // ----- the bound is sharp

  /** `m` ones, then zeros. */
  function Spikes(m: nat, n: nat): (xs: seq<real>)
    ensures |xs| == n
  {
    seq(n, i => if i < m then 1.0 else 0.0)
  }

  lemma {:induction false} SpikesSums(m: nat, n: nat, j: nat, t: real)
    requires m <= n && j <= n
    ensures var xs, ones, zeros := Spikes(m, n)[..j], if j <= m then j else m, if j <= m then 0 else j - m;
      && Sum(xs) == ones as real
      && Survivors(xs, t) == (if 1.0 >= t then ones else 0) + (if 0.0 >= t then zeros else 0)
  {
    if j > 0 {
      var xs := Spikes(m, n);
      SpikesSums(m, n, j - 1, t);
      assert xs[..j][..j - 1] == xs[..j - 1];
    }
  }

  lemma {:induction false} SpikesDeviations(m: nat, n: nat, j: nat, mean: real, a: real, b: real)
    requires m <= n && j <= n && a == Sq(1.0 - mean) && b == Sq(0.0 - mean)
    ensures var ones, zeros := if j <= m then j else m, if j <= m then 0 else j - m;
      SquaredDeviations(Spikes(m, n)[..j], mean) == ones as real * a + zeros as real * b
  {
    if j > 0 {
      var xs := Spikes(m, n);
      SpikesDeviations(m, n, j - 1, mean, a, b);
      assert xs[..j][..j - 1] == xs[..j - 1];
      assert SquaredDeviations(xs[..j], mean) == SquaredDeviations(xs[..j - 1], mean) + if j <= m then a else b;
      if j <= m { OneMore(j - 1, a); } else { OneMore(j - 1 - m, b); }
    }
  }

  /** The variance of m ones among n entries is (m/n)(1 - m/n). */
  lemma SpikesVariance(m: nat, n: nat, p: real)
    requires 0 < m < n && p == m as real / n as real
    ensures Mean(Spikes(m, n)) == p && Variance(Spikes(m, n)) == p * (1.0 - p)
  {
    var xs := Spikes(m, n);
    assert xs[..n] == xs;
    SpikesSums(m, n, n, 0.0);
    SpikesDeviations(m, n, n, p, Sq(1.0 - p), Sq(0.0 - p));
    TimesQuotient(m as real, n as real);
    var nr, sd := n as real, SquaredDeviations(xs, p);
    assert (n - m) as real == nr - m as real;
    SpikesTotal(nr, p, m as real, (n - m) as real, sd);
    QuotientIs(sd, nr, p * (1.0 - p));
  }

  lemma SpikesTotal(n: real, p: real, m: real, z: real, sd: real)
    requires m == n * p && z == n - m && sd == m * Sq(1.0 - p) + z * Sq(0.0 - p)
    ensures sd == n * (p * (1.0 - p))
  {
    assert z == n * (1.0 - p);
    var q := 1.0 - p;
    assert sd == (n * p) * (q * q) + (n * q) * (p * p);
    assert (n * p) * (q * q) + (n * q) * (p * p) == n * (p * q) * (q + p);
  }

  lemma QuotientIs(a: real, b: real, c: real)
    requires b != 0.0 && a == b * c
    ensures a / b == c
  {
  }

  /** The bound cannot be improved: m ones among n entries survive exactly when
      m (1 + k^2) <= n. */
  lemma BoundIsSharp(m: nat, n: nat, k: real, std: real)
    requires 0 < m < n && k > 0.0 && IsStd(Spikes(m, n), std)
    ensures Survivors(Spikes(m, n), Threshold(Spikes(m, n), k, std)) == m <==> WithinBound(m, n, k)
    ensures Survivors(Spikes(m, n), Threshold(Spikes(m, n), k, std)) in {0, m}
  {
    var xs, p := Spikes(m, n), m as real / n as real;
    SpikesVariance(m, n, p);
    TimesQuotient(m as real, n as real);
    var t := Threshold(xs, k, std);
    assert xs[..n] == xs;
    SpikesSums(m, n, n, t);
    SharpCount(m, n, p, k, std, t);
  }

  /** The spikes of height one survive a threshold p + k std exactly at the bound. */
  lemma SharpCount(m: nat, n: nat, p: real, k: real, std: real, t: real)
    requires 0 < m < n && n as real * p == m as real
    requires k > 0.0 && std >= 0.0 && std * std == p * (1.0 - p) && t == p + k * std
    ensures t > 0.0
    ensures 1.0 >= t <==> WithinBound(m, n, k)
  {
    FractionBounds(m, n, p);
    SharpThreshold(p, k, std);
    ScaledBound(m as real, n as real, p, k * k);
  }

  lemma FractionBounds(m: nat, n: nat, p: real)
    requires 0 < m < n && n as real * p == m as real
    ensures 0.0 < p < 1.0
  {
  }

  lemma ScaledBound(m: real, n: real, p: real, k2: real)
    requires n > 0.0 && m == n * p
    ensures m * (1.0 + k2) <= n <==> p * (1.0 + k2) <= 1.0
  {
    var r := p * (1.0 + k2);
    assert m * (1.0 + k2) == n * r;
    if r <= 1.0 { assert n * r <= n; } else { ProductPositive(n, r - 1.0, n * r - n); }
  }

  /** One spike stands at or above p + k std exactly when p (1 + k^2) <= 1. */
  lemma SharpThreshold(p: real, k: real, std: real)
    requires 0.0 < p < 1.0 && k > 0.0 && std >= 0.0 && std * std == p * (1.0 - p)
    ensures p + k * std > 0.0
    ensures 1.0 >= p + k * std <==> p * (1.0 + k * k) <= 1.0
  {
    var q, h, k2 := 1.0 - p, k * std, k * k;
    assert h >= 0.0;
    var h2, q2 := h * h, q * q;
    assert h2 == k2 * (p * q) by { assert h2 == k2 * (std * std); }
    assert h2 == q * (k2 * p) && q2 == q * q;
    if q >= h {
      SquareMono(h, q);
      if k2 * p > q { ProductPositive(q, k2 * p - q, h2 - q2); }
    } else {
      SquareStrict(q, h);
      if k2 * p <= q { assert q * (k2 * p) <= q * q; }
    }
    assert p * (1.0 + k2) == p + k2 * p;
  }

  lemma SquareStrict(a: real, b: real)
    requires 0.0 < a < b
    ensures a * a < b * b
  {
    ProductPositive(b - a, b + a, b * b - a * a);
  }

  // ----- which constants keep which promise

  predicate AtMost(m: nat, n: nat, c: real) {
    m as real <= c * n as real
  }

  /** Every vector with spread keeps at most the fraction c of its entries non-zero. */
  ghost predicate KeepsAtMost(k: real, c: real) {
    forall xs, std | xs != [] && IsStd(xs, std) && std > 0.0 :: AtMost(NonZeros(TopK(xs, k, std)), |xs|, c)
  }

  /** Some a / b at or above k is still small enough: the reals have no gap there. */
  lemma FractionAbove(k: real, c: real, k2: real, gap: real, d: real)
    returns (a: nat, b: nat, x: real, y: real, x2: real, y2: real)
    requires k > 0.0 && k2 == k * k && gap == 1.0 - c * (1.0 + k2) && gap > 0.0 && d == c * (2.0 * k + 1.0)
    ensures a > 0 && b > 0 && x == a as real && y == b as real && x2 == x * x && y2 == y * y
    ensures x >= k * y && c * (x2 + y2) < y2
  {
    b := EnoughSteps(c, k, gap, d);
    a := StepsAbove(k, b);
    x, y := a as real, b as real;
    x2, y2 := x * x, y * y;
    FractionFits(k, c, x, y, k2, x2, y2, gap, d);
  }

  lemma EnoughSteps(c: real, k: real, gap: real, d: real) returns (b: nat)
    requires k > 0.0 && gap > 0.0 && d == c * (2.0 * k + 1.0)
    ensures b >= 1 && (c > 0.0 ==> d < gap * b as real)
  {
    if c <= 0.0 {
      b := 1;
    } else {
      ProductPositive(c, 2.0 * k + 1.0, d);
      var n := (d / gap).Floor + 1;
      AboveQuotient(d, gap, n);
      b := n;
    }
  }

  lemma StepsAbove(k: real, b: nat) returns (a: nat)
    requires k > 0.0 && b >= 1
    ensures a >= 1 && k * b as real < a as real <= k * b as real + 1.0
  {
    var h := k * b as real;
    ProductPositive(k, b as real, h);
    a := h.Floor + 1;
  }

  lemma FractionFits(k: real, c: real, a: real, b: real, k2: real, a2: real, b2: real, gap: real, d: real)
    requires k > 0.0 && a > 0.0 && b >= 1.0 && k * b < a <= k * b + 1.0
    requires k2 == k * k && a2 == a * a && b2 == b * b
    requires gap == 1.0 - c * (1.0 + k2) && d == c * (2.0 * k + 1.0) && (c > 0.0 ==> d < gap * b)
    ensures c * (a2 + b2) < b2
  {
    ProductPositive(a, a, a2);
    ProductPositive(b, b, b2);
    SquareAbove(k, a, b, k2, a2, b2);
    if c <= 0.0 { NonPositiveTimes(c, a2 + b2); } else { BelowGap(k, c, k2, a2, b, b2, gap, d); }
  }

  lemma AboveQuotient(d: real, gap: real, b: int)
    requires gap > 0.0 && d >= 0.0 && b == (d / gap).Floor + 1
    ensures b >= 1 && d < gap * b as real
  {
    var q := d / gap;
    assert q >= 0.0;
    TimesQuotient(d, gap);
    ProductPositive(gap, b as real - q, gap * (b as real - q));
  }

  lemma SquareAbove(k: real, a: real, b: real, k2: real, a2: real, b2: real)
    requires k > 0.0 && b >= 1.0 && k * b < a <= k * b + 1.0 && k2 == k * k && a2 == a * a && b2 == b * b
    ensures a2 <= k2 * b2 + (2.0 * k + 1.0) * b
  {
    var h := k * b;
    SquareMono(a, h + 1.0);
    assert (h + 1.0) * (h + 1.0) == h * h + 2.0 * h + 1.0;
    assert h * h == k2 * b2;
    assert (2.0 * k + 1.0) * b == 2.0 * h + b;
  }

  lemma NonPositiveTimes(c: real, x: real)
    requires c <= 0.0 && x > 0.0
    ensures c * x <= 0.0
  {
  }

  lemma BelowGap(k: real, c: real, k2: real, a2: real, b: real, b2: real, gap: real, d: real)
    requires c > 0.0 && b > 0.0 && b2 == b * b && gap == 1.0 - c * (1.0 + k2) && d == c * (2.0 * k + 1.0)
    requires a2 <= k2 * b2 + (2.0 * k + 1.0) * b && d < gap * b
    ensures c * (a2 + b2) < b2
  {
    var w, e := 1.0 + k2, (2.0 * k + 1.0) * b;
    assert a2 + b2 <= w * b2 + e;
    TimesMonotone(c, a2 + b2, w * b2 + e);
    assert c * (w * b2 + e) == c * w * b2 + c * e;
    assert c * e == d * b;
    TimesStrict(b, d, gap * b);
    assert (gap * b) * b == gap * b2;
    assert c * w * b2 == b2 - gap * b2;
  }

  lemma TimesMonotone(c: real, x: real, y: real)
    requires c > 0.0 && x <= y
    ensures c * x <= c * y
  {
  }

  lemma TimesStrict(c: real, x: real, y: real)
    requires c > 0.0 && x < y
    ensures x * c < y * c
  {
    ProductPositive(c, y - x, c * (y - x));
  }

  /** b^2 ones among a^2 + b^2 entries have the rational deviation ab / (a^2 + b^2). */
  lemma SpikesStd(a: nat, b: nat, m: nat, n: nat, x: real, y: real, nr: real, std: real)
    requires a > 0 && b > 0 && m == b * b && n == a * a + b * b
    requires x == a as real && y == b as real && nr == n as real && std == (x * y) / nr
    ensures 0 < m < n && std > 0.0 && IsStd(Spikes(m, n), std)
  {
    SquareCast(a, x);
    SquareCast(b, y);
    ProductPositive(x, y, x * y);
    var p := m as real / nr;
    SpikesVariance(m, n, p);
    PositiveQuotient(x * y, nr, std);
    RationalRoot(x, y, x * x, y * y, nr, p, std);
  }

  lemma SquareCast(a: nat, x: real)
    requires x == a as real
    ensures (a * a) as real == x * x && (a > 0 ==> a * a > 0)
  {
  }

  lemma PositiveQuotient(a: real, b: real, q: real)
    requires a > 0.0 && b > 0.0 && q == a / b
    ensures q > 0.0 && b * q == a
  {
    TimesQuotient(a, b);
    if q <= 0.0 { NonPositiveTimes(q, b); }
  }

  lemma RationalRoot(x: real, y: real, x2: real, y2: real, n: real, p: real, std: real)
    requires x2 == x * x && y2 == y * y && n == x2 + y2 && n > 0.0
    requires p == y2 / n && std == (x * y) / n
    ensures std * std == p * (1.0 - p)
  {
    TimesQuotient(y2, n);
    TimesQuotient(x * y, n);
    var n2 := n * n;
    ProductPositive(n, n, n2);
    assert n2 * (std * std) == (n * std) * (n * std) == (x * y) * (x * y) == x2 * y2;
    assert n * (1.0 - p) == x2;
    assert n2 * (p * (1.0 - p)) == (n * p) * (n * (1.0 - p)) == y2 * x2;
    CancelTimes(n2, std * std, p * (1.0 - p));
  }

  lemma CancelTimes(c: real, x: real, y: real)
    requires c > 0.0 && c * x == c * y
    ensures x == y
  {
    if x < y { TimesStrict(c, x, y); }
    if y < x { TimesStrict(c, y, x); }
  }

  lemma {:induction false} SpikesNonZeros(m: nat, n: nat, j: nat)
    requires m <= n && j <= n
    ensures NonZeros(Spikes(m, n)[..j]) == if j <= m then j else m
  {
    if j > 0 {
      SpikesNonZeros(m, n, j - 1);
      assert Spikes(m, n)[..j][..j - 1] == Spikes(m, n)[..j - 1];
    }
  }

  /** Spikes that reach the threshold come through unchanged. */
  lemma SpikesKept(m: nat, n: nat, k: real, std: real)
    requires 0 < m < n && k > 0.0 && IsStd(Spikes(m, n), std)
    requires WithinBound(m, n, k)
    ensures NonZeros(TopK(Spikes(m, n), k, std)) == m
  {
    var xs, p := Spikes(m, n), m as real / n as real;
    SpikesVariance(m, n, p);
    TimesQuotient(m as real, n as real);
    SharpCount(m, n, p, k, std, Threshold(xs, k, std));
    assert TopK(xs, k, std) == xs;
    SpikesNonZeros(m, n, n);
    assert xs[..n] == xs;
  }

  /** A threshold of k deviations keeps at most the fraction c of every vector with
      spread exactly when c (1 + k^2) reaches one: no smaller fraction can be promised. */
  lemma KeepsAtMostIff(k: real, c: real)
    requires k > 0.0
    ensures KeepsAtMost(k, c) <==> c * (1.0 + k * k) >= 1.0
  {
    if c * (1.0 + k * k) >= 1.0 {
      forall xs, std | xs != [] && IsStd(xs, std) && std > 0.0
        ensures AtMost(NonZeros(TopK(xs, k, std)), |xs|, c)
      {
        KeepsFraction(xs, k, std, c);
      }
    } else {
      var xs, std := TooMany(k, c);
    }
  }

  lemma KeepsFraction(xs: seq<real>, k: real, std: real, c: real)
    requires xs != [] && IsStd(xs, std) && std > 0.0 && k > 0.0 && c * (1.0 + k * k) >= 1.0
    ensures AtMost(NonZeros(TopK(xs, k, std)), |xs|, c)
  {
    var t := Threshold(xs, k, std);
    NonZerosSurvive(xs, k, std);
    SparsityBound(xs, k, std);
    AtMostFraction(NonZeros(TopK(xs, k, std)), Survivors(xs, t), |xs|, k, c);
  }

  lemma AtMostFraction(z: nat, m: nat, n: nat, k: real, c: real)
    requires z <= m && n > 0 && WithinBound(m, n, k) && k > 0.0 && c * (1.0 + k * k) >= 1.0
    ensures AtMost(z, n, c)
  {
    ProductPositive(k, k, k * k);
    FractionOf(m as real, n as real, 1.0 + k * k, c);
  }

  lemma FractionOf(m: real, n: real, w: real, c: real)
    requires m * w <= n && w > 0.0 && c * w >= 1.0 && n > 0.0
    ensures m <= c * n
  {
    if c * n < m {
      TimesStrict(w, c * n, m);
      assert (c * n) * w == n * (c * w);
      TimesMonotone(n, 1.0, c * w);
    }
  }

  /** A vector that keeps more than the fraction c. */
  lemma TooMany(k: real, c: real) returns (xs: seq<real>, std: real)
    requires k > 0.0 && c * (1.0 + k * k) < 1.0
    ensures xs != [] && IsStd(xs, std) && std > 0.0
    ensures !AtMost(NonZeros(TopK(xs, k, std)), |xs|, c)
  {
    var k2 := k * k;
    var a, b, x, y, x2, y2 := FractionAbove(k, c, k2, 1.0 - c * (1.0 + k2), c * (2.0 * k + 1.0));
    var m, n, mr, nr := Sizes(a, b, x, y, x2, y2);
    xs, std := Spikes(m, n), (x * y) / nr;
    SpikesStd(a, b, m, n, x, y, nr, std);
    KStepsBelow(k, x, y, m, n, mr, nr);
    SpikesKept(m, n, k, std);
  }

  lemma Sizes(a: nat, b: nat, x: real, y: real, x2: real, y2: real)
    returns (m: nat, n: nat, mr: real, nr: real)
    requires x == a as real && y == b as real && x2 == x * x && y2 == y * y
    ensures m == b * b && n == a * a + b * b && mr == m as real && nr == n as real
    ensures mr == y2 && nr == x2 + y2
  {
    m, n := b * b, a * a + b * b;
    mr, nr := m as real, n as real;
    SquareCast(a, x);
    SquareCast(b, y);
  }

  lemma KStepsBelow(k: real, a: real, b: real, m: nat, n: nat, mr: real, nr: real)
    requires k > 0.0 && b > 0.0 && a >= k * b && mr == b * b && nr == a * a + b * b
    requires mr == m as real && nr == n as real
    ensures WithinBound(m, n, k)
  {
    var h := k * b;
    ProductPositive(k, b, h);
    SquareMono(h, a);
    assert h * h == k * k * (b * b);
    assert (b * b) * (1.0 + k * k) == b * b + k * k * (b * b);
  }

  /** The documented "about 95% of the entries become zero" is a law exactly for
      constants whose square is at least nineteen. */
  lemma NinetyFivePercentIff(k: real)
    requires k > 0.0
    ensures KeepsAtMost(k, 0.05) <==> k * k >= 19.0
  {
    KeepsAtMostIff(k, 0.05);
  }

  /** For the constant of the code the least fraction that can be promised is
      40000 / 148241, just under 27 in 100. */
  lemma CodeSparsityIsSharp(c: real)
    ensures KeepsAtMost(SIGMA, c) <==> c >= 40000.0 / 148241.0
  {
    KeepsAtMostIff(SIGMA, c);
    assert 1.0 + SIGMA * SIGMA == 148241.0 / 40000.0;
  }

  /** So it is no law of the code; one input that shows it keeps one entry in five. */
  lemma NinetyFivePercentFails()
    ensures !KeepsAtMost(SIGMA, 0.05)
    ensures IsStd(Spikes(1, 5), 0.4) && NonZeros(TopK(Spikes(1, 5), SIGMA, 0.4)) == 1
  {
    NinetyFivePercentIff(SIGMA);
    SpikesVariance(1, 5, 0.2);
    SpikesKept(1, 5, SIGMA, 0.4);
  }
}
