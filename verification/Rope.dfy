/** Rotary position embedding, `rope_rotate` in `sw/runtime/gemma/ops.py`.

    Cosine and sine are any tables that obey the angle-difference laws; what is
    proved is that attention scores then depend on relative positions only, also in
    layers that read the keys of another layer. */
module Rope {
  import opened Reals
  import opened GemmaArch

  /** cos and sin of position times the inverse frequency of a pair, by angle base,
      pair and position. */
  datatype Table = Table(cos: (real, nat, int) -> real, sin: (real, nat, int) -> real)

  predicate DifferenceLaw(t: Table, theta: real, i: nat, a: int, b: int) {
    && t.cos(theta, i, a - b)
         == t.cos(theta, i, a) * t.cos(theta, i, b) + t.sin(theta, i, a) * t.sin(theta, i, b)
    && t.sin(theta, i, a - b)
         == t.sin(theta, i, a) * t.cos(theta, i, b) - t.cos(theta, i, a) * t.sin(theta, i, b)
  }

  ghost predicate IsTrig(t: Table) {
    && (forall theta, i, a, b :: DifferenceLaw(t, theta, i, a, b))
    && (forall theta, i :: t.cos(theta, i, 0) == 1.0)
  }

  /** One head rotated: pair i is (x[2i], x[2i+1]). */
  function Rotated(t: Table, theta: real, x: seq<real>, pos: nat): (y: seq<real>)
    requires |x| % 2 == 0
    ensures |y| == |x|
  {
    seq(|x|, j requires 0 <= j < |x| => RotatedSlot(t, theta, x, pos, j))
  }

  function RotatedSlot(t: Table, theta: real, x: seq<real>, pos: nat, j: nat): real
    requires |x| % 2 == 0 && j < |x|
  {
    var i := j / 2;
    if j % 2 == 0 then EvenSlot(t, theta, i, pos, x[j], x[j + 1])
    else OddSlot(t, theta, i, pos, x[j - 1], x[j])
  }

  function EvenSlot(t: Table, theta: real, i: nat, pos: nat, even: real, odd: real): real {
    even * t.cos(theta, i, pos) - odd * t.sin(theta, i, pos)
  }

  function OddSlot(t: Table, theta: real, i: nat, pos: nat, even: real, odd: real): real {
    even * t.sin(theta, i, pos) + odd * t.cos(theta, i, pos)
  }

  ghost function Head(a: array2<real>, h: nat): (x: seq<real>)
    requires h < a.Length0
    reads a
    ensures |x| == a.Length1
  {
    seq(a.Length1, j requires 0 <= j < a.Length1 reads a => a[h, j])
  }

  /** `rope_rotate` over all heads of a vector: the even slots of the new buffer are
      filled, then the odd ones. */
  method RopeRotate(t: Table, heads: array2<real>, layer: nat, pos: nat) returns (rotated: array2<real>)
    requires heads.Length1 % 2 == 0
    ensures fresh(rotated) && rotated.Length0 == heads.Length0 && rotated.Length1 == heads.Length1
    ensures forall h :: 0 <= h < heads.Length0 ==>
      Head(rotated, h) == Rotated(t, Theta(layer), Head(heads, h), pos)
  {
    var theta := Theta(layer);
    rotated := new real[heads.Length0, heads.Length1];
    forall h, j | 0 <= h < heads.Length0 && 0 <= j < heads.Length1 && j % 2 == 0 {
      rotated[h, j] := EvenSlot(t, theta, j / 2, pos, heads[h, j], heads[h, j + 1]);
    }
    forall h, j | 0 <= h < heads.Length0 && 0 <= j < heads.Length1 && j % 2 == 1 {
      rotated[h, j] := OddSlot(t, theta, j / 2, pos, heads[h, j - 1], heads[h, j]);
    }
    forall h | 0 <= h < heads.Length0
      ensures Head(rotated, h) == Rotated(t, theta, Head(heads, h), pos)
    {
      HeadIsRotated(t, theta, heads, rotated, h, pos);
    }
  }

  /** Each pair is turned by the angle of its position, as a point of the plane is. */
  lemma PairIsTurned(t: Table, theta: real, x: seq<real>, pos: nat, i: nat, c: real, s: real)
    requires |x| % 2 == 0 && 2 * i < |x| && c == t.cos(theta, i, pos) && s == t.sin(theta, i, pos)
    ensures var y := Rotated(t, theta, x, pos);
      y[2 * i] == x[2 * i] * c - x[2 * i + 1] * s && y[2 * i + 1] == x[2 * i] * s + x[2 * i + 1] * c
  {
    PairOf(t, theta, x, pos, 2 * i, i);
  }

  lemma HeadIsRotated(t: Table, theta: real, heads: array2<real>, rotated: array2<real>, h: nat, pos: nat)
    requires heads.Length1 % 2 == 0 && h < heads.Length0
    requires rotated.Length0 == heads.Length0 && rotated.Length1 == heads.Length1
    requires forall j :: 0 <= j < heads.Length1 && j % 2 == 0 ==>
      rotated[h, j] == EvenSlot(t, theta, j / 2, pos, heads[h, j], heads[h, j + 1])
    requires forall j :: 0 <= j < heads.Length1 && j % 2 == 1 ==>
      rotated[h, j] == OddSlot(t, theta, j / 2, pos, heads[h, j - 1], heads[h, j])
    ensures Head(rotated, h) == Rotated(t, theta, Head(heads, h), pos)
  {
    var x := Head(heads, h);
    forall j | 0 <= j < |x| ensures rotated[h, j] == RotatedSlot(t, theta, x, pos, j) {
    }
  }

  // ----- the score of a rotated query and a rotated key

  /** What one pair contributes at relative position d: the plain product turned by
      the angle of d. */
  function PairScore(t: Table, theta: real, i: nat, qe: real, qo: real, ke: real, ko: real, d: int): real {
    (qe * ke + qo * ko) * t.cos(theta, i, d) + (qe * ko - qo * ke) * t.sin(theta, i, d)
  }

  /** The score at relative position d, with no absolute position in it. */
  function RelativeScore(t: Table, theta: real, q: seq<real>, k: seq<real>, d: int): real
    requires |q| == |k| && |q| % 2 == 0
  {
    if q == [] then 0.0
    else
      var n := |q| - 2;
      RelativeScore(t, theta, q[..n], k[..n], d)
      + PairScore(t, theta, n / 2, q[n], q[n + 1], k[n], k[n + 1], d)
  }

  /** Two rotations cancel to one: with c, s the cosine and sine at m and C, S those
      at n. */
  lemma PairTurns(qe: real, qo: real, ke: real, ko: real, c: real, s: real, C: real, S: real)
    ensures (qe * c - qo * s) * (ke * C - ko * S) + (qe * s + qo * c) * (ke * S + ko * C)
         == (qe * ke + qo * ko) * (c * C + s * S) + (qe * ko - qo * ke) * (s * C - c * S)
  {
    var a, b, e, f := qe * ke, qe * ko, qo * ke, qo * ko;
    var x, y, z, w := c * C, c * S, s * C, s * S;
    assert (qe * c - qo * s) * (ke * C - ko * S) == a * x - b * y - e * z + f * w;
    assert (qe * s + qo * c) * (ke * S + ko * C) == a * w + b * z + e * y + f * x;
    assert (a + f) * (x + w) == a * x + a * w + f * x + f * w;
    assert (b - e) * (z - y) == b * z - b * y - e * z + e * y;
  }

  /** One pair's share of the score: a, b are the pairs of q and k rotated at m and n. */
  lemma PairScored(t: Table, theta: real, i: nat, qe: real, qo: real, ke: real, ko: real, m: nat, n: nat,
                   ae: real, ao: real, be: real, bo: real)
    requires IsTrig(t)
    requires ae == EvenSlot(t, theta, i, m, qe, qo) && ao == OddSlot(t, theta, i, m, qe, qo)
    requires be == EvenSlot(t, theta, i, n, ke, ko) && bo == OddSlot(t, theta, i, n, ke, ko)
    ensures ae * be + ao * bo == PairScore(t, theta, i, qe, qo, ke, ko, m - n)
  {
    assert DifferenceLaw(t, theta, i, m, n);
    PairTurns(qe, qo, ke, ko, t.cos(theta, i, m), t.sin(theta, i, m), t.cos(theta, i, n), t.sin(theta, i, n));
  }

  /** The products of pair l of `a` and `b` add up to the pair's score for q and k. */
  predicate PairAgrees(t: Table, theta: real, a: seq<real>, b: seq<real>, q: seq<real>, k: seq<real>, d: int, l: nat)
    requires |a| == |b| == |q| == |k| && l + 1 < |a|
  {
    a[l] * b[l] + a[l + 1] * b[l + 1] == PairScore(t, theta, l / 2, q[l], q[l + 1], k[l], k[l + 1], d)
  }

  lemma DotLastPair(a: seq<real>, b: seq<real>, n: nat, pair: real)
    requires |a| == |b| == n + 2
    requires pair == a[n] * b[n] + a[n + 1] * b[n + 1]
    ensures Dot(a, b) == Dot(a[..n], b[..n]) + pair
  {
    assert a[..n + 1][..n] == a[..n] && b[..n + 1][..n] == b[..n];
  }

  lemma {:induction false} DotByPairs(
      t: Table, theta: real, a: seq<real>, b: seq<real>, q: seq<real>, k: seq<real>, d: int)
    requires |a| == |b| == |q| == |k| && |a| % 2 == 0
    requires forall l: nat :: l + 1 < |a| && l % 2 == 0 ==> PairAgrees(t, theta, a, b, q, k, d, l)
    ensures Dot(a, b) == RelativeScore(t, theta, q, k, d)
  {
    if a != [] {
      var n := |a| - 2;
      forall l: nat | l + 1 < n && l % 2 == 0 ensures PairAgrees(t, theta, a[..n], b[..n], q[..n], k[..n], d, l) {
        assert PairAgrees(t, theta, a, b, q, k, d, l);
      }
      DotByPairs(t, theta, a[..n], b[..n], q[..n], k[..n], d);
      assert PairAgrees(t, theta, a, b, q, k, d, n);
      DotLastPair(a, b, n, a[n] * b[n] + a[n + 1] * b[n + 1]);
    }
  }

  lemma RotatedPairAgrees(t: Table, theta: real, q: seq<real>, k: seq<real>, m: nat, n: nat, l: nat)
    requires IsTrig(t) && |q| == |k| && |q| % 2 == 0 && l + 1 < |q| && l % 2 == 0
    ensures PairAgrees(t, theta, Rotated(t, theta, q, m), Rotated(t, theta, k, n), q, k, m - n, l)
  {
    var i := l / 2;
    PairOf(t, theta, q, m, l, i);
    PairOf(t, theta, k, n, l, i);
    var a, b := Rotated(t, theta, q, m), Rotated(t, theta, k, n);
    PairScored(t, theta, i, q[l], q[l + 1], k[l], k[l + 1], m, n, a[l], a[l + 1], b[l], b[l + 1]);
    AgreesByValue(t, theta, a, b, q, k, m - n, l, i, a[l], a[l + 1], b[l], b[l + 1]);
  }

  lemma AgreesByValue(t: Table, theta: real, a: seq<real>, b: seq<real>, q: seq<real>, k: seq<real>, d: int, l: nat,
                      i: nat, a0: real, a1: real, b0: real, b1: real)
    requires |a| == |b| == |q| == |k| && l + 1 < |a| && i == l / 2
    requires a[l] == a0 && a[l + 1] == a1 && b[l] == b0 && b[l + 1] == b1
    requires a0 * b0 + a1 * b1 == PairScore(t, theta, i, q[l], q[l + 1], k[l], k[l + 1], d)
    ensures PairAgrees(t, theta, a, b, q, k, d, l)
  {
  }

  lemma PairOf(t: Table, theta: real, x: seq<real>, pos: nat, l: nat, i: nat)
    requires |x| % 2 == 0 && l + 1 < |x| && l == 2 * i
    ensures Rotated(t, theta, x, pos)[l] == EvenSlot(t, theta, i, pos, x[l], x[l + 1])
    ensures Rotated(t, theta, x, pos)[l + 1] == OddSlot(t, theta, i, pos, x[l], x[l + 1])
  {
  }

  /** The dot product of a query rotated at m and a key rotated at n is a function of
      m - n. */
  lemma ScoreIsRelative(t: Table, theta: real, q: seq<real>, k: seq<real>, m: nat, n: nat)
    requires IsTrig(t) && |q| == |k| && |q| % 2 == 0
    ensures Dot(Rotated(t, theta, q, m), Rotated(t, theta, k, n)) == RelativeScore(t, theta, q, k, m - n)
  {
    forall l: nat | l + 1 < |q| && l % 2 == 0
      ensures PairAgrees(t, theta, Rotated(t, theta, q, m), Rotated(t, theta, k, n), q, k, m - n, l)
    {
      RotatedPairAgrees(t, theta, q, k, m, n, l);
    }
    DotByPairs(t, theta, Rotated(t, theta, q, m), Rotated(t, theta, k, n), q, k, m - n);
  }

  /** A score in layer `layer`: its query is rotated for the layer, the key it reads
      was rotated when the source layer stored it. */
  function LayerScore(t: Table, layer: nat, q: seq<real>, k: seq<real>, m: nat, n: nat): real
    requires |q| == |k| && |q| % 2 == 0
  {
    Dot(Rotated(t, Theta(layer), q, m), Rotated(t, Theta(KvSource(layer)), k, n))
  }

  /** In every layer, shared ones included, the score is the relative one: moving
      both positions by the same distance changes nothing. */
  lemma LayerScoreIsRelative(t: Table, layer: nat, q: seq<real>, k: seq<real>, m: nat, n: nat, m': nat, n': nat)
    requires IsTrig(t) && |q| == |k| && |q| % 2 == 0
    ensures LayerScore(t, layer, q, k, m, n) == RelativeScore(t, Theta(layer), q, k, m - n)
    ensures m - n == m' - n' ==> LayerScore(t, layer, q, k, m, n) == LayerScore(t, layer, q, k, m', n')
  {
    SourceIsOwned(layer);
    ScoreIsRelative(t, Theta(layer), q, k, m, n);
    ScoreIsRelative(t, Theta(layer), q, k, m', n');
  }

  /** With no distance the score is the plain dot product. */
  lemma ScoreInPlace(t: Table, theta: real, q: seq<real>, k: seq<real>)
    requires IsTrig(t) && |q| == |k| && |q| % 2 == 0
    ensures RelativeScore(t, theta, q, k, 0) == Dot(q, k)
  {
    forall l: nat | l + 1 < |q| && l % 2 == 0 ensures PairAgrees(t, theta, q, k, q, k, 0, l) {
      assert DifferenceLaw(t, theta, l / 2, 0, 0);
      assert t.sin(theta, l / 2, 0) == 0.0;
    }
    DotByPairs(t, theta, q, k, q, k, 0);
  }

  /** Rotation keeps every length and every angle between vectors at one position. */
  lemma RotationKeepsDot(t: Table, theta: real, x: seq<real>, y: seq<real>, pos: nat)
    requires IsTrig(t) && |x| == |y| && |x| % 2 == 0
    ensures Dot(Rotated(t, theta, x, pos), Rotated(t, theta, y, pos)) == Dot(x, y)
  {
    ScoreIsRelative(t, theta, x, y, pos, pos);
    ScoreInPlace(t, theta, x, y);
  }
}
