/** INT4 weights: nibble decoding (`sw/runtime/gemma/weights.py`), slicing a model to
    a smaller intermediate size (`scripts/local/slice_gemma_e2b.py`), and the
    feed-forward layer that uses the result (`sw/runtime/gemma/ffn.py`). */
module Int4 {
  import opened Prelude
  import opened Bits
  import opened Reals

  type Byte = b: nat | b < 256

  /** A packed uint8 matrix with one scale per row; every byte holds two weights. */
  datatype Packed = Packed(rows: seq<seq<Byte>>, cols: nat, scale: seq<real>) {
    ghost predicate Valid() {
      && |rows| == |scale|
      && forall m :: 0 <= m < |rows| ==> |rows[m]| == cols
    }
  }

  // ----- what a row of bytes means

  /** `np.where(n > 7, n - 16, n)` */
  function Signed(n: nat): int {
    if n > 7 then n - 16 else n
  }

  /** Each byte in turn gives its low nibble, then its high one. */
  function Nibbles(row: seq<Byte>): (ns: seq<int>)
    ensures |ns| == 2 * |row|
  {
    if row == [] then []
    else [Signed(And(row[0], 0x0F)), Signed(Shr(row[0], 4))] + Nibbles(row[1..])
  }

  function Weight(n: int, scale: real): real {
    n as real * scale
  }

  function Scaled(ns: seq<int>, scale: real): (xs: seq<real>)
    ensures |xs| == |ns|
  {
    seq(|ns|, i requires 0 <= i < |ns| => Weight(ns[i], scale))
  }

  function DecodedRow(w: Packed, m: nat): (xs: seq<real>)
    requires w.Valid() && m < |w.rows|
    ensures |xs| == 2 * w.cols
  {
    Scaled(Nibbles(w.rows[m]), w.scale[m])
  }

  lemma NibbleValues(b: Byte)
    ensures And(b, 0x0F) == b % 16 && Shr(b, 4) == b / 16
  {
    assert Pow2(4) == 16;
    AndMask(b, 4);
  }

  /** Even places hold low nibbles, odd ones high nibbles. */
  function NibbleOf(row: seq<Byte>, j: nat): int
    requires j < 2 * |row|
  {
    Signed(if j % 2 == 0 then And(row[j / 2], 0x0F) else Shr(row[j / 2], 4))
  }

  lemma {:induction false} NibbleAt(row: seq<Byte>, j: nat)
    requires j < 2 * |row|
    ensures Nibbles(row)[j] == NibbleOf(row, j)
  {
    if j >= 2 {
      NibbleAt(row[1..], j - 2);
      assert Nibbles(row)[j] == Nibbles(row[1..])[j - 2];
    }
  }

  /** Entry j of a decoded row is a scale times the number of -8 to 7 that its nibble
      stands for: the low one of byte j / 2 for even j, the high one for odd j. */
  lemma DecodedAt(w: Packed, m: nat, j: nat) returns (n: int)
    requires w.Valid() && m < |w.rows| && j < 2 * w.cols
    ensures DecodedRow(w, m)[j] == n as real * w.scale[m] && -8 <= n < 8
    ensures n % 16 == if j % 2 == 0 then w.rows[m][j / 2] % 16 else w.rows[m][j / 2] / 16
  {
    var row := w.rows[m];
    n := Nibbles(row)[j];
    NibbleAt(row, j);
    NibbleStandsFor(row, j, row[j / 2]);
  }

  lemma NibbleStandsFor(row: seq<Byte>, j: nat, b: Byte)
    requires j < 2 * |row| && b == row[j / 2]
    ensures -8 <= NibbleOf(row, j) < 8 && NibbleOf(row, j) % 16 == if j % 2 == 0 then b % 16 else b / 16
  {
    NibbleValues(b);
    SignedIs(b % 16);
    SignedIs(b / 16);
  }

  lemma SignedIs(n: nat)
    requires n < 16
    ensures -8 <= Signed(n) < 8 && Signed(n) % 16 == n
  {
  }

  // ----- decoding loses nothing

  /** The byte two signed nibbles came from. */
  function Repack(ns: seq<int>): (row: seq<Byte>)
    requires |ns| % 2 == 0
    ensures 2 * |row| == |ns|
  {
    if ns == [] then [] else [ns[0] % 16 + 16 * (ns[1] % 16)] + Repack(ns[2..])
  }

  lemma RepackByte(b: Byte)
    ensures Signed(And(b, 0x0F)) % 16 + 16 * (Signed(Shr(b, 4)) % 16) == b
  {
    var low, high := And(b, 0x0F), Shr(b, 4);
    assert low < 16 && high < 16 && low + 16 * high == b by { NibbleValues(b); }
    SignedUndone(low);
    SignedUndone(high);
  }

  lemma SignedUndone(n: nat)
    requires n < 16
    ensures Signed(n) % 16 == n
  {
  }

  /** Every byte is recoverable from its two decoded nibbles. */
  lemma {:induction false} RepackNibbles(row: seq<Byte>)
    ensures Repack(Nibbles(row)) == row
  {
    if row != [] {
      RepackByte(row[0]);
      assert Nibbles(row)[2..] == Nibbles(row[1..]);
      RepackNibbles(row[1..]);
    }
  }

  lemma JoinedByte(low: nat, high: nat, b: nat)
    requires low < 16 && high < 16 && b == low + 16 * high
    ensures b < 256 && And(b, 0x0F) == low && Shr(b, 4) == high
  {
    NibbleValues(b);
  }

  lemma UnpackedByte(low: int, high: int, b: nat)
    requires -8 <= low < 8 && -8 <= high < 8 && b == low % 16 + 16 * (high % 16)
    ensures b < 256 && Signed(And(b, 0x0F)) == low && Signed(Shr(b, 4)) == high
  {
    SignedResidue(low);
    SignedResidue(high);
    JoinedByte(low % 16, high % 16, b);
  }

  lemma SignedResidue(n: int)
    requires -8 <= n < 8
    ensures Signed(n % 16) == n
  {
  }

  /** Every even number of four-bit weights is the decoding of some bytes. */
  lemma {:induction false} NibblesRepack(ns: seq<int>)
    requires |ns| % 2 == 0 && forall i :: 0 <= i < |ns| ==> -8 <= ns[i] < 8
    ensures Nibbles(Repack(ns)) == ns
  {
    if ns != [] {
      UnpackedByte(ns[0], ns[1], ns[0] % 16 + 16 * (ns[1] % 16));
      NibblesRepack(ns[2..]);
      assert Repack(ns)[1..] == Repack(ns[2..]);
    }
  }

  // ----- the two decoders

  /** `_dequant_tuple` for a uint8 matrix: decode, scale each row, transpose.  Column m
      of the result is the decoding of row m. */
  method DequantTuple(w: Packed) returns (kmajor: array2<real>)
    requires w.Valid()
    ensures fresh(kmajor) && kmajor.Length0 == 2 * w.cols && kmajor.Length1 == |w.rows|
    ensures forall m, k :: 0 <= m < |w.rows| && 0 <= k < 2 * w.cols ==> kmajor[k, m] == DecodedRow(w, m)[k]
  {
    var decoded := Unpacked(w);
    kmajor := Transposed(decoded, w.scale, seq(|w.rows|, m requires 0 <= m < |w.rows| => Nibbles(w.rows[m])));
  }

  /** The nibbles of all rows as numbers: the even columns of the new array are filled,
      then the odd ones. */
  method Unpacked(w: Packed) returns (decoded: array2<real>)
    requires w.Valid()
    ensures fresh(decoded) && decoded.Length0 == |w.rows| && decoded.Length1 == 2 * w.cols
    ensures forall m, k :: 0 <= m < |w.rows| && 0 <= k < 2 * w.cols ==> decoded[m, k] == Nibbles(w.rows[m])[k] as real
  {
    decoded := new real[|w.rows|, 2 * w.cols];
    forall m, j | 0 <= m < |w.rows| && 0 <= j < 2 * w.cols && j % 2 == 0 {
      decoded[m, j] := NibbleOf(w.rows[m], j) as real;
    }
    forall m, j | 0 <= m < |w.rows| && 0 <= j < 2 * w.cols && j % 2 == 1 {
      decoded[m, j] := NibbleOf(w.rows[m], j) as real;
    }
    forall m, k | 0 <= m < |w.rows| && 0 <= k < 2 * w.cols
      ensures decoded[m, k] == Nibbles(w.rows[m])[k] as real
    {
      NibbleAt(w.rows[m], k);
    }
  }

  /** `(decoded * scale[:, np.newaxis]).T` */
  method Transposed(decoded: array2<real>, scale: seq<real>, ghost ns: seq<seq<int>>) returns (t: array2<real>)
    requires decoded.Length0 == |scale| == |ns|
    requires forall m :: 0 <= m < |ns| ==> |ns[m]| == decoded.Length1
    requires forall m, k :: 0 <= m < |ns| && 0 <= k < decoded.Length1 ==> decoded[m, k] == ns[m][k] as real
    ensures fresh(t) && t.Length0 == decoded.Length1 && t.Length1 == decoded.Length0
    ensures forall m, k :: 0 <= m < |ns| && 0 <= k < t.Length0 ==> t[k, m] == Scaled(ns[m], scale[m])[k]
  {
    t := new real[decoded.Length1, decoded.Length0];
    forall m, k | 0 <= m < |scale| && 0 <= k < decoded.Length1 {
      t[k, m] := decoded[m, k] * scale[m];
    }
    forall m, k | 0 <= m < |ns| && 0 <= k < t.Length0 ensures t[k, m] == Weight(ns[m][k], scale[m]) {
      assert decoded[m, k] == ns[m][k] as real;
    }
  }

  /** Python's index into a sequence of n elements; None is the IndexError. */
  function PyIndex(i: int, n: nat): Option<nat> {
    if 0 <= i < n then Some(i) else if i < 0 <= i + n then Some(i + n) else None
  }

  /** `embed_row_split` for a uint8 matrix: the token's column of the K-major decode. */
  method EmbedRowSplit(w: Packed, token: int) returns (row: Option<array<real>>)
    requires w.Valid()
    ensures row.Some? <==> -|w.rows| <= token < |w.rows|
    ensures row.Some? ==>
      fresh(row.value) && row.value[..] == DecodedRow(w, if token >= 0 then token else token + |w.rows|)
  {
    var t := PyIndex(token, |w.rows|);
    if t.None? {
      return None;
    }
    var out := UnpackedRow(w.rows[t.value]);
    var scaled := ScaledBy(out, w.scale[t.value], Nibbles(w.rows[t.value]));
    return Some(scaled);
  }

  /** The even slots of the new row are filled, then the odd ones. */
  method UnpackedRow(bytes: seq<Byte>) returns (out: array<real>)
    ensures fresh(out) && out.Length == 2 * |bytes|
    ensures forall j :: 0 <= j < out.Length ==> out[j] == Nibbles(bytes)[j] as real
  {
    out := new real[2 * |bytes|];
    forall j | 0 <= j < out.Length && j % 2 == 0 {
      out[j] := NibbleOf(bytes, j) as real;
    }
    forall j | 0 <= j < out.Length && j % 2 == 1 {
      out[j] := NibbleOf(bytes, j) as real;
    }
    forall j | 0 <= j < out.Length ensures out[j] == Nibbles(bytes)[j] as real {
      NibbleAt(bytes, j);
    }
  }

  /** `out * row_scale` */
  method ScaledBy(out: array<real>, scale: real, ghost ns: seq<int>) returns (scaled: array<real>)
    requires |ns| == out.Length && forall j :: 0 <= j < out.Length ==> out[j] == ns[j] as real
    ensures fresh(scaled) && scaled[..] == Scaled(ns, scale)
  {
    scaled := new real[out.Length];
    forall j | 0 <= j < out.Length {
      scaled[j] := out[j] * scale;
    }
    forall j | 0 <= j < out.Length ensures scaled[j] == Weight(ns[j], scale) {
      assert out[j] == ns[j] as real;
    }
  }

  /** x times the decoded matrix; None is the shape error of `np.dot`. */
  function Matmul(x: seq<real>, w: Packed): Option<seq<real>>
    requires w.Valid()
  {
    if |x| != 2 * w.cols then None
    else Some(seq(|w.rows|, m requires 0 <= m < |w.rows| => Dot(x, DecodedRow(w, m))))
  }

  /** `matmul_weight`.  With the tied embedding as `w`, entry t is the dot product of
      x with the row `EmbedRowSplit` returns for token t. */
  method MatmulWeight(x: seq<real>, w: Packed) returns (y: Option<seq<real>>)
    requires w.Valid()
    ensures y == Matmul(x, w)
    ensures y.Some? ==> |y.value| == |w.rows| && |x| == 2 * w.cols
    ensures y.Some? ==> forall t :: 0 <= t < |w.rows| ==> y.value[t] == Dot(x, DecodedRow(w, t))
  {
    var matrix := DequantTuple(w);
    if |x| != matrix.Length0 {
      return None;
    }
    var out := [];
    for m := 0 to |w.rows|
      modifies {}
      invariant |out| == m && forall i :: 0 <= i < m ==> out[i] == Dot(x, DecodedRow(w, i))
    {
      var entry := DotColumn(x, matrix, m, DecodedRow(w, m));
      out := out + [entry];
    }
    assert out == Matmul(x, w).value;
    return Some(out);
  }

  /** The dot product of x and one column. */
  method DotColumn(x: seq<real>, matrix: array2<real>, m: nat, ghost column: seq<real>) returns (d: real)
    requires |x| == matrix.Length0 == |column| && m < matrix.Length1
    requires forall k :: 0 <= k < |x| ==> matrix[k, m] == column[k]
    ensures d == Dot(x, column)
  {
    d := 0.0;
    for k := 0 to |x|
      invariant d == Dot(x[..k], column[..k])
    {
      DotNext(x, column, k);
      d := d + x[k] * matrix[k, m];
    }
    assert x[..|x|] == x && column[..|x|] == column;
  }

  lemma DotNext(x: seq<real>, y: seq<real>, k: nat)
    requires |x| == |y| && k < |x|
    ensures Dot(x[..k + 1], y[..k + 1]) == Dot(x[..k], y[..k]) + x[k] * y[k]
  {
    assert x[..k + 1][..k] == x[..k] && y[..k + 1][..k] == y[..k];
  }

  // ----- slicing

  /** The end of Python's `s[:to]` on a sequence of n elements. */
  function SliceEnd(to: int, n: nat): (e: nat)
    ensures e <= n
  {
    if to >= n then n else if to >= 0 then to else if to + n > 0 then to + n else 0
  }

  /** `slice_rows_int4` */
  function SliceRows(w: Packed, target: int): (v: Packed)
    requires w.Valid()
    ensures v.Valid()
  {
    Packed(w.rows[..SliceEnd(target, |w.rows|)], w.cols, w.scale[..SliceEnd(target, |w.scale|)])
  }

  /** `slice_cols_half_int4`: half the target, rounded down, in bytes. */
  function SliceColsHalf(w: Packed, target: int): (v: Packed)
    requires w.Valid()
    ensures v.Valid()
  {
    var half := SliceEnd(target / 2, w.cols);
    Packed(seq(|w.rows|, m requires 0 <= m < |w.rows| => w.rows[m][..half]), half, w.scale)
  }

  lemma {:induction false} NibblesOfPrefix(row: seq<Byte>, n: nat)
    requires n <= |row|
    ensures Nibbles(row[..n]) == Nibbles(row)[..2 * n]
  {
    if n > 0 {
      assert row[..n][1..] == row[1..][..n - 1];
      NibblesOfPrefix(row[1..], n - 1);
      assert Nibbles(row)[2..] == Nibbles(row[1..]);
    }
  }

  /** Slicing rows and then decoding keeps the first rows of the decoding. */
  lemma SlicedRowsDecode(w: Packed, target: int, m: nat)
    requires w.Valid() && m < SliceEnd(target, |w.rows|)
    ensures DecodedRow(SliceRows(w, target), m) == DecodedRow(w, m)
  {
  }

  /** Slicing byte columns and then decoding keeps the first columns of the decoding. */
  lemma SlicedColsDecode(w: Packed, target: int, m: nat)
    requires w.Valid() && m < |w.rows|
    ensures DecodedRow(SliceColsHalf(w, target), m) == DecodedRow(w, m)[..2 * SliceEnd(target / 2, w.cols)]
  {
    var half := SliceEnd(target / 2, w.cols);
    NibblesOfPrefix(w.rows[m], half);
    ScaledPrefix(Nibbles(w.rows[m]), w.scale[m], 2 * half);
    assert SliceColsHalf(w, target).rows[m] == w.rows[m][..half];
  }

  lemma ScaledPrefix(ns: seq<int>, scale: real, n: nat)
    requires n <= |ns|
    ensures Scaled(ns[..n], scale) == Scaled(ns, scale)[..n]
  {
  }

  // ----- the feed-forward layer

  function Unit(act: real -> real, gate: real, up: real): real {
    act(gate) * up
  }

  /** `activated * up` */
  function Gated(act: real -> real, gate: seq<real>, up: seq<real>): (h: seq<real>)
    requires |gate| == |up|
    ensures |h| == |gate|
  {
    seq(|gate|, i requires 0 <= i < |gate| => Unit(act, gate[i], up[i]))
  }

  function Masked(h: seq<real>, n: nat): (h': seq<real>)
    ensures |h'| == |h|
  {
    seq(|h|, i requires 0 <= i < |h| => if i < n then h[i] else 0.0)
  }

  /** The intermediate vector; None is a shape error. */
  function Hidden(gate: Packed, up: Packed, x: seq<real>, act: real -> real): Option<seq<real>>
    requires gate.Valid() && up.Valid()
  {
    var g, u := Matmul(x, gate), Matmul(x, up);
    if g.None? || u.None? || |g.value| != |u.value| then None else Some(Gated(act, g.value, u.value))
  }

  /** `GemmaFFN.forward` on the CPU with an elementwise activation. */
  function Forward(gate: Packed, up: Packed, down: Packed, x: seq<real>, act: real -> real): Option<seq<real>>
    requires gate.Valid() && up.Valid() && down.Valid()
  {
    match Hidden(gate, up, x, act)
    case None => None
    case Some(h) => Matmul(h, down)
  }

  /** The same with the intermediate units from n on set to zero. */
  function ForwardMasked(
      gate: Packed, up: Packed, down: Packed, x: seq<real>, act: real -> real, n: nat): Option<seq<real>>
    requires gate.Valid() && up.Valid() && down.Valid()
  {
    match Hidden(gate, up, x, act)
    case None => None
    case Some(h) => Matmul(Masked(h, n), down)
  }

  lemma {:induction false} DotMasked(h: seq<real>, row: seq<real>, n: nat)
    requires |h| == |row| && n <= |h|
    ensures Dot(h[..n], row[..n]) == Dot(Masked(h, n), row)
  {
    var last := |h| - 1;
    if n == |h| {
      assert h[..n] == h == Masked(h, n) && row[..n] == row;
    } else {
      DotMasked(h[..last], row[..last], n);
      assert h[..last][..n] == h[..n] && row[..last][..n] == row[..n];
      assert Masked(h, n)[..last] == Masked(h[..last], n);
    }
  }

  /** Fewer rows give the first entries of the product. */
  lemma MatmulSliced(w: Packed, x: seq<real>, target: int, n: nat)
    requires w.Valid() && n == SliceEnd(target, |w.rows|)
    ensures Matmul(x, SliceRows(w, target))
         == if |x| != 2 * w.cols then None else Some(Matmul(x, w).value[..n])
  {
    if |x| == 2 * w.cols {
      var v := SliceRows(w, target);
      forall m | 0 <= m < n ensures Dot(x, DecodedRow(v, m)) == Matmul(x, w).value[m] {
        SlicedRowsDecode(w, target, m);
      }
      assert Matmul(x, v).value == Matmul(x, w).value[..n];
    }
  }

  lemma HiddenSliced(gate: Packed, up: Packed, x: seq<real>, act: real -> real, target: int, n: nat)
    requires gate.Valid() && up.Valid() && |gate.rows| == |up.rows|
    requires n == SliceEnd(target, |gate.rows|)
    ensures Hidden(SliceRows(gate, target), SliceRows(up, target), x, act)
         == if Hidden(gate, up, x, act).None? then None else Some(Hidden(gate, up, x, act).value[..n])
  {
    MatmulSliced(gate, x, target, n);
    MatmulSliced(up, x, target, n);
    if |x| == 2 * gate.cols == 2 * up.cols {
      var g, u := Matmul(x, gate).value, Matmul(x, up).value;
      assert Gated(act, g[..n], u[..n]) == Gated(act, g, u)[..n];
    }
  }

  lemma DownSliced(down: Packed, h: seq<real>, target: int, n: nat)
    requires down.Valid() && |h| == 2 * down.cols && n == 2 * SliceEnd(target / 2, down.cols)
    ensures Matmul(h[..n], SliceColsHalf(down, target)) == Matmul(Masked(h, n), down)
  {
    forall m | 0 <= m < |down.rows|
      ensures Dot(h[..n], DecodedRow(SliceColsHalf(down, target), m)) == Dot(Masked(h, n), DecodedRow(down, m))
    {
      SlicedColsDecode(down, target, m);
      DotMasked(h, DecodedRow(down, m), n);
    }
    assert Matmul(h[..n], SliceColsHalf(down, target)).value == Matmul(Masked(h, n), down).value;
  }

  /** The row slices and the column slice agree in size exactly for these targets. */
  lemma SlicesAgree(units: nat, target: int)
    requires units % 2 == 0
    ensures SliceEnd(target, units) == 2 * SliceEnd(target / 2, units / 2)
       <==> target % 2 == 0 || target >= units || target + units <= 0
  {
  }

  /** The sliced layer computes the full layer with every unit beyond the target set
      to zero, when the target is even (or does not cut, or cuts everything); for any
      other target it is a shape error. */
  lemma SlicingPreserves(
      gate: Packed, up: Packed, down: Packed, x: seq<real>, act: real -> real, target: int)
    requires gate.Valid() && up.Valid() && down.Valid()
    requires |gate.rows| == |up.rows| == 2 * down.cols
    ensures var units := |gate.rows|;
      var sliced := Forward(SliceRows(gate, target), SliceRows(up, target), SliceColsHalf(down, target), x, act);
      if target % 2 == 0 || target >= units || target + units <= 0
      then sliced == ForwardMasked(gate, up, down, x, act, SliceEnd(target, units))
      else sliced.None?
  {
    var units := |gate.rows|;
    var n := SliceEnd(target, units);
    SlicesAgree(units, target);
    HiddenSliced(gate, up, x, act, target, n);
    if Hidden(gate, up, x, act).Some? && n == 2 * SliceEnd(target / 2, down.cols) {
      DownSliced(down, Hidden(gate, up, x, act).value, target, n);
    }
  }

  // ----- what the layer computes

  /** The shapes of a layer fit its input. */
  ghost predicate FitsLayer(gate: Packed, up: Packed, down: Packed, x: seq<real>) {
    && gate.Valid() && up.Valid() && down.Valid()
    && |x| == 2 * gate.cols == 2 * up.cols && |gate.rows| == |up.rows| == 2 * down.cols
  }

  /** Unit i is the activation of its gate row's product, times its up row's product. */
  ghost predicate AreUnits(h: seq<real>, gate: Packed, up: Packed, x: seq<real>, act: real -> real)
    requires gate.Valid() && up.Valid() && |x| == 2 * gate.cols == 2 * up.cols && |gate.rows| == |up.rows|
  {
    && |h| == |gate.rows|
    && forall i :: 0 <= i < |h| ==> h[i] == Times(act(Dot(x, DecodedRow(gate, i))), Dot(x, DecodedRow(up, i)))
  }

  lemma HiddenAreUnits(gate: Packed, up: Packed, x: seq<real>, act: real -> real)
    requires gate.Valid() && up.Valid() && |x| == 2 * gate.cols == 2 * up.cols && |gate.rows| == |up.rows|
    ensures Hidden(gate, up, x, act).Some? && AreUnits(Hidden(gate, up, x, act).value, gate, up, x, act)
  {
  }

  /** Output o is the dot product of the units with row o of the down matrix; a layer whose
      shapes do not fit is a shape error. */
  lemma LayerComputes(gate: Packed, up: Packed, down: Packed, x: seq<real>, act: real -> real) returns (h: seq<real>)
    requires gate.Valid() && up.Valid() && down.Valid()
    ensures Forward(gate, up, down, x, act).Some? <==> FitsLayer(gate, up, down, x)
    ensures FitsLayer(gate, up, down, x) ==>
      var y := Forward(gate, up, down, x, act).value;
      && AreUnits(h, gate, up, x, act)
      && |y| == |down.rows| && forall o :: 0 <= o < |y| ==> y[o] == Dot(h, DecodedRow(down, o))
  {
    h := [];
    if FitsLayer(gate, up, down, x) {
      h := Hidden(gate, up, x, act).value;
      HiddenAreUnits(gate, up, x, act);
    }
  }

  /** A model sliced to an even number of units that it has computes the same products over
      those units only. */
  lemma SlicedComputes(gate: Packed, up: Packed, down: Packed, x: seq<real>, act: real -> real, target: nat)
    returns (h: seq<real>)
    requires FitsLayer(gate, up, down, x) && target <= |gate.rows| && target % 2 == 0
    ensures AreUnits(h, gate, up, x, act)
    ensures var y := Forward(SliceRows(gate, target), SliceRows(up, target), SliceColsHalf(down, target), x, act);
      && y.Some? && |y.value| == |down.rows|
      && forall o :: 0 <= o < |down.rows| ==> y.value[o] == Dot(h[..target], DecodedRow(down, o)[..target])
  {
    h := Hidden(gate, up, x, act).value;
    HiddenAreUnits(gate, up, x, act);
    SlicingPreserves(gate, up, down, x, act, target);
    forall o | 0 <= o < |down.rows|
      ensures Dot(Masked(h, target), DecodedRow(down, o)) == Dot(h[..target], DecodedRow(down, o)[..target])
    {
      DotMasked(h, DecodedRow(down, o), target);
    }
  }

  // ----- the layer is linear in the up matrix

  function Rescaled(w: Packed, c: real): (v: Packed)
    requires w.Valid()
    ensures v.Valid()
  {
    Packed(w.rows, w.cols, seq(|w.scale|, m requires 0 <= m < |w.scale| => Times(c, w.scale[m])))
  }

  lemma Distributes(x: real, y: real, z: real, c: real, d: real, e: real)
    requires z == Times(c, y) && e == Times(c, d)
    ensures e + x * z == Times(c, d + x * y)
  {
  }

  lemma {:induction false} DotScaled(x: seq<real>, y: seq<real>, z: seq<real>, c: real)
    requires |x| == |y| == |z| && forall i :: 0 <= i < |x| ==> z[i] == Times(c, y[i])
    ensures Dot(x, z) == Times(c, Dot(x, y))
  {
    if x != [] {
      var n := |x| - 1;
      DotScaled(x[..n], y[..n], z[..n], c);
      Distributes(x[n], y[n], z[n], c, Dot(x[..n], y[..n]), Dot(x[..n], z[..n]));
    }
  }

  lemma {:induction false} DotCommutes(x: seq<real>, y: seq<real>)
    requires |x| == |y|
    ensures Dot(x, y) == Dot(y, x)
  {
    if x != [] { DotCommutes(x[..|x| - 1], y[..|x| - 1]); }
  }

  lemma WeightScaled(n: int, s: real, c: real)
    ensures Weight(n, Times(c, s)) == Times(c, Weight(n, s))
  {
    var r := n as real;
    assert r * (c * s) == c * (r * s);
  }

  lemma RescaledDot(w: Packed, x: seq<real>, m: nat, c: real)
    requires w.Valid() && m < |w.rows| && |x| == 2 * w.cols
    ensures Dot(x, DecodedRow(Rescaled(w, c), m)) == Times(c, Dot(x, DecodedRow(w, m)))
  {
    forall i | 0 <= i < |x| ensures DecodedRow(Rescaled(w, c), m)[i] == Times(c, DecodedRow(w, m)[i]) {
      WeightScaled(Nibbles(w.rows[m])[i], w.scale[m], c);
    }
    DotScaled(x, DecodedRow(w, m), DecodedRow(Rescaled(w, c), m), c);
  }

  lemma UnitScaled(gate: Packed, up: Packed, x: seq<real>, act: real -> real, c: real, i: nat, h: real, k: real)
    requires gate.Valid() && up.Valid() && |x| == 2 * gate.cols == 2 * up.cols && i < |gate.rows| == |up.rows|
    requires h == Times(act(Dot(x, DecodedRow(gate, i))), Dot(x, DecodedRow(up, i)))
    requires k == Times(act(Dot(x, DecodedRow(gate, i))), Dot(x, DecodedRow(Rescaled(up, c), i)))
    ensures k == Times(c, h)
  {
    RescaledDot(up, x, i, c);
    ProductScaled(act(Dot(x, DecodedRow(gate, i))), Dot(x, DecodedRow(up, i)), c,
                  Dot(x, DecodedRow(Rescaled(up, c), i)), h, k);
  }

  lemma ProductScaled(a: real, u: real, c: real, v: real, h: real, k: real)
    requires v == Times(c, u) && h == Times(a, u) && k == Times(a, v)
    ensures k == Times(c, h)
  {
  }

  /** Whatever the activation, scaling the up matrix scales the output. */
  lemma UpIsLinear(gate: Packed, up: Packed, down: Packed, x: seq<real>, act: real -> real, c: real, o: nat)
    requires FitsLayer(gate, up, down, x) && o < |down.rows|
    ensures var (y, z) := (Forward(gate, up, down, x, act), Forward(gate, Rescaled(up, c), down, x, act));
      && y.Some? && z.Some? && |y.value| == |z.value| == |down.rows|
      && z.value[o] == Times(c, y.value[o])
  {
    var h := LayerComputes(gate, up, down, x, act);
    var k := LayerComputes(gate, Rescaled(up, c), down, x, act);
    forall i | 0 <= i < |h| ensures k[i] == Times(c, h[i]) {
      UnitScaled(gate, up, x, act, c, i, h[i], k[i]);
    }
    OutputScaled(h, k, DecodedRow(down, o), c);
  }

  lemma OutputScaled(h: seq<real>, k: seq<real>, row: seq<real>, c: real)
    requires |h| == |k| == |row| && forall i :: 0 <= i < |h| ==> k[i] == Times(c, h[i])
    ensures Dot(k, row) == Times(c, Dot(h, row))
  {
    DotScaled(row, h, k, c);
    DotCommutes(h, row);
    DotCommutes(k, row);
  }
}
