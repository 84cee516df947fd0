/** Bit operations on non-negative integers, and the layout of packed bit fields.

    The runtime's encoders work on Python integers, which are unbounded, so the
    bit operators are defined here on `nat` bit by bit.  The layout theorem is
    stated once, for every list of field widths, most significant field first
    (the packed-structure order of section 7.2.1 of IEEE Std 1800). */
module Bits {

  function Pow2(n: nat): (p: nat)
    ensures p > 0
  {
    if n == 0 then 1 else 2 * Pow2(n - 1)
  }

  /** `a | b` */
  function Or(a: nat, b: nat): nat {
    if a == 0 && b == 0 then 0
    else (if a % 2 == 1 || b % 2 == 1 then 1 else 0) + 2 * Or(a / 2, b / 2)
  }

  /** `a & b` */
  function And(a: nat, b: nat): nat {
    if a == 0 || b == 0 then 0
    else (if a % 2 == 1 && b % 2 == 1 then 1 else 0) + 2 * And(a / 2, b / 2)
  }

  /** `a << k` */
  function Shl(a: nat, k: nat): nat
    decreases k, a
  {
    if k == 0 then a else 2 * Shl(a, k - 1)
  }

  /** `a >> k` */
  function Shr(a: nat, k: nat): nat
    decreases k, a
  {
    if k == 0 then a else Shr(a / 2, k - 1)
  }

  /** `(1 << w) - 1` */
  function Mask(w: nat): nat {
    Pow2(w) - 1
  }

  // ----- powers and shifts

  lemma {:induction false} Pow2Add(a: nat, b: nat)
    ensures Pow2(a + b) == Pow2(a) * Pow2(b)
  {
    if a > 0 {
      Pow2Add(a - 1, b);
      assert Pow2(a + b) == 2 * Pow2(a - 1 + b);
    }
  }

  lemma Pow2Values()
    ensures Pow2(8) == 0x100 && Pow2(16) == 0x1_0000 && Pow2(17) == 0x2_0000
    ensures Pow2(32) == 0x1_0000_0000 && Pow2(56) == 0x100_0000_0000_0000
  {
    assert Pow2(8) == 0x100;
    Pow2Add(8, 8);
    Pow2Add(1, 16);
    Pow2Add(16, 16);
    Pow2Add(8, 16);
    Pow2Add(24, 32);
  }

  lemma {:induction false} Pow2Mono(a: nat, b: nat)
    requires a <= b
    ensures Pow2(a) <= Pow2(b)
    decreases b
  {
    if a < b { Pow2Mono(a, b - 1); }
  }

  lemma {:induction false} ShlShl(a: nat, j: nat, k: nat)
    ensures Shl(Shl(a, j), k) == Shl(a, j + k)
    decreases k
  {
    if k > 0 { ShlShl(a, j, k - 1); }
  }

  lemma {:induction false} ShlAdd(a: nat, b: nat, k: nat)
    ensures Shl(a + b, k) == Shl(a, k) + Shl(b, k)
    decreases k
  {
    if k > 0 { ShlAdd(a, b, k - 1); }
  }

  /** A shift multiplies. */
  lemma {:induction false} ShlIsTimes(a: nat, k: nat)
    ensures Shl(a, k) == a * Pow2(k)
    decreases k
  {
    if k > 0 {
      ShlIsTimes(a, k - 1);
      assert a * (2 * Pow2(k - 1)) == 2 * (a * Pow2(k - 1));
    }
  }

  lemma {:induction false} ShlZero(k: nat)
    ensures Shl(0, k) == 0
  {
    if k > 0 { ShlZero(k - 1); }
  }

  /** A value of `a` bits above `b` bits takes `a + b` bits. */
  lemma {:induction false} JoinFits(v: nat, a: nat, low: nat, b: nat)
    requires v < Pow2(a) && low < Pow2(b)
    ensures Shl(v, b) + low < Pow2(a + b)
    decreases b
  {
    if b > 0 { JoinFits(v, a, low / 2, b - 1); }
  }

  /** A number splits at bit `k` in exactly one way. */
  lemma {:induction false} ShrJoin(a: nat, k: nat, b: nat)
    requires b < Pow2(k)
    ensures Shr(Shl(a, k) + b, k) == a
    decreases k
  {
    if k > 0 {
      assert (Shl(a, k) + b) / 2 == Shl(a, k - 1) + b / 2;
      ShrJoin(a, k - 1, b / 2);
    }
  }

  lemma {:induction false} ShrFits(x: nat, a: nat, b: nat)
    requires x < Pow2(a + b)
    ensures Shr(x, b) < Pow2(a)
    decreases b
  {
    if b > 0 { ShrFits(x / 2, a, b - 1); }
  }

  /** Masking with `w` one-bits is the remainder modulo 2^w. */
  lemma {:induction false} Rejoin(x: nat, k: nat)
    ensures And(x, Mask(k)) < Pow2(k)
    ensures x == Shl(Shr(x, k), k) + And(x, Mask(k))
    decreases k
  {
    if k > 0 {
      assert Mask(k) == 2 * Mask(k - 1) + 1;
      Rejoin(x / 2, k - 1);
      if x != 0 { assert And(x, Mask(k)) == x % 2 + 2 * And(x / 2, Mask(k - 1)); }
    }
  }

  lemma MaskJoin(a: nat, k: nat, b: nat)
    requires b < Pow2(k)
    ensures And(Shl(a, k) + b, Mask(k)) == b
  {
    Rejoin(Shl(a, k) + b, k);
    ShrJoin(a, k, b);
  }

  lemma MaskFits(v: nat, w: nat)
    requires v < Pow2(w)
    ensures And(v, Mask(w)) == v
  {
    ShlZero(w);
    MaskJoin(0, w, v);
  }

  /** A mask below bit `k` does not see what stands above it. */
  lemma {:induction false} AndLow(a: nat, k: nat, low: nat, m: nat)
    requires low < Pow2(k) && m < Pow2(k)
    ensures And(Shl(a, k) + low, m) == And(low, m)
    decreases k
  {
    if k > 0 && m != 0 {
      var x := Shl(a, k) + low;
      assert x % 2 == low % 2 && x / 2 == Shl(a, k - 1) + low / 2;
      AndLow(a, k - 1, low / 2, m / 2);
      if x != 0 && low == 0 { assert And(x, m) == 2 * And(x / 2, m / 2); }
      AndZero(m / 2);
    }
  }

  lemma AndZero(b: nat)
    ensures And(0, b) == 0
  {
  }

  /** One bit of a number. */
  lemma {:induction false} AndBit(x: nat, k: nat)
    ensures And(x, Pow2(k)) == Shr(x, k) % 2 * Pow2(k)
    decreases k
  {
    if k > 0 {
      AndBit(x / 2, k - 1);
      AndTwice(x, Pow2(k - 1));
    } else {
      AndOne(x);
    }
  }

  lemma AndOne(f: nat)
    ensures And(f, 1) == f % 2
  {
    AndZero(f / 2);
    assert f > 0 ==> And(f, 1) == f % 2 + 2 * And(f / 2, 0);
  }

  lemma AndTwice(f: nat, m: nat)
    ensures And(f, 2 * m) == 2 * And(f / 2, m)
  {
    if f > 0 && m > 0 { assert 2 * m / 2 == m; }
  }

  /** The four bits of a nibble, one by one. */
  lemma NibbleBits(f: nat)
    requires f < 16
    ensures And(f, 1) == f % 2 && And(f, 2) == 2 * (f / 2 % 2)
    ensures And(f, 4) == 4 * (f / 4 % 2) && And(f, 8) == 8 * (f / 8)
  {
    BitOf(f, 0, 1);
    BitOf(f, 1, 2);
    BitOf(f, 2, 4);
    BitOf(f, 3, 8);
  }

  lemma BitOf(f: nat, k: nat, m: nat)
    requires k <= 3 && m == Pow2(k)
    ensures And(f, m) == m * (f / m % 2)
  {
    AndBit(f, k);
    AndMask(f, k);
    TimesCommutes(f / m % 2, m);
  }

  lemma TimesCommutes(a: nat, b: nat)
    ensures a * b == b * a
  {
  }

  lemma DivModUnique(x: nat, d: nat, q: nat, r: nat)
    requires r < d && x == q * d + r
    ensures x / d == q && x % d == r
  {
    var q' := x / d;
    assert x == q' * d + x % d;
    if q' > q {
      assert q' * d >= (q + 1) * d by { TimesMono(q + 1, q', d); }
    } else if q' < q {
      assert q * d >= (q' + 1) * d by { TimesMono(q' + 1, q, d); }
    }
  }

  lemma TimesMono(a: nat, b: nat, c: nat)
    requires a <= b
    ensures a * c <= b * c
  {
  }

  /** `a & mask(w)` as a remainder, `a >> w` as a quotient. */
  lemma AndMask(a: nat, w: nat)
    ensures And(a, Mask(w)) == a % Pow2(w) && Shr(a, w) == a / Pow2(w)
  {
    Rejoin(a, w);
    ShlIsTimes(Shr(a, w), w);
    DivModUnique(a, Pow2(w), Shr(a, w), And(a, Mask(w)));
  }

  // ----- what or-ing computes

  lemma {:induction false} OrZero(a: nat)
    ensures Or(a, 0) == a && Or(0, a) == a
  {
    if a > 0 { OrZero(a / 2); }
  }

  /** Or-ing a value into clear low bits is addition. */
  lemma {:induction false} OrDisjoint(a: nat, k: nat, b: nat)
    requires b < Pow2(k)
    ensures Or(Shl(a, k), b) == Shl(a, k) + b
    decreases k
  {
    if k == 0 {
      OrZero(a);
    } else {
      var x, y := Shl(a, k), Shl(a, k - 1);
      OrDisjoint(a, k - 1, b / 2);
      if x != 0 || b != 0 {
        assert Or(x, b) == b % 2 + 2 * Or(y, b / 2);
      }
    }
  }

  // ----- packed fields, most significant first

  function Width(ws: seq<nat>): nat {
    if ws == [] then 0 else ws[0] + Width(ws[1..])
  }

  ghost predicate Fits(ws: seq<nat>, vs: seq<nat>) {
    |ws| == |vs| && forall i :: 0 <= i < |ws| ==> vs[i] < Pow2(ws[i])
  }

  /** The packed word as a number: every field at its weight. */
  function Pack(ws: seq<nat>, vs: seq<nat>): nat
    requires |ws| == |vs|
  {
    if ws == [] then 0 else Shl(vs[0], Width(ws[1..])) + Pack(ws[1..], vs[1..])
  }

  /** Every field read out of the whole word by a shift and a mask. */
  function Unpack(ws: seq<nat>, x: nat): (vs: seq<nat>)
    ensures |vs| == |ws|
  {
    if ws == [] then []
    else [And(Shr(x, Width(ws[1..])), Mask(ws[0]))] + Unpack(ws[1..], x)
  }

  /** The word as encoders build it: fields or-ed in one after another. */
  function ShiftOr(acc: nat, ws: seq<nat>, vs: seq<nat>): nat
    requires |ws| == |vs|
    decreases |ws|
  {
    if ws == [] then acc
    else ShiftOr(Or(acc, Shl(vs[0], Width(ws[1..]))), ws[1..], vs[1..])
  }

  lemma {:induction false} PackFits(ws: seq<nat>, vs: seq<nat>)
    requires Fits(ws, vs)
    ensures Pack(ws, vs) < Pow2(Width(ws))
  {
    if ws != [] {
      PackFits(ws[1..], vs[1..]);
      JoinFits(vs[0], ws[0], Pack(ws[1..], vs[1..]), Width(ws[1..]));
    }
  }

  /** `z` above a field above `rest` bits. */
  lemma Above(z: nat, w: nat, v: nat, rest: nat)
    ensures Shl(z, w + rest) + Shl(v, rest) == Shl(Shl(z, w) + v, rest)
  {
    ShlShl(z, w, rest);
    ShlAdd(Shl(z, w), v, rest);
  }

  /** Shifting and or-ing computes the packed word, below whatever is already
      present above it. */
  lemma {:induction false} ShiftOrIsPack(z: nat, ws: seq<nat>, vs: seq<nat>)
    requires Fits(ws, vs)
    ensures ShiftOr(Shl(z, Width(ws)), ws, vs) == Shl(z, Width(ws)) + Pack(ws, vs)
    decreases |ws|
  {
    if ws != [] {
      var rest := Width(ws[1..]);
      JoinFits(vs[0], ws[0], 0, rest);
      OrDisjoint(z, Width(ws), Shl(vs[0], rest));
      Above(z, ws[0], vs[0], rest);
      ShiftOrIsPack(Shl(z, ws[0]) + vs[0], ws[1..], vs[1..]);
    }
  }

  /** A field is read out of a word whatever stands above and below it. */
  lemma ReadField(z: nat, w: nat, v: nat, rest: nat, low: nat)
    requires v < Pow2(w) && low < Pow2(rest)
    ensures Shl(z, w + rest) + (Shl(v, rest) + low) == Shl(Shl(z, w) + v, rest) + low
    ensures And(Shr(Shl(Shl(z, w) + v, rest) + low, rest), Mask(w)) == v
  {
    Above(z, w, v, rest);
    ShrJoin(Shl(z, w) + v, rest, low);
    MaskJoin(z, w, v);
  }

  /** Reading a packed word gives the fields back, whatever stands above it. */
  lemma {:induction false} UnpackPack(z: nat, ws: seq<nat>, vs: seq<nat>)
    requires Fits(ws, vs)
    ensures Unpack(ws, Shl(z, Width(ws)) + Pack(ws, vs)) == vs
    decreases |ws|
  {
    if ws != [] {
      var rest, low := Width(ws[1..]), Pack(ws[1..], vs[1..]);
      PackFits(ws[1..], vs[1..]);
      ReadField(z, ws[0], vs[0], rest, low);
      UnpackPack(Shl(z, ws[0]) + vs[0], ws[1..], vs[1..]);
      assert vs == [vs[0]] + vs[1..];
    }
  }

  lemma UnpackPacked(ws: seq<nat>, vs: seq<nat>)
    requires Fits(ws, vs)
    ensures Unpack(ws, Pack(ws, vs)) == vs
  {
    ShlZero(Width(ws));
    UnpackPack(0, ws, vs);
  }

  /** Shifting and or-ing fields that fit packs them, and each is read back. */
  lemma ShiftOrPacks(ws: seq<nat>, vs: seq<nat>)
    requires Fits(ws, vs)
    ensures ShiftOr(0, ws, vs) == Pack(ws, vs) < Pow2(Width(ws))
    ensures Unpack(ws, ShiftOr(0, ws, vs)) == vs
  {
    ShlZero(Width(ws));
    ShiftOrIsPack(0, ws, vs);
    PackFits(ws, vs);
    UnpackPacked(ws, vs);
  }

  /** The packed word splits again at the boundary it was joined at. */
  lemma SplitJoined(a: nat, high: nat, low: nat, k: nat, word: nat)
    requires high < Pow2(a) && low < Pow2(k) && word == Shl(high, k) + low
    ensures word < Pow2(a + k)
    ensures And(Shr(word, k), Mask(a)) == high && And(word, Mask(k)) == low
  {
    JoinFits(high, a, low, k);
    ShrJoin(high, k, low);
    MaskFits(high, a);
    MaskJoin(high, k, low);
  }

  lemma {:induction false} UnpackFits(ws: seq<nat>, x: nat)
    ensures Fits(ws, Unpack(ws, x))
  {
    if ws != [] {
      Rejoin(Shr(x, Width(ws[1..])), ws[0]);
      UnpackFits(ws[1..], x);
    }
  }

  /** Packing what was read gives the word back, up to the bits above it. */
  lemma {:induction false} PackUnpack(ws: seq<nat>, x: nat)
    ensures x == Shl(Shr(x, Width(ws)), Width(ws)) + Pack(ws, Unpack(ws, x))
    ensures x < Pow2(Width(ws)) ==> Pack(ws, Unpack(ws, x)) == x
  {
    PackRead(ws, x);
    if x < Pow2(Width(ws)) {
      ShrFits(x, 0, Width(ws));
      ShlZero(Width(ws));
    }
  }

  lemma {:induction false} PackRead(ws: seq<nat>, x: nat)
    ensures x == Shl(Shr(x, Width(ws)), Width(ws)) + Pack(ws, Unpack(ws, x))
  {
    if ws != [] {
      PackRead(ws[1..], x);
      FieldRejoins(x, ws[0], Width(ws[1..]));
      assert Unpack(ws, x)[1..] == Unpack(ws[1..], x);
    }
  }

  lemma FieldRejoins(x: nat, w: nat, rest: nat)
    ensures Shl(Shr(x, rest), rest) == Shl(Shr(x, w + rest), w + rest) + Shl(And(Shr(x, rest), Mask(w)), rest)
  {
    var h := Shr(x, rest);
    Rejoin(h, w);
    Above(Shr(h, w), w, And(h, Mask(w)), rest);
    ShrShr(x, rest, w);
  }

  lemma {:induction false} ShrShr(x: nat, j: nat, k: nat)
    ensures Shr(Shr(x, j), k) == Shr(x, j + k)
    decreases j
  {
    if j > 0 { ShrShr(x / 2, j - 1, k); }
  }

  // ----- short layouts written out

  /** One step of unrolling a literal layout. */
  lemma Cons(acc: nat, w: nat, ws: seq<nat>, v: nat, vs: seq<nat>, word: nat)
    requires |ws| == |vs|
    ensures Width([w] + ws) == w + Width(ws)
    ensures ShiftOr(acc, [w] + ws, [v] + vs) == ShiftOr(Or(acc, Shl(v, Width(ws))), ws, vs)
    ensures Unpack([w] + ws, word) == [And(Shr(word, Width(ws)), Mask(w))] + Unpack(ws, word)
  {
    assert ([w] + ws)[1..] == ws && ([v] + vs)[1..] == vs;
  }

  lemma Two(acc: nat, a: nat, b: nat, p: nat, q: nat, word: nat)
    ensures Width([a, b]) == a + b
    ensures ShiftOr(acc, [a, b], [p, q]) == Or(Or(acc, Shl(p, b)), q)
    ensures Unpack([a, b], word) == [And(Shr(word, b), Mask(a)), And(word, Mask(b))]
  {
    Cons(Or(acc, Shl(p, b)), b, [], q, [], word);
    Cons(acc, a, [b], p, [q], word);
    assert [b] + [] == [b] && [q] + [] == [q];
    assert [a] + [b] == [a, b] && [p] + [q] == [p, q];
  }

  lemma Three(acc: nat, a: nat, b: nat, c: nat, p: nat, q: nat, r: nat)
    ensures Width([a, b, c]) == a + b + c
    ensures ShiftOr(acc, [a, b, c], [p, q, r]) == Or(Or(Or(acc, Shl(p, b + c)), Shl(q, c)), r)
  {
    Cons(acc, a, [b, c], p, [q, r], 0);
    Two(Or(acc, Shl(p, b + c)), b, c, q, r, 0);
    assert [a] + [b, c] == [a, b, c] && [p] + [q, r] == [p, q, r];
  }

  lemma Four(acc: nat, a: nat, b: nat, c: nat, d: nat, p: nat, q: nat, r: nat, s: nat)
    ensures Width([a, b, c, d]) == a + b + c + d
    ensures ShiftOr(acc, [a, b, c, d], [p, q, r, s])
         == Or(Or(Or(Or(acc, Shl(p, b + c + d)), Shl(q, c + d)), Shl(r, d)), s)
  {
    Cons(acc, a, [b, c, d], p, [q, r, s], 0);
    Three(Or(acc, Shl(p, b + c + d)), b, c, d, q, r, s);
    assert [a] + [b, c, d] == [a, b, c, d] && [p] + [q, r, s] == [p, q, r, s];
  }

  lemma UnpackFour(a: nat, b: nat, c: nat, d: nat, word: nat)
    ensures Unpack([a, b, c, d], word)
         == [And(Shr(word, b + c + d), Mask(a)), And(Shr(word, c + d), Mask(b)),
             And(Shr(word, d), Mask(c)), And(word, Mask(d))]
  {
    Two(0, c, d, 0, 0, word);
    Cons(0, b, [c, d], 0, [0, 0], word);
    Cons(0, a, [b, c, d], 0, [0, 0, 0], word);
    assert [b] + [c, d] == [b, c, d] && [a] + [b, c, d] == [a, b, c, d];
  }

  lemma Five(acc: nat, a: nat, b: nat, c: nat, d: nat, e: nat, p: nat, q: nat, r: nat, s: nat, t: nat)
    ensures Width([a, b, c, d, e]) == a + b + c + d + e
    ensures ShiftOr(acc, [a, b, c, d, e], [p, q, r, s, t])
         == Or(Or(Or(Or(Or(acc, Shl(p, b + c + d + e)), Shl(q, c + d + e)), Shl(r, d + e)), Shl(s, e)), t)
  {
    Cons(acc, a, [b, c, d, e], p, [q, r, s, t], 0);
    Four(Or(acc, Shl(p, b + c + d + e)), b, c, d, e, q, r, s, t);
    assert [a] + [b, c, d, e] == [a, b, c, d, e] && [p] + [q, r, s, t] == [p, q, r, s, t];
  }

  lemma Six(acc: nat, a: nat, b: nat, c: nat, d: nat, e: nat, f: nat,
            p: nat, q: nat, r: nat, s: nat, t: nat, u: nat)
    ensures Width([a, b, c, d, e, f]) == a + b + c + d + e + f
    ensures ShiftOr(acc, [a, b, c, d, e, f], [p, q, r, s, t, u])
         == Or(Or(Or(Or(Or(Or(acc, Shl(p, b + c + d + e + f)), Shl(q, c + d + e + f)),
                           Shl(r, d + e + f)), Shl(s, e + f)), Shl(t, f)), u)
  {
    Cons(acc, a, [b, c, d, e, f], p, [q, r, s, t, u], 0);
    Five(Or(acc, Shl(p, b + c + d + e + f)), b, c, d, e, f, q, r, s, t, u);
    assert [a] + [b, c, d, e, f] == [a, b, c, d, e, f] && [p] + [q, r, s, t, u] == [p, q, r, s, t, u];
  }

  lemma Seven(acc: nat, a: nat, b: nat, c: nat, d: nat, e: nat, f: nat, g: nat,
              p: nat, q: nat, r: nat, s: nat, t: nat, u: nat, v: nat)
    ensures Width([a, b, c, d, e, f, g]) == a + b + c + d + e + f + g
    ensures ShiftOr(acc, [a, b, c, d, e, f, g], [p, q, r, s, t, u, v])
         == Or(Or(Or(Or(Or(Or(Or(acc, Shl(p, b + c + d + e + f + g)), Shl(q, c + d + e + f + g)),
                              Shl(r, d + e + f + g)), Shl(s, e + f + g)), Shl(t, f + g)), Shl(u, g)), v)
  {
    Cons(acc, a, [b, c, d, e, f, g], p, [q, r, s, t, u, v], 0);
    Six(Or(acc, Shl(p, b + c + d + e + f + g)), b, c, d, e, f, g, q, r, s, t, u, v);
    assert [a] + [b, c, d, e, f, g] == [a, b, c, d, e, f, g];
    assert [p] + [q, r, s, t, u, v] == [p, q, r, s, t, u, v];
  }

  lemma Eight(acc: nat, a: nat, b: nat, c: nat, d: nat, e: nat, f: nat, g: nat, h: nat,
              p: nat, q: nat, r: nat, s: nat, t: nat, u: nat, v: nat, w: nat)
    ensures Width([a, b, c, d, e, f, g, h]) == a + b + c + d + e + f + g + h
    ensures ShiftOr(acc, [a, b, c, d, e, f, g, h], [p, q, r, s, t, u, v, w])
         == Or(Or(Or(Or(Or(Or(Or(Or(acc, Shl(p, b + c + d + e + f + g + h)), Shl(q, c + d + e + f + g + h)),
               Shl(r, d + e + f + g + h)), Shl(s, e + f + g + h)), Shl(t, f + g + h)), Shl(u, g + h)),
               Shl(v, h)), w)
  {
    var ws, vs := [b, c, d, e, f, g, h], [q, r, s, t, u, v, w];
    assert [a] + ws == [a, b, c, d, e, f, g, h];
    assert [p] + vs == [p, q, r, s, t, u, v, w];
    Cons(acc, a, ws, p, vs, 0);
    Seven(Or(acc, Shl(p, b + c + d + e + f + g + h)), b, c, d, e, f, g, h, q, r, s, t, u, v, w);
  }

  lemma FitsEight(a: nat, b: nat, c: nat, d: nat, e: nat, f: nat, g: nat, h: nat, vs: seq<nat>)
    requires |vs| == 8 && vs[0] < Pow2(a) && vs[1] < Pow2(b) && vs[2] < Pow2(c) && vs[3] < Pow2(d)
    requires vs[4] < Pow2(e) && vs[5] < Pow2(f) && vs[6] < Pow2(g) && vs[7] < Pow2(h)
    ensures Fits([a, b, c, d, e, f, g, h], vs)
  {
  }

  // ----- packed words as sums

  lemma SumCons(w: nat, ws: seq<nat>, v: nat, vs: seq<nat>, k: nat)
    requires |ws| == |vs| && k == Width(ws)
    ensures Width([w] + ws) == w + k && Pack([w] + ws, [v] + vs) == v * Pow2(k) + Pack(ws, vs)
  {
    assert ([w] + ws)[1..] == ws && ([v] + vs)[1..] == vs;
    ShlIsTimes(v, k);
  }

  lemma SumTwo(a: nat, b: nat, p: nat, q: nat)
    ensures Width([a, b]) == a + b && Pack([a, b], [p, q]) == p * Pow2(b) + q
  {
    SumCons(b, [], q, [], 0);
    SumCons(a, [b], p, [q], b);
    assert [b] + [] == [b] && [q] + [] == [q] && [a] + [b] == [a, b] && [p] + [q] == [p, q];
  }

  lemma SumThree(a: nat, b: nat, c: nat,
                p: nat, q: nat, r: nat)
    ensures Width([a, b, c]) == a + b + c
    ensures Pack([a, b, c], [p, q, r])
         == p * Pow2(b + c) + q * Pow2(c) + r
  {
    SumTwo(b, c, q, r);
    SumCons(a, [b, c], p, [q, r], b + c);
    assert [a] + [b, c] == [a, b, c] && [p] + [q, r] == [p, q, r];
  }

  lemma SumFour(a: nat, b: nat, c: nat, d: nat,
               p: nat, q: nat, r: nat, s: nat)
    ensures Width([a, b, c, d]) == a + b + c + d
    ensures Pack([a, b, c, d], [p, q, r, s])
         == p * Pow2(b + c + d) + q * Pow2(c + d) + r * Pow2(d) + s
  {
    SumThree(b, c, d, q, r, s);
    SumCons(a, [b, c, d], p, [q, r, s], b + c + d);
    assert [a] + [b, c, d] == [a, b, c, d] && [p] + [q, r, s] == [p, q, r, s];
  }

  lemma SumFive(a: nat, b: nat, c: nat, d: nat, e: nat,
               p: nat, q: nat, r: nat, s: nat, t: nat)
    ensures Width([a, b, c, d, e]) == a + b + c + d + e
    ensures Pack([a, b, c, d, e], [p, q, r, s, t])
         == p * Pow2(b + c + d + e) + q * Pow2(c + d + e) + r * Pow2(d + e) + s * Pow2(e) + t
  {
    SumFour(b, c, d, e, q, r, s, t);
    SumCons(a, [b, c, d, e], p, [q, r, s, t], b + c + d + e);
    assert [a] + [b, c, d, e] == [a, b, c, d, e] && [p] + [q, r, s, t] == [p, q, r, s, t];
  }

  lemma SumSix(a: nat, b: nat, c: nat, d: nat, e: nat, f: nat,
              p: nat, q: nat, r: nat, s: nat, t: nat, u: nat)
    ensures Width([a, b, c, d, e, f]) == a + b + c + d + e + f
    ensures Pack([a, b, c, d, e, f], [p, q, r, s, t, u])
         == p * Pow2(b + c + d + e + f) + q * Pow2(c + d + e + f) + r * Pow2(d + e + f) + s * Pow2(e + f)
            + t * Pow2(f) + u
  {
    SumFive(b, c, d, e, f, q, r, s, t, u);
    SumCons(a, [b, c, d, e, f], p, [q, r, s, t, u], b + c + d + e + f);
    assert [a] + [b, c, d, e, f] == [a, b, c, d, e, f] && [p] + [q, r, s, t, u] == [p, q, r, s, t, u];
  }

  lemma SumSeven(a: nat, b: nat, c: nat, d: nat, e: nat, f: nat, g: nat,
                p: nat, q: nat, r: nat, s: nat, t: nat, u: nat, v: nat)
    ensures Width([a, b, c, d, e, f, g]) == a + b + c + d + e + f + g
    ensures Pack([a, b, c, d, e, f, g], [p, q, r, s, t, u, v])
         == p * Pow2(b + c + d + e + f + g) + q * Pow2(c + d + e + f + g) + r * Pow2(d + e + f + g)
            + s * Pow2(e + f + g) + t * Pow2(f + g) + u * Pow2(g) + v
  {
    SumSix(b, c, d, e, f, g, q, r, s, t, u, v);
    SumCons(a, [b, c, d, e, f, g], p, [q, r, s, t, u, v], b + c + d + e + f + g);
    assert [a] + [b, c, d, e, f, g] == [a, b, c, d, e, f, g] && [p] + [q, r, s, t, u, v] == [p, q, r, s, t, u, v];
  }

  lemma SumEight(a: nat, b: nat, c: nat, d: nat, e: nat, f: nat, g: nat, h: nat,
                p: nat, q: nat, r: nat, s: nat, t: nat, u: nat, v: nat, w: nat)
    ensures Width([a, b, c, d, e, f, g, h]) == a + b + c + d + e + f + g + h
    ensures Pack([a, b, c, d, e, f, g, h], [p, q, r, s, t, u, v, w])
         == p * Pow2(b + c + d + e + f + g + h) + q * Pow2(c + d + e + f + g + h) + r * Pow2(d + e + f + g + h)
            + s * Pow2(e + f + g + h) + t * Pow2(f + g + h) + u * Pow2(g + h) + v * Pow2(h) + w
  {
    var ws, vs := [b, c, d, e, f, g, h], [q, r, s, t, u, v, w];
    assert [a] + ws == [a, b, c, d, e, f, g, h];
    assert [p] + vs == [p, q, r, s, t, u, v, w];
    SumSeven(b, c, d, e, f, g, h, q, r, s, t, u, v, w);
    SumCons(a, ws, p, vs, b + c + d + e + f + g + h);
  }
}
