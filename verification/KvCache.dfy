/** The key/value cache of `sw/runtime/gemma/attention.py` under the token and
    layer loops of `sw/runtime/gemma/inference.py`.

    Vectors, projections and the numeric casts are opaque: a model is any choice of
    them.  What is proved is which rows are written when, what every read returns,
    and that twenty layers of cache are enough. */
module KvCache {
  import opened Prelude
  import opened GemmaArch

  /** The opaque parts of the forward pass: `embed` starts the streams of a token,
      `project` gives the key and value of a layer, `mix` finishes the layer from the
      rows it read, `half` and `widen` are the casts into and out of the cache. */
  datatype Model<!X, !R> = Model(
    embed: nat -> X,
    project: (X, nat, nat) -> (R, R),
    mix: (X, nat, nat, seq<R>, seq<R>) -> X,
    half: R -> R,
    widen: R -> R)

  /** Cache contents: for each layer and position, the key and value stored. */
  type Rows<R> = seq<seq<(R, R)>>

  ghost predicate Shaped<R>(c: Rows<R>, layers: nat, maxSeqLen: nat) {
    |c| == layers && forall l :: 0 <= l < |c| ==> |c[l]| == maxSeqLen
  }

  // ----- the cache object

  function Put<R>(c: Rows<R>, layer: nat, pos: nat, kv: (R, R)): Rows<R>
    requires layer < |c| && pos < |c[layer]|
  {
    c[layer := c[layer][pos := kv]]
  }

  function Keys<R>(rows: seq<(R, R)>, n: nat, widen: R -> R): seq<R>
    requires n <= |rows|
  {
    seq(n, i requires 0 <= i < n => widen(rows[i].0))
  }

  function Values<R>(rows: seq<(R, R)>, n: nat, widen: R -> R): seq<R>
    requires n <= |rows|
  {
    seq(n, i requires 0 <= i < n => widen(rows[i].1))
  }

  class Cache<R> {
    const layers: nat
    const maxSeqLen: nat
    const half: R -> R
    const widen: R -> R
    const k: array2<R>
    const v: array2<R>

    ghost predicate Valid() {
      && k != v
      && k.Length0 == layers && k.Length1 == maxSeqLen
      && v.Length0 == layers && v.Length1 == maxSeqLen
    }

    ghost function Row(l: nat): (r: seq<(R, R)>)
      requires Valid() && l < layers
      reads k, v
      ensures |r| == maxSeqLen && forall p :: 0 <= p < maxSeqLen ==> r[p] == (k[l, p], v[l, p])
    {
      seq(maxSeqLen, p requires 0 <= p < maxSeqLen && l < layers && Valid() reads k, v => (k[l, p], v[l, p]))
    }

    ghost function Contents(): (c: Rows<R>)
      requires Valid()
      reads k, v
      ensures Shaped(c, layers, maxSeqLen)
      ensures forall l :: 0 <= l < layers ==> c[l] == Row(l)
    {
      seq(layers, l requires 0 <= l < layers && Valid() reads k, v => Row(l))
    }

    constructor (layers: nat, maxSeqLen: nat, half: R -> R, widen: R -> R, zero: R)
      ensures Valid() && fresh(k) && fresh(v)
      ensures this.layers == layers && this.maxSeqLen == maxSeqLen && this.half == half && this.widen == widen
      ensures Contents() == seq(layers, _ => seq(maxSeqLen, _ => (zero, zero)))
    {
      this.layers, this.maxSeqLen, this.half, this.widen := layers, maxSeqLen, half, widen;
      k := new R[layers, maxSeqLen]((_, _) => zero);
      v := new R[layers, maxSeqLen]((_, _) => zero);
      new;
      forall l | 0 <= l < layers ensures Row(l) == seq(maxSeqLen, _ => (zero, zero)) {
      }
    }

    /** `store`: false is the IndexError past the last position. */
    method Store(layer: nat, pos: nat, key: R, value: R) returns (ok: bool)
      requires Valid() && layer < layers
      modifies k, v
      ensures ok <==> pos < maxSeqLen
      ensures Contents() == if ok then Put(old(Contents()), layer, pos, (half(key), half(value)))
                            else old(Contents())
    {
      if pos >= maxSeqLen {
        return false;
      }
      k[layer, pos] := half(key);
      v[layer, pos] := half(value);
      ghost var was := old(Contents());
      assert Row(layer) == was[layer][pos := (half(key), half(value))];
      assert forall l :: 0 <= l < layers && l != layer ==> Row(l) == was[l];
      return true;
    }

    /** `read_for_layer`: None is the IndexError past the last position. */
    method ReadForLayer(layer: nat, pos: nat) returns (r: Option<(seq<R>, seq<R>)>)
      requires Valid() && KvSource(layer) < layers
      ensures r == if pos >= maxSeqLen then None
                   else Some((Keys(Contents()[KvSource(layer)], pos + 1, widen),
                              Values(Contents()[KvSource(layer)], pos + 1, widen)))
    {
      if pos >= maxSeqLen {
        return None;
      }
      var src := KvSource(layer);
      var ks := seq(pos + 1, p requires 0 <= p <= pos < maxSeqLen && Valid() && src < layers
                             reads k => widen(k[src, p]));
      var vs := seq(pos + 1, p requires 0 <= p <= pos < maxSeqLen && Valid() && src < layers
                             reads v => widen(v[src, p]));
      assert ks == Keys(Contents()[src], pos + 1, widen) && vs == Values(Contents()[src], pos + 1, widen);
      return Some((ks, vs));
    }
  }

  // ----- one pass over the layers, as a function

  datatype Access<R> =
    | Write(layer: nat, pos: nat, kv: (R, R))
    | Read(layer: nat, pos: nat, ks: seq<R>, vs: seq<R>)

  /** The cache, the streams, and the accesses made so far. */
  datatype Pass<X, R> = Pass(cache: Rows<R>, x: X, trace: seq<Access<R>>)

  /** A cache that can serve every layer at a position. */
  ghost predicate Serves<R>(c: Rows<R>, pos: nat) {
    |c| >= KV_SHARED_FIRST_LAYER && forall l :: 0 <= l < |c| ==> pos < |c[l]|
  }

  function Stored<X, R>(m: Model<X, R>, x: X, layer: nat, pos: nat): (R, R) {
    var kv := m.project(x, layer, pos);
    (m.half(kv.0), m.half(kv.1))
  }

  /** The attention of one layer: a layer that owns its cache stores its row, then
      every layer reads its source's rows up to the position. */
  function LayerStep<X, R>(m: Model<X, R>, s: Pass<X, R>, layer: nat, pos: nat): (t: Pass<X, R>)
    requires Serves(s.cache, pos)
    ensures Serves(t.cache, pos) && |t.cache| == |s.cache|
    ensures forall l :: 0 <= l < |s.cache| ==> |t.cache[l]| == |s.cache[l]|
  {
    SourceIsOwned(layer);
    var own := layer < KV_SHARED_FIRST_LAYER;
    var kv := Stored(m, s.x, layer, pos);
    var c := if own then Put(s.cache, layer, pos, kv) else s.cache;
    var ks := Keys(c[KvSource(layer)], pos + 1, m.widen);
    var vs := Values(c[KvSource(layer)], pos + 1, m.widen);
    Pass(c, m.mix(s.x, layer, pos, ks, vs),
         s.trace + (if own then [Write(layer, pos, kv)] else []) + [Read(layer, pos, ks, vs)])
  }

  /** The first `n` layers of the pass for one position. */
  function Layers<X, R>(m: Model<X, R>, s: Pass<X, R>, n: nat, pos: nat): (t: Pass<X, R>)
    requires Serves(s.cache, pos)
    ensures Serves(t.cache, pos) && |t.cache| == |s.cache|
    ensures forall l :: 0 <= l < |s.cache| ==> |t.cache[l]| == |s.cache[l]|
  {
    if n == 0 then s else LayerStep(m, Layers(m, s, n - 1, pos), n - 1, pos)
  }

  lemma NextLayer<X, R>(m: Model<X, R>, s: Pass<X, R>, layer: nat, next: nat, pos: nat)
    requires Serves(s.cache, pos) && next == layer + 1
    ensures Layers(m, s, next, pos) == LayerStep(m, Layers(m, s, layer, pos), layer, pos)
  {
    assert next != 0 && next - 1 == layer;
  }

  lemma OneLayer<X, R>(m: Model<X, R>, start: Pass<X, R>, before: Pass<X, R>, after: Pass<X, R>,
                       layer: nat, next: nat, pos: nat)
    requires next == layer + 1 && Serves(start.cache, pos) && Serves(before.cache, pos)
    requires before == if layer > 0 then Layers(m, start, layer, pos) else start
    requires after == LayerStep(m, before, layer, pos)
    ensures after == Layers(m, start, next, pos)
  {
    assert Layers(m, start, 0, pos) == start;
  }

  /** A decoding state between tokens; `failed` after an IndexError. */
  datatype Decode<X, R> = Decode(cache: Rows<R>, pos: nat, x: Option<X>, trace: seq<Access<R>>, failed: bool)

  /** `_forward_one_token` */
  function Forward<X, R>(m: Model<X, R>, d: Decode<X, R>, token: nat, maxSeqLen: nat): (e: Decode<X, R>)
    requires Shaped(d.cache, |d.cache|, maxSeqLen) && |d.cache| >= KV_SHARED_FIRST_LAYER
    ensures Shaped(e.cache, |d.cache|, maxSeqLen)
  {
    if d.failed then d
    else if d.pos >= maxSeqLen then d.(failed := true)
    else
      var t := Layers(m, Pass(d.cache, m.embed(token), d.trace), NUM_LAYERS, d.pos);
      Decode(t.cache, d.pos + 1, Some(t.x), t.trace, false)
  }

  lemma ForwardIs<X, R>(m: Model<X, R>, d: Decode<X, R>, token: nat, maxSeqLen: nat, t: Pass<X, R>)
    requires Shaped(d.cache, |d.cache|, maxSeqLen) && |d.cache| >= KV_SHARED_FIRST_LAYER
    requires !d.failed && d.pos < maxSeqLen
    requires t == Layers(m, Pass(d.cache, m.embed(token), d.trace), NUM_LAYERS, d.pos)
    ensures Forward(m, d, token, maxSeqLen) == Decode(t.cache, d.pos + 1, Some(t.x), t.trace, false)
  {
  }

  lemma ForwardFails<X, R>(m: Model<X, R>, d: Decode<X, R>, token: nat, maxSeqLen: nat)
    requires Shaped(d.cache, |d.cache|, maxSeqLen) && |d.cache| >= KV_SHARED_FIRST_LAYER
    requires !d.failed && d.pos >= maxSeqLen
    ensures Forward(m, d, token, maxSeqLen) == Decode(d.cache, d.pos, d.x, d.trace, true)
  {
  }

  function Run<X, R>(m: Model<X, R>, d: Decode<X, R>, tokens: seq<nat>, maxSeqLen: nat): (e: Decode<X, R>)
    requires Shaped(d.cache, |d.cache|, maxSeqLen) && |d.cache| >= KV_SHARED_FIRST_LAYER
    ensures Shaped(e.cache, |d.cache|, maxSeqLen)
    decreases |tokens|
  {
    if tokens == [] then d
    else Forward(m, Run(m, d, tokens[..|tokens| - 1], maxSeqLen), tokens[|tokens| - 1], maxSeqLen)
  }

  /** A fresh decoding state with a zeroed cache of some number of layers. */
  function Fresh<X, R>(layers: nat, maxSeqLen: nat, zero: R): (d: Decode<X, R>)
    ensures Shaped(d.cache, layers, maxSeqLen)
  {
    Decode(seq(layers, _ => seq(maxSeqLen, _ => (zero, zero))), 0, None, [], false)
  }

  // ----- where every access stands

  /** Accesses made by the first `n` layers of a pass: two per owning layer, one per
      sharing layer. */
  function Offset(n: nat): nat {
    if n <= KV_SHARED_FIRST_LAYER then 2 * n else KV_SHARED_FIRST_LAYER + n
  }

  const PER_PASS: nat := 55

  /** Access `i` of any run: pass i/55, and within it the layers in order. */
  ghost predicate InPlace<R>(a: Access<R>, i: nat) {
    var o := i % PER_PASS;
    && a.pos == i / PER_PASS
    && (if o < 2 * KV_SHARED_FIRST_LAYER then
          a.layer == o / 2 && (a.Write? <==> o % 2 == 0)
        else
          a.layer == o - KV_SHARED_FIRST_LAYER && a.Read?)
  }

  /** Where the row of a layer and position is written. */
  function WriteAt(layer: nat, pos: nat): nat {
    PER_PASS * pos + 2 * layer
  }

  /** A read returns, for each row up to its position, what was written to the source
      row, earlier in the run and by the pass of that row's position. */
  ghost predicate ReadsWritten<X, R>(m: Model<X, R>, trace: seq<Access<R>>, i: nat)
    requires i < |trace|
  {
    var a := trace[i];
    a.Read? ==>
      && |a.ks| == |a.vs| == a.pos + 1
      && forall r :: 0 <= r <= a.pos ==>
           var w := WriteAt(KvSource(a.layer), r);
           && w < i
           && trace[w].Write? && trace[w].layer == KvSource(a.layer) && trace[w].pos == r
           && a.ks[r] == m.widen(trace[w].kv.0) && a.vs[r] == m.widen(trace[w].kv.1)
  }

  /** After `pos` whole passes and `n` layers of the next one. */
  ghost predicate Inv<X, R>(m: Model<X, R>, c: Rows<R>, trace: seq<Access<R>>, pos: nat, n: nat) {
    && |trace| == PER_PASS * pos + Offset(n)
    && (forall i :: 0 <= i < |trace| ==> InPlace(trace[i], i) && ReadsWritten(m, trace, i))
    && |c| >= KV_SHARED_FIRST_LAYER
    && (forall l, r :: 0 <= l < KV_SHARED_FIRST_LAYER && 0 <= r < (if l < n then pos + 1 else pos) ==>
          && r < |c[l]|
          && trace[WriteAt(l, r)].Write? && c[l][r] == trace[WriteAt(l, r)].kv)
  }

  lemma Placed(pos: nat, o: nat)
    requires o < PER_PASS
    ensures (PER_PASS * pos + o) / PER_PASS == pos && (PER_PASS * pos + o) % PER_PASS == o
  {
  }

  /** A read of an owned, fully written row range returns what was written. */
  lemma ReadIsWritten<X, R>(m: Model<X, R>, c: Rows<R>, trace: seq<Access<R>>, layer: nat, pos: nat)
    requires |c| >= KV_SHARED_FIRST_LAYER && KvSource(layer) < KV_SHARED_FIRST_LAYER
    requires pos < |c[KvSource(layer)]| && WriteAt(KvSource(layer), pos) < |trace|
    requires forall i :: 0 <= i < |trace| ==> InPlace(trace[i], i)
    requires forall r :: 0 <= r <= pos ==>
      trace[WriteAt(KvSource(layer), r)].Write?
      && c[KvSource(layer)][r] == trace[WriteAt(KvSource(layer), r)].kv
    ensures var rows := c[KvSource(layer)];
      ReadsWritten(m, trace + [Read(layer, pos, Keys(rows, pos + 1, m.widen), Values(rows, pos + 1, m.widen))], |trace|)
  {
    var src := KvSource(layer);
    forall r | 0 <= r <= pos
      ensures trace[WriteAt(src, r)].layer == src && trace[WriteAt(src, r)].pos == r
    {
      Placed(r, 2 * src);
      assert InPlace(trace[WriteAt(src, r)], WriteAt(src, r));
    }
  }

  lemma WriteKeeps<X, R>(m: Model<X, R>, c: Rows<R>, trace: seq<Access<R>>, layer: nat, pos: nat, kv: (R, R))
    requires Inv(m, c, trace, pos, layer) && Serves(c, pos) && layer < KV_SHARED_FIRST_LAYER
    ensures var (c', trace') := (Put(c, layer, pos, kv), trace + [Write(layer, pos, kv)]);
      && |trace'| == PER_PASS * pos + 2 * layer + 1
      && (forall i :: 0 <= i < |trace'| ==> InPlace(trace'[i], i) && ReadsWritten(m, trace', i))
      && (forall l, r :: 0 <= l < KV_SHARED_FIRST_LAYER && 0 <= r < (if l < layer + 1 then pos + 1 else pos) ==>
            && trace'[WriteAt(l, r)].Write? && c'[l][r] == trace'[WriteAt(l, r)].kv)
  {
    Placed(pos, 2 * layer);
    TraceMore(m, trace, Write(layer, pos, kv));
  }

  /** One more access in its place. */
  lemma TraceMore<X, R>(m: Model<X, R>, trace: seq<Access<R>>, a: Access<R>)
    requires forall i :: 0 <= i < |trace| ==> InPlace(trace[i], i) && ReadsWritten(m, trace, i)
    requires InPlace(a, |trace|) && ReadsWritten(m, trace + [a], |trace|)
    ensures forall i :: 0 <= i < |trace + [a]| ==> InPlace((trace + [a])[i], i) && ReadsWritten(m, trace + [a], i)
  {
    var trace' := trace + [a];
    forall i | 0 <= i < |trace| ensures InPlace(trace'[i], i) && ReadsWritten(m, trace', i) {
      assert InPlace(trace[i], i) && ReadsWritten(m, trace, i);
      assert trace'[i] == trace[i];
    }
  }

  lemma ReadKeeps<X, R>(m: Model<X, R>, c: Rows<R>, trace: seq<Access<R>>, layer: nat, pos: nat)
    requires layer < NUM_LAYERS && Serves(c, pos)
    requires |trace| == PER_PASS * pos + Offset(layer + 1) - 1
    requires forall i :: 0 <= i < |trace| ==> InPlace(trace[i], i) && ReadsWritten(m, trace, i)
    requires forall l, r :: 0 <= l < KV_SHARED_FIRST_LAYER && 0 <= r < (if l < layer + 1 then pos + 1 else pos) ==>
      && trace[WriteAt(l, r)].Write? && c[l][r] == trace[WriteAt(l, r)].kv
    ensures var rows := c[KvSource(layer)];
      |c| > KvSource(layer) && pos < |rows| &&
      Inv(m, c, trace + [Read(layer, pos, Keys(rows, pos + 1, m.widen), Values(rows, pos + 1, m.widen))],
          pos, layer + 1)
  {
    SourceIsOwned(layer);
    var rows := c[KvSource(layer)];
    var a := Read(layer, pos, Keys(rows, pos + 1, m.widen), Values(rows, pos + 1, m.widen));
    Placed(pos, Offset(layer + 1) - 1);
    assert InPlace(a, |trace|);
    ReadIsWritten(m, c, trace, layer, pos);
    TraceMore(m, trace, a);
  }

  lemma LayerKeeps<X, R>(m: Model<X, R>, s: Pass<X, R>, layer: nat, next: nat, pos: nat)
    requires layer < NUM_LAYERS && next == layer + 1 && Serves(s.cache, pos)
    requires Inv(m, s.cache, s.trace, pos, layer)
    ensures var t := LayerStep(m, s, layer, pos); Inv(m, t.cache, t.trace, pos, next)
  {
    SourceIsOwned(layer);
    if layer < KV_SHARED_FIRST_LAYER {
      var kv := Stored(m, s.x, layer, pos);
      WriteKeeps(m, s.cache, s.trace, layer, pos, kv);
      ReadKeeps(m, Put(s.cache, layer, pos, kv), s.trace + [Write(layer, pos, kv)], layer, pos);
    } else {
      ReadKeeps(m, s.cache, s.trace, layer, pos);
      assert s.trace + [] == s.trace;
    }
  }

  lemma {:induction false} LayersKeep<X, R>(m: Model<X, R>, s: Pass<X, R>, n: nat, pos: nat)
    requires n <= NUM_LAYERS && Serves(s.cache, pos)
    requires Inv(m, s.cache, s.trace, pos, 0)
    ensures var t := Layers(m, s, n, pos); Inv(m, t.cache, t.trace, pos, n)
  {
    if n > 0 {
      var k := n - 1;
      LayersKeep(m, s, k, pos);
      LayerKeeps(m, Layers(m, s, k, pos), k, n, pos);
      NextLayer(m, s, k, n, pos);
    }
  }

  function Min(a: nat, b: nat): nat { if a <= b then a else b }

  lemma {:induction false} RunKeeps<X, R>(m: Model<X, R>, tokens: seq<nat>, layers: nat, maxSeqLen: nat, zero: R)
    requires layers >= KV_SHARED_FIRST_LAYER
    ensures var d := Run(m, Fresh(layers, maxSeqLen, zero), tokens, maxSeqLen);
      && Inv(m, d.cache, d.trace, d.pos, 0)
      && d.pos == Min(|tokens|, maxSeqLen)
      && (d.failed <==> |tokens| > maxSeqLen)
  {
    if tokens != [] {
      var prefix := tokens[..|tokens| - 1];
      RunKeeps(m, prefix, layers, maxSeqLen, zero);
      var d := Run(m, Fresh(layers, maxSeqLen, zero), prefix, maxSeqLen);
      if !d.failed && d.pos < maxSeqLen {
        var s := Pass(d.cache, m.embed(tokens[|tokens| - 1]), d.trace);
        LayersKeep(m, s, NUM_LAYERS, d.pos);
      }
    }
  }

  /** Over every run of tokens, prompt or generated: the run fails exactly when it is
      longer than the cache; every read of layer l at position p comes after, and
      returns, the one write of each row 0..p of its source layer, made by the pass
      for that row; and no row of a sharing layer is ever written. */
  lemma EveryRead<X, R>(m: Model<X, R>, tokens: seq<nat>, layers: nat, maxSeqLen: nat, zero: R)
    requires layers >= KV_SHARED_FIRST_LAYER
    ensures var d := Run(m, Fresh(layers, maxSeqLen, zero), tokens, maxSeqLen);
      && (d.failed <==> |tokens| > maxSeqLen)
      && |d.trace| == PER_PASS * Min(|tokens|, maxSeqLen)
      && (forall i :: 0 <= i < |d.trace| ==> InPlace(d.trace[i], i) && ReadsWritten(m, d.trace, i))
      && (forall i :: 0 <= i < |d.trace| && d.trace[i].Write? ==>
            d.trace[i].layer < KV_SHARED_FIRST_LAYER && i == WriteAt(d.trace[i].layer, d.trace[i].pos))
  {
    RunKeeps(m, tokens, layers, maxSeqLen, zero);
    var d := Run(m, Fresh(layers, maxSeqLen, zero), tokens, maxSeqLen);
    forall i | 0 <= i < |d.trace| && d.trace[i].Write?
      ensures d.trace[i].layer < KV_SHARED_FIRST_LAYER && i == WriteAt(d.trace[i].layer, d.trace[i].pos)
    {
      assert InPlace(d.trace[i], i);
    }
  }

  // ----- a cache of twenty layers is enough

  /** Two caches of any sizes that agree on the owning layers. */
  ghost predicate Agree<R>(c: Rows<R>, c': Rows<R>) {
    && |c| >= KV_SHARED_FIRST_LAYER && |c'| >= KV_SHARED_FIRST_LAYER
    && forall l :: 0 <= l < KV_SHARED_FIRST_LAYER ==> c[l] == c'[l]
  }

  ghost predicate SamePass<X, R>(s: Pass<X, R>, s': Pass<X, R>) {
    Agree(s.cache, s'.cache) && s.x == s'.x && s.trace == s'.trace
  }

  lemma LayerAgrees<X, R>(m: Model<X, R>, s: Pass<X, R>, s': Pass<X, R>, layer: nat, pos: nat)
    requires Serves(s.cache, pos) && Serves(s'.cache, pos) && SamePass(s, s')
    ensures SamePass(LayerStep(m, s, layer, pos), LayerStep(m, s', layer, pos))
  {
    SourceIsOwned(layer);
  }

  lemma {:induction false} LayersAgree<X, R>(m: Model<X, R>, s: Pass<X, R>, s': Pass<X, R>, n: nat, pos: nat)
    requires Serves(s.cache, pos) && Serves(s'.cache, pos) && SamePass(s, s')
    ensures SamePass(Layers(m, s, n, pos), Layers(m, s', n, pos))
  {
    if n > 0 {
      var k := n - 1;
      LayersAgree(m, s, s', k, pos);
      LayerAgrees(m, Layers(m, s, k, pos), Layers(m, s', k, pos), k, pos);
      NextLayer(m, s, k, n, pos);
      NextLayer(m, s', k, n, pos);
    }
  }

  /** The 35-layer cache the code allocates and any cache of 20 layers or more give
      the same reads, the same streams and the same failures, over every run. */
  lemma {:induction false} TwentyLayersSuffice<X, R>(
      m: Model<X, R>, tokens: seq<nat>, layers: nat, maxSeqLen: nat, zero: R)
    requires layers >= KV_SHARED_FIRST_LAYER
    ensures var d := Run(m, Fresh(NUM_LAYERS, maxSeqLen, zero), tokens, maxSeqLen);
      var e := Run(m, Fresh(layers, maxSeqLen, zero), tokens, maxSeqLen);
      && d.trace == e.trace && d.x == e.x && d.pos == e.pos && d.failed == e.failed
      && Agree(d.cache, e.cache)
  {
    if tokens != [] {
      var prefix := tokens[..|tokens| - 1];
      TwentyLayersSuffice(m, prefix, layers, maxSeqLen, zero);
      var d := Run(m, Fresh(NUM_LAYERS, maxSeqLen, zero), prefix, maxSeqLen);
      var e := Run(m, Fresh(layers, maxSeqLen, zero), prefix, maxSeqLen);
      if !d.failed && d.pos < maxSeqLen {
        var x := m.embed(tokens[|tokens| - 1]);
        LayersAgree(m, Pass(d.cache, x, d.trace), Pass(e.cache, x, e.trace), NUM_LAYERS, d.pos);
      }
    }
  }

  // ----- the same run without a cache

  /** The streams that enter layer n at position p, or leave the last layer, when every
      key and value is computed anew from the tokens. */
  function Stream<X, R>(m: Model<X, R>, tokens: seq<nat>, p: nat, n: nat): X
    requires p < |tokens|
    decreases p, n, 0
  {
    if n == 0 then m.embed(tokens[p])
    else
      SourceIsOwned(n - 1);
      m.mix(Stream(m, tokens, p, n - 1), n - 1, p,
            KeysTo(m, tokens, KvSource(n - 1), p), ValuesTo(m, tokens, KvSource(n - 1), p))
  }

  /** The keys of a layer from position 0 to p, as attention sees them. */
  function KeysTo<X, R>(m: Model<X, R>, tokens: seq<nat>, layer: nat, p: nat): (ks: seq<R>)
    requires p < |tokens|
    ensures |ks| == p + 1
    decreases p, layer, 2
  {
    seq(p + 1, r requires 0 <= r <= p => m.widen(KeyAt(m, tokens, layer, r)))
  }

  function ValuesTo<X, R>(m: Model<X, R>, tokens: seq<nat>, layer: nat, p: nat): (vs: seq<R>)
    requires p < |tokens|
    ensures |vs| == p + 1
    decreases p, layer, 2
  {
    seq(p + 1, r requires 0 <= r <= p => m.widen(ValueAt(m, tokens, layer, r)))
  }

  /** The key of a layer at a position, cast as the cache casts it. */
  function KeyAt<X, R>(m: Model<X, R>, tokens: seq<nat>, layer: nat, p: nat): R
    requires p < |tokens|
    decreases p, layer, 1
  {
    m.half(m.project(Stream(m, tokens, p, layer), layer, p).0)
  }

  function ValueAt<X, R>(m: Model<X, R>, tokens: seq<nat>, layer: nat, p: nat): R
    requires p < |tokens|
    decreases p, layer, 1
  {
    m.half(m.project(Stream(m, tokens, p, layer), layer, p).1)
  }

  ghost predicate RowHolds<X, R>(m: Model<X, R>, tokens: seq<nat>, c: Rows<R>, l: nat, r: nat) {
    && r < |tokens| && l < |c| && r < |c[l]|
    && c[l][r] == (KeyAt(m, tokens, l, r), ValueAt(m, tokens, l, r))
  }

  /** After `pos` whole passes and n layers of the next one, the owned rows written so
      far hold the keys and values of that computation. */
  ghost predicate Holds<X, R>(m: Model<X, R>, tokens: seq<nat>, c: Rows<R>, pos: nat, n: nat) {
    forall l: nat, r: nat :: l < KV_SHARED_FIRST_LAYER && r < (if l < n then pos + 1 else pos) ==>
      RowHolds(m, tokens, c, l, r)
  }

  /** Every row ever stored is the one of that computation. */
  ghost predicate WritesHold<X, R>(m: Model<X, R>, tokens: seq<nat>, trace: seq<Access<R>>) {
    forall i :: 0 <= i < |trace| ==> WriteHolds(m, tokens, trace[i])
  }

  ghost predicate WriteHolds<X, R>(m: Model<X, R>, tokens: seq<nat>, a: Access<R>) {
    a.Write? ==>
      a.pos < |tokens| && a.kv == (KeyAt(m, tokens, a.layer, a.pos), ValueAt(m, tokens, a.layer, a.pos))
  }

  lemma StoredIs<X, R>(m: Model<X, R>, tokens: seq<nat>, x: X, layer: nat, pos: nat)
    requires pos < |tokens| && x == Stream(m, tokens, pos, layer)
    ensures Stored(m, x, layer, pos) == (KeyAt(m, tokens, layer, pos), ValueAt(m, tokens, layer, pos))
  {
  }

  lemma StoreHolds<X, R>(m: Model<X, R>, tokens: seq<nat>, c: Rows<R>, layer: nat, next: nat, pos: nat, kv: (R, R))
    requires Holds(m, tokens, c, pos, layer) && Serves(c, pos) && layer < KV_SHARED_FIRST_LAYER && pos < |tokens|
    requires next == layer + 1 && kv == (KeyAt(m, tokens, layer, pos), ValueAt(m, tokens, layer, pos))
    ensures Holds(m, tokens, Put(c, layer, pos, kv), pos, next)
  {
    var c' := Put(c, layer, pos, kv);
    forall l: nat, r: nat | l < KV_SHARED_FIRST_LAYER && r < (if l < next then pos + 1 else pos)
      ensures RowHolds(m, tokens, c', l, r)
    {
      if l != layer || r != pos { assert RowHolds(m, tokens, c, l, r); }
    }
  }

  /** The rows a layer reads. */
  lemma RowsRead<X, R>(m: Model<X, R>, tokens: seq<nat>, c: Rows<R>, src: nat, pos: nat, n: nat)
    requires Holds(m, tokens, c, pos, n) && pos < |tokens| && src < n && src < KV_SHARED_FIRST_LAYER
    requires src < |c| && pos < |c[src]|
    ensures Keys(c[src], pos + 1, m.widen) == KeysTo(m, tokens, src, pos)
    ensures Values(c[src], pos + 1, m.widen) == ValuesTo(m, tokens, src, pos)
  {
    forall r | 0 <= r <= pos
      ensures c[src][r] == (KeyAt(m, tokens, src, r), ValueAt(m, tokens, src, r))
    {
      assert RowHolds(m, tokens, c, src, r);
    }
  }

  lemma StreamNext<X, R>(m: Model<X, R>, tokens: seq<nat>, layer: nat, next: nat, pos: nat)
    requires pos < |tokens| && next == layer + 1
    ensures Stream(m, tokens, pos, next)
         == m.mix(Stream(m, tokens, pos, layer), layer, pos,
                  KeysTo(m, tokens, KvSource(layer), pos), ValuesTo(m, tokens, KvSource(layer), pos))
  {
  }

  lemma WritesMore<X, R>(m: Model<X, R>, tokens: seq<nat>, trace: seq<Access<R>>, a: Access<R>)
    requires WritesHold(m, tokens, trace) && WriteHolds(m, tokens, a)
    ensures WritesHold(m, tokens, trace + [a])
  {
  }

  lemma LayerHolds<X, R>(m: Model<X, R>, tokens: seq<nat>, s: Pass<X, R>, layer: nat, next: nat, pos: nat)
    requires Serves(s.cache, pos) && pos < |tokens| && next == layer + 1
    requires Holds(m, tokens, s.cache, pos, layer) && WritesHold(m, tokens, s.trace)
    requires s.x == Stream(m, tokens, pos, layer)
    ensures var t := LayerStep(m, s, layer, pos);
      Holds(m, tokens, t.cache, pos, next) && WritesHold(m, tokens, t.trace) && t.x == Stream(m, tokens, pos, next)
  {
    SourceIsOwned(layer);
    var kv := Stored(m, s.x, layer, pos);
    var own := layer < KV_SHARED_FIRST_LAYER;
    var c := if own then Put(s.cache, layer, pos, kv) else s.cache;
    var trace := s.trace + if own then [Write(layer, pos, kv)] else [];
    if own {
      StoredIs(m, tokens, s.x, layer, pos);
      StoreHolds(m, tokens, s.cache, layer, next, pos, kv);
      WritesMore(m, tokens, s.trace, Write(layer, pos, kv));
    } else {
      assert trace == s.trace;
    }
    RowsRead(m, tokens, c, KvSource(layer), pos, next);
    StreamNext(m, tokens, layer, next, pos);
    var rows := c[KvSource(layer)];
    WritesMore(m, tokens, trace, Read(layer, pos, Keys(rows, pos + 1, m.widen), Values(rows, pos + 1, m.widen)));
  }

  lemma {:induction false} LayersHold<X, R>(m: Model<X, R>, tokens: seq<nat>, s: Pass<X, R>, n: nat, pos: nat)
    requires Serves(s.cache, pos) && pos < |tokens|
    requires Holds(m, tokens, s.cache, pos, 0) && WritesHold(m, tokens, s.trace) && s.x == m.embed(tokens[pos])
    ensures var t := Layers(m, s, n, pos);
      Holds(m, tokens, t.cache, pos, n) && WritesHold(m, tokens, t.trace) && t.x == Stream(m, tokens, pos, n)
  {
    if n > 0 {
      var k := n - 1;
      LayersHold(m, tokens, s, k, pos);
      LayerHolds(m, tokens, Layers(m, s, k, pos), k, n, pos);
      NextLayer(m, s, k, n, pos);
    }
  }

  /** All layers done is the next position not begun. */
  lemma NextPosition<X, R>(m: Model<X, R>, tokens: seq<nat>, c: Rows<R>, pos: nat, next: nat, n: nat)
    requires Holds(m, tokens, c, pos, n) && n >= KV_SHARED_FIRST_LAYER && next == pos + 1
    ensures Holds(m, tokens, c, next, 0)
  {
    forall l: nat, r: nat | l < KV_SHARED_FIRST_LAYER && r < next ensures RowHolds(m, tokens, c, l, r) {
    }
  }

  /** A decoding state that has computed n positions as if without a cache. */
  ghost predicate Decoded<X, R>(m: Model<X, R>, tokens: seq<nat>, d: Decode<X, R>, n: nat) {
    && !d.failed && d.pos == n && n <= |tokens|
    && Holds(m, tokens, d.cache, n, 0) && WritesHold(m, tokens, d.trace)
    && (n > 0 ==> d.x == Some(Stream(m, tokens, n - 1, NUM_LAYERS)))
  }

  lemma TokenHolds<X, R>(m: Model<X, R>, tokens: seq<nat>, d: Decode<X, R>, k: nat, n: nat, maxSeqLen: nat)
    requires Shaped(d.cache, |d.cache|, maxSeqLen) && |d.cache| >= KV_SHARED_FIRST_LAYER
    requires Decoded(m, tokens, d, k) && n == k + 1 <= |tokens| && n <= maxSeqLen
    ensures Decoded(m, tokens, Forward(m, d, tokens[k], maxSeqLen), n)
  {
    var s := Pass(d.cache, m.embed(tokens[k]), d.trace);
    LayersHold(m, tokens, s, NUM_LAYERS, k);
    ForwardIs(m, d, tokens[k], maxSeqLen, Layers(m, s, NUM_LAYERS, k));
    NextPosition(m, tokens, Layers(m, s, NUM_LAYERS, k).cache, k, n, NUM_LAYERS);
  }

  lemma {:induction false} RunHolds<X, R>(
      m: Model<X, R>, tokens: seq<nat>, d: Decode<X, R>, n: nat, maxSeqLen: nat)
    requires Shaped(d.cache, |d.cache|, maxSeqLen) && |d.cache| >= KV_SHARED_FIRST_LAYER
    requires Decoded(m, tokens, d, 0) && n <= |tokens| && n <= maxSeqLen
    ensures Decoded(m, tokens, Run(m, d, tokens[..n], maxSeqLen), n)
  {
    if n > 0 {
      var k := n - 1;
      RunHolds(m, tokens, d, k, maxSeqLen);
      RunOneMore(m, d, tokens[..k], tokens[k], tokens[..n], maxSeqLen);
      TokenHolds(m, tokens, Run(m, d, tokens[..k], maxSeqLen), k, n, maxSeqLen);
    }
  }

  /** Every run that fits computes what the model computes without a cache: the streams
      after the last token are those obtained by projecting every key and value anew,
      and every row stored is the key and the value of its layer and position. */
  lemma CacheIsTransparent<X, R>(m: Model<X, R>, tokens: seq<nat>, layers: nat, maxSeqLen: nat, zero: R)
    requires layers >= KV_SHARED_FIRST_LAYER && 1 <= |tokens| <= maxSeqLen
    ensures var d := Run(m, Fresh(layers, maxSeqLen, zero), tokens, maxSeqLen);
      && d.x == Some(Stream(m, tokens, |tokens| - 1, 35))
      && forall i :: 0 <= i < |d.trace| && d.trace[i].Write? ==>
           var a := d.trace[i];
           && a.pos < |tokens|
           && a.kv == (m.half(m.project(Stream(m, tokens, a.pos, a.layer), a.layer, a.pos).0),
                       m.half(m.project(Stream(m, tokens, a.pos, a.layer), a.layer, a.pos).1))
  {
    RunHolds(m, tokens, Fresh(layers, maxSeqLen, zero), |tokens|, maxSeqLen);
    assert tokens[..|tokens|] == tokens;
  }

  // ----- the loops of the decoder

  /** A session's decoding state: its cache, position and last streams. */
  class Session<X, R> {
    const m: Model<X, R>
    const cache: Cache<R>
    var pos: nat
    var xs: Option<X>
    var failed: bool
    ghost var trace: seq<Access<R>>

    ghost predicate Valid() {
      cache.Valid() && cache.layers >= KV_SHARED_FIRST_LAYER && cache.half == m.half && cache.widen == m.widen
    }

    ghost function Abs(): (d: Decode<X, R>)
      requires Valid()
      reads this, cache.k, cache.v
      ensures Shaped(d.cache, cache.layers, cache.maxSeqLen)
    {
      Decode(cache.Contents(), pos, xs, trace, failed)
    }

    /** `_new_state` */
    constructor (m: Model<X, R>, maxSeqLen: nat, zero: R)
      ensures Valid() && fresh(cache.k) && fresh(cache.v) && cache.maxSeqLen == maxSeqLen && this.m == m
      ensures Abs() == Fresh(NUM_LAYERS, maxSeqLen, zero)
    {
      this.m := m;
      cache := new Cache(NUM_LAYERS, maxSeqLen, m.half, m.widen, zero);
      pos, xs, failed, trace := 0, None, false, [];
    }

    /** `project_qkv` and what follows it in one layer; None is the IndexError. */
    method ForwardLayer(x: X, layer: nat) returns (y: Option<X>)
      requires Valid() && layer < NUM_LAYERS
      modifies this`trace, cache.k, cache.v
      ensures y.Some? <==> pos < cache.maxSeqLen
      ensures y.Some? ==>
        Serves(old(cache.Contents()), pos) &&
        Pass(cache.Contents(), y.value, trace)
          == LayerStep(m, Pass(old(cache.Contents()), x, old(trace)), layer, pos)
      ensures y.None? && layer < KV_SHARED_FIRST_LAYER ==>
        cache.Contents() == old(cache.Contents()) && trace == old(trace)
    {
      SourceIsOwned(layer);
      if layer < KV_SHARED_FIRST_LAYER {
        var kv := m.project(x, layer, pos);
        var ok := cache.Store(layer, pos, kv.0, kv.1);
        if !ok {
          return None;
        }
        trace := trace + [Write(layer, pos, Stored(m, x, layer, pos))];
      }
      var rows := cache.ReadForLayer(layer, pos);
      if rows.None? {
        return None;
      }
      trace := trace + [Read(layer, pos, rows.value.0, rows.value.1)];
      assert layer >= KV_SHARED_FIRST_LAYER ==> old(trace) + [] == old(trace);
      return Some(m.mix(x, layer, pos, rows.value.0, rows.value.1));
    }

    /** The layer loop of `_forward_one_token`. */
    method ForwardLayers(x0: X) returns (y: Option<X>)
      requires Valid()
      modifies this`trace, cache.k, cache.v
      ensures y.Some? <==> pos < cache.maxSeqLen
      ensures y.Some? ==>
        Pass(cache.Contents(), y.value, trace)
          == Layers(m, Pass(old(cache.Contents()), x0, old(trace)), NUM_LAYERS, pos)
      ensures y.None? ==> cache.Contents() == old(cache.Contents()) && trace == old(trace)
    {
      var x := x0;
      ghost var start := Pass(cache.Contents(), x0, trace);
      ghost var done := start;
      var layer := 0;
      while layer < NUM_LAYERS
        invariant layer <= NUM_LAYERS && done == Pass(cache.Contents(), x, trace)
        invariant layer > 0 ==> Serves(start.cache, pos) && pos < cache.maxSeqLen
        invariant done == if layer > 0 then Layers(m, start, layer, pos) else start
      {
        var next := layer + 1;
        ghost var before := done;
        y := ForwardLayer(x, layer);
        if y.None? {
          return;
        }
        x := y.value;
        done := Pass(cache.Contents(), x, trace);
        OneLayer(m, start, before, done, layer, next, pos);
        layer := next;
      }
      y := Some(x);
    }

    /** `_forward_one_token` */
    method ForwardOneToken(token: nat)
      requires Valid() && !failed
      modifies this, cache.k, cache.v
      ensures Abs() == Forward(m, old(Abs()), token, cache.maxSeqLen)
    {
      ghost var d := Abs();
      var y := ForwardLayers(m.embed(token));
      if y.None? {
        failed := true;
        ForwardFails(m, d, token, cache.maxSeqLen);
      } else {
        pos, xs := pos + 1, y;
        ForwardIs(m, d, token, cache.maxSeqLen, Pass(cache.Contents(), y.value, trace));
      }
    }

    /** The first token of the rest of a run. */
    method Advance(token: nat, ghost rest: seq<nat>, ghost left: seq<nat>)
      requires Valid() && !failed && rest == [token] + left
      modifies this, cache.k, cache.v
      ensures Run(m, Abs(), left, cache.maxSeqLen) == Run(m, old(Abs()), rest, cache.maxSeqLen)
      ensures failed ==> Abs() == Run(m, Abs(), left, cache.maxSeqLen)
    {
      ghost var d := Abs();
      ForwardOneToken(token);
      RunHead(m, d, token, left, rest, cache.maxSeqLen);
      if failed { StaysFailed(m, Abs(), left, cache.maxSeqLen); }
    }

    /** The prompt loop of `generate`. */
    method LoadPrompt(prompt: seq<nat>)
      requires Valid() && !failed
      modifies this, cache.k, cache.v
      ensures Abs() == Run(m, old(Abs()), prompt, cache.maxSeqLen)
    {
      ghost var d := Abs();
      var rest := prompt;
      while rest != []
        invariant !failed && Run(m, Abs(), rest, cache.maxSeqLen) == Run(m, d, prompt, cache.maxSeqLen)
      {
        var token, left := rest[0], rest[1..];
        Advance(token, rest, left);
        if failed {
          return;
        }
        rest := left;
      }
    }

    /** The sampling loop of `generate`; `draws` are the sampled tokens. */
    method Continue(draws: seq<nat>) returns (generated: seq<nat>)
      requires Valid() && !failed
      modifies this, cache.k, cache.v
      ensures Abs() == Run(m, old(Abs()), UntilStop(draws), cache.maxSeqLen)
      ensures !failed ==> generated == UntilStop(draws)
    {
      generated := [];
      ghost var all, feed := UntilStop(draws), UntilStop(draws);
      ghost var end := Run(m, Abs(), feed, cache.maxSeqLen);
      var rest := draws;
      while rest != []
        invariant !failed && feed == UntilStop(rest) && all == generated + feed
        invariant Run(m, Abs(), feed, cache.maxSeqLen) == end
      {
        var next, left := rest[0], rest[1..];
        if next in STOP_TOKENS {
          assert generated + [] == generated;
          return;
        }
        ghost var more := UntilStop(left);
        assert all == (generated + [next]) + more;
        Advance(next, feed, more);
        generated := generated + [next];
        if failed {
          return;
        }
        rest, feed := left, more;
      }
      assert generated + [] == generated;
    }

    /** The CPU path of `generate`: the whole prompt, then one sampled token after
        another until a stop token. */
    method Generate(prompt: seq<nat>, draws: seq<nat>) returns (generated: seq<nat>)
      requires Valid() && !failed
      modifies this, cache.k, cache.v
      ensures Abs() == Run(m, old(Abs()), prompt + UntilStop(draws), cache.maxSeqLen)
      ensures !failed ==> generated == UntilStop(draws)
    {
      ghost var d := Abs();
      LoadPrompt(prompt);
      RunAppend(m, d, prompt, UntilStop(draws), prompt + UntilStop(draws), cache.maxSeqLen);
      if failed {
        StaysFailed(m, Abs(), UntilStop(draws), cache.maxSeqLen);
        return [];
      }
      generated := Continue(draws);
    }
  }

  lemma RunOneMore<X, R>(
      m: Model<X, R>, d: Decode<X, R>, a: seq<nat>, token: nat, all: seq<nat>, maxSeqLen: nat)
    requires Shaped(d.cache, |d.cache|, maxSeqLen) && |d.cache| >= KV_SHARED_FIRST_LAYER
    requires all == a + [token]
    ensures Run(m, d, all, maxSeqLen) == Forward(m, Run(m, d, a, maxSeqLen), token, maxSeqLen)
  {
    assert all[..|all| - 1] == a;
  }

  lemma {:induction false} RunAppend<X, R>(
      m: Model<X, R>, d: Decode<X, R>, a: seq<nat>, b: seq<nat>, all: seq<nat>, maxSeqLen: nat)
    requires Shaped(d.cache, |d.cache|, maxSeqLen) && |d.cache| >= KV_SHARED_FIRST_LAYER
    requires all == a + b
    ensures Run(m, d, all, maxSeqLen) == Run(m, Run(m, d, a, maxSeqLen), b, maxSeqLen)
    decreases |b|
  {
    if b == [] {
      assert all == a;
    } else {
      var b', t := b[..|b| - 1], b[|b| - 1];
      assert all == (a + b') + [t] && b == b' + [t];
      RunAppend(m, d, a, b', a + b', maxSeqLen);
      RunOneMore(m, d, a + b', t, all, maxSeqLen);
      RunOneMore(m, Run(m, d, a, maxSeqLen), b', t, b, maxSeqLen);
    }
  }

  const STOP_TOKENS: set<nat> := {1, 106}

  /** Sampled tokens up to the first stop token. */
  function UntilStop(draws: seq<nat>): seq<nat> {
    if draws == [] || draws[0] in STOP_TOKENS then [] else [draws[0]] + UntilStop(draws[1..])
  }

  /** What is generated is a beginning of the draws without the tokens 1 and 106, and only
      one of these ends it before the draws do. */
  lemma {:induction false} UntilStopIs(draws: seq<nat>)
    ensures var n := |UntilStop(draws)|;
      && n <= |draws| && UntilStop(draws) == draws[..n]
      && (forall i :: 0 <= i < n ==> draws[i] != 1 && draws[i] != 106)
      && (n < |draws| ==> draws[n] == 1 || draws[n] == 106)
  {
    if draws != [] && draws[0] !in STOP_TOKENS {
      UntilStopIs(draws[1..]);
      var n := |UntilStop(draws[1..])|;
      assert draws[1..][..n] == draws[1..n + 1];
      assert [draws[0]] + draws[1..n + 1] == draws[..n + 1];
      forall i | 0 <= i < n + 1 ensures draws[i] != 1 && draws[i] != 106 {
        if i > 0 { assert draws[1..][i - 1] == draws[i]; }
      }
    }
  }

  /** Running a token and then the others. */
  lemma RunHead<X, R>(
      m: Model<X, R>, d: Decode<X, R>, token: nat, left: seq<nat>, rest: seq<nat>, maxSeqLen: nat)
    requires Shaped(d.cache, |d.cache|, maxSeqLen) && |d.cache| >= KV_SHARED_FIRST_LAYER
    requires rest == [token] + left
    ensures Run(m, d, rest, maxSeqLen) == Run(m, Forward(m, d, token, maxSeqLen), left, maxSeqLen)
  {
    RunOneMore(m, d, [], token, [token], maxSeqLen);
    RunAppend(m, d, [token], left, rest, maxSeqLen);
  }

  lemma {:induction false} StaysFailed<X, R>(m: Model<X, R>, d: Decode<X, R>, tokens: seq<nat>, maxSeqLen: nat)
    requires Shaped(d.cache, |d.cache|, maxSeqLen) && |d.cache| >= KV_SHARED_FIRST_LAYER && d.failed
    ensures Run(m, d, tokens, maxSeqLen) == d
    decreases |tokens|
  {
    if tokens != [] { StaysFailed(m, d, tokens[..|tokens| - 1], maxSeqLen); }
  }
}
