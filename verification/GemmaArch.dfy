/** The layer structure of `sw/runtime/gemma/arch.py`: the five-layer RoPE cycle
    and which layer's keys and values each layer reads. */
module GemmaArch {

  datatype RopeKind = Local | Global

  const NUM_LAYERS: nat := 35
  const SLIDING_KV_SRC_LAYER: nat := 18
  const GLOBAL_KV_SRC_LAYER: nat := 19
  const KV_SHARED_FIRST_LAYER: nat := 20

  const ROPE_PATTERN: seq<RopeKind> := [Local, Local, Local, Local, Global]
  const ROPE_LOCAL_THETA: real := 10_000.0
  const ROPE_GLOBAL_THETA: real := 1_000_000.0

  function Kind(layer: nat): RopeKind {
    ROPE_PATTERN[layer % 5]
  }

  function Theta(layer: nat): real {
    if Kind(layer) == Global then ROPE_GLOBAL_THETA else ROPE_LOCAL_THETA
  }

  /** `kv_source_layer` */
  function KvSource(layer: nat): nat {
    if layer < KV_SHARED_FIRST_LAYER then layer
    else if Kind(layer) == Global then GLOBAL_KV_SRC_LAYER
    else SLIDING_KV_SRC_LAYER
  }

  /** A layer's source owns its cache, comes no later than the layer, is its own
      source, and rotates with the same angle base. */
  lemma SourceIsOwned(layer: nat)
    ensures KvSource(layer) < KV_SHARED_FIRST_LAYER && KvSource(layer) <= layer
    ensures KvSource(KvSource(layer)) == KvSource(layer)
    ensures Theta(KvSource(layer)) == Theta(layer)
  {
    assert Kind(18) == Local && Kind(19) == Global;
  }

  /** Every fifth layer is global and rotates with the larger base. */
  lemma ThetaIs(layer: nat)
    ensures Theta(layer) == if layer % 5 == 4 then 1_000_000.0 else 10_000.0
  {
    assert ROPE_PATTERN[layer % 5] == if layer % 5 == 4 then Global else Local;
  }

  /** The source is the latest layer that owns a cache, is no later than the reader and
      rotates like it: an owner is its own source, layers 20 to 34 read 18 or 19. */
  lemma SourceIsLatest(layer: nat, owner: nat)
    requires owner < 20 && owner <= layer && Theta(owner) == Theta(layer)
    ensures owner <= KvSource(layer) < 20 && KvSource(layer) <= layer
    ensures Theta(KvSource(layer)) == Theta(layer)
  {
    SourceIsOwned(layer);
    ThetaIs(owner);
    ThetaIs(layer);
  }
}
