/** The 64-bit v002 instruction words of `tools/v002/generate_smoke_program.py`
    and the 72-bit DataMover descriptor of `sw/runtime/npu/dma.py`. */
module V002Isa {
  import opened Prelude
  import opened Bits

  const GEMV: nat := 0x0
  const GEMM: nat := 0x1
  const MEMCPY: nat := 0x2
  const MEMSET: nat := 0x3
  const CVO: nat := 0x4

  /** One instruction's fields, as callers pass them: any integers. */
  datatype Instruction =
    | Compute(matrix: bool, destReg: int, srcAddr: int, flags: int, sizePtr: int, shapePtr: int,
              lanes: int, reserved: int)
    | Memcpy(fromDevice: int, toDevice: int, destAddr: int, srcAddr: int, auxAddr: int,
             shapePtr: int, isAsync: int)
    | Memset(destCache: int, destAddr: int, a: int, b: int, c: int, reserved: int)
    | Cvo(func: int, srcAddr: int, dstAddr: int, length: int, flags: int, isAsync: int)

  // ----- encoders

  /** `check_range`: the value itself, or a ValueError naming the field. */
  function CheckRange(name: string, value: int, bits: nat): Result<nat, string> {
    if value < 0 || value >= Pow2(bits) then Err(name) else Ok(value)
  }

  function EncodeGemmLike(opcode: nat, destReg: int, srcAddr: int, flags: int, sizePtr: int, shapePtr: int,
                          lanes: int, reserved: int): Result<nat, string>
  {
    var p :- CheckRange("dest_reg", destReg, 17);
    var q :- CheckRange("src_addr", srcAddr, 17);
    var r :- CheckRange("flags", flags, 6);
    var s :- CheckRange("size_ptr_addr", sizePtr, 6);
    var t :- CheckRange("shape_ptr_addr", shapePtr, 6);
    var u :- CheckRange("parallel_lane", lanes, 5);
    var v :- CheckRange("reserved", reserved, 3);
    Ok(Or(Shl(opcode, 60), ComputeBody(p, q, r, s, t, u, v)))
  }

  function EncodeMemcpy(opcode: nat, fromDevice: int, toDevice: int, destAddr: int, srcAddr: int, auxAddr: int,
                        shapePtr: int, isAsync: int): Result<nat, string>
  {
    var p :- CheckRange("from_device", fromDevice, 1);
    var q :- CheckRange("to_device", toDevice, 1);
    var r :- CheckRange("dest_addr", destAddr, 17);
    var s :- CheckRange("src_addr", srcAddr, 17);
    var t :- CheckRange("aux_addr", auxAddr, 17);
    var u :- CheckRange("shape_ptr_addr", shapePtr, 6);
    var v :- CheckRange("async", isAsync, 1);
    Ok(Or(Shl(opcode, 60), MemcpyBody(p, q, r, s, t, u, v)))
  }

  function EncodeMemset(opcode: nat, destCache: int, destAddr: int, a: int, b: int, c: int,
                        reserved: int): Result<nat, string>
  {
    var p :- CheckRange("dest_cache", destCache, 2);
    var q :- CheckRange("dest_addr", destAddr, 6);
    var r :- CheckRange("a_value", a, 16);
    var s :- CheckRange("b_value", b, 16);
    var t :- CheckRange("c_value", c, 16);
    var u :- CheckRange("reserved", reserved, 4);
    Ok(Or(Shl(opcode, 60), MemsetBody(p, q, r, s, t, u)))
  }

  function EncodeCvo(opcode: nat, func: int, srcAddr: int, dstAddr: int, length: int, flags: int,
                     isAsync: int): Result<nat, string>
  {
    var p :- CheckRange("cvo_func", func, 4);
    var q :- CheckRange("src_addr", srcAddr, 17);
    var r :- CheckRange("dst_addr", dstAddr, 17);
    var s :- CheckRange("length", length, 16);
    var t :- CheckRange("flags", flags, 5);
    var u :- CheckRange("async", isAsync, 1);
    Ok(Or(Shl(opcode, 60), CvoBody(p, q, r, s, t, u)))
  }

  /** `instruction`: the encoder of each opcode. */
  function Encode(i: Instruction): Result<nat, string> {
    match i
    case Compute(matrix, destReg, srcAddr, flags, sizePtr, shapePtr, lanes, reserved) =>
      EncodeGemmLike(if matrix then GEMM else GEMV, destReg, srcAddr, flags, sizePtr, shapePtr, lanes, reserved)
    case Memcpy(fromDevice, toDevice, destAddr, srcAddr, auxAddr, shapePtr, isAsync) =>
      EncodeMemcpy(MEMCPY, fromDevice, toDevice, destAddr, srcAddr, auxAddr, shapePtr, isAsync)
    case Memset(destCache, destAddr, a, b, c, reserved) =>
      EncodeMemset(MEMSET, destCache, destAddr, a, b, c, reserved)
    case Cvo(func, srcAddr, dstAddr, length, flags, isAsync) =>
      EncodeCvo(CVO, func, srcAddr, dstAddr, length, flags, isAsync)
  }

  function ComputeBody(p: nat, q: nat, r: nat, s: nat, t: nat, u: nat, v: nat): nat {
    Or(Or(Or(Or(Or(Or(Shl(p, 43), Shl(q, 26)), Shl(r, 20)), Shl(s, 14)), Shl(t, 8)), Shl(u, 3)), v)
  }

  function MemcpyBody(p: nat, q: nat, r: nat, s: nat, t: nat, u: nat, v: nat): nat {
    Or(Or(Or(Or(Or(Or(Shl(p, 59), Shl(q, 58)), Shl(r, 41)), Shl(s, 24)), Shl(t, 7)), Shl(u, 1)), v)
  }

  function MemsetBody(p: nat, q: nat, r: nat, s: nat, t: nat, u: nat): nat {
    Or(Or(Or(Or(Or(Shl(p, 58), Shl(q, 52)), Shl(r, 36)), Shl(s, 20)), Shl(t, 4)), u)
  }

  function CvoBody(p: nat, q: nat, r: nat, s: nat, t: nat, u: nat): nat {
    Or(Or(Or(Or(Or(Shl(p, 56), Shl(q, 39)), Shl(r, 22)), Shl(s, 6)), Shl(t, 1)), u)
  }

  // ----- the layout they follow

  function Opcode(i: Instruction): nat {
    match i
    case Compute(matrix, _, _, _, _, _, _, _) => if matrix then GEMM else GEMV
    case Memcpy(_, _, _, _, _, _, _) => MEMCPY
    case Memset(_, _, _, _, _, _) => MEMSET
    case Cvo(_, _, _, _, _, _) => CVO
  }

  function Widths(opcode: nat): seq<nat> {
    if opcode == MEMCPY then [1, 1, 17, 17, 17, 6, 1]
    else if opcode == MEMSET then [2, 6, 16, 16, 16, 4]
    else if opcode == CVO then [4, 17, 17, 16, 5, 1]
    else [17, 17, 6, 6, 6, 5, 3]
  }

  /** The field values in word order. */
  function Values(i: Instruction): seq<int> {
    match i
    case Compute(_, p, q, r, s, t, u, v) => [p, q, r, s, t, u, v]
    case Memcpy(p, q, r, s, t, u, v) => [p, q, r, s, t, u, v]
    case Memset(p, q, r, s, t, u) => [p, q, r, s, t, u]
    case Cvo(p, q, r, s, t, u) => [p, q, r, s, t, u]
  }

  ghost predicate InRange(i: Instruction) {
    forall k :: 0 <= k < |Values(i)| ==> 0 <= Values(i)[k] < Pow2(Widths(Opcode(i))[k])
  }

  function Fields(i: Instruction): (vs: seq<nat>)
    requires InRange(i)
    ensures vs == Values(i)
  {
    seq(|Values(i)|, k requires 0 <= k < |Values(i)| => Values(i)[k])
  }

  lemma WidthsAre60(opcode: nat)
    ensures Width(Widths(opcode)) == 60
  {
    if opcode == MEMCPY {
      Seven(0, 1, 1, 17, 17, 17, 6, 1, 0, 0, 0, 0, 0, 0, 0);
    } else if opcode == MEMSET {
      Six(0, 2, 6, 16, 16, 16, 4, 0, 0, 0, 0, 0, 0);
    } else if opcode == CVO {
      Six(0, 4, 17, 17, 16, 5, 1, 0, 0, 0, 0, 0, 0);
    } else {
      Seven(0, 17, 17, 6, 6, 6, 5, 3, 0, 0, 0, 0, 0, 0, 0);
    }
  }

  // ----- the shift-and-or expressions are instances of the layout

  lemma ComputeBodyIs(p: nat, q: nat, r: nat, s: nat, t: nat, u: nat, v: nat)
    ensures ComputeBody(p, q, r, s, t, u, v) == ShiftOr(0, [17, 17, 6, 6, 6, 5, 3], [p, q, r, s, t, u, v])
  {
    Seven(0, 17, 17, 6, 6, 6, 5, 3, p, q, r, s, t, u, v);
    OrZero(Shl(p, 43));
  }

  lemma MemcpyBodyIs(p: nat, q: nat, r: nat, s: nat, t: nat, u: nat, v: nat)
    ensures MemcpyBody(p, q, r, s, t, u, v) == ShiftOr(0, [1, 1, 17, 17, 17, 6, 1], [p, q, r, s, t, u, v])
  {
    Seven(0, 1, 1, 17, 17, 17, 6, 1, p, q, r, s, t, u, v);
    OrZero(Shl(p, 59));
  }

  lemma MemsetBodyIs(p: nat, q: nat, r: nat, s: nat, t: nat, u: nat)
    ensures MemsetBody(p, q, r, s, t, u) == ShiftOr(0, [2, 6, 16, 16, 16, 4], [p, q, r, s, t, u])
  {
    Six(0, 2, 6, 16, 16, 16, 4, p, q, r, s, t, u);
    OrZero(Shl(p, 58));
  }

  lemma CvoBodyIs(p: nat, q: nat, r: nat, s: nat, t: nat, u: nat)
    ensures CvoBody(p, q, r, s, t, u) == ShiftOr(0, [4, 17, 17, 16, 5, 1], [p, q, r, s, t, u])
  {
    Six(0, 4, 17, 17, 16, 5, 1, p, q, r, s, t, u);
    OrZero(Shl(p, 56));
  }

  lemma GemmLikeInRange(opcode: nat, p: nat, q: nat, r: nat, s: nat, t: nat, u: nat, v: nat)
    requires p < Pow2(17) && q < Pow2(17) && r < Pow2(6) && s < Pow2(6) && t < Pow2(6) && u < Pow2(5) &&
      v < Pow2(3)
    ensures EncodeGemmLike(opcode, p, q, r, s, t, u, v)
         == Ok(Or(Shl(opcode, 60), ComputeBody(p, q, r, s, t, u, v)))
  {
  }

  lemma GemmLikeOutOfRange(opcode: nat, p: int, q: int, r: int, s: int, t: int, u: int, v: int)
    requires !(0 <= p < Pow2(17) && 0 <= q < Pow2(17) && 0 <= r < Pow2(6) && 0 <= s < Pow2(6) && 0 <= t < Pow2(6) &&
      0 <= u < Pow2(5) && 0 <= v < Pow2(3))
    ensures EncodeGemmLike(opcode, p, q, r, s, t, u, v).Err?
  {
  }

  lemma FieldRange(i: Instruction, k: nat, v: int, w: nat)
    requires InRange(i) && k < |Values(i)| && v == Values(i)[k] && w == Widths(Opcode(i))[k]
    ensures 0 <= v < Pow2(w)
  {
  }

  lemma ComputeRanges(i: Instruction)
    requires i.Compute? && InRange(i)
    ensures 0 <= i.destReg < Pow2(17) && 0 <= i.srcAddr < Pow2(17) && 0 <= i.flags < Pow2(6)
    ensures 0 <= i.sizePtr < Pow2(6) && 0 <= i.shapePtr < Pow2(6) && 0 <= i.lanes < Pow2(5)
    ensures 0 <= i.reserved < Pow2(3)
  {
    FieldRange(i, 0, i.destReg, 17);
    FieldRange(i, 1, i.srcAddr, 17);
    FieldRange(i, 2, i.flags, 6);
    FieldRange(i, 3, i.sizePtr, 6);
    FieldRange(i, 4, i.shapePtr, 6);
    FieldRange(i, 5, i.lanes, 5);
    FieldRange(i, 6, i.reserved, 3);
  }

  lemma ComputeFits(i: Instruction, opcode: nat)
    requires i.Compute? && opcode == Opcode(i) && InRange(i)
    ensures Encode(i) == Ok(Or(Shl(opcode, 60), ShiftOr(0, Widths(opcode), Fields(i))))
  {
    ComputeRanges(i);
    GemmLikeInRange(opcode, i.destReg, i.srcAddr, i.flags, i.sizePtr, i.shapePtr, i.lanes, i.reserved);
    ComputeBodyIs(i.destReg, i.srcAddr, i.flags, i.sizePtr, i.shapePtr, i.lanes, i.reserved);
  }

  lemma ComputeFails(i: Instruction, opcode: nat)
    requires i.Compute? && opcode == Opcode(i) && !InRange(i)
    ensures Encode(i).Err?
  {
    GemmLikeOutOfRange(opcode, i.destReg, i.srcAddr, i.flags, i.sizePtr, i.shapePtr, i.lanes, i.reserved);
  }

  lemma MemcpyInRange(opcode: nat, p: nat, q: nat, r: nat, s: nat, t: nat, u: nat, v: nat)
    requires p < Pow2(1) && q < Pow2(1) && r < Pow2(17) && s < Pow2(17) && t < Pow2(17) && u < Pow2(6) &&
      v < Pow2(1)
    ensures EncodeMemcpy(opcode, p, q, r, s, t, u, v)
         == Ok(Or(Shl(opcode, 60), MemcpyBody(p, q, r, s, t, u, v)))
  {
  }

  lemma MemcpyOutOfRange(opcode: nat, p: int, q: int, r: int, s: int, t: int, u: int, v: int)
    requires !(0 <= p < Pow2(1) && 0 <= q < Pow2(1) && 0 <= r < Pow2(17) && 0 <= s < Pow2(17) && 0 <= t < Pow2(17) &&
      0 <= u < Pow2(6) && 0 <= v < Pow2(1))
    ensures EncodeMemcpy(opcode, p, q, r, s, t, u, v).Err?
  {
  }

  lemma MemcpyFits(i: Instruction, opcode: nat)
    requires i.Memcpy? && opcode == Opcode(i) && InRange(i)
    ensures Encode(i) == Ok(Or(Shl(opcode, 60), ShiftOr(0, Widths(opcode), Fields(i))))
  {
    var vs := Values(i);
    assert vs[0] == i.fromDevice && vs[1] == i.toDevice && vs[2] == i.destAddr && vs[3] == i.srcAddr;
    assert vs[4] == i.auxAddr && vs[5] == i.shapePtr && vs[6] == i.isAsync;
    MemcpyInRange(opcode, i.fromDevice, i.toDevice, i.destAddr, i.srcAddr, i.auxAddr, i.shapePtr, i.isAsync);
    MemcpyBodyIs(i.fromDevice, i.toDevice, i.destAddr, i.srcAddr, i.auxAddr, i.shapePtr, i.isAsync);
  }

  lemma MemcpyFails(i: Instruction, opcode: nat)
    requires i.Memcpy? && opcode == Opcode(i) && !InRange(i)
    ensures Encode(i).Err?
  {
    MemcpyOutOfRange(opcode, i.fromDevice, i.toDevice, i.destAddr, i.srcAddr, i.auxAddr, i.shapePtr, i.isAsync);
  }

  lemma MemsetInRange(opcode: nat, p: nat, q: nat, r: nat, s: nat, t: nat, u: nat)
    requires p < Pow2(2) && q < Pow2(6) && r < Pow2(16) && s < Pow2(16) && t < Pow2(16) && u < Pow2(4)
    ensures EncodeMemset(opcode, p, q, r, s, t, u)
         == Ok(Or(Shl(opcode, 60), MemsetBody(p, q, r, s, t, u)))
  {
  }

  lemma MemsetOutOfRange(opcode: nat, p: int, q: int, r: int, s: int, t: int, u: int)
    requires !(0 <= p < Pow2(2) && 0 <= q < Pow2(6) && 0 <= r < Pow2(16) && 0 <= s < Pow2(16) && 0 <= t < Pow2(16) &&
      0 <= u < Pow2(4))
    ensures EncodeMemset(opcode, p, q, r, s, t, u).Err?
  {
  }

  lemma MemsetFits(i: Instruction, opcode: nat)
    requires i.Memset? && opcode == Opcode(i) && InRange(i)
    ensures Encode(i) == Ok(Or(Shl(opcode, 60), ShiftOr(0, Widths(opcode), Fields(i))))
  {
    var vs := Values(i);
    assert vs[0] == i.destCache && vs[1] == i.destAddr && vs[2] == i.a && vs[3] == i.b;
    assert vs[4] == i.c && vs[5] == i.reserved;
    MemsetInRange(opcode, i.destCache, i.destAddr, i.a, i.b, i.c, i.reserved);
    MemsetBodyIs(i.destCache, i.destAddr, i.a, i.b, i.c, i.reserved);
  }

  lemma MemsetFails(i: Instruction, opcode: nat)
    requires i.Memset? && opcode == Opcode(i) && !InRange(i)
    ensures Encode(i).Err?
  {
    MemsetOutOfRange(opcode, i.destCache, i.destAddr, i.a, i.b, i.c, i.reserved);
  }

  lemma CvoInRange(opcode: nat, p: nat, q: nat, r: nat, s: nat, t: nat, u: nat)
    requires p < Pow2(4) && q < Pow2(17) && r < Pow2(17) && s < Pow2(16) && t < Pow2(5) && u < Pow2(1)
    ensures EncodeCvo(opcode, p, q, r, s, t, u)
         == Ok(Or(Shl(opcode, 60), CvoBody(p, q, r, s, t, u)))
  {
  }

  lemma CvoOutOfRange(opcode: nat, p: int, q: int, r: int, s: int, t: int, u: int)
    requires !(0 <= p < Pow2(4) && 0 <= q < Pow2(17) && 0 <= r < Pow2(17) && 0 <= s < Pow2(16) && 0 <= t < Pow2(5) &&
      0 <= u < Pow2(1))
    ensures EncodeCvo(opcode, p, q, r, s, t, u).Err?
  {
  }

  lemma CvoFits(i: Instruction, opcode: nat)
    requires i.Cvo? && opcode == Opcode(i) && InRange(i)
    ensures Encode(i) == Ok(Or(Shl(opcode, 60), ShiftOr(0, Widths(opcode), Fields(i))))
  {
    var vs := Values(i);
    assert vs[0] == i.func && vs[1] == i.srcAddr && vs[2] == i.dstAddr && vs[3] == i.length;
    assert vs[4] == i.flags && vs[5] == i.isAsync;
    CvoInRange(opcode, i.func, i.srcAddr, i.dstAddr, i.length, i.flags, i.isAsync);
    CvoBodyIs(i.func, i.srcAddr, i.dstAddr, i.length, i.flags, i.isAsync);
  }

  lemma CvoFails(i: Instruction, opcode: nat)
    requires i.Cvo? && opcode == Opcode(i) && !InRange(i)
    ensures Encode(i).Err?
  {
    CvoOutOfRange(opcode, i.func, i.srcAddr, i.dstAddr, i.length, i.flags, i.isAsync);
  }

  lemma EncodeFits(i: Instruction, opcode: nat)
    requires opcode == Opcode(i) && InRange(i)
    ensures Encode(i) == Ok(Or(Shl(opcode, 60), ShiftOr(0, Widths(opcode), Fields(i))))
  {
    match i
    case Compute(_, _, _, _, _, _, _, _) => ComputeFits(i, opcode);
    case Memcpy(_, _, _, _, _, _, _) => MemcpyFits(i, opcode);
    case Memset(_, _, _, _, _, _) => MemsetFits(i, opcode);
    case Cvo(_, _, _, _, _, _) => CvoFits(i, opcode);
  }

  lemma EncodeFails(i: Instruction, opcode: nat)
    requires opcode == Opcode(i) && !InRange(i)
    ensures Encode(i).Err?
  {
    match i
    case Compute(_, _, _, _, _, _, _, _) => ComputeFails(i, opcode);
    case Memcpy(_, _, _, _, _, _, _) => MemcpyFails(i, opcode);
    case Memset(_, _, _, _, _, _) => MemsetFails(i, opcode);
    case Cvo(_, _, _, _, _, _) => CvoFails(i, opcode);
  }

  lemma PackCons(w: nat, ws: seq<nat>, v: nat, vs: seq<nat>)
    requires Fits(ws, vs) && v < Pow2(w)
    ensures Fits([w] + ws, [v] + vs)
    ensures Width([w] + ws) == w + Width(ws)
    ensures Pack([w] + ws, [v] + vs) == Shl(v, Width(ws)) + Pack(ws, vs)
  {
    assert ([w] + ws)[1..] == ws && ([v] + vs)[1..] == vs;
  }

  /** An opcode or-ed above a packed body is one more packed field. */
  lemma OpcodeAbove(opcode: nat, ws: seq<nat>, vs: seq<nat>)
    requires opcode < Pow2(4) && Width(ws) == 60 && Fits(ws, vs)
    ensures Fits([4] + ws, [opcode] + vs)
    ensures Or(Shl(opcode, 60), ShiftOr(0, ws, vs)) == Pack([4] + ws, [opcode] + vs)
  {
    ShiftOrPacks(ws, vs);
    OrDisjoint(opcode, 60, Pack(ws, vs));
    PackCons(4, ws, opcode, vs);
  }

  lemma FieldsFit(i: Instruction)
    requires InRange(i)
    ensures Fits(Widths(Opcode(i)), Fields(i)) && Opcode(i) < Pow2(4)
  {
  }

  /** An encoder fails exactly when a field does not fit; otherwise its word is
      the packed opcode and fields. */
  lemma EncodedWord(i: Instruction, opcode: nat)
    requires opcode == Opcode(i)
    ensures Encode(i).Ok? <==> InRange(i)
    ensures InRange(i) ==>
      && Fits([4] + Widths(opcode), [opcode] + Fields(i))
      && Encode(i) == Ok(Pack([4] + Widths(opcode), [opcode] + Fields(i)))
  {
    if InRange(i) {
      EncodeFits(i, opcode);
      FieldsFit(i);
      WidthsAre60(opcode);
      OpcodeAbove(opcode, Widths(opcode), Fields(i));
    } else {
      EncodeFails(i, opcode);
    }
  }

  /** Every field of an encoded instruction is read back by a shift and a mask at
      its documented position: no field is lost or disturbed by another. */
  lemma NoFieldLost(i: Instruction, word: nat)
    requires Encode(i) == Ok(word)
    ensures word < Pow2(64)
    ensures Unpack([4] + Widths(Opcode(i)), word) == [Opcode(i)] + Values(i)
  {
    var opcode := Opcode(i);
    EncodedWord(i, opcode);
    WidthsAre60(opcode);
    Cons(0, 4, Widths(opcode), 0, Fields(i), 0);
    PackFits([4] + Widths(opcode), [opcode] + Fields(i));
    UnpackPacked([4] + Widths(opcode), [opcode] + Fields(i));
  }

  /** Where the fields of each kind of instruction stand in its word. */
  lemma ComputeSum(opcode: nat, p: nat, q: nat, r: nat, s: nat, t: nat, u: nat, v: nat)
    ensures Pack([4, 17, 17, 6, 6, 6, 5, 3], [opcode, p, q, r, s, t, u, v])
         == opcode * Pow2(60) + p * Pow2(43) + q * Pow2(26) + r * Pow2(20) + s * Pow2(14) + t * Pow2(8)
            + u * Pow2(3) + v
  {
    SumEight(4, 17, 17, 6, 6, 6, 5, 3, opcode, p, q, r, s, t, u, v);
  }

  lemma ComputeFields(i: Instruction, opcode: nat)
    requires i.Compute? && InRange(i) && opcode == Opcode(i)
    ensures i.destReg >= 0 && i.srcAddr >= 0 && i.flags >= 0 && i.sizePtr >= 0 && i.shapePtr >= 0 &&
      i.lanes >= 0 && i.reserved >= 0
    ensures [4] + Widths(opcode) == [4, 17, 17, 6, 6, 6, 5, 3]
    ensures [opcode] + Fields(i)
         == [opcode, i.destReg, i.srcAddr, i.flags, i.sizePtr, i.shapePtr, i.lanes, i.reserved]
  {
    ComputeRanges(i);
  }

  lemma ComputePacked(i: Instruction, word: nat, opcode: nat)
    requires i.Compute? && Encode(i) == Ok(word) && opcode == if i.matrix then 1 else 0
    ensures InRange(i) && i.destReg >= 0 && i.srcAddr >= 0 && i.flags >= 0 && i.sizePtr >= 0 && i.shapePtr >= 0 &&
      i.lanes >= 0 && i.reserved >= 0
    ensures word
         == Pack([4, 17, 17, 6, 6, 6, 5, 3],
                 [opcode, i.destReg, i.srcAddr, i.flags, i.sizePtr, i.shapePtr, i.lanes, i.reserved])
  {
    EncodedWord(i, opcode);
    ComputeFields(i, opcode);
  }

  lemma ComputeWordIs(i: Instruction, word: nat, opcode: nat)
    requires i.Compute? && Encode(i) == Ok(word) && opcode == if i.matrix then 1 else 0
    ensures word == opcode * Pow2(60) + i.destReg * Pow2(43) + i.srcAddr * Pow2(26) + i.flags * Pow2(20)
                    + i.sizePtr * Pow2(14) + i.shapePtr * Pow2(8) + i.lanes * Pow2(3) + i.reserved
  {
    ComputePacked(i, word, opcode);
    ComputeSum(opcode, i.destReg, i.srcAddr, i.flags, i.sizePtr, i.shapePtr, i.lanes, i.reserved);
  }

  lemma MemcpySum(opcode: nat, p: nat, q: nat, r: nat, s: nat, t: nat, u: nat, v: nat)
    ensures Pack([4, 1, 1, 17, 17, 17, 6, 1], [opcode, p, q, r, s, t, u, v])
         == opcode * Pow2(60) + p * Pow2(59) + q * Pow2(58) + r * Pow2(41) + s * Pow2(24) + t * Pow2(7)
            + u * Pow2(1) + v
  {
    SumEight(4, 1, 1, 17, 17, 17, 6, 1, opcode, p, q, r, s, t, u, v);
  }

  lemma MemcpyRanges(i: Instruction)
    requires i.Memcpy? && InRange(i)
    ensures 0 <= i.fromDevice < Pow2(1) && 0 <= i.toDevice < Pow2(1) && 0 <= i.destAddr < Pow2(17) &&
      0 <= i.srcAddr < Pow2(17) && 0 <= i.auxAddr < Pow2(17) && 0 <= i.shapePtr < Pow2(6) &&
      0 <= i.isAsync < Pow2(1)
  {
    FieldRange(i, 0, i.fromDevice, 1);
    FieldRange(i, 1, i.toDevice, 1);
    FieldRange(i, 2, i.destAddr, 17);
    FieldRange(i, 3, i.srcAddr, 17);
    FieldRange(i, 4, i.auxAddr, 17);
    FieldRange(i, 5, i.shapePtr, 6);
    FieldRange(i, 6, i.isAsync, 1);
  }

  lemma MemcpyFields(i: Instruction, opcode: nat)
    requires i.Memcpy? && InRange(i) && opcode == Opcode(i)
    ensures i.fromDevice >= 0 && i.toDevice >= 0 && i.destAddr >= 0 && i.srcAddr >= 0 && i.auxAddr >=
      0 && i.shapePtr >= 0 && i.isAsync >= 0
    ensures [4] + Widths(opcode) == [4, 1, 1, 17, 17, 17, 6, 1]
    ensures [opcode] + Fields(i)
         == [opcode, i.fromDevice, i.toDevice, i.destAddr, i.srcAddr, i.auxAddr, i.shapePtr, i.isAsync]
  {
    MemcpyRanges(i);
  }

  lemma MemcpyPacked(i: Instruction, word: nat, opcode: nat)
    requires i.Memcpy? && Encode(i) == Ok(word) && opcode == 2
    ensures InRange(i) && i.fromDevice >= 0 && i.toDevice >= 0 && i.destAddr >= 0 && i.srcAddr >= 0 && i.auxAddr >=
      0 && i.shapePtr >= 0 && i.isAsync >= 0
    ensures word
         == Pack([4, 1, 1, 17, 17, 17, 6, 1],
                 [opcode, i.fromDevice, i.toDevice, i.destAddr, i.srcAddr, i.auxAddr, i.shapePtr, i.isAsync])
  {
    EncodedWord(i, opcode);
    MemcpyFields(i, opcode);
  }

  lemma MemcpyWordIs(i: Instruction, word: nat, opcode: nat)
    requires i.Memcpy? && Encode(i) == Ok(word) && opcode == 2
    ensures word == opcode * Pow2(60) + i.fromDevice * Pow2(59) + i.toDevice * Pow2(58) + i.destAddr * Pow2(41)
                    + i.srcAddr * Pow2(24) + i.auxAddr * Pow2(7) + i.shapePtr * Pow2(1) + i.isAsync
  {
    MemcpyPacked(i, word, opcode);
    MemcpySum(opcode, i.fromDevice, i.toDevice, i.destAddr, i.srcAddr, i.auxAddr, i.shapePtr, i.isAsync);
  }

  lemma MemsetSum(opcode: nat, p: nat, q: nat, r: nat, s: nat, t: nat, u: nat)
    ensures Pack([4, 2, 6, 16, 16, 16, 4], [opcode, p, q, r, s, t, u])
         == opcode * Pow2(60) + p * Pow2(58) + q * Pow2(52) + r * Pow2(36) + s * Pow2(20) + t * Pow2(4) + u
  {
    SumSeven(4, 2, 6, 16, 16, 16, 4, opcode, p, q, r, s, t, u);
  }

  lemma MemsetRanges(i: Instruction)
    requires i.Memset? && InRange(i)
    ensures 0 <= i.destCache < Pow2(2) && 0 <= i.destAddr < Pow2(6) && 0 <= i.a < Pow2(16) &&
      0 <= i.b < Pow2(16) && 0 <= i.c < Pow2(16) && 0 <= i.reserved < Pow2(4)
  {
    FieldRange(i, 0, i.destCache, 2);
    FieldRange(i, 1, i.destAddr, 6);
    FieldRange(i, 2, i.a, 16);
    FieldRange(i, 3, i.b, 16);
    FieldRange(i, 4, i.c, 16);
    FieldRange(i, 5, i.reserved, 4);
  }

  lemma MemsetFields(i: Instruction, opcode: nat)
    requires i.Memset? && InRange(i) && opcode == Opcode(i)
    ensures i.destCache >= 0 && i.destAddr >= 0 && i.a >= 0 && i.b >= 0 && i.c >= 0 && i.reserved >= 0
    ensures [4] + Widths(opcode) == [4, 2, 6, 16, 16, 16, 4]
    ensures [opcode] + Fields(i)
         == [opcode, i.destCache, i.destAddr, i.a, i.b, i.c, i.reserved]
  {
    MemsetRanges(i);
  }

  lemma MemsetPacked(i: Instruction, word: nat, opcode: nat)
    requires i.Memset? && Encode(i) == Ok(word) && opcode == 3
    ensures InRange(i) && i.destCache >= 0 && i.destAddr >= 0 && i.a >= 0 && i.b >= 0 && i.c >= 0 && i.reserved >= 0
    ensures word
         == Pack([4, 2, 6, 16, 16, 16, 4],
                 [opcode, i.destCache, i.destAddr, i.a, i.b, i.c, i.reserved])
  {
    EncodedWord(i, opcode);
    MemsetFields(i, opcode);
  }

  lemma MemsetWordIs(i: Instruction, word: nat, opcode: nat)
    requires i.Memset? && Encode(i) == Ok(word) && opcode == 3
    ensures word == opcode * Pow2(60) + i.destCache * Pow2(58) + i.destAddr * Pow2(52) + i.a * Pow2(36)
                    + i.b * Pow2(20) + i.c * Pow2(4) + i.reserved
  {
    MemsetPacked(i, word, opcode);
    MemsetSum(opcode, i.destCache, i.destAddr, i.a, i.b, i.c, i.reserved);
  }

  lemma CvoSum(opcode: nat, p: nat, q: nat, r: nat, s: nat, t: nat, u: nat)
    ensures Pack([4, 4, 17, 17, 16, 5, 1], [opcode, p, q, r, s, t, u])
         == opcode * Pow2(60) + p * Pow2(56) + q * Pow2(39) + r * Pow2(22) + s * Pow2(6) + t * Pow2(1) + u
  {
    SumSeven(4, 4, 17, 17, 16, 5, 1, opcode, p, q, r, s, t, u);
  }

  lemma CvoRanges(i: Instruction)
    requires i.Cvo? && InRange(i)
    ensures 0 <= i.func < Pow2(4) && 0 <= i.srcAddr < Pow2(17) && 0 <= i.dstAddr < Pow2(17) &&
      0 <= i.length < Pow2(16) && 0 <= i.flags < Pow2(5) && 0 <= i.isAsync < Pow2(1)
  {
    FieldRange(i, 0, i.func, 4);
    FieldRange(i, 1, i.srcAddr, 17);
    FieldRange(i, 2, i.dstAddr, 17);
    FieldRange(i, 3, i.length, 16);
    FieldRange(i, 4, i.flags, 5);
    FieldRange(i, 5, i.isAsync, 1);
  }

  lemma CvoFields(i: Instruction, opcode: nat)
    requires i.Cvo? && InRange(i) && opcode == Opcode(i)
    ensures i.func >= 0 && i.srcAddr >= 0 && i.dstAddr >= 0 && i.length >= 0 && i.flags >= 0 &&
      i.isAsync >= 0
    ensures [4] + Widths(opcode) == [4, 4, 17, 17, 16, 5, 1]
    ensures [opcode] + Fields(i)
         == [opcode, i.func, i.srcAddr, i.dstAddr, i.length, i.flags, i.isAsync]
  {
    CvoRanges(i);
  }

  lemma CvoPacked(i: Instruction, word: nat, opcode: nat)
    requires i.Cvo? && Encode(i) == Ok(word) && opcode == 4
    ensures InRange(i) && i.func >= 0 && i.srcAddr >= 0 && i.dstAddr >= 0 && i.length >= 0 && i.flags >= 0 &&
      i.isAsync >= 0
    ensures word
         == Pack([4, 4, 17, 17, 16, 5, 1],
                 [opcode, i.func, i.srcAddr, i.dstAddr, i.length, i.flags, i.isAsync])
  {
    EncodedWord(i, opcode);
    CvoFields(i, opcode);
  }

  lemma CvoWordIs(i: Instruction, word: nat, opcode: nat)
    requires i.Cvo? && Encode(i) == Ok(word) && opcode == 4
    ensures word == opcode * Pow2(60) + i.func * Pow2(56) + i.srcAddr * Pow2(39) + i.dstAddr * Pow2(22)
                    + i.length * Pow2(6) + i.flags * Pow2(1) + i.isAsync
  {
    CvoPacked(i, word, opcode);
    CvoSum(opcode, i.func, i.srcAddr, i.dstAddr, i.length, i.flags, i.isAsync);
  }

  /** Different instructions are different words. */
  lemma EncodeInjective(i: Instruction, j: Instruction, word: nat)
    requires Encode(i) == Ok(word) && Encode(j) == Ok(word)
    ensures i == j
  {
    NoFieldLost(i, word);
    NoFieldLost(j, word);
    OpcodeRead(Widths(Opcode(i)), word);
    OpcodeRead(Widths(Opcode(j)), word);
    WidthsAre60(Opcode(i));
    WidthsAre60(Opcode(j));
    assert Opcode(i) == And(Shr(word, 60), Mask(4)) == Opcode(j);
    assert Values(i) == Unpack([4] + Widths(Opcode(i)), word)[1..] == Values(j);
    SameInstruction(i, j);
  }

  lemma OpcodeRead(ws: seq<nat>, word: nat)
    ensures Unpack([4] + ws, word)[0] == And(Shr(word, Width(ws)), Mask(4))
  {
    assert ([4] + ws)[1..] == ws;
  }

  lemma SameInstruction(i: Instruction, j: Instruction)
    requires Opcode(i) == Opcode(j) && Values(i) == Values(j)
    ensures i == j
  {
    var vs, us := Values(i), Values(j);
    assert |vs| >= 6 && vs[0] == us[0] && vs[1] == us[1] && vs[2] == us[2];
    assert vs[3] == us[3] && vs[4] == us[4] && vs[5] == us[5] && vs[|vs| - 1] == us[|vs| - 1];
  }

  // ----- the DataMover descriptor

  const ADDR_WIDTH: nat := 32
  const TAG_WIDTH: nat := 4
  const BTT_WIDTH: nat := 23

  /** tag, reserved, address, drr, eof, dsa, type, btt */
  const DESCRIPTOR: seq<nat> := [4, 4, 32, 1, 1, 6, 1, 23]

  /** `pack_datamover_command` */
  function PackDataMover(addr: int, tag: int, length: int, eof: bool): Result<nat, string> {
    if addr < 0 || addr > Mask(ADDR_WIDTH) then Err("address")
    else if tag < 0 || tag > Mask(TAG_WIDTH) then Err("tag")
    else if length <= 0 || length > Mask(BTT_WIDTH) then Err("length")
    else
      Ok(DescriptorWord(And(tag, Mask(TAG_WIDTH)), And(addr, Mask(ADDR_WIDTH)), if eof then 1 else 0,
                        1, And(length, Mask(BTT_WIDTH))))
  }

  function DescriptorWord(tag: nat, addr: nat, eof: nat, incr: nat, length: nat): nat {
    Or(Or(Or(Or(Shl(tag, 68), Shl(addr, 32)), Shl(eof, 30)), Shl(incr, 23)), length)
  }

  function DescriptorFields(addr: nat, tag: nat, length: nat, eof: bool): seq<nat> {
    [tag, 0, addr, 0, if eof then 1 else 0, 0, 1, length]
  }

  lemma OrZeros(x: nat, k: nat, zero: nat)
    requires zero == 0
    ensures Or(x, Shl(zero, k)) == x
  {
    ShlZero(k);
    OrZero(x);
  }

  lemma DescriptorShifts(tag: nat, addr: nat, eof: nat, incr: nat, length: nat, zero: nat)
    requires zero == 0
    ensures ShiftOr(0, DESCRIPTOR, [tag, zero, addr, zero, eof, zero, incr, length])
         == DescriptorWord(tag, addr, eof, incr, length)
  {
    Eight(0, 4, 4, 32, 1, 1, 6, 1, 23, tag, zero, addr, zero, eof, zero, incr, length);
    OrZero(Shl(tag, 68));
    OrZeros(Shl(tag, 68), 64, zero);
    OrZeros(Or(Shl(tag, 68), Shl(addr, 32)), 31, zero);
    OrZeros(Or(Or(Shl(tag, 68), Shl(addr, 32)), Shl(eof, 30)), 24, zero);
  }

  lemma DescriptorWidth()
    ensures Width(DESCRIPTOR) == 72
  {
    Eight(0, 4, 4, 32, 1, 1, 6, 1, 23, 0, 0, 0, 0, 0, 0, 0, 0);
  }

  lemma DescriptorAccepts(addr: int, tag: int, length: int, eof: bool)
    ensures PackDataMover(addr, tag, length, eof).Ok?
       <==> 0 <= addr < Pow2(32) && 0 <= tag < Pow2(4) && 0 < length < Pow2(23)
  {
  }

  lemma DescriptorChecks(addr: nat, tag: nat, length: nat, eof: bool, e: nat, incr: nat)
    requires addr < Pow2(32) && tag < Pow2(4) && 0 < length < Pow2(23)
    requires e == (if eof then 1 else 0) && incr == 1
    ensures PackDataMover(addr, tag, length, eof) == Ok(DescriptorWord(tag, addr, e, incr, length))
  {
    MaskFits(addr, 32);
    MaskFits(tag, 4);
    MaskFits(length, 23);
  }

  /** The descriptor holds every field at its documented place, with the reserved
      bits zero; the packer fails exactly on a field out of range or an empty
      transfer. */
  lemma DescriptorIsPacked(addr: int, tag: int, length: int, eof: bool)
    ensures PackDataMover(addr, tag, length, eof).Ok?
       <==> 0 <= addr < Pow2(32) && 0 <= tag < Pow2(4) && 0 < length < Pow2(23)
    ensures PackDataMover(addr, tag, length, eof).Ok? ==>
      var word := PackDataMover(addr, tag, length, eof).value;
      && word < Pow2(72)
      && Unpack(DESCRIPTOR, word) == DescriptorFields(addr, tag, length, eof)
  {
    DescriptorAccepts(addr, tag, length, eof);
    if PackDataMover(addr, tag, length, eof).Ok? {
      DescriptorChecks(addr, tag, length, eof, if eof then 1 else 0, 1);
      DescriptorReads(addr, tag, length, eof, if eof then 1 else 0, 1, 0);
    }
  }

  lemma TopField(word: nat)
    ensures Unpack(DESCRIPTOR, word)[0] == And(Shr(word, 68), Mask(4))
  {
    DescriptorWidth();
    assert DESCRIPTOR == [4] + DESCRIPTOR[1..];
    Cons(0, 4, DESCRIPTOR[1..], 0, [0, 0, 0, 0, 0, 0, 0], word);
  }

  lemma DescriptorReads(addr: nat, tag: nat, length: nat, eof: bool, e: nat, incr: nat, zero: nat)
    requires addr < Pow2(32) && tag < Pow2(4) && length < Pow2(23)
    requires e == (if eof then 1 else 0) && incr == 1 && zero == 0
    ensures DescriptorWord(tag, addr, e, incr, length) < Pow2(72)
    ensures Unpack(DESCRIPTOR, DescriptorWord(tag, addr, e, incr, length))
         == DescriptorFields(addr, tag, length, eof)
  {
    var vs := [tag, zero, addr, zero, e, zero, incr, length];
    DescriptorShifts(tag, addr, e, incr, length, zero);
    DescriptorWidth();
    DescriptorFits(vs);
    ShiftOrPacks(DESCRIPTOR, vs);
  }

  lemma DescriptorFits(vs: seq<nat>)
    requires |vs| == 8 && vs[0] < Pow2(4) && vs[1] == vs[3] == vs[5] == 0
    requires vs[2] < Pow2(32) && vs[4] <= 1 && vs[6] == 1 && vs[7] < Pow2(23)
    ensures Fits(DESCRIPTOR, vs)
  {
    assert Pow2(1) == 2;
    FitsEight(4, 4, 32, 1, 1, 6, 1, 23, vs);
  }

  lemma DescriptorSum(tag: nat, addr: nat, e: nat, incr: nat, length: nat, zero: nat)
    requires zero == 0
    ensures Pack(DESCRIPTOR, [tag, zero, addr, zero, e, zero, incr, length])
         == tag * Pow2(68) + addr * Pow2(32) + e * Pow2(30) + incr * Pow2(23) + length
  {
    SumEight(4, 4, 32, 1, 1, 6, 1, 23, tag, zero, addr, zero, e, zero, incr, length);
    NoneOf(zero, Pow2(64));
    NoneOf(zero, Pow2(31));
    NoneOf(zero, Pow2(24));
  }

  lemma NoneOf(zero: nat, p: nat)
    requires zero == 0
    ensures zero * p == 0
  {
  }

  /** Where the fields stand in the descriptor. */
  lemma DescriptorWordIs(addr: int, tag: int, length: int, eof: bool, word: nat)
    requires PackDataMover(addr, tag, length, eof) == Ok(word)
    ensures word == tag * Pow2(68) + addr * Pow2(32) + (if eof then Pow2(30) else 0) + Pow2(23) + length
  {
    DescriptorAccepts(addr, tag, length, eof);
    var e := if eof then 1 else 0;
    DescriptorChecks(addr, tag, length, eof, e, 1);
    DescriptorPacked(tag, addr, e, 1, length, 0);
    DescriptorSum(tag, addr, e, 1, length, 0);
  }

  lemma DescriptorPacked(tag: nat, addr: nat, e: nat, incr: nat, length: nat, zero: nat)
    requires addr < Pow2(32) && tag < Pow2(4) && length < Pow2(23) && e <= 1 && incr == 1 && zero == 0
    ensures DescriptorWord(tag, addr, e, incr, length)
         == Pack(DESCRIPTOR, [tag, zero, addr, zero, e, zero, incr, length])
  {
    DescriptorShifts(tag, addr, e, incr, length, zero);
    DescriptorFits([tag, zero, addr, zero, e, zero, incr, length]);
    ShiftOrPacks(DESCRIPTOR, [tag, zero, addr, zero, e, zero, incr, length]);
  }
}
