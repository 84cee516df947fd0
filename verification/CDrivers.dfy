/** The instruction builders of the C drivers, `sw/driver/uCA_v1_api.c` and
    `sw/baremetal/npu_driver/npu_driver.c`.

    Each builder masks its arguments and ors them into a 64-bit word.  It is
    proved to build exactly the word the Python encoder builds from the same
    arguments reduced modulo the width of their fields. */
module CDrivers {
  import opened Prelude
  import opened Bits
  import V = V002Isa
  import H = HostIsa

  type uint8 = x: nat | x < 0x100
  type uint16 = x: nat | x < 0x1_0000
  type uint32 = x: nat | x < 0x1_0000_0000

  /** `(uint64_t)(v & mask) << shift` */
  function Field(v: nat, mask: nat, shift: nat): nat {
    And(Shl(And(v, mask), shift), Mask(64))
  }

  /** A field that ends at or below bit 64 is not cut off, and masking reduces its
      value modulo the field width. */
  lemma FieldIs(v: nat, mask: nat, w: nat, shift: nat)
    requires mask == Mask(w) && w + shift <= 64
    ensures v % Pow2(w) < Pow2(w)
    ensures Field(v, mask, shift) == Shl(v % Pow2(w), shift)
  {
    AndMask(v, w);
    JoinFits(v % Pow2(w), w, 0, shift);
    Pow2Mono(w + shift, 64);
    MaskFits(Shl(v % Pow2(w), shift), 64);
  }

  // ----- uCA_v1_api.c

  /** A word or-ed together from the fields of an instruction is the encoder's. */
  lemma EncodesTo(i: V.Instruction, opcode: nat, ws: seq<nat>, vs: seq<nat>)
    requires opcode == V.Opcode(i) && ws == [4] + V.Widths(opcode)
    requires |V.Values(i)| == |V.Widths(opcode)| && vs == [opcode] + V.Values(i)
    requires Fits(ws, vs)
    ensures V.Encode(i) == Ok(ShiftOr(0, ws, vs))
  {
    forall k | 0 <= k < |V.Values(i)| ensures 0 <= V.Values(i)[k] < Pow2(V.Widths(opcode)[k]) {
      assert V.Values(i)[k] == vs[k + 1] && V.Widths(opcode)[k] == ws[k + 1];
    }
    assert V.InRange(i);
    assert V.Encode(i) == Ok(Pack(ws, vs)) by { V.EncodedWord(i, opcode); }
    ShiftOrPacks(ws, vs);
  }

  lemma ComputeEncodes(opcode: nat, p: nat, q: nat, r: nat, s: nat, t: nat, u: nat)
    requires opcode == V.GEMM || opcode == V.GEMV
    requires p < Pow2(17) && q < Pow2(17) && r < Pow2(6) && s < Pow2(6) && t < Pow2(6) && u < Pow2(5)
    ensures V.Encode(V.Compute(opcode == V.GEMM, p, q, r, s, t, u, 0))
         == Ok(ShiftOr(0, [4, 17, 17, 6, 6, 6, 5, 3], [opcode, p, q, r, s, t, u, 0]))
  {
    FitsEight(4, 17, 17, 6, 6, 6, 5, 3, [opcode, p, q, r, s, t, u, 0]);
    EncodesTo(V.Compute(opcode == V.GEMM, p, q, r, s, t, u, 0), opcode, [4, 17, 17, 6, 6, 6, 5, 3],
              [opcode, p, q, r, s, t, u, 0]);
  }

  lemma ComputeWord(opcode: nat, p: nat, q: nat, r: nat, s: nat, t: nat, u: nat, word: nat)
    requires p < Pow2(17) && q < Pow2(17) && r < Pow2(6) && s < Pow2(6) && t < Pow2(6) && u < Pow2(5)
    requires word == Or(Or(Or(Or(Or(Or(Or(0, Shl(opcode, 60)), Shl(p, 43)), Shl(q, 26)), Shl(r, 20)),
                              Shl(s, 14)), Shl(t, 8)), Shl(u, 3))
    ensures opcode == V.GEMM || opcode == V.GEMV ==>
      V.Encode(V.Compute(opcode == V.GEMM, p, q, r, s, t, u, 0)) == Ok(word)
  {
    Eight(0, 4, 17, 17, 6, 6, 6, 5, 3, opcode, p, q, r, s, t, u, 0);
    OrZero(word);
    if opcode == V.GEMM || opcode == V.GEMV { ComputeEncodes(opcode, p, q, r, s, t, u); }
  }

  lemma MemcpyEncodes(p: nat, q: nat, r: nat, s: nat, t: nat, u: nat)
    requires p < Pow2(1) && q < Pow2(1) && r < Pow2(17) && s < Pow2(17) && t < Pow2(6) && u < Pow2(1)
    ensures V.Encode(V.Memcpy(p, q, r, s, 0, t, u))
         == Ok(ShiftOr(0, [4, 1, 1, 17, 17, 17, 6, 1], [V.MEMCPY, p, q, r, s, 0, t, u]))
  {
    EncodesTo(V.Memcpy(p, q, r, s, 0, t, u), V.MEMCPY, [4, 1, 1, 17, 17, 17, 6, 1], [V.MEMCPY, p, q, r, s, 0, t, u]);
  }

  lemma MemcpyWord(opcode: nat, p: nat, q: nat, r: nat, s: nat, aux: nat, t: nat, u: nat, word: nat)
    requires aux == 0
    requires word == Or(Or(Or(Or(Or(Or(Or(0, Shl(opcode, 60)), Shl(p, 59)), Shl(q, 58)), Shl(r, 41)),
                              Shl(s, 24)), Shl(t, 1)), Shl(u, 0))
    ensures word == ShiftOr(0, [4, 1, 1, 17, 17, 17, 6, 1], [opcode, p, q, r, s, aux, t, u])
  {
    Eight(0, 4, 1, 1, 17, 17, 17, 6, 1, opcode, p, q, r, s, aux, t, u);
    V.OrZeros(Or(Or(Or(Or(Or(0, Shl(opcode, 60)), Shl(p, 59)), Shl(q, 58)), Shl(r, 41)), Shl(s, 24)), 7, aux);
  }

  lemma MemsetEncodes(p: nat, q: nat, r: nat, s: nat, t: nat)
    requires p < Pow2(2) && q < Pow2(6) && r < Pow2(16) && s < Pow2(16) && t < Pow2(16)
    ensures V.Encode(V.Memset(p, q, r, s, t, 0))
         == Ok(ShiftOr(0, [4, 2, 6, 16, 16, 16, 4], [V.MEMSET, p, q, r, s, t, 0]))
  {
    EncodesTo(V.Memset(p, q, r, s, t, 0), V.MEMSET, [4, 2, 6, 16, 16, 16, 4], [V.MEMSET, p, q, r, s, t, 0]);
  }

  lemma MemsetWord(p: nat, q: nat, r: nat, s: nat, t: nat, word: nat)
    requires p < Pow2(2) && q < Pow2(6) && r < Pow2(16) && s < Pow2(16) && t < Pow2(16)
    requires word == Or(Or(Or(Or(Or(Or(0, Shl(V.MEMSET, 60)), Shl(p, 58)), Shl(q, 52)), Shl(r, 36)),
                              Shl(s, 20)), Shl(t, 4))
    ensures V.Encode(V.Memset(p, q, r, s, t, 0)) == Ok(word)
  {
    Seven(0, 4, 2, 6, 16, 16, 16, 4, V.MEMSET, p, q, r, s, t, 0);
    OrZero(word);
    MemsetEncodes(p, q, r, s, t);
  }

  lemma CvoEncodes(p: nat, q: nat, r: nat, s: nat, t: nat, u: nat)
    requires p < Pow2(4) && q < Pow2(17) && r < Pow2(17) && s < Pow2(16) && t < Pow2(5) && u < Pow2(1)
    ensures V.Encode(V.Cvo(p, q, r, s, t, u))
         == Ok(ShiftOr(0, [4, 4, 17, 17, 16, 5, 1], [V.CVO, p, q, r, s, t, u]))
  {
    EncodesTo(V.Cvo(p, q, r, s, t, u), V.CVO, [4, 4, 17, 17, 16, 5, 1], [V.CVO, p, q, r, s, t, u]);
  }

  lemma CvoWord(p: nat, q: nat, r: nat, s: nat, t: nat, u: nat, word: nat)
    requires p < Pow2(4) && q < Pow2(17) && r < Pow2(17) && s < Pow2(16) && t < Pow2(5) && u < Pow2(1)
    requires word == Or(Or(Or(Or(Or(Or(Or(0, Shl(V.CVO, 60)), Shl(p, 56)), Shl(q, 39)), Shl(r, 22)), Shl(s, 6)),
                           Shl(t, 1)), Shl(u, 0))
    ensures V.Encode(V.Cvo(p, q, r, s, t, u)) == Ok(word)
  {
    Seven(0, 4, 4, 17, 17, 16, 5, 1, V.CVO, p, q, r, s, t, u);
    CvoEncodes(p, q, r, s, t, u);
  }

  method BuildComputeInstr(opcode: uint8, destReg: uint32, srcAddr: uint32, flags: uint8,
                           sizePtr: uint8, shapePtr: uint8, lanes: uint8)
    returns (instr: nat)
    ensures opcode == V.GEMV || opcode == V.GEMM ==>
      V.Encode(V.Compute(opcode == V.GEMM, destReg % Pow2(17), srcAddr % Pow2(17), flags % Pow2(6),
                         sizePtr % Pow2(6), shapePtr % Pow2(6), lanes % Pow2(5), 0)) == Ok(instr)
  {
    Pow2Values();
    FieldIs(opcode, 0xF, 4, 60);
    FieldIs(destReg, 0x1FFFF, 17, 43);
    FieldIs(srcAddr, 0x1FFFF, 17, 26);
    FieldIs(flags, 0x3F, 6, 20);
    FieldIs(sizePtr, 0x3F, 6, 14);
    FieldIs(shapePtr, 0x3F, 6, 8);
    FieldIs(lanes, 0x1F, 5, 3);
    instr := 0;
    instr := Or(instr, Field(opcode, 0xF, 60));
    instr := Or(instr, Field(destReg, 0x1FFFF, 43));
    instr := Or(instr, Field(srcAddr, 0x1FFFF, 26));
    instr := Or(instr, Field(flags, 0x3F, 20));
    instr := Or(instr, Field(sizePtr, 0x3F, 14));
    instr := Or(instr, Field(shapePtr, 0x3F, 8));
    instr := Or(instr, Field(lanes, 0x1F, 3));
    if opcode == V.GEMV || opcode == V.GEMM {
      SmallOpcode(opcode);
      ComputeWord(opcode, destReg % Pow2(17), srcAddr % Pow2(17), flags % Pow2(6),
                  sizePtr % Pow2(6), shapePtr % Pow2(6), lanes % Pow2(5), instr);
    }
  }

  lemma SmallOpcode(opcode: nat)
    requires opcode < 16
    ensures opcode % Pow2(4) == opcode
  {
    assert Pow2(4) == 16;
  }

  method UcaGemv(destReg: uint32, srcAddr: uint32, flags: uint8, sizePtr: uint8, shapePtr: uint8, lanes: uint8)
    returns (issued: nat)
    ensures V.Encode(V.Compute(false, destReg % Pow2(17), srcAddr % Pow2(17), flags % Pow2(6),
                               sizePtr % Pow2(6), shapePtr % Pow2(6), lanes % Pow2(5), 0)) == Ok(issued)
  {
    issued := BuildComputeInstr(V.GEMV, destReg, srcAddr, flags, sizePtr, shapePtr, lanes);
  }

  method UcaGemm(destReg: uint32, srcAddr: uint32, flags: uint8, sizePtr: uint8, shapePtr: uint8, lanes: uint8)
    returns (issued: nat)
    ensures V.Encode(V.Compute(true, destReg % Pow2(17), srcAddr % Pow2(17), flags % Pow2(6),
                               sizePtr % Pow2(6), shapePtr % Pow2(6), lanes % Pow2(5), 0)) == Ok(issued)
  {
    issued := BuildComputeInstr(V.GEMM, destReg, srcAddr, flags, sizePtr, shapePtr, lanes);
  }

  /** `build_cvo_instr` and `uca_cvo` */
  method UcaCvo(func: uint8, srcAddr: uint32, dstAddr: uint32, length: uint16, flags: uint8, isAsync: uint8)
    returns (issued: nat)
    ensures V.Encode(V.Cvo(func % Pow2(4), srcAddr % Pow2(17), dstAddr % Pow2(17), length % Pow2(16),
                           flags % Pow2(5), isAsync % Pow2(1))) == Ok(issued)
  {
    Pow2Values();
    FieldIs(V.CVO, 0xF, 4, 60);
    FieldIs(func, 0xF, 4, 56);
    FieldIs(srcAddr, 0x1FFFF, 17, 39);
    FieldIs(dstAddr, 0x1FFFF, 17, 22);
    FieldIs(length, 0xFFFF, 16, 6);
    FieldIs(flags, 0x1F, 5, 1);
    FieldIs(isAsync, 0x1, 1, 0);
    var instr := 0;
    instr := Or(instr, Field(V.CVO, 0xF, 60));
    instr := Or(instr, Field(func, 0xF, 56));
    instr := Or(instr, Field(srcAddr, 0x1FFFF, 39));
    instr := Or(instr, Field(dstAddr, 0x1FFFF, 22));
    instr := Or(instr, Field(length, 0xFFFF, 6));
    instr := Or(instr, Field(flags, 0x1F, 1));
    instr := Or(instr, Field(isAsync, 0x1, 0));
    CvoWord(func % Pow2(4), srcAddr % Pow2(17), dstAddr % Pow2(17), length % Pow2(16),
            flags % Pow2(5), isAsync % Pow2(1), instr);
    issued := instr;
  }

  /** Of each nibble of `route` only the low bit reaches the instruction. */
  function FromDevice(route: uint8): nat { route / 16 % 2 }

  function ToDevice(route: uint8): nat { route % 2 }

  /** What `uca_memcpy` issues: the encoder's word for its reduced arguments. */
  function Issued(route: uint8, destAddr: uint32, srcAddr: uint32, shapePtr: uint8, isAsync: uint8):
    Result<nat, string>
  {
    V.Encode(V.Memcpy(FromDevice(route), ToDevice(route), destAddr % Pow2(17), srcAddr % Pow2(17), 0,
                      shapePtr % Pow2(6), isAsync % Pow2(1)))
  }

  method UcaMemcpy(route: uint8, destAddr: uint32, srcAddr: uint32, shapePtr: uint8, isAsync: uint8)
    returns (issued: nat)
    ensures Issued(route, destAddr, srcAddr, shapePtr, isAsync) == Ok(issued)
  {
    var fromDev, toDev := And(Shr(route, 4), 0xF), And(Shr(route, 0), 0xF);
    RouteBits(route);
    Pow2Values();
    FieldIs(V.MEMCPY, 0xF, 4, 60);
    FieldIs(fromDev, 0x1, 1, 59);
    FieldIs(toDev, 0x1, 1, 58);
    FieldIs(destAddr, 0x1FFFF, 17, 41);
    FieldIs(srcAddr, 0x1FFFF, 17, 24);
    FieldIs(shapePtr, 0x3F, 6, 1);
    FieldIs(isAsync, 0x1, 1, 0);
    var instr := 0;
    instr := Or(instr, Field(V.MEMCPY, 0xF, 60));
    instr := Or(instr, Field(fromDev, 0x1, 59));
    instr := Or(instr, Field(toDev, 0x1, 58));
    instr := Or(instr, Field(destAddr, 0x1FFFF, 41));
    instr := Or(instr, Field(srcAddr, 0x1FFFF, 24));
    instr := Or(instr, Field(shapePtr, 0x3F, 1));
    instr := Or(instr, Field(isAsync, 0x1, 0));
    MemcpyWord(V.MEMCPY, FromDevice(route), ToDevice(route), destAddr % Pow2(17), srcAddr % Pow2(17), 0,
               shapePtr % Pow2(6), isAsync % Pow2(1), instr);
    MemcpyEncodes(FromDevice(route), ToDevice(route), destAddr % Pow2(17), srcAddr % Pow2(17),
                  shapePtr % Pow2(6), isAsync % Pow2(1));
    issued := instr;
  }

  lemma RouteBits(route: uint8)
    ensures And(Shr(route, 4), 0xF) % Pow2(1) == FromDevice(route)
    ensures And(Shr(route, 0), 0xF) % Pow2(1) == ToDevice(route)
  {
    LowNibble(route);
    LowNibble(Shr(route, 4));
    assert Shr(route, 0) == route && Pow2(1) == 2;
  }

  lemma LowNibble(n: nat)
    ensures And(n, 0xF) % 2 == n % 2 && Shr(n, 4) == n / 16
  {
    AndMask(n, 4);
    assert Mask(4) == 0xF && Pow2(4) == 16;
  }

  method UcaMemset(destCache: uint8, destAddr: uint8, a: uint16, b: uint16, c: uint16)
    returns (issued: nat)
    ensures V.Encode(V.Memset(destCache % Pow2(2), destAddr % Pow2(6), a % Pow2(16), b % Pow2(16),
                              c % Pow2(16), 0)) == Ok(issued)
  {
    Pow2Values();
    FieldIs(V.MEMSET, 0xF, 4, 60);
    FieldIs(destCache, 0x3, 2, 58);
    FieldIs(destAddr, 0x3F, 6, 52);
    FieldIs(a, 0xFFFF, 16, 36);
    FieldIs(b, 0xFFFF, 16, 20);
    FieldIs(c, 0xFFFF, 16, 4);
    var instr := 0;
    instr := Or(instr, Field(V.MEMSET, 0xF, 60));
    instr := Or(instr, Field(destCache, 0x3, 58));
    instr := Or(instr, Field(destAddr, 0x3F, 52));
    instr := Or(instr, Field(a, 0xFFFF, 36));
    instr := Or(instr, Field(b, 0xFFFF, 20));
    instr := Or(instr, Field(c, 0xFFFF, 4));
    MemsetWord(destCache % Pow2(2), destAddr % Pow2(6), a % Pow2(16), b % Pow2(16), c % Pow2(16), instr);
    issued := instr;
  }

  // ----- route codes

  const HOST_TO_L2: uint8 := 0x01
  const L2_TO_HOST: uint8 := 0x10
  const L2_TO_L1_GEMM: uint8 := 0x12
  const L2_TO_L1_GEMV: uint8 := 0x13
  const GEMV_RES_TO_L2: uint8 := 0x31
  const GEMM_RES_TO_L2: uint8 := 0x21
  const CVO_RES_TO_L2: uint8 := 0x41

  const ROUTES: set<nat> := {HOST_TO_L2, L2_TO_HOST, L2_TO_L1_GEMM, L2_TO_L1_GEMV, GEMV_RES_TO_L2,
                             GEMM_RES_TO_L2, CVO_RES_TO_L2}

  /** The word issued for a route is that of a MEMCPY instruction exactly when the
      low bits of its nibbles, the reduced arguments and a zero aux are its fields. */
  lemma IssuedIs(route: uint8, d: uint32, a: uint32, p: uint8, k: uint8, i: V.Instruction)
    requires i.Memcpy?
    ensures Issued(route, d, a, p, k).Ok?
    ensures Issued(route, d, a, p, k) == V.Encode(i) <==>
      i == V.Memcpy(FromDevice(route), ToDevice(route), d % Pow2(17), a % Pow2(17), 0, p % Pow2(6), k % Pow2(1))
  {
    var j := V.Memcpy(FromDevice(route), ToDevice(route), d % Pow2(17), a % Pow2(17), 0, p % Pow2(6), k % Pow2(1));
    assert Pow2(1) == 2;
    MemcpyEncodes(FromDevice(route), ToDevice(route), d % Pow2(17), a % Pow2(17), p % Pow2(6), k % Pow2(1));
    if V.Encode(j) == V.Encode(i) { V.EncodeInjective(i, j, V.Encode(i).value); }
  }

  /** Two routes reach the device as the same word exactly when they agree in the
      low bit of each nibble. */
  lemma RoutesCollide(r: uint8, s: uint8, d: uint32, a: uint32, p: uint8, k: uint8)
    ensures Issued(r, d, a, p, k) == Issued(s, d, a, p, k)
       <==> FromDevice(r) == FromDevice(s) && ToDevice(r) == ToDevice(s)
  {
    IssuedIs(r, d, a, p, k, V.Memcpy(FromDevice(s), ToDevice(s), d % Pow2(17), a % Pow2(17), 0,
                                     p % Pow2(6), k % Pow2(1)));
  }

  const ROUTES_01: set<nat> := {HOST_TO_L2, GEMM_RES_TO_L2, CVO_RES_TO_L2}
  const ROUTES_10: set<nat> := {L2_TO_HOST, L2_TO_L1_GEMM}
  const ROUTES_11: set<nat> := {L2_TO_L1_GEMV, GEMV_RES_TO_L2}

  /** The seven routes of the header give three instructions, not seven. */
  lemma RouteClasses(r: uint8, s: uint8, d: uint32, a: uint32, p: uint8, k: uint8)
    requires r in ROUTES && s in ROUTES
    ensures Issued(r, d, a, p, k) == Issued(s, d, a, p, k) <==>
      (r in ROUTES_01 && s in ROUTES_01) || (r in ROUTES_10 && s in ROUTES_10) || (r in ROUTES_11 && s in ROUTES_11)
  {
    RoutesCollide(r, s, d, a, p, k);
    ClassOf(r, FromDevice(r), ToDevice(r));
    ClassOf(s, FromDevice(s), ToDevice(s));
  }

  lemma ClassOf(route: uint8, from: nat, to: nat)
    requires route in ROUTES && from == FromDevice(route) && to == ToDevice(route)
    ensures route in ROUTES_01 <==> from == 0 && to == 1
    ensures route in ROUTES_10 <==> from == 1 && to == 0
    ensures route in ROUTES_11 <==> from == 1 && to == 1
    ensures route in ROUTES_01 || route in ROUTES_10 || route in ROUTES_11
  {
  }

  /** The smoke program's copy from the host to L2: from device 1, to device 0. */
  function SmokeHostToL2(destAddr: int, srcAddr: int, auxAddr: int, shapePtr: int, isAsync: int): V.Instruction {
    V.Memcpy(1, 0, destAddr, srcAddr, auxAddr, shapePtr, isAsync)
  }

  /** A route issues the smoke program's host-to-L2 word exactly when it names the
      device in its upper nibble and the host in its lower one. */
  lemma HostToL2Routes(route: uint8, d: uint32, a: uint32, p: uint8, k: uint8)
    ensures Issued(route, d, a, p, k)
         == V.Encode(SmokeHostToL2(d % Pow2(17), a % Pow2(17), 0, p % Pow2(6), k % Pow2(1)))
       <==> FromDevice(route) == 1 && ToDevice(route) == 0
    ensures route in ROUTES ==> (FromDevice(route) == 1 && ToDevice(route) == 0 <==> route in ROUTES_10)
  {
    if route in ROUTES { ClassOf(route, FromDevice(route), ToDevice(route)); }
    IssuedIs(route, d, a, p, k, SmokeHostToL2(d % Pow2(17), a % Pow2(17), 0, p % Pow2(6), k % Pow2(1)));
  }

  /** The constant named for that direction never issues such a word, whatever the
      addresses on either side. */
  lemma HostToL2Differs(d: uint32, a: uint32, p: uint8, k: uint8,
                        destAddr: int, srcAddr: int, auxAddr: int, shapePtr: int, isAsync: int)
    ensures Issued(HOST_TO_L2, d, a, p, k) != V.Encode(SmokeHostToL2(destAddr, srcAddr, auxAddr, shapePtr, isAsync))
  {
    IssuedIs(HOST_TO_L2, d, a, p, k, SmokeHostToL2(destAddr, srcAddr, auxAddr, shapePtr, isAsync));
  }

  // ----- npu_driver.c

  /** `pack_host_command` */
  function PackHostCommand(opcode: uint8, operand: nat): nat {
    Or(Field(opcode, 0xFF, 56), And(operand, 0x00FF_FFFF_FFFF_FFFF))
  }

  function EncodeResetKvCache(sessionId: uint32): nat {
    PackHostCommand(H.RESET_KV_CACHE, sessionId)
  }

  function EncodeLoadWeight(weightSlot: uint8, descriptorCount: uint8, manifestId: uint32, flags: uint8): nat {
    PackHostCommand(H.LOAD_WEIGHT,
                    Or(Or(Or(Shl(weightSlot, 48), Shl(flags, 40)), Shl(descriptorCount, 32)), manifestId))
  }

  function EncodeLoadPrompt(position: uint32, tokenId: uint32): nat {
    PackHostCommand(H.LOAD_PROMPT, Or(Shl(And(position, 0x00FF_FFFF), 32), tokenId))
  }

  function EncodeNextToken(requestId: uint16, sampling: uint8, temperature: uint16, topP: uint16): nat {
    PackHostCommand(H.NEXT_TOKEN, Or(Or(Or(Shl(requestId, 40), Shl(sampling, 32)), Shl(temperature, 16)), topP))
  }

  lemma OpcodeField(opcode: nat)
    requires opcode < 0x100
    ensures Field(opcode, 0xFF, 56) == Shl(opcode, 56)
  {
    OpcodeReduced(opcode);
    FieldIs(opcode, 0xFF, 8, 56);
  }

  lemma OpcodeReduced(opcode: nat)
    requires opcode < 0x100
    ensures opcode % Pow2(8) == opcode && Mask(8) == 0xFF
  {
    assert Pow2(8) == 0x100;
    DivModUnique(opcode, Pow2(8), 0, opcode);
  }

  lemma OperandField(operand: nat, mask: nat)
    requires operand < Pow2(56) && mask == 0x00FF_FFFF_FFFF_FFFF
    ensures And(operand, mask) == operand
  {
    Pow2Values();
    MaskFits(operand, 56);
  }

  lemma HostWord(opcode: nat, operand: nat)
    requires opcode < 0x100 && operand < Pow2(56)
    ensures PackHostCommand(opcode, operand) == Or(Shl(opcode, 56), operand)
  {
    OpcodeField(opcode);
    OperandField(operand, 0x00FF_FFFF_FFFF_FFFF);
  }

  lemma PackHostCommandIs(opcode: nat, operand: nat)
    requires opcode < 0x100 && operand < Pow2(56)
    ensures H.PackCommand(opcode, operand) == Ok(PackHostCommand(opcode, operand))
  {
    HostWord(opcode, operand);
    assert Pow2(8) == 0x100;
    H.CheckIs(opcode, 8, "opcode");
    H.CheckIs(operand, 56, "operand");
  }

  /** The C host-command encoders agree with the Python ones on every argument of
      their types, the position being reduced to its 24 bits. */
  lemma HostReset(sessionId: uint32)
    ensures H.Encode(H.Reset(sessionId)) == Ok(EncodeResetKvCache(sessionId))
  {
    Pow2Values();
    H.CheckIs(sessionId, 32, "session_id");
    PackHostCommandIs(H.RESET_KV_CACHE, sessionId);
  }

  lemma HostLoadWeight(weightSlot: uint8, descriptorCount: uint8, manifestId: uint32, flags: uint8)
    ensures H.Encode(H.LoadWeight(weightSlot, flags, descriptorCount, manifestId))
         == Ok(EncodeLoadWeight(weightSlot, descriptorCount, manifestId, flags))
  {
    Pow2Values();
    var c := H.LoadWeight(weightSlot, flags, descriptorCount, manifestId);
    H.OperandLoadWeight(weightSlot, flags, descriptorCount, manifestId);
    H.OperandFits(c);
    H.EncodeIs(c);
    PackHostCommandIs(H.LOAD_WEIGHT, H.Operand(c));
  }

  lemma HostLoadPrompt(position: uint32, tokenId: uint32)
    ensures H.Encode(H.LoadPrompt(position % Pow2(24), tokenId)) == Ok(EncodeLoadPrompt(position, tokenId))
  {
    Pow2Values();
    Pow2Add(8, 16);
    AndMask(position, 24);
    var c := H.LoadPrompt(position % Pow2(24), tokenId);
    H.OperandLoadPrompt(position % Pow2(24), tokenId);
    H.OperandFits(c);
    H.EncodeIs(c);
    PackHostCommandIs(H.LOAD_PROMPT, H.Operand(c));
  }

  lemma HostNextToken(requestId: uint16, sampling: uint8, temperature: uint16, topP: uint16)
    ensures H.Encode(H.NextToken(requestId, sampling, temperature, topP))
         == Ok(EncodeNextToken(requestId, sampling, temperature, topP))
  {
    Pow2Values();
    var c := H.NextToken(requestId, sampling, temperature, topP);
    H.OperandNextToken(requestId, sampling, temperature, topP);
    H.OperandFits(c);
    H.EncodeIs(c);
    PackHostCommandIs(H.NEXT_TOKEN, H.Operand(c));
  }
}
