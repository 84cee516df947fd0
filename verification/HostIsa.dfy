/** The 64-bit host commands of `sw/runtime/isa.py`: checked encoders, decoders,
    and the completion status word. */
module HostIsa {
  import opened Prelude
  import opened Bits

  const RESET_KV_CACHE: nat := 0x01
  const LOAD_WEIGHT: nat := 0x02
  const LOAD_PROMPT: nat := 0x03
  const NEXT_TOKEN: nat := 0x04

  const ARGMAX: nat := 0
  const RANDOM: nat := 1

  /** The fields of one command, as callers pass them: any integers. */
  datatype Command =
    | Reset(sessionId: int)
    | LoadWeight(weightSlot: int, flags: int, descriptorCount: int, manifestId: int)
    | LoadPrompt(position: int, tokenId: int)
    | NextToken(requestId: int, sampling: int, temperature: int, topP: int)

  // ----- encoders

  /** `_check`: the value itself, or a ValueError naming the field. */
  function Check(v: int, width: nat, name: string): Result<nat, string> {
    if v < 0 || v > Mask(width) then Err(name) else Ok(And(v, Mask(width)))
  }

  /** `_pack_command` */
  function PackCommand(opcode: nat, operand: nat): Result<nat, string> {
    var op :- Check(opcode, 8, "opcode");
    var x :- Check(operand, 56, "operand");
    Ok(Or(Shl(op, 56), x))
  }

  function Encode(c: Command): Result<nat, string> {
    match c
    case Reset(sessionId) =>
      var s :- Check(sessionId, 32, "session_id");
      PackCommand(RESET_KV_CACHE, s)
    case LoadWeight(weightSlot, flags, descriptorCount, manifestId) =>
      var s :- Check(weightSlot, 8, "weight_slot");
      var f :- Check(flags, 8, "flags");
      var d :- Check(descriptorCount, 8, "descriptor_count");
      var m :- Check(manifestId, 32, "manifest_id");
      PackCommand(LOAD_WEIGHT, Or(Or(Or(Shl(s, 48), Shl(f, 40)), Shl(d, 32)), m))
    case LoadPrompt(position, tokenId) =>
      var p :- Check(position, 24, "position");
      var t :- Check(tokenId, 32, "token_id");
      PackCommand(LOAD_PROMPT, Or(Shl(p, 32), t))
    case NextToken(requestId, sampling, temperature, topP) =>
      var r :- Check(requestId, 16, "request_id");
      var s :- Check(sampling, 8, "sampling");
      var t :- Check(temperature, 16, "temperature_q8_8");
      var p :- Check(topP, 16, "top_p_q8_8");
      PackCommand(NEXT_TOKEN, Or(Or(Or(Shl(r, 40), Shl(s, 32)), Shl(t, 16)), p))
  }

  // ----- decoders

  /** `decode_command`: opcode and operand. */
  function DecodeCommand(word: int): Result<(nat, nat), string> {
    var w :- Check(word, 64, "word64");
    Ok((And(Shr(w, 56), 0xFF), And(w, Mask(56))))
  }

  /** The four `decode_*` functions, chosen by the opcode they insist on. */
  function Decode(word: int): Result<Command, string> {
    var (opcode, x) :- DecodeCommand(word);
    DecodeOperand(opcode, x)
  }

  function DecodeOperand(opcode: nat, x: nat): Result<Command, string> {
    if opcode == RESET_KV_CACHE then
      Ok(Reset(And(x, Mask(32))))
    else if opcode == LOAD_WEIGHT then
      Ok(LoadWeight(And(Shr(x, 48), Mask(8)), And(Shr(x, 40), Mask(8)),
                    And(Shr(x, 32), Mask(8)), And(x, Mask(32))))
    else if opcode == LOAD_PROMPT then
      Ok(LoadPrompt(And(Shr(x, 32), Mask(24)), And(x, Mask(32))))
    else if opcode == NEXT_TOKEN then
      var sampling := And(Shr(x, 32), Mask(8));
      if sampling > RANDOM then Err("sampling")
      else Ok(NextToken(And(Shr(x, 40), Mask(16)), sampling, And(Shr(x, 16), Mask(16)), And(x, Mask(16))))
    else
      Err("opcode")
  }

  // ----- the layout the encoders follow

  function Opcode(c: Command): nat {
    match c
    case Reset(_) => RESET_KV_CACHE
    case LoadWeight(_, _, _, _) => LOAD_WEIGHT
    case LoadPrompt(_, _) => LOAD_PROMPT
    case NextToken(_, _, _, _) => NEXT_TOKEN
  }

  function Widths(opcode: nat): seq<nat> {
    if opcode == RESET_KV_CACHE then [24, 32]
    else if opcode == LOAD_WEIGHT then [8, 8, 8, 32]
    else if opcode == LOAD_PROMPT then [24, 32]
    else [16, 8, 16, 16]
  }

  ghost predicate InRange(c: Command) {
    match c
    case Reset(s) => 0 <= s < Pow2(32)
    case LoadWeight(s, f, d, m) =>
      0 <= s < Pow2(8) && 0 <= f < Pow2(8) && 0 <= d < Pow2(8) && 0 <= m < Pow2(32)
    case LoadPrompt(p, t) => 0 <= p < Pow2(24) && 0 <= t < Pow2(32)
    case NextToken(r, s, t, p) =>
      0 <= r < Pow2(16) && 0 <= s < Pow2(8) && 0 <= t < Pow2(16) && 0 <= p < Pow2(16)
  }

  function Fields(c: Command): seq<nat>
    requires InRange(c)
  {
    match c
    case Reset(s) => [0, s]
    case LoadWeight(s, f, d, m) => [s, f, d, m]
    case LoadPrompt(p, t) => [p, t]
    case NextToken(r, s, t, p) => [r, s, t, p]
  }

  /** The packed operand of a command. */
  ghost function Operand(c: Command): nat
    requires InRange(c)
  {
    Pack(Widths(Opcode(c)), Fields(c))
  }

  lemma CheckIs(v: int, width: nat, name: string)
    ensures Check(v, width, name) == if 0 <= v < Pow2(width) then Ok(v) else Err(name)
  {
    if 0 <= v < Pow2(width) { MaskFits(v, width); }
  }

  lemma OperandFits(c: Command)
    requires InRange(c)
    ensures Fits(Widths(Opcode(c)), Fields(c))
    ensures Width(Widths(Opcode(c))) == 56
    ensures Operand(c) < Pow2(56)
  {
    WidthsAre56(Opcode(c));
    PackFits(Widths(Opcode(c)), Fields(c));
  }

  lemma WidthsAre56(opcode: nat)
    ensures Width(Widths(opcode)) == 56
  {
    if opcode == LOAD_WEIGHT {
      Four(0, 8, 8, 8, 32, 0, 0, 0, 0);
    } else if opcode == RESET_KV_CACHE || opcode == LOAD_PROMPT {
      Two(0, 24, 32, 0, 0, 0);
    } else {
      Four(0, 16, 8, 16, 16, 0, 0, 0, 0);
    }
  }

  // ----- the shift-and-or expressions are instances of the layout

  /** Or-ing the fields of a command in one after another packs them. */
  lemma OperandIsShiftOr(c: Command)
    requires InRange(c)
    ensures Operand(c) == ShiftOr(0, Widths(Opcode(c)), Fields(c))
  {
    OperandFits(c);
    ShiftOrPacks(Widths(Opcode(c)), Fields(c));
  }

  lemma OperandReset(s: nat)
    requires InRange(Reset(s))
    ensures Operand(Reset(s)) == s
  {
    OperandIsShiftOr(Reset(s));
    Two(0, 24, 32, 0, s, 0);
    ShlZero(32);
    OrZero(s);
  }

  lemma OperandLoadWeight(s: nat, f: nat, d: nat, m: nat)
    requires InRange(LoadWeight(s, f, d, m))
    ensures Operand(LoadWeight(s, f, d, m)) == Or(Or(Or(Shl(s, 48), Shl(f, 40)), Shl(d, 32)), m)
  {
    OperandIsShiftOr(LoadWeight(s, f, d, m));
    Four(0, 8, 8, 8, 32, s, f, d, m);
    OrZero(Shl(s, 48));
  }

  lemma OperandLoadPrompt(p: nat, t: nat)
    requires InRange(LoadPrompt(p, t))
    ensures Operand(LoadPrompt(p, t)) == Or(Shl(p, 32), t)
  {
    OperandIsShiftOr(LoadPrompt(p, t));
    Two(0, 24, 32, p, t, 0);
    OrZero(Shl(p, 32));
  }

  lemma OperandNextToken(r: nat, s: nat, t: nat, p: nat)
    requires InRange(NextToken(r, s, t, p))
    ensures Operand(NextToken(r, s, t, p)) == Or(Or(Or(Shl(r, 40), Shl(s, 32)), Shl(t, 16)), p)
  {
    OperandIsShiftOr(NextToken(r, s, t, p));
    Four(0, 16, 8, 16, 16, r, s, t, p);
    OrZero(Shl(r, 40));
  }

  lemma EncodeReset(s: int)
    ensures var c := Reset(s);
      if InRange(c) then Encode(c) == PackCommand(RESET_KV_CACHE, Operand(c)) else Encode(c).Err?
  {
    CheckIs(s, 32, "session_id");
    if InRange(Reset(s)) { OperandReset(s); }
  }

  lemma LoadWeightInRange(s: nat, f: nat, d: nat, m: nat)
    requires InRange(LoadWeight(s, f, d, m))
    ensures Encode(LoadWeight(s, f, d, m))
         == PackCommand(LOAD_WEIGHT, Or(Or(Or(Shl(s, 48), Shl(f, 40)), Shl(d, 32)), m))
  {
    CheckIs(s, 8, "weight_slot");
    CheckIs(f, 8, "flags");
    CheckIs(d, 8, "descriptor_count");
    CheckIs(m, 32, "manifest_id");
  }

  lemma LoadWeightOutOfRange(s: int, f: int, d: int, m: int)
    requires !InRange(LoadWeight(s, f, d, m))
    ensures Encode(LoadWeight(s, f, d, m)).Err?
  {
    CheckIs(s, 8, "weight_slot");
    CheckIs(f, 8, "flags");
    CheckIs(d, 8, "descriptor_count");
    CheckIs(m, 32, "manifest_id");
  }

  lemma EncodeLoadWeight(s: int, f: int, d: int, m: int)
    ensures var c := LoadWeight(s, f, d, m);
      if InRange(c) then Encode(c) == PackCommand(LOAD_WEIGHT, Operand(c)) else Encode(c).Err?
  {
    if InRange(LoadWeight(s, f, d, m)) {
      LoadWeightInRange(s, f, d, m);
      OperandLoadWeight(s, f, d, m);
    } else {
      LoadWeightOutOfRange(s, f, d, m);
    }
  }

  lemma LoadPromptInRange(p: nat, t: nat)
    requires InRange(LoadPrompt(p, t))
    ensures Encode(LoadPrompt(p, t)) == PackCommand(LOAD_PROMPT, Or(Shl(p, 32), t))
  {
    CheckIs(p, 24, "position");
    CheckIs(t, 32, "token_id");
  }

  lemma EncodeLoadPrompt(p: int, t: int)
    ensures var c := LoadPrompt(p, t);
      if InRange(c) then Encode(c) == PackCommand(LOAD_PROMPT, Operand(c)) else Encode(c).Err?
  {
    if InRange(LoadPrompt(p, t)) {
      LoadPromptInRange(p, t);
      OperandLoadPrompt(p, t);
    } else {
      LoadPromptOutOfRange(p, t);
    }
  }

  lemma LoadPromptOutOfRange(p: int, t: int)
    requires !InRange(LoadPrompt(p, t))
    ensures Encode(LoadPrompt(p, t)).Err?
  {
    CheckIs(p, 24, "position");
    CheckIs(t, 32, "token_id");
  }

  lemma NextTokenInRange(r: nat, s: nat, t: nat, p: nat)
    requires InRange(NextToken(r, s, t, p))
    ensures Encode(NextToken(r, s, t, p))
         == PackCommand(NEXT_TOKEN, Or(Or(Or(Shl(r, 40), Shl(s, 32)), Shl(t, 16)), p))
  {
    CheckIs(r, 16, "request_id");
    CheckIs(s, 8, "sampling");
    CheckIs(t, 16, "temperature_q8_8");
    CheckIs(p, 16, "top_p_q8_8");
  }

  lemma NextTokenOutOfRange(r: int, s: int, t: int, p: int)
    requires !InRange(NextToken(r, s, t, p))
    ensures Encode(NextToken(r, s, t, p)).Err?
  {
    CheckIs(r, 16, "request_id");
    CheckIs(s, 8, "sampling");
    CheckIs(t, 16, "temperature_q8_8");
    CheckIs(p, 16, "top_p_q8_8");
  }

  lemma EncodeNextToken(r: int, s: int, t: int, p: int)
    ensures var c := NextToken(r, s, t, p);
      if InRange(c) then Encode(c) == PackCommand(NEXT_TOKEN, Operand(c)) else Encode(c).Err?
  {
    if InRange(NextToken(r, s, t, p)) {
      NextTokenInRange(r, s, t, p);
      OperandNextToken(r, s, t, p);
    } else {
      NextTokenOutOfRange(r, s, t, p);
    }
  }

  /** The shift-and-or expression of an encoder is the layout; a field that does not
      fit is an error. */
  lemma EncodeIs(c: Command)
    ensures if InRange(c) then Encode(c) == PackCommand(Opcode(c), Operand(c)) else Encode(c).Err?
  {
    match c
    case Reset(s) => EncodeReset(s);
    case LoadWeight(s, f, d, m) => EncodeLoadWeight(s, f, d, m);
    case LoadPrompt(p, t) => EncodeLoadPrompt(p, t);
    case NextToken(r, s, t, p) => EncodeNextToken(r, s, t, p);
  }

  lemma PackedCommand(opcode: nat, operand: nat)
    requires opcode < Pow2(8) && operand < Pow2(56)
    ensures PackCommand(opcode, operand) == Ok(Shl(opcode, 56) + operand)
  {
    CheckIs(opcode, 8, "opcode");
    CheckIs(operand, 56, "operand");
    OrDisjoint(opcode, 56, operand);
  }

  lemma SplitCommand(opcode: nat, operand: nat, word: nat)
    requires opcode < Pow2(8) && operand < Pow2(56) && word == Shl(opcode, 56) + operand
    ensures word < Pow2(64)
    ensures DecodeCommand(word) == Ok((opcode, operand))
  {
    SplitJoined(8, opcode, operand, 56, word);
    CheckIs(word, 64, "word64");
    assert Mask(8) == 0xFF;
  }

  /** The word of a command: its opcode above its packed fields. */
  lemma EncodedWord(c: Command, opcode: nat, x: nat)
    requires InRange(c) && opcode == Opcode(c) && x == Operand(c)
    ensures x < Pow2(56)
    ensures Encode(c) == Ok(Shl(opcode, 56) + x)
  {
    assert x < Pow2(56) by { OperandFits(c); }
    assert Encode(c) == PackCommand(opcode, x) by { EncodeIs(c); }
    PackedCommand(opcode, x);
  }

  lemma InRangeIf(c: Command, word: nat)
    requires Encode(c) == Ok(word)
    ensures InRange(c)
  {
    EncodeIs(c);
  }

  lemma WordAbove(c: Command, word: nat, opcode: nat, x: nat)
    requires InRange(c) && Encode(c) == Ok(word) && opcode == Opcode(c) && x == Operand(c)
    ensures word == opcode * Pow2(56) + x
  {
    EncodedWord(c, opcode, x);
    ShlIsTimes(opcode, 56);
  }

  /** Where the fields of each kind of command stand in its word. */
  lemma ResetWordIs(s: nat, word: nat)
    requires Encode(Reset(s)) == Ok(word)
    ensures word == 1 * Pow2(56) + s
  {
    InRangeIf(Reset(s), word);
    OperandReset(s);
    WordAbove(Reset(s), word, 1, s);
  }

  lemma LoadWeightPacked(s: nat, f: nat, d: nat, m: nat)
    requires InRange(LoadWeight(s, f, d, m))
    ensures Operand(LoadWeight(s, f, d, m)) == Pack([8, 8, 8, 32], [s, f, d, m])
  {
  }

  lemma LoadWeightSum(s: nat, f: nat, d: nat, m: nat)
    ensures Pack([8, 8, 8, 32], [s, f, d, m]) == s * Pow2(48) + f * Pow2(40) + d * Pow2(32) + m
  {
    SumFour(8, 8, 8, 32, s, f, d, m);
  }

  lemma LoadWeightWordIs(s: nat, f: nat, d: nat, m: nat, word: nat)
    requires Encode(LoadWeight(s, f, d, m)) == Ok(word)
    ensures word == 2 * Pow2(56) + (s * Pow2(48) + f * Pow2(40) + d * Pow2(32) + m)
  {
    InRangeIf(LoadWeight(s, f, d, m), word);
    LoadWeightPacked(s, f, d, m);
    LoadWeightSum(s, f, d, m);
    WordAbove(LoadWeight(s, f, d, m), word, 2, Pack([8, 8, 8, 32], [s, f, d, m]));
  }

  lemma LoadPromptPacked(p: nat, t: nat)
    requires InRange(LoadPrompt(p, t))
    ensures Operand(LoadPrompt(p, t)) == Pack([24, 32], [p, t])
  {
  }

  lemma LoadPromptSum(p: nat, t: nat)
    ensures Pack([24, 32], [p, t]) == p * Pow2(32) + t
  {
    SumTwo(24, 32, p, t);
  }

  lemma LoadPromptWordIs(p: nat, t: nat, word: nat)
    requires Encode(LoadPrompt(p, t)) == Ok(word)
    ensures word == 3 * Pow2(56) + (p * Pow2(32) + t)
  {
    InRangeIf(LoadPrompt(p, t), word);
    LoadPromptPacked(p, t);
    LoadPromptSum(p, t);
    WordAbove(LoadPrompt(p, t), word, 3, Pack([24, 32], [p, t]));
  }

  lemma NextTokenPacked(r: nat, s: nat, t: nat, p: nat)
    requires InRange(NextToken(r, s, t, p))
    ensures Operand(NextToken(r, s, t, p)) == Pack([16, 8, 16, 16], [r, s, t, p])
  {
  }

  lemma NextTokenSum(r: nat, s: nat, t: nat, p: nat)
    ensures Pack([16, 8, 16, 16], [r, s, t, p]) == r * Pow2(40) + s * Pow2(32) + t * Pow2(16) + p
  {
    SumFour(16, 8, 16, 16, r, s, t, p);
  }

  lemma NextTokenWordIs(r: nat, s: nat, t: nat, p: nat, word: nat)
    requires Encode(NextToken(r, s, t, p)) == Ok(word)
    ensures word == 4 * Pow2(56) + (r * Pow2(40) + s * Pow2(32) + t * Pow2(16) + p)
  {
    InRangeIf(NextToken(r, s, t, p), word);
    NextTokenPacked(r, s, t, p);
    NextTokenSum(r, s, t, p);
    WordAbove(NextToken(r, s, t, p), word, 4, Pack([16, 8, 16, 16], [r, s, t, p]));
  }

  /** An encoder fails exactly when a field does not fit. */
  lemma EncodeSucceeds(c: Command)
    ensures Encode(c).Ok? <==> InRange(c)
  {
    if InRange(c) { EncodedWord(c, Opcode(c), Operand(c)); } else { EncodeIs(c); }
  }

  /** The command a decoder assembles from the field values it read. */
  function FromFields(opcode: nat, vs: seq<nat>): Result<Command, string>
    requires |vs| == |Widths(opcode)|
  {
    if opcode == RESET_KV_CACHE then Ok(Reset(vs[1]))
    else if opcode == LOAD_WEIGHT then Ok(LoadWeight(vs[0], vs[1], vs[2], vs[3]))
    else if opcode == LOAD_PROMPT then Ok(LoadPrompt(vs[0], vs[1]))
    else if opcode == NEXT_TOKEN then
      if vs[1] > RANDOM then Err("sampling") else Ok(NextToken(vs[0], vs[1], vs[2], vs[3]))
    else Err("opcode")
  }

  lemma ReadsLoadWeight(x: nat)
    ensures DecodeOperand(LOAD_WEIGHT, x) == FromFields(LOAD_WEIGHT, Unpack(Widths(LOAD_WEIGHT), x))
  {
    UnpackFour(8, 8, 8, 32, x);
  }

  lemma ReadsNextToken(x: nat)
    ensures DecodeOperand(NEXT_TOKEN, x) == FromFields(NEXT_TOKEN, Unpack(Widths(NEXT_TOKEN), x))
  {
    UnpackFour(16, 8, 16, 16, x);
  }

  /** A decoder reads exactly the packed fields of the operand. */
  lemma DecodeIsUnpack(opcode: nat, x: nat)
    ensures DecodeOperand(opcode, x) == FromFields(opcode, Unpack(Widths(opcode), x))
  {
    if opcode == LOAD_WEIGHT {
      ReadsLoadWeight(x);
    } else if opcode == NEXT_TOKEN {
      ReadsNextToken(x);
    } else {
      Two(0, 24, 32, 0, 0, x);
    }
  }

  // ----- round trips

  lemma UnpackOperand(c: Command)
    requires InRange(c)
    ensures Unpack(Widths(Opcode(c)), Operand(c)) == Fields(c)
  {
    OperandFits(c);
    UnpackPacked(Widths(Opcode(c)), Fields(c));
  }

  lemma FieldsBack(c: Command)
    requires InRange(c)
    requires c.NextToken? ==> c.sampling <= RANDOM
    ensures FromFields(Opcode(c), Fields(c)) == Ok(c)
  {
  }

  /** Decoding what was encoded gives the command back, for all four commands. */
  lemma DecodeEncode(c: Command)
    requires Encode(c).Ok?
    requires c.NextToken? ==> c.sampling <= RANDOM
    ensures Decode(Encode(c).value) == Ok(c)
  {
    EncodeSucceeds(c);
    var opcode, x := Opcode(c), Operand(c);
    EncodedWord(c, opcode, x);
    SplitCommand(opcode, x, Encode(c).value);
    UnpackOperand(c);
    FieldsBack(c);
    DecodeIsUnpack(opcode, x);
  }

  lemma WordSplit(word: nat, opcode: nat, x: nat)
    requires DecodeCommand(word) == Ok((opcode, x))
    ensures word < Pow2(64) && x < Pow2(56) && word == Shl(opcode, 56) + x
    ensures x == And(word, Mask(56))
  {
    CheckIs(word, 64, "word64");
    Rejoin(word, 56);
    HighByte(word);
  }

  lemma HighByte(word: nat)
    requires word < Pow2(64)
    ensures And(Shr(word, 56), 0xFF) == Shr(word, 56)
  {
    ShrFits(word, 8, 56);
    MaskFits(Shr(word, 56), 8);
    assert Mask(8) == 0xFF;
  }

  lemma FromFittingFields(opcode: nat, vs: seq<nat>, c: Command)
    requires Fits(Widths(opcode), vs)
    requires FromFields(opcode, vs) == Ok(c)
    ensures InRange(c) && Opcode(c) == opcode
    ensures Fields(c) == if c.Reset? then [0, vs[1]] else vs
  {
    if opcode == LOAD_WEIGHT {
      LoadWeightFields(vs);
    } else if opcode == NEXT_TOKEN {
      assert vs == [vs[0], vs[1], vs[2], vs[3]];
    } else {
      assert vs == [vs[0], vs[1]];
    }
  }

  lemma LoadWeightFields(vs: seq<nat>)
    requires Fits([8, 8, 8, 32], vs)
    ensures InRange(LoadWeight(vs[0], vs[1], vs[2], vs[3])) && vs == [vs[0], vs[1], vs[2], vs[3]]
  {
  }

  lemma DecodedOperand(opcode: nat, x: nat, c: Command)
    requires x < Pow2(56)
    requires FromFields(opcode, Unpack(Widths(opcode), x)) == Ok(c)
    ensures InRange(c) && Opcode(c) == opcode
    ensures Operand(c) == if c.Reset? then And(x, Mask(32)) else x
  {
    UnpackFits(Widths(opcode), x);
    FromFittingFields(opcode, Unpack(Widths(opcode), x), c);
    if c.Reset? {
      Two(0, 24, 32, 0, 0, x);
      OperandReset(c.sessionId);
    } else {
      WidthsAre56(opcode);
      PackUnpack(Widths(opcode), x);
    }
  }

  lemma DecodedWord(word: nat, c: Command, opcode: nat, x: nat)
    requires Decode(word) == Ok(c) && DecodeCommand(word) == Ok((opcode, x))
    ensures InRange(c) && Opcode(c) == opcode
    ensures word == Shl(opcode, 56) + x && x == And(word, Mask(56))
    ensures Operand(c) == if c.Reset? then And(x, Mask(32)) else x
  {
    WordSplit(word, opcode, x);
    DecodeIsUnpack(opcode, x);
    DecodedOperand(opcode, x, c);
  }

  lemma MaskKeeps(x: nat, w: nat)
    ensures And(x, Mask(w)) == x <==> x < Pow2(w)
  {
    Rejoin(x, w);
    if x < Pow2(w) { MaskFits(x, w); }
  }

  /** Every LOAD_WEIGHT, LOAD_PROMPT and NEXT_TOKEN word a decoder accepts is
      reproduced by the encoder. */
  lemma EncodeDecode(word: nat, c: Command)
    requires Decode(word) == Ok(c) && !c.Reset?
    ensures Encode(c) == Ok(word)
  {
    var (opcode, x) := DecodeCommand(word).value;
    DecodedWord(word, c, opcode, x);
    EncodedWord(c, opcode, x);
  }

  /** Packing another operand under a word's opcode gives the word only for its own. */
  lemma Repacked(word: nat, opcode: nat, x: nat, y: nat)
    requires DecodeCommand(word) == Ok((opcode, x)) && opcode < Pow2(8) && y < Pow2(56)
    ensures PackCommand(opcode, y).Ok? && (PackCommand(opcode, y).value == word <==> x == y)
  {
    var high := Shl(opcode, 56);
    assert word == high + x by { WordSplit(word, opcode, x); }
    assert PackCommand(opcode, y).Ok? && PackCommand(opcode, y).value == high + y by { PackedCommand(opcode, y); }
  }

  lemma ResetReproduced(word: nat, x: nat, s: nat)
    requires DecodeCommand(word) == Ok((RESET_KV_CACHE, x)) && s == And(x, Mask(32))
    ensures Encode(Reset(s)).Ok? && (Encode(Reset(s)).value == word <==> x == s)
  {
    Rejoin(x, 32);
    assert s < Pow2(56) by { Pow2Mono(32, 56); }
    EncodeReset(s);
    OperandReset(s);
    Repacked(word, RESET_KV_CACHE, x, s);
  }

  /** A RESET word is reproduced exactly when its operand has nothing above the
      32-bit session field: the decoder drops those bits. */
  lemma EncodeDecodeReset(word: nat, operand: nat)
    requires DecodeCommand(word) == Ok((RESET_KV_CACHE, operand))
    ensures Decode(word).Ok?
    ensures Encode(Decode(word).value) == Ok(word) <==> operand < Pow2(32)
  {
    ResetReproduced(word, operand, And(operand, Mask(32)));
    MaskKeeps(operand, 32);
    assert Decode(word) == Ok(Reset(And(operand, Mask(32))));
  }

  /** Distinct commands have distinct words. */
  lemma EncodeInjective(c: Command, d: Command)
    requires Encode(c).Ok? && Encode(c) == Encode(d)
    requires c.NextToken? ==> c.sampling <= RANDOM
    requires d.NextToken? ==> d.sampling <= RANDOM
    ensures c == d
  {
    DecodeEncode(c);
    DecodeEncode(d);
  }

  // ----- the completion status word

  const BUSY: nat := 0x1
  const DONE: nat := 0x2
  const ERROR: nat := 0x4
  const TOKEN_VALID: nat := 0x8
  const TOKEN_MASK: nat := 0xFFFF_FFFF

  function Flags(busy: bool, done: bool, error: bool): nat {
    Or(Or(if busy then BUSY else 0, if done then DONE else 0), if error then ERROR else 0)
  }

  /** `encode_status` */
  function EncodeStatus(busy: bool, done: bool, error: bool, token: Option<int>): Result<nat, string> {
    match token
    case None => Ok(Flags(busy, done, error))
    case Some(t) =>
      var v :- Check(t, 32, "token");
      Ok(Or(Or(Shl(v, 32), TOKEN_VALID), Flags(busy, done, error)))
  }

  predicate StatusBit(stat: nat, mask: nat) {
    And(stat, mask) != 0
  }

  /** `status_token` */
  function StatusToken(stat: int): Result<Option<nat>, string> {
    var s :- Check(stat, 64, "stat");
    if !StatusBit(s, TOKEN_VALID) then Ok(None) else Ok(Some(And(Shr(s, 32), TOKEN_MASK)))
  }

  lemma FlagBits(busy: bool, done: bool, error: bool, valid: bool)
    ensures var f := Flags(busy, done, error) + if valid then TOKEN_VALID else 0;
      && f < 16
      && (StatusBit(f, BUSY) <==> busy) && (StatusBit(f, DONE) <==> done)
      && (StatusBit(f, ERROR) <==> error) && (StatusBit(f, TOKEN_VALID) <==> valid)
  {
    FlagSum(busy, done, error);
    NibbleBits(Flags(busy, done, error) + if valid then TOKEN_VALID else 0);
  }

  lemma FlagSum(busy: bool, done: bool, error: bool)
    ensures Flags(busy, done, error)
         == (if busy then 1 else 0) + (if done then 2 else 0) + (if error then 4 else 0)
  {
    OrZero(0);
    OrZero(1);
    OrZero(2);
    OrZero(3);
    OrZero(4);
    assert Or(1, 2) == 3 && Or(3, 4) == 7 && Or(1, 4) == 5 && Or(2, 4) == 6;
  }

  lemma StatusSum(t: nat, f: nat)
    requires f < 8
    ensures Or(Or(Shl(t, 32), TOKEN_VALID), f) == Shl(t, 32) + (f + 8)
  {
    OrDisjoint(t, 32, 8);
    Above(t, 29, 1, 3);
    assert Shl(1, 3) == 8;
    OrDisjoint(Shl(t, 29) + 1, 3, f);
  }

  lemma TokenReads(t: nat, f: nat, s: nat)
    requires t < Pow2(32) && f < 16 && s == Shl(t, 32) + f
    ensures Check(s, 64, "stat") == Ok(s)
    ensures And(Shr(s, 32), TOKEN_MASK) == t
  {
    assert Mask(32) == TOKEN_MASK by { Pow2Values(); }
    SplitJoined(32, t, f, 32, s);
    CheckIs(s, 64, "stat");
  }

  lemma FlagsRead(t: nat, f: nat, s: nat, mask: nat)
    requires f < 16 && mask < 16 && s == Shl(t, 32) + f
    ensures StatusBit(s, mask) == StatusBit(f, mask)
  {
    Pow2Mono(4, 32);
    AndLow(t, 32, f, mask);
  }

  /** The status word a completion posts, read by every accessor: each flag as
      posted, and the token exactly when one was posted. */
  lemma StatusReadsBack(busy: bool, done: bool, error: bool, token: Option<nat>, s: nat)
    requires EncodeStatus(busy, done, error, token) == Ok(s)
    ensures StatusBit(s, BUSY) == busy && StatusBit(s, DONE) == done && StatusBit(s, ERROR) == error
    ensures StatusToken(s) == Ok(token)
  {
    var f := Flags(busy, done, error);
    FlagBits(busy, done, error, token.Some?);
    match token
    case None =>
      ShlZero(32);
      TokenReads(0, f, s);
      assert StatusToken(s) == Ok(None);
    case Some(t) =>
      CheckIs(t, 32, "token");
      FlagBits(busy, done, error, false);
      assert f < 8 by { if f >= 8 { NibbleBits(f); } }
      StatusSum(t, f);
      TokenReads(t, f + 8, s);
      FlagsRead(t, f + 8, s, BUSY);
      FlagsRead(t, f + 8, s, DONE);
      FlagsRead(t, f + 8, s, ERROR);
      FlagsRead(t, f + 8, s, TOKEN_VALID);
  }
}
