/** The PS-driven DataMover command/status port (`sw/runtime/npu/dma.py`).

    The device side is the port of `sw/runtime/npu/README.md`: a staged 72-bit
    descriptor, a command FIFO and a status FIFO of depth 8, and a mover that
    takes commands in order and answers each with a status carrying its tag.
    The mover works concurrently with the host: between any two register
    accesses of the host it may take any number of steps. */
module DmaChannel {
  import opened Prelude
  import opened Bits
  import V = V002Isa

  const CMD_LO: nat := 0x000
  const CMD_HI: nat := 0x004
  const CMD_EXT: nat := 0x008
  const CMD_PUSH: nat := 0x00C
  const STS_POP: nat := 0x010
  const FLAGS: nat := 0x014
  const CMD_LVL: nat := 0x018
  const STS_LVL: nat := 0x01C

  const FLAG_CMD_EMPTY: nat := 1
  const FLAG_CMD_FULL: nat := 2
  const FLAG_STS_EMPTY: nat := 4
  const FLAG_STS_FULL: nat := 8

  const DEPTH: nat := 8

  // ----- the device

  /** `pushed` and `posted` are the histories of all descriptors pushed and all
      statuses posted since reset; the FIFOs hold their ends. */
  datatype Port = Port(lo: nat, hi: nat, ext: nat,
                       cmds: seq<nat>, inFlight: seq<nat>, sts: seq<nat>,
                       pushed: seq<nat>, posted: seq<nat>)

  const RESET: Port := Port(0, 0, 0, [], [], [], [], [])

  /** One step of the mover: take the next command, or complete the oldest one
      with four outcome bits. */
  datatype MoverStep = Take | Complete(outcome: nat)

  function TagOf(descriptor: nat): nat {
    And(Shr(descriptor, 68), Mask(4))
  }

  function StatusWord(descriptor: nat, outcome: nat): nat {
    16 * TagOf(descriptor) + outcome % 16
  }

  function Move(p: Port, s: MoverStep): Port {
    match s
    case Take =>
      if p.cmds == [] then p
      else p.(cmds := p.cmds[1..], inFlight := p.inFlight + [p.cmds[0]])
    case Complete(outcome) =>
      if p.inFlight == [] || |p.sts| >= DEPTH then p
      else
        var w := StatusWord(p.inFlight[0], outcome);
        p.(inFlight := p.inFlight[1..], sts := p.sts + [w], posted := p.posted + [w])
  }

  function MoveAll(p: Port, steps: seq<MoverStep>): Port
    decreases |steps|
  {
    if steps == [] then p else MoveAll(Move(p, steps[0]), steps[1..])
  }

  function Staged(p: Port): nat {
    Shl(And(p.ext, Mask(8)), 64) + Shl(p.hi, 32) + p.lo
  }

  function WriteReg(p: Port, reg: nat, v: nat): Port {
    if reg == CMD_LO then p.(lo := And(v, Mask(32)))
    else if reg == CMD_HI then p.(hi := And(v, Mask(32)))
    else if reg == CMD_EXT then p.(ext := And(v, Mask(32)))
    else if reg == CMD_PUSH && |p.cmds| < DEPTH then
      p.(cmds := p.cmds + [Staged(p)], pushed := p.pushed + [Staged(p)])
    else p
  }

  function FlagBits(p: Port): nat {
    (if p.cmds == [] then FLAG_CMD_EMPTY else 0) + (if |p.cmds| >= DEPTH then FLAG_CMD_FULL else 0)
    + (if p.sts == [] then FLAG_STS_EMPTY else 0) + (if |p.sts| >= DEPTH then FLAG_STS_FULL else 0)
  }

  /** A read and what it does to the port: only STS_POP changes it. */
  function ReadReg(p: Port, reg: nat): (Port, nat) {
    if reg == FLAGS then (p, FlagBits(p))
    else if reg == CMD_LVL then (p, |p.cmds|)
    else if reg == STS_LVL then (p, |p.sts|)
    else if reg == STS_POP && p.sts != [] then (p.(sts := p.sts[1..]), p.sts[0])
    else (p, 0)
  }

  /** The register window as the host sees it. */
  class Mmio {
    var port: Port

    constructor ()
      ensures port == RESET
    {
      port := RESET;
    }

    method Write32(reg: nat, v: nat)
      modifies this
      ensures port == WriteReg(old(port), reg, v)
    {
      port := WriteReg(port, reg, v);
    }

    method Read32(reg: nat) returns (v: nat)
      modifies this
      ensures (port, v) == ReadReg(old(port), reg)
    {
      var r := ReadReg(port, reg);
      port, v := r.0, r.1;
    }

    /** The mover runs while the host is between two accesses. */
    method Elapse(steps: seq<MoverStep>)
      modifies this
      ensures port == MoveAll(old(port), steps)
    {
      port := MoveAll(port, steps);
    }
  }

  // ----- the host

  datatype Error = Invalid(field: string) | FifoFull | TagMismatch | Timeout

  /** What the mover does in the five gaps of one `issue_command`. */
  datatype Gaps = Gaps(g0: seq<MoverStep>, g1: seq<MoverStep>, g2: seq<MoverStep>, g3: seq<MoverStep>,
                       g4: seq<MoverStep>)

  /** One register write, after the mover took some steps. */
  function Stage(p: Port, steps: seq<MoverStep>, reg: nat, v: nat): Port {
    WriteReg(MoveAll(p, steps), reg, v)
  }

  /** `issue_command`, as a function of the port. */
  function Issue(p: Port, addr: int, tag: int, length: int, eof: bool, gaps: Gaps): (Port, Result<nat, Error>) {
    match V.PackDataMover(addr, tag, length, eof)
    case Err(field) => (p, Err(Invalid(field)))
    case Ok(command) =>
      var p0 := MoveAll(p, gaps.g0);
      if And(FlagBits(p0), FLAG_CMD_FULL) != 0 then (p0, Err(FifoFull))
      else
        var p1 := Stage(p0, gaps.g1, CMD_LO, And(command, Mask(32)));
        var p2 := Stage(p1, gaps.g2, CMD_HI, And(Shr(command, 32), Mask(32)));
        var p3 := Stage(p2, gaps.g3, CMD_EXT, And(Shr(command, 64), Mask(32)));
        var p4 := Stage(p3, gaps.g4, CMD_PUSH, 1);
        (p4, Ok(if tag < 0 then 0 else And(tag, Mask(4))))
  }

  method IssueCommand(mmio: Mmio, addr: int, tag: int, length: int, eof: bool, gaps: Gaps)
    returns (r: Result<nat, Error>)
    modifies mmio
    ensures (mmio.port, r) == Issue(old(mmio.port), addr, tag, length, eof, gaps)
  {
    var packed := V.PackDataMover(addr, tag, length, eof);
    if packed.Err? {
      return Err(Invalid(packed.error));
    }
    var command := packed.value;
    mmio.Elapse(gaps.g0);
    var flags := mmio.Read32(FLAGS);
    if And(flags, FLAG_CMD_FULL) != 0 {
      return Err(FifoFull);
    }
    mmio.Elapse(gaps.g1);
    mmio.Write32(CMD_LO, And(command, Mask(32)));
    mmio.Elapse(gaps.g2);
    mmio.Write32(CMD_HI, And(Shr(command, 32), Mask(32)));
    mmio.Elapse(gaps.g3);
    mmio.Write32(CMD_EXT, And(Shr(command, 64), Mask(32)));
    mmio.Elapse(gaps.g4);
    mmio.Write32(CMD_PUSH, 1);
    return Ok(And(tag, Mask(4)));
  }

  /** What the mover does in one turn of the polling loop: before FLAGS is read,
      before STS_LVL is read, and before STS_POP is read. */
  datatype Turn = Turn(g0: seq<MoverStep>, g1: seq<MoverStep>, g2: seq<MoverStep>)

  /** `poll_status`, with as many turns as the deadline allows. */
  function Poll(p: Port, token: nat, turns: seq<Turn>): (Port, Result<nat, Error>)
    decreases |turns|
  {
    if turns == [] then (p, Err(Timeout))
    else
      var p0 := MoveAll(p, turns[0].g0);
      var p1 := MoveAll(p0, turns[0].g1);
      if And(FlagBits(p0), FLAG_STS_EMPTY) == 0 || |p1.sts| > 0 then
        PopFor(MoveAll(p1, turns[0].g2), token)
      else
        Poll(p1, token, turns[1..])
  }

  /** Pop a status and compare its tag. */
  function PopFor(p: Port, token: nat): (Port, Result<nat, Error>) {
    var (q, w) := ReadReg(p, STS_POP);
    var status := And(w, 0xFF);
    if And(Shr(status, 4), Mask(4)) != And(token, Mask(4)) then (q, Err(TagMismatch)) else (q, Ok(status))
  }

  method PollStatus(mmio: Mmio, token: nat, turns: seq<Turn>) returns (r: Result<nat, Error>)
    modifies mmio
    ensures (mmio.port, r) == Poll(old(mmio.port), token, turns)
  {
    var i := 0;
    while i < |turns|
      invariant i <= |turns|
      invariant Poll(mmio.port, token, turns[i..]) == Poll(old(mmio.port), token, turns)
    {
      assert turns[i..][1..] == turns[i + 1..];
      mmio.Elapse(turns[i].g0);
      var flags := mmio.Read32(FLAGS);
      mmio.Elapse(turns[i].g1);
      var ready := And(flags, FLAG_STS_EMPTY) == 0;
      if !ready {
        var level := mmio.Read32(STS_LVL);
        ready := level > 0;
      }
      if ready {
        mmio.Elapse(turns[i].g2);
        var w := mmio.Read32(STS_POP);
        var status := And(w, 0xFF);
        if And(Shr(status, 4), Mask(4)) != And(token, Mask(4)) {
          return Err(TagMismatch);
        }
        return Ok(status);
      }
      i := i + 1;
    }
    return Err(Timeout);
  }

  // ----- what every step keeps

  /** The FIFOs hold the descriptors pushed and not yet completed, and the statuses
      posted and not yet popped, in order; the k-th status answers the k-th
      descriptor. */
  ghost predicate Inv(p: Port) {
    && |p.cmds| <= DEPTH && |p.sts| <= DEPTH
    && |p.sts| <= |p.posted| <= |p.pushed|
    && p.pushed[|p.posted|..] == p.inFlight + p.cmds
    && p.posted[|p.posted| - |p.sts|..] == p.sts
    && forall k :: 0 <= k < |p.posted| ==> p.posted[k] < 256 && p.posted[k] / 16 == TagOf(p.pushed[k])
  }

  function Popped(p: Port): int {
    |p.posted| - |p.sts|
  }

  lemma TagFits(d: nat)
    ensures TagOf(d) < 16
  {
    Rejoin(Shr(d, 68), 4);
    assert Pow2(4) == 16;
  }

  /** A mover step keeps the invariant, the pushed history, the statuses posted so
      far and the number popped; it frees command slots and adds statuses only. */
  ghost predicate Moved(p: Port, q: Port) {
    && Inv(q) && q.pushed == p.pushed && p.posted <= q.posted && Popped(q) == Popped(p) && |q.sts| >= |p.sts|
    && |q.cmds| <= |p.cmds| && (q.lo, q.hi, q.ext) == (p.lo, p.hi, p.ext)
  }

  lemma TakeKeeps(p: Port)
    requires Inv(p)
    ensures Moved(p, Move(p, Take))
  {
    var q := Move(p, Take);
    assert q.inFlight + q.cmds == p.inFlight + p.cmds;
  }

  lemma RestPushed(pushed: seq<nat>, n: nat, inFlight: seq<nat>, cmds: seq<nat>)
    requires n < |pushed| && pushed[n..] == inFlight + cmds && inFlight != []
    ensures pushed[n + 1..] == inFlight[1..] + cmds
  {
    assert pushed[n + 1..] == pushed[n..][1..];
  }

  lemma CompleteKeeps(p: Port, outcome: nat)
    requires Inv(p)
    ensures Moved(p, Move(p, Complete(outcome)))
  {
    var q := Move(p, Complete(outcome));
    if p.inFlight != [] && |p.sts| < DEPTH {
      var d := p.inFlight[0];
      TagFits(d);
      assert p.pushed[|p.posted|] == p.pushed[|p.posted|..][0] == d;
      RestPushed(p.pushed, |p.posted|, p.inFlight, p.cmds);
      assert q.posted[|q.posted| - |q.sts|..] == p.posted[|p.posted| - |p.sts|..] + [StatusWord(d, outcome)];
    }
  }

  lemma {:induction false} MoveAllKeeps(p: Port, steps: seq<MoverStep>)
    requires Inv(p)
    ensures Moved(p, MoveAll(p, steps))
    decreases |steps|
  {
    if steps != [] {
      match steps[0] {
        case Take => TakeKeeps(p);
        case Complete(outcome) => CompleteKeeps(p, outcome);
      }
      MoveAllKeeps(Move(p, steps[0]), steps[1..]);
    }
  }

  lemma FlagsRead(p: Port)
    requires Inv(p)
    ensures And(FlagBits(p), FLAG_CMD_FULL) != 0 <==> |p.cmds| == DEPTH
    ensures And(FlagBits(p), FLAG_STS_EMPTY) != 0 <==> p.sts == []
  {
    var f := FlagBits(p);
    NibbleBits(f);
    assert f / 2 % 2 == (if |p.cmds| >= DEPTH then 1 else 0);
    assert f / 4 % 2 == (if p.sts == [] then 1 else 0);
  }

  lemma Reassembled(command: nat, lo: nat, h: nat, hi: nat, e: nat)
    requires command == Shl(h, 32) + lo && h == Shl(e, 32) + hi
    ensures Shl(e, 64) + Shl(hi, 32) + lo == command
  {
    Above(e, 32, hi, 32);
  }

  lemma MaskTwice(x: nat)
    ensures And(And(x, Mask(32)), Mask(32)) == And(x, Mask(32))
  {
    Rejoin(x, 32);
    MaskFits(And(x, Mask(32)), 32);
  }

  lemma TopByte(command: nat, e: nat)
    requires command < Pow2(72) && e == Shr(command, 64)
    ensures And(e, Mask(32)) == e && And(e, Mask(8)) == e
  {
    ShrFits(command, 8, 64);
    Pow2Mono(8, 32);
    MaskFits(e, 32);
    MaskFits(e, 8);
  }

  /** Three register writes put a 72-bit word together again. */
  lemma StagedCommand(p: Port, command: nat)
    requires command < Pow2(72)
    requires p.lo == And(And(command, Mask(32)), Mask(32))
    requires p.hi == And(And(Shr(command, 32), Mask(32)), Mask(32))
    requires p.ext == And(And(Shr(command, 64), Mask(32)), Mask(32))
    ensures Staged(p) == command
  {
    var h, e := Shr(command, 32), Shr(command, 64);
    MaskTwice(command);
    MaskTwice(h);
    TopByte(command, e);
    assert command == Shl(h, 32) + p.lo by { Rejoin(command, 32); }
    assert h == Shl(e, 32) + p.hi by {
      Rejoin(h, 32);
      ShrShr(command, 32, 32);
    }
    Reassembled(command, p.lo, h, p.hi, e);
  }

  lemma PackedTag(addr: int, tag: int, length: int, eof: bool, command: nat)
    requires V.PackDataMover(addr, tag, length, eof) == Ok(command)
    ensures command < Pow2(72) && 0 <= tag < 16 && TagOf(command) == tag && And(tag, Mask(4)) == tag
  {
    InDescriptor(addr, tag, length, eof, command);
    TagRead(command, addr, tag, length, eof);
  }

  lemma InDescriptor(addr: int, tag: int, length: int, eof: bool, command: nat)
    requires V.PackDataMover(addr, tag, length, eof) == Ok(command)
    ensures addr >= 0 && 0 <= tag < Pow2(4) && length >= 0
    ensures command < Pow2(72) && Unpack(V.DESCRIPTOR, command) == V.DescriptorFields(addr, tag, length, eof)
  {
    V.DescriptorIsPacked(addr, tag, length, eof);
  }

  lemma TagRead(command: nat, addr: nat, tag: nat, length: nat, eof: bool)
    requires tag < Pow2(4) && Unpack(V.DESCRIPTOR, command) == V.DescriptorFields(addr, tag, length, eof)
    ensures tag < 16 && TagOf(command) == tag && And(tag, Mask(4)) == tag
  {
    V.TopField(command);
    MaskFits(tag, 4);
    assert Pow2(4) == 16;
  }

  lemma StageKeeps(p: Port, steps: seq<MoverStep>, reg: nat, v: nat)
    requires Inv(p) && reg != CMD_PUSH
    ensures var q := Stage(p, steps, reg, v);
      && Inv(q) && q.pushed == p.pushed && p.posted <= q.posted && Popped(q) == Popped(p) && |q.cmds| <= |p.cmds|
      && q.lo == (if reg == CMD_LO then And(v, Mask(32)) else p.lo)
      && q.hi == (if reg == CMD_HI then And(v, Mask(32)) else p.hi)
      && q.ext == (if reg == CMD_EXT then And(v, Mask(32)) else p.ext)
  {
    MoveAllKeeps(p, steps);
    WriteKeeps(MoveAll(p, steps), reg, v);
  }

  lemma WriteKeeps(p: Port, reg: nat, v: nat)
    requires Inv(p) && reg != CMD_PUSH
    ensures var q := WriteReg(p, reg, v);
      && Inv(q) && q.pushed == p.pushed && q.posted == p.posted && Popped(q) == Popped(p) && q.cmds == p.cmds
      && q.lo == (if reg == CMD_LO then And(v, Mask(32)) else p.lo)
      && q.hi == (if reg == CMD_HI then And(v, Mask(32)) else p.hi)
      && q.ext == (if reg == CMD_EXT then And(v, Mask(32)) else p.ext)
  {
  }

  lemma PushKeeps(p: Port)
    requires Inv(p) && |p.cmds| < DEPTH
    ensures var q := WriteReg(p, CMD_PUSH, 1);
      Inv(q) && q.pushed == p.pushed + [Staged(p)] && q.posted == p.posted && Popped(q) == Popped(p)
  {
    var q := WriteReg(p, CMD_PUSH, 1);
    assert q.pushed[|q.posted|..] == p.pushed[|p.posted|..] + [Staged(p)];
  }

  /** When an accepted command is pushed its three words are staged, whatever the
      mover did meanwhile. */
  lemma StagedWrites(p0: Port, command: nat, gaps: Gaps) returns (p: Port)
    requires Inv(p0) && command < Pow2(72)
    ensures Inv(p) && p.pushed == p0.pushed && p0.posted <= p.posted
    ensures Popped(p) == Popped(p0) && |p.cmds| <= |p0.cmds|
    ensures Staged(p) == command
    ensures p ==
      MoveAll(Stage(Stage(Stage(p0, gaps.g1, CMD_LO, And(command, Mask(32))),
                          gaps.g2, CMD_HI, And(Shr(command, 32), Mask(32))),
                    gaps.g3, CMD_EXT, And(Shr(command, 64), Mask(32))), gaps.g4)
  {
    var lo, hi, ext := And(command, Mask(32)), And(Shr(command, 32), Mask(32)), And(Shr(command, 64), Mask(32));
    StageKeeps(p0, gaps.g1, CMD_LO, lo);
    var p1 := Stage(p0, gaps.g1, CMD_LO, lo);
    StageKeeps(p1, gaps.g2, CMD_HI, hi);
    var p2 := Stage(p1, gaps.g2, CMD_HI, hi);
    StageKeeps(p2, gaps.g3, CMD_EXT, ext);
    var p3 := Stage(p2, gaps.g3, CMD_EXT, ext);
    MoveAllKeeps(p3, gaps.g4);
    p := MoveAll(p3, gaps.g4);
    StagedCommand(p, command);
  }

  /** An accepted command enters the FIFO as exactly its packed word, and its token
      is the word's tag; a rejected one writes no register and pushes nothing. */
  lemma IssueKeeps(p: Port, addr: int, tag: int, length: int, eof: bool, gaps: Gaps)
    requires Inv(p)
    ensures var (q, r) := Issue(p, addr, tag, length, eof, gaps);
      && Inv(q) && p.posted <= q.posted && Popped(q) == Popped(p)
      && (r.Ok? ==>
            && V.PackDataMover(addr, tag, length, eof).Ok?
            && q.pushed == p.pushed + [V.PackDataMover(addr, tag, length, eof).value]
            && r.value == TagOf(q.pushed[|p.pushed|]))
      && (r.Err? ==> q.pushed == p.pushed && (q.lo, q.hi, q.ext) == (p.lo, p.hi, p.ext))
      && r != Err(TagMismatch)
    ensures Issue(p, addr, tag, length, eof, gaps).1 == Err(FifoFull)
       <==> V.PackDataMover(addr, tag, length, eof).Ok? && |MoveAll(p, gaps.g0).cmds| == DEPTH
  {
    if V.PackDataMover(addr, tag, length, eof).Ok? {
      var command := V.PackDataMover(addr, tag, length, eof).value;
      PackedTag(addr, tag, length, eof, command);
      MoveAllKeeps(p, gaps.g0);
      var p0 := MoveAll(p, gaps.g0);
      FlagsRead(p0);
      if |p0.cmds| < DEPTH {
        var p4 := StagedWrites(p0, command, gaps);
        PushKeeps(p4);
      }
    }
  }

  lemma PopStatus(p: Port, token: nat)
    requires Inv(p) && p.sts != []
    ensures var (q, w) := ReadReg(p, STS_POP);
      && Inv(q) && q.pushed == p.pushed && q.posted == p.posted && Popped(q) == Popped(p) + 1 <= |p.pushed|
      && And(w, 0xFF) == w == p.posted[Popped(p)]
      && (And(Shr(w, 4), Mask(4)) == And(token, Mask(4)) <==> TagOf(p.pushed[Popped(p)]) == And(token, Mask(4)))
  {
    var (q, w) := ReadReg(p, STS_POP);
    assert w == p.posted[|p.posted| - |p.sts|..][0] == p.posted[Popped(p)];
    assert q.posted[|q.posted| - |q.sts|..] == p.posted[|p.posted| - |p.sts|..][1..];
    assert Pow2(8) == 0x100 && Pow2(4) == 16;
    MaskFits(w, 8);
    AndMask(w, 4);
    TagFits(p.pushed[Popped(p)]);
    MaskFits(TagOf(p.pushed[Popped(p)]), 4);
  }

  lemma PopForKeeps(p: Port, token: nat)
    requires Inv(p) && p.sts != []
    ensures var (q, r) := PopFor(p, token);
      && Inv(q) && q.pushed == p.pushed && q.posted == p.posted && Popped(q) == Popped(p) + 1 <= |p.pushed|
      && (r == Err(TagMismatch) <==> TagOf(p.pushed[Popped(p)]) != And(token, Mask(4)))
      && (r.Err? ==> r == Err(TagMismatch))
      && (r.Ok? ==> r.value == p.posted[Popped(p)])
  {
    PopStatus(p, token);
  }

  /** A poll that sees a status pops the oldest one not yet popped, and fails
      exactly when its token is not the tag of the command issued at that place. */
  lemma {:induction false} PollKeeps(p: Port, token: nat, turns: seq<Turn>)
    requires Inv(p)
    ensures var (q, r) := Poll(p, token, turns);
      && Inv(q) && q.pushed == p.pushed && p.posted <= q.posted
      && (r.Ok? || r == Err(Timeout) || r == Err(TagMismatch))
      && (r == Err(Timeout) ==> Popped(q) == Popped(p))
      && (r != Err(Timeout) ==>
            && Popped(q) == Popped(p) + 1 <= |p.pushed|
            && (r == Err(TagMismatch) <==> TagOf(p.pushed[Popped(p)]) != And(token, Mask(4)))
            && (r.Ok? ==> Popped(p) < |q.posted| && r.value == q.posted[Popped(p)]))
    decreases |turns|
  {
    if turns != [] {
      MoveAllKeeps(p, turns[0].g0);
      var p0 := MoveAll(p, turns[0].g0);
      FlagsRead(p0);
      MoveAllKeeps(p0, turns[0].g1);
      var p1 := MoveAll(p0, turns[0].g1);
      if And(FlagBits(p0), FLAG_STS_EMPTY) == 0 || |p1.sts| > 0 {
        MoveAllKeeps(p1, turns[0].g2);
        PopForKeeps(MoveAll(p1, turns[0].g2), token);
      } else {
        PollKeeps(p1, token, turns[1..]);
      }
    }
  }

  // ----- every run of a host that polls in issue order

  datatype HostOp =
    | IssueOp(addr: int, tag: int, length: int, eof: bool, gaps: Gaps)
    | PollOp(turns: seq<Turn>)

  /** The port, the tokens not yet polled for, the packed words of the accepted
      commands, and the statuses received. */
  datatype Host = Host(port: Port, tokens: seq<nat>, issued: seq<nat>, received: seq<nat>, mismatch: bool)

  const START: Host := Host(RESET, [], [], [], false)

  function AfterIssue(h: Host, q: Port, r: Result<nat, Error>, packed: Result<nat, string>): Host {
    if r.Err? || packed.Err? then h.(port := q)
    else h.(port := q, tokens := h.tokens + [r.value], issued := h.issued + [packed.value])
  }

  function AfterPoll(h: Host, q: Port, r: Result<nat, Error>): Host {
    if r == Err(Timeout) then h.(port := q)
    else h.(port := q, tokens := if h.tokens == [] then [] else h.tokens[1..],
            received := if r.Ok? then h.received + [r.value] else h.received,
            mismatch := h.mismatch || r.Err?)
  }

  /** The token a poll uses: the oldest outstanding one (any if there is none). */
  function Oldest(h: Host): nat {
    if h.tokens == [] then 0 else h.tokens[0]
  }

  function StepHost(h: Host, op: HostOp): Host {
    match op
    case IssueOp(addr, tag, length, eof, gaps) =>
      var (q, r) := Issue(h.port, addr, tag, length, eof, gaps);
      AfterIssue(h, q, r, V.PackDataMover(addr, tag, length, eof))
    case PollOp(turns) =>
      var (q, r) := Poll(h.port, Oldest(h), turns);
      AfterPoll(h, q, r)
  }

  function Run(ops: seq<HostOp>): Host {
    if ops == [] then START else StepHost(Run(ops[..|ops| - 1]), ops[|ops| - 1])
  }

  ghost predicate HostInv(h: Host) {
    && Inv(h.port) && !h.mismatch && h.issued == h.port.pushed
    && |h.tokens| == |h.port.pushed| - Popped(h.port)
    && (forall k :: 0 <= k < |h.tokens| ==> h.tokens[k] == TagOf(h.port.pushed[Popped(h.port) + k]))
    && h.received == h.port.posted[..Popped(h.port)]
  }

  lemma AfterStatusKeeps(h: Host, q: Port, status: nat, n: nat)
    requires HostInv(h) && Inv(q) && q.pushed == h.port.pushed && h.port.posted <= q.posted
    requires n == Popped(h.port) && Popped(q) == n + 1 <= |q.pushed| && n < |q.posted| && status == q.posted[n]
    ensures HostInv(AfterPoll(h, q, Ok(status)))
  {
    RestMatches(h.tokens, q.pushed, n);
    ReceivedMore(h.port.posted, q.posted, n, n + 1, h.received, h.received + [status]);
    HostStands(q, h.tokens[1..], h.issued, h.received + [status], n + 1);
  }

  lemma ReceivedMore(posted: seq<nat>, more: seq<nat>, n: nat, next: nat, received: seq<nat>, all: seq<nat>)
    requires n <= |posted| && posted <= more && next == n + 1 <= |more|
    requires received == posted[..n] && all == received + [more[n]]
    ensures all == more[..next]
  {
    assert more[..n] == posted[..n];
  }

  lemma HostStands(q: Port, tokens: seq<nat>, issued: seq<nat>, received: seq<nat>, n: nat)
    requires Inv(q) && n == Popped(q) && issued == q.pushed && |tokens| == |q.pushed| - n && received == q.posted[..n]
    requires forall k :: 0 <= k < |tokens| ==> tokens[k] == TagOf(q.pushed[n + k])
    ensures HostInv(Host(q, tokens, issued, received, false))
  {
  }

  /** Dropping the oldest token leaves the tags of the commands after it. */
  lemma RestMatches(tokens: seq<nat>, pushed: seq<nat>, n: nat)
    requires |tokens| == |pushed| - n > 0 && forall k :: 0 <= k < |tokens| ==> tokens[k] == TagOf(pushed[n + k])
    ensures forall k :: 0 <= k < |tokens[1..]| ==> tokens[1..][k] == TagOf(pushed[n + 1 + k])
  {
    forall k | 0 <= k < |tokens[1..]| ensures tokens[1..][k] == TagOf(pushed[n + 1 + k]) {
      var j := k + 1;
      assert tokens[j] == TagOf(pushed[n + j]);
    }
  }

  lemma AfterTimeoutKeeps(h: Host, q: Port)
    requires HostInv(h) && Inv(q) && q.pushed == h.port.pushed && h.port.posted <= q.posted
    requires Popped(q) == Popped(h.port)
    ensures HostInv(AfterPoll(h, q, Err(Timeout)))
  {
  }

  lemma PollStepKeeps(h: Host, turns: seq<Turn>)
    requires HostInv(h)
    ensures HostInv(StepHost(h, PollOp(turns)))
  {
    var token := Oldest(h);
    PollKeeps(h.port, token, turns);
    var (q, r) := Poll(h.port, token, turns);
    assert r != Err(TagMismatch) by {
      if h.tokens != [] { OldestMatches(h); }
    }
    if r.Ok? { AfterStatusKeeps(h, q, r.value, Popped(h.port)); } else { AfterTimeoutKeeps(h, q); }
  }

  /** The oldest token is the tag of the oldest command without a received status. */
  lemma OldestMatches(h: Host)
    requires HostInv(h) && h.tokens != []
    ensures Popped(h.port) < |h.port.pushed| && TagOf(h.port.pushed[Popped(h.port)]) == And(Oldest(h), Mask(4))
  {
    var d := h.port.pushed[Popped(h.port) + 0];
    assert Oldest(h) == TagOf(d);
    TagFits(d);
    assert Pow2(4) == 16;
    MaskFits(Oldest(h), 4);
  }

  lemma AfterAcceptedKeeps(h: Host, q: Port, token: nat, command: nat)
    requires HostInv(h) && Inv(q) && h.port.posted <= q.posted && Popped(q) == Popped(h.port)
    requires q.pushed == h.port.pushed + [command] && token == TagOf(command)
    ensures HostInv(AfterIssue(h, q, Ok(token), Ok(command)))
  {
    MoreMatches(h.tokens, h.port.pushed, Popped(q), token, command);
  }

  lemma MoreMatches(tokens: seq<nat>, pushed: seq<nat>, n: nat, token: nat, command: nat)
    requires |tokens| == |pushed| - n && forall k :: 0 <= k < |tokens| ==> tokens[k] == TagOf(pushed[n + k])
    requires token == TagOf(command)
    ensures forall k :: 0 <= k < |tokens + [token]| ==> (tokens + [token])[k] == TagOf((pushed + [command])[n + k])
  {
  }

  lemma AfterRejectedKeeps(h: Host, q: Port, e: Error, packed: Result<nat, string>)
    requires HostInv(h) && Inv(q) && h.port.posted <= q.posted && Popped(q) == Popped(h.port)
    requires q.pushed == h.port.pushed
    ensures HostInv(AfterIssue(h, q, Err(e), packed))
  {
  }

  lemma IssueStepKeeps(h: Host, addr: int, tag: int, length: int, eof: bool, gaps: Gaps)
    requires HostInv(h)
    ensures HostInv(StepHost(h, IssueOp(addr, tag, length, eof, gaps)))
  {
    IssueKeeps(h.port, addr, tag, length, eof, gaps);
    var (q, r) := Issue(h.port, addr, tag, length, eof, gaps);
    var packed := V.PackDataMover(addr, tag, length, eof);
    if r.Ok? {
      AfterAcceptedKeeps(h, q, r.value, packed.value);
    } else {
      AfterRejectedKeeps(h, q, r.error, packed);
    }
  }

  lemma StepKeeps(h: Host, op: HostOp)
    requires HostInv(h)
    ensures HostInv(StepHost(h, op))
  {
    match op
    case IssueOp(addr, tag, length, eof, gaps) =>
      IssueStepKeeps(h, addr, tag, length, eof, gaps);
    case PollOp(turns) =>
      PollStepKeeps(h, turns);
  }

  lemma {:induction false} RunKeeps(ops: seq<HostOp>)
    ensures HostInv(Run(ops))
  {
    if ops != [] {
      RunKeeps(ops[..|ops| - 1]);
      StepKeeps(Run(ops[..|ops| - 1]), ops[|ops| - 1]);
    }
  }

  /** Over every run of issues and in-order polls, with the mover stepping in
      between at will: the commands not yet completed are exactly the packed words
      of the accepted commands from the first uncompleted one on, in issue order;
      neither FIFO exceeds its depth; no poll sees a tag mismatch; and the statuses
      received are those the mover posted, from the first on and in that order, the
      k-th of them answering the k-th accepted command. */
  lemma EveryRun(ops: seq<HostOp>)
    ensures var h := Run(ops);
      && |h.port.posted| <= |h.issued|
      && h.port.inFlight + h.port.cmds == h.issued[|h.port.posted|..]
      && |h.port.cmds| <= DEPTH && |h.port.sts| <= DEPTH
      && !h.mismatch
      && |h.received| <= |h.port.posted| && h.received == h.port.posted[..|h.received|]
      && forall k :: 0 <= k < |h.received| ==> h.received[k] / 16 == TagOf(h.issued[k])
  {
    RunKeeps(ops);
  }
}
