/** NPU generation over the synchronous simulator: `TokenSimMmio`
    (`sw/runtime/npu/sim_mmio.py`), the runtime that drives it, and
    `_generate_with_npu` (`sw/runtime/gemma/inference.py`).

    Generations are drained one after another.  The simulator completes a command
    as soon as it is kicked, so a deadline that leaves room for one status read is
    enough; a deadline of no reads times out. */
module TokenSession {
  import opened Prelude
  import opened Bits
  import opened HostIsa
  import opened TokenRuntime

  // ----- the simulator

  const AXIL_CMD_IN: nat := 0x000
  const AXIL_STAT_OUT: nat := 0x004
  const AXIL_CMD_KICK: nat := 0x008

  type Token = t: nat | t < 0x1_0000_0000

  datatype Device = Device(tokens: seq<Token>, commands: seq<nat>, executed: nat, status: nat)

  lemma TokenFits(t: Token)
    ensures t < Pow2(32)
  {
    Pow2Values();
  }

  /** The status word of a completed command. */
  function Completed(error: bool, token: Option<Token>): (s: nat)
    ensures EncodeStatus(false, true, error, token) == Ok(s)
  {
    if token.Some? then
      TokenFits(token.value);
      CheckIs(token.value, 32, "token");
      EncodeStatus(false, true, error, token).value
    else
      EncodeStatus(false, true, error, None).value
  }

  /** The next token: 1 once the list is used up. */
  function First(ts: seq<Token>): Token {
    if ts == [] then 1 else ts[0]
  }

  function Rest(ts: seq<Token>): seq<Token> {
    if ts == [] then [] else ts[1..]
  }

  /** `_execute` by opcode. */
  function Execute(d: Device, opcode: nat): Device {
    if opcode == NEXT_TOKEN then
      d.(executed := d.executed + 1, tokens := Rest(d.tokens), status := Completed(false, Some(First(d.tokens))))
    else
      d.(executed := d.executed + 1,
         status := Completed(opcode !in {RESET_KV_CACHE, LOAD_WEIGHT, LOAD_PROMPT}, None))
  }

  function OpcodeOf(word: nat): nat {
    And(Shr(word, 56), 0xFF)
  }

  /** `write64` */
  function SimWrite(d: Device, offset: nat, value: nat): Device {
    if offset == AXIL_CMD_IN then d.(commands := d.commands + [And(value, Mask(64))])
    else if offset == AXIL_CMD_KICK then
      if d.commands == [] then d.(status := Completed(true, None))
      else Execute(d, OpcodeOf(d.commands[|d.commands| - 1]))
    else d
  }

  /** `read64` */
  function SimRead(d: Device, offset: nat): nat {
    if offset == AXIL_STAT_OUT then d.status else 0
  }

  function SimSubmit(d: Device, word: nat): Device {
    SimWrite(SimWrite(d, AXIL_CMD_IN, word), AXIL_CMD_KICK, 1)
  }

  const SIM: Hardware<Device> := Hardware(SimSubmit, d => (d, SimRead(d, AXIL_STAT_OUT)))

  /** `tokens or [1]`, each cut to 32 bits. */
  function InitialTokens(tokens: seq<int>): (ts: seq<Token>)
    ensures ts != []
  {
    if tokens == [] then [1]
    else seq(|tokens|, i requires 0 <= i < |tokens| => tokens[i] % 0x1_0000_0000)
  }

  function NewDevice(tokens: seq<int>): Device {
    Device(InitialTokens(tokens), [], 0, Completed(false, None))
  }

  class TokenSimMmio {
    var tokens: seq<Token>
    var commands: seq<nat>
    var commandCount: nat
    var statusWord: nat

    ghost function Abs(): Device
      reads this
    {
      Device(tokens, commands, commandCount, statusWord)
    }

    constructor (tokens: seq<int>)
      ensures Abs() == NewDevice(tokens)
    {
      this.tokens := InitialTokens(tokens);
      commands, commandCount, statusWord := [], 0, Completed(false, None);
    }

    method Write64(offset: nat, value: nat)
      modifies this
      ensures Abs() == SimWrite(old(Abs()), offset, value)
    {
      if offset == AXIL_CMD_IN {
        commands := commands + [And(value, Mask(64))];
        return;
      }
      if offset == AXIL_CMD_KICK {
        if commands == [] {
          statusWord := Completed(true, None);
          return;
        }
        ExecuteLast();
      }
    }

    method ExecuteLast()
      requires commands != []
      modifies this
      ensures Abs() == Execute(old(Abs()), OpcodeOf(old(commands[|commands| - 1])))
    {
      var opcode := OpcodeOf(commands[|commands| - 1]);
      commandCount := commandCount + 1;
      if opcode == NEXT_TOKEN {
        var token := First(tokens);
        tokens := Rest(tokens);
        statusWord := Completed(false, Some(token));
        return;
      }
      if opcode in {RESET_KV_CACHE, LOAD_WEIGHT, LOAD_PROMPT} {
        statusWord := Completed(false, None);
        return;
      }
      statusWord := Completed(true, None);
    }

    method Read64(offset: nat) returns (value: nat)
      ensures value == SimRead(Abs(), offset)
    {
      if offset != AXIL_STAT_OUT {
        return 0;
      }
      return statusWord;
    }
  }

  // ----- a generation

  const STOP_TOKENS: set<nat> := {1, 106}

  datatype Request = Request(prompt: seq<int>, maxNew: int, temperature: real, topP: real)

  /** How a drained generation ended. */
  datatype Outcome = Exhausted | Stopped(token: nat) | Raised(failure: Failure)

  datatype Generation = Generation(emitted: seq<nat>, outcome: Outcome)

  /** The runtime with its device, and the session's own fields. */
  datatype Session = Session(host: Host<Device>, npuWeightsLoaded: bool, tokensTotal: nat)

  function NewSession(tokens: seq<int>): Session {
    Session(Host(NewDevice(tokens), 0, 0, false, []), false, 0)
  }

  /** `_ensure_npu_prompt_loaded` */
  function Prepare(patience: nat -> nat, manifestId: nat, s: Session, prompt: seq<int>): (Session, Option<Failure>) {
    var (h, f) := if s.npuWeightsLoaded then (s.host, None) else LoadWeights(SIM, patience, s.host, manifestId);
    if f.Some? then (s.(host := h), f)
    else
      var (h', f') := InitActivation(SIM, patience, h, prompt);
      (s.(host := h', npuWeightsLoaded := true), f')
  }

  type Stepper = Host<Device> -> (Host<Device>, Result<nat, Failure>)

  /** One automatic, greedy token step at these settings. */
  function Greedy(patience: nat -> nat, temperature: real, topP: real): Stepper {
    h => TokenStep(SIM, patience, h, None, Argmax, temperature, topP)
  }

  /** The token loop of `_generate_with_npu`, with n tokens still allowed. */
  function Draw(step: Stepper, s: Session, n: nat): (Session, Generation)
    decreases n
  {
    if n == 0 then (s, Generation([], Exhausted))
    else
      var (h, r) := step(s.host);
      var s' := s.(host := h);
      if r.Err? then (s', Generation([], Raised(r.error)))
      else if r.value in STOP_TOKENS then (s', Generation([], Stopped(r.value)))
      else
        var (t, g) := Draw(step, s'.(tokensTotal := s'.tokensTotal + 1), n - 1);
        (t, Generation([r.value] + g.emitted, g.outcome))
  }

  /** A generation whose first tokens were already yielded. */
  function Resumed(before: seq<nat>, drawn: (Session, Generation)): (Session, Generation) {
    (drawn.0, Generation(before + drawn.1.emitted, drawn.1.outcome))
  }

  /** One token step of a session. */
  function Stepped(step: Stepper, s: Session): (Session, Result<nat, Failure>) {
    var (h, r) := step(s.host);
    (s.(host := h), r)
  }

  function OneYielded(s: Session): Session {
    s.(tokensTotal := s.tokensTotal + 1)
  }

  lemma DrawOne(
      step: Stepper, s: Session, n: nat, left: nat, before: seq<nat>, t: Session, r: Result<nat, Failure>)
    requires n == left + 1 && (t, r) == Stepped(step, s)
    ensures Resumed(before, Draw(step, s, n))
         == if r.Err? then (t, Generation(before, Raised(r.error)))
            else if r.value in STOP_TOKENS then (t, Generation(before, Stopped(r.value)))
            else Resumed(before + [r.value], Draw(step, OneYielded(t), left))
  {
    assert before + [] == before;
    if r.Ok? && r.value !in STOP_TOKENS {
      var rest := Draw(step, OneYielded(t), left).1.emitted;
      assert before + ([r.value] + rest) == before + [r.value] + rest;
    }
  }

  /** `generate` on the NPU path: an empty prompt becomes the token 0. */
  function Prompt(r: Request): seq<int> {
    if r.prompt == [] then [0] else r.prompt
  }

  function Limit(r: Request): nat {
    if r.maxNew < 0 then 0 else r.maxNew
  }

  function Generate(patience: nat -> nat, manifestId: nat, s: Session, r: Request): (Session, Generation) {
    var (s', f) := Prepare(patience, manifestId, s, Prompt(r));
    if f.Some? then (s', Generation([], Raised(f.value)))
    else Draw(Greedy(patience, r.temperature, r.topP), s', Limit(r))
  }

  // ----- the classes that do this

  class NpuTokenRuntime {
    const mmio: TokenSimMmio
    const patience: nat -> nat
    var commandCount: nat
    var lastStatusWord: nat
    var weightsLoaded: bool
    ghost var log: seq<Sent>

    ghost function Abs(): Host<Device>
      reads this, mmio
    {
      Host(mmio.Abs(), commandCount, lastStatusWord, weightsLoaded, log)
    }

    constructor (mmio: TokenSimMmio, patience: nat -> nat)
      ensures this.mmio == mmio && this.patience == patience
      ensures Abs() == Host(mmio.Abs(), 0, 0, false, [])
    {
      this.mmio, this.patience := mmio, patience;
      commandCount, lastStatusWord, weightsLoaded, log := 0, 0, false, [];
    }

    /** The poll loop of `_submit_command`. */
    method PollStatus(deadline: nat) returns (r: Result<nat, Failure>)
      modifies this`lastStatusWord
      ensures (mmio.Abs(), lastStatusWord, r) == Poll(SIM, mmio.Abs(), deadline, old(lastStatusWord))
    {
      ghost var dev := mmio.Abs();
      ghost var polled := Poll(SIM, dev, deadline, lastStatusWord);
      var turns := deadline;
      while turns > 0
        invariant Poll(SIM, dev, turns, lastStatusWord) == polled
      {
        var raw := mmio.Read64(AXIL_STAT_OUT);
        assert SIM.read(dev) == (dev, raw);
        var status := And(raw, Mask(64));
        lastStatusWord := status;
        if StatusBit(status, ERROR) {
          return Err(CommandFailed(status));
        }
        if StatusBit(status, DONE) {
          return Ok(status);
        }
        turns := turns - 1;
      }
      return Err(Timeout);
    }

    /** The two writes of `_submit_command`, and the count. */
    method Kick(word: nat, ghost automatic: bool)
      modifies this, mmio
      ensures mmio.Abs() == SIM.submit(old(mmio.Abs()), word)
      ensures commandCount == old(commandCount) + 1 && log == old(log) + [Sent(word, automatic)]
      ensures lastStatusWord == old(lastStatusWord) && weightsLoaded == old(weightsLoaded)
    {
      mmio.Write64(AXIL_CMD_IN, word);
      mmio.Write64(AXIL_CMD_KICK, 1);
      commandCount, log := commandCount + 1, log + [Sent(word, automatic)];
    }

    method SubmitCommand(word: nat, ghost automatic: bool) returns (r: Result<nat, Failure>)
      modifies this, mmio
      ensures (Abs(), r) == Submit(SIM, patience, old(Abs()), Sent(word, automatic))
    {
      ghost var h := Abs();
      var deadline := patience(commandCount);
      Kick(word, automatic);
      r := PollStatus(deadline);
      Submitted(SIM, patience, h, Sent(word, automatic), mmio.Abs(), lastStatusWord, r);
    }

    method LoadWeightsToL2(manifestId: nat) returns (f: Option<Failure>)
      modifies this, mmio
      ensures (Abs(), f) == LoadWeights(SIM, patience, old(Abs()), manifestId)
    {
      var word := Raise(Encode(LoadWeight(0, 0, 0, manifestId)));
      if word.Err? {
        return Some(word.error);
      }
      var r := SubmitCommand(word.value, false);
      if r.Err? {
        return Some(r.error);
      }
      weightsLoaded := true;
      return None;
    }

    method ResetKvCache(sessionId: int) returns (f: Option<Failure>)
      modifies this, mmio
      ensures (Abs(), f) == ResetKv(SIM, patience, old(Abs()), sessionId)
    {
      var word := Raise(Encode(Reset(sessionId)));
      if word.Err? {
        return Some(word.error);
      }
      var r := SubmitCommand(word.value, false);
      return if r.Err? then Some(r.error) else None;
    }

    method LoadPromptTokens(prompt: seq<int>) returns (f: Option<Failure>)
      modifies this, mmio
      ensures (Abs(), f) == LoadPromptFrom(SIM, patience, old(Abs()), prompt, 0)
    {
      for position := 0 to |prompt|
        invariant LoadPromptFrom(SIM, patience, Abs(), prompt, position)
               == LoadPromptFrom(SIM, patience, old(Abs()), prompt, 0)
      {
        var word := Raise(Encode(LoadPrompt(position, prompt[position])));
        if word.Err? {
          return Some(word.error);
        }
        var r := SubmitCommand(word.value, false);
        if r.Err? {
          return Some(r.error);
        }
      }
      return None;
    }

    method InitActivation(prompt: seq<int>) returns (f: Option<Failure>)
      modifies this, mmio
      ensures (Abs(), f) == TokenRuntime.InitActivation(SIM, patience, old(Abs()), prompt)
    {
      f := ResetKvCache(0);
      if f.Some? {
        return;
      }
      f := LoadPromptTokens(prompt);
    }

    method RunOneTokenStep(requestId: Option<int>, sampling: Sampling, temperature: real, topP: real)
      returns (r: Result<nat, Failure>)
      modifies this, mmio
      ensures (Abs(), r) == TokenStep(SIM, patience, old(Abs()), requestId, sampling, temperature, topP)
    {
      var word := Raise(NextTokenWord(commandCount, requestId, sampling, temperature, topP));
      if word.Err? {
        return Err(word.error);
      }
      var status := SubmitCommand(word.value, requestId.None?);
      return TokenIn(status);
    }
  }

  class InferenceSession {
    const runtime: NpuTokenRuntime
    const manifestId: nat
    var npuWeightsLoaded: bool
    var tokensTotal: nat

    ghost function Abs(): Session
      reads this, runtime, runtime.mmio
    {
      Session(runtime.Abs(), npuWeightsLoaded, tokensTotal)
    }

    constructor (runtime: NpuTokenRuntime, manifestId: nat)
      ensures this.runtime == runtime && this.manifestId == manifestId
      ensures Abs() == Session(runtime.Abs(), false, 0)
    {
      this.runtime, this.manifestId := runtime, manifestId;
      npuWeightsLoaded, tokensTotal := false, 0;
    }

    method EnsureNpuPromptLoaded(prompt: seq<int>) returns (f: Option<Failure>)
      modifies this, runtime, runtime.mmio
      ensures (Abs(), f) == Prepare(runtime.patience, manifestId, old(Abs()), prompt)
    {
      if !npuWeightsLoaded {
        f := runtime.LoadWeightsToL2(manifestId);
        if f.Some? {
          return;
        }
        npuWeightsLoaded := true;
      }
      f := runtime.InitActivation(prompt);
    }

    method NextToken(temperature: real, topP: real) returns (next: Result<nat, Failure>)
      modifies this, runtime, runtime.mmio
      ensures (Abs(), next) == Stepped(Greedy(runtime.patience, temperature, topP), old(Abs()))
    {
      next := runtime.RunOneTokenStep(None, Argmax, temperature, topP);
    }

    method CountToken()
      modifies this
      ensures Abs() == OneYielded(old(Abs()))
    {
      tokensTotal := tokensTotal + 1;
    }

    /** The token loop of `_generate_with_npu`. */
    method DrawTokens(n: nat, temperature: real, topP: real) returns (emitted: seq<nat>, outcome: Outcome)
      modifies this, runtime, runtime.mmio
      ensures (Abs(), Generation(emitted, outcome)) == Draw(Greedy(runtime.patience, temperature, topP), old(Abs()), n)
    {
      emitted := [];
      ghost var step := Greedy(runtime.patience, temperature, topP);
      ghost var whole := Draw(step, Abs(), n);
      assert [] + whole.1.emitted == whole.1.emitted;
      var left := n;
      while left > 0
        invariant whole == Resumed(emitted, Draw(step, Abs(), left))
      {
        var rest := left - 1;
        ghost var s := Abs();
        var next := NextToken(temperature, topP);
        DrawOne(step, s, left, rest, emitted, Abs(), next);
        if next.Err? {
          return emitted, Raised(next.error);
        }
        if next.value in STOP_TOKENS {
          return emitted, Stopped(next.value);
        }
        CountToken();
        emitted := emitted + [next.value];
        left := rest;
      }
      assert emitted + [] == emitted;
      outcome := Exhausted;
    }

    /** `generate` on the NPU path, drained: the tokens it yields and how it ends. */
    method GenerateWithNpu(r: Request) returns (emitted: seq<nat>, outcome: Outcome)
      modifies this, runtime, runtime.mmio
      ensures (Abs(), Generation(emitted, outcome)) == Generate(runtime.patience, manifestId, old(Abs()), r)
    {
      var f := EnsureNpuPromptLoaded(Prompt(r));
      if f.Some? {
        return [], Raised(f.value);
      }
      emitted, outcome := DrawTokens(Limit(r), r.temperature, r.topP);
    }
  }
}
