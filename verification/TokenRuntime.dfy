/** The host side of the token-step path, `NpuTokenRuntime` in
    `sw/runtime/npu/npu_core.py`, over any device behind the register window.

    The poll deadline is a number of status reads, which may differ from command to
    command and may be zero. */
module TokenRuntime {
  import opened Prelude
  import opened Bits
  import opened HostIsa
  import opened Reals

  /** The exceptions a runtime call can raise. */
  datatype Failure = ValueError(field: string) | CommandFailed(status: nat) | Timeout | NoToken

  /** What a command submission and a status read do to a device. */
  datatype Hardware<!D> = Hardware(submit: (D, nat) -> D, read: D -> (D, nat))

  /** One command as it was sent; `automatic` marks a NEXT_TOKEN whose request id was
      not given by the caller. */
  datatype Sent = Sent(word: nat, automatic: bool)

  /** The runtime's fields, the device, and the history of commands sent. */
  datatype Host<D> = Host(dev: D, commandCount: nat, lastStatus: nat, weightsLoaded: bool, log: seq<Sent>)

  datatype Sampling = Argmax | Random

  function Raise<T>(r: Result<T, string>): Result<T, Failure> {
    match r
    case Ok(v) => Ok(v)
    case Err(field) => Err(ValueError(field))
  }

  /** The poll loop: the first word with ERROR fails, the first with DONE returns. */
  function Poll<D>(hw: Hardware<D>, dev: D, turns: nat, last: nat): (D, nat, Result<nat, Failure>)
    decreases turns
  {
    if turns == 0 then (dev, last, Err(Timeout))
    else
      var (dev', raw) := hw.read(dev);
      var status := And(raw, Mask(64));
      if StatusBit(status, ERROR) then (dev', status, Err(CommandFailed(status)))
      else if StatusBit(status, DONE) then (dev', status, Ok(status))
      else Poll(hw, dev', turns - 1, status)
  }

  /** `_submit_command`; `patience` gives each command's deadline. */
  function Submit<D>(hw: Hardware<D>, patience: nat -> nat, h: Host<D>, sent: Sent): (Host<D>, Result<nat, Failure>) {
    var (dev, last, r) := Poll(hw, hw.submit(h.dev, sent.word), patience(h.commandCount), h.lastStatus);
    (h.(dev := dev, commandCount := h.commandCount + 1, lastStatus := last, log := h.log + [sent]), r)
  }

  lemma Submitted<D>(
      hw: Hardware<D>, patience: nat -> nat, h: Host<D>, sent: Sent, dev: D, last: nat, r: Result<nat, Failure>)
    requires (dev, last, r) == Poll(hw, hw.submit(h.dev, sent.word), patience(h.commandCount), h.lastStatus)
    ensures Submit(hw, patience, h, sent)
         == (Host(dev, h.commandCount + 1, last, h.weightsLoaded, h.log + [sent]), r)
  {
  }

  /** `load_weights_to_l2` for a weights object without a descriptor list. */
  function LoadWeights<D>(hw: Hardware<D>, patience: nat -> nat, h: Host<D>, manifestId: int)
    : (Host<D>, Option<Failure>)
  {
    match Raise(Encode(LoadWeight(0, 0, 0, manifestId)))
    case Err(f) => (h, Some(f))
    case Ok(word) =>
      var (h', r) := Submit(hw, patience, h, Sent(word, false));
      if r.Err? then (h', Some(r.error)) else (h'.(weightsLoaded := true), None)
  }

  /** `reset_kv_cache` */
  function ResetKv<D>(hw: Hardware<D>, patience: nat -> nat, h: Host<D>, sessionId: int): (Host<D>, Option<Failure>) {
    match Raise(Encode(Reset(sessionId)))
    case Err(f) => (h, Some(f))
    case Ok(word) =>
      var (h', r) := Submit(hw, patience, h, Sent(word, false));
      (h', if r.Err? then Some(r.error) else None)
  }

  /** `load_prompt_tokens` from a position on. */
  function LoadPromptFrom<D>(hw: Hardware<D>, patience: nat -> nat, h: Host<D>, prompt: seq<int>, position: nat)
    : (Host<D>, Option<Failure>)
    requires position <= |prompt|
    decreases |prompt| - position
  {
    if position == |prompt| then (h, None)
    else
      match Raise(Encode(LoadPrompt(position, prompt[position])))
      case Err(f) => (h, Some(f))
      case Ok(word) =>
        var (h', r) := Submit(hw, patience, h, Sent(word, false));
        if r.Err? then (h', Some(r.error)) else LoadPromptFrom(hw, patience, h', prompt, position + 1)
  }

  /** `init_activation`: RESET and the prompt. */
  function InitActivation<D>(hw: Hardware<D>, patience: nat -> nat, h: Host<D>, prompt: seq<int>)
    : (Host<D>, Option<Failure>)
  {
    var (h', f) := ResetKv(hw, patience, h, 0);
    if f.Some? then (h', f) else LoadPromptFrom(hw, patience, h', prompt, 0)
  }

  /** `q8_8` */
  function Q8_8(x: real): Result<nat, string> {
    Check(Round(x * 256.0), 16, "q8_8")
  }

  /** `command_count & 0xFFFF` unless the caller names the request. */
  function RequestId(commandCount: nat, requestId: Option<int>): int {
    if requestId.Some? then requestId.value else And(commandCount, 0xFFFF)
  }

  function NextTokenWord(
      commandCount: nat, requestId: Option<int>, sampling: Sampling, temperature: real, topP: real)
    : Result<nat, string>
  {
    var t :- Q8_8(temperature);
    var p :- Q8_8(topP);
    Encode(NextToken(RequestId(commandCount, requestId), if sampling.Random? then RANDOM else ARGMAX, t, p))
  }

  /** `run_one_token_step` */
  function TokenStep<D>(
      hw: Hardware<D>, patience: nat -> nat, h: Host<D>,
      requestId: Option<int>, sampling: Sampling, temperature: real, topP: real)
    : (Host<D>, Result<nat, Failure>)
  {
    match Raise(NextTokenWord(h.commandCount, requestId, sampling, temperature, topP))
    case Err(f) => (h, Err(f))
    case Ok(word) =>
      var (h', r) := Submit(hw, patience, h, Sent(word, requestId.None?));
      (h', TokenIn(r))
  }

  /** The token in a completion status, or the exception. */
  function TokenIn(r: Result<nat, Failure>): Result<nat, Failure> {
    var status :- r;
    var token :- Raise(StatusToken(status));
    if token.None? then Err(NoToken) else Ok(token.value)
  }

  // ----- every run of runtime calls

  datatype Call =
    | LoadWeightsCall(manifestId: int)
    | ResetCall(sessionId: int)
    | PromptCall(tokens: seq<int>)
    | StepCall(requestId: Option<int>, sampling: Sampling, temperature: real, topP: real)

  function Perform<D>(hw: Hardware<D>, patience: nat -> nat, h: Host<D>, call: Call): Host<D> {
    match call
    case LoadWeightsCall(manifestId) => LoadWeights(hw, patience, h, manifestId).0
    case ResetCall(sessionId) => ResetKv(hw, patience, h, sessionId).0
    case PromptCall(tokens) => LoadPromptFrom(hw, patience, h, tokens, 0).0
    case StepCall(requestId, sampling, temperature, topP) =>
      TokenStep(hw, patience, h, requestId, sampling, temperature, topP).0
  }

  function Run<D>(hw: Hardware<D>, patience: nat -> nat, dev: D, calls: seq<Call>): Host<D> {
    if calls == [] then Host(dev, 0, 0, false, [])
    else Perform(hw, patience, Run(hw, patience, dev, calls[..|calls| - 1]), calls[|calls| - 1])
  }

  /** A word is NEXT_TOKEN with this request id. */
  ghost predicate Requests(word: nat, id: int) {
    exists s, t, p :: Decode(word) == Ok(NextToken(id, s, t, p))
  }

  /** Every command is counted, and an automatic one carries its index. */
  ghost predicate Counted<D>(h: Host<D>) {
    |h.log| == h.commandCount && Numbered(h.log)
  }

  ghost predicate Numbered(log: seq<Sent>) {
    forall i :: 0 <= i < |log| && log[i].automatic ==> Requests(log[i].word, i % 0x1_0000)
  }

  lemma NumberedOn(log: seq<Sent>, sent: Sent, n: nat)
    requires Numbered(log) && n == |log| && (sent.automatic ==> Requests(sent.word, n % 0x1_0000))
    ensures Numbered(log + [sent])
  {
  }

  lemma AutomaticWord(count: nat, sampling: Sampling, temperature: real, topP: real, word: nat)
    requires NextTokenWord(count, None, sampling, temperature, topP) == Ok(word)
    ensures Requests(word, count % 0x1_0000)
  {
    AndMask(count, 16);
    Pow2Values();
    var t, p := Q8_8(temperature).value, Q8_8(topP).value;
    var c := NextToken(count % 0x1_0000, if sampling.Random? then RANDOM else ARGMAX, t, p);
    DecodeEncode(c);
  }

  lemma SubmitCounts<D>(hw: Hardware<D>, patience: nat -> nat, h: Host<D>, sent: Sent)
    requires Counted(h)
    requires sent.automatic ==> Requests(sent.word, h.commandCount % 0x1_0000)
    ensures Counted(Submit(hw, patience, h, sent).0)
  {
    NumberedOn(h.log, sent, h.commandCount);
  }

  lemma {:induction false} PromptCounts<D>(
      hw: Hardware<D>, patience: nat -> nat, h: Host<D>, prompt: seq<int>, position: nat)
    requires Counted(h) && position <= |prompt|
    ensures Counted(LoadPromptFrom(hw, patience, h, prompt, position).0)
    decreases |prompt| - position
  {
    if position < |prompt| && Encode(LoadPrompt(position, prompt[position])).Ok? {
      var sent := Sent(Encode(LoadPrompt(position, prompt[position])).value, false);
      SubmitCounts(hw, patience, h, sent);
      PromptCounts(hw, patience, Submit(hw, patience, h, sent).0, prompt, position + 1);
    }
  }

  lemma PerformCounts<D>(hw: Hardware<D>, patience: nat -> nat, h: Host<D>, call: Call)
    requires Counted(h)
    ensures Counted(Perform(hw, patience, h, call))
  {
    match call
    case LoadWeightsCall(manifestId) =>
      if Encode(LoadWeight(0, 0, 0, manifestId)).Ok? {
        SubmitCounts(hw, patience, h, Sent(Encode(LoadWeight(0, 0, 0, manifestId)).value, false));
      }
    case ResetCall(sessionId) =>
      if Encode(Reset(sessionId)).Ok? {
        SubmitCounts(hw, patience, h, Sent(Encode(Reset(sessionId)).value, false));
      }
    case PromptCall(tokens) =>
      PromptCounts(hw, patience, h, tokens, 0);
    case StepCall(requestId, sampling, temperature, topP) =>
      var w := NextTokenWord(h.commandCount, requestId, sampling, temperature, topP);
      if w.Ok? {
        if requestId.None? { AutomaticWord(h.commandCount, sampling, temperature, topP, w.value); }
        SubmitCounts(hw, patience, h, Sent(w.value, requestId.None?));
      }
  }

  lemma {:induction false} RunCounts<D>(hw: Hardware<D>, patience: nat -> nat, dev: D, calls: seq<Call>)
    ensures Counted(Run(hw, patience, dev, calls))
  {
    if calls != [] {
      RunCounts(hw, patience, dev, calls[..|calls| - 1]);
      PerformCounts(hw, patience, Run(hw, patience, dev, calls[..|calls| - 1]), calls[|calls| - 1]);
    }
  }

  lemma OneRequest(word: nat, a: int, b: int)
    requires Requests(word, a) && Requests(word, b)
    ensures a == b
  {
  }

  lemma ResiduesDiffer(i: nat, j: nat)
    requires i < j < i + 0x1_0000
    ensures i % 0x1_0000 != j % 0x1_0000
  {
  }

  /** Whatever the device answers and however short the deadlines, failed and
      timed-out commands included: every command sent is counted, and an automatic
      request id is the command's index modulo 65536. */
  lemma AutomaticIds<D>(hw: Hardware<D>, patience: nat -> nat, dev: D, calls: seq<Call>, i: nat)
    requires i < |Run(hw, patience, dev, calls).log|
    ensures var h := Run(hw, patience, dev, calls);
      && |h.log| == h.commandCount
      && (h.log[i].automatic ==> Requests(h.log[i].word, i % 0x1_0000))
  {
    RunCounts(hw, patience, dev, calls);
  }

  /** Hence automatic NEXT_TOKENs among any 65536 consecutive commands carry distinct
      request ids. */
  lemma AutomaticIdsDistinct<D>(
      hw: Hardware<D>, patience: nat -> nat, dev: D, calls: seq<Call>, i: nat, j: nat, a: int, b: int)
    requires var log := Run(hw, patience, dev, calls).log;
      && i < j < |log| && j - i < 0x1_0000
      && log[i].automatic && Requests(log[i].word, a)
      && log[j].automatic && Requests(log[j].word, b)
    ensures a != b
  {
    RunCounts(hw, patience, dev, calls);
    var log := Run(hw, patience, dev, calls).log;
    OneRequest(log[i].word, a, i % 0x1_0000);
    OneRequest(log[j].word, b, j % 0x1_0000);
    ResiduesDiffer(i, j);
  }

  // ----- what one call sends

  /** The call sent exactly this command, whatever became of it. */
  ghost predicate SentOne<D>(h: Host<D>, h': Host<D>, c: Command) {
    |h'.log| == |h.log| + 1 && h.log <= h'.log && Decode(h'.log[|h.log|].word) == Ok(c)
  }

  lemma SubmitSends<D>(hw: Hardware<D>, patience: nat -> nat, h: Host<D>, sent: Sent, c: Command)
    requires Encode(c) == Ok(sent.word) && (c.NextToken? ==> c.sampling <= RANDOM)
    ensures SentOne(h, Submit(hw, patience, h, sent).0, c)
  {
    DecodeEncode(c);
  }

  /** Loading weights sends LOAD_WEIGHT for the manifest and a reset sends RESET for the
      session; a number without an encoding is an error and nothing is sent. */
  lemma NumbersSent<D>(hw: Hardware<D>, patience: nat -> nat, h: Host<D>, number: int)
    ensures var (h', f) := LoadWeights(hw, patience, h, number);
      if 0 <= number < 0x1_0000_0000 then SentOne(h, h', LoadWeight(0, 0, 0, number)) else h' == h && f.Some?
    ensures var (h', f) := ResetKv(hw, patience, h, number);
      if 0 <= number < 0x1_0000_0000 then SentOne(h, h', Reset(number)) else h' == h && f.Some?
  {
    var l, r := LoadWeight(0, 0, 0, number), Reset(number);
    Pow2Values();
    EncodeSucceeds(l);
    EncodeSucceeds(r);
    if 0 <= number < 0x1_0000_0000 {
      SubmitSends(hw, patience, h, Sent(Encode(l).value, false), l);
      SubmitSends(hw, patience, h, Sent(Encode(r).value, false), r);
    }
  }

  /** A token step sends NEXT_TOKEN with the caller's request id or, without one, with the
      number of commands sent before, modulo 65536; with its settings in 256ths; or
      nothing, if one of these has no encoding. */
  lemma StepSends<D>(hw: Hardware<D>, patience: nat -> nat, h: Host<D>, requestId: Option<int>, sampling: Sampling,
                     temperature: real, topP: real, id: int, t: int, p: int)
    requires id == if requestId.Some? then requestId.value else h.commandCount % 0x1_0000
    requires t == Round(temperature * 256.0) && p == Round(topP * 256.0)
    ensures var (h', r) := TokenStep(hw, patience, h, requestId, sampling, temperature, topP);
      if 0 <= id < 0x1_0000 && 0 <= t < 0x1_0000 && 0 <= p < 0x1_0000
      then SentOne(h, h', NextToken(id, if sampling.Random? then 1 else 0, t, p))
      else h' == h && r.Err?
  {
    var c := NextToken(id, if sampling.Random? then 1 else 0, t, p);
    StepWord(h.commandCount, requestId, sampling, temperature, topP, id, t, p, c);
    var w := NextTokenWord(h.commandCount, requestId, sampling, temperature, topP);
    if w.Ok? { SubmitSends(hw, patience, h, Sent(w.value, requestId.None?), c); }
  }

  lemma StepWord(count: nat, requestId: Option<int>, sampling: Sampling, temperature: real, topP: real,
                 id: int, t: int, p: int, c: Command)
    requires id == if requestId.Some? then requestId.value else count % 0x1_0000
    requires t == Round(temperature * 256.0) && p == Round(topP * 256.0)
    requires c == NextToken(id, if sampling.Random? then 1 else 0, t, p)
    ensures var w := NextTokenWord(count, requestId, sampling, temperature, topP);
      && (w.Ok? <==> 0 <= id < 0x1_0000 && 0 <= t < 0x1_0000 && 0 <= p < 0x1_0000)
      && (w.Ok? ==> Encode(c) == w)
  {
    AndMask(count, 16);
    Pow2Values();
    CheckIs(t, 16, "q8_8");
    CheckIs(p, 16, "q8_8");
    EncodeSucceeds(c);
  }

  // ----- what one call reports

  /** The status word the k-th read of a poll gives. */
  function NthRead<D>(hw: Hardware<D>, dev: D, k: nat): nat
    decreases k
  {
    var (dev', raw) := hw.read(dev);
    if k == 0 then And(raw, Mask(64)) else NthRead(hw, dev', k - 1)
  }

  /** A poll looks for the first status word with ERROR or DONE among those its deadline
      lets it read: it fails if that word has ERROR, also together with DONE, and else
      returns it; without such a word it times out. */
  lemma {:induction false} PollFirst<D>(hw: Hardware<D>, dev: D, turns: nat, last: nat) returns (k: nat)
    ensures k <= turns
    ensures forall i :: 0 <= i < k ==>
      !StatusBit(NthRead(hw, dev, i), ERROR) && !StatusBit(NthRead(hw, dev, i), DONE)
    ensures var (_, status, r) := Poll(hw, dev, turns, last);
      if k == turns then r == Err(Timeout) && status == if turns == 0 then last else NthRead(hw, dev, turns - 1)
      else
        && status == NthRead(hw, dev, k)
        && (StatusBit(status, ERROR) ==> r == Err(CommandFailed(status)))
        && (!StatusBit(status, ERROR) ==> StatusBit(status, DONE) && r == Ok(status))
    decreases turns
  {
    if turns == 0 {
      k := 0;
    } else {
      var (dev', raw) := hw.read(dev);
      var status := And(raw, Mask(64));
      if StatusBit(status, ERROR) || StatusBit(status, DONE) {
        k := 0;
      } else {
        var rest := PollFirst(hw, dev', turns - 1, status);
        k := 1 + rest;
        forall i | 0 <= i < k
          ensures !StatusBit(NthRead(hw, dev, i), ERROR) && !StatusBit(NthRead(hw, dev, i), DONE)
        {
          if i > 0 { assert NthRead(hw, dev, i) == NthRead(hw, dev', i - 1); }
        }
      }
    }
  }

  lemma TokenBits(s: nat)
    ensures And(Shr(s, 32), TOKEN_MASK) == s / 0x1_0000_0000 % 0x1_0000_0000
  {
    Pow2Values();
    AndMask(s, 32);
    AndMask(Shr(s, 32), 32);
  }

  lemma TokenInIs(r: Result<nat, Failure>)
    ensures TokenIn(r).Ok? ==>
      r.Ok? && StatusBit(r.value, TOKEN_VALID) && TokenIn(r).value == r.value / 0x1_0000_0000 % 0x1_0000_0000
  {
    if TokenIn(r).Ok? {
      CheckIs(r.value, 64, "stat");
      TokenBits(r.value);
    }
  }

  /** A token step returns a token only from a status word with DONE and TOKEN_VALID and
      without ERROR, and it is that word's upper half. */
  lemma StepReturns<D>(hw: Hardware<D>, patience: nat -> nat, h: Host<D>, requestId: Option<int>,
                       sampling: Sampling, temperature: real, topP: real)
    ensures var (h', r) := TokenStep(hw, patience, h, requestId, sampling, temperature, topP);
      r.Ok? ==>
        var s := h'.lastStatus;
        && StatusBit(s, DONE) && !StatusBit(s, ERROR) && StatusBit(s, TOKEN_VALID)
        && r.value == s / 0x1_0000_0000 % 0x1_0000_0000
  {
    var word := NextTokenWord(h.commandCount, requestId, sampling, temperature, topP);
    if word.Ok? {
      var sent := Sent(word.value, requestId.None?);
      var (h', r) := Submit(hw, patience, h, sent);
      var k := PollFirst(hw, hw.submit(h.dev, sent.word), patience(h.commandCount), h.lastStatus);
      TokenInIs(r);
    }
  }

  ghost predicate Succeeds<D>(hw: Hardware<D>, patience: nat -> nat, h: Host<D>, call: Call) {
    call.LoadWeightsCall? && LoadWeights(hw, patience, h, call.manifestId).1.None?
  }

  /** After a call the weights count as loaded exactly if they did before or the call was a
      LOAD_WEIGHT that returned without an exception. */
  lemma PerformLoads<D>(hw: Hardware<D>, patience: nat -> nat, h: Host<D>, call: Call)
    ensures Perform(hw, patience, h, call).weightsLoaded <==> h.weightsLoaded || Succeeds(hw, patience, h, call)
  {
    if call.PromptCall? { PromptLoads(hw, patience, h, call.tokens, 0); }
  }

  lemma {:induction false} PromptLoads<D>(
      hw: Hardware<D>, patience: nat -> nat, h: Host<D>, prompt: seq<int>, position: nat)
    requires position <= |prompt|
    ensures LoadPromptFrom(hw, patience, h, prompt, position).0.weightsLoaded == h.weightsLoaded
    decreases |prompt| - position
  {
    if position < |prompt| && Encode(LoadPrompt(position, prompt[position])).Ok? {
      var sent := Sent(Encode(LoadPrompt(position, prompt[position])).value, false);
      PromptLoads(hw, patience, Submit(hw, patience, h, sent).0, prompt, position + 1);
    }
  }
}
