/** What any number of NPU generations on one session over the simulator can do:
    the commands the device logs and the tokens that come out.

    `patience` gives each command's deadline as a number of status reads.  A command
    whose deadline leaves none is executed all the same, but the host times out. */
module TokenRuns {
  import opened Prelude
  import opened Bits
  import opened HostIsa
  import opened Reals
  import opened TokenRuntime
  import opened TokenSession

  // ----- one command

  /** The device after executing a command word. */
  function Executed(d: Device, c: Command, word: nat): Device {
    Device(if c.NextToken? then Rest(d.tokens) else d.tokens, d.commands + [word], d.executed + 1,
           Completed(false, Answer(d, c)))
  }

  function Answer(d: Device, c: Command): Option<Token> {
    if c.NextToken? then Some(First(d.tokens)) else None
  }

  lemma WordOpcode(c: Command, word: nat)
    requires Encode(c) == Ok(word)
    ensures And(word, Mask(64)) == word && OpcodeOf(word) == Opcode(c)
  {
    EncodeSucceeds(c);
    EncodedWord(c, Opcode(c), Operand(c));
    OpcodeRead(word, Opcode(c), Operand(c));
  }

  lemma OpcodeRead(word: nat, opcode: nat, x: nat)
    requires opcode <= NEXT_TOKEN && x < Pow2(56) && word == Shl(opcode, 56) + x
    ensures And(word, Mask(64)) == word && OpcodeOf(word) == opcode
  {
    SplitCommand(opcode, x, word);
    MaskFits(word, 64);
  }

  lemma ExecutedByOpcode(d: Device, c: Command, word: nat, opcode: nat)
    requires opcode == Opcode(c)
    ensures Execute(d.(commands := d.commands + [word]), opcode) == Executed(d, c, word)
  {
  }

  lemma SimExecutes(d: Device, c: Command, word: nat)
    requires Encode(c) == Ok(word)
    ensures SimSubmit(d, word) == Executed(d, c, word)
  {
    WordOpcode(c, word);
    ExecutedByOpcode(d, c, word, OpcodeOf(word));
  }

  /** A word with any other opcode changes no token and completes with an error. */
  lemma SimRejects(d: Device, word: nat, opcode: nat)
    requires word < Pow2(64) && opcode == word / Pow2(56) && opcode !in {1, 2, 3, 4}
    ensures var d' := SimSubmit(d, word);
      d'.tokens == d.tokens && StatusBit(d'.status, ERROR) && StatusBit(d'.status, DONE)
      && d'.commands == d.commands + [word]
  {
    MaskFits(word, 64);
    AndMask(word, 56);
    HighByte(word);
    StatusReadsBack(false, true, true, None, Completed(true, None));
  }

  lemma CompletedReads(token: Option<Token>, s: nat)
    requires s == Completed(false, token)
    ensures And(s, Mask(64)) == s && StatusBit(s, DONE) && !StatusBit(s, ERROR)
    ensures StatusToken(s) == Ok(token)
  {
    StatusReadsBack(false, true, false, token, s);
    CheckIs(s, 64, "stat");
    MaskFits(s, 64);
  }

  /** The first read completes the poll. */
  lemma PollsOnce(d: Device, turns: nat, last: nat, token: Option<Token>)
    requires turns > 0 && d.status == Completed(false, token)
    ensures Poll(SIM, d, turns, last) == (d, d.status, Ok(d.status))
    ensures TokenIn(Ok(d.status)) == if token.Some? then Ok(token.value) else Err(NoToken)
  {
    CompletedReads(token, d.status);
    assert SIM.read(d) == (d, d.status);
  }

  /** The host after a command the simulator executed, its status read or not. */
  function Ran(h: Host<Device>, c: Command, sent: Sent, onTime: bool): Host<Device> {
    var d := Executed(h.dev, c, sent.word);
    Host(d, h.commandCount + 1, if onTime then d.status else h.lastStatus, h.weightsLoaded, h.log + [sent])
  }

  lemma SimSubmits(patience: nat -> nat, h: Host<Device>, c: Command, sent: Sent)
    requires Encode(c) == Ok(sent.word)
    ensures var onTime := patience(h.commandCount) > 0;
      Submit(SIM, patience, h, sent)
      == (Ran(h, c, sent, onTime), if onTime then Ok(Ran(h, c, sent, true).lastStatus) else Err(Timeout))
    ensures TokenIn(Ok(Ran(h, c, sent, true).lastStatus))
         == if c.NextToken? then Ok(First(h.dev.tokens)) else Err(NoToken)
  {
    var d := Executed(h.dev, c, sent.word);
    var turns := patience(h.commandCount);
    SimExecutes(h.dev, c, sent.word);
    PollsOnce(d, if turns > 0 then turns else 1, h.lastStatus, Answer(h.dev, c));
    if turns > 0 {
      Submitted(SIM, patience, h, sent, d, d.status, Ok(d.status));
    } else {
      Submitted(SIM, patience, h, sent, d, h.lastStatus, Err(Timeout));
    }
  }

  // ----- the command log

  /** The device logged exactly these commands, one word each. */
  ghost predicate Logged(h: Host<Device>, cs: seq<Command>) {
    && |h.dev.commands| == |cs| == h.commandCount
    && forall i :: 0 <= i < |cs| ==> Decode(h.dev.commands[i]) == Ok(cs[i])
  }

  lemma LogsOne(h: Host<Device>, cs: seq<Command>, c: Command, sent: Sent, onTime: bool)
    requires Logged(h, cs) && Encode(c) == Ok(sent.word)
    requires c.NextToken? ==> c.sampling == ARGMAX
    ensures Logged(Ran(h, c, sent, onTime), cs + [c])
  {
    DecodeEncode(c);
  }

  // ----- commands sent in a row

  /** No command of these n times out. */
  ghost predicate OnTime(patience: nat -> nat, from: nat, n: nat) {
    forall i :: from <= i < from + n ==> patience(i) > 0
  }

  /** How many of n commands are sent: up to the first that times out, itself included. */
  function Sendable(patience: nat -> nat, from: nat, n: nat): (m: nat)
    ensures m <= n
    ensures OnTime(patience, from, n) ==> m == n
    ensures !OnTime(patience, from, n) ==> m > 0 && OnTime(patience, from, m - 1) && patience(from + m - 1) == 0
    decreases n
  {
    if n == 0 then 0
    else if patience(from) == 0 then 1
    else
      var m := Sendable(patience, from + 1, n - 1);
      OnTimeFrom(patience, from, n);
      if m > 0 then (OnTimeFrom(patience, from, m); 1 + m) else 1
  }

  lemma OnTimeFrom(patience: nat -> nat, from: nat, n: nat)
    requires n > 0
    ensures OnTime(patience, from, n) <==> patience(from) > 0 && OnTime(patience, from + 1, n - 1)
  {
    if patience(from) > 0 && OnTime(patience, from + 1, n - 1) {
      forall i | from <= i < from + n ensures patience(i) > 0 {
      }
    }
  }

  lemma OnTimeParts(patience: nat -> nat, from: nat, a: nat, b: nat)
    ensures OnTime(patience, from, a + b) <==> OnTime(patience, from, a) && OnTime(patience, from + a, b)
  {
    if OnTime(patience, from, a) && OnTime(patience, from + a, b) {
      forall i | from <= i < from + (a + b) ensures patience(i) > 0 {
      }
    }
  }

  lemma {:induction false} SendableParts(patience: nat -> nat, from: nat, a: nat, b: nat)
    ensures Sendable(patience, from, a + b)
         == if OnTime(patience, from, a) then a + Sendable(patience, from + a, b) else Sendable(patience, from, a)
    decreases a
  {
    if a > 0 {
      OnTimeFrom(patience, from, a);
      if patience(from) > 0 { SendableParts(patience, from + 1, a - 1, b); }
    }
  }

  /** How a row of commands ends: with the first that times out, or else well, or
      with a value that has no encoding. */
  ghost predicate Ends(f: Option<Failure>, onTime: bool, ok: bool) {
    if !onTime then f == Some(Timeout) else if ok then f.None? else f.Some? && f.value.ValueError?
  }

  /** The host sent `more` after `cs`, up to the first that timed out; none of them
      draws a token. */
  ghost predicate Sends(patience: nat -> nat, h: Host<Device>, h': Host<Device>, f: Option<Failure>,
                        cs: seq<Command>, more: seq<Command>, ok: bool) {
    && Logged(h', cs + more[..Sendable(patience, |cs|, |more|)]) && h'.dev.tokens == h.dev.tokens
    && Ends(f, OnTime(patience, |cs|, |more|), ok)
  }

  lemma SendsNone(patience: nat -> nat, h: Host<Device>, f: Option<Failure>, cs: seq<Command>, ok: bool)
    requires Logged(h, cs) && Ends(f, true, ok)
    ensures Sends(patience, h, h, f, cs, [], ok)
  {
    assert cs + [] == cs;
  }

  lemma SendsBoth(patience: nat -> nat, h: Host<Device>, h1: Host<Device>, h2: Host<Device>, f2: Option<Failure>,
                  cs: seq<Command>, a: seq<Command>, cs1: seq<Command>, b: seq<Command>, ab: seq<Command>, ok: bool)
    requires Sends(patience, h, h1, None, cs, a, true) && cs1 == cs + a && ab == a + b
    requires Sends(patience, h1, h2, f2, cs1, b, ok)
    ensures Sends(patience, h, h2, f2, cs, ab, ok)
  {
    BothSendable(patience, |cs|, |a|, |b|, |cs1|, |ab|);
    BothPrefixes(cs, a, b, Sendable(patience, |cs1|, |b|), ab, Sendable(patience, |cs|, |ab|));
  }

  lemma BothSendable(patience: nat -> nat, from: nat, a: nat, b: nat, next: nat, ab: nat)
    requires next == from + a && ab == a + b && OnTime(patience, from, a)
    ensures Sendable(patience, from, ab) == a + Sendable(patience, next, b)
    ensures OnTime(patience, from, ab) <==> OnTime(patience, next, b)
  {
    OnTimeParts(patience, from, a, b);
    SendableParts(patience, from, a, b);
  }

  lemma BothPrefixes(cs: seq<Command>, a: seq<Command>, b: seq<Command>, m: nat, ab: seq<Command>, k: nat)
    requires ab == a + b && m <= |b| && k == |a| + m
    ensures cs + ab[..k] == cs + a + b[..m]
  {
  }

  lemma SendsFirst(patience: nat -> nat, h: Host<Device>, h1: Host<Device>, f: Failure,
                   cs: seq<Command>, a: seq<Command>, b: seq<Command>, ab: seq<Command>, ok: bool)
    requires Sends(patience, h, h1, Some(f), cs, a, true) && ab == a + b
    ensures Sends(patience, h, h1, Some(f), cs, ab, ok)
  {
    var m := Sendable(patience, |cs|, |a|);
    OnTimeParts(patience, |cs|, |a|, |b|);
    SendableParts(patience, |cs|, |a|, |b|);
    assert ab[..m] == a[..m];
  }

  lemma SendsMore(patience: nat -> nat, h: Host<Device>, h1: Host<Device>, h2: Host<Device>,
                  f1: Option<Failure>, f2: Option<Failure>,
                  cs: seq<Command>, a: seq<Command>, cs1: seq<Command>, b: seq<Command>, ab: seq<Command>, ok: bool)
    requires Sends(patience, h, h1, f1, cs, a, true) && cs1 == cs + a && ab == a + b
    requires if f1.None? then Sends(patience, h1, h2, f2, cs1, b, ok) else h2 == h1 && f2 == f1
    ensures Sends(patience, h, h2, f2, cs, ab, ok)
  {
    if f1.None? {
      SendsBoth(patience, h, h1, h2, f2, cs, a, cs1, b, ab, ok);
    } else {
      SendsFirst(patience, h, h1, f1.value, cs, a, b, ab, ok);
    }
  }

  /** One command that draws no token. */
  lemma SendsOne(patience: nat -> nat, h: Host<Device>, h': Host<Device>, f: Option<Failure>,
                 cs: seq<Command>, c: Command, sent: Sent)
    requires Logged(h, cs) && Encode(c) == Ok(sent.word) && !c.NextToken?
    requires f == if patience(|cs|) > 0 then None else Some(Timeout)
    requires h' == Ran(h, c, sent, patience(|cs|) > 0)
    ensures Sends(patience, h, h', f, cs, [c], true)
  {
    LogsOne(h, cs, c, sent, patience(|cs|) > 0);
    OnTimeFrom(patience, |cs|, 1);
    assert Sendable(patience, |cs|, 1) == 1;
    assert [c][..1] == [c];
  }

  lemma WholeSent(patience: nat -> nat, h: Host<Device>, h': Host<Device>, cs: seq<Command>, more: seq<Command>)
    requires Sends(patience, h, h', None, cs, more, true)
    ensures Logged(h', cs + more)
  {
    assert more[..|more|] == more;
  }

  lemma SameLog(h: Host<Device>, h': Host<Device>, cs: seq<Command>)
    requires Logged(h, cs) && h'.dev == h.dev && h'.commandCount == h.commandCount
    ensures Logged(h', cs)
  {
  }

  ghost predicate Known(manifestId: nat) {
    manifestId < 0x1_0000_0000
  }

  lemma LoadsWeights(patience: nat -> nat, manifestId: nat, h: Host<Device>, cs: seq<Command>)
    requires Known(manifestId) && Logged(h, cs)
    ensures var (h', f) := LoadWeights(SIM, patience, h, manifestId);
      Sends(patience, h, h', f, cs, [LoadWeight(0, 0, 0, manifestId)], true)
  {
    var c := LoadWeight(0, 0, 0, manifestId);
    Pow2Values();
    EncodeSucceeds(c);
    var sent := Sent(Encode(c).value, false);
    SimSubmits(patience, h, c, sent);
    var (h', f) := LoadWeights(SIM, patience, h, manifestId);
    var ran := Ran(h, c, sent, patience(|cs|) > 0);
    SendsOne(patience, h, ran, f, cs, c, sent);
    SameLog(ran, h', cs + [c][..Sendable(patience, |cs|, 1)]);
  }

  lemma ResetEncodes(id: nat)
    requires id == 0
    ensures Encode(Reset(id)).Ok?
  {
    EncodeSucceeds(Reset(id));
  }

  lemma Resets(patience: nat -> nat, h: Host<Device>, cs: seq<Command>, id: nat)
    requires Logged(h, cs) && id == 0
    ensures var (h', f) := ResetKv(SIM, patience, h, id); Sends(patience, h, h', f, cs, [Reset(id)], true)
  {
    var c := Reset(id);
    ResetEncodes(id);
    var sent := Sent(Encode(c).value, false);
    SimSubmits(patience, h, c, sent);
    var (h', f) := ResetKv(SIM, patience, h, id);
    SendsOne(patience, h, h', f, cs, c, sent);
  }

  // ----- the prompt

  predicate Fits(position: nat, token: int) {
    position < 0x100_0000 && 0 <= token < 0x1_0000_0000
  }

  /** The first position from here on whose token or position has no encoding. */
  function Loadable(prompt: seq<int>, position: nat): (n: nat)
    requires position <= |prompt|
    ensures position <= n <= |prompt|
    decreases |prompt| - position
  {
    if position == |prompt| || !Fits(position, prompt[position]) then position
    else Loadable(prompt, position + 1)
  }

  function PromptCommands(prompt: seq<int>, from: nat, to: nat): (cs: seq<Command>)
    requires from <= to <= |prompt|
    ensures |cs| == to - from
  {
    seq(to - from, i requires 0 <= i < to - from => LoadPrompt(from + i, prompt[from + i]))
  }

  lemma PromptEncodes(position: nat, token: int)
    ensures Encode(LoadPrompt(position, token)).Ok? <==> Fits(position, token)
  {
    EncodeSucceeds(LoadPrompt(position, token));
    Pow2Values();
    Pow2Add(16, 8);
  }

  lemma PromptHead(prompt: seq<int>, from: nat, to: nat)
    requires from < to <= |prompt|
    ensures [LoadPrompt(from, prompt[from])] + PromptCommands(prompt, from + 1, to) == PromptCommands(prompt, from, to)
  {
  }

  /** Loading a prompt sends its tokens in order, at consecutive positions, up to the
      first that has no encoding, unless one times out before. */
  lemma {:induction false} LoadsPrompt(
      patience: nat -> nat, h: Host<Device>, cs: seq<Command>, prompt: seq<int>, position: nat)
    requires Logged(h, cs) && position <= |prompt|
    ensures var (h', f) := LoadPromptFrom(SIM, patience, h, prompt, position);
      var n := Loadable(prompt, position);
      Sends(patience, h, h', f, cs, PromptCommands(prompt, position, n), n == |prompt|)
    decreases |prompt| - position
  {
    var (h', f) := LoadPromptFrom(SIM, patience, h, prompt, position);
    if position == |prompt| {
      SendsNone(patience, h, f, cs, true);
    } else {
      PromptEncodes(position, prompt[position]);
      if Fits(position, prompt[position]) {
        var c, next := LoadPrompt(position, prompt[position]), position + 1;
        var h1, f1 := FirstPromptSent(patience, h, cs, prompt, position, next, c, cs + [c]);
        LoadsPrompt(patience, h1, cs + [c], prompt, next);
        LoadsBoth(patience, h, cs, prompt, position, next, c, Loadable(prompt, next), h1, f1, cs + [c]);
      } else {
        SendsNone(patience, h, f, cs, false);
      }
    }
  }

  /** The prompt loop after the first of its commands. */
  function LoadedFrom(patience: nat -> nat, h: Host<Device>, f: Option<Failure>, prompt: seq<int>, position: nat)
    : (Host<Device>, Option<Failure>)
    requires position <= |prompt|
  {
    if f.Some? then (h, f) else LoadPromptFrom(SIM, patience, h, prompt, position)
  }

  lemma LoadsFirst(patience: nat -> nat, h: Host<Device>, cs: seq<Command>, prompt: seq<int>, position: nat, next: nat,
                   c: Command, sent: Sent, h1: Host<Device>, f1: Option<Failure>)
    requires Logged(h, cs) && next == position + 1 <= |prompt|
    requires c == LoadPrompt(position, prompt[position]) && Encode(c) == Ok(sent.word) && !sent.automatic
    requires h1 == Ran(h, c, sent, patience(|cs|) > 0) && f1 == if patience(|cs|) > 0 then None else Some(Timeout)
    ensures LoadPromptFrom(SIM, patience, h, prompt, position) == LoadedFrom(patience, h1, f1, prompt, next)
  {
    SimSubmits(patience, h, c, sent);
  }

  lemma FirstPromptSent(patience: nat -> nat, h: Host<Device>, cs: seq<Command>, prompt: seq<int>, position: nat,
                        next: nat, c: Command, cs1: seq<Command>)
    returns (h1: Host<Device>, f1: Option<Failure>)
    requires Logged(h, cs) && next == position + 1 <= |prompt| && c == LoadPrompt(position, prompt[position])
    requires Encode(c).Ok? && cs1 == cs + [c]
    ensures Sends(patience, h, h1, f1, cs, [c], true) && Logged(h1, cs1)
    ensures LoadPromptFrom(SIM, patience, h, prompt, position) == LoadedFrom(patience, h1, f1, prompt, next)
  {
    var sent, onTime := Sent(Encode(c).value, false), patience(|cs|) > 0;
    h1 := Ran(h, c, sent, onTime);
    f1 := if onTime then None else Some(Timeout);
    SendsOne(patience, h, h1, f1, cs, c, sent);
    LogsOne(h, cs, c, sent, onTime);
    LoadsFirst(patience, h, cs, prompt, position, next, c, sent, h1, f1);
  }

  lemma LoadsBoth(patience: nat -> nat, h: Host<Device>, cs: seq<Command>, prompt: seq<int>, position: nat, next: nat,
                  c: Command, n: nat, h1: Host<Device>, f1: Option<Failure>, cs1: seq<Command>)
    requires next == position + 1 <= n <= |prompt| && c == LoadPrompt(position, prompt[position]) && cs1 == cs + [c]
    requires Sends(patience, h, h1, f1, cs, [c], true)
    requires var (h2, f2) := LoadPromptFrom(SIM, patience, h1, prompt, next);
      Sends(patience, h1, h2, f2, cs1, PromptCommands(prompt, next, n), n == |prompt|)
    ensures var (h2, f2) := LoadedFrom(patience, h1, f1, prompt, next);
      Sends(patience, h, h2, f2, cs, PromptCommands(prompt, position, n), n == |prompt|)
  {
    var (h2, f2) := LoadedFrom(patience, h1, f1, prompt, next);
    PromptHead(prompt, position, n);
    SendsMore(patience, h, h1, h2, f1, f2, cs, [c], cs1, PromptCommands(prompt, next, n),
              PromptCommands(prompt, position, n), n == |prompt|);
  }

  // ----- the token stream

  /** What a device that started with these tokens still holds after k draws. */
  function Left(start: seq<Token>, k: nat): seq<Token> {
    if k <= |start| then start[k..] else []
  }

  /** The k-th token ever drawn. */
  function Stream(start: seq<Token>, k: nat): Token {
    if k < |start| then start[k] else 1
  }

  lemma DrawsNext(start: seq<Token>, k: nat)
    ensures First(Left(start, k)) == Stream(start, k) && Rest(Left(start, k)) == Left(start, k + 1)
  {
  }

  /** The tokens a generation took from the device: what it yielded and the stop
      token that ended it. */
  function TokensOf(g: Generation): seq<nat> {
    g.emitted + if g.outcome.Stopped? then [g.outcome.token] else []
  }

  /** The settings have Q8.8 encodings. */
  predicate Encodable(temperature: real, topP: real) {
    0 <= Round(temperature * 256.0) < 0x1_0000 && 0 <= Round(topP * 256.0) < 0x1_0000
  }

  /** The n-th command's greedy NEXT_TOKEN. */
  function Next(index: nat, temperature: real, topP: real): Command {
    NextToken(index % 0x1_0000, ARGMAX, Round(temperature * 256.0), Round(topP * 256.0))
  }

  function NextCommands(index: nat, n: nat, temperature: real, topP: real): (cs: seq<Command>)
    ensures |cs| == n
  {
    seq(n, i requires 0 <= i < n => Next(index + i, temperature, topP))
  }

  lemma NextHead(index: nat, n: nat, m: nat, temperature: real, topP: real, cs: seq<Command>, cs1: seq<Command>)
    requires m == n + 1 && index == |cs| && cs1 == cs + [Next(index, temperature, topP)]
    ensures cs1 + NextCommands(|cs1|, n, temperature, topP) == cs + NextCommands(index, m, temperature, topP)
  {
  }

  lemma NextEncodes(index: nat, temperature: real, topP: real)
    ensures var w := NextTokenWord(index, None, Argmax, temperature, topP);
      && (w.Ok? <==> Encodable(temperature, topP))
      && (w.Ok? ==> Encode(Next(index, temperature, topP)) == w)
  {
    Pow2Values();
    AndMask(index, 16);
    CheckIs(Round(temperature * 256.0), 16, "q8_8");
    CheckIs(Round(topP * 256.0), 16, "q8_8");
    EncodeSucceeds(Next(index, temperature, topP));
  }

  /** A step that draws the head of the device's list with one NEXT_TOKEN, and loses
      it if the command times out; or, when the settings have no encoding, raises a
      ValueError and sends nothing. */
  ghost predicate StepsFrom(step: Stepper, patience: nat -> nat, h: Host<Device>, cs: seq<Command>,
                            temperature: real, topP: real) {
    var (h', r) := step(h);
    if Encodable(temperature, topP) then
      && r == (if patience(|cs|) > 0 then Ok(First(h.dev.tokens)) else Err(Timeout))
      && h'.dev.tokens == Rest(h.dev.tokens)
      && Logged(h', cs + [Next(|cs|, temperature, topP)])
    else h' == h && r.Err? && r.error.ValueError?
  }

  ghost predicate Steps(step: Stepper, patience: nat -> nat, temperature: real, topP: real) {
    forall h, cs :: Logged(h, cs) ==> StepsFrom(step, patience, h, cs, temperature, topP)
  }

  lemma GreedyStepsFrom(patience: nat -> nat, h: Host<Device>, cs: seq<Command>, temperature: real, topP: real)
    requires Logged(h, cs)
    ensures StepsFrom(Greedy(patience, temperature, topP), patience, h, cs, temperature, topP)
  {
    NextEncodes(|cs|, temperature, topP);
    if Encodable(temperature, topP) {
      var c := Next(|cs|, temperature, topP);
      var sent := Sent(Encode(c).value, true);
      SimSubmits(patience, h, c, sent);
      LogsOne(h, cs, c, sent, patience(|cs|) > 0);
    }
  }

  lemma GreedySteps(patience: nat -> nat, temperature: real, topP: real)
    ensures Steps(Greedy(patience, temperature, topP), patience, temperature, topP)
  {
    forall h, cs | Logged(h, cs)
      ensures StepsFrom(Greedy(patience, temperature, topP), patience, h, cs, temperature, topP)
    {
      GreedyStepsFrom(patience, h, cs, temperature, topP);
    }
  }

  /** How a drained token loop must end, its first command being number `from`. */
  ghost predicate Ended(patience: nat -> nat, from: nat, g: Generation, n: nat, encodable: bool) {
    && (forall t :: t in g.emitted ==> t !in STOP_TOKENS)
    && OnTime(patience, from, |TokensOf(g)|)
    && match g.outcome
       case Exhausted => |g.emitted| == n && (encodable || n == 0)
       case Stopped(t) => t in STOP_TOKENS && |g.emitted| < n && encodable
       case Raised(f) =>
         if encodable then f == Timeout && |g.emitted| < n && patience(from + |g.emitted|) == 0
         else f.ValueError? && g.emitted == [] && n > 0
  }

  /** These tokens are the device's stream from the k-th on. */
  ghost predicate Streamed(start: seq<Token>, k: nat, ts: seq<nat>) {
    forall i :: 0 <= i < |ts| ==> ts[i] == Stream(start, k + i)
  }

  lemma StreamedOn(start: seq<Token>, k: nat, t: nat, ts: seq<nat>)
    requires t == Stream(start, k) && Streamed(start, k + 1, ts)
    ensures Streamed(start, k, [t] + ts)
  {
    forall i | 0 <= i < |ts| + 1 ensures ([t] + ts)[i] == Stream(start, k + i) {
      if i > 0 { assert ts[i - 1] == Stream(start, k + 1 + (i - 1)); }
    }
  }

  /** How many tokens the token loop took from the device: the last one is lost if
      its command timed out. */
  function Taken(g: Generation): nat {
    |TokensOf(g)| + if g.outcome == Raised(Timeout) then 1 else 0
  }

  /** What the token loop did to a session: `cs` were logged and `k` tokens drawn
      before it. */
  ghost predicate Drawn(s: Session, t: Session, g: Generation, start: seq<Token>, k: nat, cs: seq<Command>,
                        temperature: real, topP: real) {
    && Logged(t.host, cs + NextCommands(|cs|, Taken(g), temperature, topP))
    && t.host.dev.tokens == Left(start, k + Taken(g)) && Streamed(start, k, TokensOf(g))
    && t.tokensTotal == s.tokensTotal + |g.emitted| && t.npuWeightsLoaded == s.npuWeightsLoaded
  }

  lemma DrawnNone(s: Session, t: Session, g: Generation, start: seq<Token>, k: nat, cs: seq<Command>,
                  temperature: real, topP: real)
    requires TokensOf(g) == [] && Taken(g) == 0 && Logged(t.host, cs) && t.host.dev.tokens == Left(start, k)
    requires t.tokensTotal == s.tokensTotal && t.npuWeightsLoaded == s.npuWeightsLoaded
    ensures Drawn(s, t, g, start, k, cs, temperature, topP)
  {
    assert cs + NextCommands(|cs|, 0, temperature, topP) == cs;
  }

  /** A last token, which stops the loop or is lost. */
  lemma DrawnOne(s: Session, t: Session, g: Generation, start: seq<Token>, k: nat, cs: seq<Command>,
                 temperature: real, topP: real)
    requires g == Generation([], Stopped(Stream(start, k))) || g == Generation([], Raised(Timeout))
    requires t.host.dev.tokens == Left(start, k + 1) && Logged(t.host, cs + [Next(|cs|, temperature, topP)])
    requires t.tokensTotal == s.tokensTotal && t.npuWeightsLoaded == s.npuWeightsLoaded
    ensures Drawn(s, t, g, start, k, cs, temperature, topP)
  {
    assert Taken(g) == 1;
    assert NextCommands(|cs|, 1, temperature, topP) == [Next(|cs|, temperature, topP)];
  }

  lemma DrawnMore(s: Session, t: Session, g: Generation, start: seq<Token>, k: nat, cs: seq<Command>,
                  cs1: seq<Command>, temperature: real, topP: real, s1: Session, token: nat, g1: Generation)
    requires token == Stream(start, k) && g == Generation([token] + g1.emitted, g1.outcome)
    requires s1.tokensTotal == s.tokensTotal + 1 && s1.npuWeightsLoaded == s.npuWeightsLoaded
    requires cs1 == cs + [Next(|cs|, temperature, topP)] && Drawn(s1, t, g1, start, k + 1, cs1, temperature, topP)
    ensures Drawn(s, t, g, start, k, cs, temperature, topP)
  {
    TokensMore(g, g1, token);
    StreamedOn(start, k, token, TokensOf(g1));
    NextHead(|cs|, Taken(g1), Taken(g), temperature, topP, cs, cs1);
  }

  lemma TokensMore(g: Generation, g1: Generation, token: nat)
    requires g == Generation([token] + g1.emitted, g1.outcome)
    ensures TokensOf(g) == [token] + TokensOf(g1) && Taken(g) == Taken(g1) + 1
  {
  }

  lemma EndedMore(patience: nat -> nat, from: nat, next: nat, token: nat, g: Generation, g1: Generation,
                  n: nat, left: nat)
    requires token !in STOP_TOKENS && n == left + 1 && next == from + 1 && patience(from) > 0
    requires Ended(patience, next, g1, left, true) && g == Generation([token] + g1.emitted, g1.outcome)
    ensures Ended(patience, from, g, n, true)
  {
    forall t | t in g.emitted ensures t !in STOP_TOKENS {
      assert t == token || t in g1.emitted;
    }
    TokensMore(g, g1, token);
    OnTimeFrom(patience, from, |TokensOf(g)|);
  }

  /** The end of a loop that draws no further token. */
  lemma EndedNow(patience: nat -> nat, from: nat, g: Generation, n: nat, encodable: bool)
    requires g.emitted == []
    requires g.outcome.Exhausted? ==> n == 0
    requires g.outcome.Stopped? ==> g.outcome.token in STOP_TOKENS && n > 0 && encodable && patience(from) > 0
    requires g.outcome.Raised? && encodable ==> n > 0 && g.outcome.failure == Timeout && patience(from) == 0
    requires g.outcome.Raised? && !encodable ==> n > 0 && g.outcome.failure.ValueError?
    ensures Ended(patience, from, g, n, encodable)
  {
  }

  /** Drawing stops here: no token is left to draw, the step fails, or it draws a stop
      token. */
  lemma DrawsLast(
      step: Stepper, patience: nat -> nat, s: Session, n: nat, start: seq<Token>, k: nat, cs: seq<Command>,
      temperature: real, topP: real, r: Result<nat, Failure>)
    requires StepsFrom(step, patience, s.host, cs, temperature, topP)
    requires Logged(s.host, cs) && s.host.dev.tokens == Left(start, k)
    requires r == step(s.host).1 && (n == 0 || r.Err? || r.value in STOP_TOKENS)
    ensures var (t, g) := Draw(step, s, n); Drawn(s, t, g, start, k, cs, temperature, topP)
  {
    var (t, g) := Draw(step, s, n);
    if n == 0 || !Encodable(temperature, topP) {
      DrawnNone(s, t, g, start, k, cs, temperature, topP);
    } else {
      DrawsNext(start, k);
      DrawnOne(s, t, g, start, k, cs, temperature, topP);
    }
  }

  lemma EndsLast(
      step: Stepper, patience: nat -> nat, s: Session, n: nat, cs: seq<Command>, temperature: real, topP: real,
      r: Result<nat, Failure>)
    requires StepsFrom(step, patience, s.host, cs, temperature, topP)
    requires r == step(s.host).1 && (n == 0 || r.Err? || r.value in STOP_TOKENS)
    ensures Ended(patience, |cs|, Draw(step, s, n).1, n, Encodable(temperature, topP))
  {
    EndedNow(patience, |cs|, Draw(step, s, n).1, n, Encodable(temperature, topP));
  }

  /** One more step of the loop. */
  lemma DrawsFirst(step: Stepper, s: Session, n: nat, left: nat, h: Host<Device>, token: nat, s1: Session)
    requires n == left + 1 && step(s.host) == (h, Ok(token)) && token !in STOP_TOKENS
    requires s1 == Session(h, s.npuWeightsLoaded, s.tokensTotal + 1)
    ensures Draw(step, s, n).0 == Draw(step, s1, left).0
    ensures var g1 := Draw(step, s1, left).1; Draw(step, s, n).1 == Generation([token] + g1.emitted, g1.outcome)
  {
  }

  /** What the whole loop did, from what it did after its first step. */
  lemma DrawsOn(
      step: Stepper, patience: nat -> nat, s: Session, n: nat, start: seq<Token>, k: nat, cs: seq<Command>,
      temperature: real, topP: real, left: nat, h: Host<Device>, token: nat, s1: Session, cs1: seq<Command>)
    requires n == left + 1 && step(s.host) == (h, Ok(token)) && token !in STOP_TOKENS
    requires s1 == Session(h, s.npuWeightsLoaded, s.tokensTotal + 1) && cs1 == cs + [Next(|cs|, temperature, topP)]
    requires token == Stream(start, k) && patience(|cs|) > 0
    requires var (t, g1) := Draw(step, s1, left);
      Drawn(s1, t, g1, start, k + 1, cs1, temperature, topP) && Ended(patience, |cs1|, g1, left, true)
    ensures var (t, g) := Draw(step, s, n);
      Drawn(s, t, g, start, k, cs, temperature, topP) && Ended(patience, |cs|, g, n, true)
  {
    DrawsFirst(step, s, n, left, h, token, s1);
    var (t, g1) := Draw(step, s1, left);
    var g := Draw(step, s, n).1;
    DrawnMore(s, t, g, start, k, cs, cs1, temperature, topP, s1, token, g1);
    EndedMore(patience, |cs|, |cs1|, token, g, g1, n, left);
  }

  lemma {:induction false} DrawsInOrder(
      step: Stepper, patience: nat -> nat, s: Session, n: nat, start: seq<Token>, k: nat, cs: seq<Command>,
      temperature: real, topP: real)
    requires Steps(step, patience, temperature, topP) && Logged(s.host, cs) && s.host.dev.tokens == Left(start, k)
    ensures var (t, g) := Draw(step, s, n);
      Drawn(s, t, g, start, k, cs, temperature, topP)
      && Ended(patience, |cs|, g, n, Encodable(temperature, topP))
    decreases n
  {
    assert StepsFrom(step, patience, s.host, cs, temperature, topP);
    var (h, r) := step(s.host);
    if n == 0 || r.Err? || r.value in STOP_TOKENS {
      DrawsLast(step, patience, s, n, start, k, cs, temperature, topP, r);
      EndsLast(step, patience, s, n, cs, temperature, topP, r);
    } else {
      DrawsNext(start, k);
      var s1 := Session(h, s.npuWeightsLoaded, s.tokensTotal + 1);
      var cs1 := cs + [Next(|cs|, temperature, topP)];
      DrawsInOrder(step, patience, s1, n - 1, start, k + 1, cs1, temperature, topP);
      DrawsOn(step, patience, s, n, start, k, cs, temperature, topP, n - 1, h, r.value, s1, cs1);
    }
  }

  /** The token loop: one NEXT_TOKEN per token drawn, the device's stream in order,
      and the end the drawn tokens and the deadlines call for. */
  lemma Draws(
      patience: nat -> nat, s: Session, n: nat, start: seq<Token>, k: nat, cs: seq<Command>,
      temperature: real, topP: real)
    requires Logged(s.host, cs) && s.host.dev.tokens == Left(start, k)
    ensures var (t, g) := Draw(Greedy(patience, temperature, topP), s, n);
      Drawn(s, t, g, start, k, cs, temperature, topP)
      && Ended(patience, |cs|, g, n, Encodable(temperature, topP))
  {
    GreedySteps(patience, temperature, topP);
    DrawsInOrder(Greedy(patience, temperature, topP), patience, s, n, start, k, cs, temperature, topP);
  }

  // ----- one generation

  /** What a generation sends before it draws, unless a command times out:
      LOAD_WEIGHT until it succeeded once in the session, RESET, and the prompt. */
  function Opening(loaded: bool, manifestId: nat, prompt: seq<int>): seq<Command> {
    Weighing(loaded, manifestId) + ([Reset(0)] + PromptCommands(prompt, 0, Loadable(prompt, 0)))
  }

  function Weighing(loaded: bool, manifestId: nat): seq<Command> {
    if loaded then [] else [LoadWeight(0, 0, 0, manifestId)]
  }

  /** The host after the LOAD_WEIGHT a session needs, if any. */
  function Weighed(patience: nat -> nat, manifestId: nat, s: Session): (Host<Device>, Option<Failure>) {
    if s.npuWeightsLoaded then (s.host, None) else LoadWeights(SIM, patience, s.host, manifestId)
  }

  lemma Weighs(patience: nat -> nat, manifestId: nat, s: Session, cs: seq<Command>)
    requires Known(manifestId) && Logged(s.host, cs)
    ensures var (h, f) := Weighed(patience, manifestId, s);
      && Sends(patience, s.host, h, f, cs, Weighing(s.npuWeightsLoaded, manifestId), true)
      && (f.None? <==> s.npuWeightsLoaded || patience(|cs|) > 0)
  {
    if s.npuWeightsLoaded {
      SendsNone(patience, s.host, None, cs, true);
    } else {
      LoadsWeights(patience, manifestId, s.host, cs);
      OnTimeFrom(patience, |cs|, 1);
    }
  }

  lemma Restarts(patience: nat -> nat, h: Host<Device>, cs: seq<Command>, prompt: seq<int>, n: nat)
    requires Logged(h, cs) && n == Loadable(prompt, 0)
    ensures var (h', f) := InitActivation(SIM, patience, h, prompt);
      Sends(patience, h, h', f, cs, [Reset(0)] + PromptCommands(prompt, 0, n), n == |prompt|)
  {
    var (h1, f1) := ResetKv(SIM, patience, h, 0);
    var (h2, f2) := InitActivation(SIM, patience, h, prompt);
    Resets(patience, h, cs, 0);
    if f1.None? {
      WholeSent(patience, h, h1, cs, [Reset(0)]);
      LoadsPrompt(patience, h1, cs + [Reset(0)], prompt, 0);
    }
    SendsMore(patience, h, h1, h2, f1, f2, cs, [Reset(0)], cs + [Reset(0)], PromptCommands(prompt, 0, n),
              [Reset(0)] + PromptCommands(prompt, 0, n), n == |prompt|);
  }

  /** `Prepare`, in the two parts. */
  lemma PrepareIs(
      patience: nat -> nat, manifestId: nat, s: Session, prompt: seq<int>, h: Host<Device>, f: Option<Failure>)
    requires (h, f) == Weighed(patience, manifestId, s)
    ensures Prepare(patience, manifestId, s, prompt)
         == if f.Some? then (Session(h, s.npuWeightsLoaded, s.tokensTotal), f)
            else var (h', f') := InitActivation(SIM, patience, h, prompt); (Session(h', true, s.tokensTotal), f')
  {
  }

  predicate Loads(prompt: seq<int>) {
    Loadable(prompt, 0) == |prompt|
  }

  ghost predicate Prepared(patience: nat -> nat, s: Session, s': Session, f: Option<Failure>, manifestId: nat,
                           prompt: seq<int>, cs: seq<Command>) {
    && Sends(patience, s.host, s'.host, f, cs, Opening(s.npuWeightsLoaded, manifestId, prompt), Loads(prompt))
    && s'.npuWeightsLoaded == (s.npuWeightsLoaded || patience(|cs|) > 0) && s'.tokensTotal == s.tokensTotal
  }

  lemma Prepares(patience: nat -> nat, manifestId: nat, s: Session, cs: seq<Command>, prompt: seq<int>)
    requires Known(manifestId) && Logged(s.host, cs)
    ensures var (s', f) := Prepare(patience, manifestId, s, prompt);
      Prepared(patience, s, s', f, manifestId, prompt, cs)
  {
    var (h1, f1) := Weighed(patience, manifestId, s);
    var (h2, f2) := if f1.Some? then (h1, f1) else InitActivation(SIM, patience, h1, prompt);
    PrepareIs(patience, manifestId, s, prompt, h1, f1);
    Weighs(patience, manifestId, s, cs);
    PrepareSends(patience, manifestId, s, cs, prompt, h1, f1, h2, f2);
  }

  lemma PrepareSends(patience: nat -> nat, manifestId: nat, s: Session, cs: seq<Command>, prompt: seq<int>,
                     h1: Host<Device>, f1: Option<Failure>, h2: Host<Device>, f2: Option<Failure>)
    requires Sends(patience, s.host, h1, f1, cs, Weighing(s.npuWeightsLoaded, manifestId), true)
    requires (h2, f2) == if f1.Some? then (h1, f1) else InitActivation(SIM, patience, h1, prompt)
    ensures Sends(patience, s.host, h2, f2, cs, Opening(s.npuWeightsLoaded, manifestId, prompt), Loads(prompt))
  {
    var a, b := Weighing(s.npuWeightsLoaded, manifestId), [Reset(0)] + PromptCommands(prompt, 0, Loadable(prompt, 0));
    if f1.None? {
      WholeSent(patience, s.host, h1, cs, a);
      Restarts(patience, h1, cs + a, prompt, Loadable(prompt, 0));
    }
    SendsMore(patience, s.host, h1, h2, f1, f2, cs, a, cs + a, b, a + b, Loads(prompt));
  }

  /** Where a session stands: whether its weights are loaded, the commands logged, and
      how many tokens were drawn. */
  datatype Point = Point(loaded: bool, script: seq<Command>, drawn: nat)

  ghost predicate At(s: Session, start: seq<Token>, p: Point) {
    && Logged(s.host, p.script) && s.host.dev.tokens == Left(start, p.drawn) && s.npuWeightsLoaded == p.loaded
  }

  /** All commands before the first NEXT_TOKEN are in time. */
  ghost predicate Opens(patience: nat -> nat, manifestId: nat, p: Point, r: Request) {
    OnTime(patience, |p.script|, |Opening(p.loaded, manifestId, Prompt(r))|)
  }

  /** The point a generation leads to: the opening is cut after the first command that
      times out; then one NEXT_TOKEN for each token taken. */
  ghost function Onward(patience: nat -> nat, manifestId: nat, p: Point, r: Request, g: Generation): Point {
    var opening := Opening(p.loaded, manifestId, Prompt(r));
    var sent := p.script + opening[..Sendable(patience, |p.script|, |opening|)];
    var n := if Opens(patience, manifestId, p, r) then Taken(g) else 0;
    Point(p.loaded || patience(|p.script|) > 0, sent + NextCommands(|sent|, n, r.temperature, r.topP), p.drawn + n)
  }

  /** How a drained generation must end: a command of the opening that times out raises,
      and so does a prompt or a setting without an encoding; otherwise the token loop
      decides. */
  ghost predicate Proper(patience: nat -> nat, manifestId: nat, p: Point, r: Request, g: Generation) {
    if !Opens(patience, manifestId, p, r) then g == Generation([], Raised(Timeout))
    else if !Loads(Prompt(r)) then g.outcome.Raised? && g.outcome.failure.ValueError? && g.emitted == []
    else Ended(patience, |p.script| + |Opening(p.loaded, manifestId, Prompt(r))|, g, Limit(r),
               Encodable(r.temperature, r.topP))
  }

  /** What a generation did to a session that stood at p. */
  ghost predicate Generated(patience: nat -> nat, manifestId: nat, s: Session, t: Session, r: Request, g: Generation,
                            start: seq<Token>, p: Point) {
    && At(t, start, Onward(patience, manifestId, p, r, g)) && t.tokensTotal == s.tokensTotal + |g.emitted|
    && Streamed(start, p.drawn, TokensOf(g)) && Proper(patience, manifestId, p, r, g)
  }

  /** A generation that fails before it draws. */
  lemma OpensOnly(patience: nat -> nat, manifestId: nat, s: Session, t: Session, r: Request, f: Failure,
                  start: seq<Token>, p: Point)
    requires At(s, start, p) && Prepared(patience, s, t, Some(f), manifestId, Prompt(r), p.script)
    ensures Generated(patience, manifestId, s, t, r, Generation([], Raised(f)), start, p)
  {
    var g := Generation([], Raised(f));
    var opening := Opening(p.loaded, manifestId, Prompt(r));
    var sent := p.script + opening[..Sendable(patience, |p.script|, |opening|)];
    assert sent + NextCommands(|sent|, 0, r.temperature, r.topP) == sent;
    assert Opens(patience, manifestId, p, r) ==> Taken(g) == 0;
  }

  lemma OpensAndDraws(patience: nat -> nat, manifestId: nat, s: Session, s': Session, t: Session, r: Request,
                      g: Generation, start: seq<Token>, p: Point, cs: seq<Command>)
    requires At(s, start, p) && Prepared(patience, s, s', None, manifestId, Prompt(r), p.script)
    requires cs == p.script + Opening(p.loaded, manifestId, Prompt(r))
    requires Drawn(s', t, g, start, p.drawn, cs, r.temperature, r.topP)
    requires Ended(patience, |cs|, g, Limit(r), Encodable(r.temperature, r.topP))
    ensures Generated(patience, manifestId, s, t, r, g, start, p)
  {
    var opening := Opening(p.loaded, manifestId, Prompt(r));
    assert opening[..|opening|] == opening;
  }

  /** `Generate`, after its preparation. */
  lemma GenerateIs(patience: nat -> nat, manifestId: nat, s: Session, r: Request, s': Session, f: Option<Failure>)
    requires (s', f) == Prepare(patience, manifestId, s, Prompt(r))
    ensures Generate(patience, manifestId, s, r)
         == if f.Some? then (s', Generation([], Raised(f.value)))
            else Draw(Greedy(patience, r.temperature, r.topP), s', Limit(r))
  {
  }

  lemma PreparedGenerates(
      patience: nat -> nat, manifestId: nat, s: Session, r: Request, start: seq<Token>, p: Point,
      s': Session, f: Option<Failure>, whole: (Session, Generation))
    requires At(s, start, p) && Prepared(patience, s, s', f, manifestId, Prompt(r), p.script)
    requires whole == if f.Some? then (s', Generation([], Raised(f.value)))
                      else Draw(Greedy(patience, r.temperature, r.topP), s', Limit(r))
    ensures Generated(patience, manifestId, s, whole.0, r, whole.1, start, p)
  {
    if f.Some? {
      OpensOnly(patience, manifestId, s, s', r, f.value, start, p);
    } else {
      var opening := Opening(p.loaded, manifestId, Prompt(r));
      WholeSent(patience, s.host, s'.host, p.script, opening);
      var cs := p.script + opening;
      Draws(patience, s', Limit(r), start, p.drawn, cs, r.temperature, r.topP);
      OpensAndDraws(patience, manifestId, s, s', whole.0, r, whole.1, start, p, cs);
    }
  }

  lemma Generates(patience: nat -> nat, manifestId: nat, s: Session, r: Request, start: seq<Token>, p: Point)
    requires Known(manifestId) && At(s, start, p)
    ensures var whole := Generate(patience, manifestId, s, r);
      Generated(patience, manifestId, s, whole.0, r, whole.1, start, p)
  {
    Prepares(patience, manifestId, s, p.script, Prompt(r));
    var (s', f) := Prepare(patience, manifestId, s, Prompt(r));
    GenerateIs(patience, manifestId, s, r, s', f);
    PreparedGenerates(patience, manifestId, s, r, start, p, s', f, Generate(patience, manifestId, s, r));
  }

  // ----- any number of generations

  type Generating = (Session, Request) -> (Session, Generation)

  function Generator(patience: nat -> nat, manifestId: nat): Generating {
    (s, r) => Generate(patience, manifestId, s, r)
  }

  /** Generations drained one after another on a new session. */
  function Runs(gen: Generating, tokens: seq<int>, rs: seq<Request>): (r: (Session, seq<Generation>))
    ensures |r.1| == |rs|
  {
    if rs == [] then (NewSession(tokens), [])
    else
      var (s, gs) := Runs(gen, tokens, rs[..|rs| - 1]);
      var (t, g) := gen(s, rs[|rs| - 1]);
      (t, gs + [g])
  }

  ghost predicate GeneratesFrom(gen: Generating, patience: nat -> nat, manifestId: nat, s: Session, r: Request,
                                start: seq<Token>, p: Point) {
    var (t, g) := gen(s, r);
    Generated(patience, manifestId, s, t, r, g, start, p)
  }

  /** Every generation does to its session what `Generated` says. */
  ghost predicate Lawful(gen: Generating, patience: nat -> nat, manifestId: nat) {
    forall s: Session, r, start, p ::
      At(s, start, p) ==> GeneratesFrom(gen, patience, manifestId, s, r, start, p)
  }

  lemma GeneratorIsLawful(patience: nat -> nat, manifestId: nat)
    requires Known(manifestId)
    ensures Lawful(Generator(patience, manifestId), patience, manifestId)
  {
    forall s: Session, r, start, p | At(s, start, p)
      ensures GeneratesFrom(Generator(patience, manifestId), patience, manifestId, s, r, start, p)
    {
      Generates(patience, manifestId, s, r, start, p);
    }
  }

  /** Where a session stands after the generations `gs`. */
  ghost function Reached(patience: nat -> nat, manifestId: nat, rs: seq<Request>, gs: seq<Generation>): Point
    requires |rs| == |gs|
  {
    if rs == [] then Point(false, [], 0)
    else
      var n := |rs| - 1;
      Onward(patience, manifestId, Reached(patience, manifestId, rs[..n], gs[..n]), rs[n], gs[n])
  }

  function AllEmitted(gs: seq<Generation>): seq<nat> {
    if gs == [] then [] else AllEmitted(gs[..|gs| - 1]) + gs[|gs| - 1].emitted
  }

  /** Generation i took its tokens from where the ones before it left the device's
      stream, and ended as it must. */
  ghost predicate Went(patience: nat -> nat, manifestId: nat, start: seq<Token>, rs: seq<Request>,
                       gs: seq<Generation>, i: nat)
    requires |rs| == |gs| && i < |gs|
  {
    var p := Reached(patience, manifestId, rs[..i], gs[..i]);
    Streamed(start, p.drawn, TokensOf(gs[i])) && Proper(patience, manifestId, p, rs[i], gs[i])
  }

  /** The session after the generations `gs`. */
  ghost predicate After(s: Session, patience: nat -> nat, manifestId: nat, start: seq<Token>, rs: seq<Request>,
                        gs: seq<Generation>)
    requires |rs| == |gs|
  {
    && At(s, start, Reached(patience, manifestId, rs, gs)) && s.tokensTotal == |AllEmitted(gs)|
    && forall i :: 0 <= i < |gs| ==> Went(patience, manifestId, start, rs, gs, i)
  }

  lemma WentMore(patience: nat -> nat, manifestId: nat, start: seq<Token>, rs: seq<Request>, gs: seq<Generation>,
                 allRs: seq<Request>, allGs: seq<Generation>, i: nat)
    requires |rs| == |gs| && |allRs| == |allGs| && rs <= allRs && gs <= allGs && i < |gs|
    ensures Went(patience, manifestId, start, allRs, allGs, i) <==> Went(patience, manifestId, start, rs, gs, i)
  {
    assert allRs[..i] == rs[..i] && allGs[..i] == gs[..i];
  }

  lemma Extends(patience: nat -> nat, manifestId: nat, rs: seq<Request>, gs: seq<Generation>, r: Request,
                g: Generation, allRs: seq<Request>, allGs: seq<Generation>)
    requires |rs| == |gs| && allRs == rs + [r] && allGs == gs + [g]
    ensures allRs[..|rs|] == rs && allGs[..|rs|] == gs && AllEmitted(allGs) == AllEmitted(gs) + g.emitted
    ensures Reached(patience, manifestId, allRs, allGs)
         == Onward(patience, manifestId, Reached(patience, manifestId, rs, gs), r, g)
  {
    assert allRs[..|rs|] == rs && allGs[..|rs|] == gs;
  }

  lemma OneMore(
      patience: nat -> nat, manifestId: nat, start: seq<Token>, rs: seq<Request>, gs: seq<Generation>,
      s: Session, r: Request, t: Session, g: Generation, allRs: seq<Request>, allGs: seq<Generation>)
    requires |rs| == |gs| && After(s, patience, manifestId, start, rs, gs)
    requires allRs == rs + [r] && allGs == gs + [g]
    requires Generated(patience, manifestId, s, t, r, g, start, Reached(patience, manifestId, rs, gs))
    ensures After(t, patience, manifestId, start, allRs, allGs)
  {
    Extends(patience, manifestId, rs, gs, r, g, allRs, allGs);
    forall i | 0 <= i < |allGs| ensures Went(patience, manifestId, start, allRs, allGs, i) {
      if i < |gs| { WentMore(patience, manifestId, start, rs, gs, allRs, allGs, i); }
    }
  }

  lemma RunsMore(gen: Generating, tokens: seq<int>, rs: seq<Request>, r: Request, all: seq<Request>)
    requires all == rs + [r]
    ensures var before, after := Runs(gen, tokens, rs), Runs(gen, tokens, all);
      after.0 == gen(before.0, r).0 && after.1 == before.1 + [gen(before.0, r).1]
  {
    assert all[..|all| - 1] == rs;
  }

  lemma NewIs(tokens: seq<int>)
    ensures At(NewSession(tokens), InitialTokens(tokens), Point(false, [], 0))
    ensures NewSession(tokens).tokensTotal == 0
  {
  }

  lemma {:induction false} RunsKeep(
      gen: Generating, patience: nat -> nat, manifestId: nat, tokens: seq<int>, rs: seq<Request>)
    requires Lawful(gen, patience, manifestId)
    ensures var run := Runs(gen, tokens, rs); After(run.0, patience, manifestId, InitialTokens(tokens), rs, run.1)
  {
    if rs == [] {
      NewIs(tokens);
    } else {
      var before, r := rs[..|rs| - 1], rs[|rs| - 1];
      RunsKeep(gen, patience, manifestId, tokens, before);
      RunsMore(gen, tokens, before, r, rs);
      var (s, gs) := Runs(gen, tokens, before);
      var run := Runs(gen, tokens, rs);
      assert GeneratesFrom(gen, patience, manifestId, s, r, InitialTokens(tokens),
                           Reached(patience, manifestId, before, gs));
      OneMore(patience, manifestId, InitialTokens(tokens), before, gs, s, r, run.0, gen(s, r).1, rs, run.1);
    }
  }

  /** For every sequence of drained generations on one session, whichever commands time
      out: the device's decoded command log is their scripts one after another; each
      generation takes its tokens from where the ones before it left the device's
      stream, a time-out losing exactly one; the token counter counts the yields; and
      every generation ends as its request, tokens and deadlines call for. */
  lemma EveryRun(patience: nat -> nat, manifestId: nat, tokens: seq<int>, rs: seq<Request>)
    requires Known(manifestId)
    ensures var (s, gs) := Runs(Generator(patience, manifestId), tokens, rs);
      var p := Reached(patience, manifestId, rs, gs);
      && Logged(s.host, p.script) && s.host.dev.tokens == Left(InitialTokens(tokens), p.drawn)
      && s.npuWeightsLoaded == p.loaded && s.tokensTotal == |AllEmitted(gs)|
      && forall i :: 0 <= i < |rs| ==> Went(patience, manifestId, InitialTokens(tokens), rs, gs, i)
  {
    GeneratorIsLawful(patience, manifestId);
    RunsKeep(Generator(patience, manifestId), patience, manifestId, tokens, rs);
  }

  // ----- runs without time-outs

  /** Every deadline leaves room for a status read. */
  ghost predicate Patient(patience: nat -> nat) {
    forall i :: patience(i) > 0
  }

  function AllTokens(gs: seq<Generation>): seq<nat> {
    if gs == [] then [] else AllTokens(gs[..|gs| - 1]) + TokensOf(gs[|gs| - 1])
  }

  lemma StreamedBoth(start: seq<Token>, a: seq<nat>, b: seq<nat>, all: seq<nat>)
    requires Streamed(start, 0, a) && Streamed(start, |a|, b) && all == a + b
    ensures Streamed(start, 0, all) && |all| == |a| + |b|
  {
    forall i | 0 <= i < |all| ensures all[i] == Stream(start, 0 + i) {
      if i >= |a| { assert b[i - |a|] == Stream(start, |a| + (i - |a|)); }
    }
  }

  lemma NothingLost(patience: nat -> nat, manifestId: nat, p: Point, r: Request, g: Generation)
    requires Patient(patience) && Proper(patience, manifestId, p, r, g)
    ensures var q := Onward(patience, manifestId, p, r, g); q.drawn == p.drawn + |TokensOf(g)| && q.loaded
    ensures g.outcome != Raised(Timeout)
  {
  }

  lemma {:induction false} NoneLost(patience: nat -> nat, manifestId: nat, start: seq<Token>, rs: seq<Request>,
                                    gs: seq<Generation>)
    requires Patient(patience) && |rs| == |gs|
    requires forall i :: 0 <= i < |gs| ==> Went(patience, manifestId, start, rs, gs, i)
    ensures var p := Reached(patience, manifestId, rs, gs); p.drawn == |AllTokens(gs)| && p.loaded == (|rs| > 0)
    ensures Streamed(start, 0, AllTokens(gs))
  {
    if rs != [] {
      var n := |rs| - 1;
      forall i | 0 <= i < n ensures Went(patience, manifestId, start, rs[..n], gs[..n], i) {
        WentMore(patience, manifestId, start, rs[..n], gs[..n], rs, gs, i);
      }
      NoneLost(patience, manifestId, start, rs[..n], gs[..n]);
      assert Went(patience, manifestId, start, rs, gs, n);
      NothingLost(patience, manifestId, Reached(patience, manifestId, rs[..n], gs[..n]), rs[n], gs[n]);
      StreamedBoth(start, AllTokens(gs[..n]), TokensOf(gs[n]), AllTokens(gs));
    }
  }

  /** If no command times out, the yielded tokens together with the stop tokens that
      ended generations are the device's token stream, in order and without a gap, and
      LOAD_WEIGHT is sent once. */
  lemma PatientRun(patience: nat -> nat, manifestId: nat, tokens: seq<int>, rs: seq<Request>)
    requires Patient(patience) && Known(manifestId)
    ensures var gs := Runs(Generator(patience, manifestId), tokens, rs).1;
      && Streamed(InitialTokens(tokens), 0, AllTokens(gs))
      && Reached(patience, manifestId, rs, gs).drawn == |AllTokens(gs)|
      && Reached(patience, manifestId, rs, gs).loaded == (|rs| > 0)
  {
    EveryRun(patience, manifestId, tokens, rs);
    NoneLost(patience, manifestId, InitialTokens(tokens), rs, Runs(Generator(patience, manifestId), tokens, rs).1);
  }

  // ----- in terms of the requests that were made

  /** The prompt has an encoding. */
  ghost predicate PromptFits(r: Request) {
    |r.prompt| <= 0x100_0000 && forall t :: t in r.prompt ==> 0 <= t < 0x1_0000_0000
  }

  function IdCount(r: Request): nat {
    if r.prompt == [] then 1 else |r.prompt|
  }

  function IdAt(r: Request, h: nat): int
    requires h < IdCount(r)
  {
    if r.prompt == [] then 0 else r.prompt[h]
  }

  lemma {:induction false} AllLoadable(prompt: seq<int>, position: nat)
    requires position <= |prompt| <= 0x100_0000 && forall t :: t in prompt ==> 0 <= t < 0x1_0000_0000
    ensures Loadable(prompt, position) == |prompt|
    decreases |prompt| - position
  {
    if position < |prompt| {
      assert prompt[position] in prompt;
      AllLoadable(prompt, position + 1);
    }
  }

  /** From `at` to `end` a list of commands holds what this request asks for. */
  ghost predicate Section(cs: seq<Command>, at: nat, end: nat, r: Request) {
    && at + 1 + IdCount(r) <= end <= |cs|
    && cs[at] == Reset(0)
    && (forall k :: at < k <= at + IdCount(r) ==> cs[k] == LoadPrompt(k - at - 1, IdAt(r, k - at - 1)))
    && (forall k :: at + IdCount(r) < k < end ==> cs[k] == Numbered(k, r))
  }

  /** The greedy NEXT_TOKEN that stands at place k of the log. */
  function Numbered(k: nat, r: Request): Command {
    NextToken(k % 0x1_0000, 0, Round(r.temperature * 256.0), Round(r.topP * 256.0))
  }

  lemma OpeningIs(loaded: bool, manifestId: nat, r: Request)
    requires PromptFits(r)
    ensures Opening(loaded, manifestId, Prompt(r))
         == Weighing(loaded, manifestId) + ([Reset(0)] + seq(IdCount(r), h requires 0 <= h < IdCount(r) =>
                                                               LoadPrompt(h, IdAt(r, h))))
    ensures Loads(Prompt(r))
  {
    AllLoadable(Prompt(r), 0);
  }

  lemma SectionMade(cs: seq<Command>, weights: seq<Command>, at: nat, ids: seq<Command>, from: nat,
                    nexts: seq<Command>, all: seq<Command>, r: Request)
    requires at == |cs| + |weights| && all == cs + (weights + ([Reset(0)] + ids)) + nexts
    requires |ids| == IdCount(r) && forall h :: 0 <= h < |ids| ==> ids[h] == LoadPrompt(h, IdAt(r, h))
    requires from == at + 1 + |ids| && forall h :: 0 <= h < |nexts| ==> nexts[h] == Numbered(from + h, r)
    ensures Section(all, at, |all|, r)
  {
    forall k | at < k <= at + IdCount(r) ensures all[k] == LoadPrompt(k - at - 1, IdAt(r, k - at - 1)) {
      assert all[k] == ids[k - at - 1];
    }
    forall k | at + IdCount(r) < k < |all| ensures all[k] == Numbered(k, r) {
      assert all[k] == nexts[k - from];
    }
  }

  lemma NextsNumbered(from: nat, n: nat, r: Request)
    ensures forall h :: 0 <= h < n ==> NextCommands(from, n, r.temperature, r.topP)[h] == Numbered(from + h, r)
  {
    forall h | 0 <= h < n ensures NextCommands(from, n, r.temperature, r.topP)[h] == Numbered(from + h, r) {
      assert NextCommands(from, n, r.temperature, r.topP)[h] == Next(from + h, r.temperature, r.topP);
    }
  }

  /** The section a generation adds. */
  lemma OnwardAdds(patience: nat -> nat, manifestId: nat, p: Point, r: Request, g: Generation, at: nat)
    requires Patient(patience) && Proper(patience, manifestId, p, r, g) && PromptFits(r)
    requires at == |p.script| + if p.loaded then 0 else 1
    ensures var cs := Onward(patience, manifestId, p, r, g).script;
      && Section(cs, at, |cs|, r) && |cs| == at + 1 + IdCount(r) + |TokensOf(g)| && p.script <= cs
      && (!p.loaded ==> cs[|p.script|] == LoadWeight(0, 0, 0, manifestId))
  {
    var o := Opening(p.loaded, manifestId, Prompt(r));
    OnwardIs(patience, manifestId, p, r, g, o);
    ScriptAdds(p.script, p.loaded, manifestId, r, |TokensOf(g)|, at, o);
  }

  lemma OnwardIs(patience: nat -> nat, manifestId: nat, p: Point, r: Request, g: Generation, o: seq<Command>)
    requires Patient(patience) && Proper(patience, manifestId, p, r, g) && PromptFits(r)
    requires o == Opening(p.loaded, manifestId, Prompt(r))
    ensures Onward(patience, manifestId, p, r, g).script
         == p.script + o + NextCommands(|p.script + o|, |TokensOf(g)|, r.temperature, r.topP)
  {
    NothingLost(patience, manifestId, p, r, g);
    assert o[..|o|] == o;
  }

  lemma ScriptAdds(cs: seq<Command>, loaded: bool, manifestId: nat, r: Request, n: nat, at: nat, o: seq<Command>)
    requires PromptFits(r) && at == |cs| + (if loaded then 0 else 1)
    requires o == Opening(loaded, manifestId, Prompt(r))
    ensures var all := cs + o + NextCommands(|cs + o|, n, r.temperature, r.topP);
      && Section(all, at, |all|, r) && |all| == at + 1 + IdCount(r) + n && cs <= all
      && (!loaded ==> all[|cs|] == LoadWeight(0, 0, 0, manifestId))
  {
    OpeningIs(loaded, manifestId, r);
    var ids := seq(IdCount(r), h requires 0 <= h < IdCount(r) => LoadPrompt(h, IdAt(r, h)));
    var from := |cs + o|;
    var nexts := NextCommands(from, n, r.temperature, r.topP);
    NextsNumbered(from, n, r);
    SectionMade(cs, Weighing(loaded, manifestId), at, ids, from, nexts, cs + o + nexts, r);
  }

  /** Where the RESET of generation i is logged: after one LOAD_WEIGHT and all commands of
      the generations before. */
  function ResetAt(rs: seq<Request>, gs: seq<Generation>, i: nat): nat
    requires |rs| == |gs| && i <= |rs|
  {
    if i == 0 then 1 else ResetAt(rs, gs, i - 1) + 1 + IdCount(rs[i - 1]) + |TokensOf(gs[i - 1])|
  }

  /** How many tokens the generations before i took. */
  function TakenBefore(gs: seq<Generation>, i: nat): nat
    requires i <= |gs|
  {
    if i == 0 then 0 else TakenBefore(gs, i - 1) + |TokensOf(gs[i - 1])|
  }

  lemma ReachedMore(patience: nat -> nat, manifestId: nat, rs: seq<Request>, gs: seq<Generation>, i: nat, n: nat)
    requires |rs| == |gs| && n == i + 1 <= |rs|
    ensures Reached(patience, manifestId, rs[..n], gs[..n])
         == Onward(patience, manifestId, Reached(patience, manifestId, rs[..i], gs[..i]), rs[i], gs[i])
  {
    assert rs[..n][..i] == rs[..i] && gs[..n][..i] == gs[..i];
  }

  /** A patient run before generation i. */
  ghost predicate Stands(p: Point, manifestId: nat, rs: seq<Request>, gs: seq<Generation>, i: nat)
    requires |rs| == |gs| && i <= |rs|
  {
    && p.loaded == (i > 0) && p.drawn == TakenBefore(gs, i)
    && |p.script| == (if i > 0 then ResetAt(rs, gs, i) else 0)
    && (i > 0 ==> |p.script| > 0 && p.script[0] == LoadWeight(0, 0, 0, manifestId))
  }

  lemma StandsNext(patience: nat -> nat, manifestId: nat, p: Point, rs: seq<Request>, gs: seq<Generation>,
                   i: nat, n: nat, q: Point)
    requires Patient(patience) && |rs| == |gs| && n == i + 1 <= |rs| && PromptFits(rs[i])
    requires Stands(p, manifestId, rs, gs, i) && Proper(patience, manifestId, p, rs[i], gs[i])
    requires q == Onward(patience, manifestId, p, rs[i], gs[i])
    ensures Stands(q, manifestId, rs, gs, n) && p.script <= q.script
    ensures Section(q.script, ResetAt(rs, gs, i), ResetAt(rs, gs, n), rs[i])
  {
    NothingLost(patience, manifestId, p, rs[i], gs[i]);
    OnwardAdds(patience, manifestId, p, rs[i], gs[i], ResetAt(rs, gs, i));
  }

  lemma SectionKept(cs: seq<Command>, all: seq<Command>, at: nat, end: nat, r: Request)
    requires Section(cs, at, end, r) && cs <= all
    ensures Section(all, at, end, r)
  {
  }

  /** Before generation n, with the sections of all generations before it. */
  lemma {:induction false} PatientPoint(patience: nat -> nat, manifestId: nat, start: seq<Token>, rs: seq<Request>,
                                        gs: seq<Generation>, n: nat)
    requires Patient(patience) && |rs| == |gs| && n <= |rs| && (forall h :: 0 <= h < |rs| ==> PromptFits(rs[h]))
    requires forall h :: 0 <= h < |gs| ==> Went(patience, manifestId, start, rs, gs, h)
    ensures var p := Reached(patience, manifestId, rs[..n], gs[..n]);
      && Stands(p, manifestId, rs, gs, n)
      && forall i: nat :: i < n ==> Section(p.script, ResetAt(rs, gs, i), ResetAt(rs, gs, i + 1), rs[i])
  {
    if n > 0 {
      var k := n - 1;
      var p, q := Reached(patience, manifestId, rs[..k], gs[..k]), Reached(patience, manifestId, rs[..n], gs[..n]);
      PatientPoint(patience, manifestId, start, rs, gs, k);
      ReachedMore(patience, manifestId, rs, gs, k, n);
      assert Went(patience, manifestId, start, rs, gs, k);
      StandsNext(patience, manifestId, p, rs, gs, k, n, q);
      forall i: nat | i < n ensures Section(q.script, ResetAt(rs, gs, i), ResetAt(rs, gs, i + 1), rs[i]) {
        if i < k { SectionKept(p.script, q.script, ResetAt(rs, gs, i), ResetAt(rs, gs, i + 1), rs[i]); }
      }
    }
  }

  lemma WholeSection(patience: nat -> nat, manifestId: nat, start: seq<Token>, rs: seq<Request>,
                     gs: seq<Generation>, i: nat)
    requires Patient(patience) && |rs| == |gs| && i < |rs| && (forall h :: 0 <= h < |rs| ==> PromptFits(rs[h]))
    requires forall h :: 0 <= h < |gs| ==> Went(patience, manifestId, start, rs, gs, h)
    ensures var cs := Reached(patience, manifestId, rs, gs).script;
      && |cs| == ResetAt(rs, gs, |rs|) && cs[0] == LoadWeight(0, 0, 0, manifestId)
      && Section(cs, ResetAt(rs, gs, i), ResetAt(rs, gs, i + 1), rs[i])
  {
    assert rs[..|rs|] == rs && gs[..|rs|] == gs;
    PatientPoint(patience, manifestId, start, rs, gs, |rs|);
  }

  /** The device logged one LOAD_WEIGHT first, and between `at` and `end`, in the terms of
      the request: RESET, its prompt ids at positions 0, 1, 2 and so on (0 alone for an
      empty prompt), and then nothing but greedy NEXT_TOKENs numbered by their place. */
  ghost predicate LogsRequest(log: seq<nat>, manifestId: nat, at: nat, end: nat, r: Request) {
    && at + 1 + IdCount(r) <= end <= |log| && Decode(log[0]) == Ok(LoadWeight(0, 0, 0, manifestId))
    && Decode(log[at]) == Ok(Reset(0))
    && (forall k :: at < k <= at + IdCount(r) ==>
          Decode(log[k]) == Ok(LoadPrompt(k - at - 1, if r.prompt == [] then 0 else r.prompt[k - at - 1])))
    && (forall k :: at + IdCount(r) < k < end ==>
          Decode(log[k]) == Ok(NextToken(k % 0x1_0000, 0, Round(r.temperature * 256.0), Round(r.topP * 256.0))))
  }

  lemma SectionLogged(h: Host<Device>, cs: seq<Command>, manifestId: nat, at: nat, end: nat, r: Request)
    requires Logged(h, cs) && Section(cs, at, end, r) && cs[0] == LoadWeight(0, 0, 0, manifestId)
    ensures LogsRequest(h.dev.commands, manifestId, at, end, r)
  {
  }

  /** In a run in which no command times out and every prompt has an encoding, the log is
      one LOAD_WEIGHT followed by what the requests ask for, one after another, each with
      one NEXT_TOKEN for each token it took. */
  lemma RequestsLogged(patience: nat -> nat, manifestId: nat, tokens: seq<int>, rs: seq<Request>, i: nat)
    requires Patient(patience) && Known(manifestId) && (forall h :: 0 <= h < |rs| ==> PromptFits(rs[h])) && i < |rs|
    ensures var (s, gs) := Runs(Generator(patience, manifestId), tokens, rs);
      var at := ResetAt(rs, gs, i);
      && |s.host.dev.commands| == ResetAt(rs, gs, |rs|)
      && LogsRequest(s.host.dev.commands, manifestId, at, ResetAt(rs, gs, i + 1), rs[i])
      && ResetAt(rs, gs, i + 1) == at + 1 + IdCount(rs[i]) + |TokensOf(gs[i])|
  {
    var gen := Generator(patience, manifestId);
    EveryRun(patience, manifestId, tokens, rs);
    var (s, gs) := Runs(gen, tokens, rs);
    WholeSection(patience, manifestId, InitialTokens(tokens), rs, gs, i);
    SectionLogged(s.host, Reached(patience, manifestId, rs, gs).script, manifestId, ResetAt(rs, gs, i),
                  ResetAt(rs, gs, i + 1), rs[i]);
  }

  /** The answer to a request: the tokens it took are the simulator's, cut to 32 bits and
      followed by ones, from number k on; it yields at most what the request allows,
      never 1 or 106, and less only because it drew one of them. */
  ghost predicate Answers(tokens: seq<int>, k: nat, r: Request, g: Generation) {
    && (forall h :: 0 <= h < |TokensOf(g)| ==>
          TokensOf(g)[h] == if k + h < |tokens| then tokens[k + h] % 0x1_0000_0000 else 1)
    && (g.emitted == [] || |g.emitted| <= r.maxNew)
    && (forall h :: 0 <= h < |g.emitted| ==> g.emitted[h] != 1 && g.emitted[h] != 106)
    && (if |g.emitted| < r.maxNew then g.outcome == Stopped(1) || g.outcome == Stopped(106) else g.outcome.Exhausted?)
  }

  lemma AnswersInTime(patience: nat -> nat, manifestId: nat, tokens: seq<int>, p: Point, r: Request, g: Generation)
    requires Patient(patience) && PromptFits(r) && Encodable(r.temperature, r.topP)
    requires Streamed(InitialTokens(tokens), p.drawn, TokensOf(g)) && Proper(patience, manifestId, p, r, g)
    ensures Answers(tokens, p.drawn, r, g)
  {
    OpeningIs(p.loaded, manifestId, r);
    NothingLost(patience, manifestId, p, r, g);
    TokensAre(tokens, p.drawn, TokensOf(g));
    forall h | 0 <= h < |g.emitted| ensures g.emitted[h] != 1 && g.emitted[h] != 106 {
      assert g.emitted[h] in g.emitted;
    }
  }

  lemma TokensAre(tokens: seq<int>, k: nat, ts: seq<nat>)
    requires Streamed(InitialTokens(tokens), k, ts)
    ensures forall h :: 0 <= h < |ts| ==> ts[h] == if k + h < |tokens| then tokens[k + h] % 0x1_0000_0000 else 1
  {
    forall h | 0 <= h < |ts| ensures ts[h] == if k + h < |tokens| then tokens[k + h] % 0x1_0000_0000 else 1 {
      assert ts[h] == Stream(InitialTokens(tokens), k + h);
    }
  }

  /** In such a run every request with settings that have an encoding is answered, from
      where the requests before it left the simulator's tokens. */
  lemma RequestsAnswered(patience: nat -> nat, manifestId: nat, tokens: seq<int>, rs: seq<Request>, i: nat)
    requires Patient(patience) && Known(manifestId) && (forall h :: 0 <= h < |rs| ==> PromptFits(rs[h])) && i < |rs|
    requires Encodable(rs[i].temperature, rs[i].topP)
    ensures var gs := Runs(Generator(patience, manifestId), tokens, rs).1;
      Answers(tokens, TakenBefore(gs, i), rs[i], gs[i])
  {
    EveryRun(patience, manifestId, tokens, rs);
    var gs := Runs(Generator(patience, manifestId), tokens, rs).1;
    PatientPoint(patience, manifestId, InitialTokens(tokens), rs, gs, i);
    assert Went(patience, manifestId, InitialTokens(tokens), rs, gs, i);
    AnswersInTime(patience, manifestId, tokens, Reached(patience, manifestId, rs[..i], gs[..i]), rs[i], gs[i]);
  }

  /** Once the simulator's list is used up, a generation that gets to draw in time draws
      one stop token and yields nothing. */
  lemma ExhaustedStops(patience: nat -> nat, manifestId: nat, tokens: seq<int>, rs: seq<Request>, r: Request)
    requires Known(manifestId)
    requires var p := Reached(patience, manifestId, rs, Runs(Generator(patience, manifestId), tokens, rs).1);
      && p.drawn >= |InitialTokens(tokens)|
      && OnTime(patience, |p.script|, |Opening(p.loaded, manifestId, Prompt(r))| + 1)
    requires Loads(Prompt(r)) && Encodable(r.temperature, r.topP) && Limit(r) > 0
    ensures Runs(Generator(patience, manifestId), tokens, rs + [r]).1[|rs|] == Generation([], Stopped(1))
  {
    var gen := Generator(patience, manifestId);
    var (s, gs) := Runs(gen, tokens, rs);
    GeneratorIsLawful(patience, manifestId);
    RunsKeep(gen, patience, manifestId, tokens, rs);
    var start, p := InitialTokens(tokens), Reached(patience, manifestId, rs, gs);
    RunsMore(gen, tokens, rs, r, rs + [r]);
    assert GeneratesFrom(gen, patience, manifestId, s, r, start, p);
    StopsAtOnce(patience, manifestId, start, p, r, gen(s, r).1);
  }

  lemma StopsAtOnce(patience: nat -> nat, manifestId: nat, start: seq<Token>, p: Point, r: Request, g: Generation)
    requires Streamed(start, p.drawn, TokensOf(g)) && Proper(patience, manifestId, p, r, g) && p.drawn >= |start|
    requires OnTime(patience, |p.script|, |Opening(p.loaded, manifestId, Prompt(r))| + 1)
    requires Loads(Prompt(r)) && Encodable(r.temperature, r.topP) && Limit(r) > 0
    ensures g == Generation([], Stopped(1))
  {
    var n := |Opening(p.loaded, manifestId, Prompt(r))|;
    OnTimeParts(patience, |p.script|, n, 1);
    FirstIsStop(patience, |p.script| + n, start, p.drawn, g, Limit(r));
  }

  lemma FirstIsStop(patience: nat -> nat, from: nat, start: seq<Token>, k: nat, g: Generation, n: nat)
    requires Streamed(start, k, TokensOf(g)) && Ended(patience, from, g, n, true) && n > 0 && k >= |start|
    requires OnTime(patience, from, 1)
    ensures g == Generation([], Stopped(1))
  {
    assert patience(from) > 0;
    if TokensOf(g) != [] { assert TokensOf(g)[0] == Stream(start, k + 0) == 1; }
    HeadToken(g);
  }

  lemma HeadToken(g: Generation)
    ensures g.emitted != [] ==> TokensOf(g) != [] && TokensOf(g)[0] in g.emitted
  {
    if g.emitted != [] { assert TokensOf(g)[0] == g.emitted[0]; }
  }
}
