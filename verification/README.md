# Verification of the pccx runtime

Dafny models of the parts of this repository whose correctness is hard to see by
reading one function, and proofs of what those parts promise. The models follow the
code branch by branch; all statements hold for every input, every run or every
reachable state, over exact integers and reals.

`dafny verify dfyconfig.toml` checks the whole project.

| files | subject |
|---|---|
| `TraceFanout`, `TraceEmitter`, `TraceRace` | the trace fan-out: a bounded history, one bounded drop-oldest queue per subscriber, callbacks on several event loops; and what overlapping calls do |
| `GemmaArch`, `KvCache`, `Rope` | the key/value cache shared between layers over whole generations, and rotary positions across shared layers |
| `GaussianTopK`, `Nucleus`, `Reals` | the sparsity of Gaussian top-k and the top-p filter, over real arithmetic |
| `TokenRuntime`, `TokenSession`, `TokenRuns` | the host token runtime over any device, then composed with the device simulator and the generation loop |
| `Int4` | INT4 decoding, slicing a model to fewer intermediate units, and what the feed-forward layer means afterwards |
| `Bits`, `HostIsa`, `V002Isa`, `CDrivers` | one theorem about packing bit fields; the Python and C encoders as instances of it |
| `DmaChannel` | the DataMover command/status port with a concurrent mover |
| `Memh`, `BitHeader`, `Text` | the `.memh` and `.bit` formats |
| `Dmesg`, `ServerState`, `Prelude` | bounded windows of the server |

Code that changes state step by step is modelled by classes and loops
(`TraceEmitter.Emitter`, `KvCache.Cache` and `KvCache.Session`,
`TokenSession.TokenSimMmio`, `NpuTokenRuntime` and `InferenceSession`,
`Dmesg.DmesgWatcher`, `ServerState.ServerState`, `DmaChannel.Mmio`, the array-filling
decoders). Each method is proved to do exactly what a function on values says, and
the theorems about runs are proved about those functions.

Where the code and its documentation disagree, the model follows the code:

- README.md:203 says Gaussian top-k zeroes about 95 % of the gate. The code does
  not promise that for every input: a threshold of k deviations keeps at most the
  fraction c of every vector exactly when c (1 + k^2) >= 1
  (`GaussianTopK.KeepsAtMostIff`), so 95 % of zeros need k^2 >= 19
  (`NinetyFivePercentIff`), and 1.645 guarantees 27 % survivors and nothing better
  (`CodeSparsityIsSharp`).
- README.md:204 says the cache has 20 layers; the code allocates 35.
  `KvCache.TwentyLayersSuffice` shows that no run can tell the difference.
- A RESET word with bits above the 32-bit session field decodes, but encodes to a
  different word; `HostIsa.EncodeDecodeReset` gives the exact condition.
- `uca_memcpy` keeps one bit of each route nibble, so the seven `UCA_ROUTE_*` values give
  three instructions: `CDrivers.RouteClasses` says which coincide.
- The C route constant for host to L2, 0x01, and the smoke program's host-to-L2 copy set the
  two device bits the opposite way: `CDrivers.HostToL2Differs`. The routes that do issue the
  smoke program's word are 0x10 and 0x12 (`CDrivers.HostToL2Routes`).
- `_tail_nonempty` with a limit of zero returns every line, not none.
- De-duplication of kernel messages is first-in first-out, not "never twice":
  `Dmesg.EmittedIffForgotten` says exactly when a line is emitted, and
  `Dmesg.EmittedTwice` gives a run that emits one twice for every window size.
- `slice_cols_half_int4` rounds half the target down, so an odd target that cuts gives a
  `W_down` that no longer fits: `Int4.SlicingPreserves` covers both cases.

Assumptions, each of them a choice of what an input is:

- Trace fan-out: in `TraceFanout`, `emit` and `subscribe` are atomic. `TraceRace` drops
  this: an event is then offered twice exactly when its append came before the replay and
  its scheduling loop after the registration. Two overlapping `emit` calls may also
  schedule in another order than they appended.
- Token runs (`TokenRuns`): the simulator answers synchronously and generations are drained
  one after another; any command may time out. `_submit_command` accepts the first DONE it
  reads, so with a device that still shows the previous command's DONE these theorems would
  not hold. `TokenRuntime.AutomaticIds` needs none of this.
- DMA channel: the mover takes commands in order and echoes their tags; it may step any
  number of times between two register accesses of the host.
- Cosine and sine are any tables that obey the angle-difference laws; the descending
  order used by the top-p filter is any order the library sort may return.

## Model

| member | source | states |
|---|---|---|
| `TraceFanout.EventSession` | sw/runtime/server/trace_emitter.py:50-58 | An event belongs to the session given to `emit`, or else to the one named in its data; a falsy session counts as none |
| `TraceFanout.EveryEmitRecorded` | sw/runtime/server/trace_emitter.py:50-59 | Over every run the i-th logged event carries the kind, the time stamp and every data entry of the i-th `emit` call, nothing else but a session the data did not name, and matches exactly the sessions that call's arguments say |
| `TraceFanout.StepKeeps` | sw/runtime/server/trace_emitter.py:42-93 | Every step (emit, subscribe, callback, consume, unsubscribe) keeps the fan-out invariant: what was offered to a subscriber followed by what is pending for it is its stream, its queue is the newest contiguous part of what was offered, and anything in neither queue nor reads was overtaken by a full queue of newer events |
| `TraceFanout.LogIsEmitted` | sw/runtime/server/trace_emitter.py:50-59 | In every reachable state the log is the emitted events in emission order, and the history is its last `max_events` |
| `TraceFanout.ReadsInOrder` | sw/runtime/server/trace_emitter.py:59-86 | With `emit` and `subscribe` atomic, in every reachable state what a subscriber was offered is a prefix of its stream (matching replayed history, then later matching events until it left), its queue is a newest contiguous part within capacity, and what it read is an in-order, repeat-free subsequence |
| `TraceFanout.StreamIs` | sw/runtime/server/trace_emitter.py:65-86 | Over every run, `emit` call number i is in a subscriber's stream exactly when its session matches and it was among the last `max_events` before joining with a time stamp above `since`, or came between joining and leaving |
| `TraceFanout.JoiningReplays` | sw/runtime/server/trace_emitter.py:71-86 | A subscriber joining after any run is at once offered, in order, exactly the `emit` calls among the last `max_events`, newer than `since`, of its session |
| `TraceFanout.JoinedAt` | sw/runtime/server/trace_emitter.py:77-79 | A subscriber keeps the loop, session and `since` of its `subscribe` call and stands after the `emit` calls made before it |
| `TraceFanout.LeftAt` | sw/runtime/server/trace_emitter.py:88-93 | It has left after as many `emit` calls as came before its first `unsubscribe`, or not at all |
| `TraceFanout.LostOnlyToNewer` | sw/runtime/server/trace_emitter.py:121-132 | An offered event that is neither queued nor read was lost to at least `queue_size` newer events of the same stream; with an unbounded queue nothing is lost |
| `TraceFanout.LosslessBelowCapacity` | sw/runtime/server/trace_emitter.py:65-86 | A subscriber never offered more than its queue holds has lost nothing: reads, queue and pending callbacks together are exactly its stream |
| `TraceRace.RepeatsIff` | sw/runtime/server/trace_emitter.py:59-86 | With the two halves of `emit` and of `subscribe` interleaved at will, over every run: a subscriber is offered an event twice exactly when a replay found it in the history and its scheduling loop found the subscriber registered |
| `TraceRace.RepeatsIffBetween` | sw/runtime/server/trace_emitter.py:59-68 | If the subscriber's own `subscribe` was not interrupted, that is exactly when it fell between the append and the scheduling loop of the event's `emit` |
| `TraceRace.TwiceBetween` | sw/runtime/server/trace_emitter.py:59-68 | `subscribe` between append and schedule: the event is offered twice |
| `TraceRace.TwiceWithin` | sw/runtime/server/trace_emitter.py:79-85 | `emit` between registration and replay: the event is offered twice |
| `TraceEmitter.Subscriber.OfferEvent` | sw/runtime/server/trace_emitter.py:121-132 | `_offer` in place: drop the oldest when full, then append if there is room |
| `TraceEmitter.Subscriber.GetNowait` | sw/runtime/server/trace_emitter.py:126 | The reader takes exactly the oldest queued event, or nothing from an empty queue |
| `TraceEmitter.Emitter.constructor` | sw/runtime/server/trace_emitter.py:30-40 | A new emitter is the initial state of the fan-out system |
| `TraceEmitter.Emitter.EmitEvent` | sw/runtime/server/trace_emitter.py:42-69 | `emit` on the mutable object performs exactly the Emit step and returns the logged event, which records the call's kind, time stamp, data and session |
| `TraceEmitter.Emitter.ScheduleFor` | sw/runtime/server/trace_emitter.py:65-68 | The loop over subscribers schedules one callback per matching registered subscriber, in registration order |
| `TraceEmitter.Emitter.ReplayTo` | sw/runtime/server/trace_emitter.py:81-85 | The replay loop offers exactly the history events newer than `since` that match the session, in order |
| `TraceEmitter.Emitter.SubscribeTo` | sw/runtime/server/trace_emitter.py:71-86 | `subscribe` performs exactly the Subscribe step |
| `TraceEmitter.Emitter.OthersThan` | sw/runtime/server/trace_emitter.py:89-93 | The comprehension keeps every registered queue but one, in order |
| `TraceEmitter.Emitter.UnsubscribeFrom` | sw/runtime/server/trace_emitter.py:88-93 | `unsubscribe` performs exactly the Unsubscribe step; callbacks already scheduled remain |
| `TraceEmitter.Emitter.RunOne` | sw/runtime/server/trace_emitter.py:68 | An event loop runs its oldest scheduled callback and no other |
| `TraceEmitter.Emitter.ConsumeFrom` | sw/runtime/server/trace_emitter.py:17-20 | Reading from a queue performs exactly the Consume step |
| `GemmaArch.SourceIsOwned` | sw/runtime/gemma/arch.py:44-55 | Every layer reads a layer that owns its cache, is no later, is its own source, and rotates with the same angle base |
| `GemmaArch.ThetaIs` | sw/runtime/gemma/arch.py:44-48 | Every fifth layer rotates with base 1,000,000, all others with 10,000 |
| `GemmaArch.SourceIsLatest` | sw/runtime/gemma/arch.py:50-55 | The source is the latest owning layer, no later than the reader, that rotates like it |
| `KvCache.Cache.Store` | sw/runtime/gemma/attention.py:51-55 | `store` rounds and writes one row of one layer in place, or fails beyond the length and writes nothing |
| `KvCache.Cache.ReadForLayer` | sw/runtime/gemma/attention.py:57-64 | `read_for_layer` returns rows 0..pos of the source layer, widened, or fails beyond the length |
| `KvCache.EveryRead` | sw/runtime/gemma/attention.py:51-95 | Over every run, when a layer reads at a position, each row 0..pos of its source layer was written exactly once, by the pass for that position and before the read, and the read returns those values; layers that share are never written |
| `KvCache.CacheIsTransparent` | sw/runtime/gemma/inference.py:182-199 | Every run that fits computes what the model computes without a cache: the streams after the last token are those obtained by projecting every key and value anew, and every row stored is the half-precision key and value of its layer and position |
| `KvCache.TwentyLayersSuffice` | README.md:204 | Over every run a cache of 20 layers or more gives the same accesses, streams, positions and failures as the 35-layer one the code allocates |
| `KvCache.Session.ForwardLayer` | sw/runtime/gemma/attention.py:87-95 | One layer: an owning layer stores its key and value row first, then the source rows are read; past the length it fails before anything is written |
| `KvCache.Session.ForwardLayers` | sw/runtime/gemma/inference.py:185-196 | The layer loop of `_forward_one_token` is the composition of the 35 layer steps, or fails with the cache untouched |
| `KvCache.Session.ForwardOneToken` | sw/runtime/gemma/inference.py:182-199 | One token advances the decoding state by exactly one forward pass, or marks it failed |
| `KvCache.Session.LoadPrompt` | sw/runtime/gemma/inference.py:301-302 | The prompt loop runs one forward pass per prompt token, in order |
| `KvCache.Session.Continue` | sw/runtime/gemma/inference.py:304-315 | The sampling loop feeds back every sampled token up to the first stop token and generates exactly those |
| `KvCache.UntilStopIs` | sw/runtime/gemma/inference.py:304-315 | The tokens kept are a beginning of the draws without 1 and 106, cut short only by one of them |
| `KvCache.Session.Generate` | sw/runtime/gemma/inference.py:298-315 | A whole CPU generation is the run over the prompt followed by the tokens before the first stop token |
| `KvCache.RunAppend` | sw/runtime/gemma/inference.py:301-315 | Running a prompt and then a continuation is running their concatenation |
| `Rope.RopeRotate` | sw/runtime/gemma/ops.py:50-66 | `rope_rotate` fills even and odd slots so that every head is rotated pairwise by the angle of its position |
| `Rope.PairIsTurned` | sw/runtime/gemma/ops.py:61-65 | Pair i of a rotated head is (even c - odd s, even s + odd c) for the cosine c and sine s of its position |
| `Rope.ScoreIsRelative` | sw/runtime/gemma/ops.py:50-66 | The dot product of a query rotated at m and a key rotated at n is a function of m - n |
| `Rope.LayerScoreIsRelative` | sw/runtime/gemma/arch.py:44-55 | In every layer, also where the key was rotated for the source layer, the attention score depends on m - n only: moving both positions equally changes nothing |
| `Rope.ScoreInPlace` | sw/runtime/gemma/ops.py:61-65 | At distance zero the score is the plain dot product |
| `Rope.RotationKeepsDot` | sw/runtime/gemma/ops.py:61-65 | Rotation at one position keeps every dot product, hence every length |
| `GaussianTopK.SparsityBound` | sw/runtime/gemma/ops.py:33-36 | For positive variance the number m of entries at or above mean + k std satisfies m (1 + k^2) <= n |
| `GaussianTopK.CodeSparsity` | sw/runtime/gemma/core_secrets.py:31 | With the code's 1.645 at most 27 % of the entries survive |
| `GaussianTopK.ZeroVarianceKeepsAll` | sw/runtime/gemma/ops.py:33-36 | With zero variance every entry is kept |
| `GaussianTopK.TopKSelects` | sw/runtime/gemma/ops.py:33-36 | An entry at or above mean + k std comes out equal, a non-zero output equals its input, and an output is zero exactly where the input is zero or below the threshold |
| `GaussianTopK.TopKProjects` | sw/runtime/gemma/ops.py:36 | The output is the projection of the input on its survivors: its product with the input is its product with itself |
| `GaussianTopK.MeanBalances` | sw/runtime/gemma/ops.py:33 | n times the mean is the sum |
| `GaussianTopK.NonZerosSurvive` | sw/runtime/gemma/ops.py:36 | At most the surviving entries of the output are non-zero, so the bound also limits the non-zeros |
| `GaussianTopK.BoundIsSharp` | sw/runtime/gemma/ops.py:33-36 | m equal spikes among n entries all survive exactly when m (1 + k^2) <= n, and otherwise none does |
| `GaussianTopK.KeepsAtMostIff` | sw/runtime/gemma/ops.py:33-36 | For every k > 0: every vector with spread keeps at most the fraction c of its entries non-zero exactly when c (1 + k^2) >= 1 |
| `GaussianTopK.NinetyFivePercentIff` | README.md:203 | At most 5 % of every vector with spread survive exactly when k^2 >= 19 |
| `GaussianTopK.CodeSparsityIsSharp` | sw/runtime/gemma/core_secrets.py:31 | For 1.645 the fractions that can be promised are those from 40000 / 148241 up |
| `GaussianTopK.NinetyFivePercentFails` | README.md:203 | So 1.645 does not keep the promise; a vector of five entries keeps one of them |
| `Nucleus.ShortestNucleus` | sw/runtime/gemma/inference.py:100-104 | The kept tokens are the shortest prefix of the descending order whose mass reaches top_p, no set of tokens reaching top_p is smaller, and nothing is kept exactly when top_p <= 0 |
| `Nucleus.TopIsHeaviest` | sw/runtime/gemma/inference.py:100-101 | No set of tokens outweighs as many tokens from the front of the order |
| `Nucleus.KeepIsPrefix` | sw/runtime/gemma/inference.py:102 | The mask `cumsum - probs < top_p` selects exactly the first tokens of the order |
| `Nucleus.Select` | sw/runtime/gemma/inference.py:100-104 | The loop form of the selection writes the kept probabilities and zeros elsewhere |
| `Nucleus.Renormalise` | sw/runtime/gemma/inference.py:107 | Dividing by the sum gives probabilities that sum to one |
| `Nucleus.Filter` | sw/runtime/gemma/inference.py:99-107 | The filter for top_p < 1 returns the renormalised nucleus, or all weight on the top token when nothing is kept; it always sums to one |
| `Nucleus.KeptDominates` | sw/runtime/gemma/inference.py:99-107 | The kept set is not empty and no kept probability is below a dropped one |
| `Nucleus.RatiosKept` | sw/runtime/gemma/inference.py:99-107 | For top_p < 1 every kept token can be drawn, and any two kept tokens stay in the proportion of the given probabilities |
| `TokenRuntime.AutomaticIds` | sw/runtime/npu/npu_core.py:85-111 | On any device, with any deadlines and failures, every submitted command is counted and an automatic request id is the command's index modulo 65536 |
| `TokenRuntime.AutomaticIdsDistinct` | sw/runtime/npu/npu_core.py:93-111 | Automatic NEXT_TOKENs among any 65536 consecutive commands carry distinct request ids |
| `TokenRuntime.PollFirst` | sw/runtime/npu/npu_core.py:112-121 | Over any device, a poll acts on the first status word with ERROR or DONE that its deadline lets it read: ERROR fails, also beside DONE; DONE alone returns it; none is a time-out |
| `TokenRuntime.StepReturns` | sw/runtime/npu/npu_core.py:100-104 | A token comes only from a status word with DONE and TOKEN_VALID and without ERROR, and is its upper half |
| `TokenRuntime.StepSends` | sw/runtime/npu/npu_core.py:93-99 | A token step sends NEXT_TOKEN with the caller's request id or the command count modulo 65536 and the settings in 256ths, or nothing if one has no encoding |
| `TokenRuntime.NumbersSent` | sw/runtime/npu/npu_core.py:62-73 | Loading weights sends LOAD_WEIGHT for the manifest and a reset RESET for the session, or nothing for a number without an encoding |
| `TokenRuntime.PerformLoads` | sw/runtime/npu/npu_core.py:62-70 | After a call the weights count as loaded exactly if they did before or the call was a LOAD_WEIGHT that returned without an exception |
| `TokenSession.NpuTokenRuntime.PollStatus` | sw/runtime/npu/npu_core.py:111-120 | The poll loop returns at the first DONE, fails at the first ERROR, times out after its reads, and remembers the last status read |
| `TokenSession.NpuTokenRuntime.SubmitCommand` | sw/runtime/npu/npu_core.py:106-120 | One submission writes the word and the kick, counts the command before polling, and polls once |
| `TokenSession.NpuTokenRuntime.LoadPromptTokens` | sw/runtime/npu/npu_core.py:79-83 | One LOAD_PROMPT per token at its position, stopping at the first failure |
| `TokenSession.InferenceSession.EnsureNpuPromptLoaded` | sw/runtime/gemma/inference.py:214-223 | Weights once per session, then RESET and the prompt |
| `TokenSession.InferenceSession.DrawTokens` | sw/runtime/gemma/inference.py:242-268 | The token loop: draw, stop at a stop token without yielding it, otherwise count and yield |
| `TokenSession.InferenceSession.GenerateWithNpu` | sw/runtime/gemma/inference.py:225-293 | A drained NPU generation, an empty prompt becoming the token 0 |
| `TokenRuns.SimExecutes` | sw/runtime/npu/sim_mmio.py:38-70 | Submitting an encoded command executes exactly that command |
| `TokenRuns.SimRejects` | sw/runtime/npu/sim_mmio.py:57-70 | A word with any other opcode changes no token and completes with an error |
| `TokenRuns.LoadsPrompt` | sw/runtime/npu/npu_core.py:79-83 | A prompt is sent in order at consecutive positions up to the first token or position without an encoding, which raises, or up to the first command that times out |
| `TokenRuns.Draws` | sw/runtime/gemma/inference.py:242-268 | The token loop sends one NEXT_TOKEN per token taken, takes the device's stream in order, loses exactly the token of a command that times out, and ends as the tokens and deadlines call for |
| `TokenRuns.Generates` | sw/runtime/gemma/inference.py:225-268 | One generation on a session in any state and with any deadlines: its commands, its tokens, its ending |
| `TokenRuns.EveryRun` | sw/runtime/gemma/inference.py:214-270 | For any sequence of drained generations, whichever commands time out: the decoded command log is, per generation, LOAD_WEIGHT until it succeeded once, RESET and LOAD_PROMPT at 0..n-1 with the prompt ids, cut after the first time-out, then NEXT_TOKENs with consecutive request ids; each generation takes its tokens from where the device's stream was left; the counter counts the yields; each generation ends properly |
| `TokenRuns.PatientRun` | sw/runtime/gemma/inference.py:242-268 | If no command times out, all yields and stop tokens together are the device's stream in order and without a gap |
| `TokenRuns.RequestsLogged` | sw/runtime/gemma/inference.py:214-293 | In a run without time-outs and with encodable prompts the log is one LOAD_WEIGHT and then, in each request's own terms, RESET, LOAD_PROMPT (i, prompt[i]) for every i, (0, 0) alone for an empty prompt, and one greedy NEXT_TOKEN, numbered by its place, per token taken |
| `TokenRuns.RequestsAnswered` | sw/runtime/gemma/inference.py:242-268 | In such a run the tokens taken are the simulator's own list cut to 32 bits, then ones; a request yields at most `max_new_tokens`, never 1 or 106, and less only because it drew one of them |
| `TokenRuns.ExhaustedStops` | sw/runtime/npu/sim_mmio.py:59-61 | Once the simulator's list is used up, a generation that gets to draw in time stops at once and yields nothing |
| `Int4.NibbleAt` | sw/runtime/gemma/weights.py:98-104 | Even columns of the decoding are the signed low nibbles, odd ones the signed high nibbles |
| `Int4.DecodedAt` | sw/runtime/gemma/weights.py:97-111 | Entry j of a decoded row is its scale times the number from -8 to 7 congruent to the low (even j) or high (odd j) nibble of byte j / 2 |
| `Int4.RepackNibbles` | sw/runtime/gemma/weights.py:97-104 | Every byte is recoverable from its two decoded nibbles |
| `Int4.NibblesRepack` | sw/runtime/gemma/weights.py:97-104 | Every even list of values -8..7 is the decoding of some bytes |
| `Int4.DequantTuple` | sw/runtime/gemma/weights.py:93-111 | `_dequant_tuple` fills, scales and transposes: column m of the result is the scaled decoding of row m |
| `Int4.EmbedRowSplit` | sw/runtime/gemma/weights.py:223-242 | `embed_row_split(t)` is column t of the K-major decode; an index out of range fails, a negative one counts from the end |
| `Int4.MatmulWeight` | sw/runtime/gemma/weights.py:120-123 | Entry t of the product is the dot product with the decoding of row t, so with the tied embedding the logit of token t is the dot product with t's embedding row; a wrong length is the shape error |
| `Int4.SlicedRowsDecode` | scripts/local/slice_gemma_e2b.py:26-34 | Slicing rows commutes with decoding |
| `Int4.SlicedColsDecode` | scripts/local/slice_gemma_e2b.py:37-47 | Slicing half the columns in bytes commutes with decoding |
| `Int4.SlicesAgree` | scripts/local/slice_gemma_e2b.py:38-42 | The row and column slices agree in size exactly for even targets and targets that do not cut or cut everything |
| `Int4.SlicingPreserves` | sw/runtime/gemma/ffn.py:53-60 | The sliced layer equals the full layer with every intermediate unit beyond the target set to zero, and is a shape error for every other target |
| `Int4.LayerComputes` | sw/runtime/gemma/ffn.py:53-60 | Output o is the dot product of row o of the down matrix with the units act(gate_i . x) (up_i . x); a layer whose shapes do not fit is a shape error |
| `Int4.SlicedComputes` | scripts/local/slice_gemma_e2b.py:26-47 | Sliced to an even number of units it has, the layer computes the same products over those units only |
| `Int4.UpIsLinear` | sw/runtime/gemma/ffn.py:55-60 | Whatever the activation, scaling the up matrix scales the output |
| `Bits.ShiftOrPacks` | sw/runtime/isa.py:57-58 | Or-ing shifted in-range fields packs them without overlap, for every list of widths, and unpacking reads them back |
| `Bits.UnpackPacked` | sw/runtime/isa.py:84-87 | Unpacking inverts packing for every list of widths |
| `Bits.PackUnpack` | sw/runtime/isa.py:110-115 | Packing inverts unpacking for every word of the total width |
| `HostIsa.EncodeSucceeds` | sw/runtime/isa.py:50-54 | An encoder fails exactly when a field does not fit |
| `HostIsa.EncodedWord` | sw/runtime/isa.py:57-58 | The word is the opcode above the packed operand |
| `HostIsa.ResetWordIs` | sw/runtime/isa.py:66-70 | 2^56 + session |
| `HostIsa.LoadWeightWordIs` | sw/runtime/isa.py:80-103 | 2 2^56 + slot 2^48 + flags 2^40 + count 2^32 + manifest |
| `HostIsa.LoadPromptWordIs` | sw/runtime/isa.py:118-121 | 3 2^56 + position 2^32 + token |
| `HostIsa.NextTokenWordIs` | sw/runtime/isa.py:139-153 | 4 2^56 + request 2^40 + sampling 2^32 + temperature 2^16 + top_p |
| `HostIsa.DecodeEncode` | sw/runtime/isa.py:66-166 | Decoding what was encoded gives the command back, for all four commands |
| `HostIsa.EncodeDecode` | sw/runtime/isa.py:106-166 | Every LOAD_WEIGHT, LOAD_PROMPT or NEXT_TOKEN word that decodes is reproduced by the encoder |
| `HostIsa.EncodeDecodeReset` | sw/runtime/isa.py:71-77 | A RESET word is reproduced exactly when its operand is below 2^32 |
| `HostIsa.EncodeInjective` | sw/runtime/isa.py:66-153 | Different commands have different words |
| `HostIsa.StatusReadsBack` | sw/runtime/isa.py:169-211 | Every flag and the token of a posted status word read back as posted |
| `V002Isa.EncodedWord` | tools/v002/generate_smoke_program.py:55-116 | Each v002 encoder fails exactly when a field does not fit; otherwise the word is the packed opcode and fields |
| `V002Isa.NoFieldLost` | tools/v002/generate_smoke_program.py:69-116 | Every field is read back at its documented place: none is lost or disturbed |
| `V002Isa.ComputeWordIs` | tools/v002/generate_smoke_program.py:69-79 | opcode 2^60 + dest 2^43 + src 2^26 + flags 2^20 + size 2^14 + shape 2^8 + lane 2^3 + reserved |
| `V002Isa.MemcpyWordIs` | tools/v002/generate_smoke_program.py:82-92 | 2 2^60 + from 2^59 + to 2^58 + dest 2^41 + src 2^24 + aux 2^7 + shape 2 + async |
| `V002Isa.MemsetWordIs` | tools/v002/generate_smoke_program.py:95-104 | 3 2^60 + cache 2^58 + address 2^52 + a 2^36 + b 2^20 + c 2^4 + reserved |
| `V002Isa.CvoWordIs` | tools/v002/generate_smoke_program.py:107-116 | 4 2^60 + function 2^56 + src 2^39 + dst 2^22 + length 2^6 + flags 2 + async |
| `V002Isa.EncodeInjective` | tools/v002/generate_smoke_program.py:69-116 | Different instructions have different words |
| `V002Isa.DescriptorIsPacked` | sw/runtime/npu/dma.py:129-150 | The 72-bit descriptor holds every field at its documented place with reserved bits zero; the packer fails exactly on a field out of range or an empty transfer |
| `V002Isa.DescriptorWordIs` | sw/runtime/npu/dma.py:129-150 | tag 2^68 + address 2^32 + eof 2^30 + 2^23 + length |
| `CDrivers.BuildComputeInstr` | sw/driver/uCA_v1_api.c:27-40 | For both compute opcodes the C word is the encoder's word for the arguments modulo their field widths |
| `CDrivers.UcaGemv` | sw/driver/uCA_v1_api.c:76-82 | `uca_gemv` issues the GEMV word for its arguments modulo 2^width |
| `CDrivers.UcaGemm` | sw/driver/uCA_v1_api.c:85-91 | `uca_gemm` issues the GEMM word for its arguments modulo 2^width |
| `CDrivers.UcaCvo` | sw/driver/uCA_v1_api.c:52-64 | `uca_cvo` issues the CVO word for its arguments modulo 2^width |
| `CDrivers.UcaMemcpy` | sw/driver/uCA_v1_api.c:103-128 | `uca_memcpy` issues the encoder's MEMCPY word with aux 0, the low bit of each route nibble and its arguments modulo 2^width |
| `CDrivers.UcaMemset` | sw/driver/uCA_v1_api.c:131-149 | `uca_memset` issues the MEMSET word for its arguments modulo 2^width |
| `CDrivers.RoutesCollide` | sw/driver/uCA_v1_api.c:115-121 | Two routes give the same instruction exactly when they agree in the low bit of each nibble |
| `CDrivers.RouteClasses` | sw/driver/uCA_v1_api.h:59-65 | Of the seven route constants {0x01, 0x21, 0x41} give one instruction, {0x10, 0x12} a second and {0x13, 0x31} a third, for all other arguments |
| `CDrivers.IssuedIs` | sw/driver/uCA_v1_api.c:103-128 | The issued word is that of a MEMCPY instruction exactly when its fields are the reduced arguments |
| `CDrivers.HostToL2Routes` | tools/v002/generate_smoke_program.py:179-191 | A route issues the smoke program's host-to-L2 word exactly when its nibbles' low bits are 1 and 0: of the constants, 0x10 and 0x12 |
| `CDrivers.HostToL2Differs` | sw/driver/uCA_v1_api.h:59 | The constant 0x01 for that direction never issues such a word, whatever the arguments on either side |
| `CDrivers.HostReset` | sw/baremetal/npu_driver/npu_driver.c:129-132 | The C RESET word is the Python one |
| `CDrivers.HostLoadWeight` | sw/baremetal/npu_driver/npu_driver.c:134-144 | The C LOAD_WEIGHT word is the Python one |
| `CDrivers.HostLoadPrompt` | sw/baremetal/npu_driver/npu_driver.c:146-150 | The C LOAD_PROMPT word is the Python one for the position modulo 2^24 |
| `CDrivers.HostNextToken` | sw/baremetal/npu_driver/npu_driver.c:152-162 | The C NEXT_TOKEN word is the Python one |
| `DmaChannel.IssueCommand` | sw/runtime/npu/dma.py:59-86 | `issue_command` on the register window, with the mover running in between, is exactly the modelled step |
| `DmaChannel.PollStatus` | sw/runtime/npu/dma.py:88-105 | `poll_status` is exactly the modelled step |
| `DmaChannel.IssueKeeps` | sw/runtime/npu/dma.py:59-86 | An accepted command enters the FIFO as exactly its packed word; a rejected one writes no register; it is refused as full exactly when eight commands wait |
| `DmaChannel.PollKeeps` | sw/runtime/npu/dma.py:88-105 | A poll pops the oldest unpopped status and fails exactly when its token is not the tag of the command issued at that place |
| `DmaChannel.EveryRun` | sw/runtime/npu/README.md:39-55 | Over every run of issues and in-order polls with a concurrent mover: the uncompleted commands are the packed words in issue order, no FIFO exceeds depth 8, no poll sees a tag mismatch, and the statuses received are exactly those posted, from the first on and in order, the k-th carrying the tag of the k-th command |
| `Memh.DigitsRead` | tools/v002/generate_driver_handoff.py:62-72 | A number written in hexadecimal reads as itself |
| `Memh.AnyFormParses` | tools/v002/generate_driver_handoff.py:62-68 | A number is read from one to sixteen of its digits, in either case, with or without 0x, and with white space around it |
| `Memh.OnlySuchForms` | tools/v002/generate_driver_handoff.py:62-68 | Nothing else is read as a number |
| `Memh.WordHexIs` | tools/v002/generate_driver_handoff.py:71-72 | The normal form is 0x and the sixteen lower-case digits that read as the word |
| `Memh.LineSays` | tools/v002/generate_driver_handoff.py:80-87 | A line of white space, a word, white space and a `#` or `//` comment, each possibly empty, says the word |
| `Memh.LinesSplit` | tools/v002/generate_driver_handoff.py:79 | A text is split at every line break, and what follows the last is a line unless it is empty |
| `Text.StripIs` | tools/v002/generate_driver_handoff.py:80 | What `strip` leaves has no white space at its ends, and what it takes off is white space |
| `Memh.WrittenHead` | tools/v002/generate_smoke_program.py:345-348 | What is written is each word's sixteen digits and a newline, one word after another |
| `Memh.ReadMemhLines` | tools/v002/generate_driver_handoff.py:75-92 | The reading loop returns the normalised words of the lines that say something, the first error, or the error for a file without words |
| `Memh.RoundTrip` | tools/v002/generate_smoke_program.py:345-348 | Reading what `write_memh` wrote returns the same normalised words, for every non-empty list; an empty list is refused |
| `Memh.SilentLineInserted` | tools/v002/generate_driver_handoff.py:79-88 | Inserting a blank or comment line anywhere changes nothing |
| `Memh.ValidateProgramPayload` | tools/v002/generate_driver_handoff.py:95-137 | The check accepts exactly a well-formed program whose normalised words equal the memh words |
| `Memh.ValidatesExactlyItsWords` | tools/v002/generate_driver_handoff.py:117-137 | A program validates against the memh of words ws exactly when it carries those numbers position by position |
| `Memh.ValidatesAgainstAnyFile` | tools/v002/generate_driver_handoff.py:95-137 | The same against any readable file, whose words are the normal forms of some numbers |
| `BitHeader.ParseBitHeader` | hw/scripts/pre_deploy_check.py:82-123 | The cursor-and-dictionary loop is exactly the modelled parse, errors included |
| `BitHeader.ParsePrinted` | hw/scripts/pre_deploy_check.py:82-123 | Parsing a printed header of at most 512 bytes returns its record for any field order, padding and following bytes, and header_len is the payload offset |
| `BitHeader.LastWins` | hw/scripts/pre_deploy_check.py:95-106 | A field keeps its value unless a later one repeats its tag |
| `BitHeader.RecordIs` | hw/scripts/pre_deploy_check.py:95-123 | Each field that no later one repeats appears under its letter: a the design up to its first `;`, b the part, c the date, d the time |
| `BitHeader.MissingIsEmpty` | hw/scripts/pre_deploy_check.py:113-120 | A letter without a field leaves its part of the record empty |
| `BitHeader.DesignBefore` | hw/scripts/pre_deploy_check.py:115 | What stands before the first `;` is the design |
| `BitHeader.BigEndian` | hw/scripts/pre_deploy_check.py:87-110 | Numbers of two and four bytes are read with their most significant byte first |
| `BitHeader.NoSemicolon` | hw/scripts/pre_deploy_check.py:113-115 | The design is kept whole exactly when it has no `;` |
| `BitHeader.ParsedIsPrinted` | hw/scripts/pre_deploy_check.py:82-123 | Whatever parses is a printed header followed by some bytes |
| `BitHeader.OpeningErrors` | hw/scripts/pre_deploy_check.py:84-92 | Fewer than 16 bytes, another magic, another sub-header: each is its own error exactly when the checks before it pass |
| `BitHeader.SwapTwice` | hw/scripts/pre_deploy_check.py:445 | The 32-bit swap undoes itself for payloads of every length |
| `BitHeader.SwapAt` | hw/scripts/pre_deploy_check.py:445 | Byte i of the swapped payload is the one at the mirrored place of its group of four, or of the shorter rest |
| `BitHeader.SwapWords` | hw/scripts/pre_deploy_check.py:445 | The joined comprehension reverses every group of four bytes, and a shorter rest |
| `BitHeader.CheckBitbin` | hw/scripts/pre_deploy_check.py:425-454 | A file is accepted exactly when it exists, has the payload length, and is the payload or its swap |
| `BitHeader.AcceptsThePayload` | hw/scripts/pre_deploy_check.py:432-449 | Against its own `.bit`, exactly the payload and its swapped form are accepted |
| `BitHeader.TruncatedIsRejected` | hw/scripts/pre_deploy_check.py:432-452 | A `.bit` cut inside its payload has no acceptable file |
| `Dmesg.TailLength` | sw/runtime/server/telemetry.py:308-310 | The tail is the last `limit` non-empty lines; with limit zero it is all of them, and a negative limit drops that many from the front |
| `Dmesg.CleanedApart` | sw/runtime/server/telemetry.py:309 | The cleaned lines are the stripped ones that are not empty, line by line |
| `Dmesg.CutIs` | sw/runtime/server/telemetry.py:167 | An event carries at most the first 500 characters of its line |
| `Dmesg.DmesgWatcher.Remember` | sw/runtime/server/telemetry.py:180-185 | The eviction loop in place is the modelled one |
| `Dmesg.DmesgWatcher.Collect` | sw/runtime/server/telemetry.py:137-178 | `collect` in place is the modelled step: new lines in order, or one error event per change of error |
| `Dmesg.EveryRun` | sw/runtime/server/telemetry.py:157-185 | Over every run of collects `_seen` is the newest max_seen emitted hashes, `_seen_set` its set, and any max_seen + 1 consecutive emitted hashes are distinct |
| `Dmesg.EmittedIffForgotten` | sw/runtime/server/telemetry.py:157-178 | In any collect of any run a line is emitted exactly when its hash is not among the newest max_seen emitted before it, whatever lines surround it |
| `Dmesg.EmittedTwice` | sw/runtime/server/telemetry.py:180-185 | For every max_seen there is a run that emits one line twice, after max_seen others |
| `Dmesg.ErrorOncePerChange` | sw/runtime/server/telemetry.py:146-178 | After any run a failing collect reports its error exactly when the last failing one before it failed in another way, and forgets no line |
| `ServerState.ServerState.EnsureSession` | sw/runtime/server/app.py:67-68 | The session's history, created empty if missing |
| `ServerState.ServerState.ResetSession` | sw/runtime/server/app.py:70-71 | The session's history is forgotten, all others stay |
| `ServerState.ServerState.AppendTurn` | sw/runtime/server/app.py:73-81 | A turn is appended to one session and cut to sixteen messages |
| `ServerState.ServerState.RecordInference` | sw/runtime/server/app.py:83-110 | A latency is recorded, the window cut, and the rounded figures reported |
| `ServerState.ServerState.AnnotateNpuSample` | sw/runtime/server/app.py:120-139 | The busy fields after a sample, the rounded duration it reports, and whether the status word changed |
| `ServerState.HistoryIsWindow` | sw/runtime/server/app.py:67-81 | After any run a session's history is the last sixteen messages since its last reset, whatever other sessions did |
| `ServerState.LatenciesAreWindow` | sw/runtime/server/app.py:93-96 | After any run the latencies are the last 1024 recorded |
| `ServerState.PercentileMono` | sw/runtime/server/app.py:487-492 | A larger quantile is never a smaller figure; a percentile is one of the values, rounded |
| `ServerState.PercentileAt` | sw/runtime/server/app.py:487-492 | A percentile is the rounded value at the place of the ordered list nearest to that part of its length |
| `ServerState.MedianAndMaximum` | sw/runtime/server/app.py:487-492 | The median of an odd number of values is the middle one, and quantile 1 is the largest |
| `ServerState.RatesNear` | sw/runtime/server/app.py:93-118 | Seconds, milliseconds and tokens per second, over at least a nanosecond, are reported within half a thousandth, and with them the 0.50 and 0.99 percentiles |
| `Reals.RoundIs` | sw/runtime/server/app.py:492 | Rounding gives a nearest number, and the even one of two equally near |
| `ServerState.ReportedInOrder` | sw/runtime/server/app.py:105-106 | The reported p50 is at most the reported p99 |
| `ServerState.ReportedBusyTime` | sw/runtime/server/app.py:120-131 | A sample reports exactly the time from each busy sample to the next, itself included |
| `ServerState.ReportsGrow` | sw/runtime/server/app.py:120-134 | In any run under a monotone clock the rounded duration a sample reports is never negative and never below that of an earlier sample |
| `ServerState.ComparedWithLast` | sw/runtime/server/app.py:135-138 | After any run a sample's status word is compared with that of the sample before it |

## Left out

- Floating point: rounding, fp16 storage, `exp` and `tanh`; the fp16 cast is an opaque
  function, cosine and sine are tables, all other numbers are exact.
- RMSNorm, GELU, softmax, AltUp, LAuReL and the projections: nothing exact to prove; where
  a proof passes through them they are opaque functions.
- Gaussian top-k layers (0 to 9) in the slicing theorem: their threshold depends on all
  intermediate units, so slicing changes the result.
- Greedy sampling, temperature scaling and the random draw of `_sample`; ties in the order
  are whatever the sort makes of them.
- Weights with two-dimensional scales, with one scale for all rows, or not stored as uint8.
- The telemetry sink inside `emit`, event payloads other than strings, and `heartbeat`.
- `call_soon_threadsafe` raising on a closed loop, which ends `emit` after the event is in the
  history, so that subscribers later in the list miss it (trace_emitter.py:65-68).
- The order in which overlapping `emit` calls schedule: `TraceRace` is about repeats only.
- Interleaved or abandoned NPU generators, devices that complete asynchronously, and
  `read32` status words in the token runs.
- Sticky error bits of the DataMover flags, their clearing register, and reset during a run.
- Address discovery and window offsets (`address_map.py`, `_offset` in `dma.py`): base-plus-offset
  arithmetic, every fact about it is one step.
- UTF-8 decoding of `.bit` header fields, undecodable bytes of a `.memh`, and white space
  outside ASCII.
- `expected_register_writes` and the rest of the handoff JSON: one entry per word, nothing
  to relate.
- Dmesg.EveryRun: does not model a negative `max_seen`, on which the eviction loop would pop
  from an empty list.
- Hashes, checksums, manifest ids and the tokenizer: library code, opaque values.
- SSH, subprocesses, sysfs, mmap, HTTP routes, static pages, backend selection, knowledge
  rules and throughput estimates.
- Shell, Tcl, Makefile and linker files; the RTL core is not part of this model.
