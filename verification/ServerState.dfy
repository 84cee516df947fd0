/** The bounded windows and counters of the server, `ServerState` in
    `sw/runtime/server/app.py`.  Clock readings and NPU samples are inputs. */
module ServerState {
  import opened Prelude
  import opened Reals

  datatype Message = User(content: string) | Assistant(content: string)

  const HISTORY: nat := 16
  const LATENCIES: nat := 1024

  /** What one inference reports, apart from the figures it only passes on. */
  datatype Metrics = Metrics(elapsedSec: real, tokensPerSec: real, latencyMs: real,
                             latencyP50Ms: real, latencyP99Ms: real)

  datatype State = State(histories: map<string, seq<Message>>, latenciesMs: seq<real>,
                         sessionMetrics: map<string, Metrics>,
                         busyStartedAt: Option<real>, busyTotalSec: real, lastStatHex: string)

  const INITIAL: State := State(map[], [], map[], None, 0.0, "0x00000000")

  // ----- percentiles

  /** Python's `round(x, 3)`, on exact reals. */
  function Round3(x: real): real {
    Round(x * 1000.0) as real / 1000.0
  }

  function Insert(x: real, xs: seq<real>): (ys: seq<real>)
    ensures multiset(ys) == multiset(xs + [x])
  {
    if xs == [] || x <= xs[0] then InsertedFirst(x, xs); [x] + xs
    else
      var ys := [xs[0]] + Insert(x, xs[1..]);
      assert xs == [xs[0]] + xs[1..];
      ys
  }

  lemma InsertedFirst(x: real, xs: seq<real>)
    ensures multiset([x] + xs) == multiset(xs + [x])
  {
  }

  /** `sorted(values)` */
  function Sorted(values: seq<real>): (ys: seq<real>)
    ensures multiset(ys) == multiset(values) && |ys| == |values|
  {
    if values == [] then []
    else
      assert values == values[..|values| - 1] + [values[|values| - 1]];
      var ys := Insert(values[|values| - 1], Sorted(values[..|values| - 1]));
      assert multiset(ys) == multiset(values);
      SameSize(ys, values);
      ys
  }

  lemma SameSize(a: seq<real>, b: seq<real>)
    requires multiset(a) == multiset(b)
    ensures |a| == |b|
  {
    assert |multiset(a)| == |a| && |multiset(b)| == |b|;
  }

  ghost predicate Ordered(xs: seq<real>) {
    forall i, j :: 0 <= i <= j < |xs| ==> xs[i] <= xs[j]
  }

  lemma {:induction false} InsertOrdered(x: real, xs: seq<real>)
    requires Ordered(xs)
    ensures Ordered(Insert(x, xs))
  {
    if xs != [] && x > xs[0] {
      InsertOrdered(x, xs[1..]);
      var ys := Insert(x, xs[1..]);
      forall j | 0 <= j < |ys| ensures xs[0] <= ys[j] {
        InsertedAbove(x, xs[1..], xs[0], j);
      }
    }
  }

  lemma InsertedAbove(x: real, xs: seq<real>, low: real, j: nat)
    requires low <= x && (forall i :: 0 <= i < |xs| ==> low <= xs[i]) && j < |Insert(x, xs)|
    ensures low <= Insert(x, xs)[j]
  {
    assert Insert(x, xs)[j] in multiset(Insert(x, xs));
    assert Insert(x, xs)[j] in xs + [x];
  }

  lemma {:induction false} SortedOrdered(values: seq<real>)
    ensures Ordered(Sorted(values))
  {
    if values != [] {
      SortedOrdered(values[..|values| - 1]);
      InsertOrdered(values[|values| - 1], Sorted(values[..|values| - 1]));
    }
  }

  /** The index of a quantile among n + 1 sorted values. */
  function Index(n: nat, quantile: real): (i: nat)
    ensures i <= n
  {
    var r := Round(n as real * quantile);
    var low := if r > 0 then r else 0;
    if low < n then low else n
  }

  /** `_percentile` */
  function Percentile(values: seq<real>, quantile: real): real {
    if values == [] then 0.0 else Round3(Sorted(values)[Index(|values| - 1, quantile)])
  }

  lemma IndexMono(n: nat, p: real, q: real)
    requires p <= q
    ensures Index(n, p) <= Index(n, q)
  {
    assert n as real * p <= n as real * q;
    RoundMono(n as real * p, n as real * q);
  }

  lemma Round3Mono(x: real, y: real)
    requires x <= y
    ensures Round3(x) <= Round3(y)
  {
    RoundMono(x * 1000.0, y * 1000.0);
  }

  /** A larger quantile is never a smaller figure; a percentile is one of the values,
      rounded, or zero without any. */
  lemma PercentileMono(values: seq<real>, p: real, q: real)
    requires p <= q
    ensures Percentile(values, p) <= Percentile(values, q)
    ensures values != [] ==> exists v :: v in values && Percentile(values, p) == Round3(v)
    ensures values == [] ==> Percentile(values, p) == 0.0
  {
    if values != [] {
      var sorted, n := Sorted(values), |values| - 1;
      SortedOrdered(values);
      IndexMono(n, p, q);
      Round3Mono(sorted[Index(n, p)], sorted[Index(n, q)]);
      assert sorted[Index(n, p)] in multiset(values);
    }
  }

  /** The index is the one nearest to the quantile of n, halves going to the even one. */
  lemma IndexNearest(n: nat, q: real, x: real)
    requires 0.0 <= q <= 1.0 && x == n as real * q
    ensures -0.5 <= x - Index(n, q) as real <= 0.5
    ensures x == Index(n, q) as real + 0.5 || x == Index(n, q) as real - 0.5 ==> Index(n, q) % 2 == 0
  {
    QuantileWithin(n, q, x);
    RoundWithin(n, x);
    RoundIs(x);
  }

  lemma QuantileWithin(n: nat, q: real, x: real)
    requires 0.0 <= q <= 1.0 && x == n as real * q
    ensures 0.0 <= x <= n as real
  {
  }

  lemma RoundWithin(n: nat, x: real)
    requires 0.0 <= x <= n as real
    ensures 0 <= Round(x) <= n
  {
    RoundMono(0.0, x);
    RoundMono(x, n as real);
    assert Round(0.0) == 0 && Round(n as real) == n;
  }

  lemma MiddleIndex(h: nat, n: nat)
    requires n == 2 * h
    ensures Index(n, 0.5) == h && Index(n, 1.0) == n
  {
    IndexNearest(n, 0.5, h as real);
    IndexNearest(n, 1.0, n as real);
  }

  /** The median of an odd number of values is the middle one, and quantile 1 is the
      largest. */
  lemma MedianAndMaximum(values: seq<real>, h: nat)
    requires |values| == 2 * h + 1
    ensures Ordered(Sorted(values)) && multiset(Sorted(values)) == multiset(values)
    ensures Percentile(values, 0.5) == Round3(Sorted(values)[h])
    ensures exists v :: v in values && Percentile(values, 1.0) == Round3(v) && forall u :: u in values ==> u <= v
  {
    SortedOrdered(values);
    MiddleIndex(h, 2 * h);
    Largest(values, Sorted(values));
  }

  lemma Largest(values: seq<real>, sorted: seq<real>)
    requires multiset(sorted) == multiset(values) && Ordered(sorted) && sorted != []
    ensures sorted[|sorted| - 1] in values && forall u :: u in values ==> u <= sorted[|sorted| - 1]
  {
    assert sorted[|sorted| - 1] in multiset(values);
    forall u | u in values ensures u <= sorted[|sorted| - 1] {
      assert u in multiset(sorted);
    }
  }

  /** A reported figure is within half a thousandth of the exact one. */
  lemma Round3Near(x: real)
    ensures Near(Round3(x), x)
  {
    RoundIs(x * 1000.0);
  }

  // ----- the operations on values

  function History(s: State, id: string): seq<Message> {
    if id in s.histories then s.histories[id] else []
  }

  function Ensured(s: State, id: string): State {
    s.(histories := s.histories[id := History(s, id)])
  }

  function Reset(s: State, id: string): State {
    s.(histories := s.histories - {id})
  }

  function TurnAppended(s: State, id: string, user: string, assistant: string): State {
    s.(histories := s.histories[id := Last(HISTORY, History(s, id) + [User(user), Assistant(assistant)])])
  }

  function Max(a: real, b: real): real {
    if a >= b then a else b
  }

  /** `max(elapsed_sec, 1e-9)` */
  const TINY: real := 0.000000001

  function Millis(seconds: real): real {
    seconds * 1000.0
  }

  function MetricsOf(latencies: seq<real>, tokens: nat, elapsed: real): Metrics {
    Metrics(Round3(elapsed), Round3(tokens as real / Max(elapsed, TINY)), Round3(Millis(elapsed)),
            Percentile(latencies, 0.50), Percentile(latencies, 0.99))
  }

  function Recorded(s: State, id: string, tokens: nat, elapsed: real): (State, Metrics) {
    var latencies := Last(LATENCIES, s.latenciesMs + [Millis(elapsed)]);
    var m := MetricsOf(latencies, tokens, elapsed);
    (s.(latenciesMs := latencies, sessionMetrics := s.sessionMetrics[id := m]), m)
  }

  lemma RecordedIs(s: State, id: string, tokens: nat, elapsed: real, latencies: seq<real>, m: Metrics)
    requires latencies == Last(LATENCIES, s.latenciesMs + [Millis(elapsed)])
    requires m == MetricsOf(latencies, tokens, elapsed)
    ensures Recorded(s, id, tokens, elapsed)
         == (s.(latenciesMs := latencies, sessionMetrics := s.sessionMetrics[id := m]), m)
  {
  }

  /** The busy seconds a sample taken now reports. */
  function BusySeconds(s: State, now: real): real {
    s.busyTotalSec + if s.busyStartedAt.Some? then now - s.busyStartedAt.value else 0.0
  }

  function Sampled(s: State, busy: bool, statHex: string, now: real): State {
    State(s.histories, s.latenciesMs, s.sessionMetrics,
          if busy then (if s.busyStartedAt.Some? then s.busyStartedAt else Some(now)) else None,
          if busy then s.busyTotalSec else BusySeconds(s, now),
          statHex)
  }

  // ----- the class

  class ServerState {
    var histories: map<string, seq<Message>>
    var latenciesMs: seq<real>
    var sessionMetrics: map<string, Metrics>
    var npuBusyStartedAt: Option<real>
    var npuBusyTotalSec: real
    var npuLastMmioStatHex: string

    ghost function Abs(): State
      reads this
    {
      State(histories, latenciesMs, sessionMetrics, npuBusyStartedAt, npuBusyTotalSec, npuLastMmioStatHex)
    }

    constructor ()
      ensures Abs() == INITIAL
    {
      histories, latenciesMs, sessionMetrics := map[], [], map[];
      npuBusyStartedAt, npuBusyTotalSec, npuLastMmioStatHex := None, 0.0, "0x00000000";
    }

    method EnsureSession(id: string) returns (history: seq<Message>)
      modifies this
      ensures Abs() == Ensured(old(Abs()), id) && history == History(Abs(), id)
    {
      if id !in histories {
        histories := histories[id := []];
      }
      history := histories[id];
      assert histories == old(histories)[id := history];
    }

    method ResetSession(id: string)
      modifies this
      ensures Abs() == Reset(old(Abs()), id)
    {
      histories := histories - {id};
    }

    method AppendTurn(id: string, user: string, assistant: string)
      modifies this
      ensures Abs() == TurnAppended(old(Abs()), id, user, assistant)
    {
      var history := EnsureSession(id);
      history := history + [User(user), Assistant(assistant)];
      histories := histories[id := Last(HISTORY, history)];
      assert histories == old(histories)[id := Last(HISTORY, history)];
    }

    method RecordInference(id: string, tokens: nat, elapsed: real) returns (m: Metrics)
      modifies this
      ensures (Abs(), m) == Recorded(old(Abs()), id, tokens, elapsed)
    {
      latenciesMs := latenciesMs + [Millis(elapsed)];
      if |latenciesMs| > LATENCIES {
        latenciesMs := latenciesMs[|latenciesMs| - LATENCIES..];
      }
      m := MetricsOf(latenciesMs, tokens, elapsed);
      RecordedIs(old(Abs()), id, tokens, elapsed, latenciesMs, m);
      sessionMetrics := sessionMetrics[id := m];
    }

    /** The reported duration in milliseconds and whether the status word changed. */
    method AnnotateNpuSample(busy: bool, statHex: string, now: real) returns (durationMs: real, changed: bool)
      modifies this
      ensures Abs() == Sampled(old(Abs()), busy, statHex, now)
      ensures durationMs == Round3(Millis(BusySeconds(old(Abs()), now)))
      ensures changed == (statHex != old(npuLastMmioStatHex))
    {
      if busy && npuBusyStartedAt.None? {
        npuBusyStartedAt := Some(now);
      } else if !busy && npuBusyStartedAt.Some? {
        npuBusyTotalSec := npuBusyTotalSec + (now - npuBusyStartedAt.value);
        npuBusyStartedAt := None;
      }
      var busyTotalSec := npuBusyTotalSec;
      if npuBusyStartedAt.Some? {
        busyTotalSec := busyTotalSec + (now - npuBusyStartedAt.value);
      }
      durationMs := Round3(Millis(busyTotalSec));
      changed := statHex != npuLastMmioStatHex;
      npuLastMmioStatHex := statHex;
    }
  }

  // ----- every run

  datatype Op =
    | EnsureOp(id: string)
    | ResetOp(id: string)
    | TurnOp(id: string, user: string, assistant: string)
    | RecordOp(id: string, tokens: nat, elapsed: real)
    | SampleOp(busy: bool, statHex: string, now: real)

  function Apply(s: State, op: Op): State {
    match op
    case EnsureOp(id) => Ensured(s, id)
    case ResetOp(id) => Reset(s, id)
    case TurnOp(id, user, assistant) => TurnAppended(s, id, user, assistant)
    case RecordOp(id, tokens, elapsed) => Recorded(s, id, tokens, elapsed).0
    case SampleOp(busy, statHex, now) => Sampled(s, busy, statHex, now)
  }

  function Run(ops: seq<Op>): State {
    if ops == [] then INITIAL else Apply(Run(ops[..|ops| - 1]), ops[|ops| - 1])
  }

  /** All messages of a session since its last reset. */
  function Conversation(ops: seq<Op>, id: string): seq<Message> {
    if ops == [] then []
    else
      var before := Conversation(ops[..|ops| - 1], id);
      match ops[|ops| - 1]
      case TurnOp(i, user, assistant) => if i == id then before + [User(user), Assistant(assistant)] else before
      case ResetOp(i) => if i == id then [] else before
      case _ => before
  }

  /** The session was used since its last reset. */
  predicate Known(ops: seq<Op>, id: string) {
    ops != [] &&
    match ops[|ops| - 1]
    case ResetOp(i) => i != id && Known(ops[..|ops| - 1], id)
    case EnsureOp(i) => i == id || Known(ops[..|ops| - 1], id)
    case TurnOp(i, _, _) => i == id || Known(ops[..|ops| - 1], id)
    case _ => Known(ops[..|ops| - 1], id)
  }

  /** All latencies ever recorded, in milliseconds. */
  function Recordings(ops: seq<Op>): seq<real> {
    if ops == [] then []
    else Recordings(ops[..|ops| - 1]) + if ops[|ops| - 1].RecordOp? then [Millis(ops[|ops| - 1].elapsed)] else []
  }

  /** After any run a session's history is the last sixteen messages since its last
      reset, whatever happened in other sessions, and it is listed exactly if it was
      used since. */
  lemma {:induction false} HistoryIsWindow(ops: seq<Op>, id: string)
    ensures History(Run(ops), id) == Last(HISTORY, Conversation(ops, id))
    ensures id in Run(ops).histories <==> Known(ops, id)
  {
    if ops != [] {
      var before, op := ops[..|ops| - 1], ops[|ops| - 1];
      HistoryIsWindow(before, id);
      if op.TurnOp? {
        LastAppend(HISTORY, Conversation(before, id), [User(op.user), Assistant(op.assistant)]);
      }
    }
  }

  /** Seconds, milliseconds and tokens per second, over at least a nanosecond, are reported
      within half a thousandth, and with them two percentiles. */
  lemma RatesNear(latencies: seq<real>, tokens: nat, elapsed: real, millis: real, rate: real, m: Metrics)
    requires m == MetricsOf(latencies, tokens, elapsed) && millis == elapsed * 1000.0
    requires rate == tokens as real / (if elapsed >= 0.000000001 then elapsed else 0.000000001)
    ensures Near(m.elapsedSec, elapsed) && Near(m.latencyMs, millis) && Near(m.tokensPerSec, rate)
    ensures m.latencyP50Ms == Percentile(latencies, 0.50) && m.latencyP99Ms == Percentile(latencies, 0.99)
  {
    Round3Near(elapsed);
    Round3Near(millis);
    Round3Near(rate);
  }

  /** The figure is the rounded value at the place nearest to x of the ordered list. */
  ghost predicate StandsAt(values: seq<real>, x: real, i: nat, figure: real) {
    i < |values| && -0.5 <= x - i as real <= 0.5 && figure == Round3(Sorted(values)[i])
  }

  lemma PercentileAt(values: seq<real>, q: real, n: nat, x: real, figure: real) returns (i: nat)
    requires |values| == n + 1 && 0.0 <= q <= 1.0 && x == n as real * q && figure == Percentile(values, q)
    ensures StandsAt(values, x, i, figure)
  {
    i := Index(n, q);
    IndexNearest(n, q, x);
  }

  predicate Near(reported: real, exact: real) {
    -0.0005 <= reported - exact <= 0.0005
  }

  /** Whatever was recorded, the two reported percentiles are in order. */
  lemma ReportedInOrder(s: State, id: string, tokens: nat, elapsed: real)
    ensures var m := Recorded(s, id, tokens, elapsed).1; m.latencyP50Ms <= m.latencyP99Ms
  {
    PercentileMono(Recorded(s, id, tokens, elapsed).0.latenciesMs, 0.50, 0.99);
  }

  /** After any run the latencies are the last 1024 recorded. */
  lemma {:induction false} LatenciesAreWindow(ops: seq<Op>)
    ensures Run(ops).latenciesMs == Last(LATENCIES, Recordings(ops))
  {
    if ops != [] {
      var before, op := ops[..|ops| - 1], ops[|ops| - 1];
      LatenciesAreWindow(before);
      if op.RecordOp? {
        LastAppend(LATENCIES, Recordings(before), [Millis(op.elapsed)]);
      } else {
        assert Recordings(before) + [] == Recordings(before);
      }
    }
  }

  // ----- busy time

  datatype Sample = Sample(busy: bool, at: real)

  function Samples(ops: seq<Op>): seq<Sample> {
    if ops == [] then []
    else Samples(ops[..|ops| - 1])
         + if ops[|ops| - 1].SampleOp? then [Sample(ops[|ops| - 1].busy, ops[|ops| - 1].now)] else []
  }

  /** The time from each busy sample to the next sample. */
  function BusyTime(samples: seq<Sample>): real {
    if |samples| < 2 then 0.0
    else
      var n := |samples| - 1;
      BusyTime(samples[..n]) + if samples[n - 1].busy then samples[n].at - samples[n - 1].at else 0.0
  }

  /** What the two busy fields mean. */
  ghost predicate BusyInv(s: State, samples: seq<Sample>) {
    if samples != [] && samples[|samples| - 1].busy then
      s.busyStartedAt.Some? && BusySeconds(s, samples[|samples| - 1].at) == BusyTime(samples)
    else
      s.busyStartedAt.None? && s.busyTotalSec == BusyTime(samples)
  }

  lemma SampleReports(s: State, samples: seq<Sample>, busy: bool, statHex: string, now: real)
    requires BusyInv(s, samples)
    ensures BusySeconds(s, now) == BusyTime(samples + [Sample(busy, now)])
    ensures BusyInv(Sampled(s, busy, statHex, now), samples + [Sample(busy, now)])
  {
    assert (samples + [Sample(busy, now)])[..|samples|] == samples;
  }

  lemma {:induction false} BusyKept(ops: seq<Op>)
    ensures BusyInv(Run(ops), Samples(ops))
  {
    if ops != [] {
      var before, op := ops[..|ops| - 1], ops[|ops| - 1];
      BusyKept(before);
      if op.SampleOp? {
        SampleReports(Run(before), Samples(before), op.busy, op.statHex, op.now);
      } else {
        assert Samples(before) + [] == Samples(before);
      }
    }
  }

  /** After any run, a sample reports exactly the time from each busy sample to the one
      after it, itself included. */
  lemma ReportedBusyTime(ops: seq<Op>, busy: bool, now: real)
    ensures BusySeconds(Run(ops), now) == BusyTime(Samples(ops) + [Sample(busy, now)])
  {
    BusyKept(ops);
    SampleReports(Run(ops), Samples(ops), busy, "", now);
  }

  ghost predicate Monotone(samples: seq<Sample>) {
    forall i, j :: 0 <= i <= j < |samples| ==> samples[i].at <= samples[j].at
  }

  /** Under a clock that does not go back, later samples only add busy time. */
  lemma {:induction false} BusyTimeGrows(samples: seq<Sample>, n: nat)
    requires Monotone(samples) && n <= |samples|
    ensures 0.0 <= BusyTime(samples[..n]) <= BusyTime(samples)
    decreases |samples|
  {
    var last := |samples| - 1;
    if n == |samples| {
      assert samples[..n] == samples;
      if n > 0 { BusyTimeGrows(samples[..last], last); assert samples[..last][..last] == samples[..last]; }
    } else {
      BusyTimeGrows(samples[..last], n);
      assert samples[..last][..n] == samples[..n];
    }
  }

  /** The `npu_busy_duration_ms` that the k-th operation, a sample, reports. */
  function ReportedMs(ops: seq<Op>, k: nat): real
    requires k < |ops| && ops[k].SampleOp?
  {
    Round3(Millis(BusySeconds(Run(ops[..k]), ops[k].now)))
  }

  lemma {:induction false} SamplesPrefix(ops: seq<Op>, n: nat)
    requires n <= |ops|
    ensures Samples(ops[..n]) <= Samples(ops)
    decreases |ops|
  {
    if n < |ops| {
      var before := ops[..|ops| - 1];
      SamplesPrefix(before, n);
      assert before[..n] == ops[..n];
    } else {
      assert ops[..n] == ops;
    }
  }

  /** What a sample reports is the busy time of all samples so far, itself included. */
  lemma ReportIs(ops: seq<Op>, k: nat)
    requires k < |ops| && ops[k].SampleOp?
    ensures ReportedMs(ops, k) == Round3(Millis(BusyTime(Samples(ops[..k + 1]))))
  {
    assert ops[..k + 1][..k] == ops[..k];
    ReportedBusyTime(ops[..k], ops[k].busy, ops[k].now);
  }

  lemma SamplesInOrder(ops: seq<Op>, j: nat, k: nat)
    requires j <= k < |ops|
    ensures Samples(ops[..j + 1]) <= Samples(ops[..k + 1]) <= Samples(ops)
  {
    var m, n := j + 1, k + 1;
    var late := ops[..n];
    SamplesPrefix(ops, n);
    SamplesPrefix(late, m);
    assert late[..m] == ops[..m];
  }

  lemma RoundedInOrder(a: real, b: real)
    requires 0.0 <= a <= b
    ensures 0.0 <= Round3(Millis(a)) <= Round3(Millis(b))
  {
    Round3Mono(0.0, Millis(a));
    Round3Mono(Millis(a), Millis(b));
    assert Round3(0.0) == 0.0;
  }

  lemma EarlierIsLess(early: seq<Sample>, late: seq<Sample>)
    requires early <= late && Monotone(late)
    ensures 0.0 <= Round3(Millis(BusyTime(early))) <= Round3(Millis(BusyTime(late)))
  {
    assert late[..|early|] == early;
    BusyTimeGrows(late, |early|);
    RoundedInOrder(BusyTime(early), BusyTime(late));
  }

  /** In a run whose clock does not go back, the duration a sample reports is never
      negative and never below that of an earlier sample. */
  lemma ReportsGrow(ops: seq<Op>, j: nat, k: nat)
    requires j <= k < |ops| && ops[j].SampleOp? && ops[k].SampleOp? && Monotone(Samples(ops))
    ensures 0.0 <= ReportedMs(ops, j) <= ReportedMs(ops, k)
  {
    ReportIs(ops, j);
    ReportIs(ops, k);
    SamplesInOrder(ops, j, k);
    EarlierIsLess(Samples(ops[..j + 1]), Samples(ops[..k + 1]));
  }

  // ----- the status word

  /** The status word of the last sample, or the one of a new server. */
  function LastStat(ops: seq<Op>): string {
    if ops == [] then "0x00000000"
    else if ops[|ops| - 1].SampleOp? then ops[|ops| - 1].statHex
    else LastStat(ops[..|ops| - 1])
  }

  /** After any run a sample is compared with the sample before it. */
  lemma {:induction false} ComparedWithLast(ops: seq<Op>)
    ensures Run(ops).lastStatHex == LastStat(ops)
  {
    if ops != [] { ComparedWithLast(ops[..|ops| - 1]); }
  }
}
