/** The kernel-log sampler with de-duplication, `DmesgWatcher` in
    `sw/runtime/server/telemetry.py`.

    What `dmesg` prints, or how it fails, is an input; line hashes are opaque. */
module Dmesg {
  import opened Prelude
  import opened Text

  /** What running `dmesg` gave: its output lines, or the key of an error. */
  datatype Output = Lines(lines: seq<string>) | Failed(key: string)

  datatype Event<H> = DmesgEvent(line: string, lineHash: H) | WatchError(key: string)

  /** Python's `s[i:]`. */
  function From<T>(s: seq<T>, i: int): seq<T> {
    if i >= |s| then [] else if i >= 0 then s[i..] else if |s| + i >= 0 then s[|s| + i..] else s
  }

  function NonEmpty(lines: seq<string>): seq<string> {
    if lines == [] then []
    else (if Strip(lines[0]) == "" then [] else [Strip(lines[0])]) + NonEmpty(lines[1..])
  }

  /** `_tail_nonempty`: with limit 0 the slice is `[0:]`, that is, everything. */
  function TailNonEmpty(lines: seq<string>, limit: int): seq<string> {
    From(NonEmpty(lines), -limit)
  }

  lemma TailLength(lines: seq<string>, limit: int)
    ensures limit > 0 ==> TailNonEmpty(lines, limit) == Last(limit, NonEmpty(lines))
    ensures limit == 0 ==> TailNonEmpty(lines, limit) == NonEmpty(lines)
    ensures limit < 0 ==>
      TailNonEmpty(lines, limit) == Last(if |NonEmpty(lines)| < -limit then 0 else |NonEmpty(lines)| + limit,
                                         NonEmpty(lines))
  {
  }

  // ----- the watcher as a value

  /** The watcher's fields, and the history of all hashes it ever emitted. */
  datatype Watch<H> = Watch(seen: seq<H>, seenSet: set<H>, lastErrorKey: Option<string>, emitted: seq<H>)

  /** The eviction loop of `_remember`. */
  function Evicted<H>(seen: seq<H>, seenSet: set<H>, maxSeen: nat): (seq<H>, set<H>)
    decreases |seen|
  {
    if |seen| <= maxSeen then (seen, seenSet) else Evicted(seen[1..], seenSet - {seen[0]}, maxSeen)
  }

  function Remembered<H>(w: Watch<H>, h: H, maxSeen: nat): Watch<H> {
    var (seen, seenSet) := Evicted(w.seen + [h], w.seenSet + {h}, maxSeen);
    w.(seen := seen, seenSet := seenSet, emitted := w.emitted + [h])
  }

  function Cut(line: string): string {
    if |line| <= 500 then line else line[..500]
  }

  /** The line loop of `collect`. */
  function Sampled<H>(hash: string -> H, w: Watch<H>, lines: seq<string>, maxSeen: nat): (Watch<H>, seq<Event<H>>)
    decreases |lines|
  {
    if lines == [] then (w, [])
    else
      var h := hash(lines[0]);
      if h in w.seenSet then Sampled(hash, w, lines[1..], maxSeen)
      else
        var (w', events) := Sampled(hash, Remembered(w, h, maxSeen), lines[1..], maxSeen);
        (w', [DmesgEvent(Cut(lines[0]), h)] + events)
  }

  function Collected<H>(hash: string -> H, w: Watch<H>, output: Output, maxSeen: nat, maxLines: int)
    : (Watch<H>, seq<Event<H>>)
  {
    match output
    case Failed(key) =>
      if w.lastErrorKey == Some(key) then (w, []) else (w.(lastErrorKey := Some(key)), [WatchError(key)])
    case Lines(lines) => Sampled(hash, w, TailNonEmpty(lines, maxLines), maxSeen)
  }

  // ----- the class

  class DmesgWatcher<H(==)> {
    const hash: string -> H
    const maxSeen: nat
    const maxLines: int
    var seen: seq<H>
    var seenSet: set<H>
    var lastErrorKey: Option<string>
    ghost var emitted: seq<H>

    ghost function Abs(): Watch<H>
      reads this
    {
      Watch(seen, seenSet, lastErrorKey, emitted)
    }

    constructor (hash: string -> H, maxSeen: nat := 1024, maxLines: int := 20)
      ensures this.hash == hash && this.maxSeen == maxSeen && this.maxLines == maxLines
      ensures Abs() == Watch([], {}, None, [])
    {
      this.hash, this.maxSeen, this.maxLines := hash, maxSeen, maxLines;
      seen, seenSet, lastErrorKey, emitted := [], {}, None, [];
    }

    method Remember(lineHash: H)
      modifies this
      ensures Abs() == Remembered(old(Abs()), lineHash, maxSeen)
    {
      emitted := emitted + [lineHash];
      seen := seen + [lineHash];
      seenSet := seenSet + {lineHash};
      while |seen| > maxSeen
        invariant Evicted(seen, seenSet, maxSeen) == Evicted(old(seen) + [lineHash], old(seenSet) + {lineHash}, maxSeen)
        invariant lastErrorKey == old(lastErrorKey) && emitted == old(emitted) + [lineHash]
      {
        seenSet := seenSet - {seen[0]};
        seen := seen[1..];
      }
    }

    method Collect(output: Output) returns (events: seq<Event<H>>)
      modifies this
      ensures (Abs(), events) == Collected(hash, old(Abs()), output, maxSeen, maxLines)
    {
      match output
      case Failed(key) =>
        if lastErrorKey == Some(key) {
          return [];
        }
        lastErrorKey := Some(key);
        return [WatchError(key)];
      case Lines(lines) =>
        events := Sample(TailNonEmpty(lines, maxLines));
    }

    /** The line loop of `collect`. */
    method Sample(lines: seq<string>) returns (events: seq<Event<H>>)
      modifies this
      ensures (Abs(), events) == Sampled(hash, old(Abs()), lines, maxSeen)
    {
      events := [];
      var rest := lines;
      ghost var w := Abs();
      ghost var whole := Sampled(hash, w, lines, maxSeen);
      assert [] + whole.1 == whole.1;
      while rest != []
        invariant w == Abs()
        invariant whole.0 == Sampled(hash, w, rest, maxSeen).0
        invariant whole.1 == events + Sampled(hash, w, rest, maxSeen).1
      {
        var line, left := rest[0], rest[1..];
        var lineHash := hash(line);
        if lineHash !in seenSet {
          Remember(lineHash);
          w := Abs();
          ghost var more := Sampled(hash, w, left, maxSeen).1;
          assert events + ([DmesgEvent(Cut(line), lineHash)] + more)
              == events + [DmesgEvent(Cut(line), lineHash)] + more;
          events := events + [DmesgEvent(Cut(line), lineHash)];
        }
        rest := left;
      }
      assert events + [] == events;
    }
  }

  // ----- every run

  function Elements<H>(s: seq<H>): set<H> {
    set h | h in s
  }

  /** Hashes no further apart than n are distinct. */
  ghost predicate DistinctWithin<H>(s: seq<H>, n: nat) {
    forall i, j :: 0 <= i < j < |s| && j - i <= n ==> s[i] != s[j]
  }

  ghost predicate Inv<H>(w: Watch<H>, maxSeen: nat) {
    && w.seen == Last(maxSeen, w.emitted)
    && w.seenSet == Elements(w.seen)
    && DistinctWithin(w.emitted, maxSeen)
  }

  lemma WindowDistinct<H>(s: seq<H>, n: nat)
    requires DistinctWithin(s, n)
    ensures forall i, j :: 0 <= i < j < |Last(n, s)| ==> Last(n, s)[i] != Last(n, s)[j]
  {
  }

  lemma NextDistinct<H>(s: seq<H>, h: H, n: nat)
    requires DistinctWithin(s, n) && h !in Last(n, s)
    ensures DistinctWithin(s + [h], n)
  {
    forall i | 0 <= i < |s| && |s| - i <= n ensures s[i] != h {
      var k := if |s| <= n then i else i - (|s| - n);
      assert Last(n, s)[k] == s[i];
    }
  }

  lemma EvictedOnce<H>(seen: seq<H>, h: H, n: nat)
    requires |seen| <= n && h !in seen && forall i, j :: 0 <= i < j < |seen| ==> seen[i] != seen[j]
    ensures Evicted(seen + [h], Elements(seen) + {h}, n) == (Last(n, seen + [h]), Elements(Last(n, seen + [h])))
  {
    var all := seen + [h];
    if |all| > n {
      assert Elements(all) - {all[0]} == Elements(all[1..]);
    }
    assert Elements(all) == Elements(seen) + {h};
  }

  /** Remembering a hash outside the window keeps the window the newest emitted
      hashes, and the set its elements. */
  lemma RememberKeeps<H>(w: Watch<H>, h: H, maxSeen: nat)
    requires Inv(w, maxSeen) && h !in w.seenSet
    ensures Inv(Remembered(w, h, maxSeen), maxSeen)
  {
    WindowDistinct(w.emitted, maxSeen);
    NextDistinct(w.emitted, h, maxSeen);
    EvictedOnce(w.seen, h, maxSeen);
    LastAppend(maxSeen, w.emitted, [h]);
  }

  function Hashes<H>(events: seq<Event<H>>): seq<H> {
    if events == [] then []
    else (if events[0].DmesgEvent? then [events[0].lineHash] else []) + Hashes(events[1..])
  }

  lemma {:induction false} SampleKeeps<H>(hash: string -> H, w: Watch<H>, lines: seq<string>, maxSeen: nat)
    requires Inv(w, maxSeen)
    ensures var (w', events) := Sampled(hash, w, lines, maxSeen);
      Inv(w', maxSeen) && w'.emitted == w.emitted + Hashes(events)
    decreases |lines|
  {
    if lines == [] {
      assert w.emitted + [] == w.emitted;
    } else if hash(lines[0]) in w.seenSet {
      SampleKeeps(hash, w, lines[1..], maxSeen);
    } else {
      var h := hash(lines[0]);
      RememberKeeps(w, h, maxSeen);
      SampleKeeps(hash, Remembered(w, h, maxSeen), lines[1..], maxSeen);
      var events := Sampled(hash, Remembered(w, h, maxSeen), lines[1..], maxSeen).1;
      assert ([DmesgEvent(Cut(lines[0]), h)] + events)[1..] == events;
      assert w.emitted + ([h] + Hashes(events)) == w.emitted + [h] + Hashes(events);
    }
  }

  /** A sequence of collects: the watcher and all events, in order. */
  function Run<H>(hash: string -> H, outputs: seq<Output>, maxSeen: nat, maxLines: int): (Watch<H>, seq<Event<H>>) {
    if outputs == [] then (Watch([], {}, None, []), [])
    else
      var (w, events) := Run(hash, outputs[..|outputs| - 1], maxSeen, maxLines);
      var (w', more) := Collected(hash, w, outputs[|outputs| - 1], maxSeen, maxLines);
      (w', events + more)
  }

  lemma {:induction false} HashesAppend<H>(a: seq<Event<H>>, b: seq<Event<H>>)
    ensures Hashes(a + b) == Hashes(a) + Hashes(b)
  {
    if a == [] {
      assert a + b == b;
    } else {
      var head := if a[0].DmesgEvent? then [a[0].lineHash] else [];
      assert (a + b)[0] == a[0] && (a + b)[1..] == a[1..] + b;
      HashesAppend(a[1..], b);
      Reassociate(head, Hashes(a[1..]), Hashes(b));
    }
  }

  lemma Reassociate<T>(a: seq<T>, b: seq<T>, c: seq<T>)
    ensures a + (b + c) == a + b + c
  {
  }

  lemma CollectKeeps<H>(hash: string -> H, w: Watch<H>, output: Output, maxSeen: nat, maxLines: int)
    requires Inv(w, maxSeen)
    ensures var (w', events) := Collected(hash, w, output, maxSeen, maxLines);
      Inv(w', maxSeen) && w'.emitted == w.emitted + Hashes(events)
  {
    match output
    case Failed(key) =>
      assert Hashes<H>([WatchError(key)]) == [] && w.emitted + [] == w.emitted;
    case Lines(lines) =>
      SampleKeeps(hash, w, TailNonEmpty(lines, maxLines), maxSeen);
  }

  lemma {:induction false} RunKeeps<H>(hash: string -> H, outputs: seq<Output>, maxSeen: nat, maxLines: int)
    ensures var (w, events) := Run(hash, outputs, maxSeen, maxLines);
      Inv(w, maxSeen) && w.emitted == Hashes(events)
  {
    if outputs != [] {
      RunKeeps(hash, outputs[..|outputs| - 1], maxSeen, maxLines);
      var (w, events) := Run(hash, outputs[..|outputs| - 1], maxSeen, maxLines);
      CollectKeeps(hash, w, outputs[|outputs| - 1], maxSeen, maxLines);
      HashesAppend(events, Collected(hash, w, outputs[|outputs| - 1], maxSeen, maxLines).1);
    }
  }

  /** Over every run of collects, the remembered hashes are exactly the newest
      `maxSeen` of the emitted ones, the set is their set, and any `maxSeen` + 1
      consecutive emitted hashes are pairwise distinct. */
  lemma EveryRun<H>(hash: string -> H, outputs: seq<Output>, maxSeen: nat, maxLines: int)
    ensures var (w, events) := Run(hash, outputs, maxSeen, maxLines);
      && w.seen == Last(maxSeen, Hashes(events)) && w.seenSet == Elements(w.seen)
      && DistinctWithin(Hashes(events), maxSeen)
  {
    RunKeeps(hash, outputs, maxSeen, maxLines);
  }

  function After<H>(hash: string -> H, w: Watch<H>, lines: seq<string>, maxSeen: nat): Watch<H> {
    Sampled(hash, w, lines, maxSeen).0
  }

  function EventsOf<H>(hash: string -> H, w: Watch<H>, lines: seq<string>, maxSeen: nat): seq<Event<H>> {
    Sampled(hash, w, lines, maxSeen).1
  }

  /** Sampling lines in two parts. */
  lemma {:induction false} SampledAppend<H>(hash: string -> H, w: Watch<H>, a: seq<string>, b: seq<string>, n: nat)
    ensures After(hash, w, a + b, n) == After(hash, After(hash, w, a, n), b, n)
    ensures EventsOf(hash, w, a + b, n) == EventsOf(hash, w, a, n) + EventsOf(hash, After(hash, w, a, n), b, n)
    decreases |a|
  {
    if a == [] {
      assert a + b == b;
    } else {
      assert (a + b)[0] == a[0] && (a + b)[1..] == a[1..] + b;
      var h := hash(a[0]);
      if h in w.seenSet {
        SampledAppend(hash, w, a[1..], b, n);
      } else {
        var v := Remembered(w, h, n);
        SampledAppend(hash, v, a[1..], b, n);
        Reassociate([DmesgEvent(Cut(a[0]), h)], EventsOf(hash, v, a[1..], n),
                    EventsOf(hash, After(hash, v, a[1..], n), b, n));
      }
    }
  }

  lemma SampledOne<H>(hash: string -> H, w: Watch<H>, line: string, maxSeen: nat)
    ensures EventsOf(hash, w, [line], maxSeen)
         == if hash(line) in w.seenSet then [] else [DmesgEvent(Cut(line), hash(line))]
  {
    assert [line][1..] == [];
    var v := Remembered(w, hash(line), maxSeen);
    assert Sampled(hash, v, [], maxSeen) == (v, []) && Sampled(hash, w, [], maxSeen) == (w, []);
    assert [DmesgEvent(Cut(line), hash(line))] + [] == [DmesgEvent(Cut(line), hash(line))];
    assert Sampled(hash, w, [line], maxSeen)
        == if hash(line) in w.seenSet then (w, []) else (v, [DmesgEvent(Cut(line), hash(line))]);
  }

  /** The events of `line` alone: one, unless its hash is among the newest `n` emitted. */
  function Emission<H(==)>(hash: string -> H, line: string, emitted: seq<H>, n: nat): seq<Event<H>> {
    if hash(line) in Last(n, emitted) then [] else [DmesgEvent(Cut(line), hash(line))]
  }

  /** In any collect of any run a line is emitted exactly when its hash is not among
      the newest `maxSeen` emitted before it, in this collect or an earlier one,
      whatever lines surround it: an older line is emitted again. */
  lemma EmittedIffForgotten<H>(hash: string -> H, outputs: seq<Output>, lines: seq<string>, maxSeen: nat, maxLines: int,
                               a: seq<string>, line: string, b: seq<string>)
    requires TailNonEmpty(lines, maxLines) == a + [line] + b
    ensures var (w, before) := Run(hash, outputs, maxSeen, maxLines);
      var first := EventsOf(hash, w, a, maxSeen);
      Collected(hash, w, Lines(lines), maxSeen, maxLines).1
      == first + Emission(hash, line, Hashes(before + first), maxSeen)
         + EventsOf(hash, After(hash, w, a + [line], maxSeen), b, maxSeen)
  {
    RunKeeps(hash, outputs, maxSeen, maxLines);
    var (w, before) := Run(hash, outputs, maxSeen, maxLines);
    SampledAppend(hash, w, a + [line], b, maxSeen);
    SampledAppend(hash, w, a, [line], maxSeen);
    SampleKeeps(hash, w, a, maxSeen);
    HashesAppend(before, EventsOf(hash, w, a, maxSeen));
    SampledOne(hash, After(hash, w, a, maxSeen), line, maxSeen);
  }

  /** The cleaned lines are the stripped ones that are not empty, line by line. */
  lemma {:induction false} CleanedApart(a: seq<string>, b: seq<string>)
    ensures NonEmpty(a + b) == NonEmpty(a) + NonEmpty(b)
    ensures forall line :: NonEmpty([line]) == if Strip(line) == "" then [] else [Strip(line)]
  {
    forall line: string ensures NonEmpty([line]) == if Strip(line) == "" then [] else [Strip(line)] {
      assert [line][1..] == [];
    }
    if a == [] {
      assert a + b == b;
    } else {
      assert (a + b)[0] == a[0] && (a + b)[1..] == a[1..] + b;
      CleanedApart(a[1..], b);
      Reassociate(if Strip(a[0]) == "" then [] else [Strip(a[0])], NonEmpty(a[1..]), NonEmpty(b));
    }
  }

  /** An event carries at most the first 500 characters of its line. */
  lemma CutIs(line: string)
    ensures Cut(line) <= line && |Cut(line)| == if |line| <= 500 then |line| else 500
  {
  }

  // ----- errors

  /** How the last failing run of `dmesg` failed. */
  function LastFailure(outputs: seq<Output>): Option<string> {
    if outputs == [] then None
    else if outputs[|outputs| - 1].Failed? then Some(outputs[|outputs| - 1].key)
    else LastFailure(outputs[..|outputs| - 1])
  }

  lemma {:induction false} SampleKeepsError<H>(hash: string -> H, w: Watch<H>, lines: seq<string>, maxSeen: nat)
    ensures After(hash, w, lines, maxSeen).lastErrorKey == w.lastErrorKey
    decreases |lines|
  {
    if lines != [] {
      var h := hash(lines[0]);
      SampleKeepsError(hash, if h in w.seenSet then w else Remembered(w, h, maxSeen), lines[1..], maxSeen);
    }
  }

  lemma {:induction false} ErrorKept<H>(hash: string -> H, outputs: seq<Output>, maxSeen: nat, maxLines: int)
    ensures Run(hash, outputs, maxSeen, maxLines).0.lastErrorKey == LastFailure(outputs)
  {
    if outputs != [] {
      var before, last := outputs[..|outputs| - 1], outputs[|outputs| - 1];
      ErrorKept(hash, before, maxSeen, maxLines);
      if last.Lines? {
        SampleKeepsError(hash, Run(hash, before, maxSeen, maxLines).0, TailNonEmpty(last.lines, maxLines), maxSeen);
      }
    }
  }

  /** After any run, a failing collect reports its error exactly when the last failing one
      before it failed in another way, however many succeeded in between; it forgets no
      line. */
  lemma ErrorOncePerChange<H>(hash: string -> H, outputs: seq<Output>, maxSeen: nat, maxLines: int, key: string)
    ensures var w := Run(hash, outputs, maxSeen, maxLines).0;
      var (w', events) := Collected(hash, w, Failed(key), maxSeen, maxLines);
      && events == (if LastFailure(outputs) == Some(key) then [] else [WatchError(key)])
      && w'.seen == w.seen && w'.seenSet == w.seenSet
  {
    ErrorKept(hash, outputs, maxSeen, maxLines);
  }

  // ----- a line that is emitted twice

  /** `n` different lines: "x", "xx", and so on. */
  function Line(k: nat): (line: string)
    ensures |line| == k + 1 && Strip(line) == line
  {
    var line := seq(k + 1, _ => 'x');
    assert StripLeft(line) == line && StripRight(line) == line;
    line
  }

  /** One collect for each of the first `n` lines. */
  function OneByOne(n: nat): seq<Output> {
    seq(n, k requires 0 <= k < n => Lines([Line(k)]))
  }

  function FirstLines(n: nat): seq<string> {
    seq(n, k requires 0 <= k < n => Line(k))
  }

  function Same(line: string): string { line }

  /** A collect of one line not among the newest emitted adds its hash. */
  lemma CollectNew(outputs: seq<Output>, line: string, maxSeen: nat, maxLines: nat)
    requires Strip(line) == line != ""
    requires line !in Last(maxSeen, Hashes(Run(Same, outputs, maxSeen, maxLines).1))
    ensures Hashes(Run(Same, outputs + [Lines([line])], maxSeen, maxLines).1)
         == Hashes(Run(Same, outputs, maxSeen, maxLines).1) + [line]
  {
    var all := outputs + [Lines([line])];
    assert all[..|all| - 1] == outputs;
    RunKeeps(Same, outputs, maxSeen, maxLines);
    var (w, before) := Run(Same, outputs, maxSeen, maxLines);
    assert [line][1..] == [];
    assert NonEmpty([line]) == [line];
    TailLength([line], maxLines);
    SampledOne(Same, w, line, maxSeen);
    var more := EventsOf(Same, w, [line], maxSeen);
    HashesAppend(before, more);
    assert more[1..] == [];
  }

  lemma {:induction false} FreshLines(n: nat, maxSeen: nat, maxLines: nat)
    ensures Hashes(Run(Same, OneByOne(n), maxSeen, maxLines).1) == FirstLines(n)
  {
    if n > 0 {
      FreshLines(n - 1, maxSeen, maxLines);
      NextLine(n - 1, n);
      NewLine(n - 1, maxSeen);
      CollectNew(OneByOne(n - 1), Line(n - 1), maxSeen, maxLines);
    }
  }

  lemma NextLine(k: nat, n: nat)
    requires n == k + 1
    ensures OneByOne(n) == OneByOne(k) + [Lines([Line(k)])] && FirstLines(n) == FirstLines(k) + [Line(k)]
  {
  }

  lemma NewLine(n: nat, maxSeen: nat)
    ensures Line(n) !in Last(maxSeen, FirstLines(n))
  {
    forall k | 0 <= k < n ensures FirstLines(n)[k] != Line(n) {
      assert |Line(k)| == k + 1;
    }
  }

  lemma OldLine(n: nat)
    ensures Line(0) !in Last(n, FirstLines(n + 1))
  {
    var last := Last(n, FirstLines(n + 1));
    forall k | 0 <= k < n ensures last[k] != Line(0) {
      assert |Line(k + 1)| == k + 2;
    }
  }

  /** However many hashes are remembered, some run emits a line twice: after
      `maxSeen` other lines it is forgotten. */
  lemma EmittedTwice(maxSeen: nat, maxLines: nat)
    ensures Hashes(Run(Same, OneByOne(maxSeen + 1) + [Lines([Line(0)])], maxSeen, maxLines).1)
         == FirstLines(maxSeen + 1) + [Line(0)]
    ensures FirstLines(maxSeen + 1)[0] == Line(0)
  {
    FreshLines(maxSeen + 1, maxSeen, maxLines);
    OldLine(maxSeen);
    CollectNew(OneByOne(maxSeen + 1), Line(0), maxSeen, maxLines);
  }
}
