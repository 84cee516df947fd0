/** The trace fan-out of `sw/runtime/server/trace_emitter.py` as a transition
    system.

    `emit` appends to a bounded history and schedules one callback per matching
    subscriber; each event loop runs its callbacks first-in first-out; a callback
    offers one event to a bounded drop-oldest queue; `subscribe` replays the
    matching history into a new queue at once.  `emit` and `subscribe` are taken to
    be mutually atomic; `TraceRace` says what happens when they are not. */
module TraceFanout {
  import opened Prelude

  /** `id` stands for the identity of the event object. */
  datatype Event = Event(id: nat, ts: real, kind: string, data: map<string, string>, tag: Option<string>)

  const SESSION_KEY := "session_id"

  // ----- events and their sessions

  function Get(data: map<string, string>, key: string): Option<string> {
    if key in data then Some(data[key]) else None
  }

  /** Python's `a or b`: an absent or empty `a` gives way to `b`. */
  function OrElse(a: Option<string>, b: Option<string>): Option<string> {
    if a.Some? && a.value != "" then a else b
  }

  /** The event `emit` builds. */
  function MakeEvent(id: nat, kind: string, data: map<string, string>, session: Option<string>, ts: real): Event {
    var payload :=
      if session.Some? && SESSION_KEY !in data then data[SESSION_KEY := session.value] else data;
    Event(id, ts, kind, payload, OrElse(session, Get(payload, SESSION_KEY)))
  }

  /** `_matches_session` */
  predicate Matches(e: Event, session: Option<string>) {
    session.None? || OrElse(e.tag, Get(e.data, SESSION_KEY)) == session
  }

  /** Which session an emitted event belongs to: the argument if it is not empty,
      else the payload's own session, else the empty argument. */
  lemma EventSession(id: nat, kind: string, data: map<string, string>, session: Option<string>, ts: real, s: string)
    ensures Matches(MakeEvent(id, kind, data, session, ts), Some(s)) <==>
      if session.Some? && session.value != "" then session.value == s
      else if SESSION_KEY in data then data[SESSION_KEY] == s
      else session == Some(s)
  {
  }

  function Filter(es: seq<Event>, session: Option<string>, since: Option<real>): seq<Event> {
    if es == [] then []
    else
      var e := es[|es| - 1];
      Filter(es[..|es| - 1], session, since)
      + if Matches(e, session) && (since.None? || e.ts > since.value) then [e] else []
  }

  // ----- the bounded queue

  predicate Full(queue: seq<Event>, queueSize: int) {
    queueSize > 0 && |queue| >= queueSize
  }

  /** `_offer`: drop the oldest event of a full queue, then put unless still full. */
  function Offer(queue: seq<Event>, queueSize: int, e: Event): seq<Event> {
    var q := if Full(queue, queueSize) && queue != [] then queue[1..] else queue;
    if Full(q, queueSize) then q else q + [e]
  }

  // ----- the system

  /** One subscriber.  `replay` is what it was offered on subscribing, `offered` all
      it was ever offered, `read` what its reader took, `readAt` where those stand
      in `offered`; `joined` and `left` are positions in the emission log. */
  datatype Sub = Sub(loop: nat, session: Option<string>, since: Option<real>, queue: seq<Event>,
                     replay: seq<Event>, offered: seq<Event>, read: seq<Event>, readAt: seq<nat>,
                     joined: nat, left: Option<nat>)

  datatype Callback = Callback(loop: nat, sub: nat, event: Event)

  /** `subs` are all subscribers ever, `active` the indices of the registered ones. */
  datatype State = State(log: seq<Event>, history: seq<Event>, subs: seq<Sub>, active: seq<nat>,
                         pending: seq<Callback>)

  datatype Config = Config(maxEvents: nat, queueSize: int)

  datatype Action =
    | Emit(kind: string, data: map<string, string>, session: Option<string>, ts: real)
    | Subscribe(loop: nat, filter: Option<string>, since: Option<real>)
    | RunCallback(onLoop: nat)
    | Consume(reader: nat)
    | Unsubscribe(leaver: nat)

  const INIT: State := State([], [], [], [], [])

  function ScheduledFor(subs: seq<Sub>, j: nat, e: Event): seq<Callback> {
    if j < |subs| && Matches(e, subs[j].session) then [Callback(subs[j].loop, j, e)] else []
  }

  /** The callbacks one `emit` schedules, in registration order. */
  function Scheduled(subs: seq<Sub>, active: seq<nat>, e: Event): (cs: seq<Callback>) {
    if active == [] then []
    else
      Scheduled(subs, active[..|active| - 1], e) + ScheduledFor(subs, active[|active| - 1], e)
  }

  function Offered(s: Sub, queueSize: int, e: Event): Sub {
    s.(queue := Offer(s.queue, queueSize, e), offered := s.offered + [e])
  }

  function OfferAll(s: Sub, queueSize: int, es: seq<Event>): Sub {
    if es == [] then s else Offered(OfferAll(s, queueSize, es[..|es| - 1]), queueSize, es[|es| - 1])
  }

  function NewSub(cfg: Config, st: State, loop: nat, session: Option<string>, since: Option<real>): Sub {
    var replay := Filter(st.history, session, since);
    OfferAll(Sub(loop, session, since, [], replay, [], [], [], |st.log|, None), cfg.queueSize, replay)
  }

  /** The first pending callback of a loop, or |pending| if there is none. */
  function FirstOf(pending: seq<Callback>, loop: nat): (i: nat)
    ensures i <= |pending|
    ensures i < |pending| ==> pending[i].loop == loop
    ensures forall k :: 0 <= k < i ==> pending[k].loop != loop
  {
    if pending == [] || pending[0].loop == loop then 0 else 1 + FirstOf(pending[1..], loop)
  }

  function Without(active: seq<nat>, j: nat): seq<nat> {
    if active == [] then []
    else Without(active[..|active| - 1], j) + if active[|active| - 1] == j then [] else [active[|active| - 1]]
  }

  function Taken(s: Sub): Sub
    requires s.queue != []
  {
    s.(queue := s.queue[1..], read := s.read + [s.queue[0]],
       readAt := s.readAt + [if |s.queue| <= |s.offered| then |s.offered| - |s.queue| else 0])
  }

  /** One action; an action that is not enabled changes nothing. */
  function Step(cfg: Config, st: State, a: Action): State {
    match a
    case Emit(kind, data, session, ts) =>
      var e := MakeEvent(|st.log|, kind, data, session, ts);
      st.(log := st.log + [e], history := Last(cfg.maxEvents, st.history + [e]),
          pending := st.pending + Scheduled(st.subs, st.active, e))
    case Subscribe(loop, session, since) =>
      st.(subs := st.subs + [NewSub(cfg, st, loop, session, since)], active := st.active + [|st.subs|])
    case RunCallback(loop) =>
      var i := FirstOf(st.pending, loop);
      if i == |st.pending| || st.pending[i].sub >= |st.subs| then st
      else
        var c := st.pending[i];
        st.(subs := st.subs[c.sub := Offered(st.subs[c.sub], cfg.queueSize, c.event)],
            pending := st.pending[..i] + st.pending[i + 1..])
    case Consume(j) =>
      if j >= |st.subs| || st.subs[j].queue == [] then st
      else st.(subs := st.subs[j := Taken(st.subs[j])])
    case Unsubscribe(j) =>
      if j >= |st.subs| || j !in st.active then st
      else st.(subs := st.subs[j := st.subs[j].(left := Some(|st.log|))], active := Without(st.active, j))
  }

  function Run(cfg: Config, acts: seq<Action>): State {
    if acts == [] then INIT else Step(cfg, Run(cfg, acts[..|acts| - 1]), acts[|acts| - 1])
  }

  // ----- what every step keeps

  function PendingOf(pending: seq<Callback>, j: nat): seq<Event> {
    if pending == [] then []
    else
      PendingOf(pending[..|pending| - 1], j)
      + if pending[|pending| - 1].sub == j then [pending[|pending| - 1].event] else []
  }

  /** How much of the log a subscriber gets to see. */
  function End(s: Sub, log: seq<Event>): nat {
    match s.left case None => |log| case Some(n) => n
  }

  /** Everything a subscriber is meant to see, in order: the matching part of the
      history it found, then every later matching event until it left. */
  function Stream(cfg: Config, s: Sub, log: seq<Event>): seq<Event>
    requires s.joined <= End(s, log) <= |log|
  {
    Filter(Last(cfg.maxEvents, log[..s.joined]), s.session, s.since)
    + Filter(log[s.joined..End(s, log)], s.session, None)
  }

  /** The queue is the contiguous newest part of what was offered, what was read is
      part of the rest in order, and whatever is in neither was overtaken by at
      least a full queue of newer events. */
  ghost predicate QueueInv(queueSize: int, s: Sub) {
    && |s.queue| <= |s.offered|
    && s.queue == s.offered[|s.offered| - |s.queue|..]
    && (queueSize > 0 ==> |s.queue| <= queueSize)
    && |s.read| == |s.readAt|
    && (forall k :: 0 <= k < |s.readAt| ==>
          s.readAt[k] < |s.offered| - |s.queue| && s.read[k] == s.offered[s.readAt[k]])
    && (forall i, k :: 0 <= i < k < |s.readAt| ==> s.readAt[i] < s.readAt[k])
    && (forall i :: 0 <= i < |s.offered| - |s.queue| && i !in s.readAt ==>
          queueSize > 0 && |s.offered| - 1 - i >= queueSize)
  }

  ghost predicate SubInv(cfg: Config, st: State, j: nat)
    requires j < |st.subs|
  {
    var s := st.subs[j];
    && s.joined <= End(s, st.log) <= |st.log|
    && s.offered + PendingOf(st.pending, j) == Stream(cfg, s, st.log)
    && (s.left.None? <==> j in st.active)
    && QueueInv(cfg.queueSize, s)
  }

  ghost predicate Inv(cfg: Config, st: State) {
    && (forall i :: 0 <= i < |st.log| ==> st.log[i].id == i)
    && st.history == Last(cfg.maxEvents, st.log)
    && (forall i :: 0 <= i < |st.active| ==> st.active[i] < |st.subs|)
    && (forall i, k :: 0 <= i < k < |st.active| ==> st.active[i] != st.active[k])
    && (forall i :: 0 <= i < |st.pending| ==>
          st.pending[i].sub < |st.subs| && st.pending[i].loop == st.subs[st.pending[i].sub].loop)
    && (forall j :: 0 <= j < |st.subs| ==> SubInv(cfg, st, j))
  }

  lemma OfferKeeps(queueSize: int, s: Sub, e: Event)
    requires QueueInv(queueSize, s)
    ensures QueueInv(queueSize, Offered(s, queueSize, e))
  {
    var t := Offered(s, queueSize, e);
    assert t.offered[|t.offered| - |t.queue|..] == t.queue;
    forall i | 0 <= i < |t.offered| - |t.queue| && i !in t.readAt
      ensures queueSize > 0 && |t.offered| - 1 - i >= queueSize
    {
      if i < |s.offered| - |s.queue| { assert i !in s.readAt; }
    }
  }

  lemma TakeKeeps(queueSize: int, s: Sub)
    requires QueueInv(queueSize, s) && s.queue != []
    ensures QueueInv(queueSize, Taken(s))
  {
    var t := Taken(s);
    var n := |s.offered| - |s.queue|;
    assert s.queue[0] == s.offered[n];
    assert t.offered[|t.offered| - |t.queue|..] == s.offered[n..][1..] == t.queue;
    assert t.readAt[|s.readAt|] == n;
    forall i | 0 <= i < |t.offered| - |t.queue| && i !in t.readAt
      ensures queueSize > 0 && |t.offered| - 1 - i >= queueSize
    {
      assert n in t.readAt;
      if i < n { assert i !in s.readAt; }
    }
  }

  lemma {:induction false} OfferAllKeeps(queueSize: int, s: Sub, es: seq<Event>)
    requires QueueInv(queueSize, s)
    ensures var t := OfferAll(s, queueSize, es);
      && QueueInv(queueSize, t) && t.offered == s.offered + es
      && t == s.(queue := t.queue, offered := t.offered)
  {
    if es != [] {
      var before, e := es[..|es| - 1], es[|es| - 1];
      OfferAllKeeps(queueSize, s, before);
      OfferKeeps(queueSize, OfferAll(s, queueSize, before), e);
      assert s.offered + es == s.offered + before + [e];
    }
  }

  lemma {:induction false} PendingOfAppend(a: seq<Callback>, b: seq<Callback>, j: nat)
    ensures PendingOf(a + b, j) == PendingOf(a, j) + PendingOf(b, j)
  {
    if b == [] {
      assert a + b == a;
    } else {
      assert (a + b)[..|a + b| - 1] == a + b[..|b| - 1];
      PendingOfAppend(a, b[..|b| - 1], j);
    }
  }

  /** A subscriber whose loop is not among the callbacks' loops awaits nothing. */
  lemma {:induction false} NonePending(pending: seq<Callback>, j: nat)
    requires forall k :: 0 <= k < |pending| ==> pending[k].sub != j
    ensures PendingOf(pending, j) == []
  {
    if pending != [] { NonePending(pending[..|pending| - 1], j); }
  }

  /** An event is scheduled once for each registered subscriber it matches. */
  lemma {:induction false} ScheduledOf(subs: seq<Sub>, active: seq<nat>, e: Event, j: nat)
    requires j < |subs|
    requires forall i, k :: 0 <= i < k < |active| ==> active[i] != active[k]
    ensures PendingOf(Scheduled(subs, active, e), j)
         == if j in active && Matches(e, subs[j].session) then [e] else []
  {
    if active != [] {
      var n, k := |active| - 1, active[|active| - 1];
      ScheduledOf(subs, active[..n], e, j);
      PendingOfAppend(Scheduled(subs, active[..n], e), ScheduledFor(subs, k, e), j);
      ScheduledForOf(subs, k, e, j);
      LastActive(active, n, j);
    }
  }

  lemma LastActive(active: seq<nat>, n: nat, j: nat)
    requires |active| == n + 1 && forall i, k :: 0 <= i < k < |active| ==> active[i] != active[k]
    ensures j in active <==> j in active[..n] || j == active[n]
    ensures active[n] !in active[..n]
  {
    assert active == active[..n] + [active[n]];
  }

  lemma ScheduledForOf(subs: seq<Sub>, k: nat, e: Event, j: nat)
    requires j < |subs|
    ensures PendingOf(ScheduledFor(subs, k, e), j) == if k == j && Matches(e, subs[j].session) then [e] else []
  {
    if ScheduledFor(subs, k, e) != [] { PendingOfOne(ScheduledFor(subs, k, e)[0], j); }
  }

  lemma {:induction false} ScheduledLoops(subs: seq<Sub>, active: seq<nat>, e: Event)
    ensures forall i :: 0 <= i < |Scheduled(subs, active, e)| ==>
      var c := Scheduled(subs, active, e)[i]; c.sub < |subs| && c.loop == subs[c.sub].loop
  {
    if active != [] { ScheduledLoops(subs, active[..|active| - 1], e); }
  }

  lemma {:induction false} FilterAppend(a: seq<Event>, e: Event, session: Option<string>, since: Option<real>)
    ensures Filter(a + [e], session, since)
         == Filter(a, session, since)
            + if Matches(e, session) && (since.None? || e.ts > since.value) then [e] else []
  {
    assert (a + [e])[..|a|] == a;
  }

  lemma SeenAppend(log: seq<Event>, e: Event, joined: nat)
    requires joined <= |log|
    ensures (log + [e])[joined..|log + [e]|] == log[joined..|log|] + [e]
  {
  }

  /** Emitting an event extends the stream of a registered subscriber it matches. */
  lemma StreamGrows(cfg: Config, s: Sub, log: seq<Event>, e: Event)
    requires s.joined <= End(s, log) <= |log|
    ensures Stream(cfg, s, log + [e])
         == Stream(cfg, s, log) + if s.left.None? && Matches(e, s.session) then [e] else []
  {
    assert (log + [e])[..s.joined] == log[..s.joined];
    var seen := log[s.joined..End(s, log)];
    if s.left.None? {
      SeenAppend(log, e, s.joined);
      FilterAppend(seen, e, s.session, None);
    } else {
      assert (log + [e])[s.joined..s.left.value] == seen;
    }
  }

  lemma EmitKeepsSub(cfg: Config, st: State, st': State, e: Event, j: nat)
    requires j < |st.subs| && SubInv(cfg, st, j)
    requires forall i, k :: 0 <= i < k < |st.active| ==> st.active[i] != st.active[k]
    requires st'.log == st.log + [e] && st'.subs == st.subs && st'.active == st.active
    requires st'.pending == st.pending + Scheduled(st.subs, st.active, e)
    ensures SubInv(cfg, st', j)
  {
    var s := st.subs[j];
    StreamGrows(cfg, s, st.log, e);
    ScheduledOf(st.subs, st.active, e, j);
    var news := PendingOf(Scheduled(st.subs, st.active, e), j);
    calc {
      s.offered + PendingOf(st'.pending, j);
      { PendingOfAppend(st.pending, Scheduled(st.subs, st.active, e), j); }
      s.offered + (PendingOf(st.pending, j) + news);
      (s.offered + PendingOf(st.pending, j)) + news;
      Stream(cfg, s, st'.log);
    }
  }

  lemma EmitKeeps(cfg: Config, st: State, kind: string, data: map<string, string>, session: Option<string>, ts: real)
    requires Inv(cfg, st)
    ensures Inv(cfg, Step(cfg, st, Emit(kind, data, session, ts)))
  {
    var st' := Step(cfg, st, Emit(kind, data, session, ts));
    var e := MakeEvent(|st.log|, kind, data, session, ts);
    LastAppend(cfg.maxEvents, st.log, [e]);
    forall j | 0 <= j < |st'.subs| ensures SubInv(cfg, st', j) {
      assert SubInv(cfg, st, j);
      EmitKeepsSub(cfg, st, st', e, j);
    }
    ScheduledLoops(st.subs, st.active, e);
  }

  /** To a subscriber that has just been replayed the history, nothing is missing. */
  lemma ReplayedStream(cfg: Config, s: Sub, log: seq<Event>)
    requires s.joined == |log| && s.left.None?
    ensures Stream(cfg, s, log) == Filter(Last(cfg.maxEvents, log), s.session, s.since)
  {
    assert log[..|log|] == log && log[|log|..|log|] == [];
  }

  lemma NewSubIs(cfg: Config, st: State, loop: nat, session: Option<string>, since: Option<real>, s: Sub)
    requires Inv(cfg, st) && s == NewSub(cfg, st, loop, session, since)
    ensures QueueInv(cfg.queueSize, s) && s.offered == Filter(st.history, session, since)
    ensures s.joined == |st.log| && s.left.None? && s.session == session && s.since == since
  {
    var replay := Filter(st.history, session, since);
    OfferAllKeeps(cfg.queueSize, Sub(loop, session, since, [], replay, [], [], [], |st.log|, None), replay);
    assert [] + replay == replay;
  }

  lemma NewSubInv(cfg: Config, st: State, loop: nat, session: Option<string>, since: Option<real>)
    requires Inv(cfg, st)
    ensures SubInv(cfg, Step(cfg, st, Subscribe(loop, session, since)), |st.subs|)
  {
    var n, s := |st.subs|, NewSub(cfg, st, loop, session, since);
    NewSubIs(cfg, st, loop, session, since, s);
    ReplayedStream(cfg, s, st.log);
    NonePending(st.pending, n);
    var st' := Step(cfg, st, Subscribe(loop, session, since));
    assert st'.subs[n] == s && st'.active[|st.active|] == n;
    assert s.offered + [] == s.offered;
  }

  /** A step that does not touch a subscriber. */
  lemma UntouchedKeeps(cfg: Config, st: State, st': State, j: nat)
    requires j < |st.subs| && SubInv(cfg, st, j)
    requires st'.log == st.log && st'.pending == st.pending && j < |st'.subs| && st'.subs[j] == st.subs[j]
    requires j in st'.active <==> j in st.active
    ensures SubInv(cfg, st', j)
  {
  }

  lemma SubscribeKeeps(cfg: Config, st: State, loop: nat, session: Option<string>, since: Option<real>)
    requires Inv(cfg, st)
    ensures Inv(cfg, Step(cfg, st, Subscribe(loop, session, since)))
  {
    var n := |st.subs|;
    var st' := Step(cfg, st, Subscribe(loop, session, since));
    NewSubInv(cfg, st, loop, session, since);
    assert forall j :: j in st'.active <==> j in st.active || j == n;
    forall j | 0 <= j < |st'.subs| ensures SubInv(cfg, st', j) {
      if j < n {
        assert SubInv(cfg, st, j);
        UntouchedKeeps(cfg, st, st', j);
      }
    }
  }

  lemma PendingOfOne(c: Callback, j: nat)
    ensures PendingOf([c], j) == if c.sub == j then [c.event] else []
  {
    assert [c][..0] == [];
  }

  lemma PendingOfParts(a: seq<Callback>, c: Callback, b: seq<Callback>, j: nat)
    ensures PendingOf(a + [c] + b, j)
         == PendingOf(a, j) + (if c.sub == j then [c.event] else []) + PendingOf(b, j)
    ensures PendingOf(a + b, j) == PendingOf(a, j) + PendingOf(b, j)
  {
    PendingOfOne(c, j);
    PendingOfAppend(a, [c], j);
    PendingOfAppend(a + [c], b, j);
    PendingOfAppend(a, b, j);
  }

  /** Removing a subscriber's first pending callback removes its first event. */
  lemma FirstPending(pending: seq<Callback>, i: nat, j: nat, a: seq<Callback>, b: seq<Callback>)
    requires i < |pending| && a == pending[..i] && b == pending[i + 1..]
    requires pending[i].sub == j ==> forall k :: 0 <= k < i ==> pending[k].sub != j
    ensures PendingOf(pending, j)
         == (if pending[i].sub == j then [pending[i].event] else []) + PendingOf(a + b, j)
  {
    assert pending == a + [pending[i]] + b;
    PendingOfParts(a, pending[i], b, j);
    if pending[i].sub == j { NonePending(a, j); }
  }

  /** One subscriber's account when callback `i` runs: its first one, or another's. */
  lemma RunCallbackKeepsSub(cfg: Config, st: State, i: nat, j: nat, st': State)
    requires i < |st.pending| && j < |st.subs| && SubInv(cfg, st, j)
    requires st.pending[i].sub == j ==> forall k :: 0 <= k < i ==> st.pending[k].sub != j
    requires st'.log == st.log && st'.active == st.active && |st'.subs| == |st.subs|
    requires st'.pending == st.pending[..i] + st.pending[i + 1..]
    requires st'.subs[j] == if st.pending[i].sub == j then Offered(st.subs[j], cfg.queueSize, st.pending[i].event)
                            else st.subs[j]
    ensures SubInv(cfg, st', j)
  {
    var s, e := st.subs[j], st.pending[i].event;
    FirstPending(st.pending, i, j, st.pending[..i], st.pending[i + 1..]);
    if st.pending[i].sub == j {
      OfferKeeps(cfg.queueSize, s, e);
      assert (s.offered + [e]) + PendingOf(st'.pending, j) == s.offered + ([e] + PendingOf(st'.pending, j));
    }
  }

  lemma RunCallbackKeeps(cfg: Config, st: State, loop: nat)
    requires Inv(cfg, st)
    ensures Inv(cfg, Step(cfg, st, RunCallback(loop)))
  {
    var st' := Step(cfg, st, RunCallback(loop));
    var i := FirstOf(st.pending, loop);
    forall j | 0 <= j < |st'.subs| ensures SubInv(cfg, st', j) {
      assert SubInv(cfg, st, j);
      if i < |st.pending| { RunCallbackKeepsSub(cfg, st, i, j, st'); }
    }
  }

  lemma ConsumeKeeps(cfg: Config, st: State, n: nat)
    requires Inv(cfg, st)
    ensures Inv(cfg, Step(cfg, st, Consume(n)))
  {
    var st' := Step(cfg, st, Consume(n));
    forall j | 0 <= j < |st'.subs| ensures SubInv(cfg, st', j) {
      assert SubInv(cfg, st, j);
      if j == n && st.subs[n].queue != [] { TakeKeeps(cfg.queueSize, st.subs[n]); }
    }
  }

  lemma {:induction false} WithoutIs(active: seq<nat>, j: nat)
    requires forall i, k :: 0 <= i < k < |active| ==> active[i] != active[k]
    ensures var r := Without(active, j);
      && (forall x :: x in r <==> x in active && x != j)
      && (forall i, k :: 0 <= i < k < |r| ==> r[i] != r[k])
  {
    if active != [] {
      var n := |active| - 1;
      WithoutIs(active[..n], j);
      assert active == active[..n] + [active[n]];
      assert active[n] !in active[..n];
      var r := Without(active[..n], j);
      forall i | 0 <= i < |r| ensures r[i] != active[n] {
        assert r[i] in active[..n];
      }
    }
  }

  lemma UnsubscribeKeepsSub(cfg: Config, st: State, st': State, n: nat, j: nat)
    requires j < |st.subs| && n < |st.subs| && SubInv(cfg, st, j) && n in st.active
    requires st'.log == st.log && st'.pending == st.pending
    requires st'.subs == st.subs[n := st.subs[n].(left := Some(|st.log|))]
    requires forall x :: x in st'.active <==> x in st.active && x != n
    ensures SubInv(cfg, st', j)
  {
  }

  lemma UnsubscribeKeeps(cfg: Config, st: State, n: nat)
    requires Inv(cfg, st)
    ensures Inv(cfg, Step(cfg, st, Unsubscribe(n)))
  {
    var st' := Step(cfg, st, Unsubscribe(n));
    if n < |st.subs| && n in st.active {
      WithoutIs(st.active, n);
      forall j | 0 <= j < |st'.subs| ensures SubInv(cfg, st', j) {
        assert SubInv(cfg, st, j);
        UnsubscribeKeepsSub(cfg, st, st', n, j);
      }
      forall i | 0 <= i < |st'.active| ensures st'.active[i] < |st'.subs| {
        assert st'.active[i] in st.active;
      }
    }
  }

  lemma StepKeeps(cfg: Config, st: State, a: Action)
    requires Inv(cfg, st)
    ensures Inv(cfg, Step(cfg, st, a))
  {
    match a
    case Emit(kind, data, session, ts) => EmitKeeps(cfg, st, kind, data, session, ts);
    case Subscribe(loop, session, since) => SubscribeKeeps(cfg, st, loop, session, since);
    case RunCallback(loop) => RunCallbackKeeps(cfg, st, loop);
    case Consume(j) => ConsumeKeeps(cfg, st, j);
    case Unsubscribe(j) => UnsubscribeKeeps(cfg, st, j);
  }

  lemma {:induction false} RunKeeps(cfg: Config, acts: seq<Action>)
    ensures Inv(cfg, Run(cfg, acts))
  {
    if acts != [] {
      RunKeeps(cfg, acts[..|acts| - 1]);
      StepKeeps(cfg, Run(cfg, acts[..|acts| - 1]), acts[|acts| - 1]);
    }
  }

  // ----- what a subscriber can rely on, over every run

  /** The events of a run, numbered in emission order. */
  function Emitted(acts: seq<Action>): seq<Event> {
    if acts == [] then []
    else
      var es := Emitted(acts[..|acts| - 1]);
      match acts[|acts| - 1]
      case Emit(kind, data, session, ts) => es + [MakeEvent(|es|, kind, data, session, ts)]
      case _ => es
  }

  /** In every reachable state the log is the emitted events, and the history the last
      `max_events` of them. */
  lemma {:induction false} LogIsEmitted(cfg: Config, acts: seq<Action>)
    ensures Run(cfg, acts).log == Emitted(acts)
    ensures Run(cfg, acts).history == Last(cfg.maxEvents, Emitted(acts))
  {
    if acts != [] {
      var before := acts[..|acts| - 1];
      LogIsEmitted(cfg, before);
      if acts[|acts| - 1].Emit? {
        var a := acts[|acts| - 1];
        LastAppend(cfg.maxEvents, Emitted(before), [MakeEvent(|Emitted(before)|, a.kind, a.data, a.session, a.ts)]);
      }
    }
  }

  /** Events in emission order, all between two points of the log. */
  ghost predicate InOrder(es: seq<Event>, lo: nat, hi: nat) {
    && (forall i :: 0 <= i < |es| ==> lo <= es[i].id < hi)
    && forall i, k :: 0 <= i < k < |es| ==> es[i].id < es[k].id
  }

  lemma {:induction false} FilterWithin(es: seq<Event>, session: Option<string>, since: Option<real>, i: nat)
    requires i < |Filter(es, session, since)|
    ensures Filter(es, session, since)[i] in es
  {
    if es != [] {
      var n := |es| - 1;
      if i < |Filter(es[..n], session, since)| { FilterWithin(es[..n], session, since, i); }
    }
  }

  lemma {:induction false} FilterInOrder(es: seq<Event>, session: Option<string>, since: Option<real>, lo: nat, hi: nat)
    requires InOrder(es, lo, hi)
    ensures InOrder(Filter(es, session, since), lo, hi)
  {
    if es != [] {
      var n := |es| - 1;
      FilterInOrder(es[..n], session, since, lo, hi);
      var f := Filter(es[..n], session, since);
      forall i | 0 <= i < |f| ensures f[i].id < es[n].id {
        FilterWithin(es[..n], session, since, i);
        OlderThanLast(es, n, f[i], lo, hi);
      }
    }
  }

  lemma OlderThanLast(es: seq<Event>, n: nat, e: Event, lo: nat, hi: nat)
    requires InOrder(es, lo, hi) && n < |es| && e in es[..n]
    ensures e.id < es[n].id && e in es
  {
  }

  lemma StreamInOrder(cfg: Config, s: Sub, log: seq<Event>)
    requires s.joined <= End(s, log) <= |log|
    requires forall i :: 0 <= i < |log| ==> log[i].id == i
    ensures InOrder(Stream(cfg, s, log), 0, |log|)
  {
    var h := Last(cfg.maxEvents, log[..s.joined]);
    var later := log[s.joined..End(s, log)];
    FilterInOrder(h, s.session, s.since, 0, s.joined);
    FilterInOrder(later, s.session, None, s.joined, |log|);
    InOrderAppend(Filter(h, s.session, s.since), Filter(later, s.session, None), 0, s.joined, |log|);
  }

  lemma InOrderAppend(a: seq<Event>, b: seq<Event>, lo: nat, mid: nat, hi: nat)
    requires InOrder(a, lo, mid) && InOrder(b, mid, hi) && lo <= mid <= hi
    ensures InOrder(a + b, lo, hi)
  {
  }

  /** In every reachable state, what a subscriber was offered is a beginning of its
      stream; its queue is the newest contiguous part of that, within capacity; and
      what it has read is an in-order subsequence of its stream without repeats. */
  lemma ReadsInOrder(cfg: Config, acts: seq<Action>, j: nat)
    requires j < |Run(cfg, acts).subs|
    ensures var s, log := Run(cfg, acts).subs[j], Emitted(acts);
      && s.joined <= End(s, log) <= |log|
      && var stream := Stream(cfg, s, log);
      && InOrder(stream, 0, |log|)
      && s.offered <= stream
      && |s.queue| <= |s.offered|
      && s.queue == s.offered[|s.offered| - |s.queue|..]
      && (cfg.queueSize > 0 ==> |s.queue| <= cfg.queueSize)
      && |s.readAt| == |s.read|
      && (forall k :: 0 <= k < |s.read| ==> s.readAt[k] < |stream| && s.read[k] == stream[s.readAt[k]])
      && (forall i, k :: 0 <= i < k < |s.read| ==> s.readAt[i] < s.readAt[k])
      && InOrder(s.read, 0, |log|)
  {
    RunKeeps(cfg, acts);
    LogIsEmitted(cfg, acts);
    var st := Run(cfg, acts);
    assert SubInv(cfg, st, j);
    var s, stream := st.subs[j], Stream(cfg, st.subs[j], st.log);
    StreamInOrder(cfg, s, st.log);
    ReadsFrom(s, stream, PendingOf(st.pending, j));
  }

  lemma ReadsFrom(s: Sub, stream: seq<Event>, pending: seq<Event>)
    requires stream == s.offered + pending && |s.readAt| == |s.read| && |s.queue| <= |s.offered|
    requires forall k :: 0 <= k < |s.readAt| ==>
      s.readAt[k] < |s.offered| - |s.queue| && s.read[k] == s.offered[s.readAt[k]]
    ensures forall k :: 0 <= k < |s.read| ==> s.readAt[k] < |stream| && s.read[k] == stream[s.readAt[k]]
  {
  }

  /** An event offered to a subscriber that is neither queued nor read was lost to at
      least `queueSize` newer events of the same stream. */
  lemma LostOnlyToNewer(cfg: Config, acts: seq<Action>, j: nat, i: nat)
    requires j < |Run(cfg, acts).subs|
    requires var s := Run(cfg, acts).subs[j];
      |s.queue| <= |s.offered| && i < |s.offered| - |s.queue| && i !in s.readAt
    ensures cfg.queueSize > 0 && |Run(cfg, acts).subs[j].offered| - (i + 1) >= cfg.queueSize
  {
    RunKeeps(cfg, acts);
    assert SubInv(cfg, Run(cfg, acts), j);
  }

  lemma {:induction false} FullAscent(at: seq<nat>, n: nat)
    requires forall k :: 0 <= k < |at| ==> at[k] < n
    requires forall i, k :: 0 <= i < k < |at| ==> at[i] < at[k]
    requires forall i :: 0 <= i < n ==> i in at
    ensures |at| == n && forall k :: 0 <= k < n ==> at[k] == k
  {
    if at == [] {
      assert n > 0 ==> 0 in at;
    } else {
      var m := |at| - 1;
      assert at[m] < n;
      assert n - 1 in at;
      assert at[m] == n - 1;
      forall i | 0 <= i < n - 1 ensures i in at[..m] {
        assert i in at;
      }
      FullAscent(at[..m], n - 1);
    }
  }

  /** A subscriber that was never offered more than its queue holds has lost nothing:
      what it read, what is queued and what is still to be offered is its stream. */
  lemma LosslessBelowCapacity(cfg: Config, acts: seq<Action>, j: nat)
    requires j < |Run(cfg, acts).subs|
    requires cfg.queueSize <= 0 || |Run(cfg, acts).subs[j].offered| <= cfg.queueSize
    ensures var st := Run(cfg, acts); var s := st.subs[j];
      && s.joined <= End(s, Emitted(acts)) <= |Emitted(acts)|
      && s.read + s.queue + PendingOf(st.pending, j) == Stream(cfg, s, Emitted(acts))
  {
    RunKeeps(cfg, acts);
    LogIsEmitted(cfg, acts);
    assert SubInv(cfg, Run(cfg, acts), j);
    NothingLost(cfg.queueSize, Run(cfg, acts).subs[j]);
  }

  lemma NothingLost(queueSize: int, s: Sub)
    requires QueueInv(queueSize, s) && (queueSize <= 0 || |s.offered| <= queueSize)
    ensures s.read + s.queue == s.offered
  {
    var n := |s.offered| - |s.queue|;
    FullAscent(s.readAt, n);
    assert s.read == s.offered[..n];
  }

  // ----- in terms of the calls that were made

  /** The `emit` calls of a run, in order. */
  function Emits(acts: seq<Action>): (es: seq<Action>)
    ensures forall i :: 0 <= i < |es| ==> es[i].Emit?
  {
    if acts == [] then []
    else Emits(acts[..|acts| - 1]) + if acts[|acts| - 1].Emit? then [acts[|acts| - 1]] else []
  }

  /** The event says what the caller passed: its kind, its time stamp and every entry of
      its data, and nothing else but a session the data did not name. */
  ghost predicate Records(e: Event, kind: string, data: map<string, string>, session: Option<string>, ts: real) {
    && e.kind == kind && e.ts == ts
    && (forall k :: k in data ==> k in e.data && e.data[k] == data[k])
    && (forall k :: k in e.data ==> k in data || k == "session_id")
    && ("session_id" !in data ==>
          if session.Some? then "session_id" in e.data && e.data["session_id"] == session.value
          else "session_id" !in e.data)
  }

  /** The call is of this session: it names it, or leaves it to the data. */
  predicate CallMatches(a: Action, filter: Option<string>)
    requires a.Emit?
  {
    match filter
    case None => true
    case Some(s) =>
      if a.session.Some? && a.session.value != "" then a.session.value == s
      else if "session_id" in a.data then a.data["session_id"] == s
      else a.session == Some(s)
  }

  /** Event i of the log is what the i-th `emit` of the run passed. */
  lemma {:induction false} EveryEmitRecorded(cfg: Config, acts: seq<Action>, i: nat)
    requires i < |Emits(acts)|
    ensures |Run(cfg, acts).log| == |Emits(acts)|
    ensures var (e, a) := (Run(cfg, acts).log[i], Emits(acts)[i]);
      && e.id == i && Records(e, a.kind, a.data, a.session, a.ts)
      && forall filter :: Matches(e, filter) <==> CallMatches(a, filter)
  {
    var before := acts[..|acts| - 1];
    var a := acts[|acts| - 1];
    LogLength(cfg, before);
    LogLength(cfg, acts);
    if i < |Emits(before)| {
      EveryEmitRecorded(cfg, before, i);
    } else {
      MadeMatches(i, a.kind, a.data, a.session, a.ts);
    }
  }

  lemma MadeMatches(id: nat, kind: string, data: map<string, string>, session: Option<string>, ts: real)
    ensures forall filter ::
      Matches(MakeEvent(id, kind, data, session, ts), filter) <==> CallMatches(Emit(kind, data, session, ts), filter)
  {
    forall filter: Option<string>
      ensures Matches(MakeEvent(id, kind, data, session, ts), filter)
         <==> CallMatches(Emit(kind, data, session, ts), filter)
    {
      if filter.Some? { EventSession(id, kind, data, session, ts, filter.value); }
    }
  }

  lemma {:induction false} LogLength(cfg: Config, acts: seq<Action>)
    ensures |Run(cfg, acts).log| == |Emits(acts)|
  {
    if acts != [] { LogLength(cfg, acts[..|acts| - 1]); }
  }

  lemma {:induction false} FilterHas(es: seq<Event>, session: Option<string>, since: Option<real>, e: Event)
    ensures e in Filter(es, session, since) <==> e in es && Matches(e, session) && (since.None? || e.ts > since.value)
  {
    if es != [] {
      var n := |es| - 1;
      FilterHas(es[..n], session, since, e);
      assert es == es[..n] + [es[n]];
    }
  }

  /** Where a numbered event stands. */
  lemma PartOfLog(log: seq<Event>, i: nat, lo: nat, hi: nat)
    requires forall k :: 0 <= k < |log| ==> log[k].id == k
    requires i < |log| && lo <= hi <= |log|
    ensures log[i] in log[lo..hi] <==> lo <= i < hi
  {
    if lo <= i < hi { assert log[lo..hi][i - lo] == log[i]; }
  }

  ghost predicate Numbered(log: seq<Event>) {
    forall k :: 0 <= k < |log| ==> log[k].id == k
  }

  /** What is replayed of the first `joined` events. */
  lemma ReplayHas(log: seq<Event>, n: nat, joined: nat, session: Option<string>, since: Option<real>, i: nat)
    requires Numbered(log) && i < |log| && joined <= |log|
    ensures log[i] in Filter(Last(n, log[..joined]), session, since) <==>
      i < joined <= i + n && Matches(log[i], session) && (since.None? || log[i].ts > since.value)
  {
    var first := if joined <= n then 0 else joined - n;
    assert Last(n, log[..joined]) == log[first..joined];
    PartOfLog(log, i, first, joined);
    FilterHas(log[first..joined], session, since, log[i]);
  }

  lemma LaterHas(log: seq<Event>, joined: nat, end: nat, session: Option<string>, i: nat)
    requires Numbered(log) && i < |log| && joined <= end <= |log|
    ensures log[i] in Filter(log[joined..end], session, None) <==> joined <= i < end && Matches(log[i], session)
  {
    PartOfLog(log, i, joined, end);
    FilterHas(log[joined..end], session, None, log[i]);
  }

  lemma StreamHas(cfg: Config, s: Sub, log: seq<Event>, i: nat)
    requires Numbered(log) && i < |log| && s.joined <= End(s, log) <= |log|
    ensures log[i] in Stream(cfg, s, log) <==>
      && Matches(log[i], s.session)
      && ((i < s.joined <= i + cfg.maxEvents && (s.since.None? || log[i].ts > s.since.value))
          || s.joined <= i < End(s, log))
  {
    ReplayHas(log, cfg.maxEvents, s.joined, s.session, s.since, i);
    LaterHas(log, s.joined, End(s, log), s.session, i);
  }

  /** Over every run, what a subscriber gets to see of the `emit` calls: number i is in its
      stream exactly when it was among the last `max_events` on joining, newer than
      `since` and of its session, or came between joining and leaving and is of its
      session. */
  lemma StreamIs(cfg: Config, acts: seq<Action>, j: nat, i: nat)
    requires j < |Run(cfg, acts).subs| && i < |Emits(acts)|
    ensures var (st, a) := (Run(cfg, acts), Emits(acts)[i]);
      var s := st.subs[j];
      && |st.log| == |Emits(acts)| && s.joined <= End(s, st.log) <= |st.log|
      && (st.log[i] in Stream(cfg, s, st.log) <==>
            CallMatches(a, s.session)
            && ((i < s.joined <= i + cfg.maxEvents && (s.since.None? || a.ts > s.since.value))
                || s.joined <= i < End(s, st.log)))
  {
    RunKeeps(cfg, acts);
    EveryEmitRecorded(cfg, acts, i);
    var st := Run(cfg, acts);
    assert SubInv(cfg, st, j);
    StreamHas(cfg, st.subs[j], st.log, i);
  }

  lemma RunOn(cfg: Config, acts: seq<Action>, a: Action, more: seq<Action>)
    requires more == acts + [a]
    ensures Run(cfg, more) == Step(cfg, Run(cfg, acts), a)
  {
    assert more[..|more| - 1] == acts;
  }

  lemma NewcomerSees(cfg: Config, st: State, loop: nat, filter: Option<string>, since: Option<real>, s: Sub, i: nat)
    requires Inv(cfg, st) && s == NewSub(cfg, st, loop, filter, since) && i < |st.log|
    ensures InOrder(s.offered, 0, |st.log|)
    ensures st.log[i] in s.offered <==>
      |st.log| <= i + cfg.maxEvents && (since.None? || st.log[i].ts > since.value) && Matches(st.log[i], filter)
  {
    NewSubIs(cfg, st, loop, filter, since, s);
    assert st.log[..|st.log|] == st.log;
    ReplayHas(st.log, cfg.maxEvents, |st.log|, filter, since, i);
    ReplayInOrder(cfg, st, filter, since);
  }

  lemma ReplayInOrder(cfg: Config, st: State, filter: Option<string>, since: Option<real>)
    requires Inv(cfg, st)
    ensures InOrder(Filter(st.history, filter, since), 0, |st.log|)
  {
    FilterInOrder(st.history, filter, since, 0, |st.log|);
  }

  lemma Joins(cfg: Config, st: State, loop: nat, filter: Option<string>, since: Option<real>, s: Sub)
    requires s == NewSub(cfg, st, loop, filter, since)
    ensures var st' := Step(cfg, st, Subscribe(loop, filter, since));
      st'.log == st.log && st'.subs == st.subs + [s]
  {
  }

  /** A subscriber that joins after any run is at once offered, in order, exactly the
      `emit` calls that were among the last `max_events`, newer than `since`, and of its
      session. */
  lemma JoiningReplays(cfg: Config, acts: seq<Action>, loop: nat, filter: Option<string>, since: Option<real>, i: nat)
    returns (s: Sub)
    requires i < |Emits(acts)|
    ensures Run(cfg, acts + [Subscribe(loop, filter, since)]).subs == Run(cfg, acts).subs + [s]
    ensures |Run(cfg, acts).log| == |Emits(acts)| && InOrder(s.offered, 0, |Emits(acts)|)
    ensures Run(cfg, acts).log[i] in s.offered <==>
      && |Emits(acts)| <= i + cfg.maxEvents && (since.None? || Emits(acts)[i].ts > since.value)
      && CallMatches(Emits(acts)[i], filter)
  {
    var st := Run(cfg, acts);
    s := NewSub(cfg, st, loop, filter, since);
    RunKeeps(cfg, acts);
    EveryEmitRecorded(cfg, acts, i);
    RunOn(cfg, acts, Subscribe(loop, filter, since), acts + [Subscribe(loop, filter, since)]);
    Joins(cfg, st, loop, filter, since, s);
    NewcomerSees(cfg, st, loop, filter, since, s, i);
  }

  // ----- who joined when

  lemma StepKeepsJoin(cfg: Config, st: State, a: Action, j: nat)
    requires j < |st.subs|
    ensures var st' := Step(cfg, st, a);
      && j < |st'.subs|
      && st'.subs[j].joined == st.subs[j].joined && st'.subs[j].session == st.subs[j].session
      && st'.subs[j].since == st.subs[j].since && st'.subs[j].loop == st.subs[j].loop
  {
  }

  ghost predicate JoinedWith(s: Sub, a: Action, n: nat) {
    a.Subscribe? && s.joined == n && s.session == a.filter && s.since == a.since && s.loop == a.loop
  }

  lemma JoinsWith(cfg: Config, st: State, a: Action, n: nat)
    requires Inv(cfg, st) && a.Subscribe? && n == |st.log|
    ensures var st' := Step(cfg, st, a); |st'.subs| == |st.subs| + 1 && JoinedWith(st'.subs[|st.subs|], a, n)
  {
    var s := NewSub(cfg, st, a.loop, a.filter, a.since);
    NewSubIs(cfg, st, a.loop, a.filter, a.since, s);
    NewSubLoop(cfg, st, a.loop, a.filter, a.since);
    Joins(cfg, st, a.loop, a.filter, a.since, s);
  }

  lemma NewSubLoop(cfg: Config, st: State, loop: nat, session: Option<string>, since: Option<real>)
    ensures NewSub(cfg, st, loop, session, since).loop == loop
  {
    var replay := Filter(st.history, session, since);
    OfferAllKeeps(cfg.queueSize, Sub(loop, session, since, [], replay, [], [], [], |st.log|, None), replay);
  }

  lemma RunLast(cfg: Config, acts: seq<Action>, n: nat)
    requires |acts| == n + 1
    ensures Run(cfg, acts) == Step(cfg, Run(cfg, acts[..n]), acts[n])
  {
  }

  /** A subscriber keeps what it joined with, and joined after the `emit` calls before. */
  lemma {:induction false} JoinedAt(cfg: Config, acts: seq<Action>, k: nat, j: nat)
    requires k < |acts| && acts[k].Subscribe? && j == |Run(cfg, acts[..k]).subs|
    ensures j < |Run(cfg, acts).subs| && JoinedWith(Run(cfg, acts).subs[j], acts[k], |Emits(acts[..k])|)
    decreases |acts|
  {
    var n := |acts| - 1;
    var before := acts[..n];
    var st := Run(cfg, before);
    RunLast(cfg, acts, n);
    if k < n {
      assert before[..k] == acts[..k] && before[k] == acts[k];
      JoinedAt(cfg, before, k, j);
      StepKeepsJoin(cfg, st, acts[n], j);
    } else {
      assert before == acts[..k];
      RunKeeps(cfg, before);
      LogLength(cfg, before);
      JoinsWith(cfg, st, acts[k], |Emits(before)|);
    }
  }

  /** Only its `unsubscribe` makes a subscriber leave, and only the first one. */
  lemma StepLeaves(cfg: Config, st: State, a: Action, j: nat)
    requires Inv(cfg, st) && j < |st.subs|
    ensures var st' := Step(cfg, st, a);
      && j < |st'.subs|
      && st'.subs[j].left == if a == Unsubscribe(j) && st.subs[j].left.None? then Some(|st.log|) else st.subs[j].left
  {
    assert SubInv(cfg, st, j);
  }

  /** A subscriber has left after as many `emit` calls as came before its first
      `unsubscribe`, or not at all. */
  lemma {:induction false} LeftAt(cfg: Config, acts: seq<Action>, k: nat, j: nat)
    requires k <= |acts| && j < |Run(cfg, acts[..k]).subs| && Run(cfg, acts[..k]).subs[j].left.None?
    requires k < |acts| ==> acts[k] == Unsubscribe(j)
    ensures j < |Run(cfg, acts).subs|
    ensures Run(cfg, acts).subs[j].left == if k < |acts| then Some(|Emits(acts[..k])|) else None
    decreases |acts|
  {
    if k == |acts| {
      assert acts[..k] == acts;
    } else {
      var n := |acts| - 1;
      var before := acts[..n];
      var st := Run(cfg, before);
      RunLast(cfg, acts, n);
      RunKeeps(cfg, before);
      LogLength(cfg, before);
      assert before[..k] == acts[..k];
      LeftAt(cfg, before, k, j);
      StepLeaves(cfg, st, acts[n], j);
    }
  }
}
