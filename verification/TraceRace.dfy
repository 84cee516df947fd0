/** What `TraceFanout` leaves out: `emit` and `subscribe` of
    `sw/runtime/server/trace_emitter.py` on different threads.

    `emit` is two steps, the append to the history and the loop that schedules;
    `subscribe` is two steps, the registration and the replay.  Steps of different
    calls interleave at will.  A subscriber's callbacks run after its replay, so what
    it is offered is its replay followed by what was scheduled for it. */
module TraceRace {
  import opened Prelude
  import F = TraceFanout

  datatype Sub = Sub(session: Option<string>, since: Option<real>, registered: bool, replayed: bool,
                     replay: seq<F.Event>, scheduled: seq<F.Event>)

  /** `inFlight` are the events appended and not yet scheduled. */
  datatype State = State(log: seq<F.Event>, history: seq<F.Event>, inFlight: set<nat>, subs: seq<Sub>)

  datatype Action =
    | Append(kind: string, data: map<string, string>, session: Option<string>, ts: real)
    | Schedule(event: nat)
    | Register(filter: Option<string>, since: Option<real>)
    | Replay(joiner: nat)
    | Unsubscribe(leaver: nat)

  const INIT: State := State([], [], {}, [])

  function Notified(s: Sub, e: F.Event): Sub {
    if s.registered && F.Matches(e, s.session) then s.(scheduled := s.scheduled + [e]) else s
  }

  /** One step; a step that is not enabled changes nothing. */
  function Step(maxEvents: nat, st: State, a: Action): State {
    match a
    case Append(kind, data, session, ts) =>
      var e := F.MakeEvent(|st.log|, kind, data, session, ts);
      st.(log := st.log + [e], history := Last(maxEvents, st.history + [e]), inFlight := st.inFlight + {|st.log|})
    case Schedule(n) =>
      if n !in st.inFlight || n >= |st.log| then st
      else
        st.(inFlight := st.inFlight - {n},
            subs := seq(|st.subs|, j requires 0 <= j < |st.subs| => Notified(st.subs[j], st.log[n])))
    case Register(session, since) =>
      st.(subs := st.subs + [Sub(session, since, true, false, [], [])])
    case Replay(j) =>
      if j >= |st.subs| || st.subs[j].replayed then st
      else
        var s := st.subs[j];
        st.(subs := st.subs[j := s.(replayed := true, replay := F.Filter(st.history, s.session, s.since))])
    case Unsubscribe(j) =>
      if j >= |st.subs| || !st.subs[j].replayed then st
      else st.(subs := st.subs[j := st.subs[j].(registered := false)])
  }

  function Run(maxEvents: nat, acts: seq<Action>): State {
    if acts == [] then INIT else Step(maxEvents, Run(maxEvents, acts[..|acts| - 1]), acts[|acts| - 1])
  }

  /** Everything a subscriber is offered, in order. */
  function Delivered(s: Sub): seq<F.Event> {
    s.replay + s.scheduled
  }

  ghost predicate Distinct(es: seq<F.Event>) {
    forall i, k :: 0 <= i < k < |es| ==> es[i] != es[k]
  }

  // ----- what every step keeps

  ghost predicate SubInv(st: State, s: Sub) {
    && Distinct(s.replay) && Distinct(s.scheduled)
    && (!s.replayed ==> s.replay == [] && s.registered)
    && forall e :: e in s.scheduled ==> e.id < |st.log| && e == st.log[e.id] && e.id !in st.inFlight
  }

  ghost predicate Inv(maxEvents: nat, st: State) {
    && (forall i :: 0 <= i < |st.log| ==> st.log[i].id == i)
    && st.history == Last(maxEvents, st.log)
    && (forall n :: n in st.inFlight ==> n < |st.log|)
    && forall j :: 0 <= j < |st.subs| ==> SubInv(st, st.subs[j])
  }

  lemma NotifiedKeeps(st: State, st': State, s: Sub, n: nat)
    requires SubInv(st, s) && n in st.inFlight && n < |st.log| && st.log[n].id == n
    requires st'.log == st.log && st'.inFlight == st.inFlight - {n}
    ensures SubInv(st', Notified(s, st.log[n]))
  {
    var e := st.log[n];
    assert e !in s.scheduled;
  }

  lemma ReplayDistinct(maxEvents: nat, log: seq<F.Event>, session: Option<string>, since: Option<real>)
    requires forall i :: 0 <= i < |log| ==> log[i].id == i
    ensures Distinct(F.Filter(Last(maxEvents, log), session, since))
  {
    F.FilterInOrder(Last(maxEvents, log), session, since, 0, |log|);
  }

  lemma AppendKeeps(maxEvents: nat, st: State, e: F.Event, st': State)
    requires Inv(maxEvents, st) && e.id == |st.log|
    requires st' == State(st.log + [e], Last(maxEvents, st.history + [e]), st.inFlight + {|st.log|}, st.subs)
    ensures Inv(maxEvents, st')
  {
    LastAppend(maxEvents, st.log, [e]);
    forall j | 0 <= j < |st'.subs| ensures SubInv(st', st'.subs[j]) {
      assert SubInv(st, st.subs[j]);
    }
  }

  lemma ScheduleKeeps(maxEvents: nat, st: State, n: nat)
    requires Inv(maxEvents, st)
    ensures Inv(maxEvents, Step(maxEvents, st, Schedule(n)))
  {
    var st' := Step(maxEvents, st, Schedule(n));
    if n in st.inFlight {
      forall j | 0 <= j < |st'.subs| ensures SubInv(st', st'.subs[j]) {
        NotifiedKeeps(st, st', st.subs[j], n);
      }
    }
  }

  /** Registration, replay and removal touch one subscriber. */
  lemma SubscriberKeeps(maxEvents: nat, st: State, a: Action)
    requires Inv(maxEvents, st) && !a.Append? && !a.Schedule?
    ensures Inv(maxEvents, Step(maxEvents, st, a))
  {
    var st' := Step(maxEvents, st, a);
    if a.Replay? && a.joiner < |st.subs| {
      ReplayDistinct(maxEvents, st.log, st.subs[a.joiner].session, st.subs[a.joiner].since);
    }
    forall j | 0 <= j < |st'.subs| ensures SubInv(st', st'.subs[j]) {
      if j < |st.subs| { assert SubInv(st, st.subs[j]); }
    }
  }

  lemma StepKeeps(maxEvents: nat, st: State, a: Action)
    requires Inv(maxEvents, st)
    ensures Inv(maxEvents, Step(maxEvents, st, a))
  {
    match a
    case Append(kind, data, session, ts) =>
      AppendKeeps(maxEvents, st, F.MakeEvent(|st.log|, kind, data, session, ts), Step(maxEvents, st, a));
    case Schedule(n) => ScheduleKeeps(maxEvents, st, n);
    case _ => SubscriberKeeps(maxEvents, st, a);
  }

  lemma {:induction false} RunKeeps(maxEvents: nat, acts: seq<Action>)
    ensures Inv(maxEvents, Run(maxEvents, acts))
  {
    if acts != [] {
      RunKeeps(maxEvents, acts[..|acts| - 1]);
      StepKeeps(maxEvents, Run(maxEvents, acts[..|acts| - 1]), acts[|acts| - 1]);
    }
  }

  // ----- which step delivers an event

  /** Step `q` schedules the event for subscriber `j`. */
  ghost predicate Schedules(maxEvents: nat, acts: seq<Action>, j: nat, q: nat, e: F.Event) {
    q < |acts| && SchedulesFrom(Run(maxEvents, acts[..q]), acts[q], j, e)
  }

  ghost predicate SchedulesFrom(st: State, a: Action, j: nat, e: F.Event) {
    && a.Schedule? && a.event in st.inFlight && a.event < |st.log| && e == st.log[a.event]
    && j < |st.subs| && st.subs[j].registered && F.Matches(e, st.subs[j].session)
  }

  /** Step `p` replays the history to subscriber `j`, the event among it. */
  ghost predicate Replays(maxEvents: nat, acts: seq<Action>, j: nat, p: nat, e: F.Event) {
    p < |acts| && ReplaysFrom(Run(maxEvents, acts[..p]), acts[p], j, e)
  }

  ghost predicate ReplaysFrom(st: State, a: Action, j: nat, e: F.Event) {
    && a == Replay(j) && j < |st.subs| && !st.subs[j].replayed
    && e in st.history && F.Matches(e, st.subs[j].session)
    && (st.subs[j].since.None? || e.ts > st.subs[j].since.value)
  }

  lemma {:induction false} FilterHas(es: seq<F.Event>, session: Option<string>, since: Option<real>, e: F.Event)
    ensures e in F.Filter(es, session, since)
       <==> e in es && F.Matches(e, session) && (since.None? || e.ts > since.value)
  {
    if es != [] {
      var n := |es| - 1;
      FilterHas(es[..n], session, since, e);
      assert es == es[..n] + [es[n]];
    }
  }

  /** What one step adds to a subscriber. */
  lemma StepSchedules(maxEvents: nat, st: State, a: Action, j: nat, e: F.Event)
    requires j < |Step(maxEvents, st, a).subs|
    ensures e in Step(maxEvents, st, a).subs[j].scheduled
       <==> (j < |st.subs| && e in st.subs[j].scheduled) || SchedulesFrom(st, a, j, e)
  {
  }

  lemma StepReplays(maxEvents: nat, st: State, a: Action, j: nat, e: F.Event)
    requires Inv(maxEvents, st) && j < |Step(maxEvents, st, a).subs|
    ensures e in Step(maxEvents, st, a).subs[j].replay
       <==> (j < |st.subs| && e in st.subs[j].replay) || ReplaysFrom(st, a, j, e)
  {
    if j < |st.subs| {
      assert SubInv(st, st.subs[j]);
      FilterHas(st.history, st.subs[j].session, st.subs[j].since, e);
    }
  }

  /** An event is in a subscriber's schedule, or in its replay, because a step put it
      there. */
  lemma {:induction false} DeliveredBy(maxEvents: nat, acts: seq<Action>, j: nat, e: F.Event)
    requires j < |Run(maxEvents, acts).subs|
    ensures e in Run(maxEvents, acts).subs[j].scheduled <==> exists q :: Schedules(maxEvents, acts, j, q, e)
    ensures e in Run(maxEvents, acts).subs[j].replay <==> exists p :: Replays(maxEvents, acts, j, p, e)
  {
    if acts != [] {
      var n := |acts| - 1;
      var st := Run(maxEvents, acts[..n]);
      RunKeeps(maxEvents, acts[..n]);
      StepSchedules(maxEvents, st, acts[n], j, e);
      StepReplays(maxEvents, st, acts[n], j, e);
      LastSchedule(maxEvents, acts, n, j, e);
      LastReplay(maxEvents, acts, n, j, e);
      if j < |st.subs| {
        DeliveredBy(maxEvents, acts[..n], j, e);
      } else {
        NotYet(maxEvents, acts[..n], j, e);
      }
    }
  }

  lemma SameStep(maxEvents: nat, acts: seq<Action>, n: nat, j: nat, q: nat, e: F.Event)
    requires q < n <= |acts|
    ensures Schedules(maxEvents, acts, j, q, e) <==> Schedules(maxEvents, acts[..n], j, q, e)
    ensures Replays(maxEvents, acts, j, q, e) <==> Replays(maxEvents, acts[..n], j, q, e)
  {
    assert acts[..n][..q] == acts[..q] && acts[..n][q] == acts[q];
  }

  /** The steps of a run are those before the last one and the last one. */
  lemma LastSchedule(maxEvents: nat, acts: seq<Action>, n: nat, j: nat, e: F.Event)
    requires |acts| == n + 1
    ensures (exists q :: Schedules(maxEvents, acts, j, q, e)) <==>
      (exists q :: Schedules(maxEvents, acts[..n], j, q, e))
      || SchedulesFrom(Run(maxEvents, acts[..n]), acts[n], j, e)
  {
    forall q: nat | q < n
      ensures Schedules(maxEvents, acts, j, q, e) <==> Schedules(maxEvents, acts[..n], j, q, e)
    {
      SameStep(maxEvents, acts, n, j, q, e);
    }
    assert Schedules(maxEvents, acts, j, n, e) <==> SchedulesFrom(Run(maxEvents, acts[..n]), acts[n], j, e);
  }

  lemma LastReplay(maxEvents: nat, acts: seq<Action>, n: nat, j: nat, e: F.Event)
    requires |acts| == n + 1
    ensures (exists p :: Replays(maxEvents, acts, j, p, e)) <==>
      (exists p :: Replays(maxEvents, acts[..n], j, p, e))
      || ReplaysFrom(Run(maxEvents, acts[..n]), acts[n], j, e)
  {
    forall p: nat | p < n
      ensures Replays(maxEvents, acts, j, p, e) <==> Replays(maxEvents, acts[..n], j, p, e)
    {
      SameStep(maxEvents, acts, n, j, p, e);
    }
    assert Replays(maxEvents, acts, j, n, e) <==> ReplaysFrom(Run(maxEvents, acts[..n]), acts[n], j, e);
  }

  /** What no later step undoes. */
  ghost predicate Grew(st: State, st': State) {
    && |st.log| <= |st'.log| && |st.subs| <= |st'.subs|
    && (forall n :: n in st'.inFlight && n < |st.log| ==> n in st.inFlight)
    && (forall j :: 0 <= j < |st.subs| && st.subs[j].replayed ==> st'.subs[j].replayed)
  }

  lemma StepGrows(maxEvents: nat, st: State, a: Action)
    ensures Grew(st, Step(maxEvents, st, a))
  {
  }

  lemma GrewOn(a: State, b: State, c: State)
    requires Grew(a, b) && Grew(b, c)
    ensures Grew(a, c)
  {
  }

  lemma Next(maxEvents: nat, acts: seq<Action>, q: nat)
    requires q < |acts|
    ensures Run(maxEvents, acts[..q + 1]) == Step(maxEvents, Run(maxEvents, acts[..q]), acts[q])
  {
    assert acts[..q + 1][..q] == acts[..q];
  }

  lemma {:induction false} Grows(maxEvents: nat, acts: seq<Action>, r: nat, q: nat)
    requires r <= q <= |acts|
    ensures Grew(Run(maxEvents, acts[..r]), Run(maxEvents, acts[..q]))
    decreases q
  {
    if r < q {
      var k := q - 1;
      Grows(maxEvents, acts, r, k);
      NextGrows(maxEvents, acts, k, q);
      GrewOn(Run(maxEvents, acts[..r]), Run(maxEvents, acts[..k]), Run(maxEvents, acts[..q]));
    }
  }

  lemma NextGrows(maxEvents: nat, acts: seq<Action>, k: nat, q: nat)
    requires q == k + 1 <= |acts|
    ensures Grew(Run(maxEvents, acts[..k]), Run(maxEvents, acts[..q]))
  {
    Next(maxEvents, acts, k);
    StepGrows(maxEvents, Run(maxEvents, acts[..k]), acts[k]);
  }

  lemma NotYet(maxEvents: nat, acts: seq<Action>, j: nat, e: F.Event)
    requires j >= |Run(maxEvents, acts).subs|
    ensures forall q :: !Schedules(maxEvents, acts, j, q, e) && !Replays(maxEvents, acts, j, q, e)
  {
    forall q: nat | q < |acts| ensures |Run(maxEvents, acts[..q]).subs| <= j {
      Grows(maxEvents, acts, q, |acts|);
      assert acts[..|acts|] == acts;
    }
  }

  // ----- when a subscriber is offered an event twice

  lemma RepeatIsCommon(a: seq<F.Event>, b: seq<F.Event>)
    requires Distinct(a) && Distinct(b)
    ensures Distinct(a + b) <==> forall e :: e in a ==> e !in b
  {
    if e :| e in a && e in b {
      var i :| 0 <= i < |a| && a[i] == e;
      var k :| 0 <= k < |b| && b[k] == e;
      assert (a + b)[i] == (a + b)[|a| + k];
    } else {
      forall i, k | 0 <= i < k < |a + b| ensures (a + b)[i] != (a + b)[k] {
        if i < |a| <= k { assert a[i] in a && b[k - |a|] in b; }
      }
    }
  }

  /** Over every run, a subscriber is offered an event twice exactly when the event was
      in the history it was replayed and the scheduling loop of the same `emit` found
      it registered: the append came before the replay, and the loop after the
      registration. */
  lemma RepeatsIff(maxEvents: nat, acts: seq<Action>, j: nat)
    requires j < |Run(maxEvents, acts).subs|
    ensures Distinct(Delivered(Run(maxEvents, acts).subs[j]))
       <==> !exists e, p, q :: Replays(maxEvents, acts, j, p, e) && Schedules(maxEvents, acts, j, q, e)
  {
    RunKeeps(maxEvents, acts);
    var s := Run(maxEvents, acts).subs[j];
    assert SubInv(Run(maxEvents, acts), s);
    RepeatIsCommon(s.replay, s.scheduled);
    forall e ensures e in s.replay <==> exists p :: Replays(maxEvents, acts, j, p, e) {
      DeliveredBy(maxEvents, acts, j, e);
    }
    forall e ensures e in s.scheduled <==> exists q :: Schedules(maxEvents, acts, j, q, e) {
      DeliveredBy(maxEvents, acts, j, e);
    }
  }

  // ----- a subscribe that no other step interrupts

  /** Steps r and r + 1 register subscriber j and replay the history to it. */
  ghost predicate SubscribesAt(maxEvents: nat, acts: seq<Action>, j: nat, r: nat) {
    && r + 1 < |acts| && acts[r].Register? && acts[r + 1] == Replay(j)
    && j == |Run(maxEvents, acts[..r]).subs|
  }

  /** At step r an `emit` of this event has appended it and not yet scheduled it, and
      the event is in the history and matches the subscriber joining there. */
  ghost predicate Between(maxEvents: nat, acts: seq<Action>, r: nat, e: F.Event) {
    && r < |acts| && acts[r].Register?
    && var st := Run(maxEvents, acts[..r]);
    && e.id in st.inFlight && e in st.history
    && F.Matches(e, acts[r].filter) && (acts[r].since.None? || e.ts > acts[r].since.value)
  }

  lemma ReplayAt(maxEvents: nat, acts: seq<Action>, j: nat, r: nat, p: nat, e: F.Event)
    requires SubscribesAt(maxEvents, acts, j, r) && Replays(maxEvents, acts, j, p, e)
    ensures p == r + 1 && e in Run(maxEvents, acts[..r]).history
    ensures F.Matches(e, acts[r].filter) && (acts[r].since.None? || e.ts > acts[r].since.value)
  {
    Next(maxEvents, acts, r);
    Next(maxEvents, acts, r + 1);
    if p <= r { Grows(maxEvents, acts, p, r); }
    if p > r + 1 { Grows(maxEvents, acts, r + 2, p); }
  }

  lemma ScheduledAfter(maxEvents: nat, acts: seq<Action>, j: nat, r: nat, q: nat, e: F.Event)
    requires SubscribesAt(maxEvents, acts, j, r) && Schedules(maxEvents, acts, j, q, e)
    requires e in Run(maxEvents, acts[..r]).history
    ensures e.id in Run(maxEvents, acts[..r]).inFlight
  {
    if q <= r { Grows(maxEvents, acts, q, r); }
    RunKeeps(maxEvents, acts[..r]);
    RunKeeps(maxEvents, acts[..q]);
    Grows(maxEvents, acts, r, q);
  }

  lemma ReplaysAt(maxEvents: nat, acts: seq<Action>, j: nat, r: nat, e: F.Event)
    requires SubscribesAt(maxEvents, acts, j, r) && Between(maxEvents, acts, r, e)
    ensures Replays(maxEvents, acts, j, r + 1, e)
  {
    Next(maxEvents, acts, r);
  }

  /** Over every run, a subscriber whose `subscribe` was not interrupted is offered an
      event twice exactly when that `subscribe` fell between the append and the
      scheduling loop of the event's `emit`, and the loop found it still registered. */
  lemma RepeatsIffBetween(maxEvents: nat, acts: seq<Action>, j: nat, r: nat)
    requires j < |Run(maxEvents, acts).subs| && SubscribesAt(maxEvents, acts, j, r)
    ensures Distinct(Delivered(Run(maxEvents, acts).subs[j]))
       <==> !exists e, q :: Between(maxEvents, acts, r, e) && Schedules(maxEvents, acts, j, q, e)
  {
    RepeatsIff(maxEvents, acts, j);
    forall e, p, q | Replays(maxEvents, acts, j, p, e) && Schedules(maxEvents, acts, j, q, e)
      ensures Between(maxEvents, acts, r, e)
    {
      ReplayAt(maxEvents, acts, j, r, p, e);
      ScheduledAfter(maxEvents, acts, j, r, q, e);
    }
    forall e, q | Between(maxEvents, acts, r, e) && Schedules(maxEvents, acts, j, q, e)
      ensures Replays(maxEvents, acts, j, r + 1, e)
    {
      ReplaysAt(maxEvents, acts, j, r, e);
    }
  }

  // ----- such runs exist

  lemma RunOn(maxEvents: nat, acts: seq<Action>, a: Action)
    ensures Run(maxEvents, acts + [a]) == Step(maxEvents, Run(maxEvents, acts), a)
  {
    assert (acts + [a])[..|acts|] == acts;
  }

  lemma Appends(a: Action, b: Action, c: Action, d: Action)
    ensures [] + [a] == [a] && [a] + [b] == [a, b] && [a, b] + [c] == [a, b, c] && [a, b, c] + [d] == [a, b, c, d]
  {
  }

  lemma RunFour(maxEvents: nat, a: Action, b: Action, c: Action, d: Action) returns (x: State, y: State, z: State)
    ensures x == Step(maxEvents, INIT, a) && y == Step(maxEvents, x, b) && z == Step(maxEvents, y, c)
    ensures Run(maxEvents, [a, b, c, d]) == Step(maxEvents, z, d)
  {
    Appends(a, b, c, d);
    RunOn(maxEvents, [], a);
    RunOn(maxEvents, [a], b);
    RunOn(maxEvents, [a, b], c);
    RunOn(maxEvents, [a, b, c], d);
    x, y, z := Run(maxEvents, [a]), Run(maxEvents, [a, b]), Run(maxEvents, [a, b, c]);
  }

  lemma FilterOne(e: F.Event)
    ensures F.Filter([e], None, None) == [e]
  {
    assert [e][..0] == [];
  }

  /** `subscribe` between the two steps of `emit`. */
  lemma TwiceBetween(kind: string, data: map<string, string>, ts: real)
    ensures var st := Run(1, [Append(kind, data, None, ts), Register(None, None), Replay(0), Schedule(0)]);
      |st.subs| == 1 && |st.log| == 1 && Delivered(st.subs[0]) == [st.log[0], st.log[0]]
  {
    var x, y, z := RunFour(1, Append(kind, data, None, ts), Register(None, None), Replay(0), Schedule(0));
    FilterOne(F.MakeEvent(0, kind, data, None, ts));
  }

  /** `emit` between the two steps of `subscribe`. */
  lemma TwiceWithin(kind: string, data: map<string, string>, ts: real)
    ensures var st := Run(1, [Register(None, None), Append(kind, data, None, ts), Schedule(0), Replay(0)]);
      |st.subs| == 1 && |st.log| == 1 && Delivered(st.subs[0]) == [st.log[0], st.log[0]]
  {
    var x, y, z := RunFour(1, Register(None, None), Append(kind, data, None, ts), Schedule(0), Replay(0));
    FilterOne(F.MakeEvent(0, kind, data, None, ts));
  }
}
