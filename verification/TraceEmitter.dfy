/** The emitter of `sw/runtime/server/trace_emitter.py` as the object it is: lists
    and queues updated in place.  Each method is proved to perform exactly the
    corresponding step of the fan-out system. */
module TraceEmitter {
  import opened Prelude
  import opened TraceFanout

  /** A registered queue; `view` is its account in the fan-out system. */
  class Subscriber {
    const loop: nat
    const session: Option<string>
    var queue: seq<Event>
    ghost const index: nat
    ghost var view: Sub

    ghost predicate Valid()
      reads this
    {
      view.loop == loop && view.session == session && view.queue == queue
    }

    constructor (loop: nat, session: Option<string>, ghost since: Option<real>, ghost index: nat,
                 ghost replay: seq<Event>, ghost joined: nat)
      ensures Valid() && this.loop == loop && this.session == session && this.index == index
      ensures view == Sub(loop, session, since, [], replay, [], [], [], joined, None)
    {
      this.loop, this.session, this.queue := loop, session, [];
      this.index := index;
      this.view := Sub(loop, session, since, [], replay, [], [], [], joined, None);
    }

    /** `_offer` */
    method OfferEvent(queueSize: int, e: Event)
      requires Valid()
      modifies this
      ensures Valid() && view == Offered(old(view), queueSize, e)
    {
      if Full(queue, queueSize) {
        if queue != [] {
          queue := queue[1..];
        }
      }
      if !Full(queue, queueSize) {
        queue := queue + [e];
      }
      view := Offered(view, queueSize, e);
    }

    /** The reader takes the oldest queued event, if there is one. */
    method GetNowait() returns (e: Option<Event>)
      requires Valid()
      modifies this
      ensures Valid()
      ensures e == if old(queue) == [] then None else Some(old(queue)[0])
      ensures view == if old(queue) == [] then old(view) else Taken(old(view))
    {
      if queue == [] {
        return None;
      }
      e := Some(queue[0]);
      view := Taken(view);
      queue := queue[1..];
    }
  }

  datatype Call = Call(loop: nat, target: Subscriber, event: Event)

  /** The callbacks scheduled with `call_soon_threadsafe` and not yet run. */
  class EventLoops {
    var calls: seq<Call>

    constructor ()
      ensures calls == []
    {
      calls := [];
    }

    method CallSoon(loop: nat, target: Subscriber, e: Event)
      modifies this
      ensures calls == old(calls) + [Call(loop, target, e)]
    {
      calls := calls + [Call(loop, target, e)];
    }
  }

  /** The scheduled calls and the registered subscribers, named by index. */
  ghost function CallsOf(calls: seq<Call>): seq<Callback> {
    seq(|calls|, i requires 0 <= i < |calls| => Callback(calls[i].loop, calls[i].target.index, calls[i].event))
  }

  ghost function IndicesOf(subscribers: seq<Subscriber>): seq<nat> {
    seq(|subscribers|, i requires 0 <= i < |subscribers| => subscribers[i].index)
  }

  ghost function ViewsOf(all: seq<Subscriber>): seq<Sub>
    reads all
  {
    seq(|all|, i requires 0 <= i < |all| reads all => all[i].view)
  }

  class Emitter {
    const maxEvents: nat
    const queueSize: int
    const loops: EventLoops
    var events: seq<Event>
    var subscribers: seq<Subscriber>
    var emitted: nat  // names the next event object
    ghost var log: seq<Event>
    ghost var all: seq<Subscriber>

    ghost function Cfg(): Config { Config(maxEvents, queueSize) }

    /** The state of the fan-out system this object is in. */
    ghost function Abs(): State
      reads this, loops, all
    {
      State(log, events, ViewsOf(all), IndicesOf(subscribers), CallsOf(loops.calls))
    }

    ghost predicate Knows(sub: Subscriber)
      reads this
    {
      sub.index < |all| && all[sub.index] == sub
    }

    ghost predicate Valid()
      reads this, loops, all
    {
      && emitted == |log|
      && (forall i :: 0 <= i < |all| ==> all[i].index == i && all[i].Valid())
      && (forall i :: 0 <= i < |subscribers| ==> Knows(subscribers[i]))
      && (forall i :: 0 <= i < |loops.calls| ==> Knows(loops.calls[i].target))
    }

    constructor (maxEvents: nat, queueSize: int)
      ensures Valid() && fresh(loops) && Abs() == INIT && Cfg() == Config(maxEvents, queueSize)
    {
      this.maxEvents, this.queueSize := maxEvents, queueSize;
      this.loops := new EventLoops();
      events, subscribers, emitted, log, all := [], [], 0, [], [];
    }

    method EmitEvent(kind: string, data: map<string, string>, session: Option<string>, ts: real) returns (e: Event)
      requires Valid()
      modifies this, loops
      ensures Valid() && all == old(all)
      ensures Abs() == Step(Cfg(), old(Abs()), Emit(kind, data, session, ts))
      ensures e == MakeEvent(|old(log)|, kind, data, session, ts) && Records(e, kind, data, session, ts)
    {
      ghost var st := Abs();
      e := BuildEvent(kind, data, session, ts);
      emitted, log := emitted + 1, log + [e];
      events := Last(maxEvents, events + [e]);
      ScheduleFor(e);
      EmittedIs(Cfg(), st, kind, data, session, ts, e, CallsOf(loops.calls));
    }

    method BuildEvent(kind: string, data: map<string, string>, session: Option<string>, ts: real) returns (e: Event)
      ensures e == MakeEvent(emitted, kind, data, session, ts) && Records(e, kind, data, session, ts)
    {
      var payload := data;
      if session.Some? && SESSION_KEY !in payload {
        payload := payload[SESSION_KEY := session.value];
      }
      e := Event(emitted, ts, kind, payload, OrElse(session, Get(payload, SESSION_KEY)));
    }

    /** The loop of `emit` over the registered subscribers. */
    method ScheduleFor(e: Event)
      requires Valid()
      modifies loops
      ensures Valid()
      ensures CallsOf(loops.calls)
           == old(CallsOf(loops.calls)) + Scheduled(ViewsOf(all), IndicesOf(subscribers), e)
    {
      ghost var subs, done, calls := ViewsOf(all), [], CallsOf(loops.calls);
      for i := 0 to |subscribers|
        invariant Valid() && subs == ViewsOf(all) && done == IndicesOf(subscribers)[..i]
        invariant CallsOf(loops.calls) == calls + Scheduled(subs, done, e)
      {
        var sub := subscribers[i];
        ghost var next := done + [sub.index];
        ScheduledNext(subs, done, sub.index, next, e);
        ScheduleOne(sub, e);
        done := next;
      }
      assert done == IndicesOf(subscribers);
    }

    /** The body of that loop. */
    method ScheduleOne(sub: Subscriber, e: Event)
      requires Valid() && Knows(sub)
      modifies loops
      ensures Valid()
      ensures CallsOf(loops.calls) == old(CallsOf(loops.calls)) + ScheduledFor(ViewsOf(all), sub.index, e)
    {
      ghost var calls := CallsOf(loops.calls);
      assert ViewsOf(all)[sub.index] == sub.view;
      if Matches(e, sub.session) {
        loops.CallSoon(sub.loop, sub, e);
        assert CallsOf(loops.calls) == calls + [Callback(sub.loop, sub.index, e)];
      } else {
        assert calls + [] == calls;
      }
    }

    /** The loop of `subscribe` over the history. */
    method ReplayTo(sub: Subscriber, session: Option<string>, since: Option<real>)
      requires sub.Valid()
      modifies sub
      ensures sub.Valid() && sub.view == OfferAll(old(sub.view), queueSize, Filter(events, session, since))
    {
      ghost var start, seen, found := sub.view, [], [];
      var rest := events;
      while rest != []
        invariant sub.Valid() && events == seen + rest && found == Filter(seen, session, since)
        invariant sub.view == OfferAll(start, queueSize, found)
      {
        var e, left := rest[0], rest[1..];
        ghost var next := seen + [e];
        assert events == next + left;
        FilterNext(seen, e, next, session, since);
        seen, rest := next, left;
        if since.Some? && e.ts <= since.value {
          continue;
        }
        if Matches(e, session) {
          sub.OfferEvent(queueSize, e);
          OfferAllNext(start, queueSize, found, e, found + [e]);
          found := found + [e];
        }
      }
      assert seen == events;
    }

    /** The first half of `subscribe`: an empty queue joins the registered ones. */
    method Register(loop: nat, session: Option<string>, ghost since: Option<real>) returns (sub: Subscriber)
      requires Valid()
      modifies this
      ensures Valid() && fresh(sub) && all == old(all) + [sub] && subscribers == old(subscribers) + [sub]
      ensures events == old(events) && log == old(log) && sub.Valid() && sub.index == |old(all)|
      ensures sub.view == Sub(loop, session, since, [], Filter(events, session, since), [], [], [], |log|, None)
    {
      sub := new Subscriber(loop, session, since, |all|, Filter(events, session, since), |log|);
      subscribers, all := subscribers + [sub], all + [sub];
    }

    /** `subscribe`: registers an empty queue, then replays the matching history. */
    method SubscribeTo(loop: nat, session: Option<string>, since: Option<real>) returns (sub: Subscriber)
      requires Valid()
      modifies this
      ensures Valid() && fresh(sub) && all == old(all) + [sub]
      ensures Abs() == Step(Cfg(), old(Abs()), Subscribe(loop, session, since))
    {
      ghost var st := Abs();
      sub := Register(loop, session, since);
      ReplayTo(sub, session, since);
      assert ViewsOf(all) == st.subs + [sub.view];
      assert IndicesOf(subscribers) == st.active + [sub.index];
      SubscribedIs(Cfg(), st, loop, session, since, sub.view, ViewsOf(all), IndicesOf(subscribers));
    }

    /** The comprehension of `unsubscribe`: every registered queue but one. */
    method OthersThan(sub: Subscriber) returns (kept: seq<Subscriber>)
      requires Valid() && Knows(sub)
      ensures IndicesOf(kept) == Without(IndicesOf(subscribers), sub.index)
      ensures forall k :: 0 <= k < |kept| ==> Knows(kept[k])
    {
      ghost var active := IndicesOf(subscribers);
      kept := [];
      for i := 0 to |subscribers|
        invariant IndicesOf(kept) == Without(active[..i], sub.index)
        invariant forall k :: 0 <= k < |kept| ==> Knows(kept[k])
      {
        assert Knows(subscribers[i]);
        assert active[..i + 1][..i] == active[..i];
        if subscribers[i] != sub {
          kept := kept + [subscribers[i]];
        }
      }
      assert active[..|subscribers|] == active;
    }

    ghost method MarkLeft(sub: Subscriber, registered: bool)
      requires Valid() && Knows(sub)
      modifies sub
      ensures Valid()
      ensures ViewsOf(all) == if registered
                              then old(ViewsOf(all))[sub.index := old(sub.view).(left := Some(|log|))]
                              else old(ViewsOf(all))
    {
      ghost var subs := ViewsOf(all);
      if registered {
        sub.view := sub.view.(left := Some(|log|));
        assert ViewsOf(all) == subs[sub.index := sub.view];
      } else {
        assert ViewsOf(all) == subs;
      }
    }

    /** `unsubscribe`: callbacks already scheduled for the queue remain. */
    method UnsubscribeFrom(sub: Subscriber)
      requires Valid() && Knows(sub)
      modifies this, sub
      ensures Valid() && all == old(all)
      ensures Abs() == Step(Cfg(), old(Abs()), Unsubscribe(sub.index))
    {
      ghost var st := Abs();
      subscribers := OthersThan(sub);
      MarkLeft(sub, sub.index in st.active);
      UnsubscribedIs(Cfg(), st, sub.index, ViewsOf(all), IndicesOf(subscribers));
    }

    /** An event loop runs its oldest scheduled callback. */
    method RunOne(loop: nat)
      requires Valid()
      modifies loops, all
      ensures Valid() && all == old(all)
      ensures Abs() == Step(Cfg(), old(Abs()), RunCallback(loop))
    {
      ghost var st := Abs();
      var i := FirstCall(loop);
      if i < |loops.calls| {
        var c := TakeCall(i);
        Deliver(c.target, c.event);
        CallbackRun(Cfg(), st, loop, i, ViewsOf(all), CallsOf(loops.calls));
      }
    }

    method TakeCall(i: nat) returns (c: Call)
      requires Valid() && i < |loops.calls|
      modifies loops
      ensures Valid() && c == old(loops.calls)[i] && Knows(c.target)
      ensures CallsOf(loops.calls) == old(CallsOf(loops.calls))[..i] + old(CallsOf(loops.calls))[i + 1..]
    {
      c := loops.calls[i];
      assert Knows(c.target);
      loops.calls := loops.calls[..i] + loops.calls[i + 1..];
    }

    /** The callback itself. */
    method Deliver(sub: Subscriber, e: Event)
      requires Valid() && Knows(sub)
      modifies sub
      ensures Valid()
      ensures ViewsOf(all) == old(ViewsOf(all))[sub.index := Offered(old(sub.view), queueSize, e)]
    {
      sub.OfferEvent(queueSize, e);
      assert ViewsOf(all) == old(ViewsOf(all))[sub.index := sub.view];
    }

    /** Where the oldest callback of a loop is scheduled. */
    method FirstCall(loop: nat) returns (i: nat)
      ensures i == FirstOf(CallsOf(loops.calls), loop)
    {
      ghost var pending := CallsOf(loops.calls);
      i := 0;
      while i < |loops.calls| && loops.calls[i].loop != loop
        invariant i <= |loops.calls|
        invariant FirstOf(pending, loop) == i + FirstOf(pending[i..], loop)
      {
        assert pending[i..][1..] == pending[i + 1..];
        i := i + 1;
      }
    }

    /** A reader takes one event from its queue. */
    method ConsumeFrom(sub: Subscriber) returns (e: Option<Event>)
      requires Valid() && Knows(sub)
      modifies sub
      ensures Valid()
      ensures Abs() == Step(Cfg(), old(Abs()), Consume(sub.index))
      ensures e == if old(sub.queue) == [] then None else Some(old(sub.queue)[0])
    {
      e := sub.GetNowait();
      assert ViewsOf(all) == old(ViewsOf(all))[sub.index := sub.view];
    }
  }

  lemma ScheduledNext(subs: seq<Sub>, active: seq<nat>, j: nat, more: seq<nat>, e: Event)
    requires more == active + [j]
    ensures forall calls: seq<Callback> ::
      calls + Scheduled(subs, more, e) == (calls + Scheduled(subs, active, e)) + ScheduledFor(subs, j, e)
  {
    assert more[..|more| - 1] == active;
  }

  lemma EmittedIs(cfg: Config, st: State, kind: string, data: map<string, string>, session: Option<string>,
                  ts: real, e: Event, pending: seq<Callback>)
    requires e == MakeEvent(|st.log|, kind, data, session, ts)
    requires pending == st.pending + Scheduled(st.subs, st.active, e)
    ensures Step(cfg, st, Emit(kind, data, session, ts))
         == State(st.log + [e], Last(cfg.maxEvents, st.history + [e]), st.subs, st.active, pending)
  {
  }

  lemma SubscribedIs(cfg: Config, st: State, loop: nat, session: Option<string>, since: Option<real>,
                     s: Sub, subs: seq<Sub>, active: seq<nat>)
    requires s == NewSub(cfg, st, loop, session, since)
    requires subs == st.subs + [s] && active == st.active + [|st.subs|]
    ensures Step(cfg, st, Subscribe(loop, session, since)) == State(st.log, st.history, subs, active, st.pending)
  {
  }

  lemma UnsubscribedIs(cfg: Config, st: State, j: nat, subs: seq<Sub>, active: seq<nat>)
    requires j < |st.subs| && active == Without(st.active, j)
    requires subs == if j in st.active then st.subs[j := st.subs[j].(left := Some(|st.log|))] else st.subs
    ensures Step(cfg, st, Unsubscribe(j)) == State(st.log, st.history, subs, active, st.pending)
  {
    if j !in st.active { WithoutAbsent(st.active, j); }
  }

  lemma CallbackRun(cfg: Config, st: State, loop: nat, i: nat, subs: seq<Sub>, pending: seq<Callback>)
    requires i == FirstOf(st.pending, loop) && i < |st.pending| && st.pending[i].sub < |st.subs|
    requires pending == st.pending[..i] + st.pending[i + 1..]
    requires var c := st.pending[i];
      subs == st.subs[c.sub := Offered(st.subs[c.sub], cfg.queueSize, c.event)]
    ensures Step(cfg, st, RunCallback(loop)) == State(st.log, st.history, subs, st.active, pending)
  {
  }

  lemma OfferAllNext(s: Sub, queueSize: int, es: seq<Event>, e: Event, more: seq<Event>)
    requires more == es + [e]
    ensures OfferAll(s, queueSize, more) == Offered(OfferAll(s, queueSize, es), queueSize, e)
  {
    assert more[..|more| - 1] == es;
  }

  lemma FilterNext(es: seq<Event>, e: Event, more: seq<Event>, session: Option<string>, since: Option<real>)
    requires more == es + [e]
    ensures Filter(more, session, since)
         == if Matches(e, session) && (since.None? || e.ts > since.value) then Filter(es, session, since) + [e]
            else Filter(es, session, since)
  {
    assert more[..|more| - 1] == es;
    assert Filter(es, session, since) + [] == Filter(es, session, since);
  }

  lemma {:induction false} WithoutAbsent(active: seq<nat>, j: nat)
    requires j !in active
    ensures Without(active, j) == active
  {
    if active != [] {
      var n := |active| - 1;
      WithoutAbsent(active[..n], j);
      assert active == active[..n] + [active[n]];
    }
  }
}
