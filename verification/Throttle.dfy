/** Rate limiting of monitor events: an event too soon after the last one waits for a timer, and gives way
    to any that comes while it waits. */
module Throttle {
  import opened Wrappers

  /** An emission: when, what, and which of the queued payloads it was. */
  datatype Emission<T> = Emission(time: int, data: T, index: nat)

  /** MonitorEventState, the timer's deadline while it is armed, and what an observer has seen: the payloads
      queued and those emitted. */
  datatype Event<T> = Event(rate: int, last: int, data: Option<T>, timer: Option<int>, queued: seq<T>, emitted: seq<Emission<T>>)

  function Emit<T>(e: Event<T>, now: int, data: T, index: nat): Event<T> {
    e.(emitted := e.emitted + [Emission(now, data, index)], last := now)
  }

  /** monitor_protocol_event_queue. */
  function Queue<T>(e: Event<T>, now: int, data: T): Event<T> {
    var q := e.(queued := e.queued + [data]);
    if e.rate == 0 then Emit(q, now, data, |e.queued|)
    else if e.data.Some? then q.(data := Some(data))
    else if now - e.last < e.rate then q.(data := Some(data), timer := Some(e.last + e.rate))
    else Emit(q, now, data, |e.queued|)
  }

  /** monitor_protocol_event_handler, when the timer fires. What waits is the payload queued last. */
  function Fire<T>(e: Event<T>, now: int): Event<T> {
    var f := e.(timer := None);
    if e.data.Some? && e.queued != [] then Emit(f, now, e.data.value, |e.queued| - 1).(data := None)
    else f.(last := now)
  }

  datatype Step<T> = QueueAt(now: int, data: T) | FireAt(now: int)

  /** The clock does not go back, and a timer fires when armed and not early. */
  predicate Legal<T>(e: Event<T>, clock: int, s: Step<T>) {
    clock <= s.now && (s.FireAt? ==> e.timer.Some? && s.now >= e.timer.value)
  }

  function Take<T>(e: Event<T>, s: Step<T>): Event<T> {
    match s
    case QueueAt(now, data) => Queue(e, now, data)
    case FireAt(now) => Fire(e, now)
  }

  /** monitor_protocol_event_throttle, with the rate in nanoseconds. */
  function Init<T>(rate: int): Event<T> {
    Event(rate, 0, None, None, [], [])
  }

  // ---------------------------------------------------------------- what every run keeps

  /** Emissions are at least the rate apart. */
  predicate Spaced<T>(rate: int, s: seq<Emission<T>>) {
    forall i, j :: 0 <= i < j < |s| ==> s[i].time + rate <= s[j].time
  }

  /** The payloads emitted are some of those queued, in their order. */
  predicate Selected<T(==)>(queued: seq<T>, s: seq<Emission<T>>) {
    && (forall i :: 0 <= i < |s| ==> s[i].index < |queued| && s[i].data == queued[s[i].index])
    && forall i, j :: 0 <= i < j < |s| ==> s[i].index < s[j].index
  }

  /** The payload queued last is waiting, or was the last to be emitted. */
  predicate LatestKept<T(==)>(e: Event<T>) {
    e.queued != [] ==>
      if e.data.Some? then e.data.value == e.queued[|e.queued| - 1]
      else e.emitted != [] && e.emitted[|e.emitted| - 1].index == |e.queued| - 1
  }

  /** A payload waits exactly while the timer is armed, for the rate after the last emission. */
  predicate Armed<T>(e: Event<T>) {
    && (e.data.Some? <==> e.timer.Some?)
    && (e.timer.Some? ==> e.queued != [] && e.timer.value == e.last + e.rate)
  }

  predicate Inv<T(==)>(e: Event<T>, clock: int) {
    && e.rate >= 0 && e.last <= clock && (e.rate == 0 ==> e.data.None?)
    && Spaced(e.rate, e.emitted) && (forall i :: 0 <= i < |e.emitted| ==> e.emitted[i].time <= e.last)
    && Selected(e.queued, e.emitted)
    && (e.data.Some? ==> forall i :: 0 <= i < |e.emitted| ==> e.emitted[i].index < |e.queued| - 1)
    && LatestKept(e) && Armed(e)
  }

  lemma EmitSpaced<T>(rate: int, s: seq<Emission<T>>, last: int, x: Emission<T>)
    requires Spaced(rate, s) && (forall i :: 0 <= i < |s| ==> s[i].time <= last) && last + rate <= x.time
    ensures Spaced(rate, s + [x])
  {
  }

  lemma EmitSelected<T>(queued: seq<T>, s: seq<Emission<T>>, x: Emission<T>)
    requires Selected(queued, s) && x.index < |queued| && x.data == queued[x.index]
    requires forall i :: 0 <= i < |s| ==> s[i].index < x.index
    ensures Selected(queued, s + [x])
  {
  }

  lemma QueueSelected<T>(queued: seq<T>, s: seq<Emission<T>>, data: T)
    requires Selected(queued, s)
    ensures Selected(queued + [data], s)
  {
  }

  lemma TakeInv<T>(e: Event<T>, clock: int, s: Step<T>)
    requires Inv(e, clock) && Legal(e, clock, s)
    ensures Inv(Take(e, s), s.now)
  {
    hide Spaced, Selected;
    match s
    case QueueAt(now, data) =>
      QueueSelected(e.queued, e.emitted, data);
      var x := Emission(now, data, |e.queued|);
      if e.rate == 0 || (e.data.None? && now - e.last >= e.rate) {
        EmitSpaced(e.rate, e.emitted, e.last, x);
        IndicesBound(e.queued, e.emitted);
        EmitSelected(e.queued + [data], e.emitted, x);
      } else {
        IndicesBound(e.queued, e.emitted);
      }
    case FireAt(now) =>
      var x := Emission(now, e.data.value, |e.queued| - 1);
      EmitSpaced(e.rate, e.emitted, e.last, x);
      EmitSelected(e.queued, e.emitted, x);
  }

  lemma IndicesBound<T>(queued: seq<T>, s: seq<Emission<T>>)
    requires Selected(queued, s)
    ensures forall i :: 0 <= i < |s| ==> s[i].index < |queued|
  {
  }

  predicate LegalRun<T>(e: Event<T>, clock: int, steps: seq<Step<T>>)
    decreases |steps|
  {
    steps == [] || (Legal(e, clock, steps[0]) && LegalRun(Take(e, steps[0]), steps[0].now, steps[1..]))
  }

  function Run<T>(e: Event<T>, steps: seq<Step<T>>): Event<T>
    decreases |steps|
  {
    if steps == [] then e else Run(Take(e, steps[0]), steps[1..])
  }

  function LastClock<T>(clock: int, steps: seq<Step<T>>): int {
    if steps == [] then clock else steps[|steps| - 1].now
  }

  lemma {:induction false} RunInv<T>(e: Event<T>, clock: int, steps: seq<Step<T>>)
    requires Inv(e, clock) && LegalRun(e, clock, steps)
    ensures Inv(Run(e, steps), LastClock(clock, steps))
    decreases |steps|
  {
    hide Inv, Take, Legal;
    if steps != [] {
      TakeInv(e, clock, steps[0]);
      RunInv(Take(e, steps[0]), steps[0].now, steps[1..]);
    }
  }

  /** Over any run, emissions keep the rate, they are a selection of what was queued in its order, and the
      payload queued last has been emitted or waits for an armed timer. */
  lemma Throttled<T>(rate: int, steps: seq<Step<T>>)
    requires rate >= 0 && LegalRun(Init<T>(rate), 0, steps)
    ensures var e := Run(Init<T>(rate), steps);
            Spaced(e.rate, e.emitted) && e.rate == rate && Selected(e.queued, e.emitted) && LatestKept(e) && Armed(e)
  {
    RunInv(Init<T>(rate), 0, steps);
    RateStays(Init<T>(rate), steps);
  }

  lemma {:induction false} RateStays<T>(e: Event<T>, steps: seq<Step<T>>)
    ensures Run(e, steps).rate == e.rate
    decreases |steps|
  {
    if steps != [] { RateStays(Take(e, steps[0]), steps[1..]); }
  }

  /** Without a rate nothing waits: every payload is emitted at once. */
  lemma {:induction false} Unthrottled<T>(e: Event<T>, clock: int, steps: seq<Step<T>>)
    requires e.rate == 0 && e.data.None? && e.timer.None? && |e.emitted| == |e.queued| && LegalRun(e, clock, steps)
    requires forall i :: 0 <= i < |e.emitted| ==> e.emitted[i].data == e.queued[i]
    ensures var r := Run(e, steps); |r.emitted| == |r.queued| && forall i :: 0 <= i < |r.emitted| ==> r.emitted[i].data == r.queued[i]
    decreases |steps|
  {
    if steps != [] { Unthrottled(Take(e, steps[0]), steps[0].now, steps[1..]); }
  }

  // ---------------------------------------------------------------- in place

  class EventState<T> {
    var rate: int
    var last: int
    var data: Option<T>
    var timer: Option<int>
    ghost var queued: seq<T>
    ghost var emitted: seq<Emission<T>>

    ghost function State(): Event<T>
      reads this
    {
      Event(rate, last, data, timer, queued, emitted)
    }

    /** monitor_protocol_event_throttle. */
    constructor (rateMs: nat)
      ensures State() == Init(rateMs * 1000000) && Inv(State(), 0)
    {
      rate, last, data, timer := rateMs * 1000000, 0, None, None;
      queued, emitted := [], [];
    }

    method QueueEvent(now: int, payload: T, ghost clock: int)
      requires Inv(State(), clock) && clock <= now
      modifies this
      ensures State() == Take(old(State()), QueueAt(now, payload)) && Inv(State(), now)
    {
      hide Inv, Spaced, Selected;
      TakeInv(State(), clock, QueueAt(now, payload));
      queued := queued + [payload];
      if rate == 0 {
        emitted := emitted + [Emission(now, payload, |queued| - 1)];
        last := now;
      } else {
        var delta := now - last;
        if data.Some? || delta < rate {
          if data.None? {
            timer := Some(last + rate);
          }
          data := Some(payload);
        } else {
          emitted := emitted + [Emission(now, payload, |queued| - 1)];
          last := now;
        }
      }
    }

    method Handle(now: int, ghost clock: int)
      requires Inv(State(), clock) && Legal(State(), clock, FireAt(now))
      modifies this
      ensures State() == Take(old(State()), FireAt(now)) && Inv(State(), now)
      ensures old(data).Some? && emitted == old(emitted) + [Emission(now, old(data).value, |queued| - 1)]
    {
      TakeInv(State(), clock, FireAt(now));
      timer := None;
      if data.Some? {
        emitted := emitted + [Emission(now, data.value, |queued| - 1)];
        data := None;
      }
      last := now;
    }
  }
}
