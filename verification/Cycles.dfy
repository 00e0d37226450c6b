/** Cycle and time accounting: active time per instruction class, and sleep time measured between WFI and
    wake-up on the virtual clock, corrected for the difference between virtual and modelled time. */
module Cycles {
  import opened Words
  import opened Registers

  datatype Time = Time(
    cycles: seq<real>, active: seq<real>, totalSleep: int,
    lastActiveVm: nat, lastActiveCycles: nat, lastSleep: nat, asleep: bool
  ) {
    predicate Valid() {
      && |cycles| == |active| == CLASSES
      && (forall i :: 0 <= i < CLASSES ==> cycles[i] >= 0.0 && active[i] >= 0.0)
      && -TWO63 <= totalSleep < TWO63
      && lastSleep < TWO64
    }

    /** vemu_get_act_time_all_classes. */
    function Active(): nat
      requires Valid()
    {
      SumNonNegative(active, CLASSES);
      Sum(active, CLASSES).Floor
    }
  }

  function Sum(s: seq<real>, n: nat): real
    requires n <= |s|
  {
    if n == 0 then 0.0 else Sum(s, n - 1) + s[n - 1]
  }

  lemma {:induction false} SumNonNegative(s: seq<real>, n: nat)
    requires n <= |s| && forall i :: 0 <= i < n ==> s[i] >= 0.0
    ensures Sum(s, n) >= 0.0
  {
    if n > 0 { SumNonNegative(s, n - 1); }
  }

  lemma {:induction false} SumUpdate(s: seq<real>, n: nat, k: nat, v: real)
    requires n <= |s| && k < |s|
    ensures Sum(s[k := v], n) == Sum(s, n) + if k < n then v - s[k] else 0.0
  {
    if n > 0 { SumUpdate(s, n - 1, k, v); }
  }

  datatype Event =
    | Execute(class_: nat, cycles: real, period: real)
    | Wfi(now: nat)
    | Wake(now: nat)

  predicate Legal(e: Event) {
    e.Execute? ==> e.class_ < CLASSES && e.cycles >= 0.0 && e.period >= 0.0
  }

  /** vemu_increment_cycles, vemu_sleep_start and vemu_active_start. */
  function Step(t: Time, e: Event): (u: Time)
    requires t.Valid() && Legal(e)
    ensures u.Valid()
  {
    match e
    case Execute(k, c, period) =>
      t.(cycles := t.cycles[k := t.cycles[k] + c], active := t.active[k := t.active[k] + c * period])
    case Wfi(now) =>
      var interval := U64(now - t.lastActiveVm);
      var actPeriod := U64(t.Active() - t.lastActiveCycles);
      var delta := S64(actPeriod - interval);
      t.(lastSleep := U64(now + delta), asleep := true)
    case Wake(now) =>
      if !t.asleep then t
      else t.(totalSleep := S64(t.totalSleep + S64(now - t.lastSleep)),
              lastActiveVm := now, lastActiveCycles := t.Active(), asleep := false)
  }

  /** vemu_get_slp_time. */
  function SleepTime(t: Time, now: nat): (r: nat)
    requires t.Valid()
  {
    var v := if t.asleep then S64(t.totalSleep + S64(now - t.lastSleep)) else t.totalSleep;
    if v < 0 then 0 else v
  }

  /** vemu_init_cycles, which does not touch the active time. */
  function Init(active: seq<real>, now: nat): Time {
    Time(NONE, active, 0, now, 0, now, false)
  }

  // ---------------------------------------------------------------- the time law

  /** What an observer of the run knows: active time at the last WFI, and active time charged while asleep
      by now (from each WFI to its wake-up). */
  datatype Seen = Seen(sleptAt: nat, drift: nat)

  function Watch(w: Seen, t: Time, e: Event): Seen
    requires t.Valid()
  {
    match e
    case Execute(_, _, _) => w
    case Wfi(_) => w.(sleptAt := t.Active())
    case Wake(_) => if t.asleep && t.Active() >= w.sleptAt then w.(drift := w.drift + t.Active() - w.sleptAt) else w
  }

  /** Sleep and active time add up to the clock, but for the time charged while asleep. */
  ghost predicate Law(start: nat, t: Time, w: Seen)
    requires t.Valid()
  {
    && t.lastActiveCycles <= t.Active()
    && w.drift <= t.lastActiveCycles
    && Congruent(t.totalSleep + t.lastActiveCycles, t.lastActiveVm - start + w.drift)
    && (t.asleep ==>
          && t.lastActiveCycles <= w.sleptAt <= t.Active()
          && Congruent(t.lastSleep, t.lastActiveVm + w.sleptAt - t.lastActiveCycles))
  }

  lemma ExecuteGrows(t: Time, e: Event)
    requires t.Valid() && Legal(e) && e.Execute?
    ensures Step(t, e).Active() >= t.Active()
  {
    assert e.cycles * e.period >= 0.0;
    var u := Step(t, e);
    assert u.active[e.class_] >= t.active[e.class_] && u.active == t.active[e.class_ := u.active[e.class_]];
    SumUpdate(t.active, CLASSES, e.class_, u.active[e.class_]);
    FloorMonotone(Sum(t.active, CLASSES), Sum(Step(t, e).active, CLASSES));
  }

  lemma FloorMonotone(x: real, y: real)
    requires x <= y
    ensures x.Floor <= y.Floor
  {
  }

  /** The moment of falling asleep, modulo 2^64: the same whenever it is asked for. */
  lemma WfiMoment(t: Time, now: nat)
    requires t.Valid()
    ensures Congruent(Step(t, Wfi(now)).lastSleep, t.lastActiveVm + t.Active() - t.lastActiveCycles)
  {
    hide Congruent;
    var interval: int, actPeriod: int := U64(now - t.lastActiveVm), U64(t.Active() - t.lastActiveCycles);
    CongruentSub(actPeriod, t.Active() - t.lastActiveCycles, interval, now - t.lastActiveVm);
    var delta := S64(actPeriod - interval);
    CongruentTrans(delta, actPeriod - interval, t.Active() - t.lastActiveCycles - (now - t.lastActiveVm));
    CongruentPlus(now, delta, t.Active() - t.lastActiveCycles - (now - t.lastActiveVm));
    CongruentTrans(U64(now + delta), now + delta, now + (t.Active() - t.lastActiveCycles - (now - t.lastActiveVm)));
  }

  lemma WakeMoment(start: nat, t: Time, w: Seen, now: nat)
    requires t.Valid() && Law(start, t, w) && t.asleep
    ensures Congruent(t.totalSleep + S64(now - t.lastSleep), now - start + w.drift - w.sleptAt)
  {
    hide Congruent;
    var since: int := t.lastActiveVm + w.sleptAt - t.lastActiveCycles;
    CongruentRefl(now);
    CongruentSub(now, now, t.lastSleep, since);
    CongruentTrans(S64(now - t.lastSleep), now - t.lastSleep, now - since);
    CongruentRefl(t.lastActiveCycles);
    CongruentSub(t.totalSleep + t.lastActiveCycles, t.lastActiveVm - start + w.drift, t.lastActiveCycles, t.lastActiveCycles);
    CongruentSum(t.totalSleep, t.lastActiveVm - start + w.drift - t.lastActiveCycles, S64(now - t.lastSleep), now - since);
  }

  /** Each event keeps the law. */
  lemma StepLaw(start: nat, t: Time, w: Seen, e: Event)
    requires t.Valid() && Law(start, t, w) && Legal(e)
    ensures Law(start, Step(t, e), Watch(w, t, e))
  {
    hide Congruent;
    match e
    case Execute(_, _, _) => ExecuteGrows(t, e);
    case Wfi(now) => WfiMoment(t, now);
    case Wake(now) =>
      if t.asleep {
        WakeMoment(start, t, w, now);
        var v: int := t.totalSleep + S64(now - t.lastSleep);
        CongruentTrans(S64(v), v, now - start + w.drift - w.sleptAt);
        CongruentPlus(t.Active(), S64(v), now - start + w.drift - w.sleptAt);
      }
  }

  predicate AllLegal(events: seq<Event>) {
    forall i :: 0 <= i < |events| ==> Legal(events[i])
  }

  function Run(t: Time, events: seq<Event>): (u: Time)
    requires t.Valid() && AllLegal(events)
    ensures u.Valid()
    decreases events
  {
    if events == [] then t else Run(Step(t, events[0]), events[1..])
  }

  /** What the observer has seen at the end. */
  function Observe(w: Seen, t: Time, events: seq<Event>): Seen
    requires t.Valid() && AllLegal(events)
    decreases events
  {
    if events == [] then w else Observe(Watch(w, t, events[0]), Step(t, events[0]), events[1..])
  }

  lemma {:induction false} RunLaw(start: nat, t: Time, w: Seen, events: seq<Event>)
    requires t.Valid() && Law(start, t, w) && AllLegal(events)
    ensures Law(start, Run(t, events), Observe(w, t, events))
    decreases events
  {
    hide Law, Step, Watch, Legal;
    if events != [] {
      StepLaw(start, t, w, events[0]);
      RunLaw(start, Step(t, events[0]), Watch(w, t, events[0]), events[1..]);
    }
  }

  // ---------------------------------------------------------------- what the events alone say

  /** The cycles of a class in a list of events. */
  function Cycled(events: seq<Event>, k: nat): real
    decreases events
  {
    if events == [] then 0.0
    else (if events[0].Execute? && events[0].class_ == k then events[0].cycles else 0.0) + Cycled(events[1..], k)
  }

  /** The nanoseconds of a class: cycles times the period at which each was spent. */
  function Charged(events: seq<Event>, k: nat): real
    decreases events
  {
    if events == [] then 0.0
    else
      (if events[0].Execute? && events[0].class_ == k then events[0].cycles * events[0].period else 0.0)
      + Charged(events[1..], k)
  }

  /** Over any run, each class's cycles and active time grow by the sums over its instructions. */
  lemma {:induction false} RunCharges(t: Time, events: seq<Event>, k: nat)
    requires t.Valid() && AllLegal(events) && k < CLASSES
    ensures Run(t, events).cycles[k] == t.cycles[k] + Cycled(events, k)
    ensures Run(t, events).active[k] == t.active[k] + Charged(events, k)
    decreases events
  {
    if events != [] { RunCharges(Step(t, events[0]), events[1..], k); }
  }

  /** Active time after the events, in whole nanoseconds, given that of each class before. */
  function ActiveBy(active: seq<real>, events: seq<Event>): int
    requires |active| == CLASSES
  {
    (active[0] + Charged(events, 0) + active[1] + Charged(events, 1)
     + active[2] + Charged(events, 2) + active[3] + Charged(events, 3)).Floor
  }

  lemma RunActive(t: Time, events: seq<Event>)
    requires t.Valid() && AllLegal(events)
    ensures Run(t, events).Active() == ActiveBy(t.active, events)
  {
    var u := Run(t, events);
    RunCharges(t, events, 0);
    RunCharges(t, events, 1);
    RunCharges(t, events, 2);
    RunCharges(t, events, 3);
    SumFour(u.active);
  }

  lemma SumFour(s: seq<real>)
    requires |s| == CLASSES
    ensures Sum(s, CLASSES) == s[0] + s[1] + s[2] + s[3]
  {
    assert Sum(s, 1) == s[0];
    assert Sum(s, 2) == s[0] + s[1];
    assert Sum(s, 3) == s[0] + s[1] + s[2];
  }

  /** A reader of the events would note: whether the CPU sleeps, when it woke last and the active time by then, the active
      time by the last WFI, and the active time charged from each WFI to its wake-up. */
  datatype Diary = Diary(asleep: bool, woke: nat, activeAtWake: int, activeAtWfi: int, drift: int)

  function DiaryOf(active: seq<real>, start: nat, events: seq<Event>): Diary
    requires |active| == CLASSES
    decreases |events|
  {
    if events == [] then Diary(false, start, 0, 0, 0)
    else
      var before := events[..|events| - 1];
      var d, spent := DiaryOf(active, start, before), ActiveBy(active, before);
      match events[|events| - 1]
      case Execute(_, _, _) => d
      case Wfi(_) => d.(asleep := true, activeAtWfi := spent)
      case Wake(now) => if d.asleep then Diary(false, now, spent, d.activeAtWfi, d.drift + spent - d.activeAtWfi) else d
  }

  /** The notes and the counters tell the same. */
  ghost predicate Noted(d: Diary, t: Time, w: Seen) {
    d == Diary(t.asleep, t.lastActiveVm, t.lastActiveCycles, w.sleptAt, w.drift)
  }

  lemma {:induction false} RunLast(t: Time, w: Seen, events: seq<Event>)
    requires t.Valid() && AllLegal(events) && events != []
    ensures var before, e := events[..|events| - 1], events[|events| - 1];
            && Run(t, events) == Step(Run(t, before), e)
            && Observe(w, t, events) == Watch(Observe(w, t, before), Run(t, before), e)
    decreases |events|
  {
    hide Step, Watch, Legal;
    if |events| == 1 {
      assert events[1..] == [] && events[..0] == [];
    } else {
      RunLast(Step(t, events[0]), Watch(w, t, events[0]), events[1..]);
      assert events[1..][..|events| - 2] == events[..|events| - 1][1..];
    }
  }

  lemma {:induction false} DiaryNotes(active: seq<real>, start: nat, events: seq<Event>)
    requires Init(active, start).Valid() && AllLegal(events)
    ensures Noted(DiaryOf(active, start, events), Run(Init(active, start), events), Observe(Seen(0, 0), Init(active, start), events))
    decreases |events|
  {
    if events != [] {
      var t0, before := Init(active, start), events[..|events| - 1];
      DiaryNotes(active, start, before);
      RunLast(t0, Seen(0, 0), events);
      RunActive(t0, before);
      CongruentRefl(0);
      RunLaw(start, t0, Seen(0, 0), before);
      hide Law, U64, S64, ActiveBy, Sum;
      assert Law(start, Run(t0, before), Observe(Seen(0, 0), t0, before));
    }
  }

  /** Time conservation: at each wake-up of any run, sleep time and active time add up to the time since init exactly when
      no active time was charged in between a WFI and its wake-up. Clock and active time fit a signed word. */
  lemma TimeConserved(active: seq<real>, start: nat, events: seq<Event>, now: nat)
    requires Init(active, start).Valid() && AllLegal(events) && DiaryOf(active, start, events).asleep
    requires start <= now < TWO63 && ActiveBy(active, events) < TWO63
    ensures var u := Step(Run(Init(active, start), events), Wake(now));
            var d, spent := DiaryOf(active, start, events), ActiveBy(active, events);
            var drift := d.drift + spent - d.activeAtWfi;
            && u.totalSleep + spent == now - start + drift
            && (u.totalSleep + spent == now - start <==> drift == 0)
  {
    hide Congruent, ActiveBy;
    var t0 := Init(active, start);
    CongruentRefl(0);
    RunLaw(start, t0, Seen(0, 0), events);
    RunActive(t0, events);
    DiaryNotes(active, start, events);
    var t, w := Run(t0, events), Observe(Seen(0, 0), t0, events);
    StepLaw(start, t, w, Wake(now));
    var u := Step(t, Wake(now));
    CongruentNear(u.totalSleep + u.lastActiveCycles, u.lastActiveVm - start + Watch(w, t, Wake(now)).drift);
  }

  /** The clock that the reported sleep time goes by: now while asleep, and the last wake-up while awake. */
  function ClockBy(d: Diary, now: nat): int {
    if d.asleep then now else d.woke
  }

  /** The active time that it goes by: up to the WFI or the wake-up, what was charged while asleep left out. */
  function CountedBy(d: Diary): int {
    if d.asleep then d.activeAtWfi - d.drift else d.activeAtWake - d.drift
  }

  /** The time reported is what the clock leaves beyond the active time, if anything. */
  lemma SleepReport(active: seq<real>, start: nat, events: seq<Event>, now: nat)
    requires Init(active, start).Valid() && AllLegal(events) && ActiveBy(active, events) < TWO63
    requires start <= ClockBy(DiaryOf(active, start, events), now) < TWO63
    ensures var d := DiaryOf(active, start, events);
            var left := ClockBy(d, now) - start - CountedBy(d);
            SleepTime(Run(Init(active, start), events), now) == if left < 0 then 0 else left
  {
    hide Congruent, ActiveBy, DiaryOf;
    var t0 := Init(active, start);
    CongruentRefl(0);
    RunLaw(start, t0, Seen(0, 0), events);
    RunActive(t0, events);
    DiaryNotes(active, start, events);
    var t, w := Run(t0, events), Observe(Seen(0, 0), t0, events);
    if t.asleep {
      WakeMoment(start, t, w, now);
      var v: int := t.totalSleep + S64(now - t.lastSleep);
      CongruentTrans(S64(v), v, now - start + w.drift - w.sleptAt);
      CongruentNear(S64(v), now - start + w.drift - w.sleptAt);
    } else {
      CongruentNear(t.totalSleep + t.lastActiveCycles, t.lastActiveVm - start + w.drift);
    }
  }

  /** The later of two reports of a run is the smaller exactly when the earlier is not zero and the active time counted
      grew by more than the clock did. */
  lemma ReportFallsExactly(active: seq<real>, start: nat, events: seq<Event>, more: seq<Event>, now: nat, later: nat)
    requires Init(active, start).Valid() && AllLegal(events) && AllLegal(events + more)
    requires ActiveBy(active, events) < TWO63 && start <= ClockBy(DiaryOf(active, start, events), now) < TWO63
    requires ActiveBy(active, events + more) < TWO63 && start <= ClockBy(DiaryOf(active, start, events + more), later) < TWO63
    ensures var d, d' := DiaryOf(active, start, events), DiaryOf(active, start, events + more);
            SleepTime(Run(Init(active, start), events + more), later) < SleepTime(Run(Init(active, start), events), now) <==>
            && CountedBy(d) < ClockBy(d, now) - start
            && CountedBy(d') - CountedBy(d) > ClockBy(d', later) - ClockBy(d, now)
  {
    hide Run, DiaryOf, ActiveBy, ClockBy, CountedBy, SleepTime;
    SleepReport(active, start, events, now);
    SleepReport(active, start, events + more, later);
  }

  /** WFI again without a wake-up or a charge in between changes nothing, whatever the clock says. */
  lemma WfiIdempotent(t: Time, first: nat, again: nat)
    requires t.Valid()
    ensures Step(Step(t, Wfi(first)), Wfi(again)) == Step(t, Wfi(first))
  {
    var u := Step(t, Wfi(first));
    WfiMoment(t, first);
    WfiMoment(u, again);
    var m: int := t.lastActiveVm + t.Active() - t.lastActiveCycles;
    CongruentBetween(u.lastSleep, Step(u, Wfi(again)).lastSleep, m);
  }

  /** The reported sleep time can fall: a long burst of work after a wake-up eats into it. */
  lemma SleepReportCanFall()
    ensures var asleep := Step(Init(NONE, 0), Wfi(0));
            var busy := Step(Step(asleep, Wake(10)), Execute(0, 100.0, 1.0));
            var again := Step(busy, Wfi(11));
            SleepTime(asleep, 10) == 10 && SleepTime(again, 11) == 0
  {
    hide Step;
    FirstSleep();
    SecondSleep();
  }

  const NONE: seq<real> := [0.0, 0.0, 0.0, 0.0]

  lemma FirstSleep()
    ensures var asleep := Step(Init(NONE, 0), Wfi(0));
            SleepTime(asleep, 10) == 10 && Step(asleep, Wake(10)) == Time(NONE, NONE, 10, 10, 0, 0, false)
  {
    hide Sum, U64, S64;
    SumZero(NONE, CLASSES);
    WfiExact(Init(NONE, 0), 0);
    S64Small(10);
  }

  lemma SecondSleep()
    ensures var busy := Step(Time(NONE, NONE, 10, 10, 0, 0, false), Execute(0, 100.0, 1.0));
            SleepTime(Step(busy, Wfi(11)), 11) == 0
  {
    hide Sum, U64, S64;
    var busy := Step(Time(NONE, NONE, 10, 10, 0, 0, false), Execute(0, 100.0, 1.0));
    SumZero(NONE, CLASSES);
    SumUpdate(NONE, CLASSES, 0, 100.0);
    WfiExact(busy, 11);
    S64Small(-99);
    S64Small(-89);
  }

  /** The moment of falling asleep, when it fits a word. */
  lemma WfiExact(t: Time, now: nat)
    requires t.Valid() && 0 <= t.lastActiveVm + t.Active() - t.lastActiveCycles < TWO64
    ensures Step(t, Wfi(now)).lastSleep == t.lastActiveVm + t.Active() - t.lastActiveCycles
  {
    WfiMoment(t, now);
    CongruentNear(Step(t, Wfi(now)).lastSleep, t.lastActiveVm + t.Active() - t.lastActiveCycles);
  }

  lemma {:induction false} SumZero(s: seq<real>, n: nat)
    requires n <= |s| && forall i :: 0 <= i < n ==> s[i] == 0.0
    ensures Sum(s, n) == 0.0
  {
    if n > 0 { SumZero(s, n - 1); }
  }

  // ---------------------------------------------------------------- in place

  class Counters {
    const cycleCount: array<real>
    const activeTime: array<real>
    var totalSleepTime: int
    var lastActiveTimeVm: nat
    var lastActiveTimeCycles: nat
    var lastSleepTime: nat
    var enteredSleepMode: bool

    ghost predicate Valid()
      reads this, cycleCount, activeTime
    {
      cycleCount != activeTime && State().Valid()
    }

    ghost function State(): Time
      reads this, cycleCount, activeTime
    {
      Time(cycleCount[..], activeTime[..], totalSleepTime, lastActiveTimeVm, lastActiveTimeCycles, lastSleepTime, enteredSleepMode)
    }

    constructor (now: nat)
      requires now < TWO64
      ensures Valid() && fresh(cycleCount) && fresh(activeTime) && State() == Init(NONE, now)
    {
      cycleCount := new real[CLASSES](_ => 0.0);
      activeTime := new real[CLASSES](_ => 0.0);
      totalSleepTime, lastActiveTimeVm, lastActiveTimeCycles, lastSleepTime, enteredSleepMode := 0, now, 0, now, false;
      new;
      assert cycleCount[..] == [0.0, 0.0, 0.0, 0.0] && activeTime[..] == [0.0, 0.0, 0.0, 0.0];
    }

    method Reset(now: nat)
      requires Valid() && now < TWO64
      modifies this, cycleCount
      ensures Valid() && State() == Init(old(activeTime[..]), now)
    {
      for i := 0 to CLASSES
        invariant forall k :: 0 <= k < i ==> cycleCount[k] == 0.0
      {
        cycleCount[i] := 0.0;
      }
      lastActiveTimeVm, lastSleepTime := now, now;
      lastActiveTimeCycles := 0;
      totalSleepTime := 0;
      enteredSleepMode := false;
      assert cycleCount[..] == [0.0, 0.0, 0.0, 0.0];
    }

    /** vemu_get_act_time_all_classes: the classes are added as reals and truncated once. */
    method ActTimeAllClasses() returns (r: nat)
      requires Valid()
      ensures r == State().Active()
    {
      var sum := 0.0;
      for i := 0 to CLASSES
        invariant sum == Sum(activeTime[..], i)
      {
        sum := sum + activeTime[i];
      }
      SumNonNegative(activeTime[..], CLASSES);
      r := sum.Floor;
    }

    /** vemu_get_cycles_all_classes: the sum is truncated at each class. */
    method CyclesAllClasses() returns (sum: nat)
      requires Valid()
      ensures sum == SumFloors(cycleCount[..], CLASSES)
    {
      sum := 0;
      for i := 0 to CLASSES
        invariant sum == SumFloors(cycleCount[..], i)
      {
        sum := (sum as real + cycleCount[i]).Floor;
      }
    }

    method IncrementCycles(class_: nat, cycles: real, period: real)
      requires Valid() && Legal(Execute(class_, cycles, period))
      modifies cycleCount, activeTime
      ensures Valid() && State() == Step(old(State()), Execute(class_, cycles, period))
    {
      ghost var t := State();
      cycleCount[class_] := cycleCount[class_] + cycles;
      activeTime[class_] := activeTime[class_] + cycles * period;
      assert State() == Step(t, Execute(class_, cycles, period));
    }

    method ActiveStart(now: nat)
      requires Valid()
      modifies this
      ensures Valid() && State() == Step(old(State()), Wake(now))
    {
      if !enteredSleepMode {
        return;
      }
      var interval := S64(now - lastSleepTime);
      totalSleepTime := S64(totalSleepTime + interval);
      lastActiveTimeVm := now;
      lastActiveTimeCycles := ActTimeAllClasses();
      enteredSleepMode := false;
    }

    method SleepStart(now: nat)
      requires Valid()
      modifies this
      ensures Valid() && State() == Step(old(State()), Wfi(now))
    {
      var interval: int := U64(now - lastActiveTimeVm);
      var total := ActTimeAllClasses();
      var actPeriod: int := U64(total - lastActiveTimeCycles);
      var delta := S64(actPeriod - interval);
      lastSleepTime := U64(now + delta);
      enteredSleepMode := true;
    }

    method SlpTime(now: nat) returns (r: nat)
      requires Valid()
      ensures r == SleepTime(State(), now)
    {
      var v := totalSleepTime;
      if enteredSleepMode {
        var interval := S64(now - lastSleepTime);
        v := S64(totalSleepTime + interval);
      }
      if v < 0 {
        return 0;
      }
      return v;
    }
  }

  /** The registers of the classes, added up. */
  function SumFloors(s: seq<real>, n: nat): int
    requires n <= |s|
  {
    if n == 0 then 0 else SumFloors(s, n - 1) + s[n - 1].Floor
  }

  /** The total active time is not the sum of the classes' active times, but less than the number of
      classes beyond it. */
  lemma {:induction false} TotalBeyondSum(s: seq<real>, n: nat)
    requires 0 < n <= |s|
    ensures SumFloors(s, n) <= Sum(s, n).Floor <= SumFloors(s, n) + n - 1
    ensures SumFloors(s, n) as real <= Sum(s, n) < (SumFloors(s, n) + n) as real
  {
    if n > 1 { TotalBeyondSum(s, n - 1); }
  }
}
