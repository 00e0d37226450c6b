/** Energy accounting: each class's energy is settled up to a checkpoint and grows with power times active
    time. Over any run it is the integral of power, however often it is read. */
module Energy {
  import opened Words
  import opened Registers
  import opened Cycles

  /** Power as a function of the model's parameters: per class when active, and asleep. */
  datatype Model = Model(act: (seq<real>, nat) -> real, slp: seq<real> -> real)

  datatype Meter = Meter(ckpt: seq<nat>, energy: seq<real>, slpCkpt: nat, slpEnergy: real, params: seq<real>)

  /** The meter and the truncated active time of each class, which it reads. */
  datatype State = State(meter: Meter, act: seq<nat>) {
    predicate Valid() {
      && |meter.ckpt| == |meter.energy| == |act| == CLASSES
      && (forall c :: 0 <= c < CLASSES ==> meter.ckpt[c] <= act[c] < TWO64)
      && meter.slpCkpt < TWO63
    }
  }

  /** The active time since the checkpoint. */
  function Unsettled(m: Meter, act: seq<nat>, c: nat): int
    requires |m.ckpt| == |act| == CLASSES && c < CLASSES
  {
    var now: int := act[c];
    now - m.ckpt[c]
  }

  function Charge(p: Model, params: seq<real>, c: nat, interval: int): real {
    interval as real * p.act(params, c)
  }

  /** vemu_get_act_energy. */
  function Settle(p: Model, m: Meter, act: seq<nat>, c: nat): Meter
    requires |m.ckpt| == |m.energy| == |act| == CLASSES && c < CLASSES
  {
    var interval := U64(Unsettled(m, act, c));
    m.(ckpt := m.ckpt[c := act[c]], energy := m.energy[c := m.energy[c] + Charge(p, m.params, c, interval)])
  }

  /** vemu_get_act_energy_all_classes. */
  function SettleTo(p: Model, m: Meter, act: seq<nat>, n: nat): (r: Meter)
    requires |m.ckpt| == |m.energy| == |act| == CLASSES && n <= CLASSES
    ensures |r.ckpt| == |r.energy| == CLASSES
  {
    if n == 0 then m else Settle(p, SettleTo(p, m, act, n - 1), act, n - 1)
  }

  function SleepCharge(p: Model, params: seq<real>, interval: int): real {
    interval as real * p.slp(params)
  }

  /** vemu_get_slp_energy, for a sleep time of `slp`. */
  function SettleSleep(p: Model, m: Meter, slp: nat): Meter {
    var interval := S64(slp - m.slpCkpt);
    if interval < 0 then m
    else m.(slpCkpt := slp, slpEnergy := m.slpEnergy + SleepCharge(p, m.params, interval))
  }

  function SetParam(m: Meter, k: nat, v: real): Meter {
    if k < |m.params| then m.(params := m.params[k := v]) else m
  }

  // ---------------------------------------------------------------- runs

  datatype Event =
    | Advance(act: seq<nat>)                          // active time grows to this
    | ReadClass(c: nat)
    | ReadAll
    | ReadSleep(slp: nat)
    | Change(k: nat, v: real, slp: nat)               // vemu_energy_change_parameter
    | Poke(k: nat, v: real)                           // vemu_pm_change_parameter, from the device

  predicate Legal(act: seq<nat>, e: Event)
    requires |act| == CLASSES
  {
    match e
    case Advance(a) => |a| == CLASSES && forall c :: 0 <= c < CLASSES ==> act[c] <= a[c] < TWO64
    case ReadClass(c) => c < CLASSES
    case ReadAll => true
    case ReadSleep(slp) => slp < TWO63
    case Change(_, _, slp) => slp < TWO63
    case Poke(_, _) => true
  }

  function StepMeter(p: Model, m: Meter, act: seq<nat>, e: Event): Meter
    requires |m.ckpt| == |m.energy| == |act| == CLASSES && Legal(act, e)
  {
    match e
    case Advance(_) => m
    case ReadClass(c) => Settle(p, m, act, c)
    case ReadAll => SettleTo(p, m, act, CLASSES)
    case ReadSleep(slp) => SettleSleep(p, m, slp)
    case Change(k, v, slp) => SetParam(SettleSleep(p, SettleTo(p, m, act, CLASSES), slp), k, v)
    case Poke(k, v) => SetParam(m, k, v)
  }

  function Step(p: Model, s: State, e: Event): (r: State)
    requires s.Valid() && Legal(s.act, e)
    ensures r.Valid()
  {
    StepValid(p, s, e);
    State(StepMeter(p, s.meter, s.act, e), if e.Advance? then e.act else s.act)
  }

  lemma StepValid(p: Model, s: State, e: Event)
    requires s.Valid() && Legal(s.act, e)
    ensures State(StepMeter(p, s.meter, s.act, e), if e.Advance? then e.act else s.act).Valid()
  {
    SettleToAll(p, s.meter, s.act, CLASSES);
  }

  // ---------------------------------------------------------------- settling

  /** What the class has used up to now, settled or not. */
  function Used(p: Model, m: Meter, act: seq<nat>, c: nat): real
    requires |m.ckpt| == |m.energy| == |act| == CLASSES && c < CLASSES
  {
    m.energy[c] + Charge(p, m.params, c, Unsettled(m, act, c))
  }

  /** Settling some classes moves their checkpoints, and changes what no class has used. */
  lemma {:induction false} SettleToAll(p: Model, m: Meter, act: seq<nat>, n: nat)
    requires State(m, act).Valid() && n <= CLASSES
    ensures var r := SettleTo(p, m, act, n);
            && r.params == m.params && r.slpCkpt == m.slpCkpt && r.slpEnergy == m.slpEnergy
            && (forall c :: 0 <= c < CLASSES ==> r.ckpt[c] == if c < n then act[c] else m.ckpt[c])
            && (forall c :: 0 <= c < CLASSES ==> Used(p, r, act, c) == Used(p, m, act, c))
  {
    if n > 0 {
      SettleToAll(p, m, act, n - 1);
      var q := SettleTo(p, m, act, n - 1);
      forall c | 0 <= c < CLASSES ensures Used(p, Settle(p, q, act, n - 1), act, c) == Used(p, q, act, c) {
        SettleKeepsUsed(p, q, act, n - 1, c);
      }
    }
  }

  lemma SettleKeepsUsed(p: Model, m: Meter, act: seq<nat>, c: nat, d: nat)
    requires State(m, act).Valid() && c < CLASSES && d < CLASSES
    ensures Used(p, Settle(p, m, act, c), act, d) == Used(p, m, act, d)
  {
    U64Small(Unsettled(m, act, c));
  }

  // ---------------------------------------------------------------- the integral of power

  /** Power times growth, over the steps of a run. Reads play no part in it. */
  function Integral(p: Model, params: seq<real>, act: seq<nat>, events: seq<Event>, c: nat): real
    requires |act| == CLASSES && c < CLASSES && AllLegal(act, events)
    decreases events
  {
    if events == [] then 0.0
    else
      var e := events[0];
      match e
      case Advance(a) =>
        var growth: int := a[c];
        (growth - act[c]) as real * p.act(params, c) + Integral(p, params, a, events[1..], c)
      case Change(k, v, _) => Integral(p, Changed(params, k, v), act, events[1..], c)
      case Poke(k, v) => Integral(p, Changed(params, k, v), act, events[1..], c)
      case _ => Integral(p, params, act, events[1..], c)
  }

  function Changed(params: seq<real>, k: nat, v: real): seq<real> {
    if k < |params| then params[k := v] else params
  }

  predicate AllLegal(act: seq<nat>, events: seq<Event>)
    requires |act| == CLASSES
    decreases events
  {
    events == [] || (Legal(act, events[0]) && AllLegal(if events[0].Advance? then events[0].act else act, events[1..]))
  }

  function Run(p: Model, s: State, events: seq<Event>): (r: State)
    requires s.Valid() && AllLegal(s.act, events)
    ensures r.Valid()
    decreases events
  {
    if events == [] then s else Run(p, Step(p, s, events[0]), events[1..])
  }

  /** What a change of parameters by the device adds that nobody used: the unsettled time is counted at the
      new power. */
  function Skew(p: Model, s: State, e: Event, c: nat): real
    requires s.Valid() && c < CLASSES
  {
    if e.Poke? then
      Unsettled(s.meter, s.act, c) as real * (p.act(Changed(s.meter.params, e.k, e.v), c) - p.act(s.meter.params, c))
    else 0.0
  }

  function TotalSkew(p: Model, s: State, events: seq<Event>, c: nat): real
    requires s.Valid() && AllLegal(s.act, events) && c < CLASSES
    decreases events
  {
    if events == [] then 0.0 else Skew(p, s, events[0], c) + TotalSkew(p, Step(p, s, events[0]), events[1..], c)
  }

  function Growth(p: Model, s: State, e: Event, c: nat): real
    requires s.Valid() && Legal(s.act, e) && c < CLASSES
  {
    if e.Advance? then
      var now: int := e.act[c];
      (now - s.act[c]) as real * p.act(s.meter.params, c)
    else 0.0
  }

  lemma StepUses(p: Model, s: State, e: Event, c: nat)
    requires s.Valid() && Legal(s.act, e) && c < CLASSES
    ensures var r := Step(p, s, e);
            Used(p, r.meter, r.act, c) == Used(p, s.meter, s.act, c) + Growth(p, s, e, c) + Skew(p, s, e, c)
  {
    match e
    case Advance(a) =>
      var w, now: int, was: int := p.act(s.meter.params, c), a[c], s.act[c];
      Distribute((now - was) as real, Unsettled(s.meter, s.act, c) as real, w);
    case ReadClass(d) => SettleKeepsUsed(p, s.meter, s.act, d, c);
    case ReadAll => SettleToAll(p, s.meter, s.act, CLASSES);
    case ReadSleep(_) =>
    case Change(k, v, slp) =>
      SettleToAll(p, s.meter, s.act, CLASSES);
    case Poke(k, v) =>
  }

  lemma Distribute(x: real, y: real, w: real)
    ensures (x + y) * w == x * w + y * w
  {
  }

  /** Energy is the integral of power over any run, but for the skew of the device's unsettled changes:
      so exactly when the skew is nothing. */
  lemma {:induction false} EnergyIsIntegral(p: Model, s: State, events: seq<Event>, c: nat)
    requires s.Valid() && AllLegal(s.act, events) && c < CLASSES
    ensures var r := Run(p, s, events);
            var used := Used(p, r.meter, r.act, c) - Used(p, s.meter, s.act, c);
            && used == Integral(p, s.meter.params, s.act, events, c) + TotalSkew(p, s, events, c)
    decreases events
  {
    hide Used, Skew, Step, State.Valid;
    if events != [] {
      StepUses(p, s, events[0], c);
      StepWorld(p, s, events[0]);
      EnergyIsIntegral(p, Step(p, s, events[0]), events[1..], c);
    }
  }

  lemma StepWorld(p: Model, s: State, e: Event)
    requires s.Valid() && Legal(s.act, e)
    ensures var r := Step(p, s, e);
            && r.act == (if e.Advance? then e.act else s.act)
            && r.meter.params == (if e.Change? || e.Poke? then Changed(s.meter.params, e.k, e.v) else s.meter.params)
  {
    SettleToAll(p, s.meter, s.act, CLASSES);
  }

  /** A single change by the device keeps the account straight exactly when the class was settled or its
      power stays the same. */
  lemma PokeExact(p: Model, s: State, k: nat, v: real, c: nat)
    requires s.Valid() && c < CLASSES
    ensures var r := Step(p, s, Poke(k, v));
            Used(p, r.meter, r.act, c) == Used(p, s.meter, s.act, c) <==>
            s.meter.ckpt[c] == s.act[c] || p.act(Changed(s.meter.params, k, v), c) == p.act(s.meter.params, c)
  {
    StepUses(p, s, Poke(k, v), c);
    ProductZero(Unsettled(s.meter, s.act, c) as real, p.act(Changed(s.meter.params, k, v), c) - p.act(s.meter.params, c));
  }

  lemma ProductZero(x: real, y: real)
    ensures x * y == 0.0 <==> x == 0.0 || y == 0.0
  {
  }

  // ---------------------------------------------------------------- the schedule of reads

  /** A run without its reads: how time passes and what the parameters become. */
  function World(events: seq<Event>): seq<Event> {
    if events == [] then []
    else
      match events[0]
      case Advance(a) => [Advance(a)] + World(events[1..])
      case Change(k, v, _) => [Poke(k, v)] + World(events[1..])
      case Poke(k, v) => [Poke(k, v)] + World(events[1..])
      case _ => World(events[1..])
  }

  lemma {:induction false} IntegralOfWorld(p: Model, params: seq<real>, act: seq<nat>, events: seq<Event>, c: nat)
    requires |act| == CLASSES && c < CLASSES && AllLegal(act, events)
    ensures AllLegal(act, World(events))
    ensures Integral(p, params, act, World(events), c) == Integral(p, params, act, events, c)
    decreases events
  {
    if events != [] {
      var e, rest := events[0], World(events[1..]);
      var params' := if e.Change? || e.Poke? then Changed(params, e.k, e.v) else params;
      IntegralOfWorld(p, params', if e.Advance? then e.act else act, events[1..], c);
      if e.Advance? {
        assert ([Advance(e.act)] + rest)[1..] == rest;
      } else if e.Change? || e.Poke? {
        assert ([Poke(e.k, e.v)] + rest)[1..] == rest;
      }
    }
  }

  /** The device changes parameters only when everything has been settled: as right after a READ_CMD. */
  predicate PokesSettled(p: Model, s: State, events: seq<Event>)
    requires s.Valid() && AllLegal(s.act, events)
    decreases events
  {
    events == [] || ((events[0].Poke? ==> s.meter.ckpt == s.act) && PokesSettled(p, Step(p, s, events[0]), events[1..]))
  }

  lemma ReadAllSettles(p: Model, s: State)
    requires s.Valid()
    ensures var r := Step(p, s, ReadAll); r.meter.ckpt == r.act
  {
    SettleToAll(p, s.meter, s.act, CLASSES);
  }

  lemma {:induction false} SettledNoSkew(p: Model, s: State, events: seq<Event>, c: nat)
    requires s.Valid() && AllLegal(s.act, events) && c < CLASSES && PokesSettled(p, s, events)
    ensures TotalSkew(p, s, events, c) == 0.0
    decreases events
  {
    hide Step;
    if events != [] {
      StepWorld(p, s, events[0]);
      SettledNoSkew(p, Step(p, s, events[0]), events[1..], c);
    }
  }

  lemma SettledEnergy(p: Model, s: State, c: nat)
    requires s.Valid() && c < CLASSES
    ensures Settle(p, s.meter, s.act, c).energy[c] == Used(p, s.meter, s.act, c)
  {
    U64Small(Unsettled(s.meter, s.act, c));
  }

  /** Two runs in which time passes and parameters change alike read the same energy at the end, however
      they were read on the way. */
  lemma ReadScheduleIrrelevant(p: Model, s: State, one: seq<Event>, two: seq<Event>, c: nat)
    requires s.Valid() && c < CLASSES && AllLegal(s.act, one) && AllLegal(s.act, two)
    requires World(one) == World(two) && PokesSettled(p, s, one) && PokesSettled(p, s, two)
    ensures var r, q := Run(p, s, one), Run(p, s, two);
            Settle(p, r.meter, r.act, c).energy[c] == Settle(p, q.meter, q.act, c).energy[c]
  {
    hide Used, Settle, Integral, TotalSkew, Run, PokesSettled;
    EnergyIsIntegral(p, s, one, c);
    EnergyIsIntegral(p, s, two, c);
    SettledNoSkew(p, s, one, c);
    SettledNoSkew(p, s, two, c);
    IntegralOfWorld(p, s.meter.params, s.act, one, c);
    IntegralOfWorld(p, s.meter.params, s.act, two, c);
    SettledEnergy(p, Run(p, s, one), c);
    SettledEnergy(p, Run(p, s, two), c);
  }

  // ---------------------------------------------------------------- sleep energy

  /** The largest sleep time sampled in a run, or `m` if none was larger. */
  function LargestSample(m: nat, events: seq<Event>): nat
    decreases events
  {
    if events == [] then m
    else if (events[0].ReadSleep? || events[0].Change?) && events[0].slp > m then LargestSample(events[0].slp, events[1..])
    else LargestSample(m, events[1..])
  }

  lemma SleepSettled(p: Model, m: Meter, slp: nat)
    requires m.slpCkpt < TWO63 && slp < TWO63
    ensures var r := SettleSleep(p, m, slp);
            && r.slpCkpt == (if slp > m.slpCkpt then slp else m.slpCkpt)
            && r.slpEnergy == m.slpEnergy + (r.slpCkpt - m.slpCkpt) as real * p.slp(m.params)
  {
    var now: int := slp;
    S64Small(now - m.slpCkpt);
  }

  lemma ProductNonNegative(x: real, y: real)
    requires x >= 0.0 && y >= 0.0
    ensures x * y >= 0.0
  {
  }

  lemma SleepStep(p: Model, s: State, e: Event)
    requires s.Valid() && Legal(s.act, e)
    ensures var r := Step(p, s, e);
            && r.meter.slpCkpt == LargestSample(s.meter.slpCkpt, [e])
            && r.meter.slpEnergy == s.meter.slpEnergy + (r.meter.slpCkpt - s.meter.slpCkpt) as real * p.slp(s.meter.params)
  {
    hide SettleSleep, SettleTo;
    SettleToAll(p, s.meter, s.act, CLASSES);
    match e
    case ReadSleep(slp) => SleepSettled(p, s.meter, slp);
    case Change(_, _, slp) => SleepSettled(p, SettleTo(p, s.meter, s.act, CLASSES), slp);
    case _ =>
  }

  lemma LargestGrows(m: nat, e: Event)
    ensures LargestSample(m, [e]) >= m
  {
  }

  /** Over a run: at each sample, the sleep power then in force times the growth of the largest sample. */
  function SleepSum(p: Model, params: seq<real>, m: nat, events: seq<Event>): real
    decreases events
  {
    if events == [] then 0.0
    else
      var e := events[0];
      var largest: int := LargestSample(m, [e]);
      LargestGrows(m, e);
      (largest - m) as real * p.slp(params)
      + SleepSum(p, if e.Change? || e.Poke? then Changed(params, e.k, e.v) else params, largest, events[1..])
  }

  /** Sleep energy is that sum, over every run. */
  lemma {:induction false} SleepEnergyIsSum(p: Model, s: State, events: seq<Event>)
    requires s.Valid() && AllLegal(s.act, events)
    ensures Run(p, s, events).meter.slpEnergy == s.meter.slpEnergy + SleepSum(p, s.meter.params, s.meter.slpCkpt, events)
    decreases events
  {
    hide Step, State.Valid, LargestSample;
    if events != [] {
      SleepStep(p, s, events[0]);
      StepWorld(p, s, events[0]);
      SleepEnergyIsSum(p, Step(p, s, events[0]), events[1..]);
    }
  }

  /** The checkpoint is the running maximum of the sleep times sampled, and the energy never falls although
      they may. */
  lemma {:induction false} SleepEnergyRises(p: Model, s: State, events: seq<Event>)
    requires s.Valid() && AllLegal(s.act, events) && (forall q :: p.slp(q) >= 0.0)
    ensures var r := Run(p, s, events);
            && r.meter.slpCkpt == LargestSample(s.meter.slpCkpt, events)
            && r.meter.slpEnergy >= s.meter.slpEnergy
    decreases events
  {
    hide Step, State.Valid;
    if events != [] {
      SleepStep(p, s, events[0]);
      StepWorld(p, s, events[0]);
      LargestGrows(s.meter.slpCkpt, events[0]);
      var grown: int := Step(p, s, events[0]).meter.slpCkpt;
      ProductNonNegative((grown - s.meter.slpCkpt) as real, p.slp(s.meter.params));
      SleepEnergyRises(p, Step(p, s, events[0]), events[1..]);
    }
  }

  /** No change of parameters changes the sleep power. */
  predicate SleepPowerStays(p: Model, params: seq<real>, events: seq<Event>)
    decreases events
  {
    events == [] ||
    (var e := events[0];
     var next := if e.Change? || e.Poke? then Changed(params, e.k, e.v) else params;
     p.slp(next) == p.slp(params) && SleepPowerStays(p, next, events[1..]))
  }

  /** At one sleep power throughout, it is that power times the growth of the maximum. */
  lemma {:induction false} SleepEnergyAtConstantPower(p: Model, s: State, events: seq<Event>)
    requires s.Valid() && AllLegal(s.act, events) && SleepPowerStays(p, s.meter.params, events)
    ensures var r := Run(p, s, events);
            r.meter.slpEnergy == s.meter.slpEnergy + (r.meter.slpCkpt - s.meter.slpCkpt) as real * p.slp(s.meter.params)
    decreases events
  {
    hide Step, State.Valid;
    if events != [] {
      var t := Step(p, s, events[0]);
      SleepStep(p, s, events[0]);
      StepWorld(p, s, events[0]);
      SleepEnergyAtConstantPower(p, t, events[1..]);
      var mid: int, first: int, last: int := t.meter.slpCkpt, s.meter.slpCkpt, Run(p, t, events[1..]).meter.slpCkpt;
      Distribute((mid - first) as real, (last - mid) as real, p.slp(s.meter.params));
    }
  }
}
