/** The accounting end to end: instructions and sleep on the CPU, the device that meters them, and the kernel
    that divides the device's registers among processes, as one machine. */
module Accounting {
  import opened Words
  import opened Registers
  import C = Cycles
  import E = Energy
  import H = HwModule
  import D = Driver

  /** The counters, the meter and the kernel; and what an observer adds up: the integral of power for each
      class, so far and at the latest switch. */
  datatype Machine = Machine(time: C.Time, meter: E.Meter, kernel: D.Kernel, spent: seq<real>, billed: seq<real>)

  datatype Event =
    | Cpu(e: C.Event)                        // an instruction, WFI or a wake-up
    | SwitchOut(now: nat)
    | SwitchIn(p: nat, now: nat)
    | ReadProc(now: nat, again: nat)
    | ReadDevice(now: nat)                   // READ_HW
    | WriteFaults(val: nat)
    | Fork
    | Change(k: nat, v: real, now: nat)      // by the monitor
    | Poke(k: nat, v: real)                  // by the device

  // ---------------------------------------------------------------- the device's registers

  /** The registers after READ_CMD, before they are cut to words. */
  function RegisterValues(p: E.Model, t: C.Time, m: E.Meter, faults: nat, now: nat): (s: seq<int>)
    requires H.Metered(t, m) && H.Metered(t, H.ReadMeter(p, t, m, now))
    ensures |s| == N_VARS
  {
    var r := H.ReadMeter(p, t, m, now);
    ClassValues(t, r) + H.TotalRegisters(t, r, faults, now)
  }

  function ClassValues(t: C.Time, m: E.Meter): (s: seq<int>)
    requires H.Metered(t, m)
    ensures |s| == TOTAL_ACT_TIME
  {
    seq(TOTAL_ACT_TIME, i requires 0 <= i < TOTAL_ACT_TIME =>
      if i < CLASSES then H.Act(t)[i] else if i < 2 * CLASSES then m.energy[i - CLASSES].Floor else t.cycles[i - 2 * CLASSES].Floor)
  }

  function Cut(s: seq<int>): (v: D.Vars)
    requires |s| == N_VARS
    ensures forall i :: 0 <= i < N_VARS ==> v[i] == U64(s[i])
  {
    seq(N_VARS, i requires 0 <= i < N_VARS => U64(s[i]))
  }

  lemma ReadKeepsMetered(p: E.Model, t: C.Time, m: E.Meter, now: nat)
    requires H.Metered(t, m)
    ensures var r := H.ReadMeter(p, t, m, now);
            && H.Metered(t, r) && r.params == m.params
            && forall c :: 0 <= c < CLASSES ==> E.Used(p, r, H.Act(t), c) == E.Used(p, m, H.Act(t), c) == r.energy[c]
  {
    H.SleepTimeFits(t, now);
    H.ReadMeterSettles(p, t, m, now);
  }

  /** They are what the device's snapshot is said to be. */
  lemma ValuesAreSnapshot(p: E.Model, t: C.Time, m: E.Meter, faults: nat, now: nat)
    requires H.Metered(t, m) && H.Metered(t, H.ReadMeter(p, t, m, now))
    ensures H.Snapshot(p, t, m, faults, now, RegisterValues(p, t, m, faults, now))
  {
    hide H.Metered, H.ReadMeter, H.Snapshot, H.TotalRegisters, E.Used;
    ReadKeepsMetered(p, t, m, now);
    var s := RegisterValues(p, t, m, faults, now);
    assert s == s[..TOTAL_ACT_TIME] + H.TotalRegisters(t, H.ReadMeter(p, t, m, now), faults, now);
    H.Assembled(p, t, m, faults, now, s, s);
  }

  /** And a snapshot is no other. */
  lemma SnapshotIsValues(p: E.Model, t: C.Time, m: E.Meter, faults: nat, now: nat, regs: seq<int>)
    requires H.Metered(t, m) && H.Metered(t, H.ReadMeter(p, t, m, now)) && H.Snapshot(p, t, m, faults, now, regs)
    ensures regs == RegisterValues(p, t, m, faults, now)
  {
    hide H.ReadMeter, E.Used, C.SleepTime, H.Metered, H.SumInts;
    ValuesAreSnapshot(p, t, m, faults, now);
    var s := RegisterValues(p, t, m, faults, now);
    ClassesAgree(p, t, m, regs, s);
    SumsAgree(regs, s);
    assert forall i :: TOTAL_ACT_TIME <= i < N_VARS ==> regs[i] == s[i];
    assert regs == regs[..TOTAL_ACT_TIME] + regs[TOTAL_ACT_TIME..] && s == s[..TOTAL_ACT_TIME] + s[TOTAL_ACT_TIME..];
  }

  lemma ClassesAgree(p: E.Model, t: C.Time, m: E.Meter, regs: seq<int>, s: seq<int>)
    requires H.Metered(t, m) && H.ClassRegisters(p, t, m, regs, CLASSES) && H.ClassRegisters(p, t, m, s, CLASSES)
    ensures regs[..TOTAL_ACT_TIME] == s[..TOTAL_ACT_TIME]
  {
    forall i | 0 <= i < TOTAL_ACT_TIME ensures regs[i] == s[i] {
      ClassAgrees(p, t, m, regs, s, i % CLASSES);
      assert i == i % CLASSES || i == CLASSES + i % CLASSES || i == 2 * CLASSES + i % CLASSES;
    }
  }

  lemma ClassAgrees(p: E.Model, t: C.Time, m: E.Meter, regs: seq<int>, s: seq<int>, i: nat)
    requires H.Metered(t, m) && H.ClassRegisters(p, t, m, regs, CLASSES) && H.ClassRegisters(p, t, m, s, CLASSES) && i < CLASSES
    ensures regs[i] == s[i] && regs[CLASSES + i] == s[CLASSES + i] && regs[2 * CLASSES + i] == s[2 * CLASSES + i]
  {
    hide E.Used;
    assert regs[CLASSES + i] == E.Used(p, m, H.Act(t), i).Floor && regs[2 * CLASSES + i] == t.cycles[i].Floor;
  }

  lemma SumsAgree(regs: seq<int>, s: seq<int>)
    requires |regs| == |s| == N_VARS && regs[..TOTAL_ACT_TIME] == s[..TOTAL_ACT_TIME]
    ensures regs[CLASSES..2 * CLASSES] == s[CLASSES..2 * CLASSES] && regs[2 * CLASSES..3 * CLASSES] == s[2 * CLASSES..3 * CLASSES]
  {
    var x, y := regs[..TOTAL_ACT_TIME], s[..TOTAL_ACT_TIME];
    assert regs[CLASSES..2 * CLASSES] == x[CLASSES..2 * CLASSES] && s[CLASSES..2 * CLASSES] == y[CLASSES..2 * CLASSES];
    assert regs[2 * CLASSES..3 * CLASSES] == x[2 * CLASSES..3 * CLASSES] && s[2 * CLASSES..3 * CLASSES] == y[2 * CLASSES..3 * CLASSES];
  }

  // ---------------------------------------------------------------- steps

  predicate Shaped(w: Machine) {
    H.Metered(w.time, w.meter) && w.kernel.Valid() && w.kernel.mapped && w.kernel.flag < TWO64 && |w.spent| == |w.billed| == CLASSES
  }

  /** What the kernel reads. */
  function Shown(p: E.Model, w: Machine, now: nat): D.Vars
    requires Shaped(w)
  {
    ReadKeepsMetered(p, w.time, w.meter, now);
    Cut(RegisterValues(p, w.time, w.meter, w.kernel.flag, now))
  }

  predicate Legal(p: E.Model, w: Machine, e: Event)
    requires Shaped(w)
  {
    match e
    case Cpu(c) => C.Legal(c) && (forall i :: 0 <= i < CLASSES ==> C.Step(w.time, c).active[i].Floor < TWO64)
    case SwitchOut(_) => w.kernel.running
    case SwitchIn(q, _) => !w.kernel.running && q < |w.kernel.procs|
    case ReadProc(_, _) => w.kernel.running
    case WriteFaults(_) => w.kernel.running
    case Poke(_, _) => w.meter.ckpt == H.Act(w.time)      // after a READ_CMD
    case _ => true
  }

  /** Power times the growth of truncated active time. */
  function Growth(p: E.Model, w: Machine, e: C.Event, c: nat): real
    requires Shaped(w) && C.Legal(e) && c < CLASSES
  {
    var now: int, was: int := C.Step(w.time, e).active[c].Floor, w.time.active[c].Floor;
    E.Charge(p, w.meter.params, c, now - was)
  }

  function Read(p: E.Model, w: Machine, now: nat): Machine
    requires Shaped(w)
  {
    w.(meter := H.ReadMeter(p, w.time, w.meter, now))
  }

  function Out(p: E.Model, w: Machine, now: nat): Machine
    requires Shaped(w)
  {
    Read(p, w, now).(kernel := D.Out(w.kernel, Shown(p, w, now)), billed := w.spent)
  }

  function In(p: E.Model, w: Machine, q: nat, now: nat): Machine
    requires Shaped(w) && q < |w.kernel.procs|
  {
    Read(p, w, now).(kernel := D.In(w.kernel, q, Shown(p, w, now)), billed := w.spent)
  }

  function Step(p: E.Model, w: Machine, e: Event): Machine
    requires Shaped(w) && Legal(p, w, e)
  {
    match e
    case Cpu(c) =>
      w.(time := C.Step(w.time, c), spent := seq(CLASSES, i requires 0 <= i < CLASSES => w.spent[i] + Growth(p, w, c, i)))
    case SwitchOut(now) => Out(p, w, now)
    case SwitchIn(q, now) => In(p, w, q, now)
    case ReadProc(now, again) =>
      OutShaped(p, w, now);
      In(p, Out(p, w, now), w.kernel.current, again)
    case ReadDevice(now) => Read(p, w, now)
    case WriteFaults(val) => w.(kernel := D.Step(w.kernel, D.WriteFaults(val)))
    case Fork => w.(kernel := D.Step(w.kernel, D.Fork))
    case Change(k, v, now) =>
      w.(meter := E.SetParam(H.ReadMeter(p, w.time, w.meter, now), k, v))
    case Poke(k, v) => w.(meter := E.SetParam(w.meter, k, v))
  }

  lemma OutShaped(p: E.Model, w: Machine, now: nat)
    requires Shaped(w)
    ensures Shaped(Out(p, w, now)) && w.kernel.current < |Out(p, w, now).kernel.procs|
  {
    ReadKeepsMetered(p, w.time, w.meter, now);
  }

  // ---------------------------------------------------------------- what every run keeps

  /** The meter has what was spent, settled or not; and the kernel's latest snapshot shows what had been spent at
      the latest switch, which its shares add up to. */
  ghost predicate Inv(p: E.Model, w: Machine) {
    && Shaped(w)
    && (forall c :: 0 <= c < CLASSES ==> E.Used(p, w.meter, H.Act(w.time), c) == w.spent[c])
    && (forall c :: 0 <= c < CLASSES ==> w.kernel.Latest()[CLASSES + c] == U64(w.billed[c].Floor))
    && w.kernel.Latest()[TOTAL_ACT_ENERGY] == U64(C.SumFloors(w.billed, CLASSES))
    && D.Conserved(w.kernel)
  }

  lemma ShownEnergy(p: E.Model, w: Machine, now: nat)
    requires Inv(p, w)
    ensures var hw := Shown(p, w, now);
            && (forall c :: 0 <= c < CLASSES ==> hw[CLASSES + c] == U64(w.spent[c].Floor))
            && hw[TOTAL_ACT_ENERGY] == U64(C.SumFloors(w.spent, CLASSES))
            && hw[FAULT_STATUS] == w.kernel.flag
  {
    hide D.Conserved, H.Metered, E.Used, H.ReadMeter, C.SumFloors, U64;
    ReadKeepsMetered(p, w.time, w.meter, now);
    var r := H.ReadMeter(p, w.time, w.meter, now);
    EnergyLength(w.time, r);
    assert r.energy == w.spent;
    U64Small(w.kernel.flag);
  }

  lemma EnergyLength(t: C.Time, m: E.Meter)
    requires H.Metered(t, m)
    ensures |m.energy| == CLASSES
  {
  }

  lemma ReadInv(p: E.Model, w: Machine, now: nat)
    requires Inv(p, w)
    ensures Inv(p, Read(p, w, now))
  {
    hide D.Conserved, H.Metered, E.Used, H.ReadMeter, U64;
    ReadKeepsMetered(p, w.time, w.meter, now);
  }

  lemma OutInv(p: E.Model, w: Machine, now: nat)
    requires Inv(p, w) && w.kernel.running
    ensures Inv(p, Out(p, w, now)) && !Out(p, w, now).kernel.running
  {
    hide D.Conserved, H.Metered, E.Used, H.ReadMeter, U64, Shown, D.AddDelta;
    ReadKeepsMetered(p, w.time, w.meter, now);
    ShownEnergy(p, w, now);
    D.OutConserves(w.kernel, Shown(p, w, now));
  }

  lemma InInv(p: E.Model, w: Machine, q: nat, now: nat)
    requires Inv(p, w) && !w.kernel.running && q < |w.kernel.procs|
    ensures Inv(p, In(p, w, q, now))
  {
    hide D.Conserved, H.Metered, E.Used, H.ReadMeter, U64, Shown, D.AddDelta;
    ReadKeepsMetered(p, w.time, w.meter, now);
    ShownEnergy(p, w, now);
    D.InConserves(w.kernel, q, Shown(p, w, now));
  }

  lemma CpuInv(p: E.Model, w: Machine, e: C.Event)
    requires Inv(p, w) && Legal(p, w, Cpu(e))
    ensures Inv(p, Step(p, w, Cpu(e)))
  {
    hide D.Conserved, U64, E.Charge, C.SumFloors;
    var n := Step(p, w, Cpu(e));
    ActiveGrows(w.time, e);
    var act, act' := H.Act(w.time), H.Act(n.time);
    forall c | 0 <= c < CLASSES ensures E.Used(p, n.meter, act', c) == n.spent[c] {
      ChargeAdds(p, w.meter.params, c, E.Unsettled(w.meter, act, c), E.Unsettled(w.meter, act', c) - E.Unsettled(w.meter, act, c));
    }
  }

  lemma ChargeAdds(p: E.Model, params: seq<real>, c: nat, x: int, y: int)
    ensures E.Charge(p, params, c, x + y) == E.Charge(p, params, c, x) + E.Charge(p, params, c, y)
  {
    E.Distribute(x as real, y as real, p.act(params, c));
    assert (x + y) as real == x as real + y as real;
  }

  lemma ActiveGrows(t: C.Time, e: C.Event)
    requires t.Valid() && C.Legal(e)
    ensures forall c :: 0 <= c < CLASSES ==> t.active[c].Floor <= C.Step(t, e).active[c].Floor
  {
    if e.Execute? {
      assert e.cycles * e.period >= 0.0;
      C.FloorMonotone(t.active[e.class_], t.active[e.class_] + e.cycles * e.period);
    }
  }

  lemma ChangeInv(p: E.Model, w: Machine, k: nat, v: real)
    requires Inv(p, w) && w.meter.ckpt == H.Act(w.time)
    ensures Inv(p, w.(meter := E.SetParam(w.meter, k, v)))
  {
    hide D.Conserved, U64, C.SumFloors;
  }

  lemma ReadSettles(p: E.Model, w: Machine, now: nat)
    requires Inv(p, w)
    ensures Read(p, w, now).meter.ckpt == H.Act(w.time)
  {
    hide D.Conserved, U64, E.Used;
    H.SleepTimeFits(w.time, now);
    H.ReadMeterSettles(p, w.time, w.meter, now);
  }

  lemma KernelInv(p: E.Model, w: Machine, e: D.Event)
    requires Inv(p, w) && (e.WriteFaults? || e.Fork?) && D.Legal(w.kernel, e)
    ensures Inv(p, w.(kernel := D.Step(w.kernel, e)))
  {
    hide D.Conserved, U64, C.SumFloors, E.Used, H.Metered;
    D.StepConserves(w.kernel, e);
  }

  lemma StepInv(p: E.Model, w: Machine, e: Event)
    requires Inv(p, w) && Legal(p, w, e)
    ensures Inv(p, Step(p, w, e))
  {
    hide D.Conserved, U64, C.SumFloors, E.Used, H.Metered, Out, In, Read, D.Step, Growth;
    match e
    case Cpu(c) => CpuInv(p, w, c);
    case SwitchOut(now) => OutInv(p, w, now);
    case SwitchIn(q, now) => InInv(p, w, q, now);
    case ReadProc(now, again) =>
      OutInv(p, w, now);
      OutShaped(p, w, now);
      InInv(p, Out(p, w, now), w.kernel.current, again);
    case ReadDevice(now) => ReadInv(p, w, now);
    case WriteFaults(val) => KernelInv(p, w, D.WriteFaults(val));
    case Fork => KernelInv(p, w, D.Fork);
    case Change(k, v, now) =>
      ReadInv(p, w, now);
      ReadSettles(p, w, now);
      ReadIs(p, w, now);
      ChangeInv(p, Read(p, w, now), k, v);
    case Poke(k, v) => ChangeInv(p, w, k, v);
  }

  lemma ReadIs(p: E.Model, w: Machine, now: nat)
    requires Shaped(w)
    ensures Read(p, w, now) == w.(meter := H.ReadMeter(p, w.time, w.meter, now))
  {
  }

  ghost predicate LegalRun(p: E.Model, w: Machine, events: seq<Event>)
    decreases events
  {
    events == [] || (Shaped(w) && Legal(p, w, events[0]) && LegalRun(p, Step(p, w, events[0]), events[1..]))
  }

  ghost function Run(p: E.Model, w: Machine, events: seq<Event>): Machine
    requires LegalRun(p, w, events)
    decreases events
  {
    if events == [] then w else Run(p, Step(p, w, events[0]), events[1..])
  }

  lemma {:induction false} RunInv(p: E.Model, w: Machine, events: seq<Event>)
    requires Inv(p, w) && LegalRun(p, w, events)
    ensures Inv(p, Run(p, w, events))
    decreases events
  {
    hide Inv, Step, Legal, Shaped;
    if events != [] {
      StepInv(p, w, events[0]);
      RunInv(p, Step(p, w, events[0]), events[1..]);
    }
  }

  const ZEROS: seq<real> := [0.0, 0.0, 0.0, 0.0]

  /** Everything at zero, with `n` processes, the first of which runs. */
  function Init(params: seq<real>, start: nat, n: nat): Machine {
    Machine(C.Init(ZEROS, start), E.Meter([0, 0, 0, 0], ZEROS, 0, 0.0, params), D.Init(n, true), ZEROS, ZEROS)
  }

  lemma InitInv(p: E.Model, params: seq<real>, start: nat, n: nat)
    requires |params| >= 2 && start < TWO64 && n > 0
    ensures Inv(p, Init(params, start, n))
  {
    hide D.Conserved;
    D.CountersConserved(n, true, []);
    U64Small(0);
    assert C.SumFloors(ZEROS, CLASSES) == 0 by {
      assert C.SumFloors(ZEROS, 1) == 0 && C.SumFloors(ZEROS, 2) == 0 && C.SumFloors(ZEROS, 3) == 0;
    }
    forall i | 0 <= i < N_VARS ensures D.ZERO[i] == 0 { D.ZeroAt(i); }
  }

  // ---------------------------------------------------------------- what the events alone say

  /** The instructions, WFIs and wake-ups among the events. */
  function CpuEvents(events: seq<Event>): seq<C.Event>
    decreases events
  {
    if events == [] then []
    else
      var before, e := events[..|events| - 1], events[|events| - 1];
      CpuEvents(before) + if e.Cpu? then [e.e] else []
  }

  function ParamsAfter(params: seq<real>, e: Event): seq<real> {
    match e
    case Change(k, v, _) => E.Changed(params, k, v)
    case Poke(k, v) => E.Changed(params, k, v)
    case _ => params
  }

  /** The parameters of the power model after the events. */
  function ParamsBy(params: seq<real>, events: seq<Event>): seq<real>
    decreases events
  {
    if events == [] then params else ParamsAfter(ParamsBy(params, events[..|events| - 1]), events[|events| - 1])
  }

  /** The nanoseconds of a class, truncated: cycles times period over its instructions. */
  function Nanoseconds(events: seq<Event>, c: nat): int {
    C.Charged(CpuEvents(events), c).Floor
  }

  /** The integral of power over the active time of a class. */
  function SpentBy(p: E.Model, params: seq<real>, events: seq<Event>, c: nat): real
    decreases events
  {
    if events == [] then 0.0
    else
      var before := events[..|events| - 1];
      SpentBy(p, params, before, c) + EnergyOf(p, ParamsBy(params, before), c, Nanoseconds(events, c) - Nanoseconds(before, c))
  }

  /** Nanoseconds at the power of a class. */
  function EnergyOf(p: E.Model, params: seq<real>, c: nat, ns: int): real {
    ns as real * p.act(params, c)
  }

  predicate IsSwitch(e: Event) {
    e.SwitchOut? || e.SwitchIn? || e.ReadProc?
  }

  /** The same integral up to the latest switch. */
  function BilledBy(p: E.Model, params: seq<real>, events: seq<Event>, c: nat): real
    decreases events
  {
    if events == [] then 0.0
    else
      var before := events[..|events| - 1];
      if IsSwitch(events[|events| - 1]) then SpentBy(p, params, before, c) else BilledBy(p, params, before, c)
  }

  /** What one event does to the clock counters, the parameters and the observer's sums. */
  lemma StepTracks(p: E.Model, w: Machine, e: Event)
    requires Inv(p, w) && Legal(p, w, e)
    ensures var n := Step(p, w, e);
            && |n.spent| == |n.billed| == CLASSES
            && n.time == (if e.Cpu? then C.Step(w.time, e.e) else w.time)
            && n.meter.params == ParamsAfter(w.meter.params, e)
            && n.billed == (if IsSwitch(e) then w.spent else w.billed)
            && forall c :: 0 <= c < CLASSES ==> n.spent[c] == w.spent[c] + if e.Cpu? then Growth(p, w, e.e, c) else 0.0
  {
    hide D.Conserved, U64, E.Used, H.Metered, H.ReadMeter, C.Step, D.Out, D.In, D.Step, Growth, Shown, C.SumFloors;
    match e
    case SwitchOut(now) => ReadKeepsMetered(p, w.time, w.meter, now);
    case SwitchIn(_, now) => ReadKeepsMetered(p, w.time, w.meter, now);
    case ReadProc(now, again) =>
      ReadKeepsMetered(p, w.time, w.meter, now);
      OutShaped(p, w, now);
      ReadKeepsMetered(p, w.time, Out(p, w, now).meter, again);
    case ReadDevice(now) => ReadKeepsMetered(p, w.time, w.meter, now);
    case Change(_, _, now) => ReadKeepsMetered(p, w.time, w.meter, now);
    case _ =>
  }

  lemma {:induction false} RunLast(p: E.Model, w: Machine, events: seq<Event>)
    requires LegalRun(p, w, events) && events != []
    ensures var before := events[..|events| - 1];
            && LegalRun(p, w, before)
            && var m := Run(p, w, before);
            && Shaped(m) && Legal(p, m, events[|events| - 1])
            && Run(p, w, events) == Step(p, m, events[|events| - 1])
    decreases events
  {
    hide Step, Legal, Shaped;
    if |events| == 1 {
      assert events[1..] == [] && events[..0] == [];
    } else {
      RunLast(p, Step(p, w, events[0]), events[1..]);
      assert events[1..][..|events| - 2] == events[..|events| - 1][1..];
    }
  }

  /** The machine after a run is what the events say. */
  ghost predicate Tracked(p: E.Model, params: seq<real>, start: nat, events: seq<Event>, w: Machine) {
    && C.Init(ZEROS, start).Valid() && C.AllLegal(CpuEvents(events))
    && w.time == C.Run(C.Init(ZEROS, start), CpuEvents(events))
    && w.meter.params == ParamsBy(params, events)
    && |w.spent| == |w.billed| == CLASSES
    && forall c :: 0 <= c < CLASSES ==> w.spent[c] == SpentBy(p, params, events, c) && w.billed[c] == BilledBy(p, params, events, c)
  }

  lemma CpuLast(start: nat, cs: seq<C.Event>, e: C.Event)
    requires C.Init(ZEROS, start).Valid() && C.AllLegal(cs) && C.Legal(e)
    ensures C.AllLegal(cs + [e]) && C.Run(C.Init(ZEROS, start), cs + [e]) == C.Step(C.Run(C.Init(ZEROS, start), cs), e)
  {
    hide C.Step, C.Legal;
    C.RunLast(C.Init(ZEROS, start), C.Seen(0, 0), cs + [e]);
    assert (cs + [e])[..|cs|] == cs;
  }

  lemma ActiveIs(start: nat, events: seq<Event>, c: nat)
    requires C.Init(ZEROS, start).Valid() && C.AllLegal(CpuEvents(events)) && c < CLASSES
    ensures C.Run(C.Init(ZEROS, start), CpuEvents(events)).active[c].Floor == Nanoseconds(events, c)
  {
    C.RunCharges(C.Init(ZEROS, start), CpuEvents(events), c);
  }

  lemma GrowthIs(p: E.Model, w: Machine, e: C.Event, c: nat)
    requires Shaped(w) && C.Legal(e) && c < CLASSES
    ensures Growth(p, w, e, c) == EnergyOf(p, w.meter.params, c, C.Step(w.time, e).active[c].Floor - w.time.active[c].Floor)
  {
    hide C.Step, H.Metered;
  }

  lemma CpuSpends(p: E.Model, params: seq<real>, start: nat, events: seq<Event>, w: Machine, c: nat)
    requires events != [] && events[|events| - 1].Cpu? && Shaped(w) && C.Legal(events[|events| - 1].e) && c < CLASSES
    requires Tracked(p, params, start, events[..|events| - 1], w)
    ensures Growth(p, w, events[|events| - 1].e, c) ==
            EnergyOf(p, ParamsBy(params, events[..|events| - 1]), c, Nanoseconds(events, c) - Nanoseconds(events[..|events| - 1], c))
  {
    hide C.Step, C.Run, C.Init, C.AllLegal, C.Legal, Nanoseconds, H.Metered, Growth, EnergyOf, SpentBy, BilledBy,
      ParamsBy;
    var before, e := events[..|events| - 1], events[|events| - 1].e;
    GrowthIs(p, w, e, c);
    CpuLast(start, CpuEvents(before), e);
    ActiveIs(start, before, c);
    ActiveIs(start, events, c);
  }

  lemma SpentLast(p: E.Model, params: seq<real>, events: seq<Event>, c: nat)
    requires events != []
    ensures var before := events[..|events| - 1];
            && SpentBy(p, params, events, c) == SpentBy(p, params, before, c) +
                 (if events[|events| - 1].Cpu?
                  then EnergyOf(p, ParamsBy(params, before), c, Nanoseconds(events, c) - Nanoseconds(before, c)) else 0.0)
            && BilledBy(p, params, events, c) ==
                 if IsSwitch(events[|events| - 1]) then SpentBy(p, params, before, c) else BilledBy(p, params, before, c)
  {
    hide Nanoseconds;
    if !events[|events| - 1].Cpu? { SameNanoseconds(events, c); }
  }

  lemma CpuEventsLast(events: seq<Event>)
    requires events != []
    ensures var e := events[|events| - 1]; CpuEvents(events) == CpuEvents(events[..|events| - 1]) + if e.Cpu? then [e.e] else []
  {
  }

  lemma StepTracked(p: E.Model, params: seq<real>, start: nat, events: seq<Event>, w: Machine)
    requires events != [] && Inv(p, w) && Legal(p, w, events[|events| - 1])
    requires Tracked(p, params, start, events[..|events| - 1], w)
    ensures Tracked(p, params, start, events, Step(p, w, events[|events| - 1]))
  {
    var before, e := events[..|events| - 1], events[|events| - 1];
    assert Shaped(w);
    hide Inv, Step, Shaped, C.Step, C.Run, C.Init, C.AllLegal, C.Legal, Nanoseconds, Growth, SpentBy, BilledBy,
      EnergyOf, CpuEvents, IsSwitch, ParamsAfter;
    StepTracks(p, w, e);
    CpuEventsLast(events);
    forall c | 0 <= c < CLASSES
      ensures Step(p, w, e).spent[c] == SpentBy(p, params, events, c) && Step(p, w, e).billed[c] == BilledBy(p, params, events, c)
    {
      SpentLast(p, params, events, c);
      if e.Cpu? { CpuSpends(p, params, start, events, w, c); }
    }
    if e.Cpu? {
      CpuLast(start, CpuEvents(before), e.e);
    } else {
      assert CpuEvents(events) == CpuEvents(before);
    }
  }

  lemma SameNanoseconds(events: seq<Event>, c: nat)
    requires events != [] && !events[|events| - 1].Cpu?
    ensures Nanoseconds(events, c) == Nanoseconds(events[..|events| - 1], c)
  {
    assert CpuEvents(events) == CpuEvents(events[..|events| - 1]);
  }

  lemma {:induction false} RunTracked(p: E.Model, params: seq<real>, start: nat, n: nat, events: seq<Event>)
    requires |params| >= 2 && start < TWO64 && n > 0 && LegalRun(p, Init(params, start, n), events)
    ensures Tracked(p, params, start, events, Run(p, Init(params, start, n), events))
    decreases |events|
  {
    hide Inv, Step, Legal, Shaped;
    var w0 := Init(params, start, n);
    InitInv(p, params, start, n);
    if events != [] {
      var before := events[..|events| - 1];
      RunLast(p, w0, events);
      RunTracked(p, params, start, n, before);
      RunInv(p, w0, before);
      StepTracked(p, params, start, events, Run(p, w0, before));
    }
  }

  /** The four classes, each truncated. */
  function SumBilled(p: E.Model, params: seq<real>, events: seq<Event>): int {
    BilledBy(p, params, events, 0).Floor + BilledBy(p, params, events, 1).Floor
    + BilledBy(p, params, events, 2).Floor + BilledBy(p, params, events, 3).Floor
  }

  lemma SumFloorsFour(s: seq<real>)
    requires |s| == CLASSES
    ensures C.SumFloors(s, CLASSES) == s[0].Floor + s[1].Floor + s[2].Floor + s[3].Floor
  {
    assert C.SumFloors(s, 1) == s[0].Floor;
    assert C.SumFloors(s, 2) == s[0].Floor + s[1].Floor;
    assert C.SumFloors(s, 3) == s[0].Floor + s[1].Floor + s[2].Floor;
  }

  /** The energy of all processes and of the system is, class by class and in total, the integral of power over the
      cycles times period of the instructions up to the latest switch, truncated: nothing is lost or counted twice
      between the instruction and the process it is billed to. */
  lemma EnergyBilled(p: E.Model, params: seq<real>, start: nat, n: nat, events: seq<Event>)
    requires |params| >= 2 && start < TWO64 && n > 0 && LegalRun(p, Init(params, start, n), events)
    ensures var k := Run(p, Init(params, start, n), events).kernel;
            && |k.sys| == N_VARS
            && (forall c :: 0 <= c < CLASSES ==>
                  Congruent(k.sys[CLASSES + c] + D.Total(k.procs, CLASSES + c), BilledBy(p, params, events, c).Floor))
            && Congruent(k.sys[TOTAL_ACT_ENERGY] + D.Total(k.procs, TOTAL_ACT_ENERGY), SumBilled(p, params, events))
  {
    hide Congruent, Run, LegalRun, U64, E.Used, C.SumFloors, H.Metered, BilledBy, C.Run;
    InitInv(p, params, start, n);
    RunInv(p, Init(params, start, n), events);
    RunTracked(p, params, start, n, events);
    var w := Run(p, Init(params, start, n), events);
    SumFloorsFour(w.billed);
    forall c | 0 <= c < CLASSES
      ensures Congruent(w.kernel.sys[CLASSES + c] + D.Total(w.kernel.procs, CLASSES + c), BilledBy(p, params, events, c).Floor)
    {
      CongruentTrans(w.kernel.sys[CLASSES + c] + D.Total(w.kernel.procs, CLASSES + c), w.kernel.Latest()[CLASSES + c], w.billed[c].Floor);
    }
    CongruentTrans(w.kernel.sys[TOTAL_ACT_ENERGY] + D.Total(w.kernel.procs, TOTAL_ACT_ENERGY),
                   w.kernel.Latest()[TOTAL_ACT_ENERGY], C.SumFloors(w.billed, CLASSES));
  }
}
