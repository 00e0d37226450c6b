/** The accounting device: a READ_CMD write takes a snapshot of every counter into the registers that the
    guest then reads. */
module HwModule {
  import opened Words
  import opened Registers
  import opened Cycles
  import opened Energy

  const SET_FAULTS := 0x000
  const SET_FREQUENCY := 0x008
  const SET_VOLTAGE := 0x010
  const READ_CMD := 0xD00

  /** The truncated active time of each class. */
  function Act(t: Time): (a: seq<nat>)
    requires t.Valid()
    ensures |a| == CLASSES
  {
    seq(CLASSES, i requires 0 <= i < CLASSES => t.active[i].Floor)
  }

  predicate Metered(t: Time, m: Meter) {
    t.Valid() && State(m, Act(t)).Valid() && |m.params| >= 2
  }

  /** The meter after a snapshot. */
  function ReadMeter(p: Model, t: Time, m: Meter, now: nat): Meter
    requires Metered(t, m)
  {
    SettleSleep(p, SettleTo(p, m, Act(t), CLASSES), SleepTime(t, now))
  }

  function SumInts(s: seq<int>): int {
    if s == [] then 0 else SumInts(s[..|s| - 1]) + s[|s| - 1]
  }

  /** The registers of the first classes. */
  ghost predicate ClassRegisters(p: Model, t: Time, m: Meter, regs: seq<int>, n: nat)
    requires Metered(t, m) && n <= CLASSES
  {
    |regs| == N_VARS && forall i :: 0 <= i < n ==>
      && regs[i] == Act(t)[i]
      && regs[CLASSES + i] == Used(p, m, Act(t), i).Floor
      && regs[2 * CLASSES + i] == t.cycles[i].Floor
  }

  /** The other registers, once everything has been settled. */
  function TotalRegisters(t: Time, m: Meter, faults: nat, now: nat): (s: seq<int>)
    requires Metered(t, m)
    ensures |s| == N_VARS - TOTAL_ACT_TIME
  {
    [t.Active(), SumFloors(m.energy, CLASSES), SumFloors(t.cycles, CLASSES), SleepTime(t, now), m.slpEnergy.Floor,
     faults, m.params[0].Floor, (m.params[1] * 1000.0).Floor]
  }

  /** What the registers of a snapshot mean: each class's energy is all it has used so far, and the totals
      of energy and cycles are the sums of the classes' registers. The total active time is not: it is
      truncated once. */
  ghost predicate Snapshot(p: Model, t: Time, m: Meter, faults: nat, now: nat, regs: seq<int>)
    requires Metered(t, m)
  {
    && ClassRegisters(p, t, m, regs, CLASSES)
    && regs[TOTAL_ACT_TIME] == t.Active()
    && SumInts(regs[..CLASSES]) <= regs[TOTAL_ACT_TIME] < SumInts(regs[..CLASSES]) + CLASSES
    && regs[TOTAL_ACT_ENERGY] == SumInts(regs[CLASSES..2 * CLASSES])
    && regs[TOTAL_CYCLES] == SumInts(regs[2 * CLASSES..3 * CLASSES])
    && regs[SLP_TIME] == SleepTime(t, now)
    && regs[SLP_ENERGY] == ReadMeter(p, t, m, now).slpEnergy.Floor
    && regs[FAULT_STATUS] == faults
    && regs[FREQUENCY] == m.params[0].Floor
    && regs[VOLTAGE] == (m.params[1] * 1000.0).Floor
  }

  lemma ReadMeterSettles(p: Model, t: Time, m: Meter, now: nat)
    requires Metered(t, m) && SleepTime(t, now) < TWO63
    ensures var r := ReadMeter(p, t, m, now);
            && Metered(t, r) && r.params == m.params && r.ckpt == Act(t)
            && forall c :: 0 <= c < CLASSES ==> Used(p, r, Act(t), c) == Used(p, m, Act(t), c) == r.energy[c]
  {
    SettleToAll(p, m, Act(t), CLASSES);
  }

  lemma SleepTimeFits(t: Time, now: nat)
    requires t.Valid()
    ensures SleepTime(t, now) < TWO63
  {
  }

  /** A second snapshot at the same moment shows the same: reading costs nothing. */
  lemma ReadIdempotent(p: Model, t: Time, m: Meter, faults: nat, now: nat, regs: seq<int>)
    requires Metered(t, m) && Snapshot(p, t, m, faults, now, regs)
    ensures Metered(t, ReadMeter(p, t, m, now))
    ensures ReadMeter(p, t, ReadMeter(p, t, m, now), now) == ReadMeter(p, t, m, now)
    ensures Snapshot(p, t, ReadMeter(p, t, m, now), faults, now, regs)
  {
    SleepTimeFits(t, now);
    ReadMeterSettles(p, t, m, now);
    var r := ReadMeter(p, t, m, now);
    SettledStays(p, r, Act(t), CLASSES);
    var q := SettleTo(p, m, Act(t), CLASSES);
    SettleToAll(p, m, Act(t), CLASSES);
    SleepSettledStays(p, q, SleepTime(t, now));
  }

  lemma {:induction false} SettledStays(p: Model, m: Meter, act: seq<nat>, n: nat)
    requires State(m, act).Valid() && m.ckpt == act && n <= CLASSES
    ensures SettleTo(p, m, act, n) == m
  {
    if n > 0 {
      SettledStays(p, m, act, n - 1);
      U64Small(0);
      var c := n - 1;
      var settled := m.energy[c] + Charge(p, m.params, c, U64(Unsettled(m, act, c)));
      assert Unsettled(m, act, c) == 0;
      NoCharge(p, m.params, c);
      assert settled == m.energy[c];
      assert m.ckpt[c := act[c]] == m.ckpt && m.energy[c := settled] == m.energy;
    }
  }

  lemma NoCharge(p: Model, params: seq<real>, c: nat)
    ensures Charge(p, params, c, 0) == 0.0 && SleepCharge(p, params, 0) == 0.0
  {
  }

  lemma SleepSettledStays(p: Model, m: Meter, slp: nat)
    requires m.slpCkpt < TWO63 && slp < TWO63
    ensures SettleSleep(p, SettleSleep(p, m, slp), slp) == SettleSleep(p, m, slp)
  {
    var now: int := slp;
    S64Small(now - m.slpCkpt);
    S64Small(0);
    NoCharge(p, m.params, 0);
  }

  // ---------------------------------------------------------------- in place

  class Device {
    const p: Model
    const counters: Counters
    const actTimeCkpt: array<nat>
    const actEnergy: array<real>
    var slpTimeCkpt: nat
    var slpEnergy: real
    var params: seq<real>
    var lastState: seq<int>
    var errorsEnabled: nat

    ghost function Repr(): set<object> {
      {this, actTimeCkpt, actEnergy}
    }

    ghost function Parts(): set<object> {
      {this, actTimeCkpt, actEnergy, counters, counters.cycleCount, counters.activeTime}
    }

    ghost function MeterOf(): Meter
      reads Repr()
    {
      Meter(actTimeCkpt[..], actEnergy[..], slpTimeCkpt, slpEnergy, params)
    }

    ghost predicate Valid()
      reads Parts()
    {
      && counters.Valid() && Metered(counters.State(), MeterOf()) && |lastState| == N_VARS
      && actEnergy != counters.cycleCount && actEnergy != counters.activeTime
    }

    constructor (p: Model, now: nat, params: seq<real>)
      requires now < TWO64 && |params| >= 2
      ensures Valid() && fresh(Parts()) && this.p == p && counters.State() == Init(NONE, now)
      ensures MeterOf() == Meter([0, 0, 0, 0], NONE, 0, 0.0, params) && errorsEnabled == 0
    {
      this.p, this.params := p, params;
      counters := new Counters(now);
      actTimeCkpt := new nat[CLASSES](_ => 0);
      actEnergy := new real[CLASSES](_ => 0.0);
      slpTimeCkpt, slpEnergy, errorsEnabled := 0, 0.0, 0;
      lastState := seq(N_VARS, _ => 0);
      new;
      assert actTimeCkpt[..] == [0, 0, 0, 0] && actEnergy[..] == NONE;
    }

    /** vemu_get_act_energy. */
    method GetActEnergy(c: nat) returns (e: int)
      requires Valid() && c < CLASSES
      modifies actTimeCkpt, actEnergy
      ensures Valid() && MeterOf() == Settle(p, old(MeterOf()), Act(counters.State()), c)
      ensures e == actEnergy[c].Floor && forall d :: 0 <= d < CLASSES && d != c ==> actEnergy[d] == old(actEnergy[d])
    {
      hide Charge;
      ghost var m, act := MeterOf(), Act(counters.State());
      SettleToOne(p, m, act, c);
      var curr := counters.activeTime[c].Floor;
      var interval := U64(curr - actTimeCkpt[c]);
      var energy := Charge(p, params, c, interval);
      actTimeCkpt[c] := curr;
      actEnergy[c] := actEnergy[c] + energy;
      assert Act(counters.State()) == act;
      assert interval == U64(Unsettled(m, act, c));
      assert actTimeCkpt[..] == m.ckpt[c := act[c]];
      assert actEnergy[..] == m.energy[c := m.energy[c] + energy];
      e := actEnergy[c].Floor;
    }

    /** vemu_get_act_energy_all_classes. */
    method GetActEnergyAll() returns (sum: int)
      requires Valid()
      modifies actTimeCkpt, actEnergy
      ensures Valid() && MeterOf() == SettleTo(p, old(MeterOf()), Act(counters.State()), CLASSES)
      ensures sum == SumFloors(actEnergy[..], CLASSES)
    {
      hide Settle;
      sum := 0;
      ghost var m, t := MeterOf(), counters.State();
      for i := 0 to CLASSES
        invariant Valid() && counters.State() == t && MeterOf() == SettleTo(p, m, Act(t), i)
        invariant sum == SumFloors(actEnergy[..], i)
      {
        ghost var before := actEnergy[..];
        var e := GetActEnergy(i);
        SumFloorsAgree(before, actEnergy[..], i);
        sum := sum + e;
      }
    }

    /** vemu_get_slp_energy. */
    method GetSlpEnergy(now: nat) returns (e: int)
      requires Valid()
      modifies this`slpTimeCkpt, this`slpEnergy
      ensures Valid() && MeterOf() == SettleSleep(p, old(MeterOf()), SleepTime(counters.State(), now))
      ensures e == slpEnergy.Floor
    {
      hide SleepCharge;
      SleepTimeFits(counters.State(), now);
      var curr: int := counters.SlpTime(now);
      var interval := S64(curr - slpTimeCkpt);
      var energy := SleepCharge(p, params, interval);
      if interval < 0 {
        return slpEnergy.Floor;
      }
      slpTimeCkpt := curr;
      slpEnergy := slpEnergy + energy;
      return slpEnergy.Floor;
    }

    /** vemu_pm_change_parameter. */
    method ChangeParameter(k: nat, v: real)
      requires Valid()
      modifies this`params
      ensures Valid() && MeterOf() == SetParam(old(MeterOf()), k, v)
    {
      if k < |params| {
        params := params[k := v];
      }
    }

    /** vemu_energy_change_parameter. */
    method EnergyChangeParameter(k: nat, v: real, now: nat)
      requires Valid()
      modifies Repr()
      ensures Valid() && lastState == old(lastState) && errorsEnabled == old(errorsEnabled)
      ensures MeterOf() == StepMeter(p, old(MeterOf()), Act(counters.State()), Change(k, v, SleepTime(counters.State(), now)))
    {
      SleepTimeFits(counters.State(), now);
      var _ := GetActEnergyAll();
      var _ := GetSlpEnergy(now);
      ChangeParameter(k, v);
    }

    /** The part of READ_CMD that goes through the classes. */
    method ReadClasses()
      requires Valid()
      modifies actTimeCkpt, actEnergy, this`lastState
      ensures Valid() && MeterOf() == SettleTo(p, old(MeterOf()), Act(counters.State()), CLASSES)
      ensures ClassRegisters(p, counters.State(), old(MeterOf()), lastState, CLASSES)
    {
      hide Settle, Used;
      ghost var m, t := MeterOf(), counters.State();
      for i := 0 to CLASSES
        invariant Valid() && counters.State() == t && MeterOf() == SettleTo(p, m, Act(t), i)
        invariant ClassRegisters(p, t, m, lastState, i)
      {
        var e := GetActEnergy(i);
        SettledNext(p, m, Act(t), i);
        lastState := lastState[i := counters.activeTime[i].Floor];
        lastState := lastState[CLASSES + i := e];
        lastState := lastState[2 * CLASSES + i := counters.cycleCount[i].Floor];
      }
    }

    /** The part of READ_CMD that asks for totals; the classes have been settled. */
    method ReadTotals(now: nat) returns (totals: seq<int>)
      requires Valid() && actTimeCkpt[..] == Act(counters.State())
      modifies Repr()
      ensures Valid() && lastState == old(lastState) && errorsEnabled == old(errorsEnabled)
      ensures MeterOf() == SettleSleep(p, old(MeterOf()), SleepTime(counters.State(), now))
      ensures totals == TotalRegisters(counters.State(), MeterOf(), errorsEnabled, now)
    {
      hide Settle, SettleTo, SettleSleep;
      SettledStays(p, MeterOf(), Act(counters.State()), CLASSES);
      var actTime := counters.ActTimeAllClasses();
      var energy := GetActEnergyAll();
      var cycles := counters.CyclesAllClasses();
      var slpTime := counters.SlpTime(now);
      var slpEnergy := GetSlpEnergy(now);
      totals := [actTime, energy, cycles, slpTime, slpEnergy, errorsEnabled, params[0].Floor, (params[1] * 1000.0).Floor];
    }

    /** READ_CMD. */
    method ReadCmd(now: nat)
      requires Valid()
      modifies Repr()
      ensures Valid() && errorsEnabled == old(errorsEnabled)
      ensures MeterOf() == ReadMeter(p, counters.State(), old(MeterOf()), now)
      ensures Snapshot(p, counters.State(), old(MeterOf()), errorsEnabled, now, lastState)
    {
      hide Settle, SettleTo, SettleSleep, Snapshot, TotalRegisters, Used, ClassRegisters;
      ghost var m, t := MeterOf(), counters.State();
      SettleToAll(p, m, Act(t), CLASSES);
      ReadClasses();
      assert actTimeCkpt[..] == Act(t);
      var totals := ReadTotals(now);
      ghost var classes := lastState;
      lastState := lastState[..TOTAL_ACT_TIME] + totals;
      Assembled(p, t, m, errorsEnabled, now, classes, lastState);
    }

    /** vemu_mod_write. A change of frequency or voltage is not preceded by settling. */
    method ModWrite(offset: nat, val: nat, now: nat)
      requires Valid()
      modifies Repr()
      ensures Valid()
      ensures offset == 0xd00 ==>
                && Snapshot(p, counters.State(), old(MeterOf()), errorsEnabled, now, lastState)
                && MeterOf() == ReadMeter(p, counters.State(), old(MeterOf()), now)
      ensures offset == 0x008 ==> MeterOf() == StepMeter(p, old(MeterOf()), Act(counters.State()), Poke(0, val as real))
      ensures offset == 0x010 ==> MeterOf() == StepMeter(p, old(MeterOf()), Act(counters.State()), Poke(1, val as real / 1000.0))
      ensures offset !in {0xd00, 0x008, 0x010} ==> MeterOf() == old(MeterOf())
      ensures offset != 0xd00 ==> lastState == old(lastState)
      ensures errorsEnabled == if offset == 0x000 then val else old(errorsEnabled)
    {
      if offset == SET_FAULTS {
        errorsEnabled := val;
      } else if offset == SET_FREQUENCY {
        ChangeParameter(0, val as real);
      } else if offset == SET_VOLTAGE {
        ChangeParameter(1, val as real / 1000.0);
      } else if offset == READ_CMD {
        ReadCmd(now);
      }
    }
  }

  lemma {:induction false} SumIntsOfFloors(s: seq<int>, r: seq<real>)
    requires |s| <= |r| && forall i :: 0 <= i < |s| ==> s[i] == r[i].Floor
    ensures SumInts(s) == SumFloors(r, |s|)
  {
    if s != [] { SumIntsOfFloors(s[..|s| - 1], r); }
  }

  lemma Assembled(p: Model, t: Time, m: Meter, faults: nat, now: nat, classes: seq<int>, regs: seq<int>)
    requires Metered(t, m) && Metered(t, ReadMeter(p, t, m, now)) && ClassRegisters(p, t, m, classes, CLASSES)
    requires regs == classes[..TOTAL_ACT_TIME] + TotalRegisters(t, ReadMeter(p, t, m, now), faults, now)
    ensures Snapshot(p, t, m, faults, now, regs)
  {
    hide Used, SettleSleep, SettleTo, SleepTime;
    var r := ReadMeter(p, t, m, now);
    SleepTimeFits(t, now);
    ReadMeterSettles(p, t, m, now);
    hide ReadMeter;
    assert ClassRegisters(p, t, m, regs, CLASSES);
    SumIntsOfFloors(regs[..CLASSES], t.active);
    SumIntsOfFloors(regs[CLASSES..2 * CLASSES], r.energy);
    SumIntsOfFloors(regs[2 * CLASSES..3 * CLASSES], t.cycles);
    TotalBeyondSum(t.active, CLASSES);
  }

  /** One more class settled: its energy is what it has used. */
  lemma SettledNext(p: Model, m: Meter, act: seq<nat>, c: nat)
    requires State(m, act).Valid() && c < CLASSES
    ensures SettleTo(p, m, act, c + 1).energy[c] == Used(p, m, act, c)
  {
    SettleToAll(p, m, act, c + 1);
  }

  lemma SettleToOne(p: Model, m: Meter, act: seq<nat>, c: nat)
    requires State(m, act).Valid() && c < CLASSES
    ensures State(Settle(p, m, act, c), act).Valid()
  {
  }

  lemma {:induction false} SumFloorsAgree(s: seq<real>, r: seq<real>, n: nat)
    requires n <= |s| == |r| && forall i :: 0 <= i < n ==> s[i] == r[i]
    ensures SumFloors(s, n) == SumFloors(r, n)
  {
    if n > 0 { SumFloorsAgree(s, r, n - 1); }
  }
}
