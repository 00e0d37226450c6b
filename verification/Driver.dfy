/** The guest kernel's driver: at each context switch the growth of the device's counters goes to the process
    that ran, or to the system in between, and each process keeps its own fault flag. */
module Driver {
  import opened Words
  import opened Registers

  const TWO32 := 0x1_0000_0000

  type Vars = s: seq<nat> | |s| == N_VARS witness ZERO
  const ZERO: seq<nat> := [0, 0, 0, 0, 0, 0, 0, 0, 0, 0, 0, 0, 0, 0, 0, 0, 0, 0, 0, 0]

  /** The driver's snapshots and shares, the processes' shares, which process runs (or ran last), and the
      device's fault flag. `mapped` says that the device has been found. */
  datatype Kernel = Kernel(pin: Vars, pout: Vars, sys: Vars, procs: seq<Vars>, current: nat, running: bool, flag: nat, mapped: bool) {
    predicate Valid() {
      current < |procs|
    }

    /** The latest snapshot taken at a switch. */
    function Latest(): Vars {
      if running then pin else pout
    }
  }

  /** vemu_read_state into `target`, when the device shows `hw`. */
  function ReadState(mapped: bool, target: Vars, hw: Vars): Vars {
    if mapped then hw else target
  }

  /** vemu_reg_write: only the low half is written. */
  function FlagWrite(mapped: bool, flag: nat, val: nat): nat {
    if mapped then val % TWO32 else flag
  }

  /** vemu_add_delta: as counters, and modulo 2^64. */
  function AddDelta(target: Vars, new_: Vars, old_: Vars): Vars {
    seq(N_VARS, i requires 0 <= i < N_VARS => if i < N_COUNTERS then Grow(target[i], new_[i], old_[i]) else target[i])
  }

  function Grow(x: nat, new_: int, old_: int): nat {
    U64(x + (new_ - old_))
  }

  /** vemu_process_out. */
  function Out(k: Kernel, hw: Vars): (r: Kernel)
    requires k.Valid()
    ensures r.Valid()
  {
    var pout := ReadState(k.mapped, k.pout, hw);
    var share: Vars := AddDelta(k.procs[k.current], pout, k.pin);
    var kept := share[FAULT_STATUS := pout[FAULT_STATUS]][FREQUENCY := pout[FREQUENCY]][VOLTAGE := pout[VOLTAGE]];
    k.(pout := pout, procs := k.procs[k.current := kept], running := false)
  }

  /** vemu_process_in, for process `p`. */
  function In(k: Kernel, p: nat, hw: Vars): (r: Kernel)
    requires p < |k.procs|
    ensures r.Valid()
  {
    var pin := ReadState(k.mapped, k.pin, hw);
    k.(pin := pin, sys := AddDelta(k.sys, pin, k.pout), flag := FlagWrite(k.mapped, k.flag, k.procs[p][FAULT_STATUS]), current := p, running := true)
  }

  datatype Event =
    | SwitchOut(hw: Vars)
    | SwitchIn(p: nat, hw: Vars)
    | ReadProc(hw: Vars, again: Vars)     // READ_PROC: out and in again
    | ReadOther                           // READ_SYS and READ_HW
    | WriteFaults(val: nat)               // a write to SET_FAULT_STATUS by the process
    | Fork

  /** Switches alternate, and what the device shows of the flag is the flag. */
  predicate Legal(k: Kernel, e: Event)
    requires k.Valid()
  {
    match e
    case SwitchOut(hw) => k.running && hw[FAULT_STATUS] == k.flag
    case SwitchIn(p, hw) => !k.running && p < |k.procs|
    case ReadProc(hw, _) => k.running && hw[FAULT_STATUS] == k.flag
    case ReadOther => true
    case WriteFaults(_) => k.running
    case Fork => true
  }

  function Step(k: Kernel, e: Event): (r: Kernel)
    requires k.Valid() && Legal(k, e)
    ensures r.Valid()
  {
    match e
    case SwitchOut(hw) => Out(k, hw)
    case SwitchIn(p, hw) => In(k, p, hw)
    case ReadProc(hw, again) => In(Out(k, hw), k.current, again)
    case ReadOther => k
    case WriteFaults(val) => k.(flag := FlagWrite(k.mapped, k.flag, val))
    case Fork => k.(procs := k.procs + [ZERO])
  }

  /** As variability_init leaves things, with zeroed processes, the first of which runs. */
  function Init(n: nat, mapped: bool): Kernel {
    Kernel(ZERO, ZERO, ZERO, seq(n, _ => ZERO), 0, true, 0, mapped)
  }

  // ---------------------------------------------------------------- conservation

  function Total(procs: seq<Vars>, i: nat): int
    requires i < N_VARS
  {
    if procs == [] then 0 else Total(procs[..|procs| - 1], i) + procs[|procs| - 1][i]
  }

  /** System share and process shares add up to the latest snapshot, modulo 2^64. */
  ghost predicate Conserved(k: Kernel) {
    forall i :: 0 <= i < N_COUNTERS ==> Congruent(k.sys[i] + Total(k.procs, i), k.Latest()[i])
  }

  lemma {:induction false} TotalUpdate(procs: seq<Vars>, p: nat, v: Vars, i: nat)
    requires p < |procs| && i < N_VARS
    ensures Total(procs[p := v], i) == Total(procs, i) - procs[p][i] + v[i]
  {
    var n := |procs| - 1;
    if p < n {
      assert procs[p := v][..n] == procs[..n][p := v];
      TotalUpdate(procs[..n], p, v, i);
    } else {
      assert procs[p := v][..n] == procs[..n];
    }
  }

  lemma OutConserves(k: Kernel, hw: Vars)
    requires k.Valid() && k.running && Conserved(k)
    ensures Conserved(Out(k, hw))
  {
    var r := Out(k, hw);
    forall i | 0 <= i < N_COUNTERS ensures Congruent(r.sys[i] + Total(r.procs, i), r.pout[i]) {
      OutShare(k, hw, i);
      TotalUpdate(k.procs, k.current, r.procs[k.current], i);
      var x: int, y: int := k.procs[k.current][i], r.procs[k.current][i];
      var total: int := k.sys[i] + Total(k.procs, i);
      hide Congruent;
      CongruentSum(total, k.pin[i], y - x, Delta(r.pout, k.pin, i));
    }
  }

  function Delta(new_: Vars, old_: Vars, i: nat): int
    requires i < N_VARS
  {
    var n: int, o: int := new_[i], old_[i];
    n - o
  }

  /** The share of the process that ran grows by what the counters grew while it did. */
  lemma OutShare(k: Kernel, hw: Vars, i: nat)
    requires k.Valid() && i < N_COUNTERS
    ensures var r := Out(k, hw);
            var x: int, y: int := k.procs[k.current][i], r.procs[k.current][i];
            Congruent(y - x, Delta(r.pout, k.pin, i))
  {
    var r := Out(k, hw);
    var x: int, y: int := k.procs[k.current][i], r.procs[k.current][i];
    assert y == Grow(k.procs[k.current][i], r.pout[i], k.pin[i]);
    CongruentRefl(x);
    CongruentSub(y, x + Delta(r.pout, k.pin, i), x, x);
  }

  lemma InConserves(k: Kernel, p: nat, hw: Vars)
    requires p < |k.procs| && !k.running && Conserved(k)
    ensures Conserved(In(k, p, hw))
  {
    var r := In(k, p, hw);
    forall i | 0 <= i < N_COUNTERS ensures Congruent(r.sys[i] + Total(r.procs, i), r.pin[i]) {
      var x: int, y: int, t: int := k.sys[i], r.sys[i], Total(k.procs, i);
      assert y == Grow(k.sys[i], r.pin[i], k.pout[i]);
      hide Congruent;
      CongruentPlus(t, y, x + Delta(r.pin, k.pout, i));
      CongruentPlus(Delta(r.pin, k.pout, i), x + t, k.pout[i]);
      CongruentTrans(t + y, t + (x + Delta(r.pin, k.pout, i)), r.pin[i]);
    }
  }

  lemma StepConserves(k: Kernel, e: Event)
    requires k.Valid() && Legal(k, e) && Conserved(k)
    ensures Conserved(Step(k, e))
  {
    hide Conserved, Out, In;
    match e
    case SwitchOut(hw) => OutConserves(k, hw);
    case SwitchIn(p, hw) => InConserves(k, p, hw);
    case ReadProc(hw, again) =>
      OutConserves(k, hw);
      OutStops(k, hw);
      InConserves(Out(k, hw), k.current, again);
    case ReadOther =>
    case WriteFaults(_) => FlagAside(k, FlagWrite(k.mapped, k.flag, e.val));
    case Fork => ForkConserves(k);
  }

  lemma OutStops(k: Kernel, hw: Vars)
    requires k.Valid()
    ensures !Out(k, hw).running && |Out(k, hw).procs| == |k.procs|
  {
  }

  lemma FlagAside(k: Kernel, flag: nat)
    requires Conserved(k)
    ensures Conserved(k.(flag := flag))
  {
  }

  lemma ForkConserves(k: Kernel)
    requires Conserved(k)
    ensures Conserved(k.(procs := k.procs + [ZERO]))
  {
    hide Congruent;
    var procs := k.procs + [ZERO];
    assert procs[..|procs| - 1] == k.procs;
    forall i | 0 <= i < N_COUNTERS ensures Total(procs, i) == Total(k.procs, i) {
      assert ZERO[i] == 0;
    }
  }

  /** Switches must alternate: a second out in a row keeps the books straight only if the counters stood
      still while the process last ran. */
  lemma OutAgainExact(k: Kernel, hw: Vars, i: nat)
    requires k.Valid() && !k.running && Conserved(k) && i < N_COUNTERS
    ensures var r := Out(k, hw);
            Congruent(r.sys[i] + Total(r.procs, i), r.pout[i]) <==> Congruent(k.pout[i], k.pin[i])
  {
    var r := Out(k, hw);
    OutShare(k, hw, i);
    TotalUpdate(k.procs, k.current, r.procs[k.current], i);
    var x: int, y: int := k.procs[k.current][i], r.procs[k.current][i];
    var total: int, was: int, pin: int, pout: int := k.sys[i] + Total(k.procs, i), k.pout[i], k.pin[i], r.pout[i];
    CongruentSum(total, was, y - x, pout - pin);
    assert Congruent(total + (y - x), was + (pout - pin));
    assert Congruent(was + (pout - pin), pout) <==> Congruent(was, pin);
    CongruentReplace(total + (y - x), was + (pout - pin), pout);
  }

  lemma CongruentReplace(x: int, y: int, z: int)
    requires Congruent(x, y)
    ensures Congruent(x, z) <==> Congruent(y, z)
  {
  }

  // ---------------------------------------------------------------- runs

  predicate LegalRun(k: Kernel, events: seq<Event>)
    requires k.Valid()
    decreases events
  {
    events == [] || (Legal(k, events[0]) && LegalRun(Step(k, events[0]), events[1..]))
  }

  function Run(k: Kernel, events: seq<Event>): (r: Kernel)
    requires k.Valid() && LegalRun(k, events)
    ensures r.Valid()
    decreases events
  {
    if events == [] then k else Run(Step(k, events[0]), events[1..])
  }

  lemma {:induction false} RunConserves(k: Kernel, events: seq<Event>)
    requires k.Valid() && LegalRun(k, events) && Conserved(k)
    ensures Conserved(Run(k, events))
    decreases events
  {
    hide Step, Legal, Conserved;
    if events != [] {
      StepConserves(k, events[0]);
      RunConserves(Step(k, events[0]), events[1..]);
    }
  }

  lemma {:induction false} TotalZero(n: nat, i: nat)
    requires i < N_VARS
    ensures Total(seq(n, _ => ZERO), i) == 0
  {
    if n > 0 {
      assert seq(n, _ => ZERO)[..n - 1] == seq(n - 1, _ => ZERO);
      TotalZero(n - 1, i);
      ZeroAt(i);
    }
  }

  lemma ZeroAt(i: nat)
    requires i < N_VARS
    ensures ZERO[i] == 0
  {
  }

  /** Conservation: in every run of context switches and reads over any number of processes, for every
      counter, the system's share and all the processes' shares add up to the latest snapshot. */
  lemma CountersConserved(n: nat, mapped: bool, events: seq<Event>)
    requires n > 0 && LegalRun(Init(n, mapped), events)
    ensures Conserved(Run(Init(n, mapped), events))
  {
    var k := Init(n, mapped);
    forall i | 0 <= i < N_COUNTERS ensures Congruent(k.sys[i] + Total(k.procs, i), k.Latest()[i]) {
      TotalZero(n, i);
      ZeroAt(i);
    }
    RunConserves(k, events);
  }

  // ---------------------------------------------------------------- one process

  function Share(k: Kernel, p: nat, i: nat): int
    requires i < N_VARS
  {
    if p < |k.procs| then k.procs[p][i] else 0
  }

  /** What the counters grew in a step while process `p` ran, up to the snapshot that ends it. */
  function Grown(k: Kernel, e: Event, p: nat, i: nat): int
    requires k.Valid() && i < N_VARS
  {
    if (e.SwitchOut? || e.ReadProc?) && k.current == p then Delta(ReadState(k.mapped, k.pout, e.hw), k.pin, i) else 0
  }

  function GrownInRun(k: Kernel, events: seq<Event>, p: nat, i: nat): int
    requires k.Valid() && LegalRun(k, events) && i < N_VARS
    decreases events
  {
    if events == [] then 0 else Grown(k, events[0], p, i) + GrownInRun(Step(k, events[0]), events[1..], p, i)
  }

  lemma StepShare(k: Kernel, e: Event, p: nat, i: nat)
    requires k.Valid() && Legal(k, e) && i < N_COUNTERS
    ensures Congruent(Share(Step(k, e), p, i), Share(k, p, i) + Grown(k, e, p, i))
  {
    hide Congruent;
    CongruentRefl(Share(k, p, i));
    ZeroAt(i);
    if e.SwitchOut? || e.ReadProc? {
      OutShare(k, e.hw, i);
      if k.current == p {
        var y := Share(Out(k, e.hw), p, i);
        CongruentSum(Share(k, p, i), Share(k, p, i), y - Share(k, p, i), Grown(k, e, p, i));
      }
    }
  }

  /** A process's share is the growth of the counters over the intervals in which it ran. */
  lemma {:induction false} ShareIsGrowth(k: Kernel, events: seq<Event>, p: nat, i: nat)
    requires k.Valid() && LegalRun(k, events) && i < N_COUNTERS
    ensures Congruent(Share(Run(k, events), p, i), Share(k, p, i) + GrownInRun(k, events, p, i))
    decreases events
  {
    hide Step, Legal, Share, Congruent, Grown;
    if events == [] {
      CongruentRefl(Share(k, p, i));
    } else {
      var t := Step(k, events[0]);
      StepShare(k, events[0], p, i);
      ShareIsGrowth(t, events[1..], p, i);
      var rest := GrownInRun(t, events[1..], p, i);
      CongruentPlus(rest, Share(t, p, i), Share(k, p, i) + Grown(k, events[0], p, i));
      CongruentTrans(Share(Run(t, events[1..]), p, i), rest + Share(t, p, i), rest + (Share(k, p, i) + Grown(k, events[0], p, i)));
    }
  }

  // ---------------------------------------------------------------- what the events alone say

  function Before(events: seq<Event>): seq<Event>
    requires events != []
  {
    events[..|events| - 1]
  }

  function Last(events: seq<Event>): Event
    requires events != []
  {
    events[|events| - 1]
  }

  /** The process switched in last; the first one at the start. */
  function Runner(events: seq<Event>): nat
    decreases |events|
  {
    if events == [] then 0 else if Last(events).SwitchIn? then Last(events).p else Runner(Before(events))
  }

  /** What the device showed when a process was last switched in, and out. */
  function ShownIn(events: seq<Event>, i: nat): int
    requires i < N_VARS
    decreases |events|
  {
    if events == [] then 0
    else
      match Last(events)
      case SwitchIn(_, hw) => hw[i]
      case ReadProc(_, again) => again[i]
      case _ => ShownIn(Before(events), i)
  }

  function ShownOut(events: seq<Event>, i: nat): int
    requires i < N_VARS
    decreases |events|
  {
    if events == [] then 0
    else
      match Last(events)
      case SwitchOut(hw) => hw[i]
      case ReadProc(hw, _) => hw[i]
      case _ => ShownOut(Before(events), i)
  }

  /** The growth from each switch in of a process to its switch out, and between processes. */
  function RanFor(events: seq<Event>, p: nat, i: nat): int
    requires i < N_VARS
    decreases |events|
  {
    if events == [] then 0
    else
      RanFor(Before(events), p, i) +
      if Runner(Before(events)) == p && (Last(events).SwitchOut? || Last(events).ReadProc?)
      then ShownOut(events, i) - ShownIn(Before(events), i) else 0
  }

  function SystemFor(events: seq<Event>, i: nat): int
    requires i < N_VARS
    decreases |events|
  {
    if events == [] then 0
    else
      SystemFor(Before(events), i) +
      match Last(events)
      case SwitchIn(_, _) => ShownIn(events, i) - ShownOut(Before(events), i)
      case ReadProc(_, _) => ShownIn(events, i) - ShownOut(events, i)
      case _ => 0
  }

  /** What the device showed when that process was last switched out. */
  function LeftWith(events: seq<Event>, p: nat, i: nat): int
    requires i < N_VARS
    decreases |events|
  {
    if events == [] then 0
    else if Runner(Before(events)) == p && (Last(events).SwitchOut? || Last(events).ReadProc?) then ShownOut(events, i)
    else LeftWith(Before(events), p, i)
  }

  /** The driver's state is what the events say. */
  ghost predicate Told(k: Kernel, events: seq<Event>) {
    && k.mapped && k.Valid() && k.current == Runner(events)
    && (forall i :: 0 <= i < N_VARS ==> k.pin[i] == ShownIn(events, i) && k.pout[i] == ShownOut(events, i))
    && (forall i :: 0 <= i < N_COUNTERS ==> Congruent(k.sys[i], SystemFor(events, i)))
    && (forall p, i :: 0 <= p && 0 <= i < N_COUNTERS ==> Congruent(Share(k, p, i), RanFor(events, p, i)))
    && (forall p, i :: 0 <= p && N_COUNTERS < i < N_VARS ==> Share(k, p, i) == LeftWith(events, p, i))
  }

  lemma SnapshotsTold(k: Kernel, events: seq<Event>)
    requires events != [] && Told(k, Before(events)) && Legal(k, Last(events))
    ensures var r := Step(k, Last(events));
            && r.mapped && r.current == Runner(events)
            && forall i :: 0 <= i < N_VARS ==> r.pin[i] == ShownIn(events, i) && r.pout[i] == ShownOut(events, i)
  {
    hide AddDelta, FlagWrite, SystemFor, RanFor, LeftWith, Congruent;
  }

  lemma ShareTold(k: Kernel, events: seq<Event>, p: nat, i: nat)
    requires events != [] && Told(k, Before(events)) && Legal(k, Last(events)) && i < N_COUNTERS
    ensures Congruent(Share(Step(k, Last(events)), p, i), RanFor(events, p, i))
  {
    hide AddDelta, FlagWrite, SystemFor, LeftWith, Congruent, Share, Step;
    StepShare(k, Last(events), p, i);
    var grown := Grown(k, Last(events), p, i);
    assert RanFor(events, p, i) == RanFor(Before(events), p, i) + grown;
    CongruentPlus(grown, Share(k, p, i), RanFor(Before(events), p, i));
    CongruentTrans(Share(Step(k, Last(events)), p, i), Share(k, p, i) + grown, RanFor(events, p, i));
  }

  lemma InSystem(k: Kernel, p: nat, hw: Vars, i: nat)
    requires p < |k.procs| && k.mapped && i < N_COUNTERS
    ensures var x: int, y: int := k.sys[i], In(k, p, hw).sys[i]; Congruent(y, x + Delta(hw, k.pout, i))
  {
    assert In(k, p, hw).sys[i] == Grow(k.sys[i], hw[i], k.pout[i]);
  }

  lemma SystemTold(k: Kernel, events: seq<Event>, i: nat)
    requires events != [] && Told(k, Before(events)) && Legal(k, Last(events)) && i < N_COUNTERS
    ensures Congruent(Step(k, Last(events)).sys[i], SystemFor(events, i))
  {
    hide AddDelta, FlagWrite, RanFor, LeftWith, Congruent, Share;
    var x: int, was := k.sys[i], SystemFor(Before(events), i);
    match Last(events)
    case SwitchIn(p, hw) =>
      InSystem(k, p, hw, i);
      CongruentPlus(Delta(hw, k.pout, i), x, was);
      CongruentTrans(Step(k, Last(events)).sys[i], x + Delta(hw, k.pout, i), SystemFor(events, i));
    case ReadProc(hw, again) =>
      InSystem(Out(k, hw), k.current, again, i);
      CongruentPlus(Delta(again, hw, i), x, was);
      CongruentTrans(Step(k, Last(events)).sys[i], x + Delta(again, hw, i), SystemFor(events, i));
    case _ =>
  }

  lemma LeftTold(k: Kernel, events: seq<Event>, p: nat, i: nat)
    requires events != [] && Told(k, Before(events)) && Legal(k, Last(events)) && N_COUNTERS < i < N_VARS
    ensures Share(Step(k, Last(events)), p, i) == LeftWith(events, p, i)
  {
    hide FlagWrite, RanFor, SystemFor, Congruent, U64;
    ZeroAt(i);
  }

  lemma StepTold(k: Kernel, events: seq<Event>)
    requires events != [] && Told(k, Before(events)) && Legal(k, Last(events))
    ensures Told(Step(k, Last(events)), events)
  {
    hide Step, Share, RanFor, SystemFor, LeftWith, ShownIn, ShownOut, Runner, Congruent;
    SnapshotsTold(k, events);
    var r := Step(k, Last(events));
    forall i | 0 <= i < N_COUNTERS ensures Congruent(r.sys[i], SystemFor(events, i)) {
      SystemTold(k, events, i);
    }
    forall p, i | 0 <= p && 0 <= i < N_COUNTERS ensures Congruent(Share(r, p, i), RanFor(events, p, i)) {
      ShareTold(k, events, p, i);
    }
    forall p, i | 0 <= p && N_COUNTERS < i < N_VARS ensures Share(r, p, i) == LeftWith(events, p, i) {
      LeftTold(k, events, p, i);
    }
  }

  lemma {:induction false} RunLast(k: Kernel, events: seq<Event>)
    requires k.Valid() && LegalRun(k, events) && events != []
    ensures LegalRun(k, Before(events)) && Legal(Run(k, Before(events)), Last(events))
    ensures Run(k, events) == Step(Run(k, Before(events)), Last(events))
    decreases |events|
  {
    hide Step, Legal;
    if |events| == 1 {
      assert events[1..] == [] && Before(events) == [];
    } else {
      RunLast(Step(k, events[0]), events[1..]);
      assert Before(events[1..]) == Before(events)[1..];
    }
  }

  /** After any run with the device, the shares of the processes and of the system are the growth of the counters over
      the intervals that the switches mark, modulo 2^64, and each process is left with the frequency and the voltage
      that the device showed when it was last switched out. */
  lemma {:induction false} SharesAreTold(n: nat, events: seq<Event>)
    requires n > 0 && LegalRun(Init(n, true), events)
    ensures Told(Run(Init(n, true), events), events)
    decreases |events|
  {
    var k := Init(n, true);
    if events == [] {
      forall i | 0 <= i < N_VARS ensures ZERO[i] == 0 { ZeroAt(i); }
    } else {
      hide Told, Step, Legal;
      RunLast(k, events);
      SharesAreTold(n, Before(events));
      StepTold(Run(k, Before(events)), events);
    }
  }

  // ---------------------------------------------------------------- fault flags

  /** The value each process last wrote to the flag, or zero. */
  function Written(k: Kernel, last: seq<nat>, e: Event): seq<nat>
    requires k.Valid() && |last| == |k.procs|
  {
    match e
    case WriteFaults(val) => last[k.current := val]
    case Fork => last + [0]
    case _ => last
  }

  /** The device has the running process's flag, and the others' are kept for them. */
  ghost predicate Isolated(k: Kernel, last: seq<nat>)
    requires k.Valid()
  {
    && |last| == |k.procs|
    && (k.running ==> k.flag == last[k.current] % TWO32)
    && forall p :: 0 <= p < |last| && !(k.running && p == k.current) ==> k.procs[p][FAULT_STATUS] == last[p] % TWO32
  }

  lemma StepIsolates(k: Kernel, last: seq<nat>, e: Event)
    requires k.Valid() && Legal(k, e) && k.mapped && Isolated(k, last)
    ensures Isolated(Step(k, e), Written(k, last, e)) && Step(k, e).mapped
  {
    hide U64;
    ZeroAt(FAULT_STATUS);
    match e
    case SwitchOut(hw) => OutIsolates(k, last, hw);
    case SwitchIn(p, hw) => InIsolates(k, last, p, hw);
    case ReadProc(hw, again) =>
      OutIsolates(k, last, hw);
      InIsolates(Out(k, hw), last, k.current, again);
    case ReadOther =>
    case WriteFaults(val) =>
    case Fork =>
  }

  lemma OutIsolates(k: Kernel, last: seq<nat>, hw: Vars)
    requires k.Valid() && k.running && hw[FAULT_STATUS] == k.flag && k.mapped && Isolated(k, last)
    ensures Isolated(Out(k, hw), last) && Out(k, hw).mapped && !Out(k, hw).running
  {
    hide AddDelta;
  }

  lemma InIsolates(k: Kernel, last: seq<nat>, p: nat, hw: Vars)
    requires k.Valid() && !k.running && p < |k.procs| && k.mapped && Isolated(k, last)
    ensures Isolated(In(k, p, hw), last) && In(k, p, hw).mapped
  {
    hide AddDelta;
  }

  function WrittenInRun(k: Kernel, last: seq<nat>, events: seq<Event>): seq<nat>
    requires k.Valid() && LegalRun(k, events) && |last| == |k.procs|
    decreases events
  {
    if events == [] then last
    else WrittenInRun(Step(k, events[0]), Written(k, last, events[0]), events[1..])
  }

  lemma {:induction false} RunIsolates(k: Kernel, last: seq<nat>, events: seq<Event>)
    requires k.Valid() && LegalRun(k, events) && k.mapped && Isolated(k, last)
    ensures Isolated(Run(k, events), WrittenInRun(k, last, events))
    decreases events
  {
    hide Legal;
    if events != [] {
      StepIsolates(k, last, events[0]);
      RunIsolates(Step(k, events[0]), Written(k, last, events[0]), events[1..]);
    }
  }

  /** Isolation: whatever runs in between, a process runs with the fault flag that it last wrote, as the
      32-bit register took it, or with none. */
  lemma FaultsIsolated(n: nat, events: seq<Event>)
    requires n > 0 && LegalRun(Init(n, true), events)
    ensures var k, last := Run(Init(n, true), events), WrittenInRun(Init(n, true), seq(n, _ => 0), events);
            |last| == |k.procs| && (k.running ==> k.flag == last[k.current] % TWO32)
  {
    ZeroAt(FAULT_STATUS);
    RunIsolates(Init(n, true), seq(n, _ => 0), events);
  }

  // ---------------------------------------------------------------- in place

  /** vemu_add_delta, on a task's array or the system's. */
  method AddDeltaTo(target: array<nat>, new_: array<nat>, old_: array<nat>)
    requires target.Length == new_.Length == old_.Length == N_VARS
    requires target != new_ && target != old_
    modifies target
    ensures target[..] == AddDelta(old(target[..]), new_[..], old_[..])
  {
    hide U64;
    ghost var was: Vars := target[..];
    for i := 0 to N_COUNTERS
      invariant forall j :: 0 <= j < N_VARS ==> target[j] == if j < i then Grow(was[j], new_[j], old_[j]) else was[j]
    {
      target[i] := Grow(target[i], new_[i], old_[i]);
    }
    assert target[..] == AddDelta(was, new_[..], old_[..]);
  }

  class Variability {
    const pin: array<nat>
    const pout: array<nat>
    const sys: array<nat>
    var procs: seq<array<nat>>
    var current: nat
    var running: bool
    var flag: nat
    var mapped: bool

    /** variability_init, with the boot task running. */
    constructor (mapped: bool)
      ensures Valid() && fresh(Repr()) && State() == Init(1, mapped)
    {
      pin := new nat[N_VARS](_ => 0);
      pout := new nat[N_VARS](_ => 0);
      sys := new nat[N_VARS](_ => 0);
      var a := new nat[N_VARS](_ => 0);
      procs := [a];
      current, running, flag := 0, true, 0;
      this.mapped := mapped;
      new;
      assert pin[..] == ZERO && pout[..] == ZERO && sys[..] == ZERO && a[..] == ZERO;
    }

    ghost function Repr(): set<object>
      reads this
    {
      {this, pin, pout, sys} + set a | a in procs
    }

    ghost predicate Valid()
      reads this
    {
      && pin.Length == pout.Length == sys.Length == N_VARS
      && pin != pout && pin != sys && pout != sys
      && current < |procs|
      && (forall p :: 0 <= p < |procs| ==> procs[p].Length == N_VARS && procs[p] !in {pin, pout, sys})
      && forall p, q :: 0 <= p < q < |procs| ==> procs[p] != procs[q]
    }

    ghost function State(): (k: Kernel)
      requires Valid()
      reads this, Repr()
      ensures k.Valid()
    {
      Kernel(pin[..], pout[..], sys[..], seq(|procs|, p requires 0 <= p < |procs| && Valid() reads this, Repr() => Contents(p)), current, running, flag, mapped)
    }

    ghost function Contents(p: nat): Vars
      requires Valid() && p < |procs|
      reads this, Repr()
    {
      procs[p][..]
    }

    /** vemu_read_state; `hw` is what the device has after READ_CMD. */
    method ReadStateTo(target: array<nat>, hw: Vars)
      requires target.Length == N_VARS
      modifies target
      ensures target[..] == ReadState(mapped, old(target[..]), hw)
    {
      if mapped {
        for i := 0 to N_VARS
          invariant forall j :: 0 <= j < i ==> target[j] == hw[j]
        {
          target[i] := hw[i];
        }
      }
    }

    method ProcessOut(hw: Vars)
      requires Valid()
      modifies Repr()
      ensures Valid() && procs == old(procs) && State() == Out(old(State()), hw)
    {
      ghost var k := State();
      ReadStateTo(pout, hw);
      var share := procs[current];
      AddDeltaTo(share, pout, pin);
      share[FAULT_STATUS] := pout[FAULT_STATUS];
      share[FREQUENCY] := pout[FREQUENCY];
      share[VOLTAGE] := pout[VOLTAGE];
      running := false;
      assert State().procs == Out(k, hw).procs;
    }

    method ProcessIn(p: nat, hw: Vars)
      requires Valid() && p < |procs|
      modifies Repr()
      ensures Valid() && procs == old(procs) && State() == In(old(State()), p, hw)
    {
      ghost var k := State();
      ReadStateTo(pin, hw);
      AddDeltaTo(sys, pin, pout);
      current := p;
      running := true;
      RegWrite(procs[current][FAULT_STATUS]);
      assert State().procs == k.procs;
    }

    /** vemu_reg_write to SET_FAULT_STATUS. */
    method RegWrite(val: nat)
      modifies this`flag
      ensures flag == FlagWrite(mapped, old(flag), val)
    {
      if mapped {
        flag := val % TWO32;
      }
    }

    /** sys_var_reg_read with READ_PROC: the process's own share, brought up to date. */
    method ReadProcess(hw: Vars, again: Vars) returns (r: Vars)
      requires Valid() && running && hw[FAULT_STATUS] == flag
      modifies Repr()
      ensures Valid() && procs == old(procs) && State() == Step(old(State()), Event.ReadProc(hw, again))
      ensures r == State().procs[current]
    {
      ProcessOut(hw);
      ProcessIn(current, again);
      r := procs[current][..];
    }

    /** A new task, with its share zeroed. */
    method ForkTask()
      requires Valid()
      modifies this
      ensures Valid() && State() == Step(old(State()), Fork)
    {
      ghost var k := State();
      var a := new nat[N_VARS](_ => 0);
      procs := procs + [a];
      assert a[..] == ZERO;
      assert State().procs == k.procs + [ZERO];
    }
  }
}
