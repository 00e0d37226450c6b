/** Banked registers: QEMU keeps the registers of the current mode in regs[] and the others in banks.
    Seen as one flat register file, changing mode moves nothing. */
module Banks {
  import opened Wrappers

  datatype Mode = Usr | Fiq | Irq | Svc | Smc | Abt | Und | Sys | Bad

  function ModeBits(w: bv32): bv5 {
    (w & 0x1f) as bv5
  }

  function Decode(m: bv5): Mode {
    match m
    case 0x10 => Usr
    case 0x11 => Fiq
    case 0x12 => Irq
    case 0x13 => Svc
    case 0x16 => Smc
    case 0x17 => Abt
    case 0x1b => Und
    case 0x1f => Sys
    case _ => Bad
  }

  function Encode(m: Mode): bv32 {
    match m
    case Usr => 0x10
    case Fiq => 0x11
    case Irq => 0x12
    case Svc => 0x13
    case Smc => 0x16
    case Abt => 0x17
    case Und => 0x1b
    case Sys => 0x1f
    case Bad => 0
  }

  function ModeOf(w: bv32): Mode {
    Decode(ModeBits(w))
  }

  /** bank_number; there is none for a bad mode. */
  function Bank(m: Mode): (b: nat)
    requires m != Bad
    ensures b < 7
  {
    match m
    case Usr | Sys => 0
    case Svc => 1
    case Abt => 2
    case Und => 3
    case Irq => 4
    case Fiq => 5
    case Smc => 6
  }

  /** Modes that have r13, r14 and the SPSR in common: User and System mode, and no other two. */
  predicate Share(m: Mode, m': Mode) {
    m == m' || ((m == Usr || m == Sys) && (m' == Usr || m' == Sys))
  }

  /** Modes have one bank exactly when they share those registers. */
  lemma BankExact(m: Mode, m': Mode)
    requires m != Bad && m' != Bad
    ensures Bank(m) == Bank(m') <==> Share(m, m')
  {
  }

  /** The register arrays of the CPU, for any type of word. */
  datatype File<T> = File(
    regs: seq<T>,         // r0 to r15 of the current mode
    spsr: T,
    bankedSpsr: seq<T>,
    bankedR13: seq<T>,
    bankedR14: seq<T>,
    usrRegs: seq<T>,      // r8 to r12 of the other modes, while in FIQ mode
    fiqRegs: seq<T>       // r8 to r12 of FIQ mode, while in the others
  ) {
    predicate Shaped() {
      |regs| == 16 && |bankedSpsr| == |bankedR13| == |bankedR14| == 7 && |usrRegs| == |fiqRegs| == 5
    }
  }

  /** The first part of switch_mode: r8 to r12 when FIQ mode is left or entered. */
  function SwapHigh<T>(f: File<T>, o: Mode, m: Mode): (r: File<T>)
    requires f.Shaped()
    ensures r.Shaped()
  {
    if o == Fiq then f.(fiqRegs := f.regs[8..13], regs := f.regs[..8] + f.usrRegs + f.regs[13..])
    else if m == Fiq then f.(usrRegs := f.regs[8..13], regs := f.regs[..8] + f.fiqRegs + f.regs[13..])
    else f
  }

  /** The second part of switch_mode: r13, r14 and the SPSR are put away and fetched. */
  function SwapBank<T>(f: File<T>, o: nat, m: nat): (r: File<T>)
    requires f.Shaped() && o < 7 && m < 7
    ensures r.Shaped()
  {
    var g := f.(bankedR13 := f.bankedR13[o := f.regs[13]], bankedR14 := f.bankedR14[o := f.regs[14]],
                bankedSpsr := f.bankedSpsr[o := f.spsr]);
    g.(regs := g.regs[13 := g.bankedR13[m]][14 := g.bankedR14[m]], spsr := g.bankedSpsr[m])
  }

  /** switch_mode from mode `o`. The mode field is left to the caller. */
  function Switch<T>(f: File<T>, o: Mode, m: Mode): (r: File<T>)
    requires f.Shaped() && o != Bad && m != Bad
    ensures r.Shaped()
  {
    if m == o then f else SwapBank(SwapHigh(f, o, m), Bank(o), Bank(m))
  }

  // ---------------------------------------------------------------- the flat register file

  /** Every register of the architecture, with no notion of a current mode. */
  datatype Flat<T> = Flat(low: seq<T>, pc: T, usrHigh: seq<T>, fiqHigh: seq<T>, r13: seq<T>, r14: seq<T>, spsr: seq<T>) {
    predicate Shaped() {
      |low| == 8 && |usrHigh| == |fiqHigh| == 5 && |r13| == |r14| == |spsr| == 7
    }
  }

  function FlatOf<T>(f: File<T>, m: Mode): (flat: Flat<T>)
    requires f.Shaped() && m != Bad
    ensures flat.Shaped()
  {
    Flat(f.regs[..8], f.regs[15],
         if m == Fiq then f.usrRegs else f.regs[8..13],
         if m == Fiq then f.regs[8..13] else f.fiqRegs,
         f.bankedR13[Bank(m) := f.regs[13]], f.bankedR14[Bank(m) := f.regs[14]], f.bankedSpsr[Bank(m) := f.spsr])
  }

  /** The register that a mode sees under a number. */
  function Visible<T>(f: Flat<T>, m: Mode, r: nat): T
    requires f.Shaped() && m != Bad && r < 16
  {
    if r < 8 then f.low[r]
    else if r < 13 then (if m == Fiq then f.fiqHigh[r - 8] else f.usrHigh[r - 8])
    else if r == 13 then f.r13[Bank(m)]
    else if r == 14 then f.r14[Bank(m)]
    else f.pc
  }

  function SetVisible<T>(f: Flat<T>, m: Mode, r: nat, v: T): (g: Flat<T>)
    requires f.Shaped() && m != Bad && r < 16
    ensures g.Shaped()
    ensures forall m' :: m' != Bad && SameRegister(m, r, m', r) ==> Visible(g, m', r) == v
    ensures g.spsr == f.spsr
    ensures forall m', r' :: m' != Bad && 0 <= r' < 16 && !SameRegister(m, r, m', r') ==> Visible(g, m', r') == Visible(f, m', r')
  {
    if r < 8 then f.(low := f.low[r := v])
    else if r < 13 then
      (if m == Fiq then f.(fiqHigh := f.fiqHigh[r - 8 := v]) else f.(usrHigh := f.usrHigh[r - 8 := v]))
    else if r == 13 then f.(r13 := f.r13[Bank(m) := v])
    else if r == 14 then f.(r14 := f.r14[Bank(m) := v])
    else f.(pc := v)
  }

  /** Two modes name the same register. */
  predicate SameRegister(m: Mode, r: nat, m': Mode, r': nat)
    requires m != Bad && m' != Bad
  {
    && r == r'
    && (8 <= r < 13 ==> (m == Fiq) == (m' == Fiq))
    && (13 <= r < 15 ==> Share(m, m'))
  }

  /** regs[] shows the registers of the current mode. */
  lemma RegsAreVisible<T>(f: File<T>, m: Mode, r: nat)
    requires f.Shaped() && m != Bad && r < 16
    ensures f.regs[r] == Visible(FlatOf(f, m), m, r)
    ensures f.spsr == FlatOf(f, m).spsr[Bank(m)]
  {
  }

  lemma SwapHighFlat<T>(f: File<T>, o: Mode, m: Mode)
    requires f.Shaped() && o != Bad && m != Bad && o != m
    ensures var g := SwapHigh(f, o, m);
            && g.regs[..8] == f.regs[..8] && g.regs[13..] == f.regs[13..]
            && (if m == Fiq then g.usrRegs else g.regs[8..13]) == (if o == Fiq then f.usrRegs else f.regs[8..13])
            && (if m == Fiq then g.regs[8..13] else g.fiqRegs) == (if o == Fiq then f.regs[8..13] else f.fiqRegs)
            && g == f.(regs := g.regs, usrRegs := g.usrRegs, fiqRegs := g.fiqRegs)
  {
  }

  lemma SwapBankFlat<T>(f: File<T>, o: nat, m: nat)
    requires f.Shaped() && o < 7 && m < 7
    ensures var g := SwapBank(f, o, m);
            && g.regs[..13] == f.regs[..13] && g.regs[15] == f.regs[15]
            && g.usrRegs == f.usrRegs && g.fiqRegs == f.fiqRegs
            && g.bankedR13[m := g.regs[13]] == f.bankedR13[o := f.regs[13]]
            && g.bankedR14[m := g.regs[14]] == f.bankedR14[o := f.regs[14]]
            && g.bankedSpsr[m := g.spsr] == f.bankedSpsr[o := f.spsr]
  {
  }

  /** Changing mode changes no register of the flat file. */
  lemma SwitchKeepsFlat<T>(f: File<T>, o: Mode, m: Mode)
    requires f.Shaped() && o != Bad && m != Bad
    ensures FlatOf(Switch(f, o, m), m) == FlatOf(f, o)
  {
    hide SwapHigh, SwapBank;
    if o != m {
      var g := SwapHigh(f, o, m);
      SwapHighFlat(f, o, m);
      SwapBankFlat(g, Bank(o), Bank(m));
      var h := SwapBank(g, Bank(o), Bank(m));
      assert h.regs[..8] == h.regs[..13][..8] && g.regs[..8] == g.regs[..13][..8];
      assert h.regs[8..13] == h.regs[..13][8..] && g.regs[8..13] == g.regs[..13][8..];
      assert g.regs[13] == g.regs[13..][0] && g.regs[14] == g.regs[13..][1] && g.regs[15] == g.regs[13..][2];
      assert f.regs[13] == f.regs[13..][0] && f.regs[14] == f.regs[13..][1] && f.regs[15] == f.regs[13..][2];
    }
  }

  // ---------------------------------------------------------------- access to other banks

  /** get_user_reg. */
  function GetUserReg<T>(f: File<T>, m: Mode, r: nat): T
    requires f.Shaped() && r < 15
  {
    if r == 13 then f.bankedR13[0]
    else if r == 14 then f.bankedR14[0]
    else if r >= 8 && m == Fiq then f.usrRegs[r - 8]
    else f.regs[r]
  }

  /** set_user_reg. */
  function SetUserReg<T>(f: File<T>, m: Mode, r: nat, v: T): (g: File<T>)
    requires f.Shaped() && r < 15
    ensures g.Shaped()
  {
    if r == 13 then f.(bankedR13 := f.bankedR13[0 := v])
    else if r == 14 then f.(bankedR14 := f.bankedR14[0 := v])
    else if r >= 8 && m == Fiq then f.(usrRegs := f.usrRegs[r - 8 := v])
    else f.(regs := f.regs[r := v])
  }

  /** User and System mode have r13 and r14 of the user bank in regs[], where these accesses do not
      look. */
  predicate ReachesUser(m: Mode, r: nat)
    requires m != Bad
  {
    !Share(m, Usr) || r < 13
  }

  /** What is put away of the user bank's r13 or r14. */
  function UserCopy<T>(f: File<T>, r: nat): T
    requires f.Shaped() && 13 <= r < 15
  {
    if r == 13 then f.bankedR13[0] else f.bankedR14[0]
  }

  /** get_user_reg reads the user register exactly when it reaches it, or what was last put away of it happens
      to be what it holds. */
  lemma GetUserRegReads<T>(f: File<T>, m: Mode, r: nat)
    requires f.Shaped() && m != Bad && r < 15
    ensures GetUserReg(f, m, r) == Visible(FlatOf(f, m), Usr, r) <==> ReachesUser(m, r) || UserCopy(f, r) == f.regs[r]
  {
  }

  /** set_user_reg writes the user register exactly when it reaches it or has nothing to change. */
  lemma SetUserRegWrites<T>(f: File<T>, m: Mode, r: nat, v: T)
    requires f.Shaped() && m != Bad && r < 15
    ensures FlatOf(SetUserReg(f, m, r, v), m) == SetVisible(FlatOf(f, m), Usr, r, v) <==>
            ReachesUser(m, r) || Visible(FlatOf(f, m), Usr, r) == v
  {
    var flat, g := FlatOf(f, m), SetUserReg(f, m, r, v);
    if ReachesUser(m, r) {
      SetUserRegReaches(f, m, r, v);
    } else {
      assert r == 13 ==> g.bankedR13[0 := f.regs[13]] == f.bankedR13[0 := f.regs[13]];
      assert r == 14 ==> g.bankedR14[0 := f.regs[14]] == f.bankedR14[0 := f.regs[14]];
      assert FlatOf(g, m) == flat;
      SetVisibleSame(flat, r, v);
    }
  }

  lemma SetUserRegReaches<T>(f: File<T>, m: Mode, r: nat, v: T)
    requires f.Shaped() && m != Bad && r < 15 && ReachesUser(m, r)
    ensures FlatOf(SetUserReg(f, m, r, v), m) == SetVisible(FlatOf(f, m), Usr, r, v)
  {
    var b := Bank(m);
    if r == 13 {
      assert f.bankedR13[0 := v][b := f.regs[13]] == f.bankedR13[b := f.regs[13]][0 := v];
    } else if r == 14 {
      assert f.bankedR14[0 := v][b := f.regs[14]] == f.bankedR14[b := f.regs[14]][0 := v];
    } else if r < 8 {
      assert f.regs[r := v][..8] == f.regs[..8][r := v] && f.regs[r := v][8..13] == f.regs[8..13];
    } else if m != Fiq {
      assert f.regs[r := v][8..13] == f.regs[8..13][r - 8 := v] && f.regs[r := v][..8] == f.regs[..8];
    }
  }

  lemma SetVisibleSame<T>(flat: Flat<T>, r: nat, v: T)
    requires flat.Shaped() && 13 <= r < 15
    ensures SetVisible(flat, Usr, r, v) == flat <==> Visible(flat, Usr, r) == v
  {
    if Visible(flat, Usr, r) == v {
      assert r == 13 ==> flat.r13[0 := v] == flat.r13;
      assert r == 14 ==> flat.r14[0 := v] == flat.r14;
    }
  }

  /** set_r13_banked. */
  function SetR13Banked<T>(f: File<T>, o: Mode, m: Mode, v: T): (g: File<T>)
    requires f.Shaped() && m != Bad
    ensures g.Shaped()
  {
    if o == m then f.(regs := f.regs[13 := v]) else f.(bankedR13 := f.bankedR13[Bank(m) := v])
  }

  /** Not User for System mode or the other way round. */
  predicate ReachesR13(o: Mode, m: Mode)
    requires o != Bad && m != Bad
  {
    o == m || !Share(o, m)
  }

  lemma SetR13BankedReaches<T>(f: File<T>, o: Mode, m: Mode, v: T)
    requires f.Shaped() && o != Bad && m != Bad && ReachesR13(o, m)
    ensures FlatOf(SetR13Banked(f, o, m, v), o) == SetVisible(FlatOf(f, o), m, 13, v)
  {
    if o == m {
      assert f.regs[13 := v][..8] == f.regs[..8] && f.regs[13 := v][8..13] == f.regs[8..13];
      assert f.bankedR13[Bank(m) := v] == f.bankedR13[Bank(m) := f.regs[13]][Bank(m) := v];
    } else {
      assert f.bankedR13[Bank(m) := v][Bank(o) := f.regs[13]] == f.bankedR13[Bank(o) := f.regs[13]][Bank(m) := v];
    }
  }

  /** set_r13_banked writes that mode's r13 exactly when it reaches it or has nothing to change. */
  lemma SetR13BankedWrites<T>(f: File<T>, o: Mode, m: Mode, v: T)
    requires f.Shaped() && o != Bad && m != Bad
    ensures FlatOf(SetR13Banked(f, o, m, v), o) == SetVisible(FlatOf(f, o), m, 13, v) <==>
            ReachesR13(o, m) || Visible(FlatOf(f, o), m, 13) == v
  {
    if ReachesR13(o, m) {
      SetR13BankedReaches(f, o, m, v);
    } else {
      var flat, g := FlatOf(f, o), SetR13Banked(f, o, m, v);
      assert g.bankedR13[0 := f.regs[13]] == f.bankedR13[0 := f.regs[13]];
      assert FlatOf(g, o) == flat;
      SetVisibleSame(flat, 13, v);
    }
  }

  // ---------------------------------------------------------------- runs

  datatype Op<T> =
    | WriteReg(r: nat, v: T)
    | WriteSpsr(v: T)
    | WriteUserReg(r: nat, v: T)
    | WriteR13(mode: Mode, v: T)
    | ChangeMode(mode: Mode)

  predicate Legal<T>(m: Mode, op: Op<T>) {
    m != Bad &&
    match op
    case WriteReg(r, _) => r < 16
    case WriteSpsr(_) => true
    case WriteUserReg(r, _) => r < 15 && ReachesUser(m, r)
    case WriteR13(mode, _) => mode != Bad && ReachesR13(m, mode)
    case ChangeMode(mode) => mode != Bad
  }

  /** What QEMU does. */
  function Step<T>(f: File<T>, m: Mode, op: Op<T>): (g: File<T>)
    requires f.Shaped() && Legal(m, op)
    ensures g.Shaped()
  {
    match op
    case WriteReg(r, v) => f.(regs := f.regs[r := v])
    case WriteSpsr(v) => f.(spsr := v)
    case WriteUserReg(r, v) => SetUserReg(f, m, r, v)
    case WriteR13(mode, v) => SetR13Banked(f, m, mode, v)
    case ChangeMode(mode) => Switch(f, m, mode)
  }

  function NextMode<T>(m: Mode, op: Op<T>): Mode {
    if op.ChangeMode? then op.mode else m
  }

  /** What the architecture does to its one register file. */
  function FlatStep<T>(f: Flat<T>, m: Mode, op: Op<T>): (g: Flat<T>)
    requires f.Shaped() && Legal(m, op)
    ensures g.Shaped()
  {
    match op
    case WriteReg(r, v) => SetVisible(f, m, r, v)
    case WriteSpsr(v) => f.(spsr := f.spsr[Bank(m) := v])
    case WriteUserReg(r, v) => SetVisible(f, Usr, r, v)
    case WriteR13(mode, v) => SetVisible(f, mode, 13, v)
    case ChangeMode(_) => f
  }

  lemma WriteRegFlat<T>(f: File<T>, m: Mode, r: nat, v: T)
    requires f.Shaped() && m != Bad && r < 16
    ensures FlatOf(f.(regs := f.regs[r := v]), m) == SetVisible(FlatOf(f, m), m, r, v)
  {
    var regs, b := f.regs[r := v], Bank(m);
    assert r < 8 ==> regs[..8] == f.regs[..8][r := v] && regs[8..13] == f.regs[8..13];
    assert 8 <= r < 13 ==> regs[8..13] == f.regs[8..13][r - 8 := v] && regs[..8] == f.regs[..8];
    assert r >= 13 ==> regs[..8] == f.regs[..8] && regs[8..13] == f.regs[8..13];
    assert r == 13 ==> f.bankedR13[b := v] == f.bankedR13[b := f.regs[13]][b := v];
    assert r == 14 ==> f.bankedR14[b := v] == f.bankedR14[b := f.regs[14]][b := v];
  }

  lemma WriteSpsrFlat<T>(f: File<T>, m: Mode, v: T)
    requires f.Shaped() && m != Bad
    ensures FlatOf(f.(spsr := v), m) == FlatOf(f, m).(spsr := FlatOf(f, m).spsr[Bank(m) := v])
  {
    assert f.bankedSpsr[Bank(m) := v] == f.bankedSpsr[Bank(m) := f.spsr][Bank(m) := v];
  }

  lemma StepRefines<T>(f: File<T>, m: Mode, op: Op<T>)
    requires f.Shaped() && Legal(m, op)
    ensures FlatOf(Step(f, m, op), NextMode(m, op)) == FlatStep(FlatOf(f, m), m, op)
  {
    match op
    case WriteReg(r, v) => WriteRegFlat(f, m, r, v);
    case WriteSpsr(v) => WriteSpsrFlat(f, m, v);
    case WriteUserReg(r, v) => SetUserRegReaches(f, m, r, v);
    case WriteR13(mode, v) => SetR13BankedReaches(f, m, mode, v);
    case ChangeMode(mode) => SwitchKeepsFlat(f, m, mode);
  }

  predicate LegalRun<T>(m: Mode, ops: seq<Op<T>>)
    decreases |ops|
  {
    ops == [] || (Legal(m, ops[0]) && LegalRun(NextMode(m, ops[0]), ops[1..]))
  }

  function LastMode<T>(m: Mode, ops: seq<Op<T>>): Mode
    decreases |ops|
  {
    if ops == [] then m else LastMode(NextMode(m, ops[0]), ops[1..])
  }

  function Run<T>(f: File<T>, m: Mode, ops: seq<Op<T>>): (g: File<T>)
    requires f.Shaped() && LegalRun(m, ops)
    ensures g.Shaped()
    decreases |ops|
  {
    if ops == [] then f else Run(Step(f, m, ops[0]), NextMode(m, ops[0]), ops[1..])
  }

  function FlatRun<T>(f: Flat<T>, m: Mode, ops: seq<Op<T>>): (g: Flat<T>)
    requires f.Shaped() && LegalRun(m, ops)
    ensures g.Shaped()
    decreases |ops|
  {
    if ops == [] then f else FlatRun(FlatStep(f, m, ops[0]), NextMode(m, ops[0]), ops[1..])
  }

  lemma LastModeIsGood<T>(m: Mode, ops: seq<Op<T>>)
    requires m != Bad && LegalRun(m, ops)
    ensures LastMode(m, ops) != Bad
    decreases |ops|
  {
    if ops != [] { LastModeIsGood(NextMode(m, ops[0]), ops[1..]); }
  }

  /** Over any run of mode changes and register writes, the banked arrays hold the registers that one
      flat file would, and regs[] shows those of the mode the run ends in. */
  lemma {:induction false} RunRefines<T>(f: File<T>, m: Mode, ops: seq<Op<T>>)
    requires f.Shaped() && m != Bad && LegalRun(m, ops)
    ensures LastMode(m, ops) != Bad
    ensures FlatOf(Run(f, m, ops), LastMode(m, ops)) == FlatRun(FlatOf(f, m), m, ops)
    ensures forall r :: 0 <= r < 16 ==> Run(f, m, ops).regs[r] == Visible(FlatRun(FlatOf(f, m), m, ops), LastMode(m, ops), r)
    decreases |ops|
  {
    hide Step, FlatStep, FlatOf, Legal;
    LastModeIsGood(m, ops);
    if ops != [] {
      StepRefines(f, m, ops[0]);
      LegalKeepsGood(m, ops[0]);
      RunRefines(Step(f, m, ops[0]), NextMode(m, ops[0]), ops[1..]);
    } else {
      forall r | 0 <= r < 16 ensures f.regs[r] == Visible(FlatOf(f, m), m, r) {
        RegsAreVisible(f, m, r);
      }
    }
  }

  lemma LegalKeepsGood<T>(m: Mode, op: Op<T>)
    requires Legal(m, op)
    ensures NextMode(m, op) != Bad
  {
  }

  // ---------------------------------------------------------------- what each mode finds

  /** A register of a mode: one of r0 to r15, or the SPSR. */
  datatype Place = Reg(r: nat) | Spsr

  predicate IsPlace(p: Place) {
    p.Reg? ==> p.r < 16
  }

  /** What a mode finds in one of its registers: the register as switch_mode brings it. */
  function Found<T>(f: File<T>, m: Mode, m': Mode, p: Place): T
    requires f.Shaped() && m != Bad && m' != Bad && IsPlace(p)
  {
    var g := Switch(f, m, m');
    if p.Reg? then g.regs[p.r] else g.spsr
  }

  /** What an operation in mode `m` stores in a register of mode `m'`. Modes other than FIQ have r8 to r12 in common,
      User and System mode r13, r14 and the SPSR too, and all modes r0 to r7 and the PC. */
  function Stored<T>(m: Mode, op: Op<T>, m': Mode, p: Place): Option<T>
    requires Legal(m, op) && m' != Bad
  {
    match op
    case WriteReg(r, v) => if p.Reg? && SameRegister(m, r, m', p.r) then Some(v) else None
    case WriteSpsr(v) => if p.Spsr? && Share(m, m') then Some(v) else None
    case WriteUserReg(r, v) => if p.Reg? && SameRegister(Usr, r, m', p.r) then Some(v) else None
    case WriteR13(mode, v) => if p == Reg(13) && Share(mode, m') then Some(v) else None
    case ChangeMode(_) => None
  }

  /** The last value that a run from mode `m` stores in that register, which held `v`. */
  function LastStored<T>(m: Mode, ops: seq<Op<T>>, m': Mode, p: Place, v: T): T
    requires m' != Bad && LegalRun(m, ops)
    decreases |ops|
  {
    if ops == [] then v
    else
      var stored := Stored(m, ops[0], m', p);
      LastStored(NextMode(m, ops[0]), ops[1..], m', p, if stored.Some? then stored.value else v)
  }

  function FlatFound<T>(f: Flat<T>, m': Mode, p: Place): T
    requires f.Shaped() && m' != Bad && IsPlace(p)
  {
    if p.Reg? then Visible(f, m', p.r) else f.spsr[Bank(m')]
  }

  lemma FoundIsFlat<T>(f: File<T>, m: Mode, m': Mode, p: Place)
    requires f.Shaped() && m != Bad && m' != Bad && IsPlace(p)
    ensures Found(f, m, m', p) == FlatFound(FlatOf(f, m), m', p)
  {
    hide Switch, FlatOf, Visible;
    SwitchKeepsFlat(f, m, m');
    RegsAreVisible(Switch(f, m, m'), m', if p.Reg? then p.r else 0);
  }

  lemma FlatStepStores<T>(f: Flat<T>, m: Mode, op: Op<T>, m': Mode, p: Place)
    requires f.Shaped() && Legal(m, op) && m' != Bad && IsPlace(p)
    ensures var stored := Stored(m, op, m', p);
            FlatFound(FlatStep(f, m, op), m', p) == if stored.Some? then stored.value else FlatFound(f, m', p)
  {
    BankExact(m, m');
    hide Bank, SetVisible, Visible;
  }

  lemma StepStores<T>(f: File<T>, m: Mode, op: Op<T>, m': Mode, p: Place)
    requires f.Shaped() && Legal(m, op) && m' != Bad && IsPlace(p) && NextMode(m, op) != Bad
    ensures var stored := Stored(m, op, m', p);
            Found(Step(f, m, op), NextMode(m, op), m', p) == if stored.Some? then stored.value else Found(f, m, m', p)
  {
    hide Step, FlatStep, FlatOf, Found, FlatFound, Stored;
    StepRefines(f, m, op);
    FoundIsFlat(f, m, m', p);
    FoundIsFlat(Step(f, m, op), NextMode(m, op), m', p);
    FlatStepStores(FlatOf(f, m), m, op, m', p);
  }

  /** Over any run, every mode finds in each of its registers what was last stored there, from whatever mode. */
  lemma {:induction false} RunStores<T>(f: File<T>, m: Mode, ops: seq<Op<T>>, m': Mode, p: Place)
    requires f.Shaped() && m != Bad && LegalRun(m, ops) && m' != Bad && IsPlace(p)
    ensures LastMode(m, ops) != Bad
    ensures Found(Run(f, m, ops), LastMode(m, ops), m', p) == LastStored(m, ops, m', p, Found(f, m, m', p))
    decreases |ops|
  {
    hide Step, Found, Stored, Legal;
    LastModeIsGood(m, ops);
    if ops != [] {
      LegalKeepsGood(m, ops[0]);
      StepStores(f, m, ops[0], m', p);
      RunStores(Step(f, m, ops[0]), NextMode(m, ops[0]), ops[1..], m', p);
    }
  }
}
