/** A-profile exceptions: entry, return through the SPSR, and handlers interrupted in turn to any depth. */
module ArmExceptions {
  import opened Cpsr
  import opened Banks
  import opened ArmCpu

  datatype Exception =
    | UndefinedInstruction
    | SupervisorCall
    | Breakpoint
    | PrefetchAbort
    | DataAbort
    | Interrupt
    | FastInterrupt
    | MonitorCall

  function Handler(x: Exception): (m: Mode)
    ensures m != Bad && !Share(m, Usr)
  {
    match x
    case UndefinedInstruction => Und
    case SupervisorCall => Svc
    case Breakpoint | PrefetchAbort | DataAbort => Abt
    case Interrupt => Irq
    case FastInterrupt => Fiq
    case MonitorCall => Smc
  }

  function VectorOffset(x: Exception): bv32 {
    match x
    case UndefinedInstruction => 0x04
    case SupervisorCall => 0x08
    case Breakpoint | PrefetchAbort => 0x0c
    case DataAbort => 0x10
    case Interrupt => 0x18
    case FastInterrupt => 0x1c
    case MonitorCall => 0x08
  }

  /** The A, I and F bits that entry sets. */
  function Disables(x: Exception): bv32 {
    match x
    case UndefinedInstruction | SupervisorCall => 0x80
    case Breakpoint | PrefetchAbort | DataAbort | Interrupt => 0x180
    case FastInterrupt | MonitorCall => 0x1c0
  }

  /** How far beyond the PC the link register points. */
  function LinkOffset(x: Exception, thumb: bool): bv32 {
    match x
    case UndefinedInstruction => if thumb then 2 else 4
    case SupervisorCall => 0
    case Breakpoint | PrefetchAbort | Interrupt | FastInterrupt => 4
    case DataAbort => 8
    case MonitorCall => if thumb then 2 else 0
  }

  function Link(pc: bv32, x: Exception, thumb: bool): bv32 {
    pc + LinkOffset(x, thumb)
  }

  /** What the architecture has a handler subtract from the link register to return. */
  function Adjustment(x: Exception): bv32 {
    match x
    case UndefinedInstruction | SupervisorCall | MonitorCall => 0
    case Breakpoint | PrefetchAbort | Interrupt | FastInterrupt => 4
    case DataAbort => 8
  }

  /** How far on from the PC it then returns: to the same instruction after an abort or an interrupt, to the
      next one after an undefined instruction; after a call the PC is there already, but for Thumb in a call
      to the monitor. */
  function Advance(x: Exception, thumb: bool): bv32 {
    match x
    case UndefinedInstruction => if thumb then 2 else 4
    case MonitorCall => if thumb then 2 else 0
    case _ => 0
  }

  /** From `offset` beyond the PC, subtracting `adjust` returns `advance` beyond it. */
  predicate Resumes(pc: bv32, offset: bv32, adjust: bv32, advance: bv32) {
    pc + offset - adjust == pc + advance
  }

  lemma ResumesBits(pc: bv32)
    ensures Resumes(pc, 0, 0, 0) && Resumes(pc, 2, 0, 2) && Resumes(pc, 4, 0, 4) && Resumes(pc, 4, 4, 0) && Resumes(pc, 8, 8, 0)
  {
  }

  lemma LinkReturns(pc: bv32, x: Exception, thumb: bool)
    ensures Resumes(pc, LinkOffset(x, thumb), Adjustment(x), Advance(x, thumb))
  {
    hide Resumes;
    ResumesBits(pc);
  }

  function VectorBase(c: Control, from: Mode, to: Mode): bv32 {
    if c.trustzone && (to == Smc || from == Smc) then c.mvbar
    else if Bit(c.sys, 0x2000) then 0xffff_0000
    else if c.trustzone then c.vbar
    else 0
  }

  function Vector(x: Exception, c: Control, from: Mode): bv32 {
    Placed(VectorOffset(x), VectorBase(c, from, Handler(x)))
  }

  function Placed(offset: bv32, base: bv32): bv32 {
    offset + base
  }

  /** SCR with NS clear. */
  function Secure(scr: bv32): bv32 {
    scr & !1
  }

  function EntryControl(x: Exception, c: Control, from: Mode): Control {
    match x
    case Breakpoint => c.(insnFault := 2)
    case MonitorCall => if from == Smc then c.(scr := Secure(c.scr)) else c
    case _ => c
  }

  function EntryUncached(uncached: bv32, x: Exception): bv32 {
    (uncached & !M_BITS) | Encode(Handler(x)) | Disables(x)
  }

  function EntryPsr(p: Psr, x: Exception, c: Control): Psr {
    p.(condexec := 0, uncached := EntryUncached(p.uncached, x), thumb := if c.v4t then Bit(c.sys, 0x4000_0000) else p.thumb)
  }

  /** arm_cpu_do_interrupt, with semihosting off. */
  function Enter(e: Env, x: Exception): Env
    requires e.Valid()
  {
    var f := Switch(e.file, e.Mode(), Handler(x));
    var link := Link(f.regs[15], x, e.psr.thumb);
    var vector := Vector(x, e.control, e.Mode());
    Env(f.(spsr := CpsrRead(e.psr), regs := f.regs[14 := link][15 := vector]),
        EntryPsr(e.psr, x, e.control),
        EntryControl(x, e.control, e.Mode()))
  }

  lemma SwitchKeepsPc<T>(f: File<T>, o: Mode, m: Mode)
    requires f.Shaped() && o != Bad && m != Bad
    ensures Switch(f, o, m).regs[15] == f.regs[15]
  {
    SwitchKeepsFlat(f, o, m);
  }

  /** Entry leaves the PC with an offset in the link register, from which the architecture's return
      instruction takes the handler back to the interrupted instruction, or on to the next, as the exception
      wants. */
  lemma EntryResumes(e: Env, x: Exception)
    requires e.Valid()
    ensures Enter(e, x).file.regs[14] == e.file.regs[15] + LinkOffset(x, e.psr.thumb)
    ensures Resumes(e.file.regs[15], LinkOffset(x, e.psr.thumb), Adjustment(x), Advance(x, e.psr.thumb))
  {
    hide Resumes, LinkOffset, Adjustment, Advance, Switch, Vector, CpsrRead, ModeOf, Split, Handler;
    SwitchKeepsPc(e.file, e.Mode(), Handler(x));
    LinkReturns(e.file.regs[15], x, e.psr.thumb);
  }

  // ---------------------------------------------------------------- entry, on the architecture's state

  /** The bits that entry decides, and what it makes them. */
  function EntryBits(x: Exception, c: Control): bv32 {
    0x600_fc1f | Disables(x) | (if c.v4t then 0x20 else 0)
  }

  function EntryVal(x: Exception, c: Control): bv32 {
    Encode(Handler(x)) | Disables(x) | (if c.v4t && Bit(c.sys, 0x4000_0000) then 0x20 else 0)
  }

  function EntryWord(cpsr: bv32, x: Exception, c: Control): bv32 {
    Masked(cpsr, EntryVal(x, c), EntryBits(x, c))
  }

  lemma EntryIsWrite(p: Psr, x: Exception, c: Control)
    ensures EntryPsr(p, x, c) == CpsrWrite(p, EntryVal(x, c), EntryBits(x, c))
    ensures Complete(EntryBits(x, c))
  {
  }

  lemma EntryReads(p: Psr, x: Exception, c: Control)
    requires Split(p)
    ensures Split(EntryPsr(p, x, c))
    ensures CpsrRead(EntryPsr(p, x, c)) == EntryWord(CpsrRead(p), x, c)
  {
    hide CpsrRead, CpsrWrite, EntryPsr, EntryVal, EntryBits, Split, Whole;
    EntryIsWrite(p, x, c);
    WriteSplit(p, EntryVal(x, c), EntryBits(x, c));
    WriteThenRead(p, EntryVal(x, c), EntryBits(x, c));
  }

  lemma EntryModeBits(u: bv32, h: bv32, d: bv32)
    ensures h & 0x1f == h && d & 0x1f == 0 ==> ((u & !0x1f) | h | d) & 0x1f == h
  {
  }

  lemma EntryConstants(x: Exception)
    ensures Encode(Handler(x)) & 0x1f == Encode(Handler(x)) && Disables(x) & 0x1f == 0
  {
  }

  lemma EncodedMode(m: Mode, w: bv32)
    requires m != Bad
    ensures w & 0x1f == Encode(m) ==> ModeOf(w) == m
  {
  }

  lemma EntryMode(p: Psr, x: Exception, c: Control)
    ensures ModeOf(EntryPsr(p, x, c).uncached) == Handler(x)
  {
    hide ModeOf, Disables, Encode, Handler;
    EntryConstants(x);
    EntryModeBits(p.uncached, Encode(Handler(x)), Disables(x));
    EncodedMode(Handler(x), EntryPsr(p, x, c).uncached);
  }

  predicate Thumb(cpsr: bv32) {
    cpsr & 0x20 != 0
  }

  lemma ReadThumb(p: Psr)
    requires Split(p)
    ensures Thumb(CpsrRead(p)) == p.thumb
  {
    hide CpsrRead, Split;
    ReadGroups(p);
    assert GroupsOf(CpsrRead(p)).t == p.thumb;
  }

  /** The registers after entry: the word saved in the handler's SPSR, its link register and the PC. */
  function Entered<T>(f: Flat<T>, h: Mode, word: T, link: T, vector: T): (g: Flat<T>)
    requires f.Shaped() && h != Bad
    ensures g.Shaped()
  {
    SetVisible(SetVisible(f.(spsr := f.spsr[Bank(h) := word]), h, 14, link), h, 15, vector)
  }

  function MachineEnter(m: Machine, x: Exception): Machine
    requires m.Valid()
  {
    Machine(Entered(m.flat, Handler(x), m.cpsr, Link(m.flat.pc, x, Thumb(m.cpsr)), Vector(x, m.control, m.Mode())),
            EntryWord(m.cpsr, x, m.control),
            EntryControl(x, m.control, m.Mode()))
  }

  lemma EnterFlat<T>(f: File<T>, h: Mode, word: T, link: T, vector: T)
    requires f.Shaped() && h != Bad
    ensures FlatOf(f.(spsr := word, regs := f.regs[14 := link][15 := vector]), h) == Entered(FlatOf(f, h), h, word, link, vector)
  {
    hide FlatOf, SetVisible, Bank;
    var g := f.(spsr := word);
    WriteSpsrFlat(f, h, word);
    WriteRegFlat(g, h, 14, link);
    var k := g.(regs := g.regs[14 := link]);
    WriteRegFlat(k, h, 15, vector);
    assert k.(regs := k.regs[15 := vector]) == f.(spsr := word, regs := f.regs[14 := link][15 := vector]);
  }

  /** Entry as the architecture describes it: the status word goes to the handler's SPSR and the return
      address to its link register, and no other register of any mode changes but the PC. */
  lemma EnterRefines(e: Env, x: Exception)
    requires e.Valid()
    ensures AbsOf(e).Valid()
    ensures Enter(e, x).Valid() && Enter(e, x).Mode() == Handler(x)
    ensures AbsOf(Enter(e, x)) == MachineEnter(AbsOf(e), x)
  {
    hide FlatOf, Switch, ModeOf, CpsrRead, EntryPsr, EntryWord, Split, Entered, Bank, Handler, Link, Vector, Thumb,
      EntryControl;
    AbsValid(e);
    EntryReads(e.psr, x, e.control);
    EntryMode(e.psr, x, e.control);
    ReadThumb(e.psr);
    SwitchKeepsFlat(e.file, e.Mode(), Handler(x));
    var f := Switch(e.file, e.Mode(), Handler(x));
    FlatPc(f, Handler(x));
    EnterFlat(f, Handler(x), CpsrRead(e.psr), Link(f.regs[15], x, e.psr.thumb), Vector(x, e.control, e.Mode()));
  }

  lemma FlatPc(f: File<bv32>, m: Mode)
    requires f.Shaped() && m != Bad
    ensures FlatOf(f, m).pc == f.regs[15]
  {
  }

  lemma EnteredBank<T>(f: Flat<T>, h: Mode, word: T, link: T, vector: T, b: nat)
    requires f.Shaped() && h != Bad && b < 7
    ensures var g := Entered(f, h, word, link, vector);
            && g.low == f.low && g.usrHigh == f.usrHigh && g.fiqHigh == f.fiqHigh && g.r13 == f.r13 && g.pc == vector
            && g.r14[b] == (if b == Bank(h) then link else f.r14[b])
            && g.spsr[b] == (if b == Bank(h) then word else f.spsr[b])
  {
  }

  /** Entry leaves the interrupted mode its link register and SPSR exactly when the handler has another mode, or what
      they held is what entry puts there. */
  lemma EnterExact(m: Machine, x: Exception)
    requires m.Valid()
    ensures var n, o := MachineEnter(m, x), m.Mode();
            && (Visible(n.flat, o, 14) == Visible(m.flat, o, 14) <==>
                Handler(x) != o || Visible(m.flat, o, 14) == Link(m.flat.pc, x, Thumb(m.cpsr)))
            && (FlatFound(n.flat, o, Spsr) == FlatFound(m.flat, o, Spsr) <==>
                Handler(x) != o || FlatFound(m.flat, o, Spsr) == m.cpsr)
  {
    hide ModeOf, Link, Vector, Thumb, EntryWord, EntryControl, Entered, Handler, Bank;
    BankExact(Handler(x), m.Mode());
    EnteredBank(m.flat, Handler(x), m.cpsr, Link(m.flat.pc, x, Thumb(m.cpsr)), Vector(x, m.control, m.Mode()), Bank(m.Mode()));
  }

  // ---------------------------------------------------------------- entry, by the numbers

  /** The numbers of the modes in the low five bits of a status word. */
  function ModeNumber(m: Mode): bv32
    requires m != Bad
  {
    match m
    case Usr => 16
    case Fiq => 17
    case Irq => 18
    case Svc => 19
    case Smc => 22
    case Abt => 23
    case Und => 27
    case Sys => 31
  }

  lemma ModeExact(w: bv32, m: Mode)
    requires m != Bad
    ensures ModeOf(w) == m <==> w % 32 == ModeNumber(m)
  {
    LowFive(w);
  }

  lemma LowFive(w: bv32)
    ensures (w & 0x1f) as bv5 as bv32 == w % 32
  {
  }

  /** The number of the vector of an exception; 0 is reset and 5 is unused. */
  function VectorNumber(x: Exception): bv32 {
    match x
    case UndefinedInstruction => 1
    case SupervisorCall | MonitorCall => 2
    case Breakpoint | PrefetchAbort => 3
    case DataAbort => 4
    case Interrupt => 6
    case FastInterrupt => 7
  }

  /** The mode that takes it, by its number. */
  function HandlerNumber(x: Exception): bv32 {
    match x
    case FastInterrupt => 17
    case Interrupt => 18
    case SupervisorCall => 19
    case MonitorCall => 22
    case Breakpoint | PrefetchAbort | DataAbort => 23
    case UndefinedInstruction => 27
  }

  // The T, F, I, A and E bits of a status word, and the V and TE bits of SCTLR.

  predicate ThumbSet(w: bv32) {
    w / 0x20 % 2 == 1
  }

  predicate FastSet(w: bv32) {
    w / 0x40 % 2 == 1
  }

  predicate IrqSet(w: bv32) {
    w / 0x80 % 2 == 1
  }

  predicate AbortSet(w: bv32) {
    w / 0x100 % 2 == 1
  }

  predicate EndianSet(w: bv32) {
    w / 0x200 % 2 == 1
  }

  predicate HighVectorsSet(w: bv32) {
    w / 0x2000 % 2 == 1
  }

  predicate ThumbExceptionsSet(w: bv32) {
    w / 0x4000_0000 % 2 == 1
  }

  /** The words before and after entry, field by field: the mode is `mode`, interrupts are masked, fast interrupts and
      asynchronous aborts are masked too or as before, T is `thumb`, the IT bits are clear, and E, GE, J and the flags
      are as before. */
  predicate EntryFields(c: bv32, d: bv32, mode: bv32, fast: bool, aborts: bool, thumb: bool) {
    && d % 32 == mode
    && IrqSet(d)
    && FastSet(d) == (fast || FastSet(c))
    && AbortSet(d) == (aborts || AbortSet(c))
    && ThumbSet(d) == thumb
    && d / 0x400 % 64 == 0 && d / 0x200_0000 % 4 == 0
    && EndianSet(d) == EndianSet(c)
    && d / 0x1_0000 % 0x200 == c / 0x1_0000 % 0x200
    && d / 0x800_0000 == c / 0x800_0000
  }

  /** EntryWord with its parts as parameters: the mode, and the F, A and T bits to set or to take. */
  function Mixed(c: bv32, h: bv32, f: bv32, a: bv32, t: bv32, tv: bv32): bv32 {
    Masked(c, h | (0x80 | f | a) | tv, 0x600_fc1f | (0x80 | f | a) | t)
  }

  predicate Parts(h: bv32, f: bv32, a: bv32, t: bv32, tv: bv32) {
    h < 32 && (f == 0 || f == 0x40) && (a == 0 || a == 0x100) && (t == 0 || t == 0x20) && (tv == 0 || tv == t)
  }

  lemma MixedMode(c: bv32, h: bv32, f: bv32, a: bv32, t: bv32, tv: bv32)
    requires Parts(h, f, a, t, tv)
    ensures Mixed(c, h, f, a, t, tv) % 32 == h
  {
  }

  lemma MixedInterrupts(c: bv32, h: bv32, f: bv32, a: bv32, t: bv32, tv: bv32)
    requires Parts(h, f, a, t, tv)
    ensures IrqSet(Mixed(c, h, f, a, t, tv))
  {
  }

  lemma MixedFast(c: bv32, h: bv32, f: bv32, a: bv32, t: bv32, tv: bv32)
    requires Parts(h, f, a, t, tv)
    ensures FastSet(Mixed(c, h, f, a, t, tv)) == (f != 0 || FastSet(c))
  {
  }

  lemma MixedAborts(c: bv32, h: bv32, f: bv32, a: bv32, t: bv32, tv: bv32)
    requires Parts(h, f, a, t, tv)
    ensures AbortSet(Mixed(c, h, f, a, t, tv)) == (a != 0 || AbortSet(c))
  {
  }

  lemma MixedThumb(c: bv32, h: bv32, f: bv32, a: bv32, t: bv32, tv: bv32)
    requires Parts(h, f, a, t, tv)
    ensures ThumbSet(Mixed(c, h, f, a, t, tv)) == if t == 0 then ThumbSet(c) else tv != 0
  {
  }

  lemma MixedIt(c: bv32, h: bv32, f: bv32, a: bv32, t: bv32, tv: bv32)
    requires Parts(h, f, a, t, tv)
    ensures Mixed(c, h, f, a, t, tv) / 0x400 % 64 == 0 && Mixed(c, h, f, a, t, tv) / 0x200_0000 % 4 == 0
  {
  }

  lemma MixedEndian(c: bv32, h: bv32, f: bv32, a: bv32, t: bv32, tv: bv32)
    requires Parts(h, f, a, t, tv)
    ensures EndianSet(Mixed(c, h, f, a, t, tv)) == EndianSet(c)
  {
  }

  lemma MixedMiddle(c: bv32, h: bv32, f: bv32, a: bv32, t: bv32, tv: bv32)
    requires Parts(h, f, a, t, tv)
    ensures Mixed(c, h, f, a, t, tv) / 0x1_0000 % 0x200 == c / 0x1_0000 % 0x200
  {
  }

  lemma MixedFlags(c: bv32, h: bv32, f: bv32, a: bv32, t: bv32, tv: bv32)
    requires Parts(h, f, a, t, tv)
    ensures Mixed(c, h, f, a, t, tv) / 0x800_0000 == c / 0x800_0000
  {
  }

  lemma MixedFields(c: bv32, h: bv32, f: bv32, a: bv32, t: bv32, tv: bv32)
    requires Parts(h, f, a, t, tv)
    ensures EntryFields(c, Mixed(c, h, f, a, t, tv), h, f != 0, a != 0, if t == 0 then ThumbSet(c) else tv != 0)
  {
    hide Mixed, ThumbSet, FastSet, IrqSet, AbortSet, EndianSet, HighVectorsSet, ThumbExceptionsSet, Parts;
    MixedMode(c, h, f, a, t, tv);
    MixedInterrupts(c, h, f, a, t, tv);
    MixedFast(c, h, f, a, t, tv);
    MixedAborts(c, h, f, a, t, tv);
    MixedThumb(c, h, f, a, t, tv);
    MixedIt(c, h, f, a, t, tv);
    MixedEndian(c, h, f, a, t, tv);
    MixedMiddle(c, h, f, a, t, tv);
    MixedFlags(c, h, f, a, t, tv);
  }

  /** A fast interrupt and a call to the monitor mask fast interrupts. */
  predicate MasksFast(x: Exception) {
    x.FastInterrupt? || x.MonitorCall?
  }

  /** All exceptions but an undefined instruction and a supervisor call mask asynchronous aborts. */
  predicate MasksAborts(x: Exception) {
    !x.UndefinedInstruction? && !x.SupervisorCall?
  }

  lemma HandlerNumbers(x: Exception)
    ensures Encode(Handler(x)) == HandlerNumber(x)
    ensures Disables(x) == 0x80 | (if MasksFast(x) then 0x40 else 0) | (if MasksAborts(x) then 0x100 else 0)
    ensures HandlerNumber(x) < 32
  {
  }

  lemma ThumbBit(sys: bv32)
    ensures Bit(sys, 0x4000_0000) == ThumbExceptionsSet(sys)
  {
  }

  lemma VectorsBit(sys: bv32)
    ensures Bit(sys, 0x2000) == HighVectorsSet(sys)
  {
  }

  lemma EntryWordExact(c: bv32, x: Exception, k: Control)
    ensures EntryFields(c, EntryWord(c, x, k), HandlerNumber(x), MasksFast(x), MasksAborts(x),
                        if k.v4t then ThumbExceptionsSet(k.sys) else ThumbSet(c))
  {
    hide EntryFields, Masked, ThumbSet, FastSet, IrqSet, AbortSet, EndianSet, HighVectorsSet, ThumbExceptionsSet,
      Encode, Handler, Disables, HandlerNumber, Bit;
    HandlerNumbers(x);
    ThumbBit(k.sys);
    var f: bv32 := if MasksFast(x) then 0x40 else 0;
    var a: bv32 := if MasksAborts(x) then 0x100 else 0;
    var t: bv32 := if k.v4t then 0x20 else 0;
    var tv: bv32 := if k.v4t && ThumbExceptionsSet(k.sys) then 0x20 else 0;
    MixedFields(c, HandlerNumber(x), f, a, t, tv);
    assert EntryWord(c, x, k) == Mixed(c, HandlerNumber(x), f, a, t, tv);
  }

  /** Where the vectors are: at MVBAR to and from Monitor mode, at the top of memory with SCTLR.V, at VBAR with the
      security extensions, and at 0 otherwise. */
  function VectorTable(k: Control, monitor: bool): bv32 {
    if k.trustzone && monitor then k.mvbar
    else if HighVectorsSet(k.sys) then 0xffff_0000
    else if k.trustzone then k.vbar
    else 0
  }

  lemma VectorTableExact(x: Exception, k: Control, from: Mode)
    ensures VectorBase(k, from, Handler(x)) == VectorTable(k, x.MonitorCall? || from == Smc)
  {
    hide Bit, ThumbSet, FastSet, IrqSet, AbortSet, EndianSet, HighVectorsSet, ThumbExceptionsSet;
    VectorsBit(k.sys);
  }

  /** Vector `number` of a table of four-byte vectors. */
  function VectorAt(table: bv32, number: bv32): bv32 {
    table + 4 * number
  }

  lemma VectorOffsets(x: Exception, table: bv32)
    ensures Placed(VectorOffset(x), table) == VectorAt(table, VectorNumber(x))
  {
    hide VectorOffset, VectorNumber, Placed, VectorAt;
    VectorNumbers(x);
    OffsetBits(VectorOffset(x), VectorNumber(x), table);
  }

  lemma VectorNumbers(x: Exception)
    ensures VectorOffset(x) == 4 * VectorNumber(x)
  {
  }

  lemma OffsetBits(offset: bv32, number: bv32, table: bv32)
    requires offset == 4 * number
    ensures Placed(offset, table) == VectorAt(table, number)
  {
  }

  lemma VectorExact(x: Exception, k: Control, from: Mode)
    ensures Vector(x, k, from) == VectorAt(VectorTable(k, x.MonitorCall? || from == Smc), VectorNumber(x))
  {
    hide VectorOffset, VectorNumber, VectorAt, VectorBase, VectorTable, Placed;
    VectorTableExact(x, k, from);
    VectorOffsets(x, VectorTable(k, x.MonitorCall? || from == Smc));
  }

  /** The word on entry, by the numbers of the architecture. */
  lemma EntryWordFields(e: Env, x: Exception)
    requires e.Valid()
    ensures var c, k := CpsrRead(e.psr), e.control;
            EntryFields(c, CpsrRead(Enter(e, x).psr), HandlerNumber(x), MasksFast(x), MasksAborts(x),
                        if k.v4t then ThumbExceptionsSet(k.sys) else ThumbSet(c))
  {
    hide EntryFields, CpsrRead, EntryPsr, EntryWord, Switch, Vector, Link, HandlerNumber, Split, ThumbSet, FastSet,
      IrqSet, AbortSet, EndianSet, HighVectorsSet, ThumbExceptionsSet, ModeOf;
    EntryReads(e.psr, x, e.control);
    EntryWordExact(CpsrRead(e.psr), x, e.control);
  }

  predicate FromMonitor(e: Env) {
    CpsrRead(e.psr) % 32 == 22
  }

  lemma MonitorExact(e: Env)
    ensures FromMonitor(e) <==> e.Mode() == Smc
  {
    hide ModeOf, CpsrRead;
    ReadMode(e.psr);
    ModeExact(CpsrRead(e.psr), Smc);
  }

  /** The vector taken, by number, and the two side effects on system registers. */
  lemma EntryVector(e: Env, x: Exception)
    requires e.Valid()
    ensures Enter(e, x).file.regs[15] == VectorAt(VectorTable(e.control, x.MonitorCall? || FromMonitor(e)), VectorNumber(x))
    ensures Enter(e, x).control.insnFault == if x.Breakpoint? then 2 else e.control.insnFault
    ensures Enter(e, x).control.scr == if x.MonitorCall? && FromMonitor(e) then Even(e.control.scr) else e.control.scr
  {
    hide CpsrRead, EntryPsr, Switch, Vector, Link, VectorTable, VectorAt, VectorNumber, Split, ModeOf, FromMonitor,
      Even, Secure;
    VectorExact(x, e.control, e.Mode());
    MonitorExact(e);
    SecureBit(e.control.scr);
  }

  /** The greatest even number not above it. */
  function Even(x: bv32): bv32 {
    x - x % 2
  }

  lemma SecureBit(scr: bv32)
    ensures Secure(scr) == Even(scr)
  {
    SecureBits(scr);
  }

  lemma SecureBits(scr: bv32)
    ensures scr & !1 == scr - scr % 2
  {
  }

  // ---------------------------------------------------------------- return

  const ALL_BITS: bv32 := 0xffff_ffff

  /** cpsr_write(spsr, 0xffffffff). */
  function Return(e: Env): Env
    requires e.Valid()
  {
    Write(e, e.file.spsr, ALL_BITS)
  }

  function MachineReturn(m: Machine): Machine
    requires m.Valid()
  {
    MachineWrite(m, m.flat.spsr[Bank(m.Mode())], ALL_BITS)
  }

  lemma AllBits()
    ensures Complete(ALL_BITS) && WholeMode(ALL_BITS)
  {
  }

  lemma ReturnRefines(e: Env)
    requires e.Valid()
    ensures AbsOf(e).Valid()
    ensures Return(e).Valid() && AbsOf(Return(e)) == MachineReturn(AbsOf(e))
  {
    hide ModeOf, CpsrRead, Split, Write, WriteWord, Complete, WholeMode, Bank;
    AbsValid(e);
    AllBits();
    RegsAreVisible(e.file, e.Mode(), 0);
    WriteRefines(e, e.file.spsr, ALL_BITS);
  }

  lemma AllMasked(c: bv32, val: bv32)
    ensures (c & !0xffff_ffff) | (val & 0xffff_ffff) == val
  {
  }

  lemma ReturnWord(c: bv32, val: bv32)
    ensures Permitted(ModeOf(val)) ==> WriteWord(c, val, ALL_BITS) == val
  {
    hide ModeOf;
    AllMasked(c, val);
  }

  lemma ModeKept(c: bv32, val: bv32)
    ensures (c & !(0xffff_ffff & !0x1f)) | (val & (0xffff_ffff & !0x1f)) == val <==> c & 0x1f == val & 0x1f
  {
  }

  /** Returning restores the interrupted status word exactly when it can be asked for by a write, or
      nothing need be asked: not from another mode back to Monitor mode. */
  lemma ReturnExact(c: bv32, val: bv32)
    requires ModeOf(c) != Bad && ModeOf(val) != Bad
    ensures WriteWord(c, val, ALL_BITS) == val <==> ModeOf(val) != Smc || ModeOf(c) == Smc
  {
    hide ModeOf;
    ReturnWord(c, val);
    SameModeSameBits(c, val);
    ModeKept(c, val);
  }
}
