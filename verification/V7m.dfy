/** M-profile exceptions: the frame that entry pushes and return pops, on either stack, with the
    stack alignment adjustment, and with the Thumb bit kept in the stacked PC. */
module V7m {
  import Cpsr

  // ---------------------------------------------------------------- program status

  /** The flags as the CPU keeps them: N is bit 31 of nf, V bit 31 of vf, Z is set when zf is zero. */
  datatype Psr = Psr(nf: bv32, zf: bv32, cf: bool, vf: bv32, qf: bool, thumb: bool, condexec: bv8, exception: bv9)

  /** xpsr_read. */
  function XpsrRead(p: Psr): bv32 {
    XpsrWord(Sign(p.nf), p.zf == 0, p.cf, Sign(p.vf), p.qf, p.thumb, p.condexec, p.exception)
  }

  function XpsrWord(n: bv32, z: bool, c: bool, v: bv32, q: bool, t: bool, it: bv8, exception: bv9): bv32 {
    n | Cpsr.Flag(z, 30) | Cpsr.Flag(c, 29) | (v >> 3) | Cpsr.Flag(q, 27) | Cpsr.Flag(t, 24)
    | ((it & 3) as bv32 << 25) | ((it & 0xfc) as bv32 << 8) | (exception as bv32)
  }

  function Sign(x: bv32): bv32 {
    x & 0x8000_0000
  }

  /** xpsr_write under the mask 0xfffffdff that exception return uses: every field but bit 9. */
  function XpsrWrite(val: bv32): Psr {
    Psr(val, !val & 0x4000_0000, (val >> 29) & 1 != 0, (val << 3) & 0x8000_0000, val & 0x800_0000 != 0,
        val & 0x100_0000 != 0, (((val >> 25) & 3) | ((val >> 8) & 0xfc)) as bv8, (val & 0x1ff) as bv9)
  }

  /** The same program status: what can be read of it. */
  predicate SamePsr(p: Psr, q: Psr) {
    && Sign(p.nf) == Sign(q.nf) && (p.zf == 0) == (q.zf == 0) && Sign(p.vf) == Sign(q.vf)
    && p == q.(nf := p.nf, zf := p.zf, vf := p.vf)
  }

  lemma SamePsrReads(p: Psr, q: Psr)
    requires SamePsr(p, q)
    ensures XpsrRead(p) == XpsrRead(q)
  {
    hide XpsrWord, Sign;
  }

  predicate Stacked(p: Psr, x: bv32) {
    x == XpsrRead(p) || x == XpsrRead(p) | 0x200
  }

  lemma WriteSigns(p: Psr, x: bv32)
    requires Stacked(p, x)
    ensures Sign(XpsrWrite(x).nf) == Sign(p.nf) && Sign(XpsrWrite(x).vf) == Sign(p.vf)
  {
  }

  lemma WriteFlags(p: Psr, x: bv32)
    requires Stacked(p, x)
    ensures (XpsrWrite(x).zf == 0) == (p.zf == 0) && XpsrWrite(x).cf == p.cf && XpsrWrite(x).qf == p.qf
    ensures XpsrWrite(x).thumb == p.thumb
  {
  }

  lemma WriteCondexec(p: Psr, x: bv32)
    requires Stacked(p, x)
    ensures XpsrWrite(x).condexec == p.condexec
  {
  }

  lemma WriteException(p: Psr, x: bv32)
    requires Stacked(p, x)
    ensures XpsrWrite(x).exception == p.exception
  {
  }

  /** Writing back a stacked xPSR restores the program status, whatever its alignment bit. */
  lemma WriteRead(p: Psr, x: bv32)
    requires Stacked(p, x)
    ensures SamePsr(XpsrWrite(x), p)
  {
    hide XpsrWrite, Sign, Stacked;
    WriteSigns(p, x);
    WriteFlags(p, x);
    WriteCondexec(p, x);
    WriteException(p, x);
  }

  function AlignmentFlag(xpsr: bv32, misaligned: bool): bv32 {
    if misaligned then xpsr | 0x200 else xpsr
  }

  predicate HasAlignmentFlag(xpsr: bv32) {
    xpsr & 0x200 != 0
  }

  lemma AlignmentBit(p: Psr, misaligned: bool)
    ensures HasAlignmentFlag(AlignmentFlag(XpsrRead(p), misaligned)) == misaligned
  {
  }

  lemma FlagIsStacked(p: Psr, misaligned: bool)
    ensures Stacked(p, AlignmentFlag(XpsrRead(p), misaligned))
  {
    hide XpsrRead;
  }

  // ---------------------------------------------------------------- the machine

  type Address = a: int | 0 <= a < 0x1_0000_0000

  /** Word-addressed guest memory. */
  type Memory = map<Address, bv32>

  function Ldl(mem: Memory, a: Address): bv32 {
    if a in mem then mem[a] else 0
  }

  function Wrap(a: int): Address {
    a % 0x1_0000_0000
  }

  datatype Cpu = Cpu(
    r0: bv32, r1: bv32, r2: bv32, r3: bv32,
    saved: seq<bv32>,  // r4 to r11
    r12: bv32,
    sp: Address,       // regs[13]
    lr: bv32,          // regs[14]
    pc: bv32,          // regs[15]
    psr: Psr,
    process: bool,     // v7m.current_sp: the process stack is active
    otherSp: Address,  // v7m.other_sp
    vecbase: Address,
    mem: Memory
  )

  /** v7m_push. */
  function Push(c: Cpu, v: bv32): Cpu {
    c.(sp := Wrap(c.sp - 4), mem := c.mem[Wrap(c.sp - 4) := v])
  }

  function PushAll(c: Cpu, vs: seq<bv32>): Cpu
    decreases |vs|
  {
    if vs == [] then c else PushAll(Push(c, vs[0]), vs[1..])
  }

  /** switch_v7m_sp. */
  function SwitchSp(c: Cpu, process: bool): Cpu {
    if c.process != process then c.(sp := c.otherSp, otherSp := c.sp, process := process) else c
  }

  /** sp & 4. */
  predicate Misaligned(sp: Address) {
    sp / 4 % 2 == 1
  }

  /** The stack pointer that the frame is pushed from. */
  function AlignedSp(sp: Address): Address {
    if Misaligned(sp) then Wrap(sp - 4) else sp
  }

  /** sp | 4. */
  function Or4(sp: Address): Address {
    if Misaligned(sp) then sp else Wrap(sp + 4)
  }

  /** The EXC_RETURN value that entry leaves in the link register. */
  function ExcReturn(process: bool, thread: bool): bv32 {
    0xffff_fff1 | (if process then 4 else 0) | (if thread then 8 else 0)
  }

  /** Bit 2 of an EXC_RETURN value: return to the process stack. */
  predicate ToProcess(value: bv32) {
    value & 4 != 0
  }

  function StackedPc(pc: bv32, thumb: bool): bv32 {
    pc | (if thumb then 1 else 0)
  }

  function ClearBit0(x: bv32): bv32 {
    x & 0xffff_fffe
  }

  /** The words of a frame, in the order they are pushed. */
  function FrameOf(c: Cpu): seq<bv32> {
    [AlignmentFlag(XpsrRead(c.psr), Misaligned(c.sp)), StackedPc(c.pc, c.psr.thumb), c.lr, c.r12, c.r3, c.r2, c.r1, c.r0]
  }

  /** arm_v7m_cpu_do_interrupt for an acknowledged interrupt. */
  function Entry(c: Cpu, irq: bv9): Cpu {
    var lr := ExcReturn(c.process, c.psr.exception == 0);
    var aligned := c.(psr := c.psr.(exception := irq), sp := AlignedSp(c.sp));
    var pushed := SwitchSp(PushAll(aligned, FrameOf(c)), false);
    Jump(pushed, lr, Ldl(pushed.mem, Wrap(pushed.vecbase + 4 * irq as int)))
  }

  /** The jump to the handler. */
  function Jump(c: Cpu, lr: bv32, vector: bv32): Cpu {
    c.(lr := lr, pc := ClearBit0(vector), psr := c.psr.(condexec := 0, thumb := HasBit0(vector)))
  }

  predicate HasBit0(x: bv32) {
    x & 1 != 0
  }

  /** The k-th word above the stack pointer. */
  function Word(c: Cpu, k: nat): bv32 {
    Ldl(c.mem, Wrap(c.sp + 4 * k))
  }

  /** do_v7m_exception_exit, after the NVIC has been told. */
  function Exit(c: Cpu): Cpu {
    var d := SwitchSp(c, ToProcess(c.pc));
    var xpsr := Word(d, 7);
    var sp := Wrap(d.sp + 32);
    d.(r0 := Word(d, 0), r1 := Word(d, 1), r2 := Word(d, 2), r3 := Word(d, 3), r12 := Word(d, 4), lr := Word(d, 5),
       pc := ClearBit0(Word(d, 6)), psr := XpsrWrite(xpsr), sp := if HasAlignmentFlag(xpsr) then Or4(sp) else sp)
  }

  // ---------------------------------------------------------------- one entry and one return

  lemma WrapTwice(a: int, b: int)
    ensures Wrap(Wrap(a) + b) == Wrap(a + b)
  {
  }

  /** The i-th word pushed from a stack pointer. */
  function Below(sp: int, i: int): Address {
    Wrap(sp - 4 * i - 4)
  }

  lemma BelowNext(sp: Address, i: int)
    ensures Below(Below(sp, 0), i) == Below(sp, i + 1)
  {
    hide Wrap;
    WrapTwice(sp - 4, -4 * i - 4);
    assert Below(sp, 0) == Wrap(sp - 4);
  }

  lemma BelowDistinct(sp: int, j: nat, k: nat)
    requires j < k < 0x4000_0000
    ensures Below(sp, j) != Below(sp, k)
  {
  }

  lemma {:induction false} PushAllSp(c: Cpu, vs: seq<bv32>)
    ensures PushAll(c, vs) == c.(sp := Wrap(c.sp - 4 * |vs|), mem := PushAll(c, vs).mem)
    decreases |vs|
  {
    if vs != [] {
      PushAllSp(Push(c, vs[0]), vs[1..]);
      WrapTwice(c.sp - 4, -4 * |vs[1..]|);
    }
  }

  /** The first word pushed lies highest. */
  lemma {:induction false} PushAllWord(c: Cpu, vs: seq<bv32>, i: nat)
    requires i < |vs| < 0x4000_0000
    ensures Ldl(PushAll(c, vs).mem, Below(c.sp, i)) == vs[i]
    decreases |vs|
  {
    var d := Push(c, vs[0]);
    if i == 0 {
      forall j: nat | j < |vs[1..]| ensures Below(c.sp, 0) != Below(d.sp, j) {
        BelowNext(c.sp, j);
        BelowDistinct(c.sp, 0, j + 1);
      }
      PushAllElsewhere(d, vs[1..], Below(c.sp, 0));
    } else {
      BelowNext(c.sp, i - 1);
      PushAllWord(d, vs[1..], i - 1);
    }
  }

  lemma {:induction false} PushAllElsewhere(c: Cpu, vs: seq<bv32>, a: Address)
    requires forall j: nat :: j < |vs| ==> a != Below(c.sp, j)
    ensures Ldl(PushAll(c, vs).mem, a) == Ldl(c.mem, a)
    decreases |vs|
  {
    if vs != [] {
      var d := Push(c, vs[0]);
      assert a != Below(c.sp, 0);
      forall j: nat | j < |vs[1..]| ensures a != Below(d.sp, j) {
        BelowNext(c.sp, j);
        assert j + 1 < |vs|;
      }
      PushAllElsewhere(d, vs[1..], a);
    }
  }

  /** Word `k` of the frame of an interrupted CPU, counted from its lowest address. */
  function Slot(c: Cpu, k: int): Address {
    Wrap(AlignedSp(c.sp) - 32 + 4 * k)
  }

  lemma SlotIsBelow(c: Cpu, k: int)
    ensures Slot(c, k) == Below(AlignedSp(c.sp), 7 - k)
  {
  }

  /** The frame of an interrupted CPU is in memory. */
  ghost predicate Holds(mem: Memory, c: Cpu) {
    forall k :: 0 <= k < 8 ==> Ldl(mem, Slot(c, k)) == FrameOf(c)[7 - k]
  }

  predicate InFrame(c: Cpu, a: Address) {
    exists k :: 0 <= k < 8 && a == Slot(c, k)
  }

  /** Entry saves the frame and changes no other memory. */
  lemma EntryFrame(c: Cpu, irq: bv9)
    ensures Holds(Entry(c, irq).mem, c)
    ensures forall a: Address :: !InFrame(c, a) ==> Ldl(Entry(c, irq).mem, a) == Ldl(c.mem, a)
  {
    hide XpsrRead, StackedPc, AlignmentFlag, ExcReturn, ClearBit0, Wrap, Misaligned;
    var d := c.(psr := c.psr.(exception := irq), sp := AlignedSp(c.sp));
    var vs := FrameOf(c);
    assert Entry(c, irq).mem == PushAll(d, vs).mem;
    forall k | 0 <= k < 8 ensures Ldl(PushAll(d, vs).mem, Slot(c, k)) == vs[7 - k] {
      SlotIsBelow(c, k);
      PushAllWord(d, vs, 7 - k);
    }
    forall a: Address | !InFrame(c, a) ensures Ldl(PushAll(d, vs).mem, a) == Ldl(c.mem, a) {
      forall j: nat | j < |vs| ensures a != Below(d.sp, j) {
        SlotIsBelow(c, 7 - j);
      }
      PushAllElsewhere(d, vs, a);
    }
  }

  /** After entry the main stack is active; the frame lies at the top of the stack that was. */
  lemma EntryStacks(c: Cpu, irq: bv9)
    ensures var e := Entry(c, irq);
            && !e.process && e.saved == c.saved && e.vecbase == c.vecbase
            && e.lr == ExcReturn(c.process, c.psr.exception == 0)
            && (if c.process then e.otherSp == Slot(c, 0) && e.sp == c.otherSp
                else e.sp == Slot(c, 0) && e.otherSp == c.otherSp)
  {
    hide XpsrRead, StackedPc, AlignmentFlag, ExcReturn, ClearBit0, Misaligned;
    PushAllSp(c.(psr := c.psr.(exception := irq), sp := AlignedSp(c.sp)), FrameOf(c));
  }

  // ---------------------------------------------------------------- the architecture's layout

  /** The fields of the status word: flags from bit 31 down to 27, IT split in two, T at bit 24, the exception number. */
  predicate XpsrFields(x: bv32, p: Psr) {
    && (x / 0x8000_0000 == 1 <==> p.nf / 0x8000_0000 == 1)
    && (x / 0x4000_0000 % 2 == 1 <==> p.zf == 0)
    && (x / 0x2000_0000 % 2 == 1 <==> p.cf)
    && (x / 0x1000_0000 % 2 == 1 <==> p.vf / 0x8000_0000 == 1)
    && (x / 0x800_0000 % 2 == 1 <==> p.qf)
    && x / 0x200_0000 % 4 == (p.condexec % 4) as bv32
    && (x / 0x100_0000 % 2 == 1 <==> p.thumb)
    && x / 0x400 % 64 == (p.condexec / 4) as bv32
    && x % 0x200 == p.exception as bv32
    && x / 0x200 % 2 == 0 && x / 0x1_0000 % 0x100 == 0
  }

  lemma XpsrReads(p: Psr)
    ensures XpsrFields(XpsrRead(p), p)
  {
  }

  /** An address with the Thumb bit. */
  function PcWord(pc: bv32, thumb: bool): bv32 {
    if thumb then pc - pc % 2 + 1 else pc
  }

  lemma PcWords(pc: bv32, thumb: bool)
    ensures StackedPc(pc, thumb) == PcWord(pc, thumb)
  {
  }

  /** A status word with bit 9, which is clear before. */
  function StatusWord(x: bv32, misaligned: bool): bv32 {
    if misaligned then x + 0x200 else x
  }

  lemma StatusWords(p: Psr, misaligned: bool)
    ensures AlignmentFlag(XpsrRead(p), misaligned) == StatusWord(XpsrRead(p), misaligned)
  {
    hide XpsrRead;
    XpsrReads(p);
    Bit9(XpsrRead(p));
  }

  lemma Bit9(x: bv32)
    requires x / 0x200 % 2 == 0
    ensures x | 0x200 == x + 0x200
  {
  }

  /** The frame by address: r0 to r3, r12, the link register, the PC with the Thumb bit and the status word with its
      alignment bit, upwards from `base`. */
  predicate FrameAt(mem: Memory, base: int, c: Cpu) {
    && Ldl(mem, Wrap(base)) == c.r0 && Ldl(mem, Wrap(base + 4)) == c.r1
    && Ldl(mem, Wrap(base + 8)) == c.r2 && Ldl(mem, Wrap(base + 12)) == c.r3
    && Ldl(mem, Wrap(base + 16)) == c.r12 && Ldl(mem, Wrap(base + 20)) == c.lr
    && Ldl(mem, Wrap(base + 24)) == PcWord(c.pc, c.psr.thumb)
    && Ldl(mem, Wrap(base + 28)) == StatusWord(XpsrRead(c.psr), c.sp / 4 % 2 == 1)
  }

  /** The frame lies below the stack pointer, aligned down to eight bytes. */
  lemma EntryLayout(c: Cpu, irq: bv9)
    requires c.sp % 4 == 0
    ensures FrameAt(Entry(c, irq).mem, c.sp - c.sp % 8 - 32, c)
  {
    hide XpsrRead, ExcReturn, ClearBit0, Wrap, Entry, StackedPc, AlignmentFlag, PcWord, StatusWord, AlignedSp;
    EntryFrame(c, irq);
    AlignedDown(c.sp);
    PcWords(c.pc, c.psr.thumb);
    StatusWords(c.psr, Misaligned(c.sp));
    var base := c.sp - c.sp % 8 - 32;
    assert Slot(c, 0) == Wrap(base) && Slot(c, 1) == Wrap(base + 4);
    assert Slot(c, 2) == Wrap(base + 8) && Slot(c, 3) == Wrap(base + 12);
    assert Slot(c, 4) == Wrap(base + 16) && Slot(c, 5) == Wrap(base + 20);
    assert Slot(c, 6) == Wrap(base + 24) && Slot(c, 7) == Wrap(base + 28);
  }

  lemma AlignedDown(sp: Address)
    requires sp % 4 == 0
    ensures AlignedSp(sp) == sp - sp % 8
  {
  }

  /** The EXC_RETURN values: Handler mode, Thread mode on the main stack, Thread mode on the process stack; and a fourth
      for a handler on the process stack. */
  lemma ExcReturnValues(process: bool, thread: bool)
    ensures ExcReturn(process, thread) ==
            if thread then (if process then 0xffff_fffd else 0xffff_fff9) else (if process then 0xffff_fff5 else 0xffff_fff1)
  {
  }

  /** A vector without its low bit, and that bit. */
  function EvenPart(vector: bv32): bv32 {
    vector - vector % 2
  }

  predicate IsOdd(vector: bv32) {
    vector % 2 == 1
  }

  lemma ThumbBits(vector: bv32)
    ensures ClearBit0(vector) == EvenPart(vector)
  {
    EvenBits(vector);
  }

  lemma EvenBits(x: bv32)
    ensures x & 0xffff_fffe == x - x % 2
  {
  }

  lemma OddBits(vector: bv32)
    ensures HasBit0(vector) == IsOdd(vector)
  {
  }

  /** The handler's PC and Thumb bit are the word of its number in the vector table, which it finds as it was unless the
      frame was pushed there; the exception number is new, the IT bits are clear, and the rest is as it was. */
  lemma EntryJumps(c: Cpu, irq: bv9)
    ensures var e := Entry(c, irq);
            var slot := Wrap(c.vecbase + 4 * irq as int);
            var vector := Ldl(e.mem, slot);
            && e.pc == EvenPart(vector) && e.psr == c.psr.(exception := irq, condexec := 0, thumb := IsOdd(vector))
            && e.r0 == c.r0 && e.r1 == c.r1 && e.r2 == c.r2 && e.r3 == c.r3 && e.r12 == c.r12
            && (!InFrame(c, slot) ==> vector == Ldl(c.mem, slot))
  {
    EntryFrame(c, irq);
    hide FrameOf, ExcReturn, Misaligned, Wrap, Ldl, InFrame, Holds, ClearBit0, HasBit0, EvenPart, IsOdd;
    var aligned := c.(psr := c.psr.(exception := irq), sp := AlignedSp(c.sp));
    PushAllSp(aligned, FrameOf(c));
    var vector := Ldl(PushAll(aligned, FrameOf(c)).mem, Wrap(c.vecbase + 4 * irq as int));
    ThumbBits(vector);
    OddBits(vector);
  }

  // ---------------------------------------------------------------- one return

  predicate Even(pc: bv32) {
    pc & 1 == 0
  }

  /** An executing CPU: the PC without the Thumb bit, and word aligned stacks. */
  predicate Ok(c: Cpu) {
    Even(c.pc) && c.sp % 4 == 0 && c.otherSp % 4 == 0
  }

  lemma PcBits(pc: bv32, thumb: bool)
    requires Even(pc)
    ensures ClearBit0(StackedPc(pc, thumb)) == pc
  {
  }

  lemma SlotFromBase(c: Cpu, k: int)
    ensures Wrap(Slot(c, 0) + 4 * k) == Slot(c, k)
  {
    hide Wrap, AlignedSp;
    WrapTwice(AlignedSp(c.sp) - 32, 4 * k);
  }

  lemma UnstackedSp(c: Cpu)
    requires c.sp % 4 == 0
    ensures Wrap(Slot(c, 0) + 32) == AlignedSp(c.sp)
    ensures Misaligned(c.sp) ==> Or4(AlignedSp(c.sp)) == c.sp
  {
    if Misaligned(c.sp) {
      assert 4 <= c.sp && AlignedSp(c.sp) == c.sp - 4;
      assert !Misaligned(c.sp - 4);
    }
    hide Wrap, Misaligned;
    SlotFromBase(c, 8);
    WrapAddress(AlignedSp(c.sp));
  }

  /** Everything that the interrupted code can see of the CPU is as it was. */
  ghost predicate Restored(c: Cpu, u: Cpu) {
    SamePsr(u.psr, c.psr) && u == c.(psr := u.psr, mem := u.mem, vecbase := u.vecbase)
  }

  /** The stacks are as entry left them, and bit 2 of the PC says which one to return to. */
  ghost predicate ReadyToReturn(c: Cpu, t: Cpu) {
    && !t.process && ToProcess(t.pc) == c.process && t.saved == c.saved
    && (if c.process then t.otherSp == Slot(c, 0) && t.sp == c.otherSp
        else t.sp == Slot(c, 0) && t.otherSp == c.otherSp)
  }

  /** The words above the base of an intact frame are the registers it saved. */
  lemma FrameWords(c: Cpu, d: Cpu, k: nat)
    requires Holds(d.mem, c) && d.sp == Slot(c, 0) && k < 8
    ensures Word(d, k) == FrameOf(c)[7 - k]
  {
    hide FrameOf, Slot, Wrap;
    FrameHasEight(c);
    SlotFromBase(c, k);
  }

  lemma FrameHasEight(c: Cpu)
    ensures |FrameOf(c)| == 8
  {
  }

  /** The stack pointer and the program status come back from a stacked xPSR. */
  lemma UnstackedXpsr(c: Cpu)
    requires c.sp % 4 == 0
    ensures var xpsr := AlignmentFlag(XpsrRead(c.psr), Misaligned(c.sp));
            var sp := Wrap(Slot(c, 0) + 32);
            && SamePsr(XpsrWrite(xpsr), c.psr)
            && (if HasAlignmentFlag(xpsr) then Or4(sp) else sp) == c.sp
  {
    hide XpsrRead, XpsrWrite, AlignmentFlag, HasAlignmentFlag, Stacked, SamePsr, Slot, Or4, Wrap, AlignedSp, Misaligned;
    UnstackedSp(c);
    UnalignedSp(c);
    AlignmentBit(c.psr, Misaligned(c.sp));
    FlagIsStacked(c.psr, Misaligned(c.sp));
    WriteRead(c.psr, AlignmentFlag(XpsrRead(c.psr), Misaligned(c.sp)));
  }

  lemma SwitchedBack(c: Cpu, t: Cpu)
    requires ReadyToReturn(c, t)
    ensures SwitchSp(t, c.process) == t.(sp := Slot(c, 0), otherSp := c.otherSp, process := c.process)
  {
    hide Slot, ToProcess;
  }

  /** Return from a state in which the frame is intact restores the interrupted CPU. */
  lemma ExitRestores(c: Cpu, t: Cpu)
    requires Ok(c) && Holds(t.mem, c) && ReadyToReturn(c, t)
    ensures Restored(c, Exit(t))
  {
    hide XpsrRead, XpsrWrite, StackedPc, AlignmentFlag, HasAlignmentFlag, ClearBit0, Even, Wrap, Misaligned, ToProcess,
      SamePsr, Slot, Or4, Holds, Word, SwitchSp;
    SwitchedBack(c, t);
    var d := SwitchSp(t, c.process);
    FrameWords(c, d, 0);
    FrameWords(c, d, 1);
    FrameWords(c, d, 2);
    FrameWords(c, d, 3);
    FrameWords(c, d, 4);
    FrameWords(c, d, 5);
    FrameWords(c, d, 6);
    FrameWords(c, d, 7);
    PcBits(c.pc, c.psr.thumb);
    UnstackedXpsr(c);
  }

  lemma UnalignedSp(c: Cpu)
    ensures !Misaligned(c.sp) ==> AlignedSp(c.sp) == c.sp
  {
  }

  // ---------------------------------------------------------------- the CPU

  /** Calls to the interrupt controller. */
  datatype NvicCall = SetPending(number: nat) | Acknowledge(irq: bv9) | Complete(irq: bv9)

  datatype Cause = Udef | Swi | PrefetchAbort | DataAbort | Bkpt | Irq(n: bv9) | ExceptionExit

  /** Faults and calls are only marked pending; this is the exception number each is marked as. */
  function PendingNumber(cause: Cause): nat {
    match cause
    case Udef => 6
    case Swi => 11
    case PrefetchAbort | DataAbort => 4
    case _ => 12
  }

  /** The CPU state that the exception code updates in place, and the calls it makes to the NVIC. */
  class V7mCpu {
    var env: Cpu
    var nvic: seq<NvicCall>

    method PushWord(v: bv32)
      modifies `env
      ensures env == Push(old(env), v)
    {
      env := env.(sp := Wrap(env.sp - 4));
      env := env.(mem := env.mem[env.sp := v]);
    }

    method PopWord() returns (v: bv32)
      modifies `env
      ensures v == Ldl(old(env.mem), old(env.sp)) && env == old(env).(sp := Wrap(old(env.sp) + 4))
    {
      v := Ldl(env.mem, env.sp);
      env := env.(sp := Wrap(env.sp + 4));
    }

    method SwitchStack(process: bool)
      modifies `env
      ensures env == SwitchSp(old(env), process)
    {
      if env.process != process {
        var tmp := env.otherSp;
        env := env.(otherSp := env.sp);
        env := env.(sp := tmp, process := process);
      }
    }

    /** The eight pops of exception return, lowest word first. */
    method PopFrame() returns (w: seq<bv32>)
      modifies `env
      ensures |w| == 8 && forall k :: 0 <= k < 8 ==> w[k] == Word(old(env), k)
      ensures env == old(env).(sp := Wrap(old(env.sp) + 32))
    {
      hide Ldl, Wrap;
      WrapAddress(env.sp);
      w := [];
      while |w| < 8
        invariant |w| <= 8 && env == old(env).(sp := Wrap(old(env.sp) + 4 * |w|))
        invariant forall k :: 0 <= k < |w| ==> w[k] == Word(old(env), k)
      {
        WrapTwice(old(env.sp) + 4 * |w|, 4);
        var v := PopWord();
        w := w + [v];
      }
    }

    /** do_v7m_exception_exit. */
    method DoExceptionExit()
      modifies this
      ensures env == Exit(old(env))
      ensures nvic == old(nvic) + (if old(env.psr.exception) != 0 then [Complete(old(env.psr.exception))] else [])
    {
      hide XpsrWrite, ClearBit0, HasAlignmentFlag, ToProcess, Or4, Wrap, Word, SwitchSp;
      var exception := env.psr.exception;
      if exception != 0 {
        nvic := nvic + [Complete(exception)];
      }
      SwitchStack(ToProcess(env.pc));
      var w := PopFrame();
      env := env.(r0 := w[0], r1 := w[1], r2 := w[2], r3 := w[3], r12 := w[4], lr := w[5], pc := ClearBit0(w[6]));
      env := env.(psr := XpsrWrite(w[7]));
      if HasAlignmentFlag(w[7]) {
        env := env.(sp := Or4(env.sp));
      }
    }

    /** The eight pushes of exception entry. */
    method PushFrame(vs: seq<bv32>)
      requires |vs| == 8
      modifies `env
      ensures env == PushAll(old(env), vs)
    {
      hide Push;
      var i := 0;
      while i < 8
        invariant 0 <= i <= 8
        invariant PushAll(env, vs[i..]) == PushAll(old(env), vs)
      {
        assert vs[i..][1..] == vs[i + 1..];
        PushWord(vs[i]);
        i := i + 1;
      }
    }

    /** arm_v7m_cpu_do_interrupt. */
    method DoInterrupt(cause: Cause)
      modifies this
      ensures cause.Irq? ==> env == Entry(old(env), cause.n) && nvic == old(nvic) + [Acknowledge(cause.n)]
      ensures cause.ExceptionExit? ==>
        && env == Exit(old(env))
        && nvic == old(nvic) + (if old(env.psr.exception) != 0 then [Complete(old(env.psr.exception))] else [])
      ensures !cause.Irq? && !cause.ExceptionExit? ==>
        && env == old(env)
        && nvic == old(nvic) + [SetPending(
             if cause.Swi? then 11 else if cause.Udef? then 6 else if cause.Bkpt? then 12 else 4)]
    {
      hide XpsrRead, ExcReturn, ClearBit0, AlignmentFlag, StackedPc, Wrap, Misaligned, Exit, PushAll, Ldl, SwitchSp;
      if cause.ExceptionExit? {
        DoExceptionExit();
      } else if cause.Irq? {
        var frame := FrameOf(env);
        var lr := ExcReturn(env.process, env.psr.exception == 0);
        nvic := nvic + [Acknowledge(cause.n)];
        env := env.(psr := env.psr.(exception := cause.n));
        env := env.(sp := AlignedSp(env.sp));
        PushFrame(frame);
        SwitchStack(false);
        var vector := Ldl(env.mem, Wrap(env.vecbase + 4 * cause.n as int));
        env := Jump(env, lr, vector);
      } else {
        nvic := nvic + [SetPending(PendingNumber(cause))];
      }
    }
  }

  lemma WrapAddress(a: Address)
    ensures Wrap(a) == a
  {
  }
}
