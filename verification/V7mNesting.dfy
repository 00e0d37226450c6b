/** Nested M-profile exceptions: runs of handlers that interrupt each other to any depth. */
module V7mNesting {
  import opened V7m

  /** A stretch of a run: code that takes the CPU to some state, or an exception with all that happens
      until its return. */
  datatype Item =
    | Code(post: Cpu)
    | Exception(irq: bv9, body: seq<Item>)

  function ExecItem(c: Cpu, item: Item): Cpu
    decreases item, 1
  {
    match item
    case Code(post) => post
    case Exception(irq, body) => Exit(Exec(Entry(c, irq), body))
  }

  function Exec(c: Cpu, items: seq<Item>): Cpu
    decreases items, 0
  {
    if items == [] then c else Exec(ExecItem(c, items[0]), items[1..])
  }

  function Frame(c: Cpu): set<Address> {
    set k | 0 <= k < 8 :: Slot(c, k)
  }

  ghost predicate SameAt(mem: Memory, mem': Memory, live: set<Address>) {
    forall a :: a in live ==> Ldl(mem', a) == Ldl(mem, a)
  }

  /** What a handler owes: it leaves the words of the live frames alone, and is interrupted only where
      the next frame would not overlap them. */
  ghost predicate ItemBehaves(c: Cpu, item: Item, live: set<Address>)
    decreases item, 1
  {
    match item
    case Code(post) => Ok(post) && SameAt(c.mem, post.mem, live)
    case Exception(irq, body) =>
      && Frame(c) !! live
      && Behaves(Entry(c, irq), body, live + Frame(c))
      && Returns(Entry(c, irq), Exec(Entry(c, irq), body))
  }

  ghost predicate Behaves(c: Cpu, items: seq<Item>, live: set<Address>)
    decreases items, 0
  {
    items == [] || (ItemBehaves(c, items[0], live) && Behaves(ExecItem(c, items[0]), items[1..], live))
  }

  /** A handler returns with the stack pointers and r4 to r11 it was entered with, and with the stack
      selection of the EXC_RETURN value it was given. */
  ghost predicate Returns(e: Cpu, t: Cpu) {
    && !t.process && t.sp == e.sp && t.otherSp == e.otherSp && t.saved == e.saved
    && ToProcess(t.pc) == ToProcess(e.lr)
  }

  lemma ExcReturnBits(process: bool, thread: bool)
    ensures ToProcess(ExcReturn(process, thread)) == process
  {
  }

  lemma EntryOk(c: Cpu, irq: bv9)
    requires Ok(c)
    ensures Ok(Entry(c, irq))
  {
    EntryStacks(c, irq);
    EntryPc(c, irq);
    SlotAligned(c);
    hide Entry, Even, Slot;
  }

  lemma EntryPc(c: Cpu, irq: bv9)
    ensures Even(Entry(c, irq).pc)
  {
    hide PushAll, FrameOf, ExcReturn, AlignedSp, Wrap, SwitchSp, Ldl;
    var d := c.(psr := c.psr.(exception := irq), sp := AlignedSp(c.sp));
    var pushed := SwitchSp(PushAll(d, FrameOf(c)), false);
    EvenBits(Ldl(pushed.mem, Wrap(pushed.vecbase + 4 * irq as int)));
    hide Even, ClearBit0;
  }

  lemma EvenBits(x: bv32)
    ensures Even(ClearBit0(x))
  {
  }

  lemma SlotAligned(c: Cpu)
    requires c.sp % 4 == 0
    ensures Slot(c, 0) % 4 == 0
  {
    hide Wrap;
    WrapMultiple(c.sp - 4);
    WrapMultiple(AlignedSp(c.sp) - 32);
  }

  lemma WrapMultiple(a: int)
    requires a % 4 == 0
    ensures Wrap(a) % 4 == 0
  {
    assert Wrap(a) == a - 4 * (0x4000_0000 * (a / 0x1_0000_0000));
  }

  lemma InFrameIsFrame(c: Cpu, a: Address)
    ensures InFrame(c, a) <==> a in Frame(c)
  {
    hide Slot;
  }

  /** Entry touches no live frame. */
  lemma EntryKeeps(c: Cpu, irq: bv9, live: set<Address>)
    requires Frame(c) !! live
    ensures SameAt(c.mem, Entry(c, irq).mem, live)
  {
    hide Entry, InFrame, Frame;
    EntryFrame(c, irq);
    forall a | a in live ensures Ldl(Entry(c, irq).mem, a) == Ldl(c.mem, a) {
      InFrameIsFrame(c, a);
    }
  }

  lemma FrameKept(c: Cpu, mem: Memory, mem': Memory, live: set<Address>)
    requires Holds(mem, c) && SameAt(mem, mem', live + Frame(c))
    ensures Holds(mem', c)
  {
    hide Slot;
    forall k | 0 <= k < 8 ensures Ldl(mem', Slot(c, k)) == FrameOf(c)[7 - k] {
      assert Slot(c, k) in Frame(c);
    }
  }

  lemma ReturnIsReady(c: Cpu, irq: bv9, t: Cpu)
    requires Returns(Entry(c, irq), t)
    ensures ReadyToReturn(c, t)
  {
    hide Entry, ToProcess, ExcReturn, Slot;
    EntryStacks(c, irq);
    ExcReturnBits(c.process, c.psr.exception == 0);
  }

  lemma ExitKeepsMemory(t: Cpu)
    ensures Exit(t).mem == t.mem
  {
  }

  lemma RestoredOk(c: Cpu, u: Cpu)
    requires Ok(c) && Restored(c, u)
    ensures Ok(u)
  {
    hide Even, SamePsr;
  }

  /** An exception whose handler behaves, at any depth of nesting, is invisible to the code it
      interrupts: registers, program status, both stack pointers and the choice between them are
      restored, and the frames of the exceptions around it are intact. */
  lemma {:induction false} ExceptionIsInvisible(c: Cpu, irq: bv9, body: seq<Item>, live: set<Address>)
    requires Ok(c) && ItemBehaves(c, Exception(irq, body), live)
    ensures var u := ExecItem(c, Exception(irq, body));
            Restored(c, u) && Ok(u) && SameAt(c.mem, u.mem, live)
    decreases body, 1
  {
    hide Entry, Exit, Ok, Holds, ReadyToReturn, Returns, Frame, Restored;
    var e := Entry(c, irq);
    var t := Exec(e, body);
    EntryOk(c, irq);
    EntryFrame(c, irq);
    EntryKeeps(c, irq, live);
    BodyKeeps(e, body, live + Frame(c));
    FrameKept(c, e.mem, t.mem, live);
    ReturnIsReady(c, irq, t);
    ExitRestores(c, t);
    ExitKeepsMemory(t);
    RestoredOk(c, Exit(t));
  }

  /** A handler body keeps every live frame, its nested exceptions included. */
  lemma {:induction false} BodyKeeps(c: Cpu, items: seq<Item>, live: set<Address>)
    requires Ok(c) && Behaves(c, items, live)
    ensures SameAt(c.mem, Exec(c, items).mem, live)
    decreases items, 0
  {
    hide Entry, Exit, Ok, Frame, Restored, Returns;
    if items != [] {
      var item := items[0];
      var d := ExecItem(c, item);
      if item.Exception? {
        ExceptionIsInvisible(c, item.irq, item.body, live);
      }
      BodyKeeps(d, items[1..], live);
    }
  }

  // ---------------------------------------------------------------- stack discipline

  /** The regions of the main and the process stack. */
  datatype Stacks = Stacks(mainLo: int, mainHi: int, procLo: int, procHi: int) {
    predicate Apart() {
      && 0 <= mainLo <= mainHi <= 0x1_0000_0000 && 0 <= procLo <= procHi <= 0x1_0000_0000
      && (mainHi <= procLo || procHi <= mainLo)
    }

    /** A stack pointer of the main stack with room for one more frame. */
    predicate OnMain(sp: Address) {
      mainLo + 36 <= sp <= mainHi
    }

    predicate OnProcess(sp: Address) {
      procLo + 36 <= sp <= procHi
    }

    /** What a handler entered with main stack pointer `top` must not write: the main stack from there
        up, and the process stack. */
    predicate Above(top: Address, a: Address) {
      top <= a < mainHi || procLo <= a < procHi
    }
  }

  /** A handler entered with main stack pointer `top` uses the stack only below it. */
  ghost predicate ItemDisciplined(s: Stacks, c: Cpu, item: Item, top: Address)
    decreases item, 1
  {
    match item
    case Code(post) =>
      Ok(post) && forall a: Address :: s.Above(top, a) ==> Ldl(post.mem, a) == Ldl(c.mem, a)
    case Exception(irq, body) =>
      && !c.process && s.OnMain(c.sp) && c.sp <= top
      && Disciplined(s, Entry(c, irq), body, Entry(c, irq).sp)
      && Returns(Entry(c, irq), Exec(Entry(c, irq), body))
  }

  ghost predicate Disciplined(s: Stacks, c: Cpu, items: seq<Item>, top: Address)
    decreases items, 0
  {
    items == [] || (ItemDisciplined(s, c, items[0], top) && Disciplined(s, ExecItem(c, items[0]), items[1..], top))
  }

  /** A frame lies in the 36 bytes below the stack pointer. */
  lemma FrameBelow(c: Cpu, a: Address)
    requires 36 <= c.sp && a in Frame(c)
    ensures c.sp - 36 <= Slot(c, 0) <= a < c.sp
  {
    hide Wrap, Misaligned;
    SlotsWrap(c, 0);
    forall k | 0 <= k < 8 ensures Slot(c, k) == Slot(c, 0) + 4 * k { SlotsWrap(c, k); }
  }

  /** With room below the stack pointer, the words of a frame do not wrap around. */
  lemma SlotsWrap(c: Cpu, k: nat)
    requires 36 <= c.sp && k < 8
    ensures Slot(c, k) == AlignedSp(c.sp) - 32 + 4 * k && c.sp - 4 <= AlignedSp(c.sp) <= c.sp
  {
    hide Misaligned;
  }

  lemma DisciplineKeepsFrames(s: Stacks, c: Cpu, items: seq<Item>, top: Address, live: set<Address>)
    requires s.Apart() && Disciplined(s, c, items, top) && forall a :: a in live ==> s.Above(top, a)
    ensures Behaves(c, items, live)
    decreases items, 0
  {
    hide Entry, Exit, Ok, Frame, Returns;
    if items != [] {
      if items[0].Exception? {
        NestedFrameIsApart(s, c, items[0].irq, top, live);
        var e := Entry(c, items[0].irq);
        DisciplineKeepsFrames(s, e, items[0].body, e.sp, live + Frame(c));
      }
      DisciplineKeepsFrames(s, ExecItem(c, items[0]), items[1..], top, live);
    }
  }

  lemma NestedFrameIsApart(s: Stacks, c: Cpu, irq: bv9, top: Address, live: set<Address>)
    requires s.Apart() && !c.process && s.OnMain(c.sp) && c.sp <= top
    requires forall a :: a in live ==> s.Above(top, a)
    ensures Frame(c) !! live
    ensures forall a :: a in live + Frame(c) ==> s.Above(Entry(c, irq).sp, a)
  {
    hide Entry, Frame, Slot;
    EntryStacks(c, irq);
    forall a | a in Frame(c) ensures c.sp - 36 <= Slot(c, 0) <= a < c.sp {
      FrameBelow(c, a);
    }
    SlotBelow(c);
  }

  lemma SlotBelow(c: Cpu)
    requires 36 <= c.sp
    ensures Slot(c, 0) < c.sp
  {
  }

  /** An exception taken on either stack is invisible to the code it interrupts, whatever exceptions
      nest in its handler, if the stacks do not overlap and every handler keeps to its side of the
      main stack. */
  lemma NestedExceptionsRestore(s: Stacks, c: Cpu, irq: bv9, body: seq<Item>)
    requires s.Apart() && Ok(c)
    requires if c.process then s.OnProcess(c.sp) else s.OnMain(c.sp)
    requires Disciplined(s, Entry(c, irq), body, Entry(c, irq).sp)
    requires Returns(Entry(c, irq), Exec(Entry(c, irq), body))
    ensures Restored(c, ExecItem(c, Exception(irq, body)))
  {
    hide Entry, Exit, Ok, Frame, Returns, Slot, Disciplined, Restored;
    var e := Entry(c, irq);
    EntryStacks(c, irq);
    SlotBelow(c);
    forall a | a in Frame(c) ensures s.Above(e.sp, a) {
      FrameBelow(c, a);
    }
    DisciplineKeepsFrames(s, e, body, e.sp, {} + Frame(c));
    ExceptionIsInvisible(c, irq, body, {});
  }
}
