/** Exceptions inside exception handlers, to any depth: each return gives the interrupted code its status
    word, stack pointer, link register and SPSR back. */
module ArmNesting {
  import opened Cpsr
  import opened Banks
  import opened ArmCpu
  import opened ArmExceptions

  /** What code comes to between exceptions, whatever it does: registers of any mode, SPSR, flags, changes of
      mode. And an exception with what its handler does before returning. */
  datatype Item =
    | Code(post: Env)
    | Take(x: Exception, body: seq<Item>)

  predicate Legal(items: seq<Item>) {
    forall i :: 0 <= i < |items| ==> LegalItem(items[i])
  }

  predicate LegalItem(item: Item) {
    match item
    case Code(post) => post.Valid()
    case Take(_, body) => Legal(body)
  }

  function ExecItem(e: Env, item: Item): (e': Env)
    requires e.Valid() && LegalItem(item)
    ensures e'.Valid()
    decreases item
  {
    match item
    case Code(post) => post
    case Take(x, body) =>
      EnterRefines(e, x);
      var handled := Exec(Enter(e, x), body);
      ReturnRefines(handled);
      Return(handled)
  }

  function Exec(e: Env, items: seq<Item>): (e': Env)
    requires e.Valid() && Legal(items)
    ensures e'.Valid()
    decreases items
  {
    if items == [] then e else Exec(ExecItem(e, items[0]), items[1..])
  }

  // ---------------------------------------------------------------- what a handler owes

  /** These modes have the same r13, r14 and SPSR. */
  predicate SameBanks<T(==)>(held: set<Mode>, f: Flat<T>, g: Flat<T>)
    requires f.Shaped() && g.Shaped()
  {
    forall m :: m in held && m != Bad ==>
      && Visible(f, m, 13) == Visible(g, m, 13) && Visible(f, m, 14) == Visible(g, m, 14)
      && FlatFound(f, m, Spsr) == FlatFound(g, m, Spsr)
  }

  /** The mode shares r13, r14 and the SPSR with none of these. */
  predicate Apart(m: Mode, held: set<Mode>) {
    forall o :: o in held ==> !Share(m, o)
  }

  /** Of two machines: these modes have the same registers, and r8 to r12 of the modes other than FIQ if asked for. */
  predicate Keeps<T(==)>(held: set<Mode>, high: bool, f: Flat<T>, g: Flat<T>)
    requires f.Shaped() && g.Shaped()
  {
    SameBanks(held, f, g) && (high ==> f.usrHigh == g.usrHigh)
  }

  /** Before it returns, the handler has put its mode and the saved status word back. */
  predicate PutBack(e: Env, x: Exception, handled: Env)
    requires e.Valid() && handled.Valid()
  {
    handled.Mode() == Handler(x) && handled.file.spsr == CpsrRead(e.psr)
  }

  /** The handler's code leaves the registers of these modes alone from one exception to the next. An exception goes
      to another mode: not one of these, nor the mode it interrupts, which is not Monitor mode. The mode of a handler
      further out may be entered again, when that handler has put its registers away. */
  ghost predicate Behaves(e: Env, held: set<Mode>, high: bool, items: seq<Item>)
    requires e.Valid() && Legal(items)
    decreases items, 0
  {
    items == [] || (ItemBehaves(e, held, high, items[0]) && Behaves(ExecItem(e, items[0]), held, high, items[1..]))
  }

  ghost predicate ItemBehaves(e: Env, held: set<Mode>, high: bool, item: Item)
    requires e.Valid() && LegalItem(item)
    decreases item, 1
  {
    match item
    case Code(post) => Keeps(held, high, AbsOf(e).flat, AbsOf(post).flat)
    case Take(x, body) =>
      EnterRefines(e, x);
      && e.Mode() != Smc
      && Handler(x) !in held + {e.Mode()}
      && Behaves(Enter(e, x), held + {e.Mode()}, high, body)
      && PutBack(e, x, Exec(Enter(e, x), body))
  }

  // ---------------------------------------------------------------- instructions

  function SetReg(e: Env, r: nat, v: bv32): (e': Env)
    requires e.Valid() && r < 16
    ensures e'.Valid()
  {
    e.(file := e.file.(regs := e.file.regs[r := v]))
  }

  lemma SetVisibleKeeps<T>(f: Flat<T>, m: Mode, held: set<Mode>, r: nat, v: T)
    requires f.Shaped() && m != Bad && r < 16 && Apart(m, held)
    ensures Keeps(held, m == Fiq || r < 8 || r >= 13, f, SetVisible(f, m, r, v))
  {
  }

  /** A register written in a mode apart from those. */
  lemma RegKeeps(e: Env, held: set<Mode>, r: nat, v: bv32)
    requires e.Valid() && r < 16 && Apart(e.Mode(), held)
    ensures Keeps(held, e.Mode() == Fiq || r < 8 || r >= 13, AbsOf(e).flat, AbsOf(SetReg(e, r, v)).flat)
  {
    hide FlatOf, Keeps, SetVisible, CpsrRead, ModeOf, Split, Bank;
    WriteRegFlat(e.file, e.Mode(), r, v);
    SetVisibleKeeps(AbsOf(e).flat, e.Mode(), held, r, v);
  }

  function SetSpsr(e: Env, v: bv32): (e': Env)
    requires e.Valid()
    ensures e'.Valid()
  {
    e.(file := e.file.(spsr := v))
  }

  /** The SPSR written in such a mode. */
  lemma SpsrKeeps(e: Env, held: set<Mode>, v: bv32)
    requires e.Valid() && Apart(e.Mode(), held)
    ensures Keeps(held, true, AbsOf(e).flat, AbsOf(SetSpsr(e, v)).flat)
  {
    hide FlatOf, CpsrRead, ModeOf, Split;
    WriteSpsrFlat(e.file, e.Mode(), v);
  }

  /** The status word written, mode and all. */
  lemma WordKeeps(e: Env, held: set<Mode>, val: bv32, mask: bv32)
    requires e.Valid() && Complete(mask) && WholeMode(mask)
    ensures Write(e, val, mask).Valid()
    ensures Keeps(held, true, AbsOf(e).flat, AbsOf(Write(e, val, mask)).flat)
  {
    hide FlatOf, CpsrRead, ModeOf, Split, Write, WriteWord, Complete, WholeMode;
    WriteRefines(e, val, mask);
  }

  /** A user register written from a mode with r13 and r14 of its own, when those of User mode may change. */
  lemma UserRegKeeps(e: Env, held: set<Mode>, r: nat, v: bv32)
    requires e.Valid() && r < 15 && ReachesUser(e.Mode(), r) && Apart(Usr, held)
    ensures Keeps(held, r < 8 || r >= 13, AbsOf(e).flat, AbsOf(e.(file := SetUserReg(e.file, e.Mode(), r, v))).flat)
  {
    hide FlatOf, SetVisible, CpsrRead, ModeOf, Split, SetUserReg, Keeps;
    SetUserRegReaches(e.file, e.Mode(), r, v);
    SetVisibleKeeps(AbsOf(e).flat, Usr, held, r, v);
    KeepsLess(held, Usr == Fiq || r < 8 || r >= 13, AbsOf(e).flat, SetVisible(AbsOf(e).flat, Usr, r, v), r < 8 || r >= 13);
  }

  lemma KeepsLess<T>(held: set<Mode>, high: bool, f: Flat<T>, g: Flat<T>, less: bool)
    requires f.Shaped() && g.Shaped() && Keeps(held, high, f, g) && (less ==> high)
    ensures Keeps(held, less, f, g)
  {
  }

  // ---------------------------------------------------------------- any depth

  /** From entry to return, given what the handler keeps. */
  lemma ReturnRestores<T>(m: Mode, h: Mode, held: set<Mode>, high: bool, f: Flat<T>, word: T, link: T, vector: T, g: Flat<T>)
    requires f.Shaped() && g.Shaped() && m != Bad && h != Bad && h !in held + {m} && !Share(h, Usr)
    requires Keeps(held + {m}, high, Entered(f, h, word, link, vector), g)
    ensures Keeps(held + {m}, high, f, g)
  {
    hide Entered, Bank, Keeps;
    EnteredKeeps(f, h, word, link, vector, held + {m});
    KeepsTrans(held + {m}, high, f, Entered(f, h, word, link, vector), g);
  }

  lemma EnteredKeeps<T>(f: Flat<T>, h: Mode, word: T, link: T, vector: T, held: set<Mode>)
    requires f.Shaped() && h != Bad && h !in held && !Share(h, Usr)
    ensures Keeps(held, true, f, Entered(f, h, word, link, vector))
  {
    hide Entered, Bank;
    var g := Entered(f, h, word, link, vector);
    forall m | m in held && m != Bad
      ensures Visible(f, m, 13) == Visible(g, m, 13) && Visible(f, m, 14) == Visible(g, m, 14)
      ensures FlatFound(f, m, Spsr) == FlatFound(g, m, Spsr)
    {
      BankExact(m, h);
      EnteredBank(f, h, word, link, vector, Bank(m));
    }
    EnteredBank(f, h, word, link, vector, Bank(h));
  }

  lemma KeepsTrans<T>(held: set<Mode>, high: bool, f: Flat<T>, g: Flat<T>, k: Flat<T>)
    requires f.Shaped() && g.Shaped() && k.Shaped() && Keeps(held, true, f, g) && Keeps(held, high, g, k)
    ensures Keeps(held, high, f, k)
  {
    hide Visible, FlatFound;
  }

  /** One exception and all those inside it. */
  lemma TakeRestores(e: Env, held: set<Mode>, high: bool, x: Exception, body: seq<Item>)
    requires e.Valid() && LegalItem(Take(x, body)) && ItemBehaves(e, held, high, Take(x, body))
    ensures var e' := ExecItem(e, Take(x, body));
            && AbsOf(e').cpsr == AbsOf(e).cpsr && e'.Mode() == e.Mode()
            && Keeps(held + {e.Mode()}, high, AbsOf(e).flat, AbsOf(e').flat)
    decreases body, 1
  {
    hide AbsOf, Entered, Keeps, ModeOf, Split, Bank, Handler, Link, Vector, Thumb, EntryWord, EntryControl, WriteWord,
         Enter, Return, Behaves;
    var m, h := e.Mode(), Handler(x);
    EnterRefines(e, x);
    var e1 := Enter(e, x);
    var e2 := Exec(e1, body);
    BodyKeeps(e1, held + {m}, high, body);
    ReturnRefines(e2);
    var a := AbsOf(e);
    AbsValid(e); AbsValid(e2); AbsValid(Return(e2));
    ReturnRestores(m, h, held, high, a.flat, a.cpsr, Link(a.flat.pc, x, Thumb(a.cpsr)), Vector(x, a.control, a.Mode()), AbsOf(e2).flat);
    SavedWord(e2);
    CpsrOf(e);
    ReturnWord(AbsOf(e2).cpsr, a.cpsr);
  }

  lemma SavedWord(e: Env)
    requires e.Valid()
    ensures AbsOf(e).flat.spsr[Bank(e.Mode())] == e.file.spsr
  {
    hide ModeOf, CpsrRead;
    RegsAreVisible(e.file, e.Mode(), 0);
  }

  lemma CpsrOf(e: Env)
    requires e.Valid()
    ensures AbsOf(e).cpsr == CpsrRead(e.psr)
  {
    hide ModeOf, CpsrRead;
  }

  lemma ItemKeeps(e: Env, held: set<Mode>, high: bool, item: Item)
    requires e.Valid() && LegalItem(item) && ItemBehaves(e, held, high, item)
    ensures Keeps(held, high, AbsOf(e).flat, AbsOf(ExecItem(e, item)).flat)
    decreases item, 0
  {
    hide AbsOf, ModeOf, Split, Bank, Handler, Behaves, Enter, Return;
    if item.Take? { TakeRestores(e, held, high, item.x, item.body); }
  }

  lemma {:induction false} BodyKeeps(e: Env, held: set<Mode>, high: bool, items: seq<Item>)
    requires e.Valid() && Legal(items) && Behaves(e, held, high, items)
    ensures Keeps(held, high, AbsOf(e).flat, AbsOf(Exec(e, items)).flat)
    decreases items, 0
  {
    hide AbsOf, ModeOf, Split, ItemBehaves, LegalItem, ExecItem;
    if items != [] {
      ItemKeeps(e, held, high, items[0]);
      BodyKeeps(ExecItem(e, items[0]), held, high, items[1..]);
    }
  }

  /** The code itself neither changes mode nor writes the SPSR. */
  ghost predicate StaysInMode(e: Env, items: seq<Item>)
    requires e.Valid() && Legal(items)
    decreases items
  {
    items == [] ||
    (&& (items[0].Code? ==> items[0].post.Mode() == e.Mode() && items[0].post.file.spsr == e.file.spsr)
     && StaysInMode(ExecItem(e, items[0]), items[1..]))
  }

  lemma {:induction false} ModeStays(e: Env, held: set<Mode>, high: bool, items: seq<Item>)
    requires e.Valid() && Legal(items) && Behaves(e, held, high, items) && StaysInMode(e, items)
    ensures Exec(e, items).Mode() == e.Mode() && Exec(e, items).file.spsr == e.file.spsr
    decreases items
  {
    hide ItemBehaves, LegalItem, ExecItem, ModeOf, Split;
    if items != [] {
      ItemModeStays(e, held, high, items[0]);
      ModeStays(ExecItem(e, items[0]), held, high, items[1..]);
    }
  }

  lemma ItemModeStays(e: Env, held: set<Mode>, high: bool, item: Item)
    requires e.Valid() && LegalItem(item) && ItemBehaves(e, held, high, item)
    requires item.Code? ==> item.post.Mode() == e.Mode() && item.post.file.spsr == e.file.spsr
    ensures ExecItem(e, item).Mode() == e.Mode() && ExecItem(e, item).file.spsr == e.file.spsr
  {
    hide AbsOf, ModeOf, Split, Handler, Behaves, Enter, Return, Bank;
    if item.Take? {
      TakeRestores(e, held, high, item.x, item.body);
      SavedWord(e);
      SavedWord(ExecItem(e, item));
    }
  }

  /** A handler that stays in its mode and leaves the SPSR alone has nothing to put back, however it is
      interrupted. */
  lemma PlainHandlerPutsBack(e: Env, held: set<Mode>, high: bool, x: Exception, body: seq<Item>)
    requires e.Valid() && Legal(body) && Enter(e, x).Valid()
    requires Behaves(Enter(e, x), held, high, body) && StaysInMode(Enter(e, x), body)
    ensures PutBack(e, x, Exec(Enter(e, x), body))
  {
    hide Behaves, StaysInMode, ModeOf, CpsrRead, Split, Exec;
    EnterRefines(e, x);
    ModeStays(Enter(e, x), held, high, body);
  }

  /** The interrupted code finds its status word, r13, r14 and SPSR as they were, however deep the handler was
      interrupted in turn; and r8 to r12 as well if nothing but FIQ mode writes its own. */
  lemma NestedReturnRestores(e: Env, high: bool, x: Exception, body: seq<Item>)
    requires e.Valid() && LegalItem(Take(x, body)) && ItemBehaves(e, {}, high, Take(x, body))
    ensures var e' := ExecItem(e, Take(x, body));
            && CpsrRead(e'.psr) == CpsrRead(e.psr) && e'.Mode() == e.Mode()
            && e'.file.regs[13] == e.file.regs[13] && e'.file.regs[14] == e.file.regs[14] && e'.file.spsr == e.file.spsr
            && (high && e.Mode() != Fiq ==> e'.file.regs[8..13] == e.file.regs[8..13])
  {
    hide FlatOf, ModeOf, Split, Handler, ExecItem, ItemBehaves, LegalItem, CpsrRead;
    var e' := ExecItem(e, Take(x, body));
    TakeRestores(e, {}, high, x, body);
    Shows(e.file, e.Mode());
    Shows(e'.file, e.Mode());
  }

  lemma Shows<T>(f: File<T>, m: Mode)
    requires f.Shaped() && m != Bad
    ensures var flat, b := FlatOf(f, m), Bank(m);
            && f.regs[13] == flat.r13[b] && f.regs[14] == flat.r14[b] && f.spsr == flat.spsr[b]
            && (m != Fiq ==> f.regs[8..13] == flat.usrHigh)
  {
  }
}
