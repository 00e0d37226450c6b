/** TLB maintenance by address, and what a run leaves in the CP15 registers: both told from the list of operations alone. */
module TlbMaintenance {
  import opened Vmsa
  import opened ShortDescriptor
  import opened Translation
  import opened Tlb
  import opened Wrappers

  // ---------------------------------------------------------------- invalidation by address

  /** The granule holds one of the addresses. */
  predicate Among(g: bv32, values: seq<bv32>) {
    exists k :: 0 <= k < |values| && Granule(values[k]) == g
  }

  /** The table has lost the granules of these addresses, for user and privileged accesses, and nothing else. */
  ghost predicate Left(tlb: Table, tlb': Table, values: seq<bv32>) {
    forall g: bv32, user: bool ::
      && ((g, user) in tlb' <==> (g, user) in tlb && !Among(g, values))
      && ((g, user) in tlb' ==> tlb'[(g, user)] == tlb[(g, user)])
  }

  function Invalidations(values: seq<bv32>): seq<Op> {
    seq(|values|, k requires 0 <= k < |values| => TlbiMva(values[k]))
  }

  lemma DropLeaves(f: Features, s: Mmu, value: bv32)
    ensures var t := Step(f, s, TlbiMva(value));
            Left(s.tlb, t.tlb, [value]) && t.cp15 == s.cp15 && t.mem == s.mem && t.context == s.context
  {
    hide Granule;
    var t := Step(f, s, TlbiMva(value));
    forall g: bv32, user: bool
      ensures ((g, user) in t.tlb <==> (g, user) in s.tlb && !Among(g, [value]))
      ensures (g, user) in t.tlb ==> t.tlb[(g, user)] == s.tlb[(g, user)]
    {
      assert Among(g, [value]) <==> g == Granule(value) by { assert [value][0] == value; }
    }
  }

  /** Any number of invalidations by address removes those granules, for both privileges, and no other entry. */
  lemma {:induction false} InvalidationsLeave(f: Features, s: Mmu, values: seq<bv32>)
    ensures var t := Run(f, s, Invalidations(values));
            Left(s.tlb, t.tlb, values) && t.cp15 == s.cp15 && t.mem == s.mem && t.context == s.context
    decreases |values|
  {
    hide Step, Granule;
    if values != [] {
      var s1 := Step(f, s, TlbiMva(values[0]));
      DropLeaves(f, s, values[0]);
      assert Invalidations(values)[1..] == Invalidations(values[1..]);
      InvalidationsLeave(f, s1, values[1..]);
      forall g ensures Among(g, values) <==> Among(g, [values[0]]) || Among(g, values[1..]) {
        AmongSplit(g, values);
      }
    }
  }

  lemma AmongSplit(g: bv32, values: seq<bv32>)
    requires values != []
    ensures Among(g, values) <==> Among(g, [values[0]]) || Among(g, values[1..])
  {
    hide Granule;
    if Among(g, values[1..]) {
      var k :| 0 <= k < |values[1..]| && Granule(values[1..][k]) == g;
      assert Granule(values[k + 1]) == g;
    }
    if Among(g, [values[0]]) { assert Granule(values[0]) == g; }
    if Among(g, values) {
      var k :| 0 <= k < |values| && Granule(values[k]) == g;
      if k == 0 {
        assert Granule([values[0]][0]) == g;
      } else {
        assert Granule(values[1..][k - 1]) == g;
      }
    }
  }

  /** At the bases of the cached granules outside these addresses, walks answer every kind of access as before. */
  ghost predicate OthersKept(f: Features, tlb: Table, values: seq<bv32>, c: Cp15, mem: Memory, c': Cp15, mem': Memory) {
    forall g: bv32, user: bool, b: Access :: (g, user) in tlb && !Among(g, values) ==>
      SameAnswer(Translate(f, c, mem, g, b, user), Translate(f, c', mem', g, b, user))
  }

  lemma SubsetCoherent(f: Features, c: Cp15, mem: Memory, tlb: Table, tlb': Table, values: seq<bv32>)
    requires CoherentTable(f, c, mem, tlb) && Left(tlb, tlb', values)
    ensures CoherentTable(f, c, mem, tlb')
  {
    hide Translate, Granule, Agrees, Among;
  }

  /** Whatever unflushed write a guest makes, invalidating by address afterwards makes a coherent TLB coherent again
      exactly when the addresses cover every cached granule whose walks the write changed. */
  lemma MaintenanceExact(f: Features, s: Mmu, op: Op, values: seq<bv32>)
    requires Inv(f, s) && CoherentTable(f, s.cp15, s.mem, s.tlb) && IsUnflushed(f, op)
    ensures var t := Run(f, Step(f, s, op), Invalidations(values));
            CoherentTable(f, t.cp15, t.mem, t.tlb) <==> OthersKept(f, s.tlb, values, s.cp15, s.mem, t.cp15, t.mem)
  {
    hide CoherentTable, GranuleAligned, Written, FilledBy, Step, Translate, SameAnswer, Among;
    UnflushedChanges(f, s, op);
    WrittenAligned(f, s.cp15, op);
    var u := Step(f, s, op);
    var d := Run(f, s, Invalidations(values));
    var t := Run(f, u, Invalidations(values));
    InvalidationsLeave(f, s, values);
    InvalidationsLeave(f, u, values);
    RunInv(f, s, Invalidations(values));
    SubsetCoherent(f, s.cp15, s.mem, s.tlb, d.tlb, values);
    assert d.tlb == t.tlb by { LeftUnique(s.tlb, d.tlb, t.tlb, values); }
    ChangeExact(f, d, t.cp15, t.mem);
  }

  lemma LeftUnique(tlb: Table, a: Table, b: Table, values: seq<bv32>)
    requires Left(tlb, a, values) && Left(tlb, b, values)
    ensures a == b
  {
    hide Among;
    forall key | key in a ensures key in b && a[key] == b[key] {
      var (g, user) := key;
      assert (g, user) in a;
    }
    forall key | key in b ensures key in a {
      var (g, user) := key;
      assert (g, user) in b;
    }
  }

  // ---------------------------------------------------------------- what each operation leaves in the table

  /** An operation leaves a key in the table: a miss that maps adds its own, invalidation takes the granule or the slot it
      names, and the writes that flush take everything; the others leave the table alone. */
  ghost predicate Survives(f: Features, s: Mmu, op: Op, g: bv32, user: bool) {
    match op
    case Miss(va, a, u) =>
      (g, user) in s.tlb || (g == Granule(va) && user == u && Translate(f, s.cp15, s.mem, va, a, u).Mapped?)
    case TlbiMva(value) => (g, user) in s.tlb && g != Granule(value)
    case Evict(key) => (g, user) in s.tlb && (g, user) != key
    case WriteDacr(_) | WriteSctlr(_) | WriteTtbr064(_) => false
    case TlbiAll | TlbiAsid(_) => false
    case WriteFcse(value) => (g, user) in s.tlb && value == s.cp15.fcse
    case WriteContextidr(value) => (g, user) in s.tlb && value == s.context
    case WriteTtbcr(_) => (g, user) in s.tlb && !f.lpae
    case WriteTtbr0(_) | WriteTtbr1(_) | WriteTtbr164(_) | StoreTables(_) => (g, user) in s.tlb
  }

  lemma ChangedTable(f: Features, s: Mmu, op: Op)
    ensures Changed(f, s, op).tlb == s.tlb
  {
    hide Written;
  }

  /** Exactly those keys are in the table afterwards. */
  lemma StepKeys(f: Features, s: Mmu, op: Op, g: bv32, user: bool)
    ensures (g, user) in Step(f, s, op).tlb <==> Survives(f, s, op, g, user)
  {
    hide Translate, Granule, EntryOf, Changed;
    ChangedTable(f, s, op);
  }

  /** And they have the entries they had, but for what a miss fills. */
  lemma StepEntries(f: Features, s: Mmu, op: Op, g: bv32, user: bool)
    requires (g, user) in s.tlb && (g, user) in Step(f, s, op).tlb && !(op.Miss? && g == Granule(op.va) && user == op.user)
    ensures Step(f, s, op).tlb[(g, user)] == s.tlb[(g, user)]
  {
    hide Translate, Granule, EntryOf, Changed;
    ChangedTable(f, s, op);
  }

  // ---------------------------------------------------------------- what a run leaves in the registers

  datatype Register = Sctlr | Dacr | Fcseidr | Contextidr | Ttbcr | Ttbr0 | Ttbr0High | Ttbr1 | Ttbr1High

  function Read(s: Mmu, r: Register): bv32 {
    match r
    case Sctlr => s.cp15.sctlr
    case Dacr => s.cp15.dacr
    case Fcseidr => s.cp15.fcse
    case Contextidr => s.context
    case Ttbcr => s.cp15.ttbcr
    case Ttbr0 => s.cp15.ttbr0
    case Ttbr0High => s.cp15.ttbr0Hi
    case Ttbr1 => s.cp15.ttbr1
    case Ttbr1High => s.cp15.ttbr1Hi
  }

  /** TTBCR keeps N alone without LPAE, and with it all but bits 3 to 6, 14, 15 and 19 to 21. */
  function TtbcrValue(f: Features, value: bv32): bv32 {
    if !f.lpae then value % 8
    else value / 0x40_0000 * 0x40_0000 + value / 0x1_0000 % 8 * 0x1_0000 + value / 0x80 % 0x80 * 0x80 + value % 8
  }

  function UpperHalf(value: bv64): bv32 {
    (value / 0x1_0000_0000) as bv32
  }

  function LowerHalf(value: bv64): bv32 {
    (value % 0x1_0000_0000) as bv32
  }

  /** What an operation stores in a register. */
  function Stored(f: Features, op: Op, r: Register): Option<bv32> {
    match r
    case Sctlr => if op.WriteSctlr? then Some(op.value) else None
    case Dacr => if op.WriteDacr? then Some(op.value) else None
    case Fcseidr => if op.WriteFcse? then Some(op.value) else None
    case Contextidr => if op.WriteContextidr? then Some(op.value) else None
    case Ttbcr => if op.WriteTtbcr? then Some(TtbcrValue(f, op.value)) else None
    case Ttbr0 =>
      if op.WriteTtbr0? then Some(op.value) else if op.WriteTtbr064? then Some(LowerHalf(op.wide)) else None
    case Ttbr0High => if op.WriteTtbr064? then Some(UpperHalf(op.wide)) else None
    case Ttbr1 =>
      if op.WriteTtbr1? then Some(op.value) else if op.WriteTtbr164? then Some(LowerHalf(op.wide)) else None
    case Ttbr1High => if op.WriteTtbr164? then Some(UpperHalf(op.wide)) else None
  }

  /** The last value that the operations store in a register that held `value`. */
  function LastStored(f: Features, ops: seq<Op>, r: Register, value: bv32): bv32
    decreases |ops|
  {
    if ops == [] then value
    else
      var last := Stored(f, ops[|ops| - 1], r);
      if last.Some? then last.value else LastStored(f, ops[..|ops| - 1], r, value)
  }

  lemma HalfBits(value: bv64)
    ensures High(value) == UpperHalf(value) && Low(value) == LowerHalf(value)
  {
  }

  lemma TtbcrBits(f: Features, value: bv32)
    ensures (if f.lpae then LpaeTtbcr(value) else value & 7) == TtbcrValue(f, value)
  {
  }

  lemma SetTtbcrKeeps(c: Cp15, value: bv32)
    ensures var c' := SetTtbcr(c, value);
            c'.ttbcr == value && c' == c.(ttbcr := value, ttbcrMask := c'.ttbcrMask, baseMask := c'.baseMask)
  {
  }

  lemma TtbcrStores(f: Features, s: Mmu, value: bv32, r: Register)
    ensures Read(Changed(f, s, WriteTtbcr(value)), r) == if r == Ttbcr then TtbcrValue(f, value) else Read(s, r)
  {
    hide SetTtbcr, LpaeTtbcr, TtbcrValue;
    TtbcrBits(f, value);
    SetTtbcrKeeps(s.cp15, TtbcrValue(f, value));
  }

  lemma WideStores(f: Features, s: Mmu, op: Op, r: Register)
    requires op.WriteTtbr064? || op.WriteTtbr164?
    ensures var stored := Stored(f, op, r); Read(Changed(f, s, op), r) == if stored.Some? then stored.value else Read(s, r)
  {
    hide High, Low, UpperHalf, LowerHalf;
    HalfBits(op.wide);
  }

  lemma ChangedStores(f: Features, s: Mmu, op: Op, r: Register)
    ensures var stored := Stored(f, op, r); Read(Changed(f, s, op), r) == if stored.Some? then stored.value else Read(s, r)
  {
    hide High, Low, UpperHalf, LowerHalf, SetTtbcr, LpaeTtbcr, TtbcrValue;
    if op.WriteTtbr064? || op.WriteTtbr164? {
      WideStores(f, s, op, r);
    } else if op.WriteTtbcr? {
      TtbcrStores(f, s, op.value, r);
    }
  }

  lemma StepStores(f: Features, s: Mmu, op: Op, r: Register)
    ensures var stored := Stored(f, op, r); Read(Step(f, s, op), r) == if stored.Some? then stored.value else Read(s, r)
  {
    hide Translate, Granule, EntryOf, Changed, UpperHalf, LowerHalf, TtbcrValue, Flushes;
    ChangedStores(f, s, op, r);
  }

  lemma {:induction false} RunSplitLast(f: Features, s: Mmu, ops: seq<Op>)
    requires ops != []
    ensures Run(f, s, ops) == Step(f, Run(f, s, ops[..|ops| - 1]), ops[|ops| - 1])
    decreases |ops|
  {
    hide Step;
    if |ops| == 1 {
      assert ops[1..] == [] && ops[..0] == [];
    } else {
      RunSplitLast(f, Step(f, s, ops[0]), ops[1..]);
      assert ops[1..][..|ops| - 2] == ops[..|ops| - 1][1..];
    }
  }

  /** After any run, every register holds the last value that the run stored in it. */
  lemma {:induction false} RegistersHoldLastStored(f: Features, s: Mmu, ops: seq<Op>, r: Register)
    ensures Read(Run(f, s, ops), r) == LastStored(f, ops, r, Read(s, r))
    decreases |ops|
  {
    hide Step, Read, Stored;
    if ops != [] {
      RunSplitLast(f, s, ops);
      StepStores(f, Run(f, s, ops[..|ops| - 1]), ops[|ops| - 1], r);
      RegistersHoldLastStored(f, s, ops[..|ops| - 1], r);
    }
  }
}
