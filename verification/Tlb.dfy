/** QEMU's software TLB as the ARM target uses it: filled by cpu_arm_handle_mmu_fault one 1 KB granule
    at a time, flushed by the CP15 writes. Over every run, an entry answers as a fresh walk would. */
module Tlb {
  import opened Vmsa
  import opened ShortDescriptor
  import ShortDescriptorLaws
  import opened Translation

  /** A cached granule: its physical base and its protection. */
  datatype Entry = Entry(phys: bv64, prot: Prot)

  /** Entries by granule and privilege (mmu_idx). */
  type Table = map<(bv32, bool), Entry>

  /** What cpu_arm_handle_mmu_fault hands to tlb_set_page. */
  function EntryOf(w: Walk): Entry
    requires w.Mapped?
  {
    Entry(Base(w.phys), w.prot)
  }

  function Base(phys: bv64): bv64 {
    phys & 0xffff_ffff_ffff_fc00
  }

  /** Where an access through an entry lands. */
  function Through(e: Entry, va: bv32): bv64 {
    e.phys + Offset(va)
  }

  /** The entry answers an access as the walk does: same place and protection when it lets the access
      through, and a fault when it does not. */
  ghost predicate Agrees(e: Entry, va: bv32, a: Access, w: Walk) {
    if e.prot.Allows(a) then w.Mapped? && w == Mapped(Through(e, va), e.prot, w.size) else w.Fault?
  }

  /** Every entry agrees with a fresh walk, for every address of its granule and every access type. */
  ghost predicate CoherentTable(f: Features, c: Cp15, mem: Memory, tlb: Table) {
    forall va: bv32, user: bool, a: Access :: (Granule(va), user) in tlb ==>
      Agrees(tlb[(Granule(va), user)], va, a, Translate(f, c, mem, va, a, user))
  }

  // ---------------------------------------------------------------- one fill

  lemma BaseBits(p: bv64, x: bv32)
    ensures ((p & 0xffff_ffff_ffff_fc00) | ((x & 0x3ff) as bv64)) & 0xffff_ffff_ffff_fc00 == p & 0xffff_ffff_ffff_fc00
  {
  }

  lemma SumBits(p: bv64, x: bv32)
    ensures (p & 0xffff_ffff_ffff_fc00) + (x & 0x3ff) as bv64 == (p & 0xffff_ffff_ffff_fc00) | ((x & 0x3ff) as bv64)
  {
  }

  lemma BaseOfOffset(p: bv64, x: bv32)
    ensures Base(AtOffset(p, x)) == Base(p)
  {
    BaseBits(p, x);
  }

  lemma ThroughBase(p: bv64, prot: Prot, x: bv32)
    ensures Through(Entry(Base(p), prot), x) == AtOffset(p, x)
  {
    SumBits(p, x);
  }

  lemma SpliceBits(p: bv64, x: bv32, y: bv32)
    ensures (x & 0x3ff) as bv64 == (y & 0x3ff) as bv64 <==>
            (((p & 0xffff_ffff_ffff_fc00) | ((x & 0x3ff) as bv64)) & 0xffff_ffff_ffff_fc00) | ((y & 0x3ff) as bv64) ==
            (p & 0xffff_ffff_ffff_fc00) | ((x & 0x3ff) as bv64)
  {
  }

  lemma ReenterAt(p: bv64, x: bv32, y: bv32)
    ensures AtOffset(AtOffset(p, x), y) == AtOffset(p, x) <==> Offset(x) == Offset(y)
  {
    SpliceBits(p, x, y);
  }

  /** Through the entry of its own walk an address comes back to the place of the walk exactly when it keeps
      its offset. */
  lemma FillPlace(f: Features, c: Cp15, mem: Memory, x: bv32, a: Access, user: bool)
    requires GranuleAligned(c) && Translate(f, c, mem, x, a, user).Mapped?
    ensures var w := Translate(f, c, mem, x, a, user);
            Through(EntryOf(w), x) == w.phys <==> Steady(c.fcse, x)
  {
    hide WalkAt, Granule, GranuleAligned, Steady, AtOffset, Base, Through, Mva, Offset;
    var mva := Mva(c.fcse, x);
    var w := WalkAt(f, c, mem, mva, a, user);
    WalkAtGranule(f, c, mem, mva, a, user);
    MvaOffset(c.fcse, x);
    ThroughBase(w.phys, w.prot, x);
    ReenterAt(WalkAt(f, c, mem, Granule(mva), a, user).phys, mva, x);
  }

  // ---------------------------------------------------------------- when an entry is right

  /** The entry is the one this walk would fill, or forbids the access as the walk does. */
  ghost predicate Matches(e: Entry, b: Access, w: Walk) {
    if e.prot.Allows(b) then w.Mapped? && EntryOf(w) == e else w.Fault?
  }

  /** The entry agrees with a fresh walk at every address of the granule and for every access type. */
  ghost predicate Covers(f: Features, c: Cp15, mem: Memory, e: Entry, x: bv32, user: bool) {
    forall y: bv32, b: Access :: Granule(y) == Granule(x) ==> Agrees(e, y, b, Translate(f, c, mem, y, b, user))
  }

  /** The entry is the base of a granule, and lets some access through. */
  predicate Proper(e: Entry) {
    Base(e.phys) == e.phys && !e.prot.IsNone()
  }

  lemma ThroughOffset(e: Entry, x: bv32)
    requires Base(e.phys) == e.phys
    ensures Base(Through(e, x)) == e.phys
  {
    hide Base, Through, AtOffset;
    ThroughBase(e.phys, e.prot, x);
    BaseOfOffset(e.phys, x);
  }

  lemma MatchAgrees(f: Features, c: Cp15, mem: Memory, e: Entry, x: bv32, user: bool, y: bv32, b: Access)
    requires GranuleAligned(c) && Steady(c.fcse, x) && Granule(x) == Granule(y)
    requires Matches(e, b, Translate(f, c, mem, x, b, user))
    ensures Agrees(e, y, b, Translate(f, c, mem, y, b, user))
  {
    hide Translate, Granule, GranuleAligned, Steady, AtOffset, Base, Through;
    SteadyGranule(c.fcse, x, y);
    TranslateGranule(f, c, mem, x, b, user);
    TranslateGranule(f, c, mem, y, b, user);
    var w := Translate(f, c, mem, Granule(x), b, user);
    if w.Mapped? {
      BaseOfOffset(w.phys, x);
      ThroughBase(w.phys, w.prot, y);
    }
  }

  lemma AgreeMatches(e: Entry, x: bv32, b: Access, w: Walk)
    requires Base(e.phys) == e.phys && Agrees(e, x, b, w)
    ensures Matches(e, b, w)
  {
    hide Base, Through;
    ThroughOffset(e, x);
  }

  lemma SomeAccess(p: Prot) returns (a: Access)
    requires !p.IsNone()
    ensures p.Allows(a)
  {
    a := if p.read then Load else if p.write then Store else Fetch;
  }

  /** An entry is right for its whole granule exactly when it matches the walks of one address of it, and the
      granule is not moved by part of a granule. */
  lemma CoversExact(f: Features, c: Cp15, mem: Memory, e: Entry, x: bv32, user: bool)
    requires GranuleAligned(c) && Proper(e)
    ensures Covers(f, c, mem, e, x, user) <==>
            Steady(c.fcse, x) && forall b :: Matches(e, b, Translate(f, c, mem, x, b, user))
  {
    hide Translate, Granule, GranuleAligned, Steady, Base, Through, Matches, Agrees;
    if Covers(f, c, mem, e, x, user) {
      forall b ensures Matches(e, b, Translate(f, c, mem, x, b, user)) {
        AgreeMatches(e, x, b, Translate(f, c, mem, x, b, user));
      }
      CoversSteady(f, c, mem, e, x, user);
    }
    if Steady(c.fcse, x) && forall b :: Matches(e, b, Translate(f, c, mem, x, b, user)) {
      forall y: bv32, b: Access | Granule(y) == Granule(x) ensures Agrees(e, y, b, Translate(f, c, mem, y, b, user)) {
        MatchAgrees(f, c, mem, e, x, user, y, b);
      }
    }
  }

  lemma CoversSteady(f: Features, c: Cp15, mem: Memory, e: Entry, x: bv32, user: bool)
    requires GranuleAligned(c) && Proper(e) && Covers(f, c, mem, e, x, user)
    ensures Steady(c.fcse, x)
  {
    hide Translate, Granule, GranuleAligned, Steady, Base, Through;
    var b := SomeAccess(e.prot);
    var w := Translate(f, c, mem, x, b, user);
    assert Agrees(e, x, b, w);
    AgreeMatches(e, x, b, w);
    FillPlace(f, c, mem, x, b, user);
  }

  lemma EntryIsProper(f: Features, c: Cp15, mem: Memory, x: bv32, a: Access, user: bool)
    requires Translate(f, c, mem, x, a, user).Mapped?
    ensures var e := EntryOf(Translate(f, c, mem, x, a, user));
            Proper(e) && forall b :: Matches(e, b, Translate(f, c, mem, x, b, user))
  {
    hide Translate;
    var w := Translate(f, c, mem, x, a, user);
    forall b ensures CoherentPair(w, a, Translate(f, c, mem, x, b, user), b) {
      TranslateCoherent(f, c, mem, x, a, b, user);
    }
    BaseTwice(w.phys);
    hide Base;
  }

  lemma BaseTwice(p: bv64)
    ensures Base(Base(p)) == Base(p)
  {
  }

  /** An entry filled from one access agrees with the walk over its whole granule and for every access type
      exactly when the address is not moved by the process id or the id is a multiple of 1 KB. */
  lemma FillExact(f: Features, c: Cp15, mem: Memory, x: bv32, a: Access, user: bool)
    requires GranuleAligned(c) && Translate(f, c, mem, x, a, user).Mapped?
    ensures Covers(f, c, mem, EntryOf(Translate(f, c, mem, x, a, user)), x, user) <==> !IsLow(x) || FcseAligned(c.fcse)
  {
    hide Translate, Covers, GranuleAligned, FcseAligned, IsLow, Matches, EntryOf;
    EntryIsProper(f, c, mem, x, a, user);
    CoversExact(f, c, mem, EntryOf(Translate(f, c, mem, x, a, user)), x, user);
  }

  // ---------------------------------------------------------------- runs

  /** When an entry was filled: the registers, the memory and the access. */
  datatype Fill = Fill(cp15: Cp15, mem: Memory, va: bv32, a: Access)

  /** The translation state of a CPU, and for each entry how it was filled. */
  datatype Mmu = Mmu(cp15: Cp15, context: bv32, mem: Memory, tlb: Table, fills: map<(bv32, bool), Fill>)

  datatype Op =
    | Miss(va: bv32, a: Access, user: bool)  // cpu_arm_handle_mmu_fault
    | WriteDacr(value: bv32)
    | WriteFcse(value: bv32)
    | WriteContextidr(value: bv32)
    | WriteSctlr(value: bv32)
    | WriteTtbcr(value: bv32)
    | WriteTtbr0(value: bv32)
    | WriteTtbr1(value: bv32)
    | WriteTtbr064(wide: bv64)
    | WriteTtbr164(wide: bv64)
    | TlbiAll
    | TlbiMva(value: bv32)  // also by MVA, all ASIDs
    | TlbiAsid(value: bv32)
    | StoreTables(mem: Memory)  // the guest writes memory
    | Evict(key: (bv32, bool))  // a slot of the hash is reused

  function Flush(s: Mmu): Mmu {
    s.(tlb := map[], fills := map[])
  }

  function Drop(s: Mmu, keys: set<(bv32, bool)>): Mmu {
    s.(tlb := s.tlb - keys, fills := s.fills - keys)
  }

  /** TTBCR with the masks derived from it. A shift uses the low five bits of its count. */
  function SetTtbcr(c: Cp15, value: bv32): Cp15 {
    var count := value & 0x1f;
    c.(ttbcr := value, ttbcrMask := !(0xffff_ffff >> count), baseMask := !(0x3fff >> count))
  }

  function LpaeTtbcr(value: bv32): bv32 {
    value & !((7 << 19) | (3 << 14) | (0xf << 3))
  }

  /** The registers after a CP15 write. */
  function Written(f: Features, c: Cp15, op: Op): Cp15 {
    match op
    case WriteDacr(value) => c.(dacr := value)
    case WriteFcse(value) => c.(fcse := value)
    case WriteSctlr(value) => c.(sctlr := value)
    case WriteTtbcr(value) => SetTtbcr(c, if f.lpae then LpaeTtbcr(value) else value & 7)
    case WriteTtbr0(value) => c.(ttbr0 := value)
    case WriteTtbr1(value) => c.(ttbr1 := value)
    case WriteTtbr064(value) => c.(ttbr0Hi := High(value), ttbr0 := Low(value))
    case WriteTtbr164(value) => c.(ttbr1Hi := High(value), ttbr1 := Low(value))
    case _ => c
  }

  /** Which writes flush. TTBR0 and TTBR1 (in 32 bits), TTBR1 in 64 bits, and TTBCR without LPAE do not. */
  predicate Flushes(f: Features, op: Op) {
    match op
    case WriteTtbcr(_) => f.lpae
    case WriteTtbr0(_) | WriteTtbr1(_) | WriteTtbr164(_) | StoreTables(_) => false
    case Miss(_, _, _) | TlbiMva(_) | Evict(_) => false
    case _ => true
  }

  ghost function Step(f: Features, s: Mmu, op: Op): Mmu {
    match op
    case Miss(va, a, user) =>
      var w, key := Translate(f, s.cp15, s.mem, va, a, user), (Granule(va), user);
      if w.Mapped? then s.(tlb := s.tlb[key := EntryOf(w)], fills := s.fills[key := Fill(s.cp15, s.mem, va, a)]) else s
    case TlbiMva(value) => Drop(s, {(Granule(value), false), (Granule(value), true)})
    case Evict(key) => Drop(s, {key})
    case _ =>
      if IsIdle(s, op) then s
      else if Flushes(f, op) then Flush(Changed(f, s, op)) else Changed(f, s, op)
  }

  /** FCSEIDR and CONTEXTIDR writes that change nothing are ignored. */
  predicate IsIdle(s: Mmu, op: Op) {
    match op
    case WriteFcse(value) => value == s.cp15.fcse
    case WriteContextidr(value) => value == s.context
    case _ => false
  }

  function Changed(f: Features, s: Mmu, op: Op): Mmu {
    s.(cp15 := Written(f, s.cp15, op),
       context := if op.WriteContextidr? then op.value else s.context,
       mem := if op.StoreTables? then op.mem else s.mem)
  }

  function High(value: bv64): bv32 {
    (value >> 32) as bv32
  }

  function Low(value: bv64): bv32 {
    (value & 0xffff_ffff) as bv32
  }

  /** This entry of the table is the one that its fill gave. */
  ghost predicate FilledBy(f: Features, e: Entry, g: bv32, user: bool, fill: Fill) {
    && Granule(fill.va) == g
    && var w := Translate(f, fill.cp15, fill.mem, fill.va, fill.a, user);
    && w.Mapped? && e == EntryOf(w)
  }

  /** Granules are never cut, and every entry is on record. */
  ghost predicate Inv(f: Features, s: Mmu) {
    && GranuleAligned(s.cp15)
    && s.tlb.Keys == s.fills.Keys
    && forall g: bv32, user: bool :: (g, user) in s.tlb ==> FilledBy(f, s.tlb[(g, user)], g, user, s.fills[(g, user)])
  }

  lemma MaskBits(all: bv32, count: bv32)
    requires all == 0xffff_ffff && count < 8
    ensures !(all >> count) & 0x3ff == 0
  {
  }

  lemma CountBits(value: bv32)
    ensures (value & 7) & 0x1f < 8
    ensures (value & !((7 << 19) | (3 << 14) | (0xf << 3))) & 0x1f < 8
  {
  }

  lemma SetTtbcrAligned(c: Cp15, value: bv32)
    requires value & 0x1f < 8
    ensures GranuleAligned(SetTtbcr(c, value)) && SetTtbcr(c, value).fcse == c.fcse
  {
    MaskBits(0xffff_ffff, value & 0x1f);
  }

  lemma TtbcrAligned(c: Cp15, value: bv32)
    ensures GranuleAligned(SetTtbcr(c, value & 7)) && SetTtbcr(c, value & 7).fcse == c.fcse
    ensures GranuleAligned(SetTtbcr(c, LpaeTtbcr(value))) && SetTtbcr(c, LpaeTtbcr(value)).fcse == c.fcse
  {
    hide SetTtbcr, GranuleAligned;
    CountBits(value);
    SetTtbcrAligned(c, value & 7);
    SetTtbcrAligned(c, LpaeTtbcr(value));
  }

  lemma DropInv(f: Features, s: Mmu, keys: set<(bv32, bool)>)
    requires Inv(f, s)
    ensures Inv(f, Drop(s, keys))
  {
    hide FilledBy, GranuleAligned;
    assert (s.tlb - keys).Keys == s.tlb.Keys - keys == (s.fills - keys).Keys;
  }

  lemma FillInv(f: Features, s: Mmu, g: bv32, user: bool, e: Entry, fill: Fill)
    requires Inv(f, s) && FilledBy(f, e, g, user, fill)
    ensures Inv(f, s.(tlb := s.tlb[(g, user) := e], fills := s.fills[(g, user) := fill]))
  {
    hide FilledBy, GranuleAligned;
    assert s.tlb[(g, user) := e].Keys == s.tlb.Keys + {(g, user)} == s.fills[(g, user) := fill].Keys;
  }

  lemma MissInv(f: Features, s: Mmu, va: bv32, a: Access, user: bool)
    requires Inv(f, s)
    ensures Inv(f, Step(f, s, Miss(va, a, user)))
  {
    hide Translate, EntryOf, Inv, Granule;
    var w := Translate(f, s.cp15, s.mem, va, a, user);
    if w.Mapped? {
      FillInv(f, s, Granule(va), user, EntryOf(w), Fill(s.cp15, s.mem, va, a));
    }
  }

  lemma WrittenAligned(f: Features, c: Cp15, op: Op)
    requires GranuleAligned(c)
    ensures GranuleAligned(Written(f, c, op))
  {
    hide MaskAligned, SetTtbcr, LpaeTtbcr, High, Low;
    if op.WriteTtbcr? { TtbcrAligned(c, op.value); }
  }

  lemma ChangedInv(f: Features, s: Mmu, op: Op)
    requires Inv(f, s)
    ensures Inv(f, Changed(f, s, op)) && Inv(f, Flush(Changed(f, s, op)))
  {
    hide Written, MaskAligned, FilledBy;
    WrittenAligned(f, s.cp15, op);
  }

  /** Every step keeps the record. */
  lemma StepInv(f: Features, s: Mmu, op: Op)
    requires Inv(f, s)
    ensures Inv(f, Step(f, s, op))
  {
    hide Translate, Granule, EntryOf, Flush, Drop, Changed, Flushes, IsIdle, Inv;
    if op.Miss? {
      MissInv(f, s, op.va, op.a, op.user);
    } else if op.TlbiMva? {
      DropInv(f, s, {(Granule(op.value), false), (Granule(op.value), true)});
    } else if op.Evict? {
      DropInv(f, s, {op.key});
    } else {
      ChangedInv(f, s, op);
    }
  }

  ghost function Run(f: Features, s: Mmu, ops: seq<Op>): Mmu
    decreases |ops|
  {
    if ops == [] then s else Run(f, Step(f, s, ops[0]), ops[1..])
  }

  lemma {:induction false} RunInv(f: Features, s: Mmu, ops: seq<Op>)
    requires Inv(f, s)
    ensures Inv(f, Run(f, s, ops))
    decreases |ops|
  {
    hide Step, Inv;
    if ops != [] {
      StepInv(f, s, ops[0]);
      RunInv(f, Step(f, s, ops[0]), ops[1..]);
    }
  }

  // ---------------------------------------------------------------- when a table is right

  /** Two walks would fill the same entry, or neither fills any. */
  ghost predicate SameEntry(w: Walk, w': Walk) {
    if w.Mapped? then w'.Mapped? && EntryOf(w') == EntryOf(w) else w'.Fault?
  }

  /** For the address that missed, walks give for every kind of access what they gave when the entry was
      filled; and that address is not moved by part of a granule. */
  ghost predicate Fresh(f: Features, c: Cp15, mem: Memory, user: bool, fill: Fill) {
    && Steady(c.fcse, fill.va)
    && forall b ::
         SameEntry(Translate(f, fill.cp15, fill.mem, fill.va, b, user), Translate(f, c, mem, fill.va, b, user))
  }

  lemma EntryExact(f: Features, c: Cp15, mem: Memory, e: Entry, g: bv32, user: bool, fill: Fill)
    requires GranuleAligned(c) && FilledBy(f, e, g, user, fill)
    ensures Covers(f, c, mem, e, g, user) <==> Fresh(f, c, mem, user, fill)
  {
    hide Translate, GranuleAligned, EntryOf, Steady, Agrees, Proper, Granule;
    EntryIsProper(f, fill.cp15, fill.mem, fill.va, fill.a, user);
    CoversExact(f, c, mem, e, fill.va, user);
    assert Granule(g) == g by { GranuleTwice(fill.va); }
    assert Covers(f, c, mem, e, g, user) == Covers(f, c, mem, e, fill.va, user);
  }

  lemma GranuleTwice(x: bv32)
    ensures Granule(Granule(x)) == Granule(x)
  {
  }

  lemma CoherentIsCovered(f: Features, c: Cp15, mem: Memory, tlb: Table)
    ensures CoherentTable(f, c, mem, tlb) <==>
            forall g: bv32, user: bool :: (g, user) in tlb && Granule(g) == g ==> Covers(f, c, mem, tlb[(g, user)], g, user)
  {
    hide Translate, Agrees, Granule;
    if forall g: bv32, user: bool :: (g, user) in tlb && Granule(g) == g ==> Covers(f, c, mem, tlb[(g, user)], g, user) {
      forall va: bv32, user: bool, a: Access | (Granule(va), user) in tlb
        ensures Agrees(tlb[(Granule(va), user)], va, a, Translate(f, c, mem, va, a, user))
      {
        GranuleTwice(va);
        assert Covers(f, c, mem, tlb[(Granule(va), user)], Granule(va), user);
      }
    }
  }

  lemma KeysAreGranules(f: Features, s: Mmu, g: bv32, user: bool)
    requires Inv(f, s) && (g, user) in s.tlb
    ensures Granule(g) == g
  {
    hide Translate, Granule;
    assert FilledBy(f, s.tlb[(g, user)], g, user, s.fills[(g, user)]);
    GranuleTwice(s.fills[(g, user)].va);
  }

  lemma TableExact(f: Features, s: Mmu)
    requires Inv(f, s)
    ensures CoherentTable(f, s.cp15, s.mem, s.tlb) <==>
            forall g: bv32, user: bool :: (g, user) in s.tlb ==> Fresh(f, s.cp15, s.mem, user, s.fills[(g, user)])
  {
    hide CoherentTable, Fresh, Covers, Granule, GranuleAligned, FilledBy;
    CoherentIsCovered(f, s.cp15, s.mem, s.tlb);
    forall g: bv32, user: bool | (g, user) in s.tlb
      ensures Granule(g) == g
      ensures Covers(f, s.cp15, s.mem, s.tlb[(g, user)], g, user) <==> Fresh(f, s.cp15, s.mem, user, s.fills[(g, user)])
    {
      KeysAreGranules(f, s, g, user);
      EntryExact(f, s.cp15, s.mem, s.tlb[(g, user)], g, user, s.fills[(g, user)]);
    }
  }

  /** TLB soundness, exactly: after any run whatever from an empty TLB, every entry agrees with a fresh walk at
      every address of its granule and for every access type, if and only if the walks of the addresses that
      were filled are what they were, and none of those addresses is moved by part of a granule. */
  lemma RunExact(f: Features, s: Mmu, ops: seq<Op>)
    requires s.tlb == map[] && s.fills == map[] && GranuleAligned(s.cp15)
    ensures var t := Run(f, s, ops);
            && t.tlb.Keys == t.fills.Keys
            && (CoherentTable(f, t.cp15, t.mem, t.tlb) <==>
                forall g: bv32, user: bool :: (g, user) in t.tlb ==> Fresh(f, t.cp15, t.mem, user, t.fills[(g, user)]))
  {
    hide CoherentTable, Fresh, Step, GranuleAligned, FilledBy;
    RunInv(f, s, ops);
    TableExact(f, Run(f, s, ops));
  }

  // ---------------------------------------------------------------- runs that stay sound

  /** Every entry was filled from the registers and the memory of now. */
  ghost predicate Current(s: Mmu) {
    forall g: bv32, user: bool :: (g, user) in s.fills ==>
      s.fills[(g, user)].cp15 == s.cp15 && s.fills[(g, user)].mem == s.mem
  }

  lemma CurrentCoherent(f: Features, s: Mmu)
    requires Inv(f, s) && Current(s) && FcseAligned(s.cp15.fcse)
    ensures CoherentTable(f, s.cp15, s.mem, s.tlb)
  {
    hide Translate, CoherentTable, Granule, GranuleAligned, FcseAligned;
    TableExact(f, s);
    forall g: bv32, user: bool | (g, user) in s.tlb ensures Fresh(f, s.cp15, s.mem, user, s.fills[(g, user)]) {
      var fill := s.fills[(g, user)];
      assert fill.cp15 == s.cp15 && fill.mem == s.mem;
    }
  }

  /** Steps after which nothing that a walk reads has changed behind the TLB's back; process ids are
      multiples of 1 KB (the architecture has them multiples of 32 MB). */
  predicate Quiet(f: Features, op: Op) {
    (op.Miss? || op.TlbiMva? || op.Evict? || Flushes(f, op)) && (op.WriteFcse? ==> FcseAligned(op.value))
  }

  lemma WrittenFcse(f: Features, c: Cp15, op: Op)
    ensures Written(f, c, op).fcse == if op.WriteFcse? then op.value else c.fcse
  {
    hide SetTtbcr, LpaeTtbcr, High, Low;
    if op.WriteTtbcr? { SetTtbcrFcse(c, if f.lpae then LpaeTtbcr(op.value) else op.value & 7); }
  }

  lemma SetTtbcrFcse(c: Cp15, value: bv32)
    ensures SetTtbcr(c, value).fcse == c.fcse
  {
  }

  lemma MissCurrent(f: Features, s: Mmu, va: bv32, a: Access, user: bool)
    requires Current(s)
    ensures Current(Step(f, s, Miss(va, a, user))) && Step(f, s, Miss(va, a, user)).cp15 == s.cp15
  {
    hide Translate, Granule, EntryOf;
  }

  lemma DropCurrent(s: Mmu, keys: set<(bv32, bool)>)
    requires Current(s)
    ensures Current(Drop(s, keys)) && Drop(s, keys).cp15 == s.cp15
  {
  }

  lemma FlushFcse(f: Features, s: Mmu, op: Op)
    requires FcseAligned(s.cp15.fcse) && (op.WriteFcse? ==> FcseAligned(op.value))
    ensures FcseAligned(Changed(f, s, op).cp15.fcse)
  {
    hide Written, FcseAligned;
    WrittenFcse(f, s.cp15, op);
  }

  lemma QuietStep(f: Features, s: Mmu, op: Op)
    requires Current(s) && FcseAligned(s.cp15.fcse) && Quiet(f, op)
    ensures Current(Step(f, s, op)) && FcseAligned(Step(f, s, op).cp15.fcse)
  {
    hide Translate, Granule, EntryOf, Changed, FcseAligned, IsIdle, Drop;
    if op.Miss? {
      MissCurrent(f, s, op.va, op.a, op.user);
    } else if op.TlbiMva? {
      DropCurrent(s, {(Granule(op.value), false), (Granule(op.value), true)});
    } else if op.Evict? {
      DropCurrent(s, {op.key});
    } else {
      FlushFcse(f, s, op);
    }
  }

  lemma {:induction false} QuietRun(f: Features, s: Mmu, ops: seq<Op>)
    requires Current(s) && FcseAligned(s.cp15.fcse) && forall op :: op in ops ==> Quiet(f, op)
    ensures Current(Run(f, s, ops)) && FcseAligned(Run(f, s, ops).cp15.fcse)
    decreases |ops|
  {
    hide Step, Quiet, Current, FcseAligned;
    if ops != [] {
      QuietStep(f, s, ops[0]);
      QuietRun(f, Step(f, s, ops[0]), ops[1..]);
    }
  }

  /** TLB soundness of every quiet run from an empty TLB. */
  lemma QuietCoherent(f: Features, s: Mmu, ops: seq<Op>)
    requires s.tlb == map[] && s.fills == map[] && GranuleAligned(s.cp15)
    requires FcseAligned(s.cp15.fcse) && forall op :: op in ops ==> Quiet(f, op)
    ensures var t := Run(f, s, ops); CoherentTable(f, t.cp15, t.mem, t.tlb)
  {
    hide Step, Inv, CoherentTable, Quiet, FcseAligned, GranuleAligned;
    EmptyInv(f, s);
    RunInv(f, s, ops);
    QuietRun(f, s, ops);
    CurrentCoherent(f, Run(f, s, ops));
  }

  lemma FlushEmpties(f: Features, s: Mmu, op: Op)
    requires Flushes(f, op) && !IsIdle(s, op)
    ensures Step(f, s, op) == Flush(Changed(f, s, op))
  {
    hide Translate, Granule, EntryOf, Written;
  }

  /** TLB soundness of every run in which the last thing to change the tables or a TTBR was flushed: after any
      steps at all, a step that flushes and leaves an aligned process id, and quiet steps, every entry agrees
      with a fresh walk. */
  lemma RunCoherent(f: Features, s: Mmu, before: seq<Op>, flush: Op, after: seq<Op>)
    requires s.tlb == map[] && s.fills == map[] && GranuleAligned(s.cp15)
    requires var m := Run(f, s, before);
             Flushes(f, flush) && !IsIdle(m, flush) && FcseAligned(Step(f, m, flush).cp15.fcse)
    requires forall op :: op in after ==> Quiet(f, op)
    ensures var t := Run(f, Step(f, Run(f, s, before), flush), after);
            CoherentTable(f, t.cp15, t.mem, t.tlb)
  {
    hide Step, CoherentTable, Quiet, FcseAligned, GranuleAligned, Changed, FilledBy, IsIdle, Flushes;
    EmptyInv(f, s);
    RunInv(f, s, before);
    var m := Run(f, s, before);
    FlushEmpties(f, m, flush);
    StepInv(f, m, flush);
    QuietCoherent(f, Step(f, m, flush), after);
  }

  lemma EmptyInv(f: Features, s: Mmu)
    requires s.tlb == map[] && s.fills == map[] && GranuleAligned(s.cp15)
    ensures Inv(f, s)
  {
  }

  /** What the softmmu fast path does with an access: an address, or a miss. */
  function Hit(tlb: Table, va: bv32, a: Access, user: bool): (r: Outcome) {
    var key := (Granule(va), user);
    if key in tlb && tlb[key].prot.Allows(a) then HitAt(Through(tlb[key], va)) else NoHit
  }

  datatype Outcome = HitAt(phys: bv64) | NoHit

  /** TLB soundness for one access: through a fresh entry, a hit is where a walk would go, and an entry without
      the permission is a fault of the walk. */
  lemma TlbSound(f: Features, s: Mmu, ops: seq<Op>, va: bv32, a: Access, user: bool)
    requires s.tlb == map[] && s.fills == map[] && GranuleAligned(s.cp15)
    requires var t, key := Run(f, s, ops), (Granule(va), user);
             key in t.tlb && key in t.fills && Fresh(f, t.cp15, t.mem, user, t.fills[key])
    ensures var t := Run(f, s, ops);
            var w := Translate(f, t.cp15, t.mem, va, a, user);
            match Hit(t.tlb, va, a, user)
            case HitAt(phys) => w.Mapped? && w.phys == phys
            case NoHit => w.Fault?
  {
    hide Translate, Granule, Step, Through, GranuleAligned, Fresh, EntryOf;
    EmptyInv(f, s);
    RunInv(f, s, ops);
    var t, key := Run(f, s, ops), (Granule(va), user);
    EntryExact(f, t.cp15, t.mem, t.tlb[key], Granule(va), user, t.fills[key]);
    GranuleTwice(va);
    assert Agrees(t.tlb[key], va, a, Translate(f, t.cp15, t.mem, va, a, user));
  }

  // ---------------------------------------------------------------- writes that do not flush

  /** Both fault, or both go to the same place with the same protection. */
  ghost predicate SameAnswer(w: Walk, w': Walk) {
    if w.Mapped? then w'.Mapped? && w'.phys == w.phys && w'.prot == w.prot else w'.Fault?
  }

  /** At the bases of all cached granules, walks answer every kind of access as before. */
  ghost predicate AnswersKept(f: Features, tlb: Table, c: Cp15, mem: Memory, c': Cp15, mem': Memory) {
    forall g: bv32, user: bool, b: Access :: (g, user) in tlb ==>
      SameAnswer(Translate(f, c, mem, g, b, user), Translate(f, c', mem', g, b, user))
  }

  lemma AtBase(f: Features, c: Cp15, mem: Memory, g: bv32, b: Access, user: bool)
    requires GranuleAligned(c) && Steady(c.fcse, g) && Granule(g) == g
    ensures var w := Translate(f, c, mem, g, b, user); w.Mapped? ==> w.phys == Base(w.phys)
  {
    hide Translate, GranuleAligned, Steady, Base, Granule, Offset;
    TranslateGranule(f, c, mem, g, b, user);
    var w := Translate(f, c, mem, g, b, user);
    if w.Mapped? { NoOffset(w.phys, g); }
  }

  lemma NoOffset(p: bv64, g: bv32)
    requires Granule(g) == g
    ensures AtOffset(p, g) == Base(p)
  {
    BaseOffsetBits(g);
  }

  lemma BaseOffsetBits(g: bv32)
    requires g & 0xfffffc00 == g
    ensures (g & 0x3ff) as bv64 == 0
  {
  }

  /** A walk that ends at the base of a granule, from the base of one, was not moved by part of a granule. */
  lemma BaseIsSteady(f: Features, c: Cp15, mem: Memory, g: bv32, b: Access, user: bool)
    requires GranuleAligned(c) && Granule(g) == g
    requires var w := Translate(f, c, mem, g, b, user); w.Mapped? && w.phys == Base(w.phys)
    ensures Steady(c.fcse, g)
  {
    hide Translate, GranuleAligned, Steady, Base, Granule, Through, AtOffset;
    var w := Translate(f, c, mem, g, b, user);
    FillPlace(f, c, mem, g, b, user);
    ThroughBase(w.phys, w.prot, g);
    NoOffset(w.phys, g);
  }

  lemma KeptSteady(f: Features, c: Cp15, mem: Memory, c': Cp15, mem': Memory, e: Entry, g: bv32, user: bool)
    requires GranuleAligned(c) && GranuleAligned(c') && Granule(g) == g
    requires Proper(e) && Covers(f, c, mem, e, g, user)
    requires forall b :: SameAnswer(Translate(f, c, mem, g, b, user), Translate(f, c', mem', g, b, user))
    ensures Steady(c'.fcse, g)
  {
    hide Translate, GranuleAligned, Steady, Covers, Base, Granule;
    CoversExact(f, c, mem, e, g, user);
    var b := SomeAccess(e.prot);
    assert Matches(e, b, Translate(f, c, mem, g, b, user));
    assert SameAnswer(Translate(f, c, mem, g, b, user), Translate(f, c', mem', g, b, user));
    AtBase(f, c, mem, g, b, user);
    BaseIsSteady(f, c', mem', g, b, user);
  }

  lemma MatchesIsSame(f: Features, c: Cp15, mem: Memory, c': Cp15, mem': Memory, e: Entry, g: bv32, b: Access, user: bool)
    requires GranuleAligned(c) && GranuleAligned(c') && Granule(g) == g && Steady(c.fcse, g) && Steady(c'.fcse, g)
    requires Matches(e, b, Translate(f, c, mem, g, b, user))
    ensures Matches(e, b, Translate(f, c', mem', g, b, user)) <==>
            SameAnswer(Translate(f, c, mem, g, b, user), Translate(f, c', mem', g, b, user))
  {
    hide Translate, GranuleAligned, Steady, Base, Granule;
    AtBase(f, c, mem, g, b, user);
    AtBase(f, c', mem', g, b, user);
  }

  /** What an entry needs of the walks at the base of its granule is that they answer as before. */
  lemma KeptExact(f: Features, c: Cp15, mem: Memory, c': Cp15, mem': Memory, e: Entry, g: bv32, user: bool)
    requires GranuleAligned(c) && GranuleAligned(c') && Granule(g) == g
    requires Proper(e) && Covers(f, c, mem, e, g, user)
    ensures Covers(f, c', mem', e, g, user) <==>
            forall b :: SameAnswer(Translate(f, c, mem, g, b, user), Translate(f, c', mem', g, b, user))
  {
    hide Translate, GranuleAligned, Steady, Proper, Covers, Granule, Matches, SameAnswer;
    CoversExact(f, c, mem, e, g, user);
    CoversExact(f, c', mem', e, g, user);
    if forall b :: SameAnswer(Translate(f, c, mem, g, b, user), Translate(f, c', mem', g, b, user)) {
      KeptSteady(f, c, mem, c', mem', e, g, user);
    }
    if Steady(c'.fcse, g) {
      forall b
        ensures Matches(e, b, Translate(f, c', mem', g, b, user)) <==>
                SameAnswer(Translate(f, c, mem, g, b, user), Translate(f, c', mem', g, b, user))
      {
        MatchesIsSame(f, c, mem, c', mem', e, g, b, user);
      }
    }
  }

  lemma AllProper(f: Features, s: Mmu, g: bv32, user: bool)
    requires Inv(f, s) && (g, user) in s.tlb
    ensures Proper(s.tlb[(g, user)]) && Granule(g) == g
  {
    hide Translate, Proper, EntryOf, Granule;
    var fill := s.fills[(g, user)];
    assert FilledBy(f, s.tlb[(g, user)], g, user, fill);
    EntryIsProper(f, fill.cp15, fill.mem, fill.va, fill.a, user);
    GranuleTwice(fill.va);
  }

  /** Whatever registers and memory change to behind the TLB's back, a coherent table stays coherent exactly
      when, at the base of every cached granule, walks answer every kind of access after as before. */
  lemma ChangeExact(f: Features, s: Mmu, c': Cp15, mem': Memory)
    requires Inv(f, s) && CoherentTable(f, s.cp15, s.mem, s.tlb) && GranuleAligned(c')
    ensures CoherentTable(f, c', mem', s.tlb) <==> AnswersKept(f, s.tlb, s.cp15, s.mem, c', mem')
  {
    hide Translate, CoherentTable, Covers, Granule, GranuleAligned, Proper, SameAnswer, EntryOf, FilledBy;
    CoherentIsCovered(f, s.cp15, s.mem, s.tlb);
    CoherentIsCovered(f, c', mem', s.tlb);
    forall g: bv32, user: bool | (g, user) in s.tlb
      ensures Granule(g) == g
      ensures Covers(f, c', mem', s.tlb[(g, user)], g, user) <==>
              forall b :: SameAnswer(Translate(f, s.cp15, s.mem, g, b, user), Translate(f, c', mem', g, b, user))
    {
      AllProper(f, s, g, user);
      KeptExact(f, s.cp15, s.mem, c', mem', s.tlb[(g, user)], g, user);
    }
  }

  /** The writes without a flush: TTBR0 and TTBR1 in 32 bits, TTBR1 in 64, TTBCR without LPAE, and memory. */
  predicate IsUnflushed(f: Features, op: Op) {
    op.WriteTtbr0? || op.WriteTtbr1? || op.WriteTtbr164? || op.StoreTables? || (op.WriteTtbcr? && !f.lpae)
  }

  lemma UnflushedChanges(f: Features, s: Mmu, op: Op)
    requires IsUnflushed(f, op)
    ensures Step(f, s, op) == Changed(f, s, op) && Step(f, s, op).tlb == s.tlb
  {
    hide Translate, Granule, EntryOf, Written;
  }

  /** Each of them leaves a coherent TLB coherent exactly under that condition, which can be seen before. */
  lemma UnflushedExact(f: Features, s: Mmu, op: Op)
    requires Inv(f, s) && CoherentTable(f, s.cp15, s.mem, s.tlb) && IsUnflushed(f, op)
    ensures var t := Step(f, s, op);
            && t.tlb == s.tlb
            && (CoherentTable(f, t.cp15, t.mem, t.tlb) <==> AnswersKept(f, s.tlb, s.cp15, s.mem, t.cp15, t.mem))
  {
    hide CoherentTable, GranuleAligned, Written, AnswersKept, FilledBy, Step;
    UnflushedChanges(f, s, op);
    WrittenAligned(f, s.cp15, op);
    var t := Step(f, s, op);
    ChangeExact(f, s, t.cp15, t.mem);
  }

  /** One section at the table of TTBR0 == 0, nothing elsewhere. */
  const ONE_SECTION: Memory := addr => if addr == 0 then 0xc02 else 0

  const ARMV5 := Features(false, false, false, false, false)

  const CLIENT_CP15: Cp15 := RESET_CP15.(sctlr := 1, dacr := 1)

  lemma SectionIsMapped()
    ensures Translate(ARMV5, CLIENT_CP15, ONE_SECTION, 0, Load, false) == Mapped(0, ALL_ACCESS, 0x100000)
  {
    assert Level1Address(CLIENT_CP15, 0) == 0;
    assert LeafV5(ARMV5, CLIENT_CP15, ONE_SECTION, 0) == Leaf(0xc02, Section, 3, false, false, 0, false, 0x100000, 13);
  }

  lemma MovedTableIsEmpty()
    ensures Translate(ARMV5, CLIENT_CP15.(ttbr0 := 0x4000), ONE_SECTION, 0, Load, false).Fault?
  {
    assert Level1Address(CLIENT_CP15.(ttbr0 := 0x4000), 0) == 0x4000;
  }

  /** A 32-bit TTBR0 write leaves an entry that a walk would no longer give. */
  lemma Ttbr0WriteLeavesStaleEntry()
    ensures var s := Run(ARMV5, Mmu(CLIENT_CP15, 0, ONE_SECTION, map[], map[]), [Miss(0, Load, false), WriteTtbr0(0x4000)]);
            !CoherentTable(ARMV5, s.cp15, s.mem, s.tlb)
  {
    SectionIsMapped();
    MovedTableIsEmpty();
    var s0 := Mmu(CLIENT_CP15, 0, ONE_SECTION, map[], map[]);
    var ops := [Miss(0, Load, false), WriteTtbr0(0x4000)];
    hide Translate;
    var s1 := Step(ARMV5, s0, ops[0]);
    var s2 := Step(ARMV5, s1, ops[1]);
    assert ops[1..] == [WriteTtbr0(0x4000)] && ops[1..][1..] == [];
    assert Run(ARMV5, s0, ops) == Run(ARMV5, s1, ops[1..]) == s2;
    assert (Granule(0), false) in s1.tlb;
    assert !Agrees(s2.tlb[(Granule(0), false)], 0, Load, Translate(ARMV5, s2.cp15, s2.mem, 0, Load, false));
  }

  // ---------------------------------------------------------------- the masks of TTBCR.N

  /** The masks are those of the N field of TTBCR. */
  ghost predicate Split(c: Cp15) {
    ShortDescriptorLaws.SplitBy(c, c.ttbcr & 7)
  }

  lemma CountIsN(value: bv32)
    ensures (value & 7) & 0x1f == (value & 7) & 7 && (value & 7) & 7 < 8
    ensures var v := value & !((7 << 19) | (3 << 14) | (0xf << 3)); v & 0x1f == v & 7 && v & 7 < 8
  {
  }

  lemma SetTtbcrSplit(c: Cp15, value: bv32)
    requires value & 0x1f == value & 7 && value & 7 < 8
    ensures Split(SetTtbcr(c, value))
  {
  }

  lemma WrittenSplit(f: Features, c: Cp15, op: Op)
    requires Split(c)
    ensures Split(Written(f, c, op))
  {
    hide SetTtbcr, High, Low, LpaeTtbcr;
    if op.WriteTtbcr? {
      hide Split;
      WrittenCount(op.value);
      SetTtbcrSplit(c, if f.lpae then LpaeTtbcr(op.value) else op.value & 7);
    }
  }

  lemma WrittenCount(value: bv32)
    ensures (value & 7) & 0x1f == (value & 7) & 7 && (value & 7) & 7 < 8
    ensures LpaeTtbcr(value) & 0x1f == LpaeTtbcr(value) & 7 && LpaeTtbcr(value) & 7 < 8
  {
    CountIsN(value);
  }

  lemma ResetSplit()
    ensures Split(RESET_CP15)
  {
  }

  lemma ChangedSplit(f: Features, s: Mmu, op: Op)
    requires Split(s.cp15)
    ensures Split(Changed(f, s, op).cp15)
  {
    hide Written, Split;
    WrittenSplit(f, s.cp15, op);
  }

  lemma StepSplit(f: Features, s: Mmu, op: Op)
    requires Split(s.cp15)
    ensures Split(Step(f, s, op).cp15)
  {
    hide Translate, Granule, EntryOf, Changed, IsIdle, Flushes, Split;
    ChangedSplit(f, s, op);
  }

  /** Whatever a run from reset writes, the masks are those that the arithmetic of short-descriptor walks
      needs. */
  lemma {:induction false} RunSplit(f: Features, s: Mmu, ops: seq<Op>)
    requires Split(s.cp15)
    ensures Split(Run(f, s, ops).cp15)
    decreases |ops|
  {
    hide Step, Split, Written;
    if ops != [] {
      StepSplit(f, s, ops[0]);
      RunSplit(f, Step(f, s, ops[0]), ops[1..]);
    }
  }

  // ---------------------------------------------------------------- the CPU

  datatype Abort = NoAbort | PrefetchAbort | DataAbort

  class MmuCpu {
    const f: Features
    var cp15: Cp15
    var context: bv32
    var mem: Memory
    var tlb: Table
    ghost var fills: map<(bv32, bool), Fill>
    var ifsr: bv32  // c5_insn
    var ifar: bv32  // c6_insn
    var dfsr: bv32  // c5_data
    var dfar: bv32  // c6_data
    var abort: Abort

    ghost function State(): Mmu
      reads this
    {
      Mmu(cp15, context, mem, tlb, fills)
    }

    constructor (f: Features, mem: Memory)
      ensures this.f == f && Inv(f, State()) && abort == NoAbort
      ensures State() == Mmu(RESET_CP15, 0, mem, map[], map[])
    {
      hide GranuleAligned;
      ResetAligned();
      this.f, this.mem := f, mem;
      cp15 := RESET_CP15;
      context, tlb, fills := 0, map[], map[];
      ifsr, ifar, dfsr, dfar, abort := 0, 0, 0, 0, NoAbort;
      new;
      EmptyInv(f, State());
    }

    /** cpu_arm_handle_mmu_fault: fills the TLB, or reports the fault in the status and address
        registers of the kind of access. */
    method HandleMmuFault(va: bv32, a: Access, user: bool) returns (fault: bool)
      requires Inv(f, State())
      modifies `tlb, `fills, `ifsr, `ifar, `dfsr, `dfar, `abort
      ensures State() == Step(f, old(State()), Miss(va, a, user)) && Inv(f, State())
      ensures fault <==> Translate(f, cp15, mem, va, a, user).Fault?
      ensures !fault ==> (Granule(va), user) in tlb && unchanged(`ifsr, `ifar, `dfsr, `dfar, `abort)
      ensures fault ==> unchanged(`tlb)
      ensures fault && a.Fetch? ==>
        && ifsr == Translate(f, cp15, mem, va, a, user).fsr && ifar == va && abort == PrefetchAbort
        && unchanged(`dfsr, `dfar)
      ensures fault && !a.Fetch? ==>
        && IsDataFsr(dfsr, Translate(f, cp15, mem, va, a, user).fsr, a.Store? && f.v6) && dfar == va && abort == DataAbort
        && unchanged(`ifsr, `ifar)
    {
      hide Translate, Granule, EntryOf, Inv, DataFsr, IsDataFsr;
      StepInv(f, State(), Miss(va, a, user));
      var w := GetPhysAddr(f, cp15, mem, va, a, user);
      if w.Mapped? {
        tlb := tlb[(Granule(va), user) := EntryOf(w)];
        fills := fills[(Granule(va), user) := Fill(cp15, mem, va, a)];
        return false;
      }
      if a.Fetch? {
        ifsr, ifar, abort := w.fsr, va, PrefetchAbort;
      } else {
        DataFsrIs(f, w.fsr, a);
        dfsr, dfar, abort := DataFsr(f, w.fsr, a), va, DataAbort;
      }
      return true;
    }

    /** dacr_write, sctlr_write, ttbr064_write. */
    method WriteAndFlush(op: Op)
      requires Inv(f, State()) && (op.WriteDacr? || op.WriteSctlr? || op.WriteTtbr064?)
      modifies `cp15, `tlb, `fills
      ensures State() == Step(f, old(State()), op) && Inv(f, State()) && tlb == map[]
    {
      hide Translate, Granule, EntryOf, Inv, High, Low, SetTtbcr;
      StepInv(f, State(), op);
      cp15 := Written(f, cp15, op);
      TlbFlush();
    }

    method TlbFlush()
      modifies `tlb, `fills
      ensures State() == Flush(old(State()))
    {
      tlb, fills := map[], map[];
    }

    /** Writes of TTBR0 and TTBR1 in 32 bits and of TTBR1 in 64 bits store the field and no more. */
    method WriteUnflushed(op: Op)
      requires Inv(f, State()) && (op.WriteTtbr0? || op.WriteTtbr1? || op.WriteTtbr164?)
      modifies `cp15
      ensures State() == Step(f, old(State()), op) && Inv(f, State())
    {
      hide Translate, Granule, EntryOf, Inv, High, Low, SetTtbcr;
      StepInv(f, State(), op);
      cp15 := Written(f, cp15, op);
    }

    /** fcse_write. */
    method FcseWrite(value: bv32)
      requires Inv(f, State())
      modifies `cp15, `tlb, `fills
      ensures State() == Step(f, old(State()), WriteFcse(value)) && Inv(f, State())
      ensures cp15 == old(cp15).(fcse := value)
      ensures tlb == if value == old(cp15.fcse) then old(tlb) else map[]
    {
      hide Translate, Granule, EntryOf, Inv;
      StepInv(f, State(), WriteFcse(value));
      if cp15.fcse != value {
        TlbFlush();
        cp15 := cp15.(fcse := value);
      }
    }

    /** contextidr_write. */
    method ContextidrWrite(value: bv32)
      requires Inv(f, State())
      modifies `context, `tlb, `fills
      ensures State() == Step(f, old(State()), WriteContextidr(value)) && Inv(f, State()) && context == value
      ensures tlb == if value == old(context) then old(tlb) else map[]
    {
      hide Translate, Granule, EntryOf, Inv;
      StepInv(f, State(), WriteContextidr(value));
      if context != value {
        TlbFlush();
      }
      context := value;
    }

    /** vmsa_ttbcr_write. */
    method TtbcrWrite(value: bv32)
      requires Inv(f, State())
      modifies `cp15, `tlb, `fills
      ensures State() == Step(f, old(State()), WriteTtbcr(value)) && Inv(f, State())
      ensures tlb == if f.lpae then map[] else old(tlb)
    {
      hide Translate, Granule, EntryOf, Inv, LpaeTtbcr, SetTtbcr;
      StepInv(f, State(), WriteTtbcr(value));
      var v := value;
      if f.lpae {
        v := LpaeTtbcr(v);
        TlbFlush();
      } else {
        v := v & 7;
      }
      cp15 := SetTtbcr(cp15, v);
    }

    /** tlbiall_write and tlbiasid_write. */
    method TlbiAllWrite()
      requires Inv(f, State())
      modifies `tlb, `fills
      ensures State() == Step(f, old(State()), TlbiAll) && Inv(f, State()) && tlb == map[]
    {
      hide Translate, Granule, EntryOf, Inv;
      StepInv(f, State(), TlbiAll);
      TlbFlush();
    }

    /** tlbimva_write and tlbimvaa_write. */
    method TlbiMvaWrite(value: bv32)
      requires Inv(f, State())
      modifies `tlb, `fills
      ensures State() == Step(f, old(State()), TlbiMva(value)) && Inv(f, State())
      ensures forall g: bv32, user: bool :: (g, user) in tlb <==> (g, user) in old(tlb) && g != Granule(value)
      ensures forall g: bv32, user: bool :: (g, user) in tlb ==> tlb[(g, user)] == old(tlb)[(g, user)]
    {
      hide Translate, Granule, EntryOf, Inv;
      StepInv(f, State(), TlbiMva(value));
      tlb := tlb - {(Granule(value), false), (Granule(value), true)};
      fills := fills - {(Granule(value), false), (Granule(value), true)};
    }
  }

  /** Everything zero but c2_base_mask. */
  const RESET_CP15: Cp15 := Cp15(0, 0, 0, 0, 0, 0, 0, 0xffffc000, 0, 0)

  lemma ResetAligned()
    ensures GranuleAligned(RESET_CP15) && FcseAligned(RESET_CP15.fcse)
  {
  }

  /** From ARMv6 on, the write-not-read bit of the DFSR tells stores apart. */
  function DataFsr(f: Features, fsr: bv32, a: Access): bv32 {
    if a.Store? && f.v6 then fsr | (1 << 11) else fsr
  }

  /** The status word, with bit 11 set as well for a reported store. */
  predicate IsDataFsr(word: bv32, fsr: bv32, store: bool) {
    && word % 0x800 == fsr % 0x800 && word / 0x1000 == fsr / 0x1000
    && (word / 0x800 % 2 == 1 <==> store || fsr / 0x800 % 2 == 1)
  }

  lemma DataFsrIs(f: Features, fsr: bv32, a: Access)
    ensures IsDataFsr(DataFsr(f, fsr, a), fsr, a.Store? && f.v6)
  {
    if a.Store? && f.v6 { WnrBits(fsr, fsr | (1 << 11)); }
  }

  lemma WnrBits(fsr: bv32, word: bv32)
    requires word == fsr | (1 << 11)
    ensures word % 0x800 == fsr % 0x800 && word / 0x1000 == fsr / 0x1000 && word / 0x800 % 2 == 1
  {
  }
}
