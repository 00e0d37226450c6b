/** Short-descriptor table walks: the ARMv5 and ARMv6 formats and their access permission check. */
module ShortDescriptor {
  import opened Vmsa

  // ---------------------------------------------------------------- permissions

  /** check_ap: the page protection, or no access at all when this access is not permitted. */
  function CheckAp(f: Features, rom: bv2, ap: bv3, manager: bool, a: Access, user: bool): Prot {
    if manager then READ_WRITE else
    var protRo := if a.Store? then NO_ACCESS else READ_ONLY;
    match ap
    case 0 =>
      if a.Store? then NO_ACCESS
      else if rom == 1 then (if user then NO_ACCESS else READ_ONLY)
      else if rom == 2 then READ_ONLY
      else NO_ACCESS
    case 1 => if user then NO_ACCESS else READ_WRITE
    case 2 => if user then protRo else READ_WRITE
    case 3 => READ_WRITE
    case 4 => NO_ACCESS
    case 5 => if user then NO_ACCESS else protRo
    case 6 => protRo
    case _ => if f.v6k then protRo else NO_ACCESS
  }

  /** The architecture's AP table: what a page grants, with no particular access in mind. */
  function ApGrant(f: Features, rom: bv2, ap: bv3, user: bool): Prot {
    var writable := ap == 3 || (!user && (ap == 1 || ap == 2));
    var readable :=
      || writable
      || ap == 2 || ap == 6
      || (ap == 0 && (rom == 2 || (rom == 1 && !user)))
      || (ap == 5 && !user)
      || (ap == 7 && f.v6k);
    Prot(readable, writable, false)
  }

  /** check_ap answers the whole grant when the grant covers the access, and nothing otherwise;
      an instruction fetch needs read permission. */
  lemma CheckApMeaning(f: Features, rom: bv2, ap: bv3, manager: bool, a: Access, user: bool)
    ensures CheckAp(f, rom, ap, manager, a, user) ==
            if manager then READ_WRITE else
            var grant := ApGrant(f, rom, ap, user);
            if (if a.Store? then grant.write else grant.read) then grant else NO_ACCESS
  {
  }

  /** 1 KB, 4 KB, 64 KB, 1 MB and 16 MB of translation. */
  datatype PageKind = Tiny | Small | Large | Section | Super

  /** What the table lookups find before permissions are considered. */
  datatype Leaf =
    | NoLeaf(fsr: bv32)
    | Leaf(desc: bv32, kind: PageKind, ap: bv3, xn: bool, pxn: bool, domain: bv32, manager: bool, size: nat, code: bv32)

  function FaultStatus(code: bv32, domain: bv32): bv32 {
    code | (domain << 4)
  }

  /** The SCTLR bits that permissions depend on. */
  datatype Control = Control(rom: bv2, accessFlag: bool)

  function ControlOf(c: Cp15): Control {
    Control(((c.sctlr >> 8) & 3) as bv2, c.sctlr & (1 << 29) != 0)
  }

  /** The end of get_phys_addr_v5. Every ARMv5 page is executable once it is accessible. */
  function PermitV5(f: Features, k: Control, leaf: Leaf, va: bv32, a: Access, user: bool): Walk {
    match leaf
    case NoLeaf(fsr) => Fault(fsr)
    case Leaf(desc, kind, ap, _, _, domain, manager, size, code) =>
      var prot := CheckAp(f, k.rom, ap, manager, a, user);
      if prot.IsNone() then Fault(FaultStatus(code, domain))
      else Mapped(FrameAddress(desc, kind, va), prot.(exec := true), size)
  }

  /** AP[0], which the simplified access model uses as the access flag. */
  predicate FlagClear(ap: bv3) {
    ap & 1 == 0
  }

  /** The end of get_phys_addr_v6. */
  function PermitV6(f: Features, k: Control, leaf: Leaf, va: bv32, a: Access, user: bool): Walk {
    match leaf
    case NoLeaf(fsr) => Fault(fsr)
    case Leaf(desc, kind, ap, xn0, pxn, domain, manager, size, code) =>
      if manager then Mapped(FrameAddress(desc, kind, va), ALL_ACCESS, size) else
      var xn := xn0 || (pxn && !user);
      if xn && a.Fetch? then Fault(FaultStatus(code, domain))
      else if k.accessFlag && FlagClear(ap) then
        Fault(FaultStatus(if code == 15 then 6 else 3, domain))
      else
        var prot := CheckAp(f, k.rom, ap, manager, a, user);
        if prot.IsNone() then Fault(FaultStatus(code, domain))
        else Mapped(FrameAddress(desc, kind, va), prot.(exec := !xn), size)
  }

  // ---------------------------------------------------------------- descriptor fields

  function Ldl(mem: Memory, a: bv32): bv32 {
    mem(a as bv64)
  }

  /** The low two bits of a descriptor. */
  datatype DescType = Type0 | Type1 | Type2 | Type3

  function TypeOf(desc: bv32): DescType {
    match desc & 3
    case 0 => Type0
    case 1 => Type1
    case 2 => Type2
    case _ => Type3
  }

  /** The two bits of a domain in the DACR. */
  datatype Rights = NoAccess | Client | Reserved | Manager

  predicate Bit(desc: bv32, k: bv5) {
    (desc >> k) & 1 != 0
  }

  /** AP[1:0] at bit `lo`, with AP[2] at bit `hi` where the format has one. */
  function ApAt(desc: bv32, lo: bv5): bv3 {
    ((desc >> lo) & 3) as bv3
  }

  function ExtendedApAt(desc: bv32, lo: bv5, hi: bv5): bv3 {
    ApAt(desc, lo) | (if Bit(desc, hi) then 4 else 0)
  }

  /** The AP field that get_phys_addr_v5 selects in a 64 KB or 4 KB page descriptor. */
  function SubpageAp(desc: bv32, va: bv32): bv3 {
    ((desc >> (4 + ((va >> 13) & 6))) & 3) as bv3
  }

  function DomainOf(desc: bv32): (d: bv32)
    ensures d < 16
  {
    (desc >> 5) & 0xf
  }

  function DomainProt(dacr: bv32, domain: bv32): Rights
    requires domain < 16
  {
    match (dacr >> (domain * 2)) & 3
    case 0 => NoAccess
    case 1 => Client
    case 2 => Reserved
    case _ => Manager
  }

  // ---------------------------------------------------------------- table lookups

  predicate UsesTtbr1(mask: bv32, va: bv32) {
    va & mask != 0
  }

  function Level1Entry(table: bv32, va: bv32): bv32 {
    table | ((va >> 18) & 0x3ffc)
  }

  /** get_level1_table_address. */
  function Level1Address(c: Cp15, va: bv32): bv32 {
    Level1Entry(Level1Table(c, UsesTtbr1(c.ttbcrMask, va)), va)
  }

  function Level1Table(c: Cp15, useTtbr1: bool): bv32 {
    if useTtbr1 then c.ttbr1 & 0xffffc000 else c.ttbr0 & c.baseMask
  }

  function CoarseAddress(desc: bv32, va: bv32): bv32 {
    (desc & 0xfffffc00) | ((va >> 10) & 0x3fc)
  }

  function FineAddress(desc: bv32, va: bv32): bv32 {
    (desc & 0xfffff000) | ((va >> 8) & 0xffc)
  }

  /** The frame named by a descriptor with the offset named by the address. */
  function FrameWord(desc: bv32, kind: PageKind, va: bv32): bv32 {
    match kind
    case Tiny => (desc & 0xfffffc00) | (va & 0x3ff)
    case Small => (desc & 0xfffff000) | (va & 0xfff)
    case Large => (desc & 0xffff0000) | (va & 0xffff)
    case Section => (desc & 0xfff00000) | (va & 0xfffff)
    case Super => (desc & 0xff000000) | (va & 0xffffff)
  }

  function FrameAddress(desc: bv32, kind: PageKind, va: bv32): bv64 {
    FrameWord(desc, kind, va) as bv64
  }

  /** The table lookups of get_phys_addr_v5. */
  function LeafV5(f: Features, c: Cp15, mem: Memory, va: bv32): Leaf {
    var desc := Ldl(mem, Level1Address(c, va));
    var domain := DomainOf(desc);
    var rights := DomainProt(c.dacr, domain);
    var type_ := TypeOf(desc);
    if type_ == Type0 then NoLeaf(FaultStatus(5, domain))
    else if rights == NoAccess || rights == Reserved then NoLeaf(FaultStatus(if type_ == Type2 then 9 else 11, domain))
    else if type_ == Type2 then SectionV5(desc, domain, rights == Manager)
    else if type_ == Type1 then PageV5(f, Ldl(mem, CoarseAddress(desc, va)), true, va, domain, rights == Manager)
    else PageV5(f, Ldl(mem, FineAddress(desc, va)), false, va, domain, rights == Manager)
  }

  function SectionV5(desc: bv32, domain: bv32, manager: bool): Leaf {
    Leaf(desc, Section, ApAt(desc, 10), false, false, domain, manager, 0x100000, 13)
  }

  function PageV5(f: Features, desc: bv32, coarse: bool, va: bv32, domain: bv32, manager: bool): Leaf {
    match TypeOf(desc)
    case Type0 => NoLeaf(FaultStatus(7, domain))
    case Type1 => Leaf(desc, Large, SubpageAp(desc, va), false, false, domain, manager, 0x10000, 15)
    case Type2 => Leaf(desc, Small, SubpageAp(desc, va), false, false, domain, manager, 0x1000, 15)
    case _ =>
      if !coarse then
        Leaf(desc, Tiny, ApAt(desc, 4), false, false, domain, manager, 0x400, 15)
      else if f.xscale then
        Leaf(desc, Small, ApAt(desc, 4), false, false, domain, manager, 0x400, 15)
      else NoLeaf(FaultStatus(7, domain))
  }

  /** The table lookups of get_phys_addr_v6. */
  function LeafV6(f: Features, c: Cp15, mem: Memory, va: bv32): Leaf {
    var desc := Ldl(mem, Level1Address(c, va));
    var type_ := TypeOf(desc);
    if type_ == Type0 || (type_ == Type3 && !f.pxn) then NoLeaf(FaultStatus(5, 0)) else
    var domain := if type_ == Type1 || !Bit(desc, 18) then DomainOf(desc) else 0;
    var rights := DomainProt(c.dacr, domain);
    if rights == NoAccess || rights == Reserved then NoLeaf(FaultStatus(if type_ != Type1 then 9 else 11, domain))
    else if type_ == Type1 then
      PageV6(Ldl(mem, CoarseAddress(desc, va)), f.pxn && Bit(desc, 2), domain, rights == Manager)
    else SectionV6(desc, domain, rights == Manager)
  }

  function SectionV6(desc: bv32, domain: bv32, manager: bool): Leaf {
    var ap := ExtendedApAt(desc, 10, 15);
    if Bit(desc, 18) then
      Leaf(desc, Super, ap, Bit(desc, 4), Bit(desc, 0), domain, manager, 0x1000000, 13)
    else
      Leaf(desc, Section, ap, Bit(desc, 4), Bit(desc, 0), domain, manager, 0x100000, 13)
  }

  function PageV6(desc: bv32, pxn: bool, domain: bv32, manager: bool): Leaf {
    var ap := ExtendedApAt(desc, 4, 9);
    match TypeOf(desc)
    case Type0 => NoLeaf(FaultStatus(7, domain))
    case Type1 => Leaf(desc, Large, ap, Bit(desc, 15), pxn, domain, manager, 0x10000, 15)
    case _ => Leaf(desc, Small, ap, Bit(desc, 0), pxn, domain, manager, 0x1000, 15)
  }

  /** get_phys_addr_v5. */
  function WalkV5(f: Features, c: Cp15, mem: Memory, va: bv32, a: Access, user: bool): Walk {
    PermitV5(f, ControlOf(c), LeafV5(f, c, mem, va), va, a, user)
  }

  /** get_phys_addr_v6. */
  function WalkV6(f: Features, c: Cp15, mem: Memory, va: bv32, a: Access, user: bool): Walk {
    PermitV6(f, ControlOf(c), LeafV6(f, c, mem, va), va, a, user)
  }

  // ---------------------------------------------------------------- coherence across access types

  lemma PermitV5Coherent(f: Features, k: Control, leaf: Leaf, va: bv32, a: Access, b: Access, user: bool)
    ensures CoherentPair(PermitV5(f, k, leaf, va, a, user), a, PermitV5(f, k, leaf, va, b, user), b)
  {
    hide FaultStatus, FrameAddress;
    if leaf.Leaf? {
      CheckApMeaning(f, k.rom, leaf.ap, leaf.manager, a, user);
      CheckApMeaning(f, k.rom, leaf.ap, leaf.manager, b, user);
      hide CheckAp, ApGrant;
    }
  }

  lemma PermitV6Coherent(f: Features, k: Control, leaf: Leaf, va: bv32, a: Access, b: Access, user: bool)
    ensures CoherentPair(PermitV6(f, k, leaf, va, a, user), a, PermitV6(f, k, leaf, va, b, user), b)
  {
    hide FaultStatus, FrameAddress;
    if leaf.Leaf? {
      CheckApMeaning(f, k.rom, leaf.ap, leaf.manager, a, user);
      CheckApMeaning(f, k.rom, leaf.ap, leaf.manager, b, user);
      hide CheckAp, ApGrant;
    }
  }

  /** The protection of an ARMv5 walk is usable for every access type. */
  lemma WalkV5Coherent(f: Features, c: Cp15, mem: Memory, va: bv32, a: Access, b: Access, user: bool)
    ensures CoherentPair(WalkV5(f, c, mem, va, a, user), a, WalkV5(f, c, mem, va, b, user), b)
  {
    hide LeafV5, PermitV5, ControlOf;
    PermitV5Coherent(f, ControlOf(c), LeafV5(f, c, mem, va), va, a, b, user);
  }

  /** The protection of an ARMv6 walk is usable for every access type, execute-never included. */
  lemma WalkV6Coherent(f: Features, c: Cp15, mem: Memory, va: bv32, a: Access, b: Access, user: bool)
    ensures CoherentPair(WalkV6(f, c, mem, va, a, user), a, WalkV6(f, c, mem, va, b, user), b)
  {
    hide LeafV6, PermitV6, ControlOf;
    PermitV6Coherent(f, ControlOf(c), LeafV6(f, c, mem, va), va, a, b, user);
  }

  // ---------------------------------------------------------------- constancy across a granule

  // Each selector of a descriptor depends on the granule only. The granule is a variable `g`, so
  // that every fact is a bare bit-vector formula, decided by itself.

  lemma SelectBits(mask: bv32, x: bv32, g: bv32)
    requires g == x & 0xfffffc00 && mask & 0x3ff == 0
    ensures g & mask == x & mask
  {
  }

  lemma Ttbr1Bits(mask: bv32, x: bv32, g: bv32)
    requires g == x & 0xfffffc00 && mask & 0x3ff == 0
    ensures UsesTtbr1(mask, g) == UsesTtbr1(mask, x)
  {
    SelectBits(mask, x, g);
  }

  lemma SelectorBits(desc: bv32, x: bv32, g: bv32)
    requires g == x & 0xfffffc00
    ensures Level1Entry(desc, g) == Level1Entry(desc, x)
    ensures CoarseAddress(desc, g) == CoarseAddress(desc, x)
    ensures FineAddress(desc, g) == FineAddress(desc, x)
  {
  }

  lemma SubpageBits(x: bv32, g: bv32)
    requires g == x & 0xfffffc00
    ensures (g >> 13) & 6 == (x >> 13) & 6
  {
  }

  lemma SubpageApBits(desc: bv32, x: bv32, g: bv32)
    requires g == x & 0xfffffc00
    ensures SubpageAp(desc, g) == SubpageAp(desc, x)
  {
    SubpageBits(x, g);
  }

  lemma TinyBits(desc: bv32, x: bv32, g: bv32)
    requires g == x & 0xfffffc00
    ensures ((desc & 0xfffffc00) | (x & 0x3ff)) as bv64 ==
            (((desc & 0xfffffc00) | (g & 0x3ff)) as bv64 & 0xffff_ffff_ffff_fc00) | ((x & 0x3ff) as bv64)
  {
  }

  lemma SmallBits(desc: bv32, x: bv32, g: bv32)
    requires g == x & 0xfffffc00
    ensures ((desc & 0xfffff000) | (x & 0xfff)) as bv64 ==
            (((desc & 0xfffff000) | (g & 0xfff)) as bv64 & 0xffff_ffff_ffff_fc00) | ((x & 0x3ff) as bv64)
  {
  }

  lemma LargeBits(desc: bv32, x: bv32, g: bv32)
    requires g == x & 0xfffffc00
    ensures ((desc & 0xffff0000) | (x & 0xffff)) as bv64 ==
            (((desc & 0xffff0000) | (g & 0xffff)) as bv64 & 0xffff_ffff_ffff_fc00) | ((x & 0x3ff) as bv64)
  {
  }

  lemma SectionBits(desc: bv32, x: bv32, g: bv32)
    requires g == x & 0xfffffc00
    ensures ((desc & 0xfff00000) | (x & 0xfffff)) as bv64 ==
            (((desc & 0xfff00000) | (g & 0xfffff)) as bv64 & 0xffff_ffff_ffff_fc00) | ((x & 0x3ff) as bv64)
  {
  }

  lemma SuperBits(desc: bv32, x: bv32, g: bv32)
    requires g == x & 0xfffffc00
    ensures ((desc & 0xff000000) | (x & 0xffffff)) as bv64 ==
            (((desc & 0xff000000) | (g & 0xffffff)) as bv64 & 0xffff_ffff_ffff_fc00) | ((x & 0x3ff) as bv64)
  {
  }

  lemma FrameBits(desc: bv32, kind: PageKind, x: bv32, g: bv32)
    requires g == x & 0xfffffc00
    ensures FrameAddress(desc, kind, x) == AtOffset(FrameAddress(desc, kind, g), x)
  {
    match kind
    case Tiny => TinyBits(desc, x, g);
    case Small => SmallBits(desc, x, g);
    case Large => LargeBits(desc, x, g);
    case Section => SectionBits(desc, x, g);
    case Super => SuperBits(desc, x, g);
  }

  lemma SelectorGranule(desc: bv32, x: bv32)
    ensures Level1Entry(desc, Granule(x)) == Level1Entry(desc, x)
    ensures CoarseAddress(desc, Granule(x)) == CoarseAddress(desc, x)
    ensures FineAddress(desc, Granule(x)) == FineAddress(desc, x)
    ensures SubpageAp(desc, Granule(x)) == SubpageAp(desc, x)
  {
    hide Level1Entry, CoarseAddress, FineAddress, SubpageAp;
    SelectorBits(desc, x, Granule(x));
    SubpageApBits(desc, x, Granule(x));
  }

  /** A page frame of at least 1 KB is entered at the offset of the address. */
  lemma FrameGranule(desc: bv32, kind: PageKind, x: bv32)
    ensures FrameAddress(desc, kind, x) == AtOffset(FrameAddress(desc, kind, Granule(x)), x)
  {
    hide FrameAddress, AtOffset;
    FrameBits(desc, kind, x, Granule(x));
  }

  /** The TTBCR split between TTBR0 and TTBR1 never cuts a granule. */
  predicate GranuleAligned(c: Cp15) {
    MaskAligned(c.ttbcrMask)
  }

  predicate MaskAligned(mask: bv32) {
    mask & 0x3ff == 0
  }

  lemma Ttbr1Granule(c: Cp15, x: bv32)
    requires GranuleAligned(c)
    ensures UsesTtbr1(c.ttbcrMask, Granule(x)) == UsesTtbr1(c.ttbcrMask, x)
  {
    hide UsesTtbr1;
    Ttbr1Bits(c.ttbcrMask, x, Granule(x));
  }

  lemma Level1Granule(c: Cp15, x: bv32)
    requires GranuleAligned(c)
    ensures Level1Address(c, Granule(x)) == Level1Address(c, x)
  {
    hide UsesTtbr1, Level1Table, Level1Entry, Granule, GranuleAligned;
    Ttbr1Granule(c, x);
    SelectorGranule(Level1Table(c, UsesTtbr1(c.ttbcrMask, x)), x);
  }

  lemma PageV5Granule(f: Features, desc: bv32, coarse: bool, x: bv32, domain: bv32, manager: bool)
    ensures PageV5(f, desc, coarse, Granule(x), domain, manager) == PageV5(f, desc, coarse, x, domain, manager)
  {
    hide TypeOf, ApAt, SubpageAp, FaultStatus, Granule;
    SelectorGranule(desc, x);
  }

  lemma LeafV5Granule(f: Features, c: Cp15, mem: Memory, x: bv32)
    requires GranuleAligned(c)
    ensures LeafV5(f, c, mem, Granule(x)) == LeafV5(f, c, mem, x)
  {
    hide Ldl, TypeOf, Level1Address, CoarseAddress, FineAddress, FaultStatus,
      DomainOf, DomainProt, Granule, GranuleAligned, PageV5, SectionV5;
    Level1Granule(c, x);
    var desc := Ldl(mem, Level1Address(c, x));
    var domain := DomainOf(desc);
    var manager := DomainProt(c.dacr, domain) == Manager;
    SelectorGranule(desc, x);
    PageV5Granule(f, Ldl(mem, CoarseAddress(desc, x)), true, x, domain, manager);
    PageV5Granule(f, Ldl(mem, FineAddress(desc, x)), false, x, domain, manager);
  }

  lemma LeafV6Granule(f: Features, c: Cp15, mem: Memory, x: bv32)
    requires GranuleAligned(c)
    ensures LeafV6(f, c, mem, Granule(x)) == LeafV6(f, c, mem, x)
  {
    hide Ldl, TypeOf, Bit, Level1Address, CoarseAddress, FaultStatus, DomainOf, DomainProt,
      PageV6, SectionV6, Granule, GranuleAligned;
    Level1Granule(c, x);
    SelectorGranule(Ldl(mem, Level1Address(c, x)), x);
  }

  /** get_phys_addr_v5 is constant across a granule, the offset of the address apart. */
  lemma WalkV5Granule(f: Features, c: Cp15, mem: Memory, x: bv32, a: Access, user: bool)
    requires GranuleAligned(c)
    ensures SameMapping(WalkV5(f, c, mem, Granule(x), a, user), WalkV5(f, c, mem, x, a, user), x)
  {
    hide LeafV5, AtOffset, CheckAp, ControlOf, FaultStatus, FrameAddress, Granule, GranuleAligned;
    LeafV5Granule(f, c, mem, x);
    var leaf := LeafV5(f, c, mem, x);
    if leaf.Leaf? { FrameGranule(leaf.desc, leaf.kind, x); }
  }

  /** get_phys_addr_v6 is constant across a granule, the offset of the address apart. */
  lemma WalkV6Granule(f: Features, c: Cp15, mem: Memory, x: bv32, a: Access, user: bool)
    requires GranuleAligned(c)
    ensures SameMapping(WalkV6(f, c, mem, Granule(x), a, user), WalkV6(f, c, mem, x, a, user), x)
  {
    hide LeafV6, AtOffset, CheckAp, ControlOf, FaultStatus, FrameAddress, Granule, GranuleAligned;
    LeafV6Granule(f, c, mem, x);
    var leaf := LeafV6(f, c, mem, x);
    if leaf.Leaf? { FrameGranule(leaf.desc, leaf.kind, x); }
  }
}
