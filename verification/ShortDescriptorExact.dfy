/** Short-descriptor walks decided from the descriptor words alone. The fields of a word are read here with `/` and
    `%` and from the architecture's tables, apart from the masks and shifts of the walks themselves. */
module ShortDescriptorExact {
  import opened Vmsa
  import opened ShortDescriptor
  import opened ShortDescriptorLaws

  // ---------------------------------------------------------------- the words of a walk

  // Single bits of a word, as odd quotients.

  predicate Bit0Set(word: bv32) {
    word % 2 == 1
  }

  predicate Bit2Set(word: bv32) {
    word / 0x4 % 2 == 1
  }

  predicate Bit4Set(word: bv32) {
    word / 0x10 % 2 == 1
  }

  predicate Bit15Set(word: bv32) {
    word / 0x8000 % 2 == 1
  }

  predicate Bit18Set(word: bv32) {
    word / 0x40000 % 2 == 1
  }

  predicate Bit29Set(word: bv32) {
    word / 0x20000000 % 2 == 1
  }

  /** Pair `k` of the sixteen pairs of bits in a word. */
  function Pair(word: bv32, k: bv32): (r: bv32)
    ensures r < 4
    decreases k
  {
    if k == 0 then word % 4 else Pair(word / 4, k - 1)
  }

  /** TTBR0 translates the lowest 2^(32 - N) bytes. */
  predicate Ttbr0Covers(n: bv32, va: bv32)
    requires n < 8
  {
    match n
    case 0 => true
    case 1 => va < 0x80000000
    case 2 => va < 0x40000000
    case 3 => va < 0x20000000
    case 4 => va < 0x10000000
    case 5 => va < 0x08000000
    case 6 => va < 0x04000000
    case _ => va < 0x02000000
  }

  function Half(x: bv32): bv32 {
    x / 2
  }

  function Double(x: bv32): bv32 {
    2 * x
  }

  /** A word rounded down to a multiple of 2^k. */
  function Down(x: bv32, k: bv32): bv32
    decreases k
  {
    if k == 0 then x else Double(Down(Half(x), k - 1))
  }

  /** The table that translates the address: TTBR0 holds one of 2^(14 - N) bytes, TTBR1 one of 2^14 bytes. */
  function TableBase(c: Cp15, n: bv32, va: bv32): bv32
    requires n < 8
  {
    if Ttbr0Covers(n, va) then Down(c.ttbr0, 14 - n) else Down(c.ttbr1, 14)
  }

  /** The level 1 descriptor of an address. */
  function FirstWord(c: Cp15, n: bv32, mem: Memory, va: bv32): bv32
    requires n < 8
  {
    Ldl(mem, MegabyteEntry(TableBase(c, n, va), va))
  }

  lemma CoversBits(n: bv32, va: bv32)
    requires n < 8
    ensures (va & !(0xffff_ffff >> n) != 0) == !Ttbr0Covers(n, va)
  {
  }

  function Masked(x: bv32, k: bv32): bv32
    requires k < 32
  {
    x & !((1 << k) - 1)
  }

  lemma UnmaskedBits(x: bv32)
    ensures Masked(x, 0) == x
  {
  }

  lemma NextMaskedBits(x: bv32, k: bv32)
    requires 0 < k < 32
    ensures Double(Masked(Half(x), k - 1)) == Masked(x, k)
  {
    calc {
      Double(Masked(Half(x), k - 1));
      2 * ((x / 2) & !((1 << (k - 1)) - 1));
      { HalfBits(x, k); }
      x & !((1 << k) - 1);
      Masked(x, k);
    }
  }

  lemma HalfBits(x: bv32, k: bv32)
    requires 0 < k < 32
    ensures 2 * ((x / 2) & !((1 << (k - 1)) - 1)) == x & !((1 << k) - 1)
  {
  }

  lemma {:induction false} DownBits(x: bv32, k: bv32)
    requires k < 32
    ensures Down(x, k) == Masked(x, k)
    decreases k
  {
    hide Masked, Half, Double;
    if k == 0 {
      UnmaskedBits(x);
    } else {
      DownBits(Half(x), k - 1);
      NextMaskedBits(x, k);
    }
  }

  lemma BaseMaskBits(n: bv32)
    requires n < 8
    ensures !((0x3fff as bv32) >> n) == !((1 << (14 - n)) - 1)
  {
  }

  lemma PairBits(word: bv32, k: bv32)
    requires k < 16
    ensures (word >> (k * 2)) & 3 == Pair(word, k)
  {
    if k != 0 {
      NextPairBits(word, k);
      PairBits(word / 4, k - 1);
    }
  }

  lemma NextPairBits(word: bv32, k: bv32)
    requires 0 < k < 16
    ensures (word >> (k * 2)) & 3 == ((word / 4) >> ((k - 1) * 2)) & 3
  {
  }

  lemma TableBaseExact(c: Cp15, n: bv32, va: bv32)
    requires SplitBy(c, n)
    ensures Level1Table(c, UsesTtbr1(c.ttbcrMask, va)) == TableBase(c, n, va)
  {
    CoversBits(n, va);
    if Ttbr0Covers(n, va) {
      Ttbr0BaseExact(c, n);
    } else {
      Ttbr1BaseExact(c);
    }
  }

  lemma Ttbr0BaseExact(c: Cp15, n: bv32)
    requires SplitBy(c, n)
    ensures Level1Table(c, false) == Down(c.ttbr0, 14 - n)
  {
    DownBits(c.ttbr0, 14 - n);
    BaseMaskBits(n);
  }

  lemma Ttbr1BaseExact(c: Cp15)
    ensures Level1Table(c, true) == Down(c.ttbr1, 14)
  {
    DownBits(c.ttbr1, 14);
  }

  /** The walk reads the level 1 descriptor of the table that TTBCR.N selects. */
  lemma FirstWordExact(c: Cp15, n: bv32, mem: Memory, va: bv32)
    requires SplitBy(c, n)
    ensures Ldl(mem, Level1Address(c, va)) == FirstWord(c, n, mem, va)
  {
    hide Level1Address, Level1Table, MegabyteEntry, UsesTtbr1, InTable, Level1Bytes, TableBase, Ldl;
    Level1Arithmetic(c, n, va);
    TableBaseExact(c, n, va);
  }

  // ---------------------------------------------------------------- fields

  /** The low two bits of a word. */
  predicate Low(word: bv32, k: bv32) {
    word % 4 == k
  }

  lemma TypeFields(word: bv32)
    ensures TypeOf(word) == if Low(word, 0) then Type0 else if Low(word, 1) then Type1 else if Low(word, 2) then Type2 else Type3
    ensures !Low(word, 0) && !Low(word, 1) && !Low(word, 2) ==> Low(word, 3)
    ensures Low(word, 0) ==> !Low(word, 1) && !Low(word, 2) && !Low(word, 3)
    ensures Low(word, 1) ==> !Low(word, 2) && !Low(word, 3)
    ensures Low(word, 2) ==> !Low(word, 3)
  {
    LowBits(word);
  }

  lemma LowBits(word: bv32)
    ensures word & 3 == word % 4
  {
  }

  lemma BitFields(word: bv32)
    ensures Bit(word, 0) == Bit0Set(word)
    ensures Bit(word, 2) == Bit2Set(word)
    ensures Bit(word, 4) == Bit4Set(word)
    ensures Bit(word, 15) == Bit15Set(word)
    ensures Bit(word, 18) == Bit18Set(word)
  {
    hide Bit, Bit0Set, Bit2Set, Bit4Set, Bit15Set, Bit18Set;
    Bit0(word);
    Bit2(word);
    Bit4(word);
    Bit15(word);
    Bit18(word);
  }

  lemma Bit0(word: bv32)
    ensures Bit(word, 0) == Bit0Set(word)
  {
    Bit0Raw(word);
  }

  lemma Bit0Raw(word: bv32)
    ensures ((word >> 0) & 1 != 0) == (word % 2 == 1)
  {
  }

  lemma Bit2(word: bv32)
    ensures Bit(word, 2) == Bit2Set(word)
  {
    Bit2Raw(word);
  }

  lemma Bit2Raw(word: bv32)
    ensures ((word >> 2) & 1 != 0) == (word / 0x4 % 2 == 1)
  {
  }

  lemma Bit4(word: bv32)
    ensures Bit(word, 4) == Bit4Set(word)
  {
    Bit4Raw(word);
  }

  lemma Bit4Raw(word: bv32)
    ensures ((word >> 4) & 1 != 0) == (word / 0x10 % 2 == 1)
  {
  }

  lemma Bit15(word: bv32)
    ensures Bit(word, 15) == Bit15Set(word)
  {
    Bit15Raw(word);
  }

  lemma Bit15Raw(word: bv32)
    ensures ((word >> 15) & 1 != 0) == (word / 0x8000 % 2 == 1)
  {
  }

  lemma Bit18(word: bv32)
    ensures Bit(word, 18) == Bit18Set(word)
  {
    Bit18Raw(word);
  }

  lemma Bit18Raw(word: bv32)
    ensures ((word >> 18) & 1 != 0) == (word / 0x40000 % 2 == 1)
  {
  }

  lemma DomainFields(word: bv32)
    ensures DomainOf(word) == word / 0x20 % 16
  {
  }

  /** The rights of a domain: its pair of bits in the DACR. */
  function RightsOf(dacr: bv32, domain: bv32): Rights {
    match Pair(dacr, domain)
    case 0 => NoAccess
    case 1 => Client
    case 2 => Reserved
    case _ => Manager
  }

  lemma RightsFields(dacr: bv32, domain: bv32)
    requires domain < 16
    ensures DomainProt(dacr, domain) == RightsOf(dacr, domain)
  {
    PairBits(dacr, domain);
  }

  /** AP[2:0] of a section, and of a page. */
  function SectionAp(word: bv32): bv3 {
    (word / 0x400 % 4 + 4 * (word / 0x8000 % 2)) as bv3
  }

  function PageAp(word: bv32): bv3 {
    (word / 0x10 % 4 + 4 * (word / 0x200 % 2)) as bv3
  }

  lemma SectionApFields(word: bv32)
    ensures ExtendedApAt(word, 10, 15) == SectionAp(word)
  {
  }

  lemma PageApFields(word: bv32)
    ensures ExtendedApAt(word, 4, 9) == PageAp(word)
  {
  }

  /** A fault status: the code and sixteen times the domain. */
  function StatusWord(code: bv32, domain: bv32): bv32 {
    code + 16 * domain
  }

  lemma StatusFields(code: bv32, domain: bv32)
    requires code < 16 && domain < 16
    ensures FaultStatus(code, domain) == StatusWord(code, domain)
  {
  }

  /** The code of an access flag fault, or of a permission fault, of a section or a page. */
  function RefusalCode(page: bool, flag: bool): bv32 {
    if flag then (if page then 6 else 3) else (if page then 15 else 13)
  }

  lemma RefusalFields(page: bool, domain: bv32)
    requires domain < 16
    ensures var code := RefusalCode(page, false);
            && FaultStatus(code, domain) == StatusWord(code, domain)
            && FaultStatus(if code == 15 then 6 else 3, domain) == StatusWord(RefusalCode(page, true), domain)
  {
    StatusesFields(domain);
  }

  lemma StatusesFields(domain: bv32)
    requires domain < 16
    ensures FaultStatus(3, domain) == StatusWord(3, domain) && FaultStatus(5, domain) == StatusWord(5, domain)
    ensures FaultStatus(6, domain) == StatusWord(6, domain) && FaultStatus(7, domain) == StatusWord(7, domain)
    ensures FaultStatus(9, domain) == StatusWord(9, domain) && FaultStatus(11, domain) == StatusWord(11, domain)
    ensures FaultStatus(13, domain) == StatusWord(13, domain) && FaultStatus(15, domain) == StatusWord(15, domain)
  {
    hide FaultStatus, StatusWord;
    StatusFields(3, domain);
    StatusFields(5, domain);
    StatusFields(6, domain);
    StatusFields(7, domain);
    StatusFields(9, domain);
    StatusFields(11, domain);
    StatusFields(13, domain);
    StatusFields(15, domain);
  }

  /** AFE is set and the access flag, AP[0], is not. */
  predicate FlagFault(sctlr: bv32, ap: bv3) {
    Bit29Set(sctlr) && ap % 2 == 0
  }

  /** What the AP table grants under the S and R bits of SCTLR. */
  function Grant(f: Features, sctlr: bv32, ap: bv3, user: bool): Prot {
    ApGrant(f, (sctlr / 0x100 % 4) as bv2, ap, user)
  }

  /** The grant covers the access; a fetch needs read permission. */
  predicate Covered(grant: Prot, a: Access) {
    if a.Store? then grant.write else grant.read
  }

  lemma FlagFields(c: Cp15, ap: bv3)
    ensures (ControlOf(c).accessFlag && FlagClear(ap)) == FlagFault(c.sctlr, ap)
  {
  }

  lemma RomFields(c: Cp15)
    ensures ControlOf(c).rom == (c.sctlr / 0x100 % 4) as bv2
  {
  }

  /** check_ap answers the grant of the AP table when it covers the access. */
  lemma GrantFields(f: Features, c: Cp15, ap: bv3, a: Access, user: bool)
    ensures var grant := Grant(f, c.sctlr, ap, user);
            && CheckAp(f, ControlOf(c).rom, ap, false, a, user) == (if Covered(grant, a) then grant else NO_ACCESS)
            && !grant.exec && (grant.write ==> grant.read)
  {
    hide CheckAp, ControlOf;
    RomFields(c);
    CheckApMeaning(f, ControlOf(c).rom, ap, false, a, user);
  }

  // ---------------------------------------------------------------- ARMv6

  /** The level 1 descriptor is a section, or the pointer to a table. Encoding 3 is a section with PXN only. */
  predicate ValidV6(f: Features, first: bv32) {
    Low(first, 1) || Low(first, 2) || (Low(first, 3) && f.pxn)
  }

  /** The words translate the address: a section, or a page of a table. */
  predicate BackedV6(f: Features, first: bv32, second: bv32) {
    ValidV6(f, first) && (Low(first, 1) ==> !Low(second, 0))
  }

  /** 64 KB or 4 KB by the low bits of the second word, 16 MB or 1 MB by bit 18 of the first. */
  function KindV6(first: bv32, second: bv32): PageKind {
    if Low(first, 1) then (if Low(second, 1) then Large else Small)
    else if Bit18Set(first) then Super
    else Section
  }

  /** The word that names the frame. */
  function LastV6(first: bv32, second: bv32): bv32 {
    if Low(first, 1) then second else first
  }

  /** A supersection is in domain 0. */
  function DomainV6(first: bv32): (d: bv32)
    ensures d < 16
  {
    if !Low(first, 1) && Bit18Set(first) then 0 else first / 0x20 % 16
  }

  function ApV6(first: bv32, second: bv32): bv3 {
    if Low(first, 1) then PageAp(second) else SectionAp(first)
  }

  /** XN, or PXN in a privileged mode. */
  predicate NeverV6(f: Features, first: bv32, second: bv32, user: bool) {
    if Low(first, 1) then
      (if Low(second, 1) then Bit15Set(second) else Bit0Set(second)) || (f.pxn && Bit2Set(first) && !user)
    else Bit4Set(first) || (Bit0Set(first) && !user)
  }

  /** A client of the domain may make the access. */
  predicate ClientV6(f: Features, sctlr: bv32, first: bv32, second: bv32, a: Access, user: bool) {
    && !(a.Fetch? && NeverV6(f, first, second, user))
    && !FlagFault(sctlr, ApV6(first, second))
    && Covered(Grant(f, sctlr, ApV6(first, second), user), a)
  }

  /** The domain lets accesses in, as a client's or as a manager's. */
  predicate EnteredV6(c: Cp15, first: bv32) {
    RightsOf(c.dacr, DomainV6(first)) == Client || RightsOf(c.dacr, DomainV6(first)) == Manager
  }

  /** The access succeeds: the words translate the address, and its domain is a manager's, or a client's with permission. */
  predicate MapsV6(f: Features, c: Cp15, first: bv32, second: bv32, a: Access, user: bool) {
    var rights := RightsOf(c.dacr, DomainV6(first));
    BackedV6(f, first, second) && (rights == Manager || (rights == Client && ClientV6(f, c.sctlr, first, second, a, user)))
  }

  function ProtV6(f: Features, c: Cp15, first: bv32, second: bv32, user: bool): Prot {
    if RightsOf(c.dacr, DomainV6(first)) == Manager then ALL_ACCESS
    else Grant(f, c.sctlr, ApV6(first, second), user).(exec := !NeverV6(f, first, second, user))
  }

  /** The status code of a refused access, by the first check that fails. */
  function CodeV6(f: Features, c: Cp15, first: bv32, second: bv32, a: Access, user: bool): bv32 {
    var page := Low(first, 1);
    if !ValidV6(f, first) then 5
    else if !EnteredV6(c, first) then (if page then 11 else 9)
    else if page && Low(second, 0) then 7
    else if !(a.Fetch? && NeverV6(f, first, second, user)) && FlagFault(c.sctlr, ApV6(first, second)) then
      RefusalCode(page, true)
    else RefusalCode(page, false)
  }

  /** The leaf has the domain, the rights and the fields of its words. */
  ghost predicate DecodedV6(f: Features, leaf: Leaf, first: bv32, second: bv32, manager: bool, user: bool) {
    && leaf.Leaf?
    && leaf.desc == LastV6(first, second)
    && leaf.kind == KindV6(first, second)
    && leaf.ap == ApV6(first, second)
    && leaf.domain == DomainV6(first)
    && leaf.manager == manager
    && (leaf.xn || (leaf.pxn && !user)) == NeverV6(f, first, second, user)
    && leaf.size == SizeOf(leaf.kind)
    && leaf.code == RefusalCode(Low(first, 1), false)
  }

  lemma SectionV6Exact(f: Features, first: bv32, second: bv32, manager: bool, user: bool)
    requires !Low(first, 1)
    ensures DecodedV6(f, SectionV6(first, DomainV6(first), manager), first, second, manager, user)
  {
    hide Low, Bit, Bit0Set, Bit2Set, Bit4Set, Bit15Set, Bit18Set, SectionAp, PageAp, ExtendedApAt, DomainV6;
    BitFields(first);
    SectionApFields(first);
  }

  lemma PageV6Exact(f: Features, first: bv32, second: bv32, manager: bool, user: bool)
    requires Low(first, 1)
    ensures var leaf := PageV6(second, f.pxn && Bit(first, 2), DomainV6(first), manager);
            if Low(second, 0) then leaf == NoLeaf(FaultStatus(7, DomainV6(first)))
            else DecodedV6(f, leaf, first, second, manager, user)
  {
    hide Low, TypeOf, Bit, Bit0Set, Bit2Set, Bit4Set, Bit15Set, Bit18Set, SectionAp, PageAp, ExtendedApAt,
      FaultStatus, DomainV6;
    TypeFields(second);
    BitFields(first);
    BitFields(second);
    PageApFields(second);
  }

  lemma DomainV6Exact(first: bv32)
    ensures DomainV6(first) == if TypeOf(first) == Type1 || !Bit(first, 18) then DomainOf(first) else 0
  {
    hide Low, TypeOf, Bit, Bit0Set, Bit2Set, Bit4Set, Bit15Set, Bit18Set, DomainOf;
    TypeFields(first);
    BitFields(first);
    DomainFields(first);
  }

  /** The status of an ARMv6 walk that ends without a leaf. */
  function AbsentV6(f: Features, c: Cp15, first: bv32): bv32 {
    if !ValidV6(f, first) then FaultStatus(5, 0)
    else if EnteredV6(c, first) then FaultStatus(7, DomainV6(first))
    else FaultStatus(if Low(first, 1) then 11 else 9, DomainV6(first))
  }

  /** The leaf of an ARMv6 walk, from its two words: when there is one, and what it says. */
  lemma LeafV6Exact(f: Features, c: Cp15, mem: Memory, va: bv32, first: bv32, second: bv32, user: bool)
    requires first == Ldl(mem, Level1Address(c, va)) && second == Ldl(mem, CoarseAddress(first, va))
    ensures var leaf := LeafV6(f, c, mem, va);
            if BackedV6(f, first, second) && EnteredV6(c, first) then
              DecodedV6(f, leaf, first, second, RightsOf(c.dacr, DomainV6(first)) == Manager, user)
            else leaf == NoLeaf(AbsentV6(f, c, first))
  {
    hide Ldl, Level1Address, CoarseAddress, Low, TypeOf, Bit, DomainV6, DomainOf, DomainProt, RightsOf, FaultStatus,
      DecodedV6, PageV6, SectionV6;
    RightsFields(c.dacr, DomainV6(first));
    var manager := RightsOf(c.dacr, DomainV6(first)) == Manager;
    TypeFields(first);
    DomainV6Exact(first);
    if Low(first, 1) {
      PageV6Exact(f, first, second, manager, user);
    } else {
      SectionV6Exact(f, first, second, manager, user);
    }
  }

  /** The whole answer of an ARMv6 walk, from its two words. */
  function AnswerV6(f: Features, c: Cp15, first: bv32, second: bv32, va: bv32, a: Access, user: bool): Walk {
    if MapsV6(f, c, first, second, a, user) then
      var kind := KindV6(first, second);
      Mapped(FrameSum(LastV6(first, second), kind, va), ProtV6(f, c, first, second, user), SizeOf(kind))
    else Fault(StatusWord(CodeV6(f, c, first, second, a, user), if ValidV6(f, first) then DomainV6(first) else 0))
  }

  lemma ManagerV6Exact(f: Features, c: Cp15, leaf: Leaf, first: bv32, second: bv32, va: bv32, a: Access, user: bool)
    requires BackedV6(f, first, second) && RightsOf(c.dacr, DomainV6(first)) == Manager
    requires DecodedV6(f, leaf, first, second, true, user)
    ensures PermitV6(f, ControlOf(c), leaf, va, a, user) == AnswerV6(f, c, first, second, va, a, user)
  {
    hide Low, KindV6, LastV6, ApV6, NeverV6, DomainV6, RightsOf, ControlOf, FrameAddress, FrameSum, SizeOf, BackedV6;
    FrameArithmetic(leaf.desc, leaf.kind, va);
  }

  lemma ClientMapsV6(f: Features, c: Cp15, leaf: Leaf, first: bv32, second: bv32, va: bv32, a: Access, user: bool)
    requires BackedV6(f, first, second) && RightsOf(c.dacr, DomainV6(first)) == Client
    requires DecodedV6(f, leaf, first, second, false, user) && ClientV6(f, c.sctlr, first, second, a, user)
    ensures PermitV6(f, ControlOf(c), leaf, va, a, user) == AnswerV6(f, c, first, second, va, a, user)
  {
    hide Low, KindV6, LastV6, ApV6, NeverV6, DomainV6, RightsOf, CheckAp, ControlOf, FrameAddress, FrameSum, SizeOf,
      FlagFault, FlagClear, Grant, BackedV6;
    GrantFields(f, c, ApV6(first, second), a, user);
    FlagFields(c, ApV6(first, second));
    FrameArithmetic(leaf.desc, leaf.kind, va);
  }

  lemma ClientFaultsV6(f: Features, c: Cp15, leaf: Leaf, first: bv32, second: bv32, va: bv32, a: Access, user: bool)
    requires BackedV6(f, first, second) && RightsOf(c.dacr, DomainV6(first)) == Client
    requires DecodedV6(f, leaf, first, second, false, user) && !ClientV6(f, c.sctlr, first, second, a, user)
    ensures PermitV6(f, ControlOf(c), leaf, va, a, user) == AnswerV6(f, c, first, second, va, a, user)
  {
    hide Low, KindV6, LastV6, ApV6, NeverV6, DomainV6, RightsOf, FaultStatus, StatusWord, RefusalCode, CheckAp,
      ControlOf, FrameAddress, FrameSum, SizeOf, FlagFault, FlagClear, Grant;
    RefusalFields(Low(first, 1), DomainV6(first));
    GrantFields(f, c, ApV6(first, second), a, user);
    FlagFields(c, ApV6(first, second));
  }

  lemma AbsentV6Exact(f: Features, c: Cp15, first: bv32, second: bv32, va: bv32, a: Access, user: bool)
    requires !BackedV6(f, first, second) || !EnteredV6(c, first)
    ensures AnswerV6(f, c, first, second, va, a, user) == Fault(AbsentV6(f, c, first))
  {
    hide Low, KindV6, LastV6, ApV6, DomainV6, RightsOf, FaultStatus, StatusWord, FrameSum, SizeOf, ClientV6, ProtV6,
      RefusalCode, NeverV6, FlagFault;
    StatusesFields(0);
    StatusesFields(DomainV6(first));
  }

  lemma WordsV6Exact(f: Features, c: Cp15, mem: Memory, va: bv32, first: bv32, second: bv32, a: Access, user: bool)
    requires first == Ldl(mem, Level1Address(c, va)) && second == Ldl(mem, CoarseAddress(first, va))
    ensures WalkV6(f, c, mem, va, a, user) == AnswerV6(f, c, first, second, va, a, user)
  {
    hide Ldl, Level1Address, CoarseAddress, DomainV6, RightsOf, LeafV6, ControlOf, ClientV6, DecodedV6, BackedV6,
      AbsentV6, AnswerV6;
    LeafV6Exact(f, c, mem, va, first, second, user);
    var leaf := LeafV6(f, c, mem, va);
    if !BackedV6(f, first, second) || !EnteredV6(c, first) {
      AbsentV6Exact(f, c, first, second, va, a, user);
    } else {
      hide PermitV6;
      if RightsOf(c.dacr, DomainV6(first)) == Manager {
        ManagerV6Exact(f, c, leaf, first, second, va, a, user);
      } else if ClientV6(f, c.sctlr, first, second, a, user) {
        ClientMapsV6(f, c, leaf, first, second, va, a, user);
      } else {
        ClientFaultsV6(f, c, leaf, first, second, va, a, user);
      }
    }
  }

  /** get_phys_addr_v6 decided from the two descriptor words: which accesses are mapped, the size and the frame of the
      page, its protection, and the status of every fault. */
  lemma WalkV6Exact(f: Features, c: Cp15, n: bv32, mem: Memory, va: bv32, a: Access, user: bool)
    requires SplitBy(c, n)
    ensures var first := FirstWord(c, n, mem, va); var second := Ldl(mem, CoarseEntry(first, va));
            WalkV6(f, c, mem, va, a, user) == AnswerV6(f, c, first, second, va, a, user)
  {
    hide Ldl, Level1Address, FirstWord, CoarseAddress, CoarseEntry, WalkV6, AnswerV6;
    FirstWordExact(c, n, mem, va);
    var first := FirstWord(c, n, mem, va);
    CoarseArithmetic(first, va);
    WordsV6Exact(f, c, mem, va, first, Ldl(mem, CoarseEntry(first, va)), a, user);
  }

  // ---------------------------------------------------------------- ARMv5

  /** The words translate the address: a section, or a page of a table. An extended small page needs XScale. */
  predicate BackedV5(f: Features, first: bv32, second: bv32) {
    Low(first, 2) || (!Low(first, 0) && !Low(second, 0) && (Low(first, 1) && Low(second, 3) ==> f.xscale))
  }

  /** The extent that the words translate: encoding 3 of a page is 4 KB in a coarse table and 1 KB in a fine one. */
  function KindV5(first: bv32, second: bv32): PageKind {
    if Low(first, 2) then Section
    else if Low(second, 1) then Large
    else if Low(second, 3) && !Low(first, 1) then Tiny
    else Small
  }

  /** The size reported: an extended small page is reported as 1 KB. */
  function SizeV5(first: bv32, second: bv32): nat {
    if !Low(first, 2) && Low(second, 3) then 0x400 else SizeOf(KindV5(first, second))
  }

  function LastV5(first: bv32, second: bv32): bv32 {
    if Low(first, 2) then first else second
  }

  function DomainV5(first: bv32): (d: bv32)
    ensures d < 16
  {
    first / 0x20 % 16
  }

  /** AP is pair 5 of a section, pair 2 of a 1 KB or extended page, and pair 2 to 5 of other pages: the walk takes the one
      of the 16 KB quarter of the address for 64 KB and 4 KB pages alike. */
  function ApV5(first: bv32, second: bv32, va: bv32): bv3 {
    if Low(first, 2) then Pair(first, 5) as bv3
    else if Low(second, 3) then Pair(second, 2) as bv3
    else Pair(second, 2 + va / 0x4000 % 4) as bv3
  }

  predicate EnteredV5(c: Cp15, first: bv32) {
    RightsOf(c.dacr, DomainV5(first)) == Client || RightsOf(c.dacr, DomainV5(first)) == Manager
  }

  predicate MapsV5(f: Features, c: Cp15, first: bv32, second: bv32, va: bv32, a: Access, user: bool) {
    var rights := RightsOf(c.dacr, DomainV5(first));
    && BackedV5(f, first, second)
    && (rights == Manager || (rights == Client && Covered(Grant(f, c.sctlr, ApV5(first, second, va), user), a)))
  }

  /** Every page is executable. */
  function ProtV5(f: Features, c: Cp15, first: bv32, second: bv32, va: bv32, user: bool): Prot {
    if RightsOf(c.dacr, DomainV5(first)) == Manager then ALL_ACCESS
    else Grant(f, c.sctlr, ApV5(first, second, va), user).(exec := true)
  }

  function CodeV5(f: Features, c: Cp15, first: bv32, second: bv32): bv32 {
    if Low(first, 0) then 5
    else if !EnteredV5(c, first) then (if Low(first, 2) then 9 else 11)
    else if !BackedV5(f, first, second) then 7
    else RefusalCode(!Low(first, 2), false)
  }

  /** The whole answer of an ARMv5 walk, from its two words. */
  function AnswerV5(f: Features, c: Cp15, first: bv32, second: bv32, va: bv32, a: Access, user: bool): Walk {
    if MapsV5(f, c, first, second, va, a, user) then
      Mapped(FrameSum(LastV5(first, second), KindV5(first, second), va), ProtV5(f, c, first, second, va, user),
             SizeV5(first, second))
    else Fault(StatusWord(CodeV5(f, c, first, second), DomainV5(first)))
  }

  lemma ApFields(word: bv32)
    ensures ApAt(word, 10) == Pair(word, 5) as bv3
    ensures ApAt(word, 4) == Pair(word, 2) as bv3
  {
    PairBits(word, 5);
    PairBits(word, 2);
  }

  lemma QuarterBits(va: bv32)
    ensures 4 + ((va >> 13) & 6) == (2 + va / 0x4000 % 4) * 2 && va / 0x4000 % 4 < 4
  {
  }

  lemma SubpageFields(word: bv32, va: bv32)
    ensures SubpageAp(word, va) == Pair(word, 2 + va / 0x4000 % 4) as bv3
  {
    var k := 2 + va / 0x4000 % 4;
    QuarterBits(va);
    PairBits(word, k);
  }

  ghost predicate DecodedV5(leaf: Leaf, first: bv32, second: bv32, va: bv32, manager: bool) {
    && leaf.Leaf?
    && leaf.desc == LastV5(first, second)
    && leaf.kind == KindV5(first, second)
    && leaf.ap == ApV5(first, second, va)
    && leaf.domain == DomainV5(first)
    && leaf.manager == manager
    && leaf.size == SizeV5(first, second)
    && leaf.code == RefusalCode(!Low(first, 2), false)
  }

  lemma SectionV5Exact(first: bv32, second: bv32, va: bv32, manager: bool)
    requires Low(first, 2)
    ensures DecodedV5(SectionV5(first, DomainV5(first), manager), first, second, va, manager)
  {
    hide Low, ApAt, Pair, DomainV5;
    ApFields(first);
  }

  lemma PageV5Exact(f: Features, first: bv32, second: bv32, va: bv32, manager: bool)
    requires Low(first, 1) || Low(first, 3)
    ensures var leaf := PageV5(f, second, Low(first, 1), va, DomainV5(first), manager);
            if BackedV5(f, first, second) then DecodedV5(leaf, first, second, va, manager)
            else leaf == NoLeaf(FaultStatus(7, DomainV5(first)))
  {
    hide Low, TypeOf, ApAt, SubpageAp, Pair, FaultStatus, DomainV5;
    TypeFields(first);
    TypeFields(second);
    ApFields(second);
    SubpageFields(second, va);
  }

  /** The status of an ARMv5 walk that ends without a leaf. */
  function AbsentV5(c: Cp15, first: bv32): bv32 {
    if Low(first, 0) then FaultStatus(5, DomainV5(first))
    else if EnteredV5(c, first) then FaultStatus(7, DomainV5(first))
    else FaultStatus(if Low(first, 2) then 9 else 11, DomainV5(first))
  }

  /** The second word of an ARMv5 walk, in a coarse or a fine table. */
  function SecondV5(mem: Memory, first: bv32, va: bv32): bv32 {
    if Low(first, 1) then Ldl(mem, CoarseEntry(first, va)) else Ldl(mem, FineEntry(first, va))
  }

  lemma DomainV5Exact(first: bv32)
    ensures DomainV5(first) == DomainOf(first)
  {
    DomainFields(first);
  }

  lemma LeafV5Exact(f: Features, c: Cp15, mem: Memory, va: bv32, first: bv32, second: bv32)
    requires first == Ldl(mem, Level1Address(c, va)) && second == SecondV5(mem, first, va)
    ensures var leaf := LeafV5(f, c, mem, va);
            if BackedV5(f, first, second) && EnteredV5(c, first) then
              DecodedV5(leaf, first, second, va, RightsOf(c.dacr, DomainV5(first)) == Manager)
            else leaf == NoLeaf(AbsentV5(c, first))
  {
    hide Ldl, Level1Address, CoarseAddress, CoarseEntry, FineAddress, FineEntry, Low, TypeOf, DomainV5, DomainOf,
      DomainProt, RightsOf, FaultStatus, DecodedV5, PageV5, SectionV5;
    TypeFields(first);
    DomainV5Exact(first);
    RightsFields(c.dacr, DomainV5(first));
    CoarseArithmetic(first, va);
    FineArithmetic(first, va);
    var manager := RightsOf(c.dacr, DomainV5(first)) == Manager;
    if Low(first, 2) {
      SectionV5Exact(first, second, va, manager);
    } else if !Low(first, 0) {
      PageV5Exact(f, first, second, va, manager);
    }
  }

  lemma AbsentV5Exact(f: Features, c: Cp15, first: bv32, second: bv32, va: bv32, a: Access, user: bool)
    requires !BackedV5(f, first, second) || !EnteredV5(c, first)
    ensures AnswerV5(f, c, first, second, va, a, user) == Fault(AbsentV5(c, first))
  {
    hide Low, KindV5, LastV5, ApV5, DomainV5, RightsOf, FaultStatus, StatusWord, FrameSum, SizeOf, ProtV5,
      RefusalCode, Grant;
    TypeFields(first);
    StatusesFields(DomainV5(first));
  }

  lemma PermitV5Exact(f: Features, c: Cp15, leaf: Leaf, first: bv32, second: bv32, va: bv32, a: Access, user: bool)
    requires BackedV5(f, first, second) && EnteredV5(c, first)
    requires DecodedV5(leaf, first, second, va, RightsOf(c.dacr, DomainV5(first)) == Manager)
    ensures PermitV5(f, ControlOf(c), leaf, va, a, user) == AnswerV5(f, c, first, second, va, a, user)
  {
    hide Low, KindV5, LastV5, ApV5, DomainV5, RightsOf, FaultStatus, StatusWord, RefusalCode, CheckAp, ControlOf,
      FrameAddress, FrameSum, SizeV5, Grant;
    TypeFields(first);
    CheckApMeaning(f, ControlOf(c).rom, leaf.ap, leaf.manager, a, user);
    GrantFields(f, c, ApV5(first, second, va), a, user);
    RefusalFields(!Low(first, 2), DomainV5(first));
    FrameArithmetic(leaf.desc, leaf.kind, va);
  }

  /** get_phys_addr_v5 decided from the two descriptor words. */
  lemma WalkV5Exact(f: Features, c: Cp15, n: bv32, mem: Memory, va: bv32, a: Access, user: bool)
    requires SplitBy(c, n)
    ensures var first := FirstWord(c, n, mem, va);
            WalkV5(f, c, mem, va, a, user) == AnswerV5(f, c, first, SecondV5(mem, first, va), va, a, user)
  {
    hide Ldl, Level1Address, FirstWord, SecondV5, LeafV5, AnswerV5, ControlOf, BackedV5, EnteredV5, DecodedV5,
      AbsentV5, RightsOf, DomainV5;
    FirstWordExact(c, n, mem, va);
    var first := FirstWord(c, n, mem, va);
    var second := SecondV5(mem, first, va);
    LeafV5Exact(f, c, mem, va, first, second);
    if BackedV5(f, first, second) && EnteredV5(c, first) {
      hide PermitV5;
      PermitV5Exact(f, c, LeafV5(f, c, mem, va), first, second, va, a, user);
    } else {
      AbsentV5Exact(f, c, first, second, va, a, user);
    }
  }

  /** The AP field of a 4 KB page that the architecture assigns to an address: one for each 1 KB. */
  function SubpageField(word: bv32, va: bv32): bv32 {
    Pair(word, 2 + va / 0x400 % 4)
  }

  /** The AP field that the walk takes. */
  function TakenField(word: bv32, va: bv32): bv32 {
    Pair(word, 2 + va / 0x4000 % 4)
  }

  /** The walk takes the architecture's AP field throughout a 4 KB page exactly when all four fields are the same. */
  lemma SmallPageFieldExact(word: bv32)
    ensures (forall va :: TakenField(word, va) == SubpageField(word, va)) <==>
            Pair(word, 2) == Pair(word, 3) == Pair(word, 4) == Pair(word, 5)
  {
    if forall va :: TakenField(word, va) == SubpageField(word, va) {
      FieldsAt(word);
      assert TakenField(word, 0x400) == SubpageField(word, 0x400);
      assert TakenField(word, 0x800) == SubpageField(word, 0x800);
      assert TakenField(word, 0xc00) == SubpageField(word, 0xc00);
    } else {
      var va :| TakenField(word, va) != SubpageField(word, va);
      FieldIsOne(word, va / 0x4000 % 4);
      FieldIsOne(word, va / 0x400 % 4);
      FieldBits(va);
    }
  }

  lemma FieldsAt(word: bv32)
    ensures TakenField(word, 0x400) == Pair(word, 2) && SubpageField(word, 0x400) == Pair(word, 3)
    ensures TakenField(word, 0x800) == Pair(word, 2) && SubpageField(word, 0x800) == Pair(word, 4)
    ensures TakenField(word, 0xc00) == Pair(word, 2) && SubpageField(word, 0xc00) == Pair(word, 5)
  {
  }

  lemma FieldBits(va: bv32)
    ensures va / 0x4000 % 4 < 4 && va / 0x400 % 4 < 4
  {
  }

  lemma FieldIsOne(word: bv32, k: bv32)
    requires k < 4
    ensures Pair(word, 2 + k) in {Pair(word, 2), Pair(word, 3), Pair(word, 4), Pair(word, 5)}
  {
    hide Pair;
    assert k == 0 || k == 1 || k == 2 || k == 3;
  }
}
