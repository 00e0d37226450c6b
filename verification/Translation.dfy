/** get_phys_addr: the Fast Context Switch Extension and the choice of a table format, with the two
    facts about a walk that caching relies on. */
module Translation {
  import opened Vmsa
  import opened ShortDescriptor
  import opened LongDescriptor
  import LongDescriptorLaws
  import ShortDescriptorLaws
  import Exact = ShortDescriptorExact

  /** The modified virtual address: addresses below 32 MB are moved by the FCSE process id. */
  function Mva(fcse: bv32, va: bv32): bv32 {
    if IsLow(va) then Add(va, fcse) else va
  }

  predicate IsLow(va: bv32) {
    va < 0x0200_0000
  }

  function Add(va: bv32, fcse: bv32): bv32 {
    va + fcse
  }

  datatype Regime = MmuOff | LongFormat | FormatV6 | FormatV5

  function RegimeOf(f: Features, c: Cp15): Regime {
    if c.sctlr & 1 == 0 then MmuOff
    else if f.lpae && c.ttbcr & 0x8000_0000 != 0 then LongFormat
    else if c.sctlr & 0x80_0000 != 0 then FormatV6
    else FormatV5
  }

  function FlatWalk(mva: bv32): Walk {
    Mapped(Widen(mva), ALL_ACCESS, 0x400)
  }

  function Widen(x: bv32): bv64 {
    x as bv64
  }

  /** The walk at a modified virtual address. */
  ghost function WalkAt(f: Features, c: Cp15, mem: Memory, mva: bv32, a: Access, user: bool): Walk {
    match RegimeOf(f, c)
    case MmuOff => FlatWalk(mva)
    case LongFormat => WalkLpae(c, mem, mva, a, user)
    case FormatV6 => WalkV6(f, c, mem, mva, a, user)
    case FormatV5 => WalkV5(f, c, mem, mva, a, user)
  }

  /** get_phys_addr on a core with an MMU. */
  ghost function Translate(f: Features, c: Cp15, mem: Memory, va: bv32, a: Access, user: bool): Walk {
    WalkAt(f, c, mem, Mva(c.fcse, va), a, user)
  }

  method GetPhysAddr(f: Features, c: Cp15, mem: Memory, va: bv32, a: Access, user: bool) returns (w: Walk)
    ensures w == Translate(f, c, mem, va, a, user)
  {
    hide RegimeOf, Mva, FlatWalk, WalkLpae, WalkV5, WalkV6;
    var mva := Mva(c.fcse, va);
    match RegimeOf(f, c)
    case MmuOff => w := FlatWalk(mva);
    case LongFormat => w := GetPhysAddrLpae(c, mem, mva, a, user);
    case FormatV6 => w := WalkV6(f, c, mem, mva, a, user);
    case FormatV5 => w := WalkV5(f, c, mem, mva, a, user);
  }

  // ---------------------------------------------------------------- translations by arithmetic

  lemma RegimeFields(f: Features, c: Cp15)
    ensures RegimeOf(f, c) ==
            if c.sctlr % 2 == 0 then MmuOff
            else if f.lpae && c.ttbcr / 0x8000_0000 == 1 then LongFormat
            else if c.sctlr / 0x80_0000 % 2 == 1 then FormatV6
            else FormatV5
  {
    RegimeBits(c.sctlr, c.ttbcr);
  }

  lemma RegimeBits(sctlr: bv32, ttbcr: bv32)
    ensures sctlr & 1 == 0 <==> sctlr % 2 == 0
    ensures ttbcr & 0x8000_0000 != 0 <==> ttbcr / 0x8000_0000 == 1
    ensures sctlr & 0x80_0000 != 0 <==> sctlr / 0x80_0000 % 2 == 1
  {
  }

  /** The address after the context switch extension: one of the lowest 32 MB is moved by the process id. */
  function Moved(fcse: bv32, va: bv32): bv32 {
    if va / 0x0200_0000 == 0 then va + fcse else va
  }

  lemma MvaIsMoved(fcse: bv32, va: bv32)
    ensures Mva(fcse, va) == Moved(fcse, va)
  {
    LowBits(va);
  }

  lemma LowBits(va: bv32)
    ensures va < 0x0200_0000 <==> va / 0x0200_0000 == 0
  {
  }

  /** The answer of a short-descriptor walk, from its words. */
  function ShortAnswer(f: Features, c: Cp15, n: bv32, mem: Memory, mva: bv32, a: Access, user: bool, v6: bool): Walk
    requires n < 8
  {
    var first := Exact.FirstWord(c, n, mem, mva);
    if v6 then Exact.AnswerV6(f, c, first, Ldl(mem, ShortDescriptorLaws.CoarseEntry(first, mva)), mva, a, user)
    else Exact.AnswerV5(f, c, first, Exact.SecondV5(mem, first, mva), mva, a, user)
  }

  /** get_phys_addr: SCTLR.M turns translation on, TTBCR.EAE selects the long format, and SCTLR.XP the ARMv6 format over
      the ARMv5 one; each is decided from the words it reads. */
  lemma TranslateExact(f: Features, c: Cp15, n: bv32, mem: Memory, va: bv32, a: Access, user: bool)
    requires ShortDescriptorLaws.SplitBy(c, n)
    ensures var mva := Moved(c.fcse, va);
            Translate(f, c, mem, va, a, user) ==
            if c.sctlr % 2 == 0 then Mapped(mva as bv64, ALL_ACCESS, 0x400)
            else if f.lpae && c.ttbcr / 0x8000_0000 == 1 then WalkLpae(c, mem, mva, a, user)
            else ShortAnswer(f, c, n, mem, mva, a, user, c.sctlr / 0x80_0000 % 2 == 1)
  {
    hide Mva, Moved, RegimeOf, WalkLpae, WalkV5, WalkV6, Exact.FirstWord, Exact.SecondV5, Exact.AnswerV5, Exact.AnswerV6,
      ShortDescriptorLaws.CoarseEntry, Ldl;
    RegimeFields(f, c);
    MvaIsMoved(c.fcse, va);
    match RegimeOf(f, c)
    case MmuOff =>
    case LongFormat =>
    case FormatV6 => Exact.WalkV6Exact(f, c, n, mem, Moved(c.fcse, va), a, user);
    case FormatV5 => Exact.WalkV5Exact(f, c, n, mem, Moved(c.fcse, va), a, user);
  }

  // ---------------------------------------------------------------- coherence and granules for every format

  /** Whatever the table format, the answer for one access type decides those for the others. */
  lemma WalkAtCoherent(f: Features, c: Cp15, mem: Memory, mva: bv32, a: Access, b: Access, user: bool)
    ensures CoherentPair(WalkAt(f, c, mem, mva, a, user), a, WalkAt(f, c, mem, mva, b, user), b)
  {
    hide RegimeOf, WalkLpae, WalkV5, WalkV6;
    match RegimeOf(f, c)
    case MmuOff =>
    case LongFormat => LongDescriptorLaws.WalkLpaeCoherent(c, mem, mva, a, b, user);
    case FormatV6 => WalkV6Coherent(f, c, mem, mva, a, b, user);
    case FormatV5 => WalkV5Coherent(f, c, mem, mva, a, b, user);
  }

  lemma FlatBits(x: bv32, g: bv32)
    requires g == x & 0xfffffc00
    ensures x as bv64 == (g as bv64 & 0xffff_ffff_ffff_fc00) | ((x & 0x3ff) as bv64)
  {
  }

  lemma FlatAt(x: bv32, g: bv32)
    requires g == x & 0xfffffc00
    ensures Widen(x) == AtOffset(Widen(g), x)
  {
    FlatBits(x, g);
  }

  lemma FlatGranule(x: bv32)
    ensures SameMapping(FlatWalk(Granule(x)), FlatWalk(x), x)
  {
    hide AtOffset, Widen;
    FlatAt(x, Granule(x));
  }

  /** Whatever the table format, the answer is constant across a granule, its offset apart. */
  lemma WalkAtGranule(f: Features, c: Cp15, mem: Memory, x: bv32, a: Access, user: bool)
    requires GranuleAligned(c)
    ensures SameMapping(WalkAt(f, c, mem, Granule(x), a, user), WalkAt(f, c, mem, x, a, user), x)
  {
    hide RegimeOf, FlatWalk, WalkLpae, WalkV5, WalkV6, Granule, GranuleAligned, SameMapping;
    match RegimeOf(f, c)
    case MmuOff => FlatGranule(x);
    case LongFormat => LongDescriptorLaws.WalkLpaeGranule(c, mem, x, a, user);
    case FormatV6 => WalkV6Granule(f, c, mem, x, a, user);
    case FormatV5 => WalkV5Granule(f, c, mem, x, a, user);
  }

  // ---------------------------------------------------------------- the context switch extension

  /** A process id that is a multiple of 1 KB. */
  predicate FcseAligned(fcse: bv32) {
    Granule(fcse) == fcse
  }

  lemma AlignedBits(fcse: bv32)
    ensures fcse & 0xfffffc00 == fcse <==> fcse & 0x3ff == 0
  {
  }

  lemma LimitBits(x: bv32, g: bv32)
    requires g == x & 0xfffffc00
    ensures IsLow(g) == IsLow(x)
  {
  }

  lemma SumGranule(x: bv32, y: bv32)
    ensures Granule(x) + Granule(y) == Granule(x + Granule(y))
  {
  }

  lemma AddGranuleAt(x: bv32, y: bv32)
    ensures Add(Granule(x), Granule(y)) == Granule(Add(x, Granule(y)))
  {
    SumGranule(x, y);
    hide Granule;
  }

  lemma AddGranule(x: bv32, fcse: bv32)
    requires FcseAligned(fcse)
    ensures Add(Granule(x), fcse) == Granule(Add(x, fcse))
  {
    hide Granule, Add;
    AddGranuleAt(x, fcse);
  }

  lemma OffsetBits(x: bv32, fcse: bv32)
    ensures (x + fcse) & 0x3ff == x & 0x3ff <==> fcse & 0x3ff == 0
  {
  }

  lemma WidenBits(x: bv32, y: bv32)
    ensures x & 0x3ff == y & 0x3ff <==> (x & 0x3ff) as bv64 == (y & 0x3ff) as bv64
  {
  }

  /** An address that is not moved, or is moved by whole granules. */
  predicate Steady(fcse: bv32, x: bv32) {
    IsLow(x) ==> FcseAligned(fcse)
  }

  lemma SteadyGranule(fcse: bv32, x: bv32, y: bv32)
    requires Granule(x) == Granule(y)
    ensures Steady(fcse, x) == Steady(fcse, y)
  {
    hide IsLow, FcseAligned;
    LimitBits(x, Granule(x));
    LimitBits(y, Granule(y));
  }

  /** Steady addresses keep their granules together. */
  lemma MvaGranule(fcse: bv32, x: bv32)
    requires Steady(fcse, x)
    ensures Mva(fcse, Granule(x)) == Granule(Mva(fcse, x))
  {
    hide IsLow, Add, FcseAligned;
    LimitBits(x, Granule(x));
    if IsLow(x) { AddGranule(x, fcse); }
  }

  /** An address keeps its offset under the process id exactly when it is not moved or the process
      id is aligned. */
  lemma MvaOffset(fcse: bv32, x: bv32)
    ensures Offset(Mva(fcse, x)) == Offset(x) <==> Steady(fcse, x)
  {
    AlignedBits(fcse);
    OffsetBits(x, fcse);
    WidenBits(x + fcse, x);
  }

  /** The translation of an address, seen from the base of its granule. */
  lemma TranslateGranule(f: Features, c: Cp15, mem: Memory, x: bv32, a: Access, user: bool)
    requires GranuleAligned(c) && Steady(c.fcse, x)
    ensures SameMapping(Translate(f, c, mem, Granule(x), a, user), Translate(f, c, mem, x, a, user), x)
  {
    hide WalkAt, Mva, Granule, GranuleAligned, Steady, Splice, Offset;
    MvaGranule(c.fcse, x);
    MvaOffset(c.fcse, x);
    WalkAtGranule(f, c, mem, Mva(c.fcse, x), a, user);
  }

  lemma TranslateCoherent(f: Features, c: Cp15, mem: Memory, va: bv32, a: Access, b: Access, user: bool)
    ensures CoherentPair(Translate(f, c, mem, va, a, user), a, Translate(f, c, mem, va, b, user), b)
  {
    hide WalkAt, Mva;
    WalkAtCoherent(f, c, mem, Mva(c.fcse, va), a, b, user);
  }
}
