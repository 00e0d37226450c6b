/** LPAE long-descriptor table walks: the arithmetic specification of a walk, the loop of
    get_phys_addr_lpae that refines it, and how table attributes restrict what a leaf grants. */
module LongDescriptor {
  import opened Vmsa

  // ---------------------------------------------------------------- regions

  datatype Region = Ttbr0 | Ttbr1 | Gap

  function T0sz(ttbcr: bv32): (t: bv32)
    ensures t < 8
  {
    ttbcr % 8
  }

  function T1sz(ttbcr: bv32): (t: bv32)
    ensures t < 8
  {
    ttbcr / 0x1_0000 % 8
  }

  /** The region choice as get_phys_addr_lpae makes it, from the top bits of the address. */
  function SelectRegion(t0sz: bv32, t1sz: bv32, va: bv32): Region
    requires t0sz < 8 && t1sz < 8
  {
    if t0sz != 0 && TopZeros(va, t0sz) then Ttbr0
    else if t1sz != 0 && TopOnes(va, t1sz) then Ttbr1
    else if t0sz == 0 then Ttbr0
    else if t1sz == 0 then Ttbr1
    else Gap
  }

  predicate TopZeros(va: bv32, n: bv32)
    requires 0 < n < 8
  {
    va >> (32 - n) == 0
  }

  predicate TopOnes(va: bv32, n: bv32)
    requires 0 < n < 8
  {
    !va >> (32 - n) == 0
  }

  /** 2^(32 - tsz), the size of a region of the address space. */
  function RegionSize(tsz: bv32): bv64
    requires tsz < 8
  {
    0x1_0000_0000 >> tsz
  }

  /** The region an address belongs to, by comparison with the region bounds: TTBR0 maps a low
      region, TTBR1 a high one, and a size of zero means all that the other one leaves. */
  function RegionOf(t0sz: bv32, t1sz: bv32, va: bv32): Region
    requires t0sz < 8 && t1sz < 8
  {
    var x := va as bv64;
    if t0sz == 0 && t1sz == 0 then Ttbr0
    else if t1sz == 0 then (if x < RegionSize(t0sz) then Ttbr0 else Ttbr1)
    else if x >= 0x1_0000_0000 - RegionSize(t1sz) then Ttbr1
    else if t0sz == 0 || x < RegionSize(t0sz) then Ttbr0
    else Gap
  }

  /** The bit tests split the address space exactly at the region bounds. */
  lemma RegionsPartition(t0sz: bv32, t1sz: bv32, va: bv32)
    requires t0sz < 8 && t1sz < 8
    ensures SelectRegion(t0sz, t1sz, va) == RegionOf(t0sz, t1sz, va)
  {
    if t0sz != 0 { LowBits(t0sz, va); }
    if t1sz != 0 { HighBits(t1sz, va); }
    if t0sz != 0 && t1sz != 0 { DisjointBits(t0sz, t1sz); }
    hide RegionSize, TopZeros, TopOnes;
  }

  lemma LowBits(tsz: bv32, va: bv32)
    requires 0 < tsz < 8
    ensures TopZeros(va, tsz) <==> va as bv64 < RegionSize(tsz)
  {
    LowBitsRaw(tsz, va, 0x1_0000_0000);
  }

  lemma LowBitsRaw(tsz: bv32, va: bv32, all: bv64)
    requires 0 < tsz < 8 && all == 0x1_0000_0000
    ensures va >> (32 - tsz) == 0 <==> va as bv64 < all >> tsz
  {
  }

  lemma HighBits(tsz: bv32, va: bv32)
    requires 0 < tsz < 8
    ensures TopOnes(va, tsz) <==> va as bv64 >= 0x1_0000_0000 - RegionSize(tsz)
  {
    HighBitsRaw(tsz, va, 0x1_0000_0000);
  }

  lemma HighBitsRaw(tsz: bv32, va: bv32, all: bv64)
    requires 0 < tsz < 8 && all == 0x1_0000_0000
    ensures !va >> (32 - tsz) == 0 <==> va as bv64 >= all - (all >> tsz)
  {
  }

  lemma DisjointBits(t0sz: bv32, t1sz: bv32)
    requires 0 < t0sz < 8 && 0 < t1sz < 8
    ensures RegionSize(t0sz) <= 0x1_0000_0000 - RegionSize(t1sz)
  {
    DisjointBitsRaw(t0sz, t1sz, 0x1_0000_0000);
  }

  lemma DisjointBitsRaw(t0sz: bv32, t1sz: bv32, all: bv64)
    requires 0 < t0sz < 8 && 0 < t1sz < 8 && all == 0x1_0000_0000
    ensures all >> t0sz <= all - (all >> t1sz)
  {
  }

  // ---------------------------------------------------------------- descriptors

  predicate Attr(d: bv64, k: bv6) {
    (d >> k) & 1 != 0
  }

  /** An odd word; at level 3 bit 1 must be set too. */
  predicate IsValid(d: bv64, level: nat) {
    d % 2 == 1 && (d % 4 == 3 || level < 3)
  }

  /** Bit 1 tells a table from a block above level 3. */
  predicate IsTable(d: bv64, level: nat) {
    d / 2 % 2 == 1 && level < 3
  }

  /** Forty bits of address in whole 4 KB pages. */
  function OutputAddress(d: bv64): bv64 {
    d / 0x1000 % 0x1000_0000 * 0x1000
  }

  // An entry of a table at `level` maps a block of 2^(39 - 9 * level) bytes: 1 GB, 2 MB or 4 KB.

  /** The number of the entry for an address in a table of (at most) 512 entries. */
  function EntryIndex(va: bv32, level: nat): bv64
    requires 1 <= level <= 3
  {
    match level
    case 1 => (va as bv64 / 0x4000_0000) % 512
    case 2 => (va as bv64 / 0x20_0000) % 512
    case _ => (va as bv64 / 0x1000) % 512
  }

  /** The offset of an address in its block. */
  function BlockOffset(va: bv32, level: nat): bv64
    requires 1 <= level <= 3
  {
    match level
    case 1 => va as bv64 % 0x4000_0000
    case 2 => va as bv64 % 0x20_0000
    case _ => va as bv64 % 0x1000
  }

  function EntryAddress(base: bv64, level: nat, va: bv32): bv64
    requires 1 <= level <= 3
  {
    Entry(base, EntryIndex(va, level))
  }

  function Entry(base: bv64, index: bv64): bv64 {
    base + 8 * index
  }

  /** The frame of a block or page descriptor with the offset of the address ORed in, as the source
      composes it; the frame of a block may hold bits that the architecture reserves. */
  function BlockAddress(d: bv64, level: nat, va: bv32): bv64
    requires 1 <= level <= 3
  {
    Or(OutputAddress(d), BlockOffset(va, level))
  }

  function Or(x: bv64, y: bv64): bv64 {
    x | y
  }

  // ---------------------------------------------------------------- the specification of a walk

  /** What a walk finds: nothing at some level, or a leaf and the table descriptors on the way. */
  datatype Found =
    | Missing(level: nat)
    | Found(phys: bv64, leaf: bv64, level: nat, tables: seq<bv64>)

  function Lookup(mem: Memory, va: bv32, level: nat, base: bv64, tables: seq<bv64>): (r: Found)
    requires 1 <= level <= 3
    ensures level <= r.level <= 3
    ensures r.Found? ==> |r.tables| == |tables| + r.level - level
    decreases 3 - level
  {
    var d := Ldq(mem, EntryAddress(base, level, va));
    if !IsValid(d, level) then Missing(level)
    else if IsTable(d, level) then Lookup(mem, va, level + 1, OutputAddress(d), tables + [d])
    else Found(BlockAddress(d, level, va), d, level, tables)
  }

  ghost predicate Some(tables: seq<bv64>, k: bv6) {
    exists d :: d in tables && Attr(d, k)
  }

  /** The effective permission: the leaf and every table descriptor on the way must let the access
      through. Bits 59 to 62 of a table descriptor are PXNTable, XNTable and APTable. */
  ghost predicate Grants(leaf: bv64, tables: seq<bv64>, a: Access, user: bool) {
    && (user ==> Attr(leaf, 6) && !Some(tables, 61))
    && (a.Store? ==> !Attr(leaf, 7) && !Some(tables, 62))
    && (a.Fetch? ==> !Attr(leaf, 54) && !Some(tables, 60))
    && (a.Fetch? && !user ==> !Attr(leaf, 53) && !Some(tables, 59))
  }

  datatype FaultType = Translation | AccessFlag | Permission

  function LevelNumber(level: nat): bv32
    requires 1 <= level <= 3
  {
    if level == 1 then 1 else if level == 2 then 2 else 3
  }

  /** A long-format fault status. */
  function LongFault(t: FaultType, level: nat): (w: Walk)
    requires 1 <= level <= 3
    ensures w.Fault?
  {
    Fault(LevelNumber(level) + match t case Translation => 0x204 case AccessFlag => 0x208 case Permission => 0x20c)
  }

  ghost function Permit(found: Found, a: Access, user: bool): Walk
    requires 1 <= found.level <= 3
  {
    match found
    case Missing(level) => LongFault(Translation, level)
    case Found(phys, leaf, level, tables) =>
      if !Attr(leaf, 10) then LongFault(AccessFlag, level)
      else if !Grants(leaf, tables, a, user) then LongFault(Permission, level)
      else Mapped(phys, Prot(true, Grants(leaf, tables, Store, user), Grants(leaf, tables, Fetch, user)),
                  PageSize(level))
  }

  function PageSize(level: nat): nat
    requires 1 <= level <= 3
  {
    match level
    case 1 => 0x4000_0000
    case 2 => 0x20_0000
    case _ => 0x1000
  }

  /** A region smaller than 2 GB starts at a second level table. */
  function StartLevel(tsz: bv32): nat {
    if tsz > 1 then 2 else 1
  }

  /** 2^n bytes: the size of the first table, n being 14 - tsz or 5 - tsz. */
  function TableBytes(tsz: bv32): bv64
    requires tsz < 8
  {
    (if tsz > 1 then 0x4000 else 0x20) >> tsz
  }

  datatype Root = Root(ttbr: bv64, disabled: bool, tsz: bv32)

  /** A 64-bit register from its two halves. */
  function Joined(hi: bv32, lo: bv32): bv64 {
    hi as bv64 * 0x1_0000_0000 + lo as bv64
  }

  /** The base, EPD and size of each region, by their places in the registers. */
  function RootOf(c: Cp15, useTtbr1: bool): (r: Root)
    ensures r.tsz < 8
  {
    if useTtbr1 then Root(Joined(c.ttbr1Hi, c.ttbr1), c.ttbcr / 0x80_0000 % 2 == 1, T1sz(c.ttbcr))
    else Root(Joined(c.ttbr0Hi, c.ttbr0), c.ttbcr / 0x80 % 2 == 1, T0sz(c.ttbcr))
  }

  /** The first table: the TTBR, cut to forty bits and aligned to the size of the table. */
  function TableBase(root: Root): bv64
    requires root.tsz < 8
  {
    AlignDown(Cut(root.ttbr), TableBytes(root.tsz))
  }

  function Cut(ttbr: bv64): bv64 {
    ttbr % 0x100_0000_0000
  }

  function AlignDown(x: bv64, size: bv64): bv64 {
    x & !(size - 1)
  }

  function InRegion(va: bv32, tsz: bv32): bv32
    requires tsz < 8
  {
    Mask(va, 0xffff_ffff >> tsz)
  }

  function Mask(x: bv32, m: bv32): bv32 {
    x & m
  }

  function RegionIn(c: Cp15, va: bv32): Region {
    RegionOf(T0sz(c.ttbcr), T1sz(c.ttbcr), va)
  }

  /** The lookups of a whole walk. Neither region, or a disabled one, is a miss at level 1. */
  function Locate(c: Cp15, mem: Memory, va: bv32): (found: Found)
    ensures 1 <= found.level <= 3
    ensures found.Found? ==> |found.tables| < 3
  {
    var region := RegionIn(c, va);
    if region == Gap then Missing(1) else
    var root := RootOf(c, region == Ttbr1);
    if root.disabled then Missing(1) else
    Lookup(mem, InRegion(va, root.tsz), StartLevel(root.tsz), TableBase(root), [])
  }

  /** get_phys_addr_lpae, as an arithmetic specification. */
  ghost function WalkLpae(c: Cp15, mem: Memory, va: bv32, a: Access, user: bool): Walk {
    Permit(Locate(c, mem, va), a, user)
  }

  // ---------------------------------------------------------------- addresses are carry-free sums

  /** The descriptor index bits that the source ORs into the table address. */
  function IndexField(va: bv32, level: nat): bv64
    requires 1 <= level <= 3
  {
    match level
    case 1 => ((va >> 27) & 0xff8) as bv64
    case 2 => ((va >> 18) & 0xff8) as bv64
    case _ => ((va >> 9) & 0xff8) as bv64
  }

  // The facts below are bare bit-vector formulas, decided one by one. `mask` is one less than the
  // size of the first table, `va` an address already cut to its region.

  lemma First1Bits(base: bv64, mask: bv64, va: bv32, tsz: bv32)
    requires tsz <= 1 && mask == (0x20 >> tsz) - 1 && base & mask == 0 && va & (0xffff_ffff >> tsz) == va
    ensures base | ((va >> 27) & 0xff8) as bv64 == base + 8 * ((va as bv64 / 0x4000_0000) % 512)
  {
  }

  lemma First2Bits(base: bv64, mask: bv64, va: bv32, tsz: bv32)
    requires 1 < tsz < 8 && mask == (0x4000 >> tsz) - 1 && base & mask == 0 && va & (0xffff_ffff >> tsz) == va
    ensures base | ((va >> 18) & 0xff8) as bv64 == base + 8 * ((va as bv64 / 0x20_0000) % 512)
  {
  }

  lemma Next2Bits(base: bv64, va: bv32)
    requires base & 0xfff == 0
    ensures base | ((va >> 18) & 0xff8) as bv64 == base + 8 * ((va as bv64 / 0x20_0000) % 512)
  {
  }

  lemma Next3Bits(base: bv64, va: bv32)
    requires base & 0xfff == 0
    ensures base | ((va >> 9) & 0xff8) as bv64 == base + 8 * ((va as bv64 / 0x1000) % 512)
  {
  }

  /** ORing the index field into `base` is adding eight times the index. */
  predicate CarryFree(base: bv64, level: nat, va: bv32)
    requires 1 <= level <= 3
  {
    base | IndexField(va, level) == EntryAddress(base, level, va)
  }

  lemma CarryFreeOr(base: bv64, level: nat, va: bv32)
    requires 1 <= level <= 3 && CarryFree(base, level, va)
    ensures Or(base, IndexField(va, level)) == EntryAddress(base, level, va)
  {
    hide IndexField, EntryAddress;
  }

  predicate AlignedTo(base: bv64, size: bv64) {
    base & (size - 1) == 0
  }

  predicate Inside(va: bv32, tsz: bv32)
    requires tsz < 8
  {
    va & (0xffff_ffff >> tsz) == va
  }

  lemma AlignDownAligned(x: bv64, size: bv64)
    ensures AlignedTo(AlignDown(x, size), size)
  {
    AlignBits(x, size - 1);
  }

  lemma AlignBits(x: bv64, mask: bv64)
    ensures (x & !mask) & mask == 0
  {
  }

  lemma InRegionInside(va: bv32, tsz: bv32)
    requires tsz < 8
    ensures Inside(InRegion(va, tsz), tsz)
  {
    RegionBits(va, tsz);
  }

  lemma RegionBits(va: bv32, tsz: bv32)
    requires tsz < 8
    ensures (va & (0xffff_ffff >> tsz)) & (0xffff_ffff >> tsz) == va & (0xffff_ffff >> tsz)
  {
  }

  lemma First1(base: bv64, va: bv32, tsz: bv32)
    requires tsz <= 1 && AlignedTo(base, TableBytes(tsz)) && Inside(va, tsz)
    ensures CarryFree(base, 1, va)
  {
    First1Bits(base, TableBytes(tsz) - 1, va, tsz);
  }

  lemma First2(base: bv64, va: bv32, tsz: bv32)
    requires 1 < tsz < 8 && AlignedTo(base, TableBytes(tsz)) && Inside(va, tsz)
    ensures CarryFree(base, 2, va)
  {
    First2Bits(base, TableBytes(tsz) - 1, va, tsz);
  }

  /** The first descriptor address is the aligned table base plus eight times the index. */
  lemma FirstCarryFree(root: Root, va: bv32)
    requires root.tsz < 8
    ensures CarryFree(TableBase(root), StartLevel(root.tsz), InRegion(va, root.tsz))
  {
    hide CarryFree, TableBytes, AlignDown, InRegion, Inside, AlignedTo;
    AlignDownAligned(Cut(root.ttbr), TableBytes(root.tsz));
    InRegionInside(va, root.tsz);
    if root.tsz > 1 {
      First2(TableBase(root), InRegion(va, root.tsz), root.tsz);
    } else {
      First1(TableBase(root), InRegion(va, root.tsz), root.tsz);
    }
  }

  lemma OutputBits(d: bv64, base: bv64)
    requires base == d & 0xff_ffff_f000
    ensures base & 0xfff == 0
  {
  }

  lemma NextCarryFreeAt(base: bv64, level: nat, va: bv32)
    requires 2 <= level <= 3 && base & 0xfff == 0
    ensures CarryFree(base, level, va)
  {
    hide CarryFree;
    if level == 2 {
      Next2(base, va);
    } else {
      Next3(base, va);
    }
  }

  lemma Next2(base: bv64, va: bv32)
    requires base & 0xfff == 0
    ensures CarryFree(base, 2, va)
  {
    Next2Bits(base, va);
  }

  lemma Next3(base: bv64, va: bv32)
    requires base & 0xfff == 0
    ensures CarryFree(base, 3, va)
  {
    Next3Bits(base, va);
  }

  lemma NextCarryFree(d: bv64, level: nat, va: bv32)
    requires 2 <= level <= 3
    ensures CarryFree(OutputAddress(d), level, va)
  {
    hide CarryFree;
    OutputBits(d, OutputAddress(d));
    NextCarryFreeAt(OutputAddress(d), level, va);
  }

  /** The first table holds one entry for each block of its region. */
  lemma FirstTableSize(tsz: bv32)
    requires tsz < 8
    ensures TableBytes(tsz) == if tsz > 1 then 8 * (RegionSize(tsz) / 0x20_0000) else 8 * (RegionSize(tsz) / 0x4000_0000)
  {
    if tsz > 1 {
      TableSize2Bits(tsz, 0x1_0000_0000, 0x4000);
    } else {
      TableSize1Bits(tsz, 0x1_0000_0000, 0x20);
    }
  }

  lemma TableSize1Bits(tsz: bv32, all: bv64, top: bv64)
    requires tsz <= 1 && all == 0x1_0000_0000 && top == 0x20
    ensures top >> tsz == 8 * ((all >> tsz) / 0x4000_0000)
  {
  }

  lemma TableSize2Bits(tsz: bv32, all: bv64, top: bv64)
    requires 1 < tsz < 8 && all == 0x1_0000_0000 && top == 0x4000
    ensures top >> tsz == 8 * ((all >> tsz) / 0x20_0000)
  {
  }

  /** The first descriptor read lies inside the first table, whatever the size of the region. */
  lemma FirstEntryInTable(va: bv32, tsz: bv32)
    requires tsz < 8
    ensures 8 * EntryIndex(InRegion(va, tsz), StartLevel(tsz)) + 8 <= TableBytes(tsz) <= 0x1000
  {
    var inside := InRegion(va, tsz);
    if tsz > 1 {
      Entry2Bits(va, inside, tsz, TableBytes(tsz));
    } else {
      Entry1Bits(va, inside, tsz, TableBytes(tsz));
    }
  }

  lemma Entry1Bits(va: bv32, inside: bv32, tsz: bv32, bytes: bv64)
    requires tsz <= 1 && inside == va & (0xffff_ffff >> tsz) && bytes == 0x20 >> tsz
    ensures 8 * ((inside as bv64 / 0x4000_0000) % 512) + 8 <= bytes <= 0x1000
  {
  }

  lemma Entry2Bits(va: bv32, inside: bv32, tsz: bv32, bytes: bv64)
    requires 1 < tsz < 8 && inside == va & (0xffff_ffff >> tsz) && bytes == 0x4000 >> tsz
    ensures 8 * ((inside as bv64 / 0x20_0000) % 512) + 8 <= bytes <= 0x1000
  {
  }

  /** The output address of a block is a multiple of its size: no reserved bit is set. */
  predicate BlockAligned(base: bv64, level: nat)
    requires 1 <= level <= 3
  {
    match level
    case 1 => base % 0x4000_0000 == 0
    case 2 => base % 0x20_0000 == 0
    case _ => base % 0x1000 == 0
  }

  /** ORing the two words is adding them. */
  predicate NoCarry(x: bv64, y: bv64) {
    Or(x, y) == x + y
  }

  /** With its reserved bits zero, a block descriptor maps its base plus the offset of the address. */
  lemma BlockSum(d: bv64, level: nat, va: bv32)
    requires 1 <= level <= 3 && BlockAligned(OutputAddress(d), level)
    ensures NoCarry(OutputAddress(d), BlockOffset(va, level))
  {
    hide NoCarry, OutputAddress, BlockAligned, BlockOffset;
    match level
    case 1 => Block1(OutputAddress(d), va);
    case 2 => Block2(OutputAddress(d), va);
    case _ => Block3(OutputAddress(d), va);
  }

  lemma Block1(base: bv64, va: bv32)
    requires BlockAligned(base, 1)
    ensures NoCarry(base, BlockOffset(va, 1))
  {
    Block1Bits(base, va);
  }

  lemma Block2(base: bv64, va: bv32)
    requires BlockAligned(base, 2)
    ensures NoCarry(base, BlockOffset(va, 2))
  {
    Block2Bits(base, va);
  }

  lemma Block3(base: bv64, va: bv32)
    requires BlockAligned(base, 3)
    ensures NoCarry(base, BlockOffset(va, 3))
  {
    Block3Bits(base, va);
  }

  lemma Block1Bits(base: bv64, va: bv32)
    requires base % 0x4000_0000 == 0
    ensures base | (va as bv64 % 0x4000_0000) == base + va as bv64 % 0x4000_0000
  {
  }

  lemma Block2Bits(base: bv64, va: bv32)
    requires base % 0x20_0000 == 0
    ensures base | (va as bv64 % 0x20_0000) == base + va as bv64 % 0x20_0000
  {
  }

  lemma Block3Bits(base: bv64, va: bv32)
    requires base % 0x1000 == 0
    ensures base | (va as bv64 % 0x1000) == base + va as bv64 % 0x1000
  {
  }

  function Half(x: bv64): bv64 {
    x / 2
  }

  function Double(x: bv64): bv64 {
    2 * x
  }

  /** An address rounded down to a multiple of 2^k. */
  function Down(x: bv64, k: bv64): bv64
    decreases k
  {
    if k == 0 then x else Double(Down(Half(x), k - 1))
  }

  function Masked(x: bv64, k: bv64): bv64
    requires k < 16
  {
    AlignDown(x, Unit(k))
  }

  function Unit(k: bv64): bv64
    requires k < 16
  {
    1 << k
  }

  lemma UnmaskedBits(x: bv64)
    ensures Masked(x, 0) == x
  {
  }

  lemma NextMaskedBits(x: bv64, k: bv64)
    requires 0 < k < 16
    ensures Double(Masked(Half(x), k - 1)) == Masked(x, k)
  {
    calc {
      Double(Masked(Half(x), k - 1));
      2 * ((x / 2) & !((1 << (k - 1)) - 1));
      { HalfBits(x, k); }
      x & !((1 << k) - 1);
      Masked(x, k);
    }
  }

  lemma HalfBits(x: bv64, k: bv64)
    requires 0 < k < 16
    ensures 2 * ((x / 2) & !((1 << (k - 1)) - 1)) == x & !((1 << k) - 1)
  {
  }

  lemma {:induction false} DownBits(x: bv64, k: bv64)
    requires k < 16
    ensures Down(x, k) == Masked(x, k)
    decreases k
  {
    hide Masked, Half, Double;
    if k == 0 {
      UnmaskedBits(x);
    } else {
      DownBits(Half(x), k - 1);
      NextMaskedBits(x, k);
    }
  }

  /** The first table is at the last multiple of 2^(5 - tsz), or of 2^(14 - tsz) if it is of level 2, at or below the TTBR,
      cut to forty bits. */
  lemma TableBaseExact(root: Root)
    requires root.tsz < 8
    ensures TableBase(root) == Down(Cut(root.ttbr), TableLog(root.tsz))
  {
    hide TableBytes, TableLog, Unit, AlignDown, Cut, Down;
    DownBits(Cut(root.ttbr), TableLog(root.tsz));
    LogBits(root.tsz);
  }

  function TableLog(tsz: bv32): (k: bv64)
    requires tsz < 8
    ensures k < 16
  {
    (if tsz > 1 then 14 - tsz else 5 - tsz) as bv64
  }

  lemma LogBits(tsz: bv32)
    requires tsz < 8
    ensures TableBytes(tsz) == Unit(TableLog(tsz))
  {
  }

  /** A descriptor is the word at its address and the word after it, least significant first. */
  lemma LdqWords(mem: Memory, a: bv64)
    ensures Ldq(mem, a) % 0x1_0000_0000 == mem(a) as bv64
    ensures Ldq(mem, a) / 0x1_0000_0000 == mem(a + 4) as bv64
  {
    LdqBits(mem(a), mem(a + 4));
  }

  lemma LdqBits(lo: bv32, hi: bv32)
    ensures ((hi as bv64 << 32) | lo as bv64) % 0x1_0000_0000 == lo as bv64
    ensures ((hi as bv64 << 32) | lo as bv64) / 0x1_0000_0000 == hi as bv64
  {
  }

  /** The part of an address that indexes the tables of its region: the remainder by the size of the region. */
  lemma InRegionExact(va: bv32, tsz: bv32)
    requires tsz < 8
    ensures InRegion(va, tsz) == RegionOffset(va, tsz)
  {
    hide InRegion, RegionOffset;
    match tsz
    case 0 => Offset0(va);
    case 1 => Offset1(va);
    case 2 => Offset2(va);
    case 3 => Offset3(va);
    case 4 => Offset4(va);
    case 5 => Offset5(va);
    case 6 => Offset6(va);
    case _ => Offset7(va);
  }

  function RegionOffset(va: bv32, tsz: bv32): bv32
    requires tsz < 8
  {
    match tsz
    case 0 => va
    case 1 => va % 0x8000_0000
    case 2 => va % 0x4000_0000
    case 3 => va % 0x2000_0000
    case 4 => va % 0x1000_0000
    case 5 => va % 0x0800_0000
    case 6 => va % 0x0400_0000
    case _ => va % 0x0200_0000
  }

  lemma Offset0(va: bv32)
    ensures InRegion(va, 0) == RegionOffset(va, 0)
  {
  }

  lemma Offset1(va: bv32)
    ensures InRegion(va, 1) == RegionOffset(va, 1)
  {
  }

  lemma Offset2(va: bv32)
    ensures InRegion(va, 2) == RegionOffset(va, 2)
  {
  }

  lemma Offset3(va: bv32)
    ensures InRegion(va, 3) == RegionOffset(va, 3)
  {
  }

  lemma Offset4(va: bv32)
    ensures InRegion(va, 4) == RegionOffset(va, 4)
  {
  }

  lemma Offset5(va: bv32)
    ensures InRegion(va, 5) == RegionOffset(va, 5)
  {
  }

  lemma Offset6(va: bv32)
    ensures InRegion(va, 6) == RegionOffset(va, 6)
  {
  }

  lemma Offset7(va: bv32)
    ensures InRegion(va, 7) == RegionOffset(va, 7)
  {
  }

  // ---------------------------------------------------------------- fields as the source reads them

  /** extract32 and extract64. */
  function Extract32(value: bv32, start: bv32, length: bv32): bv32
    requires start < 32 && 0 < length <= 32
  {
    (value >> start) & (0xffff_ffff >> (32 - length))
  }

  function Extract64(value: bv64, start: bv64, length: bv64): bv64
    requires start < 64 && 0 < length <= 64
  {
    (value >> start) & (0xffff_ffff_ffff_ffff >> (64 - length))
  }

  lemma SizeFields(ttbcr: bv32)
    ensures Extract32(ttbcr, 0, 3) == T0sz(ttbcr)
    ensures Extract32(ttbcr, 16, 3) == T1sz(ttbcr)
  {
  }

  function Shifted(hi: bv32, lo: bv32): bv64 {
    (hi as bv64 << 32) | lo as bv64
  }

  lemma ShiftedIsJoined(hi: bv32, lo: bv32)
    ensures Shifted(hi, lo) == Joined(hi, lo)
  {
  }

  function ReadRoot(c: Cp15, useTtbr1: bool): Root {
    if useTtbr1 then Root(Shifted(c.ttbr1Hi, c.ttbr1), Extract32(c.ttbcr, 23, 1) != 0, Extract32(c.ttbcr, 16, 3))
    else Root(Shifted(c.ttbr0Hi, c.ttbr0), Extract32(c.ttbcr, 7, 1) != 0, Extract32(c.ttbcr, 0, 3))
  }

  lemma DisabledFields(ttbcr: bv32)
    ensures (Extract32(ttbcr, 7, 1) != 0) == (ttbcr / 0x80 % 2 == 1)
    ensures (Extract32(ttbcr, 23, 1) != 0) == (ttbcr / 0x80_0000 % 2 == 1)
  {
  }

  lemma ReadRootIs(c: Cp15, useTtbr1: bool)
    ensures ReadRoot(c, useTtbr1) == RootOf(c, useTtbr1)
  {
    hide Shifted, Joined, T0sz, T1sz, Extract32;
    ShiftedIsJoined(c.ttbr0Hi, c.ttbr0);
    ShiftedIsJoined(c.ttbr1Hi, c.ttbr1);
    SizeFields(c.ttbcr);
    DisabledFields(c.ttbcr);
  }

  /** The descriptor is invalid, or the reserved level 3 encoding. */
  predicate Rejected(d: bv64, level: nat) {
    d & 1 == 0 || (d & 2 == 0 && level == 3)
  }

  predicate Nested(d: bv64, level: nat) {
    d & 2 != 0 && level < 3
  }

  function OutputField(d: bv64): bv64 {
    d & 0xff_ffff_f000
  }

  lemma DescriptorFields(d: bv64)
    ensures d & 1 == 0 <==> d % 2 != 1
    ensures d & 2 == 0 <==> d / 2 % 2 != 1
    ensures d % 4 == 3 <==> d % 2 == 1 && d / 2 % 2 == 1
  {
  }

  lemma DescriptorIs(d: bv64, level: nat)
    requires 1 <= level <= 3
    ensures Rejected(d, level) == !IsValid(d, level) && Nested(d, level) == IsTable(d, level)
  {
    DescriptorFields(d);
  }

  lemma OutputFieldIs(d: bv64)
    ensures OutputField(d) == OutputAddress(d)
  {
  }

  /** The values of MMUFaultType. */
  function TypeNumber(t: FaultType): bv32 {
    match t
    case Translation => 1
    case AccessFlag => 2
    case Permission => 3
  }

  /** The value returned for a fault. */
  function FaultWord(t: FaultType, level: nat): Walk
    requires 1 <= level <= 3
  {
    Fault((1 << 9) | (TypeNumber(t) << 2) | LevelNumber(level))
  }

  lemma FaultBits(t: bv32, level: bv32)
    requires t < 4 && level < 4
    ensures (1 << 9) | (t << 2) | level == 0x200 + 4 * t + level
  {
  }

  lemma FaultWordIs(t: FaultType, level: nat)
    requires 1 <= level <= 3
    ensures FaultWord(t, level) == LongFault(t, level)
  {
    FaultBits(TypeNumber(t), LevelNumber(level));
  }

  function Pow2(n: nat): nat {
    if n == 0 then 1 else 2 * Pow2(n - 1)
  }

  lemma PageSizeIsPower(level: nat)
    requires 1 <= level <= 3
    ensures PageSize(level) == Pow2(39 - 9 * level)
  {
    assert Pow2(12) == 0x1000;
    assert Pow2(21) == 0x20_0000;
    assert Pow2(30) == 0x4000_0000;
  }

  // ---------------------------------------------------------------- attributes as the source merges them

  /** tableattrs after the top five bits of a table descriptor have been ORed in. */
  function GatherAttrs(tableattrs: bv32, d: bv64): bv32 {
    tableattrs | ((d >> 59) & 0x1f) as bv32
  }

  /** The attributes of a leaf merged with those gathered from the tables above it. */
  function MergeAttrs(d: bv64, tableattrs: bv32): bv32 {
    var attrs := ((d >> 2) & 0x3ff) as bv32 | (((d >> 52) & 0xfff) as bv32 << 10);
    var attrs := attrs | ((tableattrs & 3) << 11) | (((tableattrs >> 3) & 1) << 5);
    if (tableattrs >> 2) & 1 != 0 then attrs & !0x10 else attrs
  }

  predicate Bit(attrs: bv32, k: bv5) {
    (attrs >> k) & 1 != 0
  }

  lemma GatherBits(tableattrs: bv32, d: bv64, t: bv32)
    requires t == tableattrs | ((d >> 59) & 0x1f) as bv32
    ensures Bit(t, 0) == (Bit(tableattrs, 0) || Attr(d, 59))
    ensures Bit(t, 1) == (Bit(tableattrs, 1) || Attr(d, 60))
    ensures Bit(t, 2) == (Bit(tableattrs, 2) || Attr(d, 61))
    ensures Bit(t, 3) == (Bit(tableattrs, 3) || Attr(d, 62))
  {
  }

  lemma MergeBits(d: bv64, t: bv32)
    ensures Bit(MergeAttrs(d, t), 8) == Attr(d, 10)
    ensures Bit(MergeAttrs(d, t), 4) == (Attr(d, 6) && !Bit(t, 2))
    ensures Bit(MergeAttrs(d, t), 5) == (Attr(d, 7) || Bit(t, 3))
    ensures Bit(MergeAttrs(d, t), 11) == (Attr(d, 53) || Bit(t, 0))
    ensures Bit(MergeAttrs(d, t), 12) == (Attr(d, 54) || Bit(t, 1))
  {
  }

  /** The gathered word holds the union of the restrictions of the table descriptors passed. */
  ghost predicate Gathered(tableattrs: bv32, tables: seq<bv64>) {
    && Bit(tableattrs, 0) == Some(tables, 59)
    && Bit(tableattrs, 1) == Some(tables, 60)
    && Bit(tableattrs, 2) == Some(tables, 61)
    && Bit(tableattrs, 3) == Some(tables, 62)
  }

  lemma SomeAppend(tables: seq<bv64>, d: bv64, k: bv6)
    ensures Some(tables + [d], k) == (Some(tables, k) || Attr(d, k))
  {
    hide Attr;
    assert d in tables + [d];
    assert forall e :: e in tables ==> e in tables + [d];
  }

  lemma GatheredAppend(tableattrs: bv32, tables: seq<bv64>, d: bv64)
    requires Gathered(tableattrs, tables)
    ensures Gathered(GatherAttrs(tableattrs, d), tables + [d])
  {
    hide Bit, Attr, Some;
    GatherBits(tableattrs, d, GatherAttrs(tableattrs, d));
    SomeAppend(tables, d, 59);
    SomeAppend(tables, d, 60);
    SomeAppend(tables, d, 61);
    SomeAppend(tables, d, 62);
  }

  /** The end of get_phys_addr_lpae: the permission checks on the merged attributes. */
  function CheckAttrs(attrs: bv32, phys: bv64, level: nat, a: Access, user: bool): Walk
    requires 1 <= level <= 3
  {
    var noExec := Bit(attrs, 12) || (!user && Bit(attrs, 11));
    var noWrite := Bit(attrs, 5);
    if !Bit(attrs, 8) then FaultWord(AccessFlag, level)
    else if user && !Bit(attrs, 4) then FaultWord(Permission, level)
    else if noExec && a.Fetch? then FaultWord(Permission, level)
    else if noWrite && a.Store? then FaultWord(Permission, level)
    else Mapped(phys, Prot(true, !noWrite, !noExec), Pow2(39 - 9 * level))
  }

  /** Checking merged attributes intersects the permissions of the leaf and of every table. */
  lemma CheckAttrsMeaning(leaf: bv64, t: bv32, tables: seq<bv64>, phys: bv64, level: nat, a: Access, user: bool)
    requires 1 <= level <= 3 && Gathered(t, tables)
    ensures CheckAttrs(MergeAttrs(leaf, t), phys, level, a, user) == Permit(Found(phys, leaf, level, tables), a, user)
  {
    hide Bit, Attr, MergeAttrs, Some, LongFault, FaultWord, PageSize, Pow2;
    MergeBits(leaf, t);
    FaultWordIs(AccessFlag, level);
    FaultWordIs(Permission, level);
    PageSizeIsPower(level);
  }

  // ---------------------------------------------------------------- the walk of the source

  /** The offset bits that the source ORs into the output address. */
  function OffsetField(va: bv32, level: nat): bv64
    requires 1 <= level <= 3
  {
    match level
    case 1 => (va & 0x3fff_ffff) as bv64
    case 2 => (va & 0x1f_ffff) as bv64
    case _ => (va & 0xfff) as bv64
  }

  lemma BlockBits(va: bv32)
    ensures (va & 0x3fff_ffff) as bv64 == va as bv64 % 0x4000_0000
    ensures (va & 0x1f_ffff) as bv64 == va as bv64 % 0x20_0000
    ensures (va & 0xfff) as bv64 == va as bv64 % 0x1000
  {
  }

  lemma OffsetFieldIsRemainder(va: bv32, level: nat)
    requires 1 <= level <= 3
    ensures OffsetField(va, level) == BlockOffset(va, level)
  {
    BlockBits(va);
  }

  lemma GatheredNone()
    ensures Gathered(0, [])
  {
  }

  /** The loop of get_phys_addr_lpae, from the first table on. */
  method WalkTables(mem: Memory, address: bv32, start: nat, base: bv64, a: Access, user: bool) returns (r: Walk)
    requires 1 <= start <= 3 && CarryFree(base, start, address)
    ensures r == Permit(Lookup(mem, address, start, base, []), a, user)
  {
    hide Grants, Attr, LongFault, FaultWord, Ldq, IndexField, EntryAddress, IsValid, IsTable, OutputAddress, Rejected,
      Nested, OutputField, Gathered, GatherAttrs, MergeAttrs, CarryFree, CheckAttrs, PageSize, BlockOffset, Or,
      OffsetField;
    var level, descaddr := start, base;
    var tableattrs: bv32 := 0;
    ghost var tables: seq<bv64> := [];
    GatheredNone();
    while true
      invariant start <= level <= 3
      invariant CarryFree(descaddr, level, address)
      invariant Gathered(tableattrs, tables)
      invariant Lookup(mem, address, level, descaddr, tables) == Lookup(mem, address, start, base, [])
      decreases 3 - level
    {
      CarryFreeOr(descaddr, level, address);
      descaddr := Or(descaddr, IndexField(address, level));
      var descriptor := Ldq(mem, descaddr);
      DescriptorIs(descriptor, level);
      OutputFieldIs(descriptor);
      FaultWordIs(Translation, level);
      if Rejected(descriptor, level) {
        return FaultWord(Translation, level);
      }
      descaddr := OutputField(descriptor);
      if Nested(descriptor, level) {
        GatheredAppend(tableattrs, tables, descriptor);
        NextCarryFree(descriptor, level + 1, address);
        tableattrs := GatherAttrs(tableattrs, descriptor);
        tables := tables + [descriptor];
        level := level + 1;
        continue;
      }
      OffsetFieldIsRemainder(address, level);
      descaddr := Or(descaddr, OffsetField(address, level));
      CheckAttrsMeaning(descriptor, tableattrs, tables, descaddr, level, a, user);
      return CheckAttrs(MergeAttrs(descriptor, tableattrs), descaddr, level, a, user);
    }
  }

  /** The first table as the source finds it: bit n is the lowest one taken from the TTBR. */
  function FirstTable(ttbr: bv64, tsz: bv32): bv64
    requires tsz < 8
  {
    AlignDown(Extract64(ttbr, 0, 40), LowBytes(tsz))
  }

  function LowBytes(tsz: bv32): bv64
    requires tsz < 8
  {
    var n: bv32 := if tsz > 1 then 14 - tsz else 5 - tsz;
    1 << n
  }

  lemma LowBytesBits(tsz: bv32)
    requires tsz < 8
    ensures LowBytes(tsz) == TableBytes(tsz)
  {
  }

  lemma CutBits(ttbr: bv64)
    ensures Extract64(ttbr, 0, 40) == Cut(ttbr)
  {
  }

  lemma FirstTableIs(root: Root)
    requires root.tsz < 8
    ensures FirstTable(root.ttbr, root.tsz) == TableBase(root)
  {
    hide TableBytes, LowBytes, Extract64, Cut, AlignDown;
    CutBits(root.ttbr);
    LowBytesBits(root.tsz);
  }

  /** get_phys_addr_lpae finds what the arithmetic specification says. */
  method GetPhysAddrLpae(c: Cp15, mem: Memory, va: bv32, a: Access, user: bool) returns (r: Walk)
    ensures r == WalkLpae(c, mem, va, a, user)
  {
    hide T0sz, T1sz, Extract32, RegionOf, SelectRegion, RootOf, ReadRoot, LongFault, FaultWord, FirstTable, TableBase,
      InRegion, Lookup, Grants, PageSize;
    SizeFields(c.ttbcr);
    FaultWordIs(Translation, 1);
    var region := SelectRegion(Extract32(c.ttbcr, 0, 3), Extract32(c.ttbcr, 16, 3), va);
    RegionsPartition(T0sz(c.ttbcr), T1sz(c.ttbcr), va);
    assert region == RegionIn(c, va);
    if region == Gap {
      return FaultWord(Translation, 1);
    }
    ReadRootIs(c, region == Ttbr1);
    var root := ReadRoot(c, region == Ttbr1);
    if root.disabled {
      return FaultWord(Translation, 1);
    }
    FirstTableIs(root);
    FirstCarryFree(root, va);
    r := WalkTables(mem, InRegion(va, root.tsz), if root.tsz > 1 then 2 else 1, FirstTable(root.ttbr, root.tsz), a, user);
  }
}
