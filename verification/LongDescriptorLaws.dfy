/** Laws of the LPAE walk: one protection serves every access type, the answer is constant across a
    granule, and attributes of table descriptors can only take permissions away. */
module LongDescriptorLaws {
  import opened Vmsa
  import opened LongDescriptor

  // ---------------------------------------------------------------- coherence across access types

  lemma PermitCoherent(found: Found, a: Access, b: Access, user: bool)
    requires 1 <= found.level <= 3
    ensures CoherentPair(Permit(found, a, user), a, Permit(found, b, user), b)
  {
    hide Attr, Some, LongFault, PageSize;
  }

  /** The protection of an LPAE walk is usable for every access type. */
  lemma WalkLpaeCoherent(c: Cp15, mem: Memory, va: bv32, a: Access, b: Access, user: bool)
    ensures CoherentPair(WalkLpae(c, mem, va, a, user), a, WalkLpae(c, mem, va, b, user), b)
  {
    hide Locate, Permit;
    PermitCoherent(Locate(c, mem, va), a, b, user);
  }

  // ---------------------------------------------------------------- constancy across a granule

  lemma IndexBits(x: bv32, g: bv32)
    requires g == x & 0xfffffc00
    ensures (g as bv64 / 0x4000_0000) % 512 == (x as bv64 / 0x4000_0000) % 512
    ensures (g as bv64 / 0x20_0000) % 512 == (x as bv64 / 0x20_0000) % 512
    ensures (g as bv64 / 0x1000) % 512 == (x as bv64 / 0x1000) % 512
  {
  }

  lemma IndexGranule(x: bv32, g: bv32, level: nat)
    requires g == x & 0xfffffc00 && 1 <= level <= 3
    ensures EntryIndex(g, level) == EntryIndex(x, level)
  {
    IndexBits(x, g);
  }

  lemma EntryGranule(base: bv64, level: nat, x: bv32)
    requires 1 <= level <= 3
    ensures EntryAddress(base, level, Granule(x)) == EntryAddress(base, level, x)
  {
    hide Entry, EntryIndex;
    IndexGranule(x, Granule(x), level);
  }

  // The offset of a granule in its block does not disturb the offset in the granule.

  lemma Block1Bits(d: bv64, x: bv32, g: bv32)
    requires g == x & 0xfffffc00
    ensures (d & 0xff_ffff_f000) | (x as bv64 % 0x4000_0000) ==
            (((d & 0xff_ffff_f000) | (g as bv64 % 0x4000_0000)) & 0xffff_ffff_ffff_fc00) | ((x & 0x3ff) as bv64)
  {
  }

  lemma Block1Is(d: bv64, x: bv32)
    ensures Or(OutputAddress(d), BlockOffset(x, 1)) == (d & 0xff_ffff_f000) | (x as bv64 % 0x4000_0000)
  {
  }

  lemma Block1At(d: bv64, x: bv32, g: bv32)
    requires g == x & 0xfffffc00
    ensures Or(OutputAddress(d), BlockOffset(x, 1)) == AtOffset(Or(OutputAddress(d), BlockOffset(g, 1)), x)
  {
    hide Or, OutputAddress, BlockOffset, Splice, Offset;
    Block1Is(d, x);
    Block1Is(d, g);
    Block1Bits(d, x, g);
    SpliceIs((d & 0xff_ffff_f000) | (g as bv64 % 0x4000_0000), x);
  }

  lemma Block2Bits(d: bv64, x: bv32, g: bv32)
    requires g == x & 0xfffffc00
    ensures (d & 0xff_ffff_f000) | (x as bv64 % 0x20_0000) ==
            (((d & 0xff_ffff_f000) | (g as bv64 % 0x20_0000)) & 0xffff_ffff_ffff_fc00) | ((x & 0x3ff) as bv64)
  {
  }

  lemma Block2Is(d: bv64, x: bv32)
    ensures Or(OutputAddress(d), BlockOffset(x, 2)) == (d & 0xff_ffff_f000) | (x as bv64 % 0x20_0000)
  {
  }

  lemma Block2At(d: bv64, x: bv32, g: bv32)
    requires g == x & 0xfffffc00
    ensures Or(OutputAddress(d), BlockOffset(x, 2)) == AtOffset(Or(OutputAddress(d), BlockOffset(g, 2)), x)
  {
    hide Or, OutputAddress, BlockOffset, Splice, Offset;
    Block2Is(d, x);
    Block2Is(d, g);
    Block2Bits(d, x, g);
    SpliceIs((d & 0xff_ffff_f000) | (g as bv64 % 0x20_0000), x);
  }

  lemma Block3Bits(d: bv64, x: bv32, g: bv32)
    requires g == x & 0xfffffc00
    ensures (d & 0xff_ffff_f000) | (x as bv64 % 0x1000) ==
            (((d & 0xff_ffff_f000) | (g as bv64 % 0x1000)) & 0xffff_ffff_ffff_fc00) | ((x & 0x3ff) as bv64)
  {
  }

  lemma Block3Is(d: bv64, x: bv32)
    ensures Or(OutputAddress(d), BlockOffset(x, 3)) == (d & 0xff_ffff_f000) | (x as bv64 % 0x1000)
  {
  }

  lemma Block3At(d: bv64, x: bv32, g: bv32)
    requires g == x & 0xfffffc00
    ensures Or(OutputAddress(d), BlockOffset(x, 3)) == AtOffset(Or(OutputAddress(d), BlockOffset(g, 3)), x)
  {
    hide Or, OutputAddress, BlockOffset, Splice, Offset;
    Block3Is(d, x);
    Block3Is(d, g);
    Block3Bits(d, x, g);
    SpliceIs((d & 0xff_ffff_f000) | (g as bv64 % 0x1000), x);
  }

  lemma SpliceIs(phys: bv64, x: bv32)
    ensures Splice(phys, Offset(x)) == (phys & 0xffff_ffff_ffff_fc00) | ((x & 0x3ff) as bv64)
  {
  }

  lemma BlockGranule(d: bv64, level: nat, x: bv32)
    requires 1 <= level <= 3
    ensures BlockAddress(d, level, x) == AtOffset(BlockAddress(d, level, Granule(x)), x)
  {
    hide Or, AtOffset, BlockOffset, OutputAddress;
    match level
    case 1 => Block1At(d, x, Granule(x));
    case 2 => Block2At(d, x, Granule(x));
    case _ => Block3At(d, x, Granule(x));
  }

  lemma TopBits(x: bv32, g: bv32, n: bv32)
    requires g == x & 0xfffffc00 && 0 < n < 8
    ensures g >> (32 - n) == x >> (32 - n)
    ensures !g >> (32 - n) == !x >> (32 - n)
  {
  }

  lemma TopGranule(x: bv32, g: bv32, n: bv32)
    requires g == x & 0xfffffc00 && 0 < n < 8
    ensures TopZeros(g, n) == TopZeros(x, n)
    ensures TopOnes(g, n) == TopOnes(x, n)
  {
    TopBits(x, g, n);
  }

  lemma SelectRegionAt(t0sz: bv32, t1sz: bv32, x: bv32, g: bv32)
    requires t0sz < 8 && t1sz < 8 && g == x & 0xfffffc00
    ensures SelectRegion(t0sz, t1sz, g) == SelectRegion(t0sz, t1sz, x)
  {
    hide TopZeros, TopOnes;
    if t0sz != 0 { TopGranule(x, g, t0sz); }
    if t1sz != 0 { TopGranule(x, g, t1sz); }
  }

  lemma InRegionBits(x: bv32, m: bv32, g: bv32, inside: bv32)
    requires g == x & 0xfffffc00
    requires inside == x & m
    ensures g & m == inside & 0xfffffc00
  {
  }

  lemma InRegionOffsetBits(x: bv32, tsz: bv32)
    requires tsz < 8
    ensures (x & (0xffff_ffff >> tsz)) & 0x3ff == x & 0x3ff
  {
  }

  lemma RegionGranule(c: Cp15, x: bv32)
    ensures RegionIn(c, Granule(x)) == RegionIn(c, x)
  {
    hide SelectRegion, RegionOf, T0sz, T1sz;
    var t0sz, t1sz := T0sz(c.ttbcr), T1sz(c.ttbcr);
    RegionsPartition(t0sz, t1sz, x);
    RegionsPartition(t0sz, t1sz, Granule(x));
    SelectRegionAt(t0sz, t1sz, x, Granule(x));
  }

  lemma MaskIs(x: bv32, m: bv32, r: bv32)
    requires r == x & m
    ensures Mask(x, m) == r
  {
  }

  lemma GranuleIs(x: bv32, r: bv32)
    requires r == x & 0xfffffc00
    ensures Granule(x) == r
  {
  }

  lemma MaskGranule(x: bv32, m: bv32)
    ensures Mask(Granule(x), m) == Granule(Mask(x, m))
  {
    hide Mask, Granule;
    var g, inside := x & 0xfffffc00, x & m;
    GranuleIs(x, g);
    MaskIs(x, m, inside);
    InRegionBits(x, m, g, inside);
    MaskIs(g, m, g & m);
    GranuleIs(inside, g & m);
  }

  lemma InRegionGranule(x: bv32, tsz: bv32)
    requires tsz < 8
    ensures InRegion(Granule(x), tsz) == Granule(InRegion(x, tsz))
  {
    hide Mask, Granule;
    MaskGranule(x, 0xffff_ffff >> tsz);
  }

  lemma InRegionOffset(x: bv32, tsz: bv32)
    requires tsz < 8
    ensures Offset(InRegion(x, tsz)) == Offset(x)
  {
    InRegionOffsetBits(x, tsz);
  }

  /** `found'` is `found` moved to the offset of `va`. */
  ghost predicate SameFound(found: Found, found': Found, va: bv32) {
    found' == if found.Found? then found.(phys := AtOffset(found.phys, va)) else found
  }

  lemma LookupGranule(mem: Memory, x: bv32, level: nat, base: bv64, tables: seq<bv64>)
    requires 1 <= level <= 3
    ensures SameFound(Lookup(mem, Granule(x), level, base, tables), Lookup(mem, x, level, base, tables), x)
    decreases 3 - level
  {
    hide Ldq, EntryAddress, IsValid, OutputAddress, BlockAddress, AtOffset, Granule;
    EntryGranule(base, level, x);
    var d := Ldq(mem, EntryAddress(base, level, x));
    if IsTable(d, level) {
      LookupGranule(mem, x, level + 1, OutputAddress(d), tables + [d]);
    } else {
      BlockGranule(d, level, x);
    }
  }

  lemma LocateGranule(c: Cp15, mem: Memory, x: bv32)
    ensures SameFound(Locate(c, mem, Granule(x)), Locate(c, mem, x), x)
  {
    hide RegionIn, RootOf, Lookup, InRegion, TableBase, Granule, Offset, Splice;
    RegionGranule(c, x);
    var root := RootOf(c, RegionIn(c, x) == Ttbr1);
    InRegionGranule(x, root.tsz);
    InRegionOffset(x, root.tsz);
    LookupGranule(mem, InRegion(x, root.tsz), StartLevel(root.tsz), TableBase(root), []);
  }

  /** get_phys_addr_lpae is constant across a granule, the offset of the address apart. */
  lemma WalkLpaeGranule(c: Cp15, mem: Memory, x: bv32, a: Access, user: bool)
    ensures SameMapping(WalkLpae(c, mem, Granule(x), a, user), WalkLpae(c, mem, x, a, user), x)
  {
    hide Locate, AtOffset, Granule, LongFault, Grants, Attr, PageSize;
    LocateGranule(c, mem, x);
  }

  // ---------------------------------------------------------------- table attributes only restrict

  /** `d'` is `d` with some of the bits PXNTable, XNTable and APTable[1:0] added. */
  predicate Tightened(d: bv64, d': bv64) {
    d & 0x87ff_ffff_ffff_ffff == d' & 0x87ff_ffff_ffff_ffff && d & d' == d
  }

  lemma DecodeTightened(d: bv64, d': bv64, level: nat)
    requires Tightened(d, d')
    ensures IsValid(d', level) == IsValid(d, level)
    ensures IsTable(d', level) == IsTable(d, level)
    ensures OutputAddress(d') == OutputAddress(d)
  {
  }

  lemma LeafTightened(d: bv64, d': bv64)
    requires Tightened(d, d')
    ensures Attr(d', 6) == Attr(d, 6) && Attr(d', 7) == Attr(d, 7) && Attr(d', 10) == Attr(d, 10)
    ensures Attr(d', 53) == Attr(d, 53) && Attr(d', 54) == Attr(d, 54)
  {
  }

  lemma TableTightened(d: bv64, d': bv64)
    requires Tightened(d, d')
    ensures Attr(d, 59) ==> Attr(d', 59)
    ensures Attr(d, 60) ==> Attr(d', 60)
    ensures Attr(d, 61) ==> Attr(d', 61)
    ensures Attr(d, 62) ==> Attr(d', 62)
  {
  }

  predicate Aligned8(addr: bv64) {
    addr & 7 == 0
  }

  /** `mem'` is `mem` with attribute bits added to any of its aligned double words. */
  ghost predicate TightenedMemory(mem: Memory, mem': Memory) {
    forall addr :: Aligned8(addr) ==> Tightened(Ldq(mem, addr), Ldq(mem', addr))
  }

  lemma EntryAligned(base: bv64, index: bv64)
    requires Aligned8(base)
    ensures Aligned8(Entry(base, index))
  {
  }

  lemma OutputAligned(d: bv64)
    ensures Aligned8(OutputAddress(d))
  {
  }

  lemma TableBytesBits(x: bv64, top: bv64, tsz: bv32)
    requires (top == 0x20 && tsz <= 1) || (top == 0x4000 && tsz < 8)
    ensures (x & !((top >> tsz) - 1)) & 7 == 0
  {
  }

  lemma TableBaseAligned(root: Root)
    requires root.tsz < 8
    ensures Aligned8(TableBase(root))
  {
    TableBytesBits(Cut(root.ttbr), if root.tsz > 1 then 0x4000 else 0x20, root.tsz);
  }

  ghost predicate TightenedPath(tables: seq<bv64>, tables': seq<bv64>) {
    |tables| == |tables'| && forall i :: 0 <= i < |tables| ==> Tightened(tables[i], tables'[i])
  }

  /** Same place, same leaf, and every table descriptor on the way at least as strict. */
  ghost predicate TightenedFound(found: Found, found': Found) {
    match found
    case Missing(_) => found' == found
    case Found(phys, leaf, level, tables) =>
      && found'.Found? && found'.phys == phys && found'.level == level
      && Tightened(leaf, found'.leaf) && TightenedPath(tables, found'.tables)
  }

  lemma LookupTightened(mem: Memory, mem': Memory, va: bv32, level: nat, base: bv64,
                        tables: seq<bv64>, tables': seq<bv64>)
    requires 1 <= level <= 3 && Aligned8(base) && TightenedMemory(mem, mem') && TightenedPath(tables, tables')
    ensures TightenedFound(Lookup(mem, va, level, base, tables), Lookup(mem', va, level, base, tables'))
    decreases 3 - level
  {
    hide Ldq, Entry, EntryIndex, IsValid, IsTable, OutputAddress, Or, Tightened, BlockOffset, Aligned8;
    EntryAligned(base, EntryIndex(va, level));
    var addr := EntryAddress(base, level, va);
    var d, d' := Ldq(mem, addr), Ldq(mem', addr);
    DecodeTightened(d, d', level);
    if IsTable(d, level) && level < 3 {
      OutputAligned(d);
      LookupTightened(mem, mem', va, level + 1, OutputAddress(d), tables + [d], tables' + [d']);
    } else {
      NotTableAtLevel3(d, level);
    }
  }

  lemma NotTableAtLevel3(d: bv64, level: nat)
    ensures IsTable(d, level) ==> level < 3
  {
  }

  lemma SomeTightened(tables: seq<bv64>, tables': seq<bv64>, k: bv6)
    requires TightenedPath(tables, tables') && (k == 59 || k == 60 || k == 61 || k == 62)
    ensures Some(tables, k) ==> Some(tables', k)
  {
    hide Attr, Tightened;
    if Some(tables, k) {
      var i :| 0 <= i < |tables| && Attr(tables[i], k);
      TableTightened(tables[i], tables'[i]);
    }
  }

  lemma GrantsTightened(found: Found, found': Found, a: Access, user: bool)
    requires found.Found? && TightenedFound(found, found')
    ensures Grants(found'.leaf, found'.tables, a, user) ==> Grants(found.leaf, found.tables, a, user)
  {
    hide Attr, Tightened, Some;
    LeafTightened(found.leaf, found'.leaf);
    SomeTightened(found.tables, found'.tables, 59);
    SomeTightened(found.tables, found'.tables, 60);
    SomeTightened(found.tables, found'.tables, 61);
    SomeTightened(found.tables, found'.tables, 62);
  }

  lemma PermitTightened(found: Found, found': Found, a: Access, user: bool)
    requires 1 <= found.level <= 3 && TightenedFound(found, found')
    ensures Restricts(Permit(found, a, user), Permit(found', a, user))
  {
    if found.Found? {
      LeafTightened(found.leaf, found'.leaf);
      GrantsTightened(found, found', a, user);
      GrantsTightened(found, found', Store, user);
      GrantsTightened(found, found', Fetch, user);
    }
    hide Attr, Tightened, Grants, PageSize;
  }

  /** `w'` permits no more than `w`, at the same place. */
  ghost predicate Restricts(w: Walk, w': Walk) {
    w'.Mapped? ==>
      && w.Mapped? && w'.phys == w.phys && w'.size == w.size
      && forall b :: w'.prot.Allows(b) ==> w.prot.Allows(b)
  }

  /** Setting PXNTable, XNTable or APTable in any descriptors never permits an access that was
      refused before and never moves a translation. */
  lemma TableAttributesRestrict(c: Cp15, mem: Memory, mem': Memory, va: bv32, a: Access, user: bool)
    requires TightenedMemory(mem, mem')
    ensures Restricts(WalkLpae(c, mem, va, a, user), WalkLpae(c, mem', va, a, user))
  {
    hide RegionIn, RootOf, Lookup, InRegion, TableBase, Permit, TightenedMemory, Restricts, Aligned8;
    var region := RegionIn(c, va);
    var root := RootOf(c, region == Ttbr1);
    TableBaseAligned(root);
    LookupTightened(mem, mem', InRegion(va, root.tsz), StartLevel(root.tsz), TableBase(root), [], []);
    PermitTightened(Locate(c, mem, va), Locate(c, mem', va), a, user);
  }
}
