/** What short-descriptor walks compute, in arithmetic: which descriptors are read, and that a page
    of each size is entered at the offset of the address. */
module ShortDescriptorLaws {
  import opened Vmsa
  import opened ShortDescriptor

  // ---------------------------------------------------------------- descriptor addresses

  /** The entry of a coarse table: its base plus four times the number of the 4 KB page. */
  function CoarseEntry(desc: bv32, va: bv32): bv32 {
    desc / 0x400 * 0x400 + 4 * (va / 0x1000 % 256)
  }

  /** The entry of a fine table: its base plus four times the number of the 1 KB page. */
  function FineEntry(desc: bv32, va: bv32): bv32 {
    desc / 0x1000 * 0x1000 + 4 * (va / 0x400 % 1024)
  }

  lemma CoarseArithmetic(desc: bv32, va: bv32)
    ensures CoarseAddress(desc, va) == CoarseEntry(desc, va)
  {
    CoarseBits(desc, va);
  }

  lemma CoarseBits(desc: bv32, va: bv32)
    ensures (desc & 0xfffffc00) | ((va >> 10) & 0x3fc) == desc / 0x400 * 0x400 + 4 * (va / 0x1000 % 256)
  {
  }

  lemma FineArithmetic(desc: bv32, va: bv32)
    ensures FineAddress(desc, va) == FineEntry(desc, va)
  {
    FineBits(desc, va);
  }

  lemma FineBits(desc: bv32, va: bv32)
    ensures (desc & 0xfffff000) | ((va >> 8) & 0xffc) == desc / 0x1000 * 0x1000 + 4 * (va / 0x400 % 1024)
  {
  }

  /** The masks that a TTBCR.N of `n` leaves in c2_mask and c2_base_mask. */
  ghost predicate SplitBy(c: Cp15, n: bv32) {
    n < 8 && c.ttbcrMask == !(0xffff_ffff >> n) && c.baseMask == !(0x3fff >> n)
  }

  /** The entry of a level 1 table: its base plus four times the megabyte number. */
  function MegabyteEntry(table: bv32, va: bv32): bv32 {
    table + 4 * (va / 0x100000)
  }

  /** The table is aligned to `bytes`, a power of two, and the entry of the address lies in that many. */
  predicate InTable(table: bv32, va: bv32, bytes: bv32) {
    table & (bytes - 1) == 0 && 4 * (va / 0x100000) + 4 <= bytes
  }

  /** The bytes of the level 1 table: 4096 entries at TTBR1, and 4096 / 2^N at TTBR0. */
  function Level1Bytes(n: bv32, useTtbr1: bool): bv32
    requires n < 8
  {
    if useTtbr1 then 0x4000 else 0x4000 >> n
  }

  /** The level 1 table is aligned to its size and has an entry for the address, so ORing the index into the
      base is adding it. */
  lemma Level1Arithmetic(c: Cp15, n: bv32, va: bv32)
    requires SplitBy(c, n)
    ensures Level1Address(c, va) == MegabyteEntry(Level1Table(c, UsesTtbr1(c.ttbcrMask, va)), va)
    ensures InTable(Level1Table(c, UsesTtbr1(c.ttbcrMask, va)), va, Level1Bytes(n, UsesTtbr1(c.ttbcrMask, va)))
  {
    hide Level1Entry, Level1Table, MegabyteEntry, UsesTtbr1, InTable;
    if UsesTtbr1(c.ttbcrMask, va) {
      Ttbr1Entry(c, va);
      Ttbr1InTable(c, va);
    } else {
      Ttbr0Entry(c, n, va);
      Ttbr0InTable(c, n, va);
    }
  }

  lemma Ttbr1InTable(c: Cp15, va: bv32)
    ensures InTable(Level1Table(c, true), va, 0x4000)
  {
    Ttbr1TableBits(c.ttbr1, va);
  }

  lemma Ttbr1TableBits(ttbr1: bv32, va: bv32)
    ensures (ttbr1 & 0xffffc000) & (0x4000 - 1) == 0 && 4 * (va / 0x100000) + 4 <= 0x4000
  {
  }

  lemma Ttbr0InTable(c: Cp15, n: bv32, va: bv32)
    requires SplitBy(c, n) && !UsesTtbr1(c.ttbcrMask, va)
    ensures InTable(Level1Table(c, false), va, 0x4000 >> n)
  {
    Ttbr0TableBits(c.ttbr0, n);
    Ttbr0IndexBits(n, va);
  }

  lemma Ttbr0TableBits(ttbr0: bv32, n: bv32)
    requires n < 8
    ensures (ttbr0 & !(0x3fff >> n)) & ((0x4000 >> n) - 1) == 0
  {
  }

  lemma Ttbr0IndexBits(n: bv32, va: bv32)
    requires n < 8 && va & !(0xffff_ffff >> n) == 0
    ensures 4 * (va / 0x100000) + 4 <= 0x4000 >> n
  {
  }

  lemma Ttbr1Entry(c: Cp15, va: bv32)
    ensures Level1Entry(Level1Table(c, true), va) == MegabyteEntry(Level1Table(c, true), va)
  {
    calc {
      Level1Entry(Level1Table(c, true), va);
      (c.ttbr1 & 0xffffc000) | ((va >> 18) & 0x3ffc);
      { Ttbr1Bits(c.ttbr1, va); }
      (c.ttbr1 & 0xffffc000) + 4 * (va / 0x100000);
      MegabyteEntry(Level1Table(c, true), va);
    }
  }

  lemma Ttbr0Entry(c: Cp15, n: bv32, va: bv32)
    requires SplitBy(c, n) && !UsesTtbr1(c.ttbcrMask, va)
    ensures Level1Entry(Level1Table(c, false), va) == MegabyteEntry(Level1Table(c, false), va)
  {
    calc {
      Level1Entry(Level1Table(c, false), va);
      (c.ttbr0 & !(0x3fff >> n)) | ((va >> 18) & 0x3ffc);
      { Ttbr0Bits(c.ttbr0, n, va); }
      (c.ttbr0 & !(0x3fff >> n)) + 4 * (va / 0x100000);
      MegabyteEntry(Level1Table(c, false), va);
    }
  }

  lemma Ttbr1Bits(ttbr1: bv32, va: bv32)
    ensures (ttbr1 & 0xffffc000) | ((va >> 18) & 0x3ffc) == (ttbr1 & 0xffffc000) + 4 * (va / 0x100000)
  {
  }

  lemma Ttbr0Bits(ttbr0: bv32, n: bv32, va: bv32)
    requires n < 8 && va & !(0xffff_ffff >> n) == 0
    ensures (ttbr0 & !(0x3fff >> n)) | ((va >> 18) & 0x3ffc) == (ttbr0 & !(0x3fff >> n)) + 4 * (va / 0x100000)
  {
  }

  // ---------------------------------------------------------------- translations

  function SizeOf(kind: PageKind): nat {
    match kind
    case Tiny => 0x400
    case Small => 0x1000
    case Large => 0x10000
    case Section => 0x100000
    case Super => 0x1000000
  }

  /** The multiple of the page size that a descriptor names plus the remainder of the address. */
  function SumWord(desc: bv32, kind: PageKind, va: bv32): bv32 {
    match kind
    case Tiny => desc / 0x400 * 0x400 + va % 0x400
    case Small => desc / 0x1000 * 0x1000 + va % 0x1000
    case Large => desc / 0x10000 * 0x10000 + va % 0x10000
    case Section => desc / 0x100000 * 0x100000 + va % 0x100000
    case Super => desc / 0x1000000 * 0x1000000 + va % 0x1000000
  }

  function FrameSum(desc: bv32, kind: PageKind, va: bv32): bv64 {
    SumWord(desc, kind, va) as bv64
  }

  lemma FrameWords(desc: bv32, kind: PageKind, va: bv32)
    ensures FrameWord(desc, kind, va) == SumWord(desc, kind, va)
  {
    hide FrameWord, SumWord;
    match kind
    case Tiny => TinySum(desc, va);
    case Small => SmallSum(desc, va);
    case Large => LargeSum(desc, va);
    case Section => SectionSum(desc, va);
    case Super => SuperSum(desc, va);
  }

  /** Composing a frame and an offset with masks is arithmetic on multiples of the page size. */
  lemma FrameArithmetic(desc: bv32, kind: PageKind, va: bv32)
    ensures FrameAddress(desc, kind, va) == FrameSum(desc, kind, va)
  {
    hide FrameWord, SumWord;
    FrameWords(desc, kind, va);
  }

  lemma TinySum(desc: bv32, va: bv32)
    ensures FrameWord(desc, Tiny, va) == SumWord(desc, Tiny, va)
  {
    TinyBits(desc, va);
  }

  lemma SmallSum(desc: bv32, va: bv32)
    ensures FrameWord(desc, Small, va) == SumWord(desc, Small, va)
  {
    SmallBits(desc, va);
  }

  lemma LargeSum(desc: bv32, va: bv32)
    ensures FrameWord(desc, Large, va) == SumWord(desc, Large, va)
  {
    LargeBits(desc, va);
  }

  lemma SectionSum(desc: bv32, va: bv32)
    ensures FrameWord(desc, Section, va) == SumWord(desc, Section, va)
  {
    SectionBits(desc, va);
  }

  lemma SuperSum(desc: bv32, va: bv32)
    ensures FrameWord(desc, Super, va) == SumWord(desc, Super, va)
  {
    SuperBits(desc, va);
  }

  lemma TinyBits(desc: bv32, va: bv32)
    ensures (desc & 0xfffffc00) | (va & 0x3ff) == desc / 0x400 * 0x400 + va % 0x400
  {
  }

  lemma SmallBits(desc: bv32, va: bv32)
    ensures (desc & 0xfffff000) | (va & 0xfff) == desc / 0x1000 * 0x1000 + va % 0x1000
  {
  }

  lemma LargeBits(desc: bv32, va: bv32)
    ensures (desc & 0xffff0000) | (va & 0xffff) == desc / 0x10000 * 0x10000 + va % 0x10000
  {
  }

  lemma SectionBits(desc: bv32, va: bv32)
    ensures (desc & 0xfff00000) | (va & 0xfffff) == desc / 0x100000 * 0x100000 + va % 0x100000
  {
  }

  lemma SuperBits(desc: bv32, va: bv32)
    ensures (desc & 0xff000000) | (va & 0xffffff) == desc / 0x1000000 * 0x1000000 + va % 0x1000000
  {
  }
}
