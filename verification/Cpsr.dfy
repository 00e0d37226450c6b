/** The CPSR as QEMU keeps it: hot bits in fields of their own, the others in uncached_cpsr. Reading it
    after a masked write gives the masked combination of the old word and the new one. */
module Cpsr {

  const M_BITS: bv32 := 0x1f
  const CACHED_BITS: bv32 := 0xfe0f_fc20

  /** uncached_cpsr and the flag cache. N is bit 31 of nf, V bit 31 of vf, Z is set when zf is zero. */
  datatype Psr = Psr(uncached: bv32, nf: bv32, zf: bv32, cf: bool, vf: bv32, qf: bool, ge: bv4, thumb: bool, condexec: bv8)

  function Flag(b: bool, k: bv5): bv32 {
    if b then 1 << k else 0
  }

  /** cpsr_read. */
  function CpsrRead(p: Psr): bv32 {
    p.uncached | (p.nf & 0x8000_0000) | Flag(p.zf == 0, 30) | Flag(p.cf, 29) | ((p.vf & 0x8000_0000) >> 3) | Flag(p.qf, 27)
    | Flag(p.thumb, 5) | ((p.condexec & 3) as bv32 << 25) | ((p.condexec & 0xfc) as bv32 << 8) | (p.ge as bv32 << 16)
  }

  /** No cached bit is set in uncached_cpsr. */
  predicate Split(p: Psr) {
    p.uncached & CACHED_BITS == 0
  }

  // ---------------------------------------------------------------- groups of bits

  /** A status word taken apart into the groups that masks must cover whole, and the other bits. */
  datatype Groups = Groups(n: bool, z: bool, c: bool, v: bool, q: bool, t: bool, itLow: bv2, itHigh: bv6, ge: bv4, rest: bv32)

  function GroupsOf(w: bv32): Groups {
    Groups(Bit(w, 0x8000_0000), Bit(w, 0x4000_0000), Bit(w, 0x2000_0000), Bit(w, 0x1000_0000), Bit(w, 0x800_0000),
           Bit(w, 0x20), ItLowOf(w), ItHighOf(w), GeOf(w), RestOf(w))
  }

  function ItLowOf(w: bv32): bv2 {
    ((w >> 25) & 3) as bv2
  }

  function ItHighOf(w: bv32): bv6 {
    ((w >> 10) & 0x3f) as bv6
  }

  function RestOf(w: bv32): bv32 {
    w & !CACHED_BITS
  }

  lemma GroupsDetermine(x: bv32, y: bv32)
    requires GroupsOf(x) == GroupsOf(y)
    ensures x == y
  {
  }

  /** The groups as the flag cache holds them. */
  function CachedGroups(p: Psr): Groups {
    Groups(Bit(p.nf, 0x8000_0000), p.zf == 0, p.cf, Bit(p.vf, 0x8000_0000), p.qf,
           p.thumb, ItLow(p.condexec), ItHigh(p.condexec), p.ge, p.uncached)
  }

  lemma ReadGroups(p: Psr)
    requires Split(p)
    ensures GroupsOf(CpsrRead(p)) == CachedGroups(p)
  {
  }

  // ---------------------------------------------------------------- masked writes

  predicate Touches(mask: bv32, group: bv32) {
    mask & group != 0
  }

  predicate Bit(w: bv32, bit: bv32) {
    w & bit != 0
  }

  function NewZf(val: bv32): bv32 {
    !val & 0x4000_0000
  }

  predicate NewCf(val: bv32) {
    (val >> 29) & 1 != 0
  }

  function NewVf(val: bv32): bv32 {
    (val << 3) & 0x8000_0000
  }

  function GeOf(val: bv32): bv4 {
    ((val >> 16) & 0xf) as bv4
  }

  function LowIt(it: bv8, val: bv32): bv8 {
    (it & 0xfc) | (((val >> 25) & 3) as bv8)
  }

  function HighIt(it: bv8, val: bv32): bv8 {
    (it & 3) | (((val >> 8) & 0xfc) as bv8)
  }

  function NewUncached(uncached: bv32, val: bv32, mask: bv32): bv32 {
    (uncached & !(mask & !CACHED_BITS)) | (val & (mask & !CACHED_BITS))
  }

  /** cpsr_write, once the mode field of the mask has been dealt with. */
  function CpsrWrite(p: Psr, val: bv32, mask: bv32): Psr {
    var nzcv := Touches(mask, 0xf000_0000);
    var it := if Touches(mask, 0x600_0000) then LowIt(p.condexec, val) else p.condexec;
    Psr(NewUncached(p.uncached, val, mask),
        if nzcv then val else p.nf,
        if nzcv then NewZf(val) else p.zf,
        if nzcv then NewCf(val) else p.cf,
        if nzcv then NewVf(val) else p.vf,
        if Touches(mask, 0x800_0000) then Bit(val, 0x800_0000) else p.qf,
        if Touches(mask, 0xf_0000) then GeOf(val) else p.ge,
        if Touches(mask, 0x20) then Bit(val, 0x20) else p.thumb,
        if Touches(mask, 0xfc00) then HighIt(it, val) else it)
  }

  /** The bits of `new` under the mask and those of `old` elsewhere. */
  function Masked(old_: bv32, new_: bv32, mask: bv32): bv32 {
    (old_ & !mask) | (new_ & mask)
  }

  /** The mask with every group that it touches covered whole. */
  function Whole(mask: bv32): bv32 {
    mask | (Completion(mask) & CACHED_BITS)
  }

  function Completion(mask: bv32): bv32 {
    (if Touches(mask, 0xf000_0000) then 0xf000_0000 else 0)
    | (if Touches(mask, 0x600_0000) then 0x600_0000 else 0)
    | (if Touches(mask, 0xfc00) then 0xfc00 else 0)
    | (if Touches(mask, 0xf_0000) then 0xf_0000 else 0)
  }

  /** The mask covers whole every group that it touches. */
  predicate Complete(mask: bv32) {
    Whole(mask) == mask
  }

  /** A write, group by group. */
  function Select(x: Groups, y: Groups, mask: bv32): Groups {
    var nzcv := Touches(mask, 0xf000_0000);
    Groups(if nzcv then y.n else x.n, if nzcv then y.z else x.z, if nzcv then y.c else x.c, if nzcv then y.v else x.v,
           if Touches(mask, 0x800_0000) then y.q else x.q,
           if Touches(mask, 0x20) then y.t else x.t,
           if Touches(mask, 0x600_0000) then y.itLow else x.itLow,
           if Touches(mask, 0xfc00) then y.itHigh else x.itHigh,
           if Touches(mask, 0xf_0000) then y.ge else x.ge,
           Masked(x.rest, y.rest, mask))
  }

  lemma WriteSplit(p: Psr, val: bv32, mask: bv32)
    requires Split(p)
    ensures Split(CpsrWrite(p, val, mask))
  {
    hide Touches, Bit, NewZf, NewCf, NewVf, GeOf, LowIt, HighIt;
    SplitBits(p.uncached, val, mask);
  }

  lemma SplitBits(u: bv32, val: bv32, mask: bv32)
    requires u & 0xfe0f_fc20 == 0
    ensures ((u & !(mask & !0xfe0f_fc20)) | (val & (mask & !0xfe0f_fc20))) & 0xfe0f_fc20 == 0
  {
  }

  /** The groups of the condition-execution state. */
  function ItLow(it: bv8): bv2 {
    (it & 3) as bv2
  }

  function ItHigh(it: bv8): bv6 {
    (it >> 2) as bv6
  }

  lemma NewZ(val: bv32)
    ensures (NewZf(val) == 0) == Bit(val, 0x4000_0000)
  {
  }

  lemma NewC(val: bv32)
    ensures NewCf(val) == Bit(val, 0x2000_0000)
  {
  }

  lemma NewV(val: bv32)
    ensures Bit(NewVf(val), 0x8000_0000) == Bit(val, 0x1000_0000)
  {
  }

  lemma ItBits(it: bv8, val: bv32)
    ensures ItLow(LowIt(it, val)) == ItLowOf(val) && ItHigh(LowIt(it, val)) == ItHigh(it)
    ensures ItLow(HighIt(it, val)) == ItLow(it) && ItHigh(HighIt(it, val)) == ItHighOf(val)
  {
  }

  lemma UncachedBits(u: bv32, val: bv32, mask: bv32)
    requires u & 0xfe0f_fc20 == 0
    ensures (u & !(mask & !0xfe0f_fc20)) | (val & (mask & !0xfe0f_fc20)) == (u & !mask) | ((val & !0xfe0f_fc20) & mask)
  {
  }

  lemma UncachedIs(u: bv32, val: bv32, mask: bv32)
    ensures NewUncached(u, val, mask) == (u & !(mask & !0xfe0f_fc20)) | (val & (mask & !0xfe0f_fc20))
  {
  }

  lemma UncachedWrite(p: Psr, val: bv32, mask: bv32)
    requires Split(p)
    ensures NewUncached(p.uncached, val, mask) == Masked(p.uncached, RestOf(val), mask)
  {
    hide NewUncached, Masked, RestOf;
    UncachedIs(p.uncached, val, mask);
    UncachedBits(p.uncached, val, mask);
    RestIs(val);
    MaskedIs(p.uncached, val & !0xfe0f_fc20, mask);
  }

  lemma WriteNzcv(p: Psr, val: bv32, mask: bv32)
    ensures var g, h := CachedGroups(CpsrWrite(p, val, mask)), Select(CachedGroups(p), GroupsOf(val), mask);
            g.n == h.n && g.z == h.z && g.c == h.c && g.v == h.v && g.q == h.q && g.t == h.t
  {
    hide Touches, Bit, NewZf, NewCf, NewVf, GeOf, LowIt, HighIt, ItLow, ItHigh, ItLowOf, ItHighOf, NewUncached,
      Masked, RestOf;
    NewZ(val);
    NewC(val);
    NewV(val);
  }

  lemma WriteIt(p: Psr, val: bv32, mask: bv32)
    ensures var g, h := CachedGroups(CpsrWrite(p, val, mask)), Select(CachedGroups(p), GroupsOf(val), mask);
            g.itLow == h.itLow && g.itHigh == h.itHigh
  {
    hide Touches, Bit, NewZf, NewCf, NewVf, GeOf, LowIt, HighIt, ItLow, ItHigh, ItLowOf, ItHighOf, NewUncached,
      Masked, RestOf;
    ItBits(p.condexec, val);
    ItBits(LowIt(p.condexec, val), val);
  }

  lemma WriteRest(p: Psr, val: bv32, mask: bv32)
    requires Split(p)
    ensures var g, h := CachedGroups(CpsrWrite(p, val, mask)), Select(CachedGroups(p), GroupsOf(val), mask);
            g.ge == h.ge && g.rest == h.rest
  {
    hide Touches, Bit, NewZf, NewCf, NewVf, GeOf, LowIt, HighIt, ItLow, ItHigh, ItLowOf, ItHighOf, NewUncached,
      Masked, RestOf, Split;
    UncachedWrite(p, val, mask);
  }

  lemma WriteGroups(p: Psr, val: bv32, mask: bv32)
    requires Split(p)
    ensures CachedGroups(CpsrWrite(p, val, mask)) == Select(CachedGroups(p), GroupsOf(val), mask)
  {
    hide CachedGroups, CpsrWrite, Select, GroupsOf, Split;
    WriteNzcv(p, val, mask);
    WriteIt(p, val, mask);
    WriteRest(p, val, mask);
  }

  lemma WholeNzcv(mask: bv32)
    ensures Whole(mask) & 0xf000_0000 == if Touches(mask, 0xf000_0000) then 0xf000_0000 else 0
  {
  }

  lemma NzcvBits(x: bv32, y: bv32, w: bv32, bit: bv32)
    requires bit & 0xf000_0000 == bit
    ensures w & 0xf000_0000 == 0xf000_0000 ==> ((x & !w) | (y & w)) & bit == y & bit
    ensures w & 0xf000_0000 == 0 ==> ((x & !w) | (y & w)) & bit == x & bit
  {
  }

  lemma MaskedNzcvBit(x: bv32, y: bv32, mask: bv32, bit: bv32)
    requires bit & 0xf000_0000 == bit
    ensures Masked(x, y, Whole(mask)) & bit == (if Touches(mask, 0xf000_0000) then y else x) & bit
  {
    hide Whole, Touches;
    WholeNzcv(mask);
    NzcvBits(x, y, Whole(mask), bit);
  }

  lemma MaskedNzcv(x: bv32, y: bv32, mask: bv32)
    ensures var g := GroupsOf(Masked(x, y, Whole(mask)));
            var h := if Touches(mask, 0xf000_0000) then GroupsOf(y) else GroupsOf(x);
            g.n == h.n && g.z == h.z && g.c == h.c && g.v == h.v
  {
    hide Masked, Whole, Touches;
    MaskedNzcvBit(x, y, mask, 0x8000_0000);
    MaskedNzcvBit(x, y, mask, 0x4000_0000);
    MaskedNzcvBit(x, y, mask, 0x2000_0000);
    MaskedNzcvBit(x, y, mask, 0x1000_0000);
  }

  lemma MaskedQT(x: bv32, y: bv32, mask: bv32)
    ensures var g := GroupsOf(Masked(x, y, Whole(mask)));
            && g.q == (if Touches(mask, 0x800_0000) then GroupsOf(y) else GroupsOf(x)).q
            && g.t == (if Touches(mask, 0x20) then GroupsOf(y) else GroupsOf(x)).t
  {
  }

  lemma MaskedItLow(x: bv32, y: bv32, mask: bv32)
    ensures GroupsOf(Masked(x, y, Whole(mask))).itLow == (if Touches(mask, 0x600_0000) then GroupsOf(y) else GroupsOf(x)).itLow
  {
  }

  lemma MaskedItHigh(x: bv32, y: bv32, mask: bv32)
    ensures GroupsOf(Masked(x, y, Whole(mask))).itHigh == (if Touches(mask, 0xfc00) then GroupsOf(y) else GroupsOf(x)).itHigh
  {
  }

  lemma MaskedGe(x: bv32, y: bv32, mask: bv32)
    ensures GroupsOf(Masked(x, y, Whole(mask))).ge == (if Touches(mask, 0xf_0000) then GroupsOf(y) else GroupsOf(x)).ge
  {
  }

  lemma MaskedRest(x: bv32, y: bv32, mask: bv32)
    ensures GroupsOf(Masked(x, y, Whole(mask))).rest == Masked(GroupsOf(x).rest, GroupsOf(y).rest, mask)
  {
    hide Whole, Completion, RestOf, Masked;
    var e := Completion(mask);
    var w := mask | (e & 0xfe0f_fc20);
    WholeIs(mask);
    RestBits(x, y, mask, e);
    MaskedIs(x, y, w);
    RestIs((x & !w) | (y & w));
    RestIs(x);
    RestIs(y);
    MaskedIs(x & !0xfe0f_fc20, y & !0xfe0f_fc20, mask);
  }

  lemma WholeIs(mask: bv32)
    ensures Whole(mask) == mask | (Completion(mask) & 0xfe0f_fc20)
  {
  }

  lemma RestIs(w: bv32)
    ensures RestOf(w) == w & !0xfe0f_fc20
  {
  }

  lemma MaskedIs(x: bv32, y: bv32, m: bv32)
    ensures Masked(x, y, m) == (x & !m) | (y & m)
  {
  }

  lemma RestBits(x: bv32, y: bv32, mask: bv32, e: bv32)
    ensures ((x & !(mask | (e & 0xfe0f_fc20))) | (y & (mask | (e & 0xfe0f_fc20)))) & !0xfe0f_fc20 ==
            ((x & !0xfe0f_fc20) & !mask) | ((y & !0xfe0f_fc20) & mask)
  {
  }

  lemma MaskedGroups(x: bv32, y: bv32, mask: bv32)
    ensures GroupsOf(Masked(x, y, Whole(mask))) == Select(GroupsOf(x), GroupsOf(y), mask)
  {
    hide GroupsOf, Masked, Whole, Touches;
    MaskedNzcv(x, y, mask);
    MaskedQT(x, y, mask);
    MaskedItLow(x, y, mask);
    MaskedItHigh(x, y, mask);
    MaskedGe(x, y, mask);
    MaskedRest(x, y, mask);
  }

  /** Split CPSR: after any masked write, the word read back is the old word with the new bits of every
      group that the mask touches. */
  lemma WriteThenRead(p: Psr, val: bv32, mask: bv32)
    requires Split(p)
    ensures CpsrRead(CpsrWrite(p, val, mask)) == Masked(CpsrRead(p), val, Whole(mask))
  {
    hide CpsrRead, CpsrWrite, Masked, Whole, GroupsOf, CachedGroups, Select, Split;
    WriteSplit(p, val, mask);
    WriteGroups(p, val, mask);
    ReadGroups(p);
    ReadGroups(CpsrWrite(p, val, mask));
    MaskedGroups(CpsrRead(p), val, mask);
    GroupsDetermine(CpsrRead(CpsrWrite(p, val, mask)), Masked(CpsrRead(p), val, Whole(mask)));
  }

  /** The two words agree on these bits. */
  predicate AgreeOn(x: bv32, y: bv32, bits: bv32) {
    (x ^ y) & bits == 0
  }

  /** What WriteThenRead gives is what the mask says exactly when the old and the new word agree on the
      bits added to complete its groups; so always, for a complete mask. */
  lemma WholeExact(x: bv32, y: bv32, mask: bv32)
    ensures Masked(x, y, Whole(mask)) == Masked(x, y, mask) <==> AgreeOn(x, y, Whole(mask) ^ mask)
  {
    hide Whole, Masked, AgreeOn;
    MaskedExact(x, y, mask, Whole(mask));
  }

  lemma MaskedExact(x: bv32, y: bv32, m: bv32, w: bv32)
    ensures Masked(x, y, w) == Masked(x, y, m) <==> AgreeOn(x, y, w ^ m)
  {
    ExactBits(x, y, m, w);
  }

  lemma ExactBits(x: bv32, y: bv32, m: bv32, w: bv32)
    ensures (x & !w) | (y & w) == (x & !m) | (y & m) <==> (x ^ y) & (w ^ m) == 0
  {
    DifferenceBits(x, y, m, w);
    XorBits((x & !w) | (y & w), (x & !m) | (y & m));
  }

  lemma DifferenceBits(x: bv32, y: bv32, m: bv32, w: bv32)
    ensures ((x & !w) | (y & w)) ^ ((x & !m) | (y & m)) == (x ^ y) & (w ^ m)
  {
  }

  lemma XorBits(a: bv32, b: bv32)
    ensures a == b <==> a ^ b == 0
  {
  }
}
