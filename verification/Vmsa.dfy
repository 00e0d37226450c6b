/** The vocabulary of ARM virtual memory: accesses, page protection, the CP15 registers and CPU
    features that a translation depends on, guest physical memory, and what a walk answers. */
module Vmsa {

  /** What an access does: the three values of access_type. */
  datatype Access = Load | Store | Fetch

  /** PAGE_READ | PAGE_WRITE | PAGE_EXEC as three flags. */
  datatype Prot = Prot(read: bool, write: bool, exec: bool) {
    predicate Allows(a: Access) {
      match a
      case Load => read
      case Store => write
      case Fetch => exec
    }

    predicate IsNone() {
      !read && !write && !exec
    }
  }

  const NO_ACCESS := Prot(false, false, false)
  const READ_ONLY := Prot(true, false, false)
  const READ_WRITE := Prot(true, true, false)
  const ALL_ACCESS := Prot(true, true, true)

  /** The feature bits that steer translation. MPU-only cores are not modelled. */
  datatype Features = Features(v6: bool, v6k: bool, xscale: bool, pxn: bool, lpae: bool)

  /** The CP15 registers read by a walk. */
  datatype Cp15 = Cp15(
    sctlr: bv32,      // c1_sys
    ttbr0: bv32,      // c2_base0
    ttbr0Hi: bv32,    // c2_base0_hi
    ttbr1: bv32,      // c2_base1
    ttbr1Hi: bv32,    // c2_base1_hi
    ttbcr: bv32,      // c2_control
    ttbcrMask: bv32,  // c2_mask
    baseMask: bv32,   // c2_base_mask
    dacr: bv32,       // c3
    fcse: bv32        // c13_fcse
  )

  /** Guest physical memory, as the 32-bit word that ldl_phys returns at each address. */
  type Memory = bv64 -> bv32

  /** ldq_phys on a little-endian target. */
  function Ldq(mem: Memory, a: bv64): bv64 {
    ((mem(a + 4) as bv64) << 32) | (mem(a) as bv64)
  }

  /** The answer of a table walk: a fault status register value, or a mapping. */
  datatype Walk =
    | Fault(fsr: bv32)
    | Mapped(phys: bv64, prot: Prot, size: nat)

  /** The 1 KB granule of an address, the unit QEMU's TLB caches. */
  function Granule(va: bv32): bv32 {
    va & 0xfffffc00
  }

  /** The offset of an address in its granule. */
  function Offset(va: bv32): bv64 {
    (va & 0x3ff) as bv64
  }

  /** `phys` moved to the offset of `va` in its own granule. */
  function AtOffset(phys: bv64, va: bv32): bv64 {
    Splice(phys, Offset(va))
  }

  function Splice(phys: bv64, offset: bv64): bv64 {
    (phys & 0xffff_ffff_ffff_fc00) | offset
  }

  /** `w'` is the answer `w` moved to the offset of `va`. */
  ghost predicate SameMapping(w: Walk, w': Walk, va: bv32) {
    w' == if w.Mapped? then w.(phys := AtOffset(w.phys, va)) else w
  }

  /** The answers for two access types at one address agree: the answer for `a` permits `a`, and
      its protection decides whether `b` succeeds, with the very same mapping. */
  ghost predicate CoherentPair(wa: Walk, a: Access, wb: Walk, b: Access) {
    wa.Mapped? ==>
      && wa.prot.Allows(a)
      && (wb.Mapped? <==> wa.prot.Allows(b))
      && (wb.Mapped? ==> wb == wa)
  }
}
