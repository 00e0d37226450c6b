/** The A-profile CPU: masked CPSR writes that also change mode, and exception entry. Seen from outside,
    it is one flat register file and one status word. */
module ArmCpu {
  import opened Cpsr
  import opened Banks

  /** The CP15 registers that exception entry reads or writes, and the features it asks about. */
  datatype Control = Control(trustzone: bool, v4t: bool, sys: bv32, scr: bv32, insnFault: bv32, vbar: bv32, mvbar: bv32)

  datatype Env = Env(file: File<bv32>, psr: Psr, control: Control) {
    function Mode(): Mode {
      ModeOf(psr.uncached)
    }

    predicate Valid() {
      file.Shaped() && Split(psr) && Mode() != Bad
    }
  }

  // ---------------------------------------------------------------- what the architecture has

  datatype Machine = Machine(flat: Flat<bv32>, cpsr: bv32, control: Control) {
    function Mode(): Mode {
      ModeOf(cpsr)
    }

    predicate Valid() {
      flat.Shaped() && Mode() != Bad
    }
  }

  function AbsOf(e: Env): (m: Machine)
    requires e.Valid()
    ensures m.flat.Shaped()
  {
    Machine(FlatOf(e.file, e.Mode()), CpsrRead(e.psr), e.control)
  }

  lemma ReadModeBits(p: Psr)
    ensures CpsrRead(p) & 0x1f == p.uncached & 0x1f
  {
  }

  lemma ReadMode(p: Psr)
    ensures ModeOf(CpsrRead(p)) == ModeOf(p.uncached)
  {
    hide CpsrRead;
    ReadModeBits(p);
  }

  lemma AbsValid(e: Env)
    requires e.Valid()
    ensures AbsOf(e).Valid() && AbsOf(e).Mode() == e.Mode()
  {
    hide CpsrRead, ModeOf;
    ReadMode(e.psr);
  }

  // ---------------------------------------------------------------- cpsr_write

  /** bad_mode_switch refuses the others; Monitor mode is among them. */
  predicate Permitted(m: Mode) {
    m != Bad && m != Smc
  }

  /** The write would change a mode bit. */
  predicate AsksMode(uncached: bv32, val: bv32, mask: bv32) {
    (uncached ^ val) & mask & M_BITS != 0
  }

  function WithoutMode(mask: bv32): bv32 {
    mask & !M_BITS
  }

  function EffectiveMask(uncached: bv32, val: bv32, mask: bv32): bv32 {
    if AsksMode(uncached, val, mask) && !Permitted(ModeOf(val)) then WithoutMode(mask) else mask
  }

  /** The mode whose registers regs[] shows after the write. */
  function LiveMode(uncached: bv32, val: bv32, mask: bv32): Mode {
    if AsksMode(uncached, val, mask) && Permitted(ModeOf(val)) then ModeOf(val) else ModeOf(uncached)
  }

  /** cpsr_write. */
  function Write(e: Env, val: bv32, mask: bv32): Env
    requires e.Valid()
  {
    Env(Switch(e.file, e.Mode(), LiveMode(e.psr.uncached, val, mask)),
        CpsrWrite(e.psr, val, EffectiveMask(e.psr.uncached, val, mask)),
        e.control)
  }

  /** The mode bits that the mask leaves alone are those of the new word already, or no mode is asked for. */
  predicate NamesMode(uncached: bv32, val: bv32, mask: bv32) {
    AsksMode(uncached, val, mask) && Permitted(ModeOf(val)) ==> AgreeOn(uncached, val, M_BITS & !mask)
  }

  lemma UncachedModeBits(u: bv32, val: bv32, mask: bv32)
    ensures ((u & !(mask & !0xfe0f_fc20)) | (val & (mask & !0xfe0f_fc20))) & 0x1f == ((u & !mask) | (val & mask)) & 0x1f
  {
  }

  lemma AgreeingModeBits(u: bv32, val: bv32, mask: bv32, w: bv32)
    requires w & 0x1f == ((u & !mask) | (val & mask)) & 0x1f
    ensures val & 0x1f == w & 0x1f <==> (u ^ val) & (0x1f & !mask) == 0
  {
  }

  lemma UnaskedModeBits(u: bv32, val: bv32, mask: bv32)
    requires (u ^ val) & mask & 0x1f == 0
    ensures ((u & !mask) | (val & mask)) & 0x1f == u & 0x1f
  {
  }

  lemma DroppedModeBits(u: bv32, val: bv32, mask: bv32)
    ensures ((u & !(mask & !0x1f)) | (val & (mask & !0x1f))) & 0x1f == u & 0x1f
  {
  }

  lemma EncodeDecode(m: bv5)
    ensures Decode(m) != Bad ==> Encode(Decode(m)) == m as bv32
  {
  }

  lemma SameModeSameBits(x: bv32, y: bv32)
    requires ModeOf(x) != Bad
    ensures ModeOf(x) == ModeOf(y) <==> x & 0x1f == y & 0x1f
  {
    EncodeDecode(ModeBits(x));
    EncodeDecode(ModeBits(y));
  }

  lemma WrittenModeBits(p: Psr, val: bv32, mask: bv32)
    ensures CpsrWrite(p, val, mask).uncached & 0x1f == ((p.uncached & !mask) | (val & mask)) & 0x1f
  {
    hide Touches, Bit, NewZf, NewCf, NewVf, GeOf, LowIt, HighIt;
    UncachedModeBits(p.uncached, val, mask);
  }

  predicate SameModeBits(x: bv32, y: bv32) {
    x & 0x1f == y & 0x1f
  }

  lemma WrittenUnasked(p: Psr, val: bv32, mask: bv32)
    requires !AsksMode(p.uncached, val, mask)
    ensures SameModeBits(p.uncached, CpsrWrite(p, val, mask).uncached)
  {
    hide CpsrWrite;
    WrittenModeBits(p, val, mask);
    UnaskedModeBits(p.uncached, val, mask);
  }

  lemma WrittenDropped(p: Psr, val: bv32, mask: bv32)
    ensures SameModeBits(p.uncached, CpsrWrite(p, val, WithoutMode(mask)).uncached)
  {
    hide CpsrWrite;
    WrittenModeBits(p, val, WithoutMode(mask));
    DroppedModeBits(p.uncached, val, mask);
  }

  lemma AgreeingMode(u: bv32, val: bv32, mask: bv32, w: bv32)
    requires w & 0x1f == ((u & !mask) | (val & mask)) & 0x1f
    ensures SameModeBits(val, w) <==> AgreeOn(u, val, M_BITS & !mask)
  {
    AgreeingModeBits(u, val, mask, w);
  }

  lemma WrittenAsked(p: Psr, val: bv32, mask: bv32)
    ensures SameModeBits(val, CpsrWrite(p, val, mask).uncached) <==> AgreeOn(p.uncached, val, M_BITS & !mask)
  {
    hide CpsrWrite, SameModeBits, AgreeOn;
    WrittenModeBits(p, val, mask);
    AgreeingMode(p.uncached, val, mask, CpsrWrite(p, val, mask).uncached);
  }

  lemma SameModeExact(x: bv32, y: bv32)
    requires ModeOf(x) != Bad
    ensures ModeOf(x) == ModeOf(y) <==> SameModeBits(x, y)
  {
    hide ModeOf;
    SameModeSameBits(x, y);
  }

  /** The mode field names the mode whose registers are in regs[], exactly when the mask takes the mode
      bits whole or those it leaves out happen to agree. */
  lemma WriteModeExact(p: Psr, val: bv32, mask: bv32)
    requires ModeOf(p.uncached) != Bad
    ensures ModeOf(CpsrWrite(p, val, EffectiveMask(p.uncached, val, mask)).uncached) == LiveMode(p.uncached, val, mask) <==>
            NamesMode(p.uncached, val, mask)
  {
    hide CpsrWrite, ModeOf, SameModeBits, AsksMode, WithoutMode, AgreeOn;
    var w := CpsrWrite(p, val, EffectiveMask(p.uncached, val, mask)).uncached;
    if !AsksMode(p.uncached, val, mask) {
      WrittenUnasked(p, val, mask);
      SameModeExact(p.uncached, w);
    } else if !Permitted(ModeOf(val)) {
      WrittenDropped(p, val, mask);
      SameModeExact(p.uncached, w);
    } else {
      WrittenAsked(p, val, mask);
      SameModeExact(val, w);
    }
  }

  /** The mode bits of the mask are all set or all clear. */
  predicate WholeMode(mask: bv32) {
    mask & M_BITS == 0 || mask & M_BITS == M_BITS
  }

  lemma WholeModeBits(u: bv32, val: bv32, mask: bv32)
    ensures mask & 0x1f == 0x1f ==> (u ^ val) & (0x1f & !mask) == 0
    ensures mask & 0x1f == 0 ==> (u ^ val) & mask & 0x1f == 0
  {
  }

  lemma WholeModeNames(u: bv32, val: bv32, mask: bv32)
    requires WholeMode(mask)
    ensures NamesMode(u, val, mask)
  {
    hide ModeOf;
    WholeModeBits(u, val, mask);
  }

  /** A write keeps every register of every mode where it was, whatever the mask. */
  lemma WriteKeepsFlat(e: Env, val: bv32, mask: bv32)
    requires e.Valid()
    ensures FlatOf(Write(e, val, mask).file, LiveMode(e.psr.uncached, val, mask)) == FlatOf(e.file, e.Mode())
  {
    hide FlatOf, Switch, ModeOf, AsksMode;
    SwitchKeepsFlat(e.file, e.Mode(), LiveMode(e.psr.uncached, val, mask));
  }

  /** cpsr_write as the architecture sees it: the masked bits, but no mode change to a mode that cannot be
      asked for. */
  function WriteWord(cpsr: bv32, val: bv32, mask: bv32): bv32 {
    Masked(cpsr, val, if Permitted(ModeOf(val)) then mask else WithoutMode(mask))
  }

  lemma CompletionBits(mask: bv32)
    ensures Completion(mask & !0x1f) == Completion(mask)
  {
  }

  lemma WithoutModeBits(mask: bv32, c: bv32)
    requires mask | (c & 0xfe0f_fc20) == mask
    ensures (mask & !0x1f) | (c & 0xfe0f_fc20) == mask & !0x1f
  {
  }

  lemma WithoutModeComplete(mask: bv32)
    requires Complete(mask)
    ensures Complete(WithoutMode(mask))
  {
    hide Completion;
    CompletionBits(mask);
    WithoutModeBits(mask, Completion(mask));
  }

  lemma IdleModeBits(c: bv32, u: bv32, val: bv32, mask: bv32)
    requires c & 0x1f == u & 0x1f
    ensures (u ^ val) & mask & 0x1f == 0 ==> (c ^ val) & ((mask & !0x1f) ^ mask) == 0
  {
  }

  lemma IdleMask(p: Psr, val: bv32, mask: bv32)
    requires !AsksMode(p.uncached, val, mask)
    ensures Masked(CpsrRead(p), val, mask) == Masked(CpsrRead(p), val, WithoutMode(mask))
  {
    hide CpsrRead, Masked, AgreeOn;
    ReadModeBits(p);
    IdleMode(CpsrRead(p), p.uncached, val, mask);
    MaskedExact(CpsrRead(p), val, mask, WithoutMode(mask));
  }

  lemma IdleMode(c: bv32, u: bv32, val: bv32, mask: bv32)
    requires c & 0x1f == u & 0x1f
    ensures !AsksMode(u, val, mask) ==> AgreeOn(c, val, WithoutMode(mask) ^ mask)
  {
    IdleModeBits(c, u, val, mask);
  }

  /** The status word after a write with a mask that is complete. */
  lemma WriteReads(p: Psr, val: bv32, mask: bv32)
    requires Split(p) && Complete(mask)
    ensures CpsrRead(CpsrWrite(p, val, EffectiveMask(p.uncached, val, mask))) == WriteWord(CpsrRead(p), val, mask)
  {
    hide CpsrRead, CpsrWrite, Whole, ModeOf, Masked, AsksMode, WithoutMode, Split;
    WithoutModeComplete(mask);
    WriteThenRead(p, val, EffectiveMask(p.uncached, val, mask));
    if !AsksMode(p.uncached, val, mask) {
      IdleMask(p, val, mask);
    }
  }

  function MachineWrite(m: Machine, val: bv32, mask: bv32): Machine {
    m.(cpsr := WriteWord(m.cpsr, val, mask))
  }

  /** Refinement: with the masks that instructions use, cpsr_write is a write to the one status word and
      moves no register. */
  lemma WriteRefines(e: Env, val: bv32, mask: bv32)
    requires e.Valid() && Complete(mask) && WholeMode(mask)
    ensures Write(e, val, mask).Valid()
    ensures AbsOf(Write(e, val, mask)) == MachineWrite(AbsOf(e), val, mask)
  {
    hide CpsrRead, CpsrWrite, WriteWord, FlatOf, Switch, ModeOf, AsksMode, Split, Complete, WholeMode, NamesMode,
      EffectiveMask;
    WholeModeNames(e.psr.uncached, val, mask);
    WriteModeExact(e.psr, val, mask);
    WriteKeepsFlat(e, val, mask);
    WriteReads(e.psr, val, mask);
    WriteSplit(e.psr, val, EffectiveMask(e.psr.uncached, val, mask));
  }
}
