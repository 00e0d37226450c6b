/** The same operations on registers in place: the arrays of the CPU state and the methods that change
    them, each proved against the step it stands for. */
module ArmCore {
  import opened Cpsr
  import opened Banks
  import opened ArmCpu
  import opened ArmExceptions

  /** memcpy between two arrays. */
  method Copy<T>(src: array<T>, from: nat, dst: array<T>, to: nat, n: nat)
    requires src != dst && from + n <= src.Length && to + n <= dst.Length
    modifies dst
    ensures dst[..] == old(dst[..to]) + src[from..from + n] + old(dst[to + n..])
  {
    for k := 0 to n
      invariant dst[..] == old(dst[..to]) + src[from..from + k] + old(dst[to + k..])
    {
      dst[to + k] := src[from + k];
    }
  }

  lemma NzcvUnderMask(mask: bv32)
    ensures Touches(WithoutMode(mask), 0xf000_0000) == Touches(mask, 0xf000_0000)
  {
  }

  lemma QUnderMask(mask: bv32)
    ensures Touches(WithoutMode(mask), 0x800_0000) == Touches(mask, 0x800_0000)
  {
  }

  lemma TUnderMask(mask: bv32)
    ensures Touches(WithoutMode(mask), 0x20) == Touches(mask, 0x20)
  {
  }

  lemma ItLowUnderMask(mask: bv32)
    ensures Touches(WithoutMode(mask), 0x600_0000) == Touches(mask, 0x600_0000)
  {
  }

  lemma ItHighUnderMask(mask: bv32)
    ensures Touches(WithoutMode(mask), 0xfc00) == Touches(mask, 0xfc00)
  {
  }

  lemma GeUnderMask(mask: bv32)
    ensures Touches(WithoutMode(mask), 0xf_0000) == Touches(mask, 0xf_0000)
  {
  }

  lemma FlagsUnderMask(p: Psr, val: bv32, mask: bv32)
    ensures CpsrWrite(p, val, WithoutMode(mask)) ==
            CpsrWrite(p, val, mask).(uncached := CpsrWrite(p, val, WithoutMode(mask)).uncached)
  {
    hide Touches, Bit, NewZf, NewCf, NewVf, GeOf, LowIt, HighIt, NewUncached, WithoutMode;
    NzcvUnderMask(mask);
    QUnderMask(mask);
    TUnderMask(mask);
    ItLowUnderMask(mask);
    ItHighUnderMask(mask);
    GeUnderMask(mask);
  }

  lemma UncachedUnderMask(p: Psr, val: bv32, mask: bv32)
    ensures CpsrWrite(p, val, mask).uncached == NewUncached(p.uncached, val, mask)
  {
    hide Touches, Bit, NewZf, NewCf, NewVf, GeOf, LowIt, HighIt, NewUncached;
  }

  lemma Assembled(p: Psr, q: Psr, val: bv32, mask: bv32)
    requires q == CpsrWrite(p, val, mask).(uncached := NewUncached(p.uncached, val, EffectiveMask(p.uncached, val, mask)))
    ensures q == CpsrWrite(p, val, EffectiveMask(p.uncached, val, mask))
  {
    hide CpsrWrite, NewUncached, WithoutMode, AsksMode, ModeOf;
    FlagsUnderMask(p, val, mask);
    UncachedUnderMask(p, val, EffectiveMask(p.uncached, val, mask));
  }

  lemma SwitchSame<T>(f: File<T>, m: Mode)
    requires f.Shaped() && m != Bad
    ensures Switch(f, m, m) == f
  {
  }

  lemma EnterValid(e: Env, x: Exception)
    requires e.Valid()
    ensures Enter(e, x).Valid()
  {
    EnterRefines(e, x);
  }

  class RegisterFile<T(0)> {
    const regs: array<T>
    var spsr: T
    const bankedSpsr: array<T>
    const bankedR13: array<T>
    const bankedR14: array<T>
    const usrRegs: array<T>
    const fiqRegs: array<T>

    constructor ()
      ensures Valid() && fresh(Repr())
    {
      regs := new T[16];
      bankedSpsr := new T[7];
      bankedR13 := new T[7];
      bankedR14 := new T[7];
      usrRegs := new T[5];
      fiqRegs := new T[5];
      spsr := *;
    }

    ghost function Repr(): set<object> {
      {this, regs, bankedSpsr, bankedR13, bankedR14, usrRegs, fiqRegs}
    }

    ghost predicate Valid() {
      && regs.Length == 16
      && bankedSpsr.Length == bankedR13.Length == bankedR14.Length == 7
      && usrRegs.Length == fiqRegs.Length == 5
      && regs !in {bankedSpsr, bankedR13, bankedR14, usrRegs, fiqRegs}
      && bankedSpsr !in {bankedR13, bankedR14, usrRegs, fiqRegs}
      && bankedR13 !in {bankedR14, usrRegs, fiqRegs}
      && bankedR14 !in {usrRegs, fiqRegs}
      && usrRegs != fiqRegs
    }

    ghost function Contents(): (f: File<T>)
      requires Valid()
      reads Repr()
      ensures f.Shaped()
    {
      File(regs[..], spsr, bankedSpsr[..], bankedR13[..], bankedR14[..], usrRegs[..], fiqRegs[..])
    }

    method SwapHighRegs(o: Mode, m: Mode)
      requires Valid()
      modifies regs, usrRegs, fiqRegs
      ensures Contents() == SwapHigh(old(Contents()), o, m)
    {
      if o == Fiq {
        PutAway(fiqRegs, usrRegs);
      } else if m == Fiq {
        PutAway(usrRegs, fiqRegs);
      }
    }

    /** r8 to r12 go to one array and come from another. */
    method PutAway(to: array<T>, from: array<T>)
      requires Valid() && to in {usrRegs, fiqRegs} && from in {usrRegs, fiqRegs} && to != from
      modifies regs, to
      ensures to[..] == old(regs[8..13]) && regs[..] == old(regs[..8]) + from[..] + old(regs[13..])
    {
      Copy(regs, 8, to, 0, 5);
      assert to[..] == old(regs[8..13]);
      Copy(from, 0, regs, 8, 5);
      assert regs[..] == old(regs[..8]) + from[0..5] + old(regs[13..]);
    }

    method SwapBankRegs(o: nat, m: nat)
      requires Valid() && o < 7 && m < 7
      modifies Repr()
      ensures Contents() == SwapBank(old(Contents()), o, m)
    {
      bankedR13[o] := regs[13];
      bankedR14[o] := regs[14];
      bankedSpsr[o] := spsr;
      regs[13] := bankedR13[m];
      regs[14] := bankedR14[m];
      spsr := bankedSpsr[m];
    }

    method SwitchMode(o: Mode, m: Mode)
      requires Valid() && o != Bad && m != Bad
      modifies Repr()
      ensures Contents() == Switch(old(Contents()), o, m)
    {
      if m == o {
        return;
      }
      SwapHighRegs(o, m);
      SwapBankRegs(Bank(o), Bank(m));
    }

    method ReadUserReg(m: Mode, r: nat) returns (v: T)
      requires Valid() && m != Bad && r < 15
      ensures v == GetUserReg(Contents(), m, r)
      ensures ReachesUser(m, r) ==> v == Visible(FlatOf(Contents(), m), Usr, r)
    {
      if r == 13 {
        v := bankedR13[0];
      } else if r == 14 {
        v := bankedR14[0];
      } else if r >= 8 && m == Fiq {
        v := usrRegs[r - 8];
      } else {
        v := regs[r];
      }
      GetUserRegReads(Contents(), m, r);
    }

    method WriteUserReg(m: Mode, r: nat, v: T)
      requires Valid() && m != Bad && r < 15
      modifies Repr()
      ensures Contents() == SetUserReg(old(Contents()), m, r, v)
      ensures ReachesUser(m, r) ==> FlatOf(Contents(), m) == SetVisible(old(FlatOf(Contents(), m)), Usr, r, v)
    {
      ghost var was := Contents();
      if r == 13 {
        bankedR13[0] := v;
      } else if r == 14 {
        bankedR14[0] := v;
      } else if r >= 8 && m == Fiq {
        usrRegs[r - 8] := v;
      } else {
        regs[r] := v;
      }
      assert Contents() == SetUserReg(was, m, r, v);
      SetUserRegWrites(was, m, r, v);
    }

    method WriteBankedR13(o: Mode, m: Mode, v: T)
      requires Valid() && o != Bad && m != Bad
      modifies Repr()
      ensures Contents() == SetR13Banked(old(Contents()), o, m, v)
      ensures ReachesR13(o, m) ==> FlatOf(Contents(), o) == SetVisible(old(FlatOf(Contents(), o)), m, 13, v)
    {
      ghost var was := Contents();
      if o == m {
        regs[13] := v;
      } else {
        bankedR13[Bank(m)] := v;
      }
      assert Contents() == SetR13Banked(was, o, m, v);
      SetR13BankedWrites(was, o, m, v);
    }
  }

  class Cpu {
    const file: RegisterFile<bv32>
    var psr: Psr
    var control: Control

    /** In Supervisor mode with the flag cache clear. */
    constructor (c: Control)
      ensures Valid() && fresh(Repr()) && State().Mode() == Svc && State().control == c
    {
      file := new RegisterFile();
      psr := Psr(0x13, 0, 0, false, 0, false, 0, false, 0);
      control := c;
    }

    ghost function Repr(): set<object> {
      {this} + file.Repr()
    }

    ghost function State(): Env
      requires file.Valid()
      reads Repr()
    {
      Env(file.Contents(), psr, control)
    }

    ghost predicate Valid()
      reads Repr()
    {
      file.Valid() && State().Valid()
    }

    /** All of cpsr_write that goes to the flag cache. */
    method WriteCached(val: bv32, mask: bv32)
      modifies this`psr
      ensures psr == CpsrWrite(old(psr), val, mask).(uncached := old(psr.uncached))
    {
      hide Touches, Bit, NewZf, NewCf, NewVf, GeOf, LowIt, HighIt, NewUncached;
      var p := psr;
      var zf, nf, cf, vf := p.zf, p.nf, p.cf, p.vf;
      if Touches(mask, 0xf000_0000) {
        zf := NewZf(val);
        nf := val;
        cf := NewCf(val);
        vf := NewVf(val);
      }
      var qf := p.qf;
      if Touches(mask, 0x800_0000) {
        qf := Bit(val, 0x800_0000);
      }
      var thumb := p.thumb;
      if Touches(mask, 0x20) {
        thumb := Bit(val, 0x20);
      }
      var condexec := p.condexec;
      if Touches(mask, 0x600_0000) {
        condexec := LowIt(condexec, val);
      }
      if Touches(mask, 0xfc00) {
        condexec := HighIt(condexec, val);
      }
      var ge := p.ge;
      if Touches(mask, 0xf_0000) {
        ge := GeOf(val);
      }
      psr := Psr(p.uncached, nf, zf, cf, vf, qf, ge, thumb, condexec);
    }

    /** The mode part of cpsr_write: what is left of the mask. */
    method WriteMode(val: bv32, mask: bv32) returns (left: bv32)
      requires file.Valid() && ModeOf(psr.uncached) != Bad
      modifies file.Repr()
      ensures left == EffectiveMask(psr.uncached, val, mask)
      ensures file.Contents() == Switch(old(file.Contents()), ModeOf(psr.uncached), LiveMode(psr.uncached, val, mask))
    {
      hide ModeOf, Switch, AsksMode, WithoutMode;
      SwitchSame(file.Contents(), ModeOf(psr.uncached));
      left := mask;
      if AsksMode(psr.uncached, val, mask) {
        if !Permitted(ModeOf(val)) {
          left := WithoutMode(mask);
        } else {
          file.SwitchMode(ModeOf(psr.uncached), ModeOf(val));
        }
      }
    }

    /** cpsr_write: the flags under the mask as given, then the mode, then what is left of the mask. */
    method WriteCpsr(val: bv32, mask: bv32)
      requires Valid()
      modifies Repr()
      ensures file.Valid() && State() == Write(old(State()), val, mask)
    {
      hide CpsrWrite, ModeOf, Switch, Split, NewUncached, EffectiveMask, LiveMode;
      ghost var p := psr;
      WriteCached(val, mask);
      var left := WriteMode(val, mask);
      psr := psr.(uncached := NewUncached(psr.uncached, val, left));
      Assembled(p, psr, val, mask);
    }

    /** The mode, mask and instruction set of exception entry. */
    method EnterStatus(x: Exception)
      modifies this`psr
      ensures psr == EntryPsr(old(psr), x, control)
    {
      hide EntryUncached, Bit;
      var thumb := psr.thumb;
      if control.v4t {
        thumb := Bit(control.sys, 0x4000_0000);
      }
      psr := psr.(condexec := 0, uncached := EntryUncached(psr.uncached, x), thumb := thumb);
    }

    /** The registers of exception entry. */
    method EnterRegisters(x: Exception, vector: bv32)
      requires file.Valid() && ModeOf(psr.uncached) != Bad
      modifies file.Repr()
      ensures var f := Switch(old(file.Contents()), ModeOf(psr.uncached), Handler(x));
              file.Contents() == f.(spsr := CpsrRead(psr), regs := f.regs[14 := Link(f.regs[15], x, psr.thumb)][15 := vector])
    {
      hide ModeOf, Switch, Handler, Link, CpsrRead;
      file.SwitchMode(ModeOf(psr.uncached), Handler(x));
      file.spsr := CpsrRead(psr);
      file.regs[14] := Link(file.regs[15], x, psr.thumb);
      file.regs[15] := vector;
    }

    /** arm_cpu_do_interrupt. */
    method DoInterrupt(x: Exception)
      requires Valid()
      modifies Repr()
      ensures Valid() && State() == Enter(old(State()), x)
    {
      hide ModeOf, Switch, Handler, Link, CpsrRead, Vector, EntryControl, EntryPsr, Split;
      ghost var e := State();
      var vector := Vector(x, control, ModeOf(psr.uncached));
      var c := EntryControl(x, control, ModeOf(psr.uncached));
      EnterRegisters(x, vector);
      EnterStatus(x);
      control := c;
      EnterValid(e, x);
    }
  }
}
