/** The coprocessor register table: definitions with wildcards go into a hash table, one entry for each
    register they cover, and a lookup finds the latest definition that covers the register asked for. */
module CpRegs {
  import opened Wrappers

  const CP_ANY := 0xff

  /** A register definition; crm, opc1 and opc2 may be CP_ANY. What the definition does on a read or a
      write is its identity here. */
  datatype Info = Info(
    cp: nat, crn: nat, crm: nat, opc1: nat, opc2: nat,
    kind: bv32, access: bv32, hasField: bool, hasRead: bool, hasWrite: bool, identity: nat, data: int)

  /** The registers a program can name. */
  datatype Reg = Reg(cp: nat, is64: bool, crn: nat, crm: nat, opc1: nat, opc2: nat)

  predicate InRange(g: Reg) {
    g.cp < 256 && g.crn < 16 && g.crm < 16 && g.opc1 < 16 && g.opc2 < 8
  }

  /** The bits of a number below 16. */
  function Nibble(n: nat): (b: bv32)
    requires n < 16
    ensures b < 16 && (n < 8 ==> b < 8)
  {
    match n
    case 0 => 0 case 1 => 1 case 2 => 2 case 3 => 3 case 4 => 4 case 5 => 5 case 6 => 6 case 7 => 7
    case 8 => 8 case 9 => 9 case 10 => 10 case 11 => 11 case 12 => 12 case 13 => 13 case 14 => 14 case _ => 15
  }

  lemma NibbleInjective(m: nat, n: nat)
    requires m < 16 && n < 16 && Nibble(m) == Nibble(n)
    ensures m == n
  {
  }

  /** The bits of a byte. */
  function Byte(n: nat): bv32
    requires n < 256
  {
    Pair(Nibble(n / 16), Nibble(n % 16))
  }

  function Pair(high: bv32, low: bv32): bv32 {
    (high << 4) | low
  }

  lemma PairInjective(a: bv32, b: bv32, c: bv32, d: bv32)
    requires a < 16 && b < 16 && c < 16 && d < 16 && Pair(a, b) == Pair(c, d)
    ensures a == c && b == d
  {
  }

  lemma ByteInjective(m: nat, n: nat)
    requires m < 256 && n < 256 && Byte(m) == Byte(n)
    ensures m == n
  {
    hide Nibble, Pair;
    PairInjective(Nibble(m / 16), Nibble(m % 16), Nibble(n / 16), Nibble(n % 16));
    NibbleInjective(m / 16, n / 16);
    NibbleInjective(m % 16, n % 16);
  }

  lemma ByteBound(n: nat)
    requires n < 256
    ensures Byte(n) < 256 && (n < 16 ==> Byte(n) < 16) && (n < 8 ==> Byte(n) < 8)
  {
    hide Pair, Nibble;
    PairBound(Nibble(n / 16), Nibble(n % 16));
    ZeroNibble();
  }

  lemma ZeroNibble()
    ensures Nibble(0) == 0
  {
  }

  lemma PairBound(a: bv32, b: bv32)
    requires a < 16 && b < 16
    ensures Pair(a, b) < 256 && (a == 0 ==> Pair(a, b) == b)
  {
  }

  /** ENCODE_CP_REG, and nothing in particular for a register whose fields are out of range. */
  function Encode(g: Reg): Code {
    if InRange(g) then Code(Key(Byte(g.cp), if g.is64 then 1 else 0, Byte(g.crn), Byte(g.crm), Byte(g.opc1), Byte(g.opc2)))
    else Code(0)
  }

  /** A key of the hash table. */
  datatype Code = Code(bits: bv32)

  function Key(cp: bv32, is64: bv32, crn: bv32, crm: bv32, opc1: bv32, opc2: bv32): bv32 {
    (cp << 16) | (is64 << 15) | (crn << 11) | (crm << 7) | (opc1 << 3) | opc2
  }

  /** The fields side by side: adding them up is ORing them. */
  lemma KeyArithmetic(cp: bv32, is64: bv32, crn: bv32, crm: bv32, opc1: bv32, opc2: bv32)
    requires cp < 256 && is64 < 2 && crn < 16 && crm < 16 && opc1 < 16 && opc2 < 8
    ensures Key(cp, is64, crn, crm, opc1, opc2) == 0x1_0000 * cp + 0x8000 * is64 + 0x800 * crn + 0x80 * crm + 8 * opc1 + opc2
  {
  }

  lemma NibbleIs(n: nat)
    requires n < 16
    ensures Nibble(n) == n as bv32
  {
  }

  lemma KeyInjective(a: bv32, a': bv32, i: bv32, i': bv32, b: bv32, b': bv32, c: bv32, c': bv32, d: bv32, d': bv32, e: bv32, e': bv32)
    requires a < 256 && a' < 256 && i < 2 && i' < 2 && b < 16 && b' < 16 && c < 16 && c' < 16 && d < 16 && d' < 16 && e < 8 && e' < 8
    requires Key(a, i, b, c, d, e) == Key(a', i', b', c', d', e')
    ensures a == a' && i == i' && b == b' && c == c' && d == d' && e == e'
  {
  }

  lemma FieldBounds(g: Reg)
    requires InRange(g)
    ensures Byte(g.cp) < 256 && Byte(g.crn) < 16 && Byte(g.crm) < 16 && Byte(g.opc1) < 16 && Byte(g.opc2) < 8
  {
    hide Byte;
    ByteBound(g.cp);
    ByteBound(g.crn);
    ByteBound(g.crm);
    ByteBound(g.opc1);
    ByteBound(g.opc2);
  }

  lemma EncodeInjective(g: Reg, h: Reg)
    requires InRange(g) && InRange(h) && Encode(g) == Encode(h)
    ensures g == h
  {
    hide Byte, Key;
    FieldBounds(g);
    FieldBounds(h);
    KeyInjective(Byte(g.cp), Byte(h.cp), if g.is64 then 1 else 0, if h.is64 then 1 else 0, Byte(g.crn), Byte(h.crn),
                 Byte(g.crm), Byte(h.crm), Byte(g.opc1), Byte(h.opc1), Byte(g.opc2), Byte(h.opc2));
    ByteInjective(g.cp, h.cp);
    ByteInjective(g.crn, h.crn);
    ByteInjective(g.crm, h.crm);
    ByteInjective(g.opc1, h.opc1);
    ByteInjective(g.opc2, h.opc2);
  }

  predicate Has(w: bv32, bits: bv32) {
    w & bits != 0
  }

  predicate Is64(r: Info) {
    Has(r.kind, 4)
  }

  predicate Override(r: Info) {
    Has(r.kind, 16)
  }

  /** ARM_CP_64BIT and ARM_CP_OVERRIDE are bits 2 and 4 of the type. */
  lemma KindBits(r: Info)
    ensures Is64(r) <==> r.kind / 4 % 2 == 1
    ensures Override(r) <==> r.kind / 16 % 2 == 1
  {
  }

  predicate TypeValid(kind: bv32) {
    !Has(kind, !0x1f) || (Has(kind, 1) && kind <= 0x201)
  }

  /** The assertions on the definition itself. */
  predicate WellFormed(r: Info) {
    && !(Is64(r) && (r.opc2 != 0 || r.crn != 0))
    && (!Has(r.kind, 3) ==>
          && (Has(r.access, 0x80) ==> r.hasField || r.hasRead)
          && (Has(r.access, 0x40) ==> r.hasField || r.hasWrite))
    && TypeValid(r.kind)
  }

  /** The checks by arithmetic: a type is five flags, or a special one up to WFI; a 64-bit register has neither opc2 nor
      crn; and one that is neither special nor constant has something to read or write where it can be read or written. */
  lemma WellFormedExact(r: Info)
    ensures WellFormed(r) <==>
            && (r.kind < 32 || (r.kind % 2 == 1 && r.kind <= 0x201))
            && (r.kind / 4 % 2 == 1 ==> r.opc2 == 0 && r.crn == 0)
            && (r.kind % 4 == 0 && r.access / 0x80 % 2 == 1 ==> r.hasField || r.hasRead)
            && (r.kind % 4 == 0 && r.access / 0x40 % 2 == 1 ==> r.hasField || r.hasWrite)
  {
    FlagBits(r.kind);
    AccessBits(r.access);
    hide Has;
  }

  lemma FlagBits(kind: bv32)
    ensures Has(kind, !0x1f) <==> kind >= 32
    ensures Has(kind, 1) <==> kind % 2 == 1
    ensures Has(kind, 4) <==> kind / 4 % 2 == 1
    ensures Has(kind, 3) <==> kind % 4 != 0
  {
  }

  lemma AccessBits(access: bv32)
    ensures Has(access, 0x80) <==> access / 0x80 % 2 == 1
    ensures Has(access, 0x40) <==> access / 0x40 % 2 == 1
  {
  }

  predicate FieldsInRange(r: Info) {
    r.cp < 256 && r.crn < 16 && (r.crm == CP_ANY || r.crm < 16) && (r.opc1 == CP_ANY || r.opc1 < 16) && (r.opc2 == CP_ANY || r.opc2 < 8)
  }

  function Low(field: nat): nat {
    if field == CP_ANY then 0 else field
  }

  function High(field: nat, last: nat): nat {
    if field == CP_ANY then last else field
  }

  predicate Matches(field: nat, last: nat, v: nat) {
    if field == CP_ANY then v <= last else v == field
  }

  /** The definition speaks about this register. A wildcard opc1 stops at 7. */
  predicate Covers(r: Info, g: Reg) {
    r.cp == g.cp && Is64(r) == g.is64 && r.crn == g.crn && Matches(r.crm, 15, g.crm) && Matches(r.opc1, 7, g.opc1) && Matches(r.opc2, 7, g.opc2)
  }

  /** The entry for it, with no wildcards left. */
  function Concrete(r: Info, data: int, g: Reg): Info {
    r.(crm := g.crm, opc1 := g.opc1, opc2 := g.opc2, data := data)
  }

  /** An entry speaks about its own register and no other, as the definition it comes from does. */
  lemma EntryCoversOne(r: Info, data: int, g: Reg, h: Reg)
    requires InRange(g) && InRange(h) && Covers(r, g)
    ensures var e := Concrete(r, data, g);
            && (Covers(e, h) <==> h == g)
            && e.data == data && e == r.(crm := e.crm, opc1 := e.opc1, opc2 := e.opc2, data := e.data)
  {
    hide Is64;
    KindKept(r, data, g);
  }

  lemma KindKept(r: Info, data: int, g: Reg)
    ensures Is64(Concrete(r, data, g)) == Is64(r)
  {
  }

  type Table = map<Code, Info>

  function Lookup(t: Table, g: Reg): Option<Info> {
    if Encode(g) in t then Some(t[Encode(g)]) else None
  }

  /** A new definition of this register is allowed. */
  predicate Free(t: Table, r: Info, g: Reg) {
    Override(r) || Lookup(t, g).None? || Override(Lookup(t, g).value)
  }

  /** One entry, as the innermost loop makes it. */
  method DefineEntry(t: Table, r: Info, data: int, g: Reg) returns (ok: bool, u: Table)
    requires InRange(g)
    ensures ok == Free(t, r, g)
    ensures ok ==> forall h :: InRange(h) ==> Lookup(u, h) == if h == g then Some(Concrete(r, data, g)) else Lookup(t, h)
  {
    hide Encode, InRange, Override, Concrete;
    var key := Encode(g);
    if !Override(r) && key in t && !Override(t[key]) {
      return false, t;
    }
    ok := true;
    u := t[key := Concrete(r, data, g)];
    forall h | InRange(h) ensures Lookup(u, h) == if h == g then Some(Concrete(r, data, g)) else Lookup(t, h) {
      if Encode(h) == key { EncodeInjective(g, h); }
    }
  }

  // ---------------------------------------------------------------- the three loops

  /** Entries have been made for the covered registers of `done`, and no others changed. */
  ghost predicate Filled(t: Table, u: Table, r: Info, data: int, done: iset<Reg>) {
    forall h :: InRange(h) ==> Lookup(u, h) == if h in done then Some(Concrete(r, data, h)) else Lookup(t, h)
  }

  /** All of them could be made. */
  ghost predicate AllFree(t: Table, r: Info, done: iset<Reg>) {
    forall h :: InRange(h) && h in done ==> Free(t, r, h)
  }

  lemma FillMore(t: Table, u: Table, v: Table, r: Info, data: int, a: iset<Reg>, b: iset<Reg>)
    requires Filled(t, u, r, data, a) && Filled(u, v, r, data, b)
    ensures Filled(t, v, r, data, a + b)
  {
    hide InRange, Lookup, Concrete;
  }

  lemma FreeMore(t: Table, u: Table, r: Info, data: int, a: iset<Reg>, b: iset<Reg>)
    requires Filled(t, u, r, data, a) && a !! b
    ensures AllFree(u, r, b) <==> AllFree(t, r, b)
  {
    hide InRange, Lookup, Concrete, Override;
    forall h | InRange(h) && h in b
      ensures Lookup(u, h) == Lookup(t, h)
    {
    }
  }

  /** Registers in a range of each loop's variable, upper ends excluded. */
  datatype Box = Box(crmLo: nat, crmHi: nat, opc1Lo: nat, opc1Hi: nat, opc2Lo: nat, opc2Hi: nat)

  ghost function Within(r: Info, x: Box): iset<Reg> {
    iset g: Reg |
      && g.cp == r.cp && g.is64 == Is64(r) && g.crn == r.crn
      && x.crmLo <= g.crm < x.crmHi && x.opc1Lo <= g.opc1 < x.opc1Hi && x.opc2Lo <= g.opc2 < x.opc2Hi
  }

  /** The loops have got as far as `x`. */
  ghost predicate Made(t: Table, u: Table, r: Info, data: int, x: Box) {
    Filled(t, u, r, data, Within(r, x)) && AllFree(t, r, Within(r, x))
  }

  /** What a loop over `x` comes to: all made, or one refused. */
  ghost predicate Outcome(t: Table, ok: bool, u: Table, r: Info, data: int, x: Box) {
    if ok then Made(t, u, r, data, x) else !AllFree(t, r, Within(r, x))
  }

  /** The next range `y` takes a loop from `x` to `z`, inside the whole of `w`. */
  ghost predicate Next(r: Info, x: Box, y: Box, z: Box, w: Box) {
    Within(r, x) !! Within(r, y) && Within(r, x) + Within(r, y) == Within(r, z) && Within(r, y) <= Within(r, w)
  }

  lemma MakeMore(t: Table, u: Table, ok: bool, v: Table, r: Info, data: int, x: Box, y: Box, z: Box, w: Box)
    requires Made(t, u, r, data, x) && Next(r, x, y, z, w) && Outcome(u, ok, v, r, data, y)
    ensures if ok then Made(t, v, r, data, z) else !AllFree(t, r, Within(r, w))
  {
    hide InRange, Free, Within, Filled;
    FreeMore(t, u, r, data, Within(r, x), Within(r, y));
    if ok {
      FillMore(t, u, v, r, data, Within(r, x), Within(r, y));
    }
  }

  lemma NoneMade(t: Table, r: Info, data: int, x: Box)
    requires x.crmLo == x.crmHi || x.opc1Lo == x.opc1Hi || x.opc2Lo == x.opc2Hi
    ensures Made(t, t, r, data, x)
  {
    hide InRange, Free, Lookup, Concrete, Is64;
  }

  lemma EntryMade(t: Table, ok: bool, u: Table, r: Info, data: int, g: Reg)
    requires InRange(g) && g.cp == r.cp && g.is64 == Is64(r) && g.crn == r.crn
    requires ok == Free(t, r, g)
    requires ok ==> forall h :: InRange(h) ==> Lookup(u, h) == if h == g then Some(Concrete(r, data, g)) else Lookup(t, h)
    ensures Outcome(t, ok, u, r, data, Box(g.crm, g.crm + 1, g.opc1, g.opc1 + 1, g.opc2, g.opc2 + 1))
  {
    hide Free, Lookup, Concrete, Is64;
    assert Within(r, Box(g.crm, g.crm + 1, g.opc1, g.opc1 + 1, g.opc2, g.opc2 + 1)) == iset{g};
  }

  lemma NextOpc2(r: Info, x: Box, opc2: nat)
    requires x.opc2Lo <= opc2 < x.opc2Hi 
    ensures Next(r, x.(opc2Hi := opc2), x.(opc2Lo := opc2, opc2Hi := opc2 + 1), x.(opc2Hi := opc2 + 1), x)
  {
    hide Is64;
  }

  lemma NextOpc1(r: Info, x: Box, opc1: nat)
    requires x.opc1Lo <= opc1 < x.opc1Hi 
    ensures Next(r, x.(opc1Hi := opc1), x.(opc1Lo := opc1, opc1Hi := opc1 + 1), x.(opc1Hi := opc1 + 1), x)
  {
    hide Is64;
  }

  lemma NextCrm(r: Info, x: Box, crm: nat)
    requires x.crmLo <= crm < x.crmHi 
    ensures Next(r, x.(crmHi := crm), x.(crmLo := crm, crmHi := crm + 1), x.(crmHi := crm + 1), x)
  {
    hide Is64;
  }

  method DefineOpc2(t: Table, r: Info, data: int, crm: nat, opc1: nat) returns (ok: bool, u: Table)
    requires FieldsInRange(r) && crm < 16 && opc1 < 16
    ensures Outcome(t, ok, u, r, data, Box(crm, crm + 1, opc1, opc1 + 1, Low(r.opc2), High(r.opc2, 7) + 1))
  {
    hide Encode, Override, Concrete, Lookup, Made, AllFree, Within, Next, Free, Is64;
    u := t;
    var opc2, last := Low(r.opc2), High(r.opc2, 7);
    ghost var x := Box(crm, crm + 1, opc1, opc1 + 1, opc2, last + 1);
    NoneMade(t, r, data, x.(opc2Hi := opc2));
    while opc2 <= last
      invariant x.opc2Lo <= opc2 <= last + 1 <= 8
      invariant Made(t, u, r, data, x.(opc2Hi := opc2))
      decreases last + 1 - opc2
    {
      ghost var was := u;
      ok, u := DefineEntry(u, r, data, Reg(r.cp, Is64(r), r.crn, crm, opc1, opc2));
      EntryMade(was, ok, u, r, data, Reg(r.cp, Is64(r), r.crn, crm, opc1, opc2));
      NextOpc2(r, x, opc2);
      MakeMore(t, was, ok, u, r, data, x.(opc2Hi := opc2), x.(opc2Lo := opc2, opc2Hi := opc2 + 1), x.(opc2Hi := opc2 + 1), x);
      if !ok { return; }
      opc2 := opc2 + 1;
    }
    ok := true;
  }

  method DefineOpc1(t: Table, r: Info, data: int, crm: nat) returns (ok: bool, u: Table)
    requires FieldsInRange(r) && crm < 16
    ensures Outcome(t, ok, u, r, data, Box(crm, crm + 1, Low(r.opc1), High(r.opc1, 7) + 1, Low(r.opc2), High(r.opc2, 7) + 1))
  {
    hide Encode, Override, Concrete, Lookup, Made, AllFree, Within, Next, Free, Is64;
    u := t;
    var opc1, last := Low(r.opc1), High(r.opc1, 7);
    ghost var x := Box(crm, crm + 1, opc1, last + 1, Low(r.opc2), High(r.opc2, 7) + 1);
    NoneMade(t, r, data, x.(opc1Hi := opc1));
    while opc1 <= last
      invariant x.opc1Lo <= opc1 <= last + 1 <= 16
      invariant Made(t, u, r, data, x.(opc1Hi := opc1))
      decreases last + 1 - opc1
    {
      ghost var was := u;
      ok, u := DefineOpc2(u, r, data, crm, opc1);
      NextOpc1(r, x, opc1);
      MakeMore(t, was, ok, u, r, data, x.(opc1Hi := opc1), x.(opc1Lo := opc1, opc1Hi := opc1 + 1), x.(opc1Hi := opc1 + 1), x);
      if !ok { return; }
      opc1 := opc1 + 1;
    }
    ok := true;
  }

  method DefineCrm(t: Table, r: Info, data: int) returns (ok: bool, u: Table)
    requires FieldsInRange(r)
    ensures Outcome(t, ok, u, r, data, Box(Low(r.crm), High(r.crm, 15) + 1, Low(r.opc1), High(r.opc1, 7) + 1, Low(r.opc2), High(r.opc2, 7) + 1))
  {
    hide Encode, Override, Concrete, Lookup, Made, AllFree, Within, Next, Free, Is64;
    u := t;
    var crm, last := Low(r.crm), High(r.crm, 15);
    ghost var x := Box(crm, last + 1, Low(r.opc1), High(r.opc1, 7) + 1, Low(r.opc2), High(r.opc2, 7) + 1);
    NoneMade(t, r, data, x.(crmHi := crm));
    while crm <= last
      invariant x.crmLo <= crm <= last + 1 <= 16
      invariant Made(t, u, r, data, x.(crmHi := crm))
      decreases last + 1 - crm
    {
      ghost var was := u;
      ok, u := DefineOpc1(u, r, data, crm);
      NextCrm(r, x, crm);
      MakeMore(t, was, ok, u, r, data, x.(crmHi := crm), x.(crmLo := crm, crmHi := crm + 1), x.(crmHi := crm + 1), x);
      if !ok { return; }
      crm := crm + 1;
    }
    ok := true;
  }

  // ---------------------------------------------------------------- the history of definitions

  datatype Def = Def(r: Info, data: int)

  /** A scan from the latest definition back: the first that covers the register. */
  function Latest(defs: seq<Def>, g: Reg): Option<Info>
    decreases |defs|
  {
    if defs == [] then None
    else
      var d := defs[|defs| - 1];
      if Covers(d.r, g) then Some(Concrete(d.r, d.data, g)) else Latest(defs[..|defs| - 1], g)
  }

  /** The table answers as the scan does. */
  ghost predicate Agrees(t: Table, defs: seq<Def>) {
    forall g :: InRange(g) ==> Lookup(t, g) == Latest(defs, g)
  }

  /** Definition `i` was the one in force when `j` replaced it. */
  predicate Replaces(defs: seq<Def>, i: nat, j: nat, g: Reg)
    requires i < j < |defs|
  {
    Covers(defs[i].r, g) && Covers(defs[j].r, g) && forall k :: i < k < j ==> !Covers(defs[k].r, g)
  }

  /** Every replacement was asked for by one of the two. */
  ghost predicate Guarded(defs: seq<Def>) {
    forall i: nat, j: nat, g :: i < j < |defs| && InRange(g) && Replaces(defs, i, j, g) ==> Override(defs[i].r) || Override(defs[j].r)
  }

  /** The definition goes through: it is well formed, and replaces only what may be replaced. */
  ghost predicate Accepts(defs: seq<Def>, r: Info) {
    && WellFormed(r)
    && forall g :: InRange(g) && Covers(r, g) ==> Override(r) || Latest(defs, g).None? || Override(Latest(defs, g).value)
  }

  function Whole(r: Info): Box {
    Box(Low(r.crm), High(r.crm, 15) + 1, Low(r.opc1), High(r.opc1, 7) + 1, Low(r.opc2), High(r.opc2, 7) + 1)
  }

  lemma WholeCovers(r: Info, g: Reg)
    ensures g in Within(r, Whole(r)) <==> Covers(r, g)
  {
    hide Is64;
  }

  lemma DefineAgrees(t: Table, u: Table, defs: seq<Def>, d: Def)
    requires Agrees(t, defs) && Filled(t, u, d.r, d.data, Within(d.r, Whole(d.r)))
    ensures Agrees(u, defs + [d])
  {
    hide InRange, Lookup, Concrete, Covers, Within;
    var all := defs + [d];
    assert all[..|all| - 1] == defs;
    forall g | InRange(g) ensures Lookup(u, g) == Latest(all, g) {
      WholeCovers(d.r, g);
    }
  }

  lemma DefineAccepted(t: Table, defs: seq<Def>, r: Info)
    requires Agrees(t, defs) && WellFormed(r)
    ensures AllFree(t, r, Within(r, Whole(r))) <==> Accepts(defs, r)
  {
    hide InRange, Lookup, Covers, Within, WellFormed, Override;
    forall g ensures g in Within(r, Whole(r)) <==> Covers(r, g) {
      WholeCovers(r, g);
    }
  }

  lemma {:induction false} LatestIs(defs: seq<Def>, g: Reg, i: nat)
    requires i < |defs| && Covers(defs[i].r, g) && forall k :: i < k < |defs| ==> !Covers(defs[k].r, g)
    ensures Latest(defs, g) == Some(Concrete(defs[i].r, defs[i].data, g))
    decreases |defs|
  {
    hide Covers, Concrete;
    if i < |defs| - 1 {
      LatestIs(defs[..|defs| - 1], g, i);
    }
  }

  lemma AcceptedIsGuarded(defs: seq<Def>, d: Def)
    requires Guarded(defs) && Accepts(defs, d.r)
    ensures Guarded(defs + [d])
  {
    hide InRange, Covers, WellFormed;
    var all := defs + [d];
    assert forall k :: 0 <= k < |defs| ==> defs[k] == all[k];
    forall i: nat, j: nat, g | i < j < |all| && InRange(g) && Replaces(all, i, j, g)
      ensures Override(all[i].r) || Override(all[j].r)
    {
      if j < |defs| {
        assert forall k :: i < k < j ==> !Covers(defs[k].r, g);
        assert Replaces(defs, i, j, g);
      } else {
        assert forall k :: i < k < |defs| ==> !Covers(defs[k].r, g);
        LatestIs(defs, g, i);
      }
    }
  }

  class CpTable {
    var cpRegs: Table
    ghost var defs: seq<Def>

    /** What every run of definitions that does not abort keeps. */
    ghost predicate Valid()
      reads this
    {
      Agrees(cpRegs, defs) && Guarded(defs)
    }

    constructor ()
      ensures Valid() && defs == []
    {
      cpRegs := map[];
      defs := [];
    }

    /** define_one_arm_cp_reg_with_opaque; not `ok` is an abort of the program. */
    method Define(r: Info, data: int) returns (ok: bool)
      requires Valid() && FieldsInRange(r)
      modifies this
      ensures ok <==> Accepts(old(defs), r)
      ensures ok ==> Valid() && defs == old(defs) + [Def(r, data)]
    {
      hide Agrees, Guarded, Accepts, AllFree, Filled, Within;
      if !WellFormed(r) {
        NotAccepted(defs, r);
        return false;
      }
      ghost var was := cpRegs;
      ok, cpRegs := DefineCrm(cpRegs, r, data);
      DefineAccepted(was, defs, r);
      if ok {
        DefineAgrees(was, cpRegs, defs, Def(r, data));
        AcceptedIsGuarded(defs, Def(r, data));
        defs := defs + [Def(r, data)];
      }
    }

    /** get_arm_cp_reginfo, on the key of a register that an instruction can name. */
    method Get(g: Reg) returns (info: Option<Info>)
      requires Valid() && InRange(g)
      ensures info == Latest(defs, g)
    {
      var key := Encode(g);
      info := if key in cpRegs then Some(cpRegs[key]) else None;
      assert info == Lookup(cpRegs, g);
    }

    /** define_arm_cp_regs_with_opaque: a list up to its sentinel. */
    method DefineList(regs: seq<Info>, data: int) returns (ok: bool, n: nat)
      requires Valid()
      requires exists k :: 0 <= k < |regs| && regs[k].kind == SENTINEL
      requires forall k :: 0 <= k < |regs| ==> FieldsInRange(regs[k])
      modifies this
      ensures ok ==> Valid() && n < |regs| && regs[n].kind == SENTINEL && forall k :: 0 <= k < n ==> regs[k].kind != SENTINEL
      ensures ok ==> defs == old(defs) + seq(n, k requires 0 <= k < n => Def(regs[k], data))
    {
      hide Agrees, Guarded, Accepts, FieldsInRange;
      n := 0;
      while regs[n].kind != SENTINEL
        invariant Valid() && n < |regs| && forall k :: 0 <= k < n ==> regs[k].kind != SENTINEL
        invariant defs == old(defs) + seq(n, k requires 0 <= k < n => Def(regs[k], data))
        decreases |regs| - n
      {
        ok := Define(regs[n], data);
        if !ok { return; }
        n := n + 1;
      }
      ok := true;
    }
  }

  const SENTINEL: bv32 := 0xffff

  lemma NotAccepted(defs: seq<Def>, r: Info)
    requires !WellFormed(r)
    ensures !Accepts(defs, r)
  {
  }

  /** The sentinel is no register: a definition that ran on to it would abort. */
  lemma SentinelInvalid()
    ensures !TypeValid(SENTINEL)
  {
  }
}
