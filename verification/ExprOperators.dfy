/** The operators of the monitor's expressions by what they mean: quotients by the division law, logic bit by bit, and
    the rest modulo 2^64. Symbols and precedence are tables of their own. */
module ExprOperators {
  import opened Words
  import opened ExprParser

  datatype Operator = Add | Sub | And | Or | Xor | Mul | Div | Mod

  datatype Sign = Plus | Minus | Not

  function Symbol(op: Operator): char {
    match op
    case Add => '+'
    case Sub => '-'
    case And => '&'
    case Or => '|'
    case Xor => '^'
    case Mul => '*'
    case Div => '/'
    case Mod => '%'
  }

  function SignSymbol(op: Sign): char {
    match op
    case Plus => '+'
    case Minus => '-'
    case Not => '~'
  }

  /** Sums bind least, then logic, then products. */
  function Precedence(op: Operator): nat {
    match op
    case Add | Sub => 0
    case And | Or | Xor => 1
    case Mul | Div | Mod => 2
  }

  lemma SymbolLevel(op: Operator)
    ensures LevelOf(Symbol(op)) == Precedence(op)
  {
  }

  // ---------------------------------------------------------------- what they mean

  predicate InWord(x: int) {
    -TWO63 <= x < TWO63
  }

  /** The value is the word that is `x` modulo 2^64. */
  predicate Wrapped(o: Outcome, x: int) {
    o.Value? && InWord(o.val) && Congruent(o.val, x)
  }

  /** Division towards zero: the remainder is smaller than the divisor and has the sign of the dividend. */
  predicate Divided(x: int, y: int, q: int, r: int) {
    x == q * y + r && Magnitude(r) < Magnitude(y) && (r == 0 || (r < 0) == (x < 0))
  }

  /** Bit `k` of an integer in two's complement. */
  predicate BitAt(x: int, k: nat)
    decreases k
  {
    if k == 0 then x % 2 == 1 else BitAt(x / 2, k - 1)
  }

  predicate Joint(op: Operator, a: bool, b: bool) {
    match op
    case And => a && b
    case Or => a || b
    case _ => a != b
  }

  /** The 64 bits of the value are those of the operands, joined. */
  predicate BitByBit(op: Operator, x: int, y: int, o: Outcome) {
    o.Value? && InWord(o.val) && forall k :: 0 <= k < 64 ==> BitAt(o.val, k) == Joint(op, BitAt(x, k), BitAt(y, k))
  }

  /** What an operator makes of two words. */
  ghost predicate Denotes(op: Operator, x: int, y: int, o: Outcome) {
    match op
    case Add => Wrapped(o, x + y)
    case Sub => Wrapped(o, x - y)
    case Mul => Wrapped(o, x * y)
    case And | Or | Xor => BitByBit(op, x, y, o)
    case Div =>
      if y == 0 then o == Bad(DivisionByZero)
      else exists q, r :: Divided(x, y, q, r) && o == if InWord(q) then Value(q) else Bad(Trap)
    case Mod =>
      if y == 0 then o == Bad(DivisionByZero)
      else exists q, r :: Divided(x, y, q, r) && o == if InWord(q) then Value(r) else Bad(Trap)
  }

  ghost predicate SignDenotes(op: Sign, x: int, o: Outcome) {
    match op
    case Plus => o == Value(x)
    case Minus => Wrapped(o, -x)
    case Not => o.Value? && InWord(o.val) && forall k :: 0 <= k < 64 ==> BitAt(o.val, k) == !BitAt(x, k)
  }

  // ---------------------------------------------------------------- there is one such value

  lemma WrappedUnique(o: Outcome, o': Outcome, x: int)
    requires Wrapped(o, x) && Wrapped(o', x)
    ensures o == o'
  {
    CongruentSub(o.val, x, o'.val, x);
    CongruentNear(o.val - o'.val, 0);
  }

  lemma DividedUnique(x: int, y: int, q: int, r: int, q': int, r': int)
    requires y != 0 && Divided(x, y, q, r) && Divided(x, y, q', r')
    ensures q == q' && r == r'
  {
    assert (q - q') * y == r' - r;
    if q != q' { Product(q - q', y); }
  }

  lemma Product(a: int, b: int)
    requires a != 0
    ensures Magnitude(a * b) >= Magnitude(b)
  {
  }

  function Power(n: nat): (p: nat)
    ensures p > 0
  {
    if n == 0 then 1 else 2 * Power(n - 1)
  }

  /** A word is its bits. */
  lemma {:induction false} BitsDetermine(x: int, y: int, n: nat)
    requires n > 0 && 0 <= x + Power(n - 1) < Power(n) && 0 <= y + Power(n - 1) < Power(n)
    requires forall k :: 0 <= k < n ==> BitAt(x, k) == BitAt(y, k)
    ensures x == y
    decreases n
  {
    assert BitAt(x, 0) == BitAt(y, 0);
    if n > 1 {
      forall k | 0 <= k < n - 1 ensures BitAt(x / 2, k) == BitAt(y / 2, k) {
        assert BitAt(x, k + 1) == BitAt(y, k + 1);
      }
      BitsDetermine(x / 2, y / 2, n - 1);
    }
  }

  lemma Power64()
    ensures Power(63) == TWO63 && Power(64) == TWO64
  {
    assert Power(4) == 16;
    PowerAdds(4, 4);
    PowerAdds(8, 8);
    PowerAdds(16, 16);
    PowerAdds(32, 32);
    assert Power(64) == 2 * Power(63);
  }

  lemma {:induction false} PowerAdds(m: nat, n: nat)
    ensures Power(m + n) == Power(m) * Power(n)
  {
    if n > 0 {
      PowerAdds(m, n - 1);
      assert Power(m) * (2 * Power(n - 1)) == 2 * (Power(m) * Power(n - 1));
    }
  }

  lemma BitByBitUnique(op: Operator, x: int, y: int, o: Outcome, o': Outcome)
    requires BitByBit(op, x, y, o) && BitByBit(op, x, y, o')
    ensures o == o'
  {
    hide BitAt;
    Power64();
    BitsDetermine(o.val, o'.val, 64);
  }

  lemma DenotesUnique(op: Operator, x: int, y: int, o: Outcome, o': Outcome)
    requires Denotes(op, x, y, o) && Denotes(op, x, y, o')
    ensures o == o'
  {
    hide Wrapped, Divided, BitByBit;
    match op
    case Add => WrappedUnique(o, o', x + y);
    case Sub => WrappedUnique(o, o', x - y);
    case Mul => WrappedUnique(o, o', x * y);
    case And | Or | Xor => BitByBitUnique(op, x, y, o, o');
    case Div => QuotientUnique(x, y, o, o');
    case Mod => RemainderUnique(x, y, o, o');
  }

  lemma QuotientUnique(x: int, y: int, o: Outcome, o': Outcome)
    requires Denotes(Div, x, y, o) && Denotes(Div, x, y, o')
    ensures o == o'
  {
    hide Divided;
    if y != 0 {
      var q, r :| Divided(x, y, q, r) && o == if InWord(q) then Value(q) else Bad(Trap);
      var q', r' :| Divided(x, y, q', r') && o' == if InWord(q') then Value(q') else Bad(Trap);
      DividedUnique(x, y, q, r, q', r');
    }
  }

  lemma RemainderUnique(x: int, y: int, o: Outcome, o': Outcome)
    requires Denotes(Mod, x, y, o) && Denotes(Mod, x, y, o')
    ensures o == o'
  {
    hide Divided;
    if y != 0 {
      var q, r :| Divided(x, y, q, r) && o == if InWord(q) then Value(r) else Bad(Trap);
      var q', r' :| Divided(x, y, q', r') && o' == if InWord(q') then Value(r') else Bad(Trap);
      DividedUnique(x, y, q, r, q', r');
    }
  }

  lemma SignUnique(op: Sign, x: int, o: Outcome, o': Outcome)
    requires SignDenotes(op, x, o) && SignDenotes(op, x, o')
    ensures o == o'
  {
    hide Wrapped, BitAt;
    match op
    case Plus =>
    case Minus => WrappedUnique(o, o', -x);
    case Not =>
      Power64();
      BitsDetermine(o.val, o'.val, 64);
  }

  // ---------------------------------------------------------------- and it is the evaluator's

  lemma QuotientFits(x: int, y: int)
    requires -TWO63 <= x < TWO63 && -TWO63 <= y < TWO63 && y != 0 && !(x == -TWO63 && y == -1)
    ensures -TWO63 <= Quotient(x, y) < TWO63 && -TWO63 <= Remainder(x, y) < TWO63
  {
    hide Quotient, Remainder;
    DivisionLaw(x, y);
    QuotientBound(x, y);
  }

  lemma QuotientBound(x: int, y: int)
    requires y != 0
    ensures Magnitude(Quotient(x, y)) <= Magnitude(x) && (Magnitude(y) >= 2 ==> 2 * Magnitude(Quotient(x, y)) <= Magnitude(x))
    ensures y == 1 ==> Quotient(x, y) == x
    ensures y == -1 ==> Quotient(x, y) == -x
  {
    var m: int, n: int := Magnitude(x), Magnitude(y);
    var q: int := m / n;
    EuclideanLaw(m, n);
    if n >= 2 { Doubles(q, n); } else { assert n == 1 && q == m; }
  }

  lemma Doubles(q: int, n: int)
    requires q >= 0 && n >= 2
    ensures q * n >= 2 * q
  {
  }

  lemma {:induction false} BitwiseBits(op: char, x: int, y: int, n: nat, k: nat)
    requires k < n
    ensures BitAt(Bitwise(op, x, y, n), k) == Join(op, BitAt(x, k), BitAt(y, k))
    decreases k
  {
    hide Join;
    var half := Bitwise(op, x / 2, y / 2, n - 1);
    assert Bitwise(op, x, y, n) / 2 == half;
    if k > 0 { BitwiseBits(op, x / 2, y / 2, n - 1, k - 1); }
  }

  lemma {:induction false} HighBitsApart(x: int, m: int, n: nat, k: nat)
    requires k < n
    ensures BitAt(x + Power(n) * m, k) == BitAt(x, k)
    decreases k
  {
    var p := Power(n - 1);
    assert x + Power(n) * m == x + 2 * (p * m);
    if k > 0 {
      assert (x + 2 * (p * m)) / 2 == x / 2 + p * m;
      HighBitsApart(x / 2, m, n - 1, k - 1);
    }
  }

  /** The signed word has the bits of the number it wraps. */
  lemma WordBits(x: int, k: nat)
    requires k < 64
    ensures BitAt(S64(x), k) == BitAt(x, k)
  {
    Power64();
    var m := (S64(x) - x) / TWO64;
    assert S64(x) == x + TWO64 * m;
    HighBitsApart(x, m, 64, k);
  }

  lemma {:induction false} NotBits(x: int, k: nat)
    ensures BitAt(-x - 1, k) == !BitAt(x, k)
    decreases k
  {
    if k > 0 {
      assert (-x - 1) / 2 == -(x / 2) - 1;
      NotBits(x / 2, k - 1);
    }
  }

  lemma LogicDenotes(op: Operator, x: int, y: int)
    requires op.And? || op.Or? || op.Xor?
    ensures Denotes(op, x, y, ApplyInfix(Symbol(op), x, y))
  {
    hide BitAt, S64, Bitwise;
    var v := Bitwise(Symbol(op), x, y, 64);
    forall k | 0 <= k < 64 ensures BitAt(S64(v), k) == Join(Symbol(op), BitAt(x, k), BitAt(y, k)) {
      WordBits(v, k);
      BitwiseBits(Symbol(op), x, y, 64, k);
    }
  }

  lemma DivisionDenotes(op: Operator, x: int, y: int)
    requires InWord(x) && InWord(y) && (op.Div? || op.Mod?)
    ensures Denotes(op, x, y, ApplyInfix(Symbol(op), x, y))
  {
    if y != 0 {
      DivisionLaw(x, y);
      assert Divided(x, y, Quotient(x, y), Remainder(x, y));
      if x == -TWO63 && y == -1 {
        assert Quotient(x, y) == TWO63;
      } else {
        QuotientFits(x, y);
      }
    }
  }

  /** The evaluator's operators do what they should on words. */
  lemma InfixDenotes(op: Operator, x: int, y: int)
    requires InWord(x) && InWord(y)
    ensures Denotes(op, x, y, ApplyInfix(Symbol(op), x, y))
  {
    hide S64, Congruent, Bitwise, Quotient, Remainder;
    match op
    case And | Or | Xor => LogicDenotes(op, x, y);
    case Div | Mod => DivisionDenotes(op, x, y);
    case _ =>
  }

  lemma PrefixDenotes(op: Sign, x: int)
    ensures SignDenotes(op, x, Value(ApplyPrefix(SignSymbol(op), x)))
  {
    hide S64, Congruent, BitAt;
    if op == Not {
      forall k | 0 <= k < 64 ensures BitAt(S64(-x - 1), k) == !BitAt(x, k) {
        WordBits(-x - 1, k);
        NotBits(x, k);
      }
    }
  }
}
