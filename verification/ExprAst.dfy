/** Expressions written out with no more parentheses than precedence asks for: evaluating the text gives the
    value of the expression, and uses all of the text. */
module ExprAst {
  import opened Words
  import opened Wrappers
  import opened ExprParser
  import opened ExprTrees
  import opened ExprOperators
  import ExprExact

  /** How a number is written; hexadecimal in capitals or not. */
  datatype Radix = Dec | Oct | Hex(capital: bool)

  datatype Expr =
    | Lit(n: nat, radix: Radix)
    | CharLit(c: char)
    | Named(name: string)
    | Un(sign: Sign, arg: Expr)
    | Bin(op: Operator, left: Expr, right: Expr)

  predicate Valid(e: Expr) {
    match e
    case Lit(_, _) => true
    case CharLit(_) => true
    case Named(name) => forall i :: 0 <= i < |name| ==> IsNameChar(name[i])
    case Un(_, arg) => Valid(arg)
    case Bin(_, left, right) => Valid(left) && Valid(right)
  }

  /** What an expression comes to: numbers of 64 bits, registers by the first 127 characters of their names, and the first
      error from the left. */
  ghost predicate Means(env: Registers, e: Expr, o: Outcome) {
    match e
    case Lit(n, _) => if n < TWO64 then Wrapped(o, n) else o == Bad(NumberTooLarge)
    case CharLit(c) => o == Value(c as int)
    case Named(name) =>
      var known := env(if |name| < 128 then name else name[..127]);
      o == if known.Some? then Value(known.value) else Bad(UnknownRegister)
    case Un(op, arg) => exists x :: Means(env, arg, x) && if x.Bad? then o == x else SignDenotes(op, x.val, o)
    case Bin(op, left, right) => exists x, y :: Means(env, left, x) && Means(env, right, y) && Combines(op, x, y, o)
  }

  /** The operator on two values, or the first error. */
  ghost predicate Combines(op: Operator, x: Outcome, y: Outcome, o: Outcome) {
    if x.Bad? then o == x else if y.Bad? then o == y else Denotes(op, x.val, y.val, o)
  }

  /** What the evaluator computes for it. */
  function Computed(env: Registers, e: Expr): Outcome {
    match e
    case Lit(n, _) => if n < TWO64 then Value(S64(n)) else Bad(NumberTooLarge)
    case CharLit(c) => Value(c as int)
    case Named(name) => (match env(Buffered(name)) case None => Bad(UnknownRegister) case Some(v) => Value(v))
    case Un(op, arg) => (match Computed(env, arg) case Bad(x) => Bad(x) case Value(v) => Value(ApplyPrefix(SignSymbol(op), v)))
    case Bin(op, left, right) =>
      match Computed(env, left)
      case Bad(x) => Bad(x)
      case Value(v) => match Computed(env, right) case Bad(x) => Bad(x) case Value(w) => ApplyInfix(Symbol(op), v, w)
  }

  function Digit(d: nat, capital: bool): char
    requires d < 16
  {
    if capital then "0123456789ABCDEF"[d] else "0123456789abcdef"[d]
  }

  /** A number in a base, with no leading zeros. */
  function Digits(n: nat, base: nat, capital: bool): (s: string)
    requires 2 <= base <= 16
    ensures s != []
  {
    if n < base then [Digit(n, capital)] else Digits(High(n, base), base, capital) + [Digit(Low(n, base), capital)]
  }

  /** All digits but the last, and the last one. */
  function High(n: nat, base: nat): (q: nat)
    requires base >= 2
    ensures n >= base ==> 0 < q < n
  {
    n / base
  }

  function Low(n: nat, base: nat): (r: nat)
    requires base >= 2
    ensures r < base
  {
    n % base
  }

  /** As C writes it: octal after a zero, hexadecimal after 0x or 0X. */
  function Numeral(n: nat, radix: Radix): (s: string)
    ensures s != []
  {
    match radix
    case Dec => Digits(n, 10, false)
    case Oct => "0" + Digits(n, 8, false)
    case Hex(capital) => (if capital then "0X" else "0x") + Digits(n, 16, capital)
  }

  /** The expression where the grammar wants this level: in parentheses only if it binds less. */
  function Concrete(e: Expr, level: nat): Tree {
    match e
    case Lit(n, radix) => Number(Numeral(n, radix), "")
    case CharLit(c) => Char(c, "")
    case Named(name) => Register(name, "")
    case Un(op, arg) => Prefix(SignSymbol(op), "", Concrete(arg, 3))
    case Bin(op, left, right) =>
      var both := Infix(Concrete(left, Precedence(op)), Symbol(op), "", Concrete(right, Precedence(op) + 1));
      if level <= Precedence(op) then both else Paren("", both, "")
  }

  function Print(e: Expr): string {
    Show(Concrete(e, 0))
  }

  // ---------------------------------------------------------------- numbers

  lemma DigitValue(d: nat, capital: bool)
    requires d < 16
    ensures DigitOf(Digit(d, capital)) == d && Digit(d, capital) !in "xX+-~('$"
  {
  }

  lemma {:induction false} DigitsAre(n: nat, base: nat, capital: bool)
    requires 2 <= base <= 16
    ensures forall i :: 0 <= i < |Digits(n, base, capital)| ==> IsDigit(Digits(n, base, capital)[i], base)
    ensures forall i :: 0 <= i < |Digits(n, base, capital)| ==> Digits(n, base, capital)[i] !in "xX+-~('$"
    ensures n > 0 ==> DigitOf(Digits(n, base, capital)[0]) > 0
  {
    hide DigitOf, Digit, High, Low;
    if n < base {
      DigitValue(n, capital);
    } else {
      DigitValue(Low(n, base), capital);
      DigitsAre(High(n, base), base, capital);
    }
  }

  lemma {:induction false} DigitsValue(n: nat, base: nat, capital: bool)
    requires 2 <= base <= 16
    ensures forall i :: 0 <= i < |Digits(n, base, capital)| ==> IsDigit(Digits(n, base, capital)[i], base)
    ensures ValueOf(Digits(n, base, capital), base) == n
  {
    hide DigitOf, Digit, High, Low, Shifted;
    DigitsAre(n, base, capital);
    var s := Digits(n, base, capital);
    if n < base {
      DigitValue(n, capital);
      assert s[..|s| - 1] == [];
      Appended(0, base, s[|s| - 1], n);
    } else {
      DigitValue(Low(n, base), capital);
      DigitsValue(High(n, base), base, capital);
      assert s[..|s| - 1] == Digits(High(n, base), base, capital);
      Appended(High(n, base), base, s[|s| - 1], Low(n, base));
      Reassembled(n, base);
    }
  }

  lemma Appended(high: nat, base: nat, c: char, d: nat)
    requires IsDigit(c, base) && DigitOf(c) == d
    ensures Shifted(high, base, c) == high * base + d
  {
  }

  lemma Reassembled(n: nat, base: nat)
    requires base >= 2
    ensures High(n, base) * base + Low(n, base) == n
  {
  }

  lemma {:induction false} LeadingZero(s: string, base: nat)
    requires base >= 2 && (forall i :: 0 <= i < |s| ==> IsDigit(s[i], base))
    ensures forall i :: 0 <= i < |"0" + s| ==> IsDigit(("0" + s)[i], base)
    ensures ValueOf("0" + s, base) == ValueOf(s, base)
    decreases |s|
  {
    hide DigitOf;
    ZeroIsDigit(base);
    var t := "0" + s;
    if s == [] {
      assert t == "0" && t[..0] == [];
    } else {
      LeadingZero(s[..|s| - 1], base);
      assert t[..|t| - 1] == "0" + s[..|s| - 1];
    }
  }

  lemma ZeroIsDigit(base: nat)
    requires base >= 2
    ensures IsDigit('0', base) && DigitOf('0') == 0
  {
  }

  lemma {:induction false} DigitRunAll(a: string, b: string, base: nat)
    requires (forall i :: 0 <= i < |a| ==> IsDigit(a[i], base)) && (b == [] || !IsDigit(b[0], base))
    ensures DigitRun(a + b, base) == |a|
  {
    hide IsDigit;
    if a == [] {
      assert a + b == b;
    } else {
      assert (a + b)[1..] == a[1..] + b;
      DigitRunAll(a[1..], b, base);
    }
  }

  lemma {:induction false} NameRunAll(a: string, b: string)
    requires (forall i :: 0 <= i < |a| ==> IsNameChar(a[i])) && (b == [] || !IsNameChar(b[0]))
    ensures NameRun(a + b) == |a|
  {
    hide IsNameChar;
    if a == [] {
      assert a + b == b;
    } else {
      assert (a + b)[1..] == a[1..] + b;
      NameRunAll(a[1..], b);
    }
  }

  /** What may follow an expression: an operator, a closing parenthesis or nothing. */
  predicate Stop(rest: string) {
    rest == [] || LevelOf(rest[0]) < 3 || rest[0] == ')'
  }

  lemma StopChars(rest: string)
    requires Stop(rest) && rest != []
    ensures !IsSpace(rest[0]) && !IsNameChar(rest[0]) && !IsDigit(rest[0], 16) && rest[0] !in "xX"
  {
  }

  lemma DecimalReads(n: nat, rest: string)
    requires Stop(rest)
    ensures NumberRun(Numeral(n, Dec) + rest) == |Numeral(n, Dec)| && NumberAt(Numeral(n, Dec)) == n
  {
    hide IsSpace, IsNameChar, ValueOf, Digit;
    var text := Digits(n, 10, false);
    var s := text + rest;
    DigitsAre(n, 10, false);
    DigitsValue(n, 10, false);
    if rest != [] { StopChars(rest); }
    assert s[0] == text[0] && IsDigit(text[0], 10) && s[0..] == s && text[0..] == text;
    if n == 0 {
      ZeroReads(rest);
    } else {
      assert text[0] != '0' by { ZeroIsDigit(10); }
      DigitRunAll(text, rest, 10);
      DigitRunAll(text, [], 10);
      assert text + [] == text && text[..|text|] == text;
    }
  }

  lemma ZeroReads(rest: string)
    requires Stop(rest)
    ensures Digits(0, 10, false) == "0" && NumberRun("0" + rest) == 1 && NumberAt("0") == 0
  {
    hide IsSpace, IsNameChar;
    var s := "0" + rest;
    if rest != [] { StopChars(rest); }
    DigitRunAll("0", rest, 8);
    DigitRunAll("0", [], 8);
    assert |s| >= 2 ==> s[1] == rest[0];
    assert s[0..] == s && "0"[0..] == "0" && "0" + [] == "0" && "0"[..1] == "0";
    assert "0"[..0] == [] && ValueOf("", 8) == 0;
    assert ValueOf("0", 8) == 0;
  }

  lemma OctalReads(n: nat, rest: string)
    requires Stop(rest)
    ensures NumberRun(Numeral(n, Oct) + rest) == |Numeral(n, Oct)| && NumberAt(Numeral(n, Oct)) == n
  {
    hide IsSpace, IsNameChar, ValueOf, Digit, Digits, DigitOf;
    var digits := Digits(n, 8, false);
    var text := "0" + digits;
    var s := text + rest;
    DigitsAre(n, 8, false);
    DigitsValue(n, 8, false);
    LeadingZero(digits, 8);
    if rest != [] { StopChars(rest); }
    assert s[0] == '0' && s[1] == digits[0] && text[1] == digits[0] && s[0..] == s && text[0..] == text;
    DigitRunAll(text, rest, 8);
    DigitRunAll(text, [], 8);
    assert text + [] == text && text[..|text|] == text;
  }

  lemma HexReads(n: nat, capital: bool, rest: string)
    requires Stop(rest)
    ensures NumberRun(Numeral(n, Hex(capital)) + rest) == |Numeral(n, Hex(capital))| && NumberAt(Numeral(n, Hex(capital))) == n
  {
    hide IsSpace, IsNameChar, ValueOf, Digit, Digits, DigitOf;
    var digits := Digits(n, 16, capital);
    var text := Numeral(n, Hex(capital));
    var s := text + rest;
    DigitsAre(n, 16, capital);
    DigitsValue(n, 16, capital);
    if rest != [] { StopChars(rest); }
    assert s[0] == '0' && s[1] in "xX" && s[2] == digits[0] && text[2] == digits[0];
    assert s[2..] == digits + rest && text[2..] == digits;
    DigitRunAll(digits, rest, 16);
    DigitRunAll(digits, [], 16);
    assert digits + [] == digits && digits[..|digits|] == digits;
  }

  /** A number is read whole and for what it is, in each radix. */
  lemma NumberReads(n: nat, radix: Radix, rest: string)
    requires Stop(rest)
    ensures NumberRun(Numeral(n, radix) + rest) == |Numeral(n, radix)| && NumberAt(Numeral(n, radix)) == n
    ensures Numeral(n, radix)[0] !in "+-~('$"
  {
    hide NumberRun, NumberAt;
    match radix
    case Dec =>
      DecimalReads(n, rest);
      DigitsAre(n, 10, false);
    case Oct => OctalReads(n, rest);
    case Hex(capital) => HexReads(n, capital, rest);
  }

  // ---------------------------------------------------------------- expressions

  lemma SignChars(op: Sign)
    ensures SignSymbol(op) in "+-~"
  {
  }

  lemma {:induction false} ConcreteFits(e: Expr, level: nat)
    requires Valid(e) && level <= 3
    ensures Fits(Concrete(e, level), level)
    decreases e
  {
    hide LevelOf, Symbol, SignSymbol;
    match e
    case Un(op, arg) =>
      SignChars(op);
      ConcreteFits(arg, 3);
    case Bin(op, left, right) =>
      SymbolLevel(op);
      ConcreteFits(left, Precedence(op));
      ConcreteFits(right, Precedence(op) + 1);
    case _ =>
  }

  lemma {:induction false} ConcreteComputes(env: Registers, e: Expr, level: nat)
    requires Valid(e)
    ensures Eval(env, Concrete(e, level)) == Computed(env, e)
    decreases e
  {
    hide ApplyInfix, ApplyPrefix, NumberAt, Numeral, S64, Symbol, SignSymbol, Precedence;
    match e
    case Lit(n, radix) => NumberReads(n, radix, []);
    case Un(op, arg) => ConcreteComputes(env, arg, 3);
    case Bin(op, left, right) =>
      if level > Precedence(op) {
        EvalParen(env, "", Infix(Concrete(left, Precedence(op)), Symbol(op), "", Concrete(right, Precedence(op) + 1)), "");
      }
      ConcreteComputes(env, left, Precedence(op));
      ConcreteComputes(env, right, Precedence(op) + 1);
    case _ =>
  }

  lemma {:induction false} ConcreteReads(e: Expr, level: nat, rest: string)
    requires Valid(e) && Stop(rest)
    ensures Reads(Concrete(e, level), rest)
    decreases e
  {
    hide NumberRun, NameRun, Numeral, IsSpace, IsNameChar, IsDigit, LevelOf, Show, Symbol, SignSymbol, Precedence;
    if rest != [] { StopChars(rest); }
    assert "" + rest == rest;
    match e
    case Lit(n, radix) => NumberReads(n, radix, rest);
    case CharLit(_) =>
    case Named(name) => NameRunAll(name, rest);
    case Un(op, arg) => ConcreteReads(arg, 3, rest);
    case Bin(op, left, right) =>
      var p := Precedence(op);
      var after := if level <= p then rest else [')'] + ("" + rest);
      InfixReads(op, right, after);
      ConcreteReads(left, p, [Symbol(op)] + ("" + (Show(Concrete(right, p + 1)) + after)));
      ConcreteReads(right, p + 1, after);
  }

  lemma InfixReads(op: Operator, right: Expr, after: string)
    ensures Stop([Symbol(op)] + ("" + (Show(Concrete(right, Precedence(op) + 1)) + after)))
    ensures Stop([')'] + after)
  {
    SymbolLevel(op);
  }

  // ---------------------------------------------------------------- values

  lemma ComputedFits(env: Registers, e: Expr)
    requires Valid(e)
    ensures var o := Computed(env, e); o.Value? ==> InWord(o.val)
  {
    hide Eval, Computed;
    ConcreteComputes(env, e, 0);
    ExprExact.EvalFits(env, Concrete(e, 0));
  }

  lemma {:induction false} ComputedMeans(env: Registers, e: Expr)
    requires Valid(e)
    ensures Means(env, e, Computed(env, e))
  {
    hide ApplyInfix, ApplyPrefix, S64, Symbol, SignSymbol, Denotes, SignDenotes, Congruent;
    match e
    case Un(op, arg) =>
      ComputedMeans(env, arg);
      var x := Computed(env, arg);
      if x.Value? { PrefixDenotes(op, x.val); }
    case Bin(op, left, right) =>
      ComputedMeans(env, left);
      ComputedMeans(env, right);
      var x, y := Computed(env, left), Computed(env, right);
      if x.Value? && y.Value? {
        ComputedFits(env, left);
        ComputedFits(env, right);
        InfixDenotes(op, x.val, y.val);
      }
    case _ =>
  }

  /** An expression comes to one thing. */
  lemma {:induction false} MeansUnique(env: Registers, e: Expr, o: Outcome, o': Outcome)
    requires Means(env, e, o) && Means(env, e, o')
    ensures o == o'
    decreases e
  {
    hide Combines, SignDenotes, Wrapped;
    match e
    case Lit(n, _) => if n < TWO64 { WrappedUnique(o, o', n); }
    case Un(op, arg) =>
      var x :| Means(env, arg, x) && if x.Bad? then o == x else SignDenotes(op, x.val, o);
      var x' :| Means(env, arg, x') && if x'.Bad? then o' == x' else SignDenotes(op, x'.val, o');
      MeansUnique(env, arg, x, x');
      if x.Value? { SignUnique(op, x.val, o, o'); }
    case Bin(op, left, right) =>
      var x, y :| Means(env, left, x) && Means(env, right, y) && Combines(op, x, y, o);
      var x', y' :| Means(env, left, x') && Means(env, right, y') && Combines(op, x', y', o');
      MeansUnique(env, left, x, x');
      MeansUnique(env, right, y, y');
      CombinesUnique(op, x, y, o, o');
    case _ =>
  }

  lemma CombinesUnique(op: Operator, x: Outcome, y: Outcome, o: Outcome, o': Outcome)
    requires Combines(op, x, y, o) && Combines(op, x, y, o')
    ensures o == o'
  {
    hide Denotes;
    if x.Value? && y.Value? { DenotesUnique(op, x.val, y.val, o, o'); }
  }

  /** The text of an expression evaluates to what it means and is used up, or stops at its first error; and to nothing
      else. */
  lemma PrintEvaluates(env: Registers, e: Expr, o: Outcome)
    requires Valid(e)
    ensures Means(env, e, o) <==> GetExpr(env, Print(e)) == if o.Bad? then Err(o.error) else Ok(o.val, [])
  {
    hide Means, Computed, Print;
    PrintComputes(env, e);
    ComputedMeans(env, e);
    if Means(env, e, o) { MeansUnique(env, e, o, Computed(env, e)); }
  }

  lemma PrintComputes(env: Registers, e: Expr)
    requires Valid(e)
    ensures var o := Computed(env, e); GetExpr(env, Print(e)) == if o.Bad? then Err(o.error) else Ok(o.val, [])
  {
    hide Show, Eval, Computed, Concrete, Parse, IsSpace;
    var t := Concrete(e, 0);
    ConcreteFits(e, 0);
    ConcreteComputes(env, e, 0);
    ConcreteReads(e, 0, []);
    ShowStarts(t, []);
    assert Show(t) + [] == Show(t);
    ParseTree(env, t, 0, []);
  }

  /** Division by zero, anywhere it is come to, is an error. */
  lemma DivisionByZeroIsError(env: Registers, op: Operator, left: Expr, right: Expr, x: int)
    requires Valid(Bin(op, left, right)) && (op.Div? || op.Mod?) && Means(env, left, Value(x)) && Means(env, right, Value(0))
    ensures GetExpr(env, Print(Bin(op, left, right))) == Err(DivisionByZero)
  {
    hide Print, GetExpr;
    assert Combines(op, Value(x), Value(0), Bad(DivisionByZero));
    assert Means(env, Bin(op, left, right), Bad(DivisionByZero));
    PrintEvaluates(env, Bin(op, left, right), Bad(DivisionByZero));
  }

  // ---------------------------------------------------------------- texts that are no expressions

  /** A parenthesis that is not closed. */
  lemma UnclosedParen(env: Registers, e: Expr, v: int)
    requires Valid(e) && Means(env, e, Value(v))
    ensures GetExpr(env, "(" + Print(e)) == Err(ParenExpected)
  {
    hide Means, Computed, Print, Parse, IsSpace;
    PrintEvaluates(env, e, Value(v));
    PrintStarts(e);
    var s := "(" + Print(e);
    assert !IsSpace('(') by { OpenIsNoSpace(); }
    assert s[1..] == Print(e) && Next(s) == Print(e);
    ParseParen(env, s);
  }

  lemma OpenIsNoSpace()
    ensures !IsSpace('(')
  {
  }

  lemma PrintStarts(e: Expr)
    requires Valid(e)
    ensures Print(e) != [] && !IsSpace(Print(e)[0])
  {
    hide Show, Concrete, IsSpace;
    ConcreteFits(e, 0);
    ConcreteReads(e, 0, []);
    ShowStarts(Concrete(e, 0), []);
  }

  /** What a text that starts with a parenthesis comes to if what is inside uses it up. */
  lemma ParseParen(env: Registers, s: string)
    requires s != [] && s[0] == '(' && Parse(env, Next(s), 0).Ok? && Parse(env, Next(s), 0).rest == []
    ensures Parse(env, s, 0) == Err(ParenExpected)
  {
    assert Unary(env, s) == Err(ParenExpected);
    assert Parse(env, s, 3) == Err(ParenExpected);
    assert Parse(env, s, 2) == Err(ParenExpected);
    assert Parse(env, s, 1) == Err(ParenExpected);
  }

  lemma ParseError(env: Registers, s: string, x: Error)
    requires Unary(env, s) == Err(x)
    ensures Parse(env, s, 0) == Err(x)
  {
    hide Unary;
    assert Parse(env, s, 3) == Err(x);
    assert Parse(env, s, 2) == Err(x);
    assert Parse(env, s, 1) == Err(x);
  }

  /** Nothing but space, a quote with no character, a character with no second quote, and a character that starts no
      expression. */
  lemma Malformed(env: Registers, s: string, c: char, d: char)
    ensures SkipSpace(s) == [] ==> GetExpr(env, s) == Err(UnexpectedEnd)
    ensures GetExpr(env, "'") == Err(CharExpected)
    ensures GetExpr(env, ['\'', c]) == Err(QuoteMissing)
    ensures d != '\'' ==> GetExpr(env, ['\'', c, d] + s) == Err(QuoteMissing)
    ensures !IsSpace(d) && !IsDigit(d, 10) && d !in "+-~('$" ==> GetExpr(env, [d] + s) == Err(InvalidChar)
  {
    if SkipSpace(s) == [] { ParseError(env, [], UnexpectedEnd); }
    ParseError(env, "'", CharExpected);
    ParseError(env, ['\'', c], QuoteMissing);
    if d != '\'' { ParseError(env, ['\'', c, d] + s, QuoteMissing); }
    if !IsSpace(d) && !IsDigit(d, 10) && d !in "+-~('$" {
      NoNumber(d, s);
      ParseError(env, [d] + s, InvalidChar);
    }
  }

  lemma NoNumber(d: char, s: string)
    requires !IsDigit(d, 10)
    ensures NumberRun([d] + s) == 0
  {
    var t := [d] + s;
    assert t[0..] == t;
  }

  // ---------------------------------------------------------------- wrap-around

  /** Sums, differences, products and prefix operators, over literals that fit and registers there are. */
  predicate Ring(env: Registers, e: Expr) {
    match e
    case Lit(n, _) => n < TWO64
    case CharLit(_) => true
    case Named(name) => env(Buffered(name)).Some?
    case Un(_, arg) => Ring(env, arg)
    case Bin(op, left, right) => (op.Add? || op.Sub? || op.Mul?) && Ring(env, left) && Ring(env, right)
  }

  /** The value without a word size. */
  function Exact(env: Registers, e: Expr): int
    requires Ring(env, e)
  {
    match e
    case Lit(n, _) => n
    case CharLit(c) => c as int
    case Named(name) => env(Buffered(name)).value
    case Un(op, arg) =>
      var x := Exact(env, arg);
      (match op case Plus => x case Minus => -x case Not => -x - 1)
    case Bin(op, left, right) =>
      var x, y := Exact(env, left), Exact(env, right);
      if op == Mul then x * y else if op == Add then x + y else x - y
  }

  lemma UnWraps(op: Sign, v: int, x: int)
    requires v == S64(x)
    ensures ApplyPrefix(SignSymbol(op), v) == S64(match op case Plus => x case Minus => -x case Not => -x - 1)
  {
    CongruentRefl(0);
    CongruentRefl(-1);
    CongruentSub(0, 0, v, x);
    CongruentSub(-1, -1, v, x);
    WrapsSame(-v, -x);
    WrapsSame(-v - 1, -x - 1);
  }

  lemma WrapsSame(v: int, x: int)
    requires Congruent(v, x)
    ensures S64(v) == S64(x)
  {
    CongruentTrans(S64(v), v, x);
    S64Unique(S64(v), x);
  }

  lemma BinWraps(op: Operator, v: int, x: int, w: int, y: int)
    requires (op.Add? || op.Sub? || op.Mul?) && v == S64(x) && w == S64(y)
    ensures ApplyInfix(Symbol(op), v, w) == Value(S64(if op == Mul then x * y else if op == Add then x + y else x - y))
  {
    CongruentSum(v, x, w, y);
    CongruentSub(v, x, w, y);
    CongruentProduct(v, x, w, y);
    WrapsSame(if op == Mul then v * w else if op == Add then v + w else v - w,
              if op == Mul then x * y else if op == Add then x + y else x - y);
  }

  lemma {:induction false} ComputedWraps(env: Registers, e: Expr)
    requires Ring(env, e)
    ensures Computed(env, e) == Value(S64(Exact(env, e)))
  {
    hide S64, ApplyPrefix, ApplyInfix, Symbol, SignSymbol;
    match e
    case Lit(_, _) =>
    case CharLit(c) => S64Small(c as int);
    case Named(name) => S64Small(env(Buffered(name)).value);
    case Un(op, arg) =>
      ComputedWraps(env, arg);
      UnWraps(op, S64(Exact(env, arg)), Exact(env, arg));
    case Bin(op, left, right) =>
      ComputedWraps(env, left);
      ComputedWraps(env, right);
      BinWraps(op, S64(Exact(env, left)), Exact(env, left), S64(Exact(env, right)), Exact(env, right));
  }

  /** Wrapping at every step is wrapping once at the end. */
  lemma MeaningWraps(env: Registers, e: Expr, o: Outcome)
    requires Valid(e) && Ring(env, e)
    ensures Means(env, e, o) <==> Wrapped(o, Exact(env, e))
  {
    hide Means, Computed, Ring, Exact;
    ComputedWraps(env, e);
    ComputedMeans(env, e);
    if Means(env, e, o) { MeansUnique(env, e, o, Computed(env, e)); }
    if Wrapped(o, Exact(env, e)) { WrappedUnique(o, Computed(env, e), Exact(env, e)); }
  }
}
