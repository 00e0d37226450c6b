/** The monitor's expression evaluator as a function of the text: 64-bit values, and for each place in the
    text either a value and the rest of it, or an error. */
module ExprParser {
  import opened Words
  import opened Wrappers

  datatype Error =
    | ParenExpected | CharExpected | QuoteMissing | UnknownRegister | UnexpectedEnd | NumberTooLarge | InvalidChar
    | DivisionByZero
    | Trap            // the quotient does not exist in 64 bits: no error of the evaluator, but of the processor

  datatype Outcome = Value(val: int) | Bad(error: Error)

  datatype Result = Ok(val: int, rest: string) | Err(error: Error)

  /** get_monitor_def: the registers that have names. */
  type Registers = string -> Option<Int64>

  // ---------------------------------------------------------------- tokens

  predicate IsSpace(c: char) {
    c in " \t\n\r" || c == '\U{0B}' || c == '\U{0C}'
  }

  function SkipSpace(s: string): (r: string)
    ensures |r| <= |s|
  {
    if s != [] && IsSpace(s[0]) then SkipSpace(s[1..]) else s
  }

  /** next(), when not at the end. */
  function Next(s: string): (r: string)
    requires s != []
    ensures |r| < |s|
  {
    SkipSpace(s[1..])
  }

  predicate IsNameChar(c: char) {
    'a' <= c <= 'z' || 'A' <= c <= 'Z' || '0' <= c <= '9' || c == '_' || c == '.'
  }

  /** How many characters of a register's name there are. */
  function NameRun(s: string): (n: nat)
    ensures n <= |s|
  {
    if s != [] && IsNameChar(s[0]) then 1 + NameRun(s[1..]) else 0
  }

  /** What the buffer holds of it. */
  function Buffered(name: string): string {
    if |name| <= 127 then name else name[..127]
  }

  function DigitOf(c: char): int {
    if '0' <= c <= '9' then c as int - '0' as int
    else if 'a' <= c <= 'f' then c as int - 'a' as int + 10
    else if 'A' <= c <= 'F' then c as int - 'A' as int + 10
    else -1
  }

  predicate IsDigit(c: char, base: nat) {
    0 <= DigitOf(c) < base
  }

  function DigitRun(s: string, base: nat): (n: nat)
    ensures n <= |s|
  {
    if s != [] && IsDigit(s[0], base) then 1 + DigitRun(s[1..], base) else 0
  }

  function ValueOf(s: string, base: nat): nat
    requires forall i :: 0 <= i < |s| ==> IsDigit(s[i], base)
  {
    if s == [] then 0 else Shifted(ValueOf(s[..|s| - 1], base), base, s[|s| - 1])
  }

  function Shifted(high: nat, base: nat, c: char): nat
    requires IsDigit(c, base)
  {
    high * base + DigitOf(c)
  }

  /** The base that strtoull with base 0 takes: 16 only if a digit follows the prefix. */
  function BaseOf(s: string): nat {
    if |s| >= 3 && s[0] == '0' && s[1] in "xX" && IsDigit(s[2], 16) then 16
    else if s != [] && s[0] == '0' then 8
    else 10
  }

  function PrefixOf(s: string): (n: nat)
    ensures n <= |s|
  {
    if BaseOf(s) == 16 then 2 else 0
  }

  /** How far strtoull gets; not at all if there is no digit. */
  function NumberRun(s: string): (n: nat)
    ensures n <= |s|
  {
    PrefixOf(s) + DigitRun(s[PrefixOf(s)..], BaseOf(s))
  }

  lemma {:induction false} RunIsDigits(s: string, base: nat)
    ensures forall i :: 0 <= i < DigitRun(s, base) ==> IsDigit(s[i], base)
  {
    if s != [] && IsDigit(s[0], base) {
      RunIsDigits(s[1..], base);
      forall i | 0 <= i < DigitRun(s, base) ensures IsDigit(s[i], base) {
        if i > 0 { assert s[i] == s[1..][i - 1]; }
      }
    }
  }

  function NumberAt(s: string): nat {
    RunIsDigits(s[PrefixOf(s)..], BaseOf(s));
    ValueOf(s[PrefixOf(s)..][..DigitRun(s[PrefixOf(s)..], BaseOf(s))], BaseOf(s))
  }

  // ---------------------------------------------------------------- arithmetic

  /** The logical operators on one bit. */
  predicate Join(op: char, a: bool, b: bool) {
    if op == '&' then a && b else if op == '|' then a || b else a != b
  }

  /** And on the low `n` bits of two's complement, from the lowest up. */
  function Bitwise(op: char, x: int, y: int, n: nat): nat
    decreases n
  {
    if n == 0 then 0
    else 2 * Bitwise(op, x / 2, y / 2, n - 1) + if Join(op, x % 2 == 1, y % 2 == 1) then 1 else 0
  }

  /** C's division, which truncates. */
  function Quotient(x: int, y: int): int
    requires y != 0
  {
    var q := Magnitude(x) / Magnitude(y);
    if (x < 0) != (y < 0) then -q else q
  }

  function Remainder(x: int, y: int): int
    requires y != 0
  {
    var r := Magnitude(x) % Magnitude(y);
    if x < 0 then -r else r
  }

  function Magnitude(x: int): (m: nat)
    ensures x != 0 ==> m != 0
  {
    if x < 0 then -x else x
  }

  /** Quotient and remainder belong together, and the remainder has the sign of the dividend. */
  lemma DivisionLaw(x: int, y: int)
    requires y != 0
    ensures x == Quotient(x, y) * y + Remainder(x, y)
    ensures Magnitude(Remainder(x, y)) < Magnitude(y) && (Remainder(x, y) == 0 || (Remainder(x, y) < 0) == (x < 0))
  {
    var m: int, n: int := Magnitude(x), Magnitude(y);
    var q: int := m / n;
    EuclideanLaw(m, n);
    if x >= 0 {
      assert x == m && (if y < 0 then -q * y == q * n else q * y == q * n);
    } else {
      assert x == -m && (if y < 0 then q * y == -(q * n) else -q * y == -(q * n));
    }
  }

  lemma EuclideanLaw(m: nat, n: nat)
    requires n > 0
    ensures m == m / n * n + m % n && m % n < n
  {
  }

  /** The prefix operators. */
  function ApplyPrefix(op: char, x: int): int {
    if op == '-' then S64(-x) else if op == '~' then S64(-x - 1) else x
  }

  /** The infix operators: wrap-around, and signed division. */
  function ApplyInfix(op: char, x: int, y: int): Outcome {
    if op == '*' then Value(S64(x * y))
    else if op == '/' || op == '%' then
      if y == 0 then Bad(DivisionByZero)
      else if x == -TWO63 && y == -1 then Bad(Trap)
      else Value(if op == '/' then Quotient(x, y) else Remainder(x, y))
    else if op == '&' || op == '|' || op == '^' then Value(S64(Bitwise(op, x, y, 64)))
    else if op == '+' then Value(S64(x + y))
    else Value(S64(x - y))
  }

  // ---------------------------------------------------------------- grammar

  /** Levels of the grammar: 0 for sums, 1 for logic, 2 for products, 3 for what has no infix operator. */
  function LevelOf(op: char): nat {
    if op in "+-" then 0 else if op in "&|^" then 1 else if op in "*/%" then 2 else 3
  }

  predicate At(s: string, level: nat) {
    s != [] && LevelOf(s[0]) == level
  }

  /** expr_unary. */
  function Unary(env: Registers, s: string): (r: Result)
    ensures r.Ok? ==> |r.rest| < |s|
    decreases |s|, 0
  {
    if s == [] then Err(UnexpectedEnd)
    else if s[0] in "+-~" then
      match Unary(env, Next(s))
      case Ok(v, rest) => Ok(ApplyPrefix(s[0], v), rest)
      case Err(e) => Err(e)
    else if s[0] == '(' then
      match Parse(env, Next(s), 0)
      case Ok(v, rest) => if rest != [] && rest[0] == ')' then Ok(v, Next(rest)) else Err(ParenExpected)
      case Err(e) => Err(e)
    else if s[0] == '\'' then
      if |s| < 2 then Err(CharExpected)
      else if |s| < 3 || s[2] != '\'' then Err(QuoteMissing)
      else Ok(s[1] as int, Next(s[2..]))
    else if s[0] == '$' then
      var n := NameRun(s[1..]);
      match env(Buffered(s[1..][..n]))
      case None => Err(UnknownRegister)
      case Some(v) => Ok(v, SkipSpace(s[1..][n..]))
    else if NumberRun(s) == 0 then Err(InvalidChar)
    else if NumberAt(s) >= TWO64 then Err(NumberTooLarge)
    else Ok(S64(NumberAt(s)), SkipSpace(s[NumberRun(s)..]))
  }

  /** expr_sum, expr_logic and expr_prod, which differ in their operators and in the level below. */
  function Parse(env: Registers, s: string, level: nat): (r: Result)
    requires level <= 3
    ensures r.Ok? ==> |r.rest| < |s|
    decreases |s|, 4 - level, 1
  {
    if level == 3 then Unary(env, s)
    else
      match Parse(env, s, level + 1)
      case Ok(v, rest) => Tail(env, v, rest, level)
      case Err(e) => Err(e)
  }

  /** The loop of each level, with the value so far. */
  function Tail(env: Registers, val: int, s: string, level: nat): (r: Result)
    requires level < 3
    ensures r.Ok? ==> |r.rest| <= |s|
    decreases |s|, 4 - level, 0
  {
    if !At(s, level) then Ok(val, s)
    else
      match Parse(env, Next(s), level + 1)
      case Err(e) => Err(e)
      case Ok(val2, rest) =>
        match ApplyInfix(s[0], val, val2)
        case Bad(e) => Err(e)
        case Value(v) => Tail(env, v, rest, level)
  }

  /** get_expr, on text after which nothing need follow. */
  function GetExpr(env: Registers, s: string): Result {
    Parse(env, SkipSpace(s), 0)
  }
}
