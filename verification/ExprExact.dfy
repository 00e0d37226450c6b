/** The converse of reading trees as themselves: what the evaluator accepts spells a tree. Together they say
    exactly which texts have which value. */
module ExprExact {
  import opened Words
  import opened Wrappers
  import opened ExprParser
  import opened ExprTrees
  import opened ExprOperators

  /** The text is this tree of the level, and then `rest`, at which the level stops. */
  predicate Spells(t: Tree, level: nat, s: string, rest: string) {
    Fits(t, level) && Reads(t, rest) && Show(t) + rest == s && NoTighter(rest, level) && (level < 3 ==> !At(rest, level))
  }

  lemma {:induction false} SpaceSkipped(s: string) returns (ws: string)
    ensures s == ws + SkipSpace(s) && Spaces(ws) && NoSpace(SkipSpace(s))
  {
    if s != [] && IsSpace(s[0]) {
      var more := SpaceSkipped(s[1..]);
      ws := [s[0]] + more;
    } else {
      ws := [];
    }
  }

  lemma NextSkipped(s: string) returns (ws: string)
    requires s != []
    ensures s == [s[0]] + (ws + Next(s)) && Spaces(ws) && NoSpace(Next(s))
  {
    ws := SpaceSkipped(s[1..]);
  }

  lemma NumberSound(env: Registers, s: string) returns (t: Tree)
    requires s != [] && s[0] !in "+-~('$" && NumberRun(s) > 0 && NumberAt(s) < TWO64
    ensures var rest := SkipSpace(s[NumberRun(s)..]);
            Spells(t, 3, s, rest) && Eval(env, t) == Value(S64(NumberAt(s)))
  {
    hide NumberRun, NumberAt, SkipSpace, S64;
    var n := NumberRun(s);
    var text := s[..n];
    var ws := SpaceSkipped(s[n..]);
    var rest := SkipSpace(s[n..]);
    assert text + (ws + rest) == s;
    NumberToken(text, ws + rest);
    t := Number(text, ws);
  }

  lemma CharSound(env: Registers, s: string) returns (t: Tree)
    requires |s| >= 3 && s[0] == '\'' && s[2] == '\''
    ensures Spells(t, 3, s, Next(s[2..])) && Eval(env, t) == Value(s[1] as int)
  {
    hide Next;
    var ws := NextSkipped(s[2..]);
    t := Char(s[1], ws);
    assert Show(t) + Next(s[2..]) == ['\'', s[1]] + s[2..];
  }

  lemma RegisterSound(env: Registers, s: string) returns (t: Tree)
    requires s != [] && s[0] == '$' && env(Buffered(s[1..][..NameRun(s[1..])])).Some?
    ensures var n := NameRun(s[1..]);
            Spells(t, 3, s, SkipSpace(s[1..][n..])) && Eval(env, t) == Value(env(Buffered(s[1..][..n])).value)
  {
    hide NameRun, SkipSpace, Buffered;
    var u := s[1..];
    var n := NameRun(u);
    var ws := SpaceSkipped(u[n..]);
    t := Register(u[..n], ws);
    assert u[..n] + (ws + SkipSpace(u[n..])) == u;
    assert Show(t) + SkipSpace(u[n..]) == [s[0]] + u;
  }

  lemma PrefixSound(env: Registers, s: string, arg: Tree, v: int, rest: string) returns (t: Tree)
    requires s != [] && s[0] in "+-~" && Spells(arg, 3, Next(s), rest) && Eval(env, arg) == Value(v)
    ensures Spells(t, 3, s, rest) && Eval(env, t) == Value(ApplyPrefix(s[0], v))
  {
    hide Next, ApplyPrefix, NumberRun, NameRun;
    var ws := NextSkipped(s);
    t := Prefix(s[0], ws, arg);
    ShowPrefix(s[0], ws, arg, rest);
  }

  lemma ParenSound(env: Registers, s: string, inner: Tree, v: int, more: string) returns (t: Tree)
    requires s != [] && s[0] == '(' && Spells(inner, 0, Next(s), more) && Eval(env, inner) == Value(v)
    requires more != [] && more[0] == ')'
    ensures Spells(t, 3, s, Next(more)) && Eval(env, t) == Value(v)
  {
    hide Next, NumberRun, NameRun, Eval, Show;
    var open := NextSkipped(s);
    var close := NextSkipped(more);
    t := Paren(open, inner, close);
    ShowParen(open, inner, close, Next(more));
    EvalParen(env, open, inner, close);
  }

  lemma InfixSound(env: Registers, left: Tree, x: int, s: string, level: nat, right: Tree, y: int, rest: string, v: int) returns (t: Tree)
    requires level < 3 && At(s, level) && Fits(left, level) && Reads(left, s) && Eval(env, left) == Value(x)
    requires Spells(right, level + 1, Next(s), rest) && Eval(env, right) == Value(y) && ApplyInfix(s[0], x, y) == Value(v)
    ensures Fits(t, level) && Reads(t, rest) && Show(t) + rest == Show(left) + s && Eval(env, t) == Value(v)
  {
    hide Next, NumberRun, NameRun, Show, ApplyInfix;
    var ws := NextSkipped(s);
    t := Infix(left, s[0], ws, right);
    ShowInfix(left, s[0], ws, right, rest);
  }

  lemma {:induction false} UnarySound(env: Registers, s: string) returns (t: Tree)
    requires Unary(env, s).Ok?
    ensures Spells(t, 3, s, Unary(env, s).rest) && Eval(env, t) == Value(Unary(env, s).val)
    decreases |s|, 0
  {
    hide Spells, Eval, Parse, NumberRun, NumberAt, NameRun, SkipSpace, Buffered, S64, ApplyPrefix;
    if s[0] in "+-~" {
      var r := Unary(env, Next(s));
      var arg := UnarySound(env, Next(s));
      t := PrefixSound(env, s, arg, r.val, r.rest);
    } else if s[0] == '(' {
      var r := Parse(env, Next(s), 0);
      var inner := ParseSound(env, Next(s), 0);
      t := ParenSound(env, s, inner, r.val, r.rest);
    } else if s[0] == '\'' {
      t := CharSound(env, s);
    } else if s[0] == '$' {
      t := RegisterSound(env, s);
    } else {
      t := NumberSound(env, s);
    }
  }

  lemma {:induction false} ParseSound(env: Registers, s: string, level: nat) returns (t: Tree)
    requires level <= 3 && Parse(env, s, level).Ok?
    ensures Spells(t, level, s, Parse(env, s, level).rest) && Eval(env, t) == Value(Parse(env, s, level).val)
    decreases |s|, 4 - level, 1
  {
    hide Eval, Unary, Tail, Show, Reads;
    if level == 3 {
      t := UnarySound(env, s);
    } else {
      var r := Parse(env, s, level + 1);
      var left := ParseSound(env, s, level + 1);
      FitsDown(left, level);
      t := TailSound(env, left, r.val, r.rest, level);
    }
  }

  lemma FitsDown(t: Tree, level: nat)
    requires Fits(t, level + 1)
    ensures Fits(t, level)
  {
  }

  lemma {:induction false} TailSound(env: Registers, left: Tree, val: int, s: string, level: nat) returns (t: Tree)
    requires level < 3 && Fits(left, level) && Reads(left, s) && Eval(env, left) == Value(val) && NoTighter(s, level)
    requires Tail(env, val, s, level).Ok?
    ensures Spells(t, level, Show(left) + s, Tail(env, val, s, level).rest) && Eval(env, t) == Value(Tail(env, val, s, level).val)
    decreases |s|, 4 - level, 0
  {
    hide Eval, Unary, Show, Reads, Parse, ApplyInfix;
    if !At(s, level) {
      t := left;
    } else {
      var p := Parse(env, Next(s), level + 1);
      var o := ApplyInfix(s[0], val, p.val);
      var right := ParseSound(env, Next(s), level + 1);
      var both := InfixSound(env, left, val, s, level, right, p.val, p.rest, o.val);
      t := TailSound(env, both, o.val, p.rest, level);
    }
  }

  /** A text has a value, with a rest that no operator goes on from, exactly when it spells a tree with that
      value before that rest. */
  lemma AcceptsExactly(env: Registers, s: string, v: int, rest: string)
    ensures Parse(env, s, 0) == Ok(v, rest) <==> exists t :: Spells(t, 0, s, rest) && Eval(env, t) == Value(v)
  {
    if Parse(env, s, 0) == Ok(v, rest) {
      var t := ParseSound(env, s, 0);
      assert Spells(t, 0, s, rest) && Eval(env, t) == Value(v);
    }
    if t :| Spells(t, 0, s, rest) && Eval(env, t) == Value(v) {
      ParseTree(env, t, 0, rest);
    }
  }

  lemma InfixFits(op: char, x: int, y: int)
    requires -TWO63 <= x < TWO63 && -TWO63 <= y < TWO63 && ApplyInfix(op, x, y).Value?
    ensures -TWO63 <= ApplyInfix(op, x, y).val < TWO63
  {
    hide S64, Bitwise, Quotient, Remainder;
    if op == '/' || op == '%' { QuotientFits(x, y); }
  }

  /** Every value is one of 64 bits. */
  lemma {:induction false} EvalFits(env: Registers, t: Tree)
    ensures var o := Eval(env, t); o.Value? ==> -TWO63 <= o.val < TWO63
  {
    hide ApplyInfix, S64, NumberAt, Buffered;
    match t
    case Prefix(op, _, arg) => EvalFits(env, arg);
    case Paren(open, inner, close) =>
      EvalFits(env, inner);
      EvalParen(env, open, inner, close);
    case Infix(left, op, _, right) =>
      EvalFits(env, left);
      EvalFits(env, right);
      var x, y := Eval(env, left), Eval(env, right);
      if x.Value? && y.Value? && ApplyInfix(op, x.val, y.val).Value? { InfixFits(op, x.val, y.val); }
    case _ =>
  }

  lemma ValueFits(env: Registers, s: string)
    requires Parse(env, s, 0).Ok?
    ensures -TWO63 <= Parse(env, s, 0).val < TWO63
  {
    hide Parse, Spells, Eval;
    var t := ParseSound(env, s, 0);
    EvalFits(env, t);
  }
}
