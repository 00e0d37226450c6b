/** What the evaluator accepts and what it makes of it: a text is accepted exactly when it spells a tree of
    the grammar, and the value is the tree's. */
module ExprTrees {
  import opened Words
  import opened Wrappers
  import opened ExprParser

  /** Expressions as they are written, with the space after each token. */
  datatype Tree =
    | Number(text: string, ws: string)
    | Char(c: char, ws: string)
    | Register(name: string, ws: string)
    | Prefix(op: char, ws: string, arg: Tree)
    | Paren(open: string, inner: Tree, close: string)
    | Infix(left: Tree, op: char, ws: string, right: Tree)

  function Show(t: Tree): (s: string)
    ensures |s| > 0 || t.Number?
  {
    match t
    case Number(text, ws) => text + ws
    case Char(c, ws) => ['\'', c, '\''] + ws
    case Register(name, ws) => ['$'] + name + ws
    case Prefix(op, ws, arg) => [op] + ws + Show(arg)
    case Paren(open, inner, close) => ['('] + open + Show(inner) + [')'] + close
    case Infix(left, op, ws, right) => Show(left) + [op] + ws + Show(right)
  }

  /** The value of a tree, or the first error on the way from left to right. */
  function Eval(env: Registers, t: Tree): Outcome {
    match t
    case Number(text, _) => if NumberAt(text) < TWO64 then Value(S64(NumberAt(text))) else Bad(NumberTooLarge)
    case Char(c, _) => Value(c as int)
    case Register(name, _) => (match env(Buffered(name)) case None => Bad(UnknownRegister) case Some(v) => Value(v))
    case Prefix(op, _, arg) => (match Eval(env, arg) case Bad(e) => Bad(e) case Value(v) => Value(ApplyPrefix(op, v)))
    case Paren(_, inner, _) => Eval(env, inner)
    case Infix(left, op, _, right) =>
      match Eval(env, left)
      case Bad(e) => Bad(e)
      case Value(x) => match Eval(env, right) case Bad(e) => Bad(e) case Value(y) => ApplyInfix(op, x, y)
  }

  predicate Spaces(s: string) {
    forall i :: 0 <= i < |s| ==> IsSpace(s[i])
  }

  predicate NoSpace(s: string) {
    s == [] || !IsSpace(s[0])
  }

  /** The tree is of this level of the grammar: operators associate to the left, and bind as their levels
      say. */
  predicate Fits(t: Tree, level: nat) {
    match t
    case Number(_, _) => true
    case Char(_, _) => true
    case Register(_, _) => true
    case Prefix(op, _, arg) => op in "+-~" && Fits(arg, 3)
    case Paren(_, inner, _) => Fits(inner, 0)
    case Infix(left, op, _, right) => level <= LevelOf(op) < 3 && Fits(left, LevelOf(op)) && Fits(right, LevelOf(op) + 1)
  }

  /** Each token ends where it does, when `rest` follows the tree, and all space is after tokens. */
  predicate Reads(t: Tree, rest: string) {
    NoSpace(rest) &&
    match t
    case Number(text, ws) => text != [] && text[0] !in "+-~('$" && Spaces(ws) && NumberRun(text + (ws + rest)) == |text|
    case Char(_, ws) => Spaces(ws)
    case Register(name, ws) => Spaces(ws) && NameRun(name + (ws + rest)) == |name|
    case Prefix(_, ws, arg) => Spaces(ws) && Reads(arg, rest)
    case Paren(open, inner, close) => Spaces(open) && Spaces(close) && Reads(inner, [')'] + (close + rest))
    case Infix(left, op, ws, right) => Spaces(ws) && Reads(left, [op] + (ws + (Show(right) + rest))) && Reads(right, rest)
  }

  // ---------------------------------------------------------------- tokens

  lemma {:induction false} SkipSpaces(ws: string, rest: string)
    requires Spaces(ws) && NoSpace(rest)
    ensures SkipSpace(ws + rest) == rest
  {
    if ws == [] {
      assert ws + rest == rest;
    } else {
      assert (ws + rest)[1..] == ws[1..] + rest;
      SkipSpaces(ws[1..], rest);
    }
  }

  lemma NextSkips(c: char, ws: string, rest: string)
    requires Spaces(ws) && NoSpace(rest)
    ensures Next([c] + (ws + rest)) == rest
  {
    assert ([c] + (ws + rest))[1..] == ws + rest;
    SkipSpaces(ws, rest);
  }

  /** A tree starts with a token. */
  lemma {:induction false} ShowStarts(t: Tree, rest: string)
    requires Fits(t, 0) && Reads(t, rest)
    ensures Show(t) != [] && !IsSpace(Show(t)[0])
  {
    match t
    case Number(text, ws) => DigitsNoSpace(text, ws + rest);
    case Infix(left, op, ws, right) =>
      FitsLower(left, LevelOf(op));
      ShowStarts(left, [op] + (ws + (Show(right) + rest)));
    case _ =>
  }

  lemma {:induction false} FitsLower(t: Tree, level: nat)
    requires Fits(t, level)
    ensures Fits(t, 0)
  {
  }

  /** A number starts with a digit. */
  lemma DigitsNoSpace(text: string, more: string)
    requires text != [] && NumberRun(text + more) == |text|
    ensures IsDigit(text[0], 16) && !IsSpace(text[0])
  {
    var s := text + more;
    assert s[0] == text[0];
  }

  lemma {:induction false} DigitRunExact(a: string, b: string, base: nat)
    requires DigitRun(a + b, base) == |a|
    ensures DigitRun(a, base) == |a|
  {
    hide IsDigit;
    if a != [] {
      assert (a + b)[1..] == a[1..] + b;
      DigitRunExact(a[1..], b, base);
    }
  }

  /** A number that ends where it does has the value of its text. */
  lemma NumberToken(text: string, more: string)
    requires text != [] && NumberRun(text + more) == |text|
    ensures NumberAt(text + more) == NumberAt(text) && NumberRun(text) == |text| && (text + more)[|text|..] == more
  {
    hide IsDigit, ValueOf;
    var s := text + more;
    var base, n := BaseOf(s), PrefixOf(s);
    assert s[0] == text[0];
    assert base == 16 ==> |text| >= 3 by {
      if base == 16 { assert IsDigit(s[2..][0], 16); }
    }
    assert |text| >= 3 ==> s[1] == text[1] && s[2] == text[2];
    assert BaseOf(text) == base;
    assert s[n..] == text[n..] + more;
    DigitRunExact(text[n..], more, base);
    assert s[n..][..|text| - n] == text[n..] == text[n..][..|text| - n];
  }

  // ---------------------------------------------------------------- completeness

  /** Where a level of the grammar goes from the value of its first operand. */
  function Then(env: Registers, o: Outcome, rest: string, level: nat): Result
    requires level <= 3
  {
    match o
    case Bad(e) => Err(e)
    case Value(v) => if level == 3 then Ok(v, rest) else Tail(env, v, rest, level)
  }

  /** No operator that binds tighter comes next. */
  predicate NoTighter(rest: string, level: nat) {
    rest == [] || LevelOf(rest[0]) <= level || LevelOf(rest[0]) == 3
  }

  lemma UnaryNumber(env: Registers, text: string, ws: string, rest: string)
    requires Reads(Number(text, ws), rest)
    ensures Unary(env, Show(Number(text, ws)) + rest) == Then(env, Eval(env, Number(text, ws)), rest, 3)
  {
    hide NumberRun, NumberAt, SkipSpace, S64, Parse, Next;
    var s := Show(Number(text, ws)) + rest;
    assert s == text + (ws + rest);
    NumberToken(text, ws + rest);
    SkipSpaces(ws, rest);
  }

  lemma UnaryChar(env: Registers, c: char, ws: string, rest: string)
    requires Reads(Char(c, ws), rest)
    ensures Unary(env, Show(Char(c, ws)) + rest) == Then(env, Eval(env, Char(c, ws)), rest, 3)
  {
    hide Parse, Next;
    var s := Show(Char(c, ws)) + rest;
    assert s[2..] == ['\''] + (ws + rest);
    NextSkips('\'', ws, rest);
  }

  lemma UnaryRegister(env: Registers, name: string, ws: string, rest: string)
    requires Reads(Register(name, ws), rest)
    ensures Unary(env, Show(Register(name, ws)) + rest) == Then(env, Eval(env, Register(name, ws)), rest, 3)
  {
    hide NameRun, SkipSpace, Buffered, Parse, Next;
    var s := Show(Register(name, ws)) + rest;
    assert s[1..] == name + (ws + rest);
    assert s[1..][..|name|] == name && s[1..][|name|..] == ws + rest;
    SkipSpaces(ws, rest);
  }

  lemma PrefixStep(env: Registers, s: string)
    requires s != [] && s[0] in "+-~"
    ensures Unary(env, s) ==
            match Unary(env, Next(s)) case Ok(v, rest) => Ok(ApplyPrefix(s[0], v), rest) case Err(e) => Err(e)
  {
    hide Next, ApplyPrefix, Parse, NumberRun, NumberAt;
  }

  lemma ShowPrefix(op: char, ws: string, arg: Tree, rest: string)
    ensures Show(Prefix(op, ws, arg)) + rest == [op] + (ws + (Show(arg) + rest))
  {
  }

  lemma UnaryPrefix(env: Registers, op: char, ws: string, arg: Tree, rest: string)
    requires op in "+-~" && Spaces(ws) && NoSpace(Show(arg) + rest)
    requires Unary(env, Show(arg) + rest) == Then(env, Eval(env, arg), rest, 3)
    ensures Unary(env, Show(Prefix(op, ws, arg)) + rest) == Then(env, Eval(env, Prefix(op, ws, arg)), rest, 3)
  {
    hide Unary, Next, ApplyPrefix, Spaces, NoSpace, Show;
    var s := [op] + (ws + (Show(arg) + rest));
    ShowPrefix(op, ws, arg, rest);
    NextSkips(op, ws, Show(arg) + rest);
    PrefixStep(env, s);
  }

  lemma ParenStep(env: Registers, s: string)
    requires s != [] && s[0] == '('
    ensures Unary(env, s) ==
            match Parse(env, Next(s), 0)
            case Ok(v, rest) => if rest != [] && rest[0] == ')' then Ok(v, Next(rest)) else Err(ParenExpected)
            case Err(e) => Err(e)
  {
    hide Next, Parse, NumberRun, NumberAt;
  }

  lemma ShowParen(open: string, inner: Tree, close: string, rest: string)
    ensures Show(Paren(open, inner, close)) + rest == ['('] + (open + (Show(inner) + ([')'] + (close + rest))))
  {
  }

  lemma UnaryParen(env: Registers, open: string, inner: Tree, close: string, rest: string)
    requires Spaces(open) && Spaces(close) && NoSpace(rest)
    requires var more := [')'] + (close + rest);
             NoSpace(Show(inner) + more) && Parse(env, Show(inner) + more, 0) == Then(env, Eval(env, inner), more, 0)
    ensures Unary(env, Show(Paren(open, inner, close)) + rest) == Then(env, Eval(env, inner), rest, 3)
  {
    hide Unary, Next, Parse, Spaces, NoSpace, Eval, Show;
    var more := [')'] + (close + rest);
    var s := ['('] + (open + (Show(inner) + more));
    ShowParen(open, inner, close, rest);
    NextSkips('(', open, Show(inner) + more);
    NextSkips(')', close, rest);
    ParenStep(env, s);
  }

  lemma ShowInfix(left: Tree, op: char, ws: string, right: Tree, rest: string)
    ensures Show(Infix(left, op, ws, right)) + rest == Show(left) + ([op] + (ws + (Show(right) + rest)))
  {
  }

  lemma TailStep(env: Registers, val: int, s: string, level: nat)
    requires level < 3 && At(s, level)
    ensures var p := Parse(env, Next(s), level + 1);
            if p.Err? then Tail(env, val, s, level) == p
            else
              var o := ApplyInfix(s[0], val, p.val);
              Tail(env, val, s, level) == if o.Bad? then Err(o.error) else Tail(env, o.val, p.rest, level)
  {
    hide Parse, Next, ApplyInfix;
  }

  /** With no tighter operator next, the level above is done with its operand. */
  lemma ThenDone(env: Registers, o: Outcome, rest: string, level: nat)
    requires level < 3 && NoTighter(rest, level)
    ensures Then(env, o, rest, level + 1) == if o.Bad? then Err(o.error) else Ok(o.val, rest)
  {
    hide Parse, Next, ApplyInfix;
  }

  lemma Descend(env: Registers, s: string, o: Outcome, rest: string, level: nat)
    requires level < 3 && NoTighter(rest, level) && Parse(env, s, level + 1) == Then(env, o, rest, level + 1)
    ensures Parse(env, s, level) == Then(env, o, rest, level)
  {
    hide Unary, Tail, NoTighter;
    ThenDone(env, o, rest, level);
  }

  lemma ParseInfix(env: Registers, left: Tree, op: char, ws: string, right: Tree, rest: string, level: nat)
    requires level == LevelOf(op) < 3 && Spaces(ws) && NoSpace(Show(right) + rest) && NoTighter(rest, level)
    requires var more := [op] + (ws + (Show(right) + rest)); Parse(env, Show(left) + more, level) == Then(env, Eval(env, left), more, level)
    requires Parse(env, Show(right) + rest, level + 1) == Then(env, Eval(env, right), rest, level + 1)
    ensures Parse(env, Show(Infix(left, op, ws, right)) + rest, level) == Then(env, Eval(env, Infix(left, op, ws, right)), rest, level)
  {
    hide Parse, Tail, Next, ApplyInfix, Spaces, NoSpace, Show, LevelOf, NoTighter;
    var more := [op] + (ws + (Show(right) + rest));
    ShowInfix(left, op, ws, right, rest);
    NextSkips(op, ws, Show(right) + rest);
    ThenDone(env, Eval(env, right), rest, level);
    if Eval(env, left).Value? {
      TailStep(env, Eval(env, left).val, more, level);
    }
  }

  /** Every tree of the grammar is read as itself: from its text the evaluator comes to its value, or to its
      first error, and goes on with what follows. */
  lemma {:induction false} ParseTree(env: Registers, t: Tree, level: nat, rest: string)
    requires level <= 3 && Fits(t, level) && Reads(t, rest) && NoTighter(rest, level)
    ensures Parse(env, Show(t) + rest, level) == Then(env, Eval(env, t), rest, level)
    decreases t, 3 - level
  {
    hide Parse, Then, Eval, Show, IsSpace, Spaces, NoTighter, LevelOf;
    if t.Infix? && LevelOf(t.op) == level {
      var more := [t.op] + (t.ws + (Show(t.right) + rest));
      FitsLower(t.right, level + 1);
      ShowStarts(t.right, rest);
      NoTighterAt(t.op, t.ws + (Show(t.right) + rest), rest, level);
      ParseTree(env, t.left, level, more);
      ParseTree(env, t.right, level + 1, rest);
      ParseInfix(env, t.left, t.op, t.ws, t.right, rest, level);
    } else if level < 3 {
      FitsHigher(t, level);
      NoTighterHigher(rest, level);
      ParseTree(env, t, level + 1, rest);
      Descend(env, Show(t) + rest, Eval(env, t), rest, level);
    } else {
      ParseUnary(env, Show(t) + rest);
      match t
      case Prefix(op, ws, arg) =>
        FitsLower(arg, 3);
        ShowStarts(arg, rest);
        ParseTree(env, arg, 3, rest);
        ParseUnary(env, Show(arg) + rest);
        UnaryPrefix(env, op, ws, arg, rest);
      case Paren(open, inner, close) =>
        var more := [')'] + (close + rest);
        ShowStarts(inner, more);
        NoTighterAtParen(close + rest);
        ParseTree(env, inner, 0, more);
        UnaryParen(env, open, inner, close, rest);
        EvalParen(env, open, inner, close);
      case Number(text, ws) => UnaryNumber(env, text, ws, rest);
      case Char(c, ws) => UnaryChar(env, c, ws, rest);
      case Register(name, ws) => UnaryRegister(env, name, ws, rest);
    }
  }

  lemma ParseUnary(env: Registers, s: string)
    ensures Parse(env, s, 3) == Unary(env, s)
  {
  }

  lemma NoTighterAt(op: char, more: string, rest: string, level: nat)
    requires level == LevelOf(op) < 3 && NoTighter(rest, level)
    ensures NoTighter([op] + more, level) && NoTighter(rest, level + 1) && !IsSpace(op)
  {
  }

  lemma NoTighterAtParen(more: string)
    ensures NoTighter([')'] + more, 0)
  {
  }

  lemma NoTighterHigher(rest: string, level: nat)
    requires NoTighter(rest, level)
    ensures NoTighter(rest, level + 1)
  {
  }

  lemma FitsHigher(t: Tree, level: nat)
    requires level < 3 && Fits(t, level) && !(t.Infix? && LevelOf(t.op) == level)
    ensures Fits(t, level + 1)
  {
  }

  lemma EvalParen(env: Registers, open: string, inner: Tree, close: string)
    ensures Eval(env, Paren(open, inner, close)) == Eval(env, inner)
  {
    hide ApplyInfix, ApplyPrefix, NumberAt;
  }
}
