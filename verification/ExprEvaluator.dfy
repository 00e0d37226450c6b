/** The evaluator in place: a position in the text that the recursive descent moves along. */
module ExprEvaluator {
  import opened Words
  import opened Wrappers
  import opened ExprParser
  import opened ExprTrees

  /** What the descent returns and leaves to read is what the text says. */
  predicate Gives(o: Outcome, rest: string, r: Result) {
    match r
    case Ok(v, left) => o == Value(v) && rest == left
    case Err(e) => o == Bad(e)
  }

  class Evaluator {
    const text: string
    const env: Registers
    var pch: nat

    constructor (text: string, env: Registers)
      ensures this.text == text && this.env == env && pch == 0
    {
      this.text, this.env, pch := text, env, 0;
    }

    ghost predicate Valid()
      reads this
    {
      pch <= |text|
    }

    ghost function Rest(): string
      requires Valid()
      reads this
    {
      text[pch..]
    }

    method SkipSpaces()
      requires Valid()
      modifies this
      ensures Valid() && old(pch) <= pch && Rest() == SkipSpace(old(Rest())) && NoSpace(Rest())
    {
      while pch < |text| && IsSpace(text[pch])
        invariant Valid() && old(pch) <= pch && SkipSpace(Rest()) == SkipSpace(old(Rest()))
        decreases |text| - pch
      {
        assert text[pch..][1..] == text[pch + 1..];
        pch := pch + 1;
      }
    }

    /** next() */
    method NextToken()
      requires Valid()
      modifies this
      ensures Valid()
      ensures if old(pch) == |text| then pch == old(pch) else old(pch) < pch && Rest() == Next(old(Rest())) && NoSpace(Rest())
    {
      if pch < |text| {
        assert text[pch..][1..] == text[pch + 1..];
        pch := pch + 1;
        SkipSpaces();
      }
    }

    /** The name after a dollar sign, as much of it as the buffer takes. */
    method ReadName() returns (buf: string)
      requires Valid()
      modifies this
      ensures Valid() && old(pch) <= pch
      ensures var n := NameRun(old(Rest())); buf == Buffered(old(Rest())[..n]) && Rest() == old(Rest())[n..]
    {
      hide IsNameChar;
      ghost var s := Rest();
      var start := pch;
      buf := [];
      while pch < |text| && IsNameChar(text[pch])
        invariant Valid() && start <= pch
        invariant NameRun(s) == pch - start + NameRun(Rest())
        invariant buf == Buffered(text[start..pch])
        decreases |text| - pch
      {
        assert text[pch..][1..] == text[pch + 1..];
        assert text[start..pch + 1] == text[start..pch] + [text[pch]];
        if |buf| < 127 {
          buf := buf + [text[pch]];
        }
        pch := pch + 1;
      }
      assert s[..pch - start] == text[start..pch] && s[pch - start..] == text[pch..];
    }

    /** The digits of strtoull. */
    method ReadDigits(base: nat) returns (n: nat)
      requires Valid()
      modifies this
      ensures Valid() && pch == old(pch) + DigitRun(old(Rest()), base)
      ensures (forall i :: old(pch) <= i < pch ==> IsDigit(text[i], base)) && n == ValueOf(text[old(pch)..pch], base)
    {
      hide IsDigit, Shifted;
      var start := pch;
      n := 0;
      while pch < |text| && IsDigit(text[pch], base)
        invariant Valid() && start <= pch
        invariant DigitRun(text[start..], base) == pch - start + DigitRun(Rest(), base)
        invariant (forall i :: start <= i < pch ==> IsDigit(text[i], base)) && n == ValueOf(text[start..pch], base)
        decreases |text| - pch
      {
        assert text[pch..][1..] == text[pch + 1..];
        assert text[start..pch + 1][..pch - start] == text[start..pch];
        n := Shifted(n, base, text[pch]);
        pch := pch + 1;
      }
    }

    /** strtoull with base 0, from a place that is neither space nor sign. */
    method ReadNumber() returns (n: nat)
      requires Valid()
      modifies this
      ensures Valid() && n == NumberAt(old(Rest())) && pch == old(pch) + NumberRun(old(Rest()))
      ensures Rest() == old(Rest())[NumberRun(old(Rest()))..]
    {
      hide IsDigit, DigitRun, ValueOf;
      ghost var s := Rest();
      var base := BaseOf(text[pch..]);
      if base == 16 {
        pch := pch + 2;
      }
      ghost var start := pch;
      assert s[PrefixOf(s)..] == text[start..];
      n := ReadDigits(base);
      assert text[start..][..pch - start] == text[start..pch];
    }

    /** expr_unary. */
    method ExprUnary() returns (o: Outcome)
      requires Valid() && NoSpace(Rest())
      modifies this
      ensures Valid() && old(pch) <= pch && Gives(o, Rest(), Unary(env, old(Rest())))
      ensures o.Value? ==> old(pch) < pch && NoSpace(Rest())
      decreases |text| - pch, 0
    {
      hide Parse, NumberRun, NumberAt, NameRun, SkipSpace, IsSpace, ApplyPrefix, S64, Buffered;
      if pch == |text| {
        return Bad(UnexpectedEnd);
      }
      ghost var s := Rest();
      var c := text[pch];
      if c in "+-~" {
        NextToken();
        o := ExprUnary();
        if o.Value? {
          o := Value(ApplyPrefix(c, o.val));
        }
      } else if c == '(' {
        NextToken();
        o := ExprLevel(0);
        if o.Value? {
          if pch == |text| || text[pch] != ')' {
            return Bad(ParenExpected);
          }
          NextToken();
        }
      } else if c == '\'' {
        pch := pch + 1;
        if pch == |text| {
          return Bad(CharExpected);
        }
        o := Value(text[pch] as int);
        pch := pch + 1;
        if pch == |text| || text[pch] != '\'' {
          return Bad(QuoteMissing);
        }
        assert text[pch..] == s[2..];
        NextToken();
      } else if c == '$' {
        pch := pch + 1;
        assert text[pch..] == s[1..];
        var name := ReadName();
        SkipSpaces();
        match env(name) {
          case None => o := Bad(UnknownRegister);
          case Some(v) => o := Value(v);
        }
      } else {
        var start := pch;
        var n := ReadNumber();
        if n >= TWO64 {
          NumberHasDigits(s);
          return Bad(NumberTooLarge);
        }
        if pch == start {
          return Bad(InvalidChar);
        }
        SkipSpaces();
        o := Value(S64(n));
      }
    }

    /** expr_sum, expr_logic and expr_prod; the level below expr_prod is expr_unary. */
    method ExprLevel(level: nat) returns (o: Outcome)
      requires Valid() && NoSpace(Rest()) && level <= 3
      modifies this
      ensures Valid() && old(pch) <= pch && Gives(o, Rest(), Parse(env, old(Rest()), level))
      ensures o.Value? ==> old(pch) < pch && NoSpace(Rest())
      decreases |text| - pch, 4 - level, 1
    {
      hide Unary, Parse, Tail, IsSpace, ApplyInfix, LevelOf, Next;
      if level == 3 {
        ParseUnary(env, Rest());
        o := ExprUnary();
        return;
      }
      ParseStep(env, Rest(), level);
      o := ExprLevel(level + 1);
      if o.Bad? {
        return;
      }
      var val := o.val;
      while pch < |text| && LevelOf(text[pch]) == level
        invariant Valid() && old(pch) < pch && NoSpace(Rest())
        invariant Parse(env, old(Rest()), level) == Tail(env, val, Rest(), level)
        decreases |text| - pch
      {
        var op := text[pch];
        TailStep(env, val, Rest(), level);
        NextToken();
        o := ExprLevel(level + 1);
        if o.Bad? {
          return;
        }
        o := ApplyInfix(op, val, o.val);
        if o.Bad? {
          return;
        }
        val := o.val;
      }
      TailStop(env, val, Rest(), level);
      o := Value(val);
    }

    /** get_expr; the position is left after what was read. */
    method GetValue() returns (o: Outcome)
      requires Valid()
      modifies this
      ensures Valid() && Gives(o, Rest(), GetExpr(env, old(Rest())))
    {
      SkipSpaces();
      o := ExprLevel(0);
    }
  }

  lemma ParseStep(env: Registers, s: string, level: nat)
    requires level < 3
    ensures var p := Parse(env, s, level + 1);
            Parse(env, s, level) == if p.Err? then p else Tail(env, p.val, p.rest, level)
  {
    hide Unary, Tail;
  }

  lemma TailStop(env: Registers, val: int, s: string, level: nat)
    requires level < 3 && !At(s, level)
    ensures Tail(env, val, s, level) == Ok(val, s)
  {
    hide Parse;
  }

  lemma NumberHasDigits(s: string)
    requires NumberAt(s) >= TWO64
    ensures NumberRun(s) > 0
  {
  }
}
