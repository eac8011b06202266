/**
 * The recursive-descent parser as it runs: one cursor moved by loops and put
 * back when a keyword is not there. Each method is tied to the function of the
 * same name in `ConditionParser`.
 */
module ConditionCursor {
  import opened Ascii
  import opened Core
  import opened Condition
  import P = ConditionParser
  import Decimal

  type Outcome<T> = Result<T, P.ParseError>

  /** An outcome and cursor are those of a sub-parse; after a failure the cursor is free. */
  ghost predicate Agrees<T>(r: Outcome<T>, pos: nat, expected: P.Parsed<T>) {
    match expected
    case Yes(v, q) => r == Ok(v) && pos == q
    case No(e) => r == Err(e)
  }

  class Parser {
    const input: string
    var pos: nat

    constructor (input: string)
      ensures this.input == input && pos == 0
    {
      this.input := input;
      pos := 0;
    }

    ghost predicate Valid()
      reads this
    {
      pos <= |input|
    }

    method SkipWs()
      requires Valid()
      modifies this`pos
      ensures Valid() && pos == P.SkipWs(input, old(pos))
    {
      while pos < |input| && IsSpace(input[pos])
        invariant old(pos) <= pos <= |input|
        invariant P.SkipWs(input, pos) == P.SkipWs(input, old(pos))
      {
        pos := pos + 1;
      }
    }

    method ExpectChar(c: char) returns (r: Outcome<()>)
      requires Valid()
      modifies this`pos
      ensures Valid() && Agrees(r, pos, P.ExpectChar(input, old(pos), c))
    {
      SkipWs();
      if pos == |input| {
        return Err(P.Unexpected(pos, P.ExpectedChar(c)));
      }
      pos := pos + 1;
      if input[pos - 1] == c {
        return Ok(());
      }
      return Err(P.Unexpected(pos, P.ExpectedChar(c)));
    }

    method ReadIdent() returns (ident: string)
      requires Valid()
      modifies this`pos
      ensures Valid() && P.Word(ident, pos) == P.ReadIdent(input, old(pos))
    {
      SkipWs();
      var start := pos;
      while pos < |input| && IsIdentChar(input[pos])
        invariant start <= pos <= |input|
        invariant P.Span(input, pos, IsIdentChar) == P.Span(input, start, IsIdentChar)
      {
        pos := pos + 1;
      }
      ident := input[start..pos];
    }

    method ReadLookback() returns (r: Outcome<nat>)
      requires Valid()
      modifies this`pos
      ensures Valid() && Agrees(r, pos, P.ReadLookback(input, old(pos)))
    {
      SkipWs();
      var start := pos;
      while pos < |input| && P.IsLookBackChar(input[pos])
        invariant start <= pos <= |input|
        invariant P.Span(input, pos, P.IsLookBackChar) == P.Span(input, start, P.IsLookBackChar)
      {
        pos := pos + 1;
      }
      var raw := input[start..pos];
      var d := P.ParseLookback(raw);
      r := if d.Some? then Ok(d.value) else Err(P.BadLookback(start, raw));
    }

    method ParseParenNameLb() returns (r: Outcome<P.Named>)
      requires Valid()
      modifies this`pos
      ensures Valid() && Agrees(r, pos, P.ParseParenNameLb(input, old(pos)))
    {
      hide P.ExpectChar, P.ReadIdent, P.ParseLbAndClose;
      var open := ExpectChar('(');
      if open.Err? {
        return Err(open.error);
      }
      var name := ReadIdent();
      if name == "" {
        return Err(P.Unexpected(pos, P.ExpectedJobName));
      }
      var lb := ParseLbAndClose();
      if lb.Err? {
        return Err(lb.error);
      }
      return Ok(P.Named(name, lb.value));
    }

    method ParseLbAndClose() returns (r: Outcome<LookBack>)
      requires Valid()
      modifies this`pos
      ensures Valid() && Agrees(r, pos, P.ParseLbAndClose(input, old(pos)))
    {
      hide P.ReadLookback, P.ParseClose, P.SkipWs;
      SkipWs();
      if P.CharAt(input, pos, ',') {
        pos := pos + 1;
        var d := ReadLookback();
        if d.Err? {
          return Err(d.error);
        }
        r := ParseClose(Some(d.value));
      } else {
        r := ParseClose(None);
      }
    }

    method ParseClose(lb: LookBack) returns (r: Outcome<LookBack>)
      requires Valid()
      modifies this`pos
      ensures Valid() && Agrees(r, pos, P.ParseClose(input, old(pos), lb))
    {
      hide P.ExpectChar, P.SkipWs;
      SkipWs();
      var close := ExpectChar(')');
      if close.Err? {
        return Err(close.error);
      }
      return Ok(lb);
    }

    method ParseParenName() returns (r: Outcome<string>)
      requires Valid()
      modifies this`pos
      ensures Valid() && Agrees(r, pos, P.ParseParenName(input, old(pos)))
    {
      var nl := ParseParenNameLb();
      if nl.Err? {
        return Err(nl.error);
      }
      if nl.value.lb.Some? {
        return Err(P.Unexpected(pos, P.LookBackNotSupported));
      }
      return Ok(nl.value.name);
    }

    method TryReadCmpOp() returns (op: Option<CmpOp>)
      requires Valid()
      modifies this`pos
      ensures Valid() && P.Operator(op, pos) == P.TryReadCmpOp(input, old(pos))
    {
      SkipWs();
      if P.At(input, pos, "!=") {
        pos := pos + 2;
        op := Some(Ne);
      } else if P.At(input, pos, "<=") {
        pos := pos + 2;
        op := Some(Le);
      } else if P.At(input, pos, ">=") {
        pos := pos + 2;
        op := Some(Ge);
      } else if P.At(input, pos, "=") {
        pos := pos + 1;
        op := Some(Eq);
      } else if P.At(input, pos, "<") {
        pos := pos + 1;
        op := Some(Lt);
      } else if P.At(input, pos, ">") {
        pos := pos + 1;
        op := Some(Gt);
      } else {
        op := None;
      }
    }

    method ReadDigits() returns (digits: string)
      requires Valid()
      modifies this`pos
      ensures Valid() && pos == P.Span(input, old(pos), Decimal.IsDigit)
      ensures digits == input[old(pos)..pos]
    {
      var start := pos;
      while pos < |input| && Decimal.IsDigit(input[pos])
        invariant start <= pos <= |input|
        invariant P.Span(input, pos, Decimal.IsDigit) == P.Span(input, start, Decimal.IsDigit)
      {
        pos := pos + 1;
      }
      digits := input[start..pos];
    }

    method ReadInt() returns (r: Outcome<int>)
      requires Valid()
      modifies this`pos
      ensures Valid() && Agrees(r, pos, P.ReadInt(input, old(pos)))
    {
      SkipWs();
      var negative := P.CharAt(input, pos, '-');
      if negative {
        pos := pos + 1;
      }
      var digits := ReadDigits();
      if digits == "" {
        return Err(P.Unexpected(pos, P.ExpectedInteger));
      }
      if Decimal.Value(digits) > I32_MAX {
        return Err(P.Unexpected(pos, P.IntegerOverflow));
      }
      var n: int := Decimal.Value(digits);
      return Ok(if negative then -n else n);
    }

    method ParseComparison(func: string) returns (r: Outcome<P.Comparison>)
      requires Valid()
      modifies this`pos
      ensures Valid() && Agrees(r, pos, P.ParseComparison(input, old(pos), func))
    {
      hide P.TryReadCmpOp, P.ReadInt;
      var op := TryReadCmpOp();
      if op.None? {
        return Err(P.Unexpected(pos, P.ExpectedOperator(func)));
      }
      var n := ReadInt();
      if n.Err? {
        return Err(n.error);
      }
      return Ok(P.Comparison(op.value, n.value));
    }

    method ParseFuncCall(func: string) returns (r: Outcome<Expr>)
      requires Valid()
      modifies this`pos
      ensures Valid() && Agrees(r, pos, P.ParseFuncCall(input, old(pos), func))
    {
      var lower := Lower(func);
      var known := P.FuncOf(lower);
      if known.None? {
        return Err(P.UnknownFunction(func));
      }
      r := ParseOperands(known.value, lower);
    }

    method ParseOperands(f: P.Func, func: string) returns (r: Outcome<Expr>)
      requires Valid()
      modifies this`pos
      ensures Valid() && Agrees(r, pos, P.ParseOperands(input, old(pos), f, func))
    {
      hide P.ParseParenNameLb, P.ParseComparison, P.ParseCounted;
      if f.ExitCodeF? {
        var n := ParseParenName();
        if n.Err? {
          return Err(n.error);
        }
        var cmp := ParseComparison(func);
        r := if cmp.Err? then Err(cmp.error) else Ok(ExitCode(n.value, cmp.value.op, cmp.value.n));
      } else if P.TakesCount(f) {
        var c := ParseCounted(func);
        r := if c.Err? then Err(c.error) else Ok(P.CountExpr(f, c.value.named, c.value.cmp));
      } else if P.TakesLookBack(f) {
        var job := ParseParenNameLb();
        r := if job.Err? then Err(job.error) else Ok(P.StateExpr(f, job.value));
      } else {
        var n := ParseParenName();
        r := if n.Err? then Err(n.error) else Ok(P.NameExpr(f, n.value));
      }
    }

    method ParseCounted(func: string) returns (r: Outcome<P.Counted>)
      requires Valid()
      modifies this`pos
      ensures Valid() && Agrees(r, pos, P.ParseCounted(input, old(pos), func))
    {
      hide P.ParseParenNameLb, P.ParseComparison;
      var named := ParseParenNameLb();
      if named.Err? {
        return Err(named.error);
      }
      var cmp := ParseComparison(func);
      if cmp.Err? {
        return Err(cmp.error);
      }
      return Ok(P.Counted(named.value, cmp.value));
    }

    method ParseAtom() returns (r: Outcome<Expr>)
      requires Valid()
      modifies this`pos
      ensures Valid() && Agrees(r, pos, P.ParseAtom(input, old(pos)))
      decreases |input| - pos, 0
    {
      hide P.ParseFuncCall, P.ExpectChar;
      SkipWs();
      if P.CharAt(input, pos, '(') {
        pos := pos + 1;
        var inner := ParseOr();
        if inner.Err? {
          return inner;
        }
        var close := ExpectChar(')');
        if close.Err? {
          return Err(close.error);
        }
        return inner;
      }
      var ident := ReadIdent();
      if ident == "" {
        return Err(P.Unexpected(pos, P.ExpectedExpression));
      }
      SkipWs();
      if P.CharAt(input, pos, '(') {
        r := ParseFuncCall(ident);
      } else {
        r := Err(P.Unexpected(pos, P.BareIdentifier(ident)));
      }
    }

    method ParseNot() returns (r: Outcome<Expr>)
      requires Valid()
      modifies this`pos
      ensures Valid() && Agrees(r, pos, P.ParseNot(input, old(pos)))
      decreases |input| - pos, 1
    {
      hide P.ParseAtom, Lower;
      SkipWs();
      var saved := pos;
      var ident := ReadIdent();
      if Lower(ident) == "not" {
        SkipWs();
        if !P.CharAt(input, pos, '(') {
          var e := ParseNot();
          if e.Err? {
            return e;
          }
          return Ok(Not(e.value));
        }
      }
      pos := saved;
      r := ParseAtom();
    }

    method ParseAnd() returns (r: Outcome<Expr>)
      requires Valid()
      modifies this`pos
      ensures Valid() && Agrees(r, pos, P.ParseAnd(input, old(pos)))
      decreases |input| - pos, 2
    {
      hide P.ParseNot, Lower, P.ReadIdent, P.SkipWs, IsExpr, IsPrintable;
      var first := ParseNot();
      if first.Err? {
        return first;
      }
      var left := first.value;
      while true
        invariant Valid() && old(pos) < pos && IsExpr(left) && IsPrintable(left)
        invariant P.ParseAnd(input, old(pos)) == P.AndTail(input, pos, left)
        decreases |input| - pos
      {
        var saved := pos;
        SkipWs();
        P.SkipThenRead(input, saved);
        var tok := ReadIdent();
        if Lower(tok) == "and" {
          var right := ParseNot();
          if right.Err? {
            return right;
          }
          P.BinaryIsLegal(left, right.value);
          left := And(left, right.value);
        } else {
          pos := saved;
          break;
        }
      }
      return Ok(left);
    }

    method ParseOr() returns (r: Outcome<Expr>)
      requires Valid()
      modifies this`pos
      ensures Valid() && Agrees(r, pos, P.ParseOr(input, old(pos)))
      decreases |input| - pos, 3
    {
      hide P.ParseAnd, Lower, P.ReadIdent, P.SkipWs, IsExpr, IsPrintable;
      var first := ParseAnd();
      if first.Err? {
        return first;
      }
      var left := first.value;
      while true
        invariant Valid() && old(pos) < pos && IsExpr(left) && IsPrintable(left)
        invariant P.ParseOr(input, old(pos)) == P.OrTail(input, pos, left)
        decreases |input| - pos
      {
        var saved := pos;
        SkipWs();
        P.SkipThenRead(input, saved);
        var tok := ReadIdent();
        if Lower(tok) == "or" {
          var right := ParseAnd();
          if right.Err? {
            return right;
          }
          P.BinaryIsLegal(left, right.value);
          left := Or(left, right.value);
        } else {
          pos := saved;
          break;
        }
      }
      return Ok(left);
    }

    method ParseExpr() returns (r: Outcome<Expr>)
      requires pos == 0
      modifies this`pos
      ensures r == P.Parse(input)
    {
      var e := ParseOr();
      if e.Err? {
        return e;
      }
      SkipWs();
      if pos != |input| {
        return Err(P.Unexpected(pos, P.TrailingInput));
      }
      return e;
    }
  }

  method Parse(input: string) returns (r: Outcome<Expr>)
    ensures r == P.Parse(input)
  {
    var parser := new Parser(input);
    r := parser.ParseExpr();
  }
}
