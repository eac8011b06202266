/** What the condition parser reports of a text it refuses is true of that text, at that place. */
module ConditionErrors {
  import opened Ascii
  import opened Core
  import opened Condition
  import opened ConditionParser
  import opened ConditionGrammar
  import opened ConditionAccepts
  import opened ConditionDerives
  import Decimal

  predicate SpaceBetween(s: string, p: nat, q: nat) {
    p <= q <= |s| && IsGap(s[p..q])
  }

  /** A whole word up to `q`. */
  ghost predicate WordEndsAt(s: string, word: string, q: nat) {
    exists p :: 0 <= p && p + |word| == q <= |s| && s[p..q] == word && IsName(word) && NoneAt(s, q, IsIdentChar)
  }

  ghost predicate IsTrueOf(s: string, e: ParseError) {
    match e
    case UnknownFunction(name) =>
      !SpellsOneOf(name, NAMES)
      && exists q, open :: WordEndsAt(s, name, q) && SpaceBetween(s, q, open) && CharAt(s, open, '(')
    case BadLookback(pos, raw) =>
      && pos + |raw| <= |s| && s[pos..pos + |raw|] == raw
      && (forall i :: 0 <= i < |raw| ==> Decimal.IsDigit(raw[i]) || raw[i] == '.')
      && (pos + |raw| < |s| ==> !Decimal.IsDigit(s[pos + |raw|]) && s[pos + |raw|] != '.')
      && (forall h, m :: raw == ClockText(h, m) ==> !IsNumeral(h, U64_MAX) || !IsNumeral(m, 59))
      && exists comma :: 0 <= comma < pos && s[comma] == ',' && SpaceBetween(s, comma + 1, pos)
    case Unexpected(pos, reason) => pos <= |s| && IsReason(s, pos, reason)
  }

  ghost predicate IsReason(s: string, pos: nat, reason: Reason)
    requires pos <= |s|
  {
    match reason
    case ExpectedChar(c) =>
      && c in {'(', ')'}
      && (pos == |s| || pos > 0)
      && (pos > 0 ==> pos == |s| || (s[pos - 1] != c && !IsSpace(s[pos - 1])))
    case ExpectedJobName => NoneAt(s, pos, IsIdentChar)
    case LookBackNotSupported => pos > 0 && s[pos - 1] == ')'
    case ExpectedOperator(func) =>
      func in COMPARED && forall op :: op in OPERATORS ==> !(pos + |op| <= |s| && s[pos..pos + |op|] == op)
    case ExpectedInteger => NoneAt(s, pos, Decimal.IsDigit)
    case IntegerOverflow =>
      NoneAt(s, pos, Decimal.IsDigit)
      && exists a :: 0 <= a < pos && Decimal.AllDigits(s[a..pos]) && Decimal.Value(s[a..pos]) > I32_MAX
    case ExpectedExpression => pos < |s| ==> !IsIdentChar(s[pos]) && !IsSpace(s[pos]) && s[pos] != '('
    case BareIdentifier(ident) =>
      !CharAt(s, pos, '(') && exists q :: WordEndsAt(s, ident, q) && SpaceBetween(s, q, pos)
    case TrailingInput => pos < |s| && !IsSpace(s[pos])
  }

  // ----- Operands -----

  lemma {:induction false} SkippedBetween(s: string, p: nat)
    requires p <= |s|
    ensures SpaceBetween(s, p, SkipWs(s, p)) && NoneAt(s, SkipWs(s, p), IsSpace)
  {
    SkippedIsGap(s, p);
  }

  lemma {:induction false} ExpectCharErrs(s: string, p: nat, c: char)
    requires p <= |s| && c in {'(', ')'}
    ensures var r := ExpectChar(s, p, c); r.No? ==> IsTrueOf(s, r.error)
  {
    SkippedBetween(s, p);
  }

  lemma {:induction false} ReadLookbackErrs(s: string, comma: nat)
    requires CharAt(s, comma, ',')
    ensures var r := ReadLookback(s, comma + 1); r.No? ==> IsTrueOf(s, r.error)
  {
    hide ParseLookback, Decimal.Value;
    var start := SkipWs(s, comma + 1);
    var end := Span(s, start, IsLookBackChar);
    SkippedBetween(s, comma + 1);
    var raw := s[start..end];
    SliceRun(s, start, end, IsLookBackChar);
    forall h, m | raw == ClockText(h, m) && IsNumeral(h, U64_MAX) && IsNumeral(m, 59)
      ensures ParseLookback(raw).Some?
    {
      ClockIsRead(h, m);
    }
  }

  lemma {:induction false} CloseErrs(s: string, p: nat, lb: LookBack)
    requires p <= |s|
    ensures var r := ParseClose(s, p, lb); r.No? ==> IsTrueOf(s, r.error)
  {
    hide ExpectChar, IsTrueOf;
    ExpectCharErrs(s, SkipWs(s, p), ')');
  }

  lemma {:induction false} LbAndCloseErrs(s: string, p: nat)
    requires p <= |s|
    ensures var r := ParseLbAndClose(s, p); r.No? ==> IsTrueOf(s, r.error)
  {
    hide ReadLookback, ParseClose, IsTrueOf;
    var comma := SkipWs(s, p);
    if CharAt(s, comma, ',') {
      ReadLookbackErrs(s, comma);
      if ReadLookback(s, comma + 1).Yes? {
        var d := ReadLookback(s, comma + 1);
        CloseErrs(s, d.pos, Some(d.value));
      }
    } else {
      CloseErrs(s, comma, None);
    }
  }

  lemma {:induction false} ParenNameLbErrs(s: string, p: nat)
    requires p <= |s|
    ensures var r := ParseParenNameLb(s, p); r.No? ==> IsTrueOf(s, r.error)
  {
    hide ParseLbAndClose, ExpectChar;
    ExpectCharErrs(s, p, '(');
    if ExpectChar(s, p, '(').Yes? {
      var name := ReadIdent(s, ExpectChar(s, p, '(').pos);
      LbAndCloseErrs(s, name.end);
    }
  }

  lemma {:induction false} ParenNameErrs(s: string, p: nat)
    requires p <= |s|
    ensures var r := ParseParenName(s, p); r.No? ==> IsTrueOf(s, r.error)
  {
    hide ParseParenNameLb;
    ParenNameLbErrs(s, p);
    if ParseParenNameLb(s, p).Yes? {
      EndsWithParen(s, p);
    }
  }

  lemma {:induction false} EndsWithParen(s: string, p: nat)
    requires p <= |s| && ParseParenNameLb(s, p).Yes?
    ensures var q := ParseParenNameLb(s, p).pos; 0 < q <= |s| && s[q - 1] == ')'
  {
    hide ReadLookback, SkipWs;
  }

  lemma {:induction false} ComparisonErrs(s: string, p: nat, func: string)
    requires p <= |s| && func in COMPARED
    ensures var r := ParseComparison(s, p, func); r.No? ==> IsTrueOf(s, r.error)
  {
    hide TryReadCmpOp, ReadInt, COMPARED;
    OperatorErrs(s, p);
    IntErrs(s, TryReadCmpOp(s, p).end);
  }

  lemma {:induction false} OperatorErrs(s: string, p: nat)
    requires p <= |s|
    ensures var pos := TryReadCmpOp(s, p).end;
            TryReadCmpOp(s, p).op.None? ==>
              forall op :: op in OPERATORS ==> !(pos + |op| <= |s| && s[pos..pos + |op|] == op)
  {
    hide SkipWs;
  }

  lemma {:induction false} IntErrs(s: string, p: nat)
    requires p <= |s|
    ensures var r := ReadInt(s, p); r.No? ==> IsTrueOf(s, r.error)
  {
    hide SkipWs, Decimal.Value;
    var q := SkipWs(s, p);
    var start := if CharAt(s, q, '-') then q + 1 else q;
    var end := Span(s, start, Decimal.IsDigit);
    SliceRun(s, start, end, Decimal.IsDigit);
  }

  // ----- Calls -----

  lemma {:induction false} CountedErrs(s: string, p: nat, func: string)
    requires p <= |s| && func in COMPARED
    ensures var r := ParseCounted(s, p, func); r.No? ==> IsTrueOf(s, r.error)
  {
    hide ParseParenNameLb, ParseComparison, IsTrueOf, COMPARED;
    ParenNameLbErrs(s, p);
    if ParseParenNameLb(s, p).Yes? {
      ComparisonErrs(s, ParseParenNameLb(s, p).pos, func);
    }
  }

  lemma {:induction false} ExitCodeErrs(s: string, p: nat, func: string)
    requires p <= |s| && func in COMPARED
    ensures var r := ParseExitCode(s, p, func); r.No? ==> IsTrueOf(s, r.error)
  {
    hide ParseParenName, ParseComparison, IsTrueOf, COMPARED;
    ParenNameErrs(s, p);
    if ParseParenName(s, p).Yes? {
      ComparisonErrs(s, ParseParenName(s, p).pos, func);
    }
  }

  lemma {:induction false} OperandErrs(s: string, p: nat, f: Func, func: string)
    requires p <= |s| && FuncOf(func) == Some(f)
    ensures var r := ParseOperands(s, p, f, func); r.No? ==> IsTrueOf(s, r.error)
  {
    NamesAreFuncs(func);
    hide FuncOf, ParseCounted, ParseExitCode, ParseParenName, ParseParenNameLb, IsTrueOf, COMPARED, NAMES,
         WITH_LOOK_BACK;
    if f.ExitCodeF? {
      ExitCodeErrs(s, p, func);
    } else if TakesCount(f) {
      CountedErrs(s, p, func);
    } else if TakesLookBack(f) {
      ParenNameLbErrs(s, p);
    } else {
      ParenNameErrs(s, p);
    }
  }

  /** A call, with its name in front of `open`. */
  lemma {:induction false} CallErrs(s: string, word: string, q: nat, open: nat)
    requires WordEndsAt(s, word, q) && SpaceBetween(s, q, open) && CharAt(s, open, '(')
    ensures var r := ParseFuncCall(s, open, word); r.No? ==> IsTrueOf(s, r.error)
  {
    hide FuncOf, ParseOperands, WordEndsAt, SpaceBetween, NAMES;
    if FuncOf(Lower(word)).None? {
      NamesAreFuncs(Lower(word));
      NamesAreWords();
      SpellsOneLower(word, NAMES);
    } else {
      hide IsTrueOf;
      OperandErrs(s, open, FuncOf(Lower(word)).value, Lower(word));
    }
  }

  // ----- The grammar -----

  lemma {:induction false} IdentIsWord(s: string, p: nat)
    requires p <= |s| && ReadIdent(s, p).text != ""
    ensures WordEndsAt(s, ReadIdent(s, p).text, ReadIdent(s, p).end)
  {
    var w := ReadIdent(s, p);
    assert s[w.end - |w.text|..w.end] == w.text;
  }

  lemma {:induction false} NoIdentHere(s: string, p: nat)
    requires p <= |s| && SkipWs(s, p) == p && ReadIdent(s, p).text == "" && !CharAt(s, p, '(')
    ensures ReadIdent(s, p).end == p
    ensures IsReason(s, p, ExpectedExpression)
  {
  }

  lemma {:induction false} AtomErrs(s: string, p: nat)
    requires p <= |s|
    ensures var r := ParseAtom(s, p); r.No? ==> IsTrueOf(s, r.error)
    decreases |s| - p, 0
  {
    hide ParseOr, ParseFuncCall, IsTrueOf, WordEndsAt, SpaceBetween;
    var q := SkipWs(s, p);
    SkipTwice(s, p);
    if CharAt(s, q, '(') {
      OrErrs(s, q + 1);
      if ParseOr(s, q + 1).Yes? {
        ExpectCharErrs(s, ParseOr(s, q + 1).pos, ')');
      }
    } else {
      var ident := ReadIdent(s, q);
      if ident.text == "" {
        NoIdentHere(s, q);
        ReasonIsTrue(s, q, ExpectedExpression);
      } else {
        var next := SkipWs(s, ident.end);
        IdentIsWord(s, q);
        SkippedBetween(s, ident.end);
        if CharAt(s, next, '(') {
          CallErrs(s, ident.text, ident.end, next);
        } else {
          ReasonIsTrue(s, next, BareIdentifier(ident.text));
        }
      }
    }
  }

  lemma {:induction false} ReasonIsTrue(s: string, pos: nat, reason: Reason)
    requires pos <= |s| && IsReason(s, pos, reason)
    ensures IsTrueOf(s, Unexpected(pos, reason))
  {
  }

  lemma {:induction false} NotErrs(s: string, p: nat)
    requires p <= |s|
    ensures var r := ParseNot(s, p); r.No? ==> IsTrueOf(s, r.error)
    decreases |s| - p, 1
  {
    hide ParseAtom, IsTrueOf, Lower;
    var start := SkipWs(s, p);
    var ident := ReadIdent(s, start);
    var next := SkipWs(s, ident.end);
    if Lower(ident.text) == "not" && !CharAt(s, next, '(') {
      NotIsLong(ident.text);
      NotErrs(s, next);
    } else {
      AtomErrs(s, start);
    }
  }

  lemma {:induction false} AndErrs(s: string, p: nat)
    requires p <= |s|
    ensures var r := ParseAnd(s, p); r.No? ==> IsTrueOf(s, r.error)
    decreases |s| - p, 3
  {
    hide ParseNot, AndTail, IsTrueOf;
    NotErrs(s, p);
    if ParseNot(s, p).Yes? {
      AndTailErrs(s, ParseNot(s, p).pos, ParseNot(s, p).value);
    }
  }

  lemma {:induction false} AndTailErrs(s: string, p: nat, left: Expr)
    requires p <= |s| && IsExpr(left) && IsPrintable(left)
    ensures var r := AndTail(s, p, left); r.No? ==> IsTrueOf(s, r.error)
    decreases |s| - p, 2
  {
    hide ParseNot, IsTrueOf, Lower;
    var tok := ReadIdent(s, p);
    if Lower(tok.text) == "and" {
      assert |tok.text| == 3;
      NotErrs(s, tok.end);
      if ParseNot(s, tok.end).Yes? {
        AndTailErrs(s, ParseNot(s, tok.end).pos, And(left, ParseNot(s, tok.end).value));
      }
    }
  }

  lemma {:induction false} OrErrs(s: string, p: nat)
    requires p <= |s|
    ensures var r := ParseOr(s, p); r.No? ==> IsTrueOf(s, r.error)
    decreases |s| - p, 5
  {
    hide ParseAnd, OrTail, IsTrueOf;
    AndErrs(s, p);
    if ParseAnd(s, p).Yes? {
      OrTailErrs(s, ParseAnd(s, p).pos, ParseAnd(s, p).value);
    }
  }

  lemma {:induction false} OrTailErrs(s: string, p: nat, left: Expr)
    requires p <= |s| && IsExpr(left) && IsPrintable(left)
    ensures var r := OrTail(s, p, left); r.No? ==> IsTrueOf(s, r.error)
    decreases |s| - p, 4
  {
    hide ParseAnd, IsTrueOf, Lower;
    var tok := ReadIdent(s, p);
    if Lower(tok.text) == "or" {
      assert |tok.text| == 2;
      AndErrs(s, tok.end);
      if ParseAnd(s, tok.end).Yes? {
        OrTailErrs(s, ParseAnd(s, tok.end).pos, Or(left, ParseAnd(s, tok.end).value));
      }
    }
  }

  /** Whatever is reported of a refused text is so. */
  lemma {:induction false} ErrorsAreTrue(s: string)
    requires Parse(s).Err?
    ensures IsTrueOf(s, Parse(s).error)
  {
    hide ParseOr, IsTrueOf;
    OrErrs(s, 0);
    if ParseOr(s, 0).Yes? {
      var q := SkipWs(s, ParseOr(s, 0).pos);
      ReasonIsTrue(s, q, TrailingInput);
    }
  }
}
