/** Whatever the parser accepts is a text of the grammar, with that meaning. */
module ConditionDerives {
  import opened Ascii
  import opened Core
  import opened Condition
  import opened ConditionParser
  import opened ConditionGrammar
  import opened ConditionAccepts
  import Decimal

  lemma {:induction false} Join(s: string, a: nat, b: nat, c: nat)
    requires a <= b <= c <= |s|
    ensures s[a..b] + s[b..c] == s[a..c]
  {
  }

  lemma {:induction false} SliceRun(s: string, a: nat, b: nat, f: char -> bool)
    requires Between(s, a, b, f)
    ensures forall i :: 0 <= i < |s[a..b]| ==> f(s[a..b][i])
  {
  }

  lemma {:induction false} SkippedIsGap(s: string, p: nat)
    requires p <= |s|
    ensures IsGap(s[p..SkipWs(s, p)])
  {
    SliceRun(s, p, SkipWs(s, p), IsSpace);
  }

  lemma {:induction false} CharSlice(s: string, p: nat, c: char)
    requires CharAt(s, p, c)
    ensures s[p..p + 1] == [c]
  {
  }

  // ----- Operands -----

  lemma {:induction false} CloseSound(s: string, p: nat, lb: LookBack) returns (gap: string)
    requires p <= |s| && ParseClose(s, p, lb).Yes?
    ensures IsGap(gap) && s[p..ParseClose(s, p, lb).pos] == gap + ")"
  {
    var q := SkipWs(s, SkipWs(s, p));
    gap := s[p..q];
    SliceRun(s, p, q, IsSpace);
    CharSlice(s, q, ')');
    Join(s, p, q, q + 1);
  }

  lemma {:induction false} LookbackSound(s: string, p: nat) returns (gap: string, raw: string)
    requires p <= |s| && ReadLookback(s, p).Yes?
    ensures IsGap(gap) && ParseLookback(raw) == Some(ReadLookback(s, p).value)
    ensures s[p..ReadLookback(s, p).pos] == gap + raw
  {
    hide ParseLookback;
    var a := SkipWs(s, p);
    var b := Span(s, a, IsLookBackChar);
    gap, raw := s[p..a], s[a..b];
    SkippedIsGap(s, p);
    SliceRun(s, a, b, IsLookBackChar);
    Join(s, p, a, b);
  }

  lemma {:induction false} ClockSound(raw: string) returns (hours: string, minutes: string)
    requires ParseLookback(raw).Some?
    ensures IsNumeral(hours, U64_MAX) && IsNumeral(minutes, 59) && raw == ClockText(hours, minutes)
    ensures ParseLookback(raw).value == Decimal.Value(hours) * 3600 + Decimal.Value(minutes) * 60
  {
    hide Decimal.Value;
    var dot := Span(raw, 0, IsNotDot);
    hours, minutes := raw[..dot], raw[dot + 1..];
  }

  lemma {:induction false} LbTextSound(s: string, comma: nat) returns (lb: LbText)
    requires CharAt(s, comma, ',') && ReadLookback(s, comma + 1).Yes?
    requires var d := ReadLookback(s, comma + 1); ParseClose(s, d.pos, Some(d.value)).Yes?
    ensures var d := ReadLookback(s, comma + 1);
            IsLb(lb) && lb.LbText? && LbMeaning(lb) == Some(d.value)
            && s[comma..ParseClose(s, d.pos, Some(d.value)).pos] == LbOf(lb) + ")"
  {
    hide ReadLookback, ParseClose, ParseLookback, Decimal.Value, ClockText;
    var d := ReadLookback(s, comma + 1);
    var end := ParseClose(s, d.pos, Some(d.value)).pos;
    var g, raw := LookbackSound(s, comma + 1);
    var g' := CloseSound(s, d.pos, Some(d.value));
    var hours, minutes := ClockSound(raw);
    lb := LbText(g, hours, minutes, g');
    CharSlice(s, comma, ',');
    Join(s, comma + 1, d.pos, end);
    Join(s, comma, comma + 1, end);
    assert LbOf(lb) + ")" == "," + ((g + raw) + (g' + ")"));
  }

  lemma {:induction false} LbSound(s: string, p: nat) returns (gap: string, lb: LbText)
    requires p <= |s| && ParseLbAndClose(s, p).Yes?
    ensures IsGap(gap) && IsLb(lb) && LbMeaning(lb) == ParseLbAndClose(s, p).value
    ensures s[p..ParseLbAndClose(s, p).pos] == gap + (LbOf(lb) + ")")
  {
    hide ReadLookback, ParseClose, ParseLookback, SkipWs;
    var comma := SkipWs(s, p);
    SkippedIsGap(s, p);
    if CharAt(s, comma, ',') {
      gap := s[p..comma];
      lb := LbTextSound(s, comma);
    } else {
      var g := CloseSound(s, comma, None);
      gap, lb := s[p..comma] + g, NoLb;
      assert LbOf(lb) + ")" == ")";
      assert s[p..comma] + (g + ")") == gap + ")";
    }
    Join(s, p, comma, ParseLbAndClose(s, p).pos);
  }

  lemma {:induction false} ArgSound(s: string, p: nat) returns (c: CallText)
    requires CharAt(s, p, '(') && ParseParenNameLb(s, p).Yes?
    ensures IsGap(c.gap') && IsName(c.name) && IsGap(c.gap'') && IsLb(c.lb)
    ensures ParseParenNameLb(s, p).value == Named(c.name, LbMeaning(c.lb))
    ensures s[p..ParseParenNameLb(s, p).pos] == "(" + ArgText(c)
    ensures c.cmp == NoCmp
  {
    hide ParseLbAndClose, LbMeaning, IsLb, LbOf;
    ExpectAt(s, p, p, '(');
    var a := SkipWs(s, p + 1);
    var b := ReadIdent(s, p + 1).end;
    var end := ParseParenNameLb(s, p).pos;
    SkippedIsGap(s, p + 1);
    var gap'', lb := LbSound(s, b);
    c := CallText("", "", s[p + 1..a], s[a..b], gap'', lb, NoCmp);
    CharSlice(s, p, '(');
    Join(s, a, b, end);
    Join(s, p + 1, a, end);
    Join(s, p, p + 1, end);
  }

  lemma {:induction false} OpSound(s: string, p: nat) returns (gap: string)
    requires p <= |s| && TryReadCmpOp(s, p).op.Some?
    ensures IsGap(gap)
    ensures s[p..TryReadCmpOp(s, p).end] == gap + PrintOp(TryReadCmpOp(s, p).op.value)
  {
    hide SkipWs;
    var q := SkipWs(s, p);
    gap := s[p..q];
    SkippedIsGap(s, p);
    Join(s, p, q, TryReadCmpOp(s, p).end);
  }

  lemma {:induction false} IntSound(s: string, p: nat) returns (gap: string, negative: bool, digits: string)
    requires p <= |s| && ReadInt(s, p).Yes?
    ensures IsGap(gap) && digits != "" && Decimal.AllDigits(digits) && Decimal.Value(digits) <= I32_MAX
    ensures IntMeaning(negative, digits) == ReadInt(s, p).value
    ensures s[p..ReadInt(s, p).pos] == gap + IntText(negative, digits)
  {
    hide SkipWs;
    var q := SkipWs(s, p);
    negative := CharAt(s, q, '-');
    var a := if negative then q + 1 else q;
    var end := ReadInt(s, p).pos;
    gap, digits := s[p..q], s[a..end];
    SkippedIsGap(s, p);
    SliceRun(s, a, end, Decimal.IsDigit);
    Join(s, q, a, end);
    Join(s, p, q, end);
    if negative {
      CharSlice(s, q, '-');
    }
  }

  lemma {:induction false} PrintedAreSymbols(op: CmpOp)
    ensures PrintOp(op) in OPERATORS && OPERATORS[PrintOp(op)] == op
  {
  }

  lemma {:induction false} CmpSound(s: string, p: nat, func: string) returns (cmp: CmpText)
    requires p <= |s| && ParseComparison(s, p, func).Yes?
    ensures cmp.CmpText? && IsCmp(cmp) && Fits(cmp)
    ensures ParseComparison(s, p, func).value == Comparison(OPERATORS[cmp.op], IntMeaning(cmp.negative, cmp.digits))
    ensures s[p..ParseComparison(s, p, func).pos] == CmpOf(cmp)
  {
    hide TryReadCmpOp, ReadInt, IntMeaning, IntText;
    var op := TryReadCmpOp(s, p);
    var end := ParseComparison(s, p, func).pos;
    var gap := OpSound(s, p);
    var gap', negative, digits := IntSound(s, op.end);
    PrintedAreSymbols(op.op.value);
    cmp := CmpText(gap, PrintOp(op.op.value), gap', negative, digits);
    Join(s, p, op.end, end);
    assert (gap + cmp.op) + (gap' + IntText(negative, digits)) == CmpOf(cmp);
  }

  // ----- Calls -----

  lemma {:induction false} ComparedSound(s: string, p: nat, func: string) returns (c: CallText)
    requires CharAt(s, p, '(') && ParseParenNameLb(s, p).Yes?
    requires ParseComparison(s, ParseParenNameLb(s, p).pos, func).Yes?
    ensures IsGap(c.gap') && IsName(c.name) && IsGap(c.gap'')
    ensures IsLb(c.lb) && c.cmp.CmpText? && IsCmp(c.cmp) && Fits(c.cmp)
    ensures var named := ParseParenNameLb(s, p);
            var cmp := ParseComparison(s, named.pos, func);
            named.value == Named(c.name, LbMeaning(c.lb))
            && cmp.value == Comparison(OPERATORS[c.cmp.op], IntMeaning(c.cmp.negative, c.cmp.digits))
            && s[p..cmp.pos] == "(" + (ArgText(c) + CmpOf(c.cmp))
  {
    hide ParseParenNameLb, ParseComparison, LbMeaning, IsLb, IntMeaning, IsCmp, Fits, ArgText, CmpOf;
    var args := ArgSound(s, p);
    var mid := ParseParenNameLb(s, p).pos;
    var cmp := CmpSound(s, mid, func);
    c := args.(cmp := cmp);
    SameArgText(c, args);
    Join(s, p, mid, ParseComparison(s, mid, func).pos);
  }

  lemma {:induction false} OperandsSound(s: string, p: nat, func: string, gap: string) returns (c: CallText)
    requires CharAt(s, p, '(') && ParseFuncCall(s, p, func).Yes? && IsGap(gap)
    ensures c.func == func && c.gap == gap && IsCall(c) && CallMeaning(c) == ParseFuncCall(s, p, func).value
    ensures s[p..ParseFuncCall(s, p, func).pos] == "(" + (ArgText(c) + CmpOf(c.cmp))
  {
    hide ParseParenNameLb, ParseComparison, FuncOf, Lower, IntMeaning, Decimal.Value, ArgText, IsCmp, Fits,
         IsCallShape, CallMeaning;
    var f := FuncOf(Lower(func)).value;
    var args: CallText;
    if f.ExitCodeF? || TakesCount(f) {
      args := ComparedSound(s, p, Lower(func));
    } else {
      args := ArgSound(s, p);
      NoCmpIsCmp();
      assert ArgText(args) + CmpOf(NoCmp) == ArgText(args);
    }
    c := args.(func := func, gap := gap);
    SameArgText(c, args);
    ShapesAgree(c);
    MeaningsAgree(c);
  }

  lemma {:induction false} NoCmpIsCmp()
    ensures IsCmp(NoCmp) && Fits(NoCmp)
  {
  }

  lemma {:induction false} SameArgText(c: CallText, d: CallText)
    requires c.gap' == d.gap' && c.name == d.name && c.gap'' == d.gap'' && c.lb == d.lb
    ensures ArgText(c) == ArgText(d)
  {
  }

  /** An atom, from its first character on. */
  lemma {:induction false} AtomSound(s: string, p: nat) returns (a: Atom)
    requires p <= |s| && SkipWs(s, p) == p && ParseAtom(s, p).Yes?
    ensures IsAtom(a) && ParseAtom(s, p).value == AtomMeaning(a)
    ensures AtomOf(a) == s[p..ParseAtom(s, p).pos]
    ensures a.Paren? <==> CharAt(s, p, '(')
    ensures a.Call? ==> p < |s| && IsIdentChar(s[p])
    decreases |s| - p, 0
  {
    hide ParseOr, ParseFuncCall, IsOr, OrOf, OrMeaning, IsCall, CallMeaning, ArgText, CmpOf;
    var end := ParseAtom(s, p).pos;
    if CharAt(s, p, '(') {
      var mid := ParseOr(s, p + 1).pos;
      var body := OrSound(s, p + 1);
      var close := SkipWs(s, mid);
      a := Paren(body, s[mid..close]);
      SkippedIsGap(s, mid);
      CharSlice(s, p, '(');
      CharSlice(s, close, ')');
      Join(s, mid, close, end);
      Join(s, p + 1, mid, end);
      Join(s, p, p + 1, end);
    } else {
      var b := ReadIdent(s, p).end;
      var open := SkipWs(s, b);
      SkippedIsGap(s, b);
      var c := OperandsSound(s, open, s[p..b], s[b..open]);
      a := Call(c);
      Join(s, b, open, end);
      Join(s, p, b, end);
    }
  }

  lemma {:induction false} UnitSound(s: string, p: nat) returns (u: Unit)
    requires p <= |s| && ParseNot(s, p).Yes?
    ensures IsUnit(u) && ParseNot(s, p).value == UnitMeaning(u)
    ensures UnitOf(u) == s[p..ParseNot(s, p).pos]
    ensures NoneAt(s, p, IsIdentChar) ==> Separated(u)
    ensures u.gap == s[p..SkipWs(s, p)] && (CharAt(s, SkipWs(s, p), '(') <==> u.Plain? && u.atom.Paren?)
    decreases |s| - p, 1
  {
    hide ParseAtom, IsAtom, AtomOf, AtomMeaning, Lower, Spells, IsGap;
    var start := SkipWs(s, p);
    SkippedIsGap(s, p);
    SkippedTo(s, start, start);
    var ident := ReadIdent(s, start);
    var next := SkipWs(s, ident.end);
    var end := ParseNot(s, p).pos;
    if Lower(ident.text) == "not" && !CharAt(s, next, '(') {
      NotIsLong(ident.text);
      KeywordsSpelled(ident.text);
      SkipTwice(s, ident.end);
      var inner := UnitSound(s, ident.end);
      u := Negated(s[p..start], ident.text, inner);
      Join(s, start, ident.end, end);
      Join(s, p, start, end);
    } else {
      var a := AtomSound(s, start);
      u := Plain(s[p..start], a);
      Join(s, p, start, end);
    }
  }

  lemma {:induction false} NotIsLong(w: string)
    requires Lower(w) == "not"
    ensures |w| == 3 && IsIdentChar(w[0])
  {
    KnownNamesAreWords("not");
    LowerWordIsName(w);
  }

  lemma {:induction false} SkipTwice(s: string, p: nat)
    requires p <= |s|
    ensures ParseNot(s, SkipWs(s, p)) == ParseNot(s, p)
  {
    hide ParseAtom, ReadIdent, Lower;
    SkippedTo(s, SkipWs(s, p), SkipWs(s, p));
  }

  lemma {:induction false} AndSound(s: string, p: nat) returns (a: AndText)
    requires p <= |s| && ParseAnd(s, p).Yes?
    ensures IsAnd(a) && ParseAnd(s, p).value == AndMeaning(a)
    ensures AndOf(a) == s[p..ParseAnd(s, p).pos]
    ensures NoneAt(s, p, IsIdentChar) ==> Separated(a.first)
    decreases |s| - p, 3
  {
    hide ParseNot, IsUnit, UnitOf, UnitMeaning, Separated;
    var mid := ParseNot(s, p).pos;
    var first := UnitSound(s, p);
    var rest := AndTailSound(s, mid, UnitMeaning(first));
    a := AndText(first, rest);
    Join(s, p, mid, ParseAnd(s, p).pos);
  }

  lemma {:induction false} AndTailSound(s: string, p: nat, left: Expr) returns (r: AndRest)
    requires p <= |s| && IsExpr(left) && IsPrintable(left) && AndTail(s, p, left).Yes?
    ensures IsAndRest(r) && AndTail(s, p, left).value == AndFold(left, r)
    ensures AndRestOf(r) == s[p..AndTail(s, p, left).pos]
    decreases |s| - p, 2
  {
    hide ParseNot, IsUnit, UnitOf, UnitMeaning, Separated, Lower, Spells, IsGap;
    KeywordsSpelled(ReadIdent(s, p).text);
    var tok := ReadIdent(s, p);
    var end := AndTail(s, p, left).pos;
    if Lower(tok.text) == "and" {
      var start := SkipWs(s, p);
      SkippedIsGap(s, p);
      var unit := UnitSound(s, tok.end);
      var mid := ParseNot(s, tok.end).pos;
      var rest := AndTailSound(s, mid, And(left, UnitMeaning(unit)));
      r := AndMore(s[p..start], tok.text, unit, rest);
      Join(s, tok.end, mid, end);
      Join(s, start, tok.end, end);
      Join(s, p, start, end);
    } else {
      r := AndEnd;
    }
  }

  lemma {:induction false} OrSound(s: string, p: nat) returns (o: OrText)
    requires p <= |s| && ParseOr(s, p).Yes?
    ensures IsOr(o) && ParseOr(s, p).value == OrMeaning(o)
    ensures OrOf(o) == s[p..ParseOr(s, p).pos]
    decreases |s| - p, 5
  {
    hide ParseAnd, IsAnd, AndOf, AndMeaning;
    var mid := ParseAnd(s, p).pos;
    var first := AndSound(s, p);
    var rest := OrTailSound(s, mid, AndMeaning(first));
    o := OrText(first, rest);
    Join(s, p, mid, ParseOr(s, p).pos);
  }

  lemma {:induction false} OrTailSound(s: string, p: nat, left: Expr) returns (r: OrRest)
    requires p <= |s| && IsExpr(left) && IsPrintable(left) && OrTail(s, p, left).Yes?
    ensures IsOrRest(r) && OrTail(s, p, left).value == OrFold(left, r)
    ensures OrRestOf(r) == s[p..OrTail(s, p, left).pos]
    decreases |s| - p, 4
  {
    hide ParseAnd, IsAnd, AndOf, AndMeaning, Separated, Lower, Spells, IsGap;
    KeywordsSpelled(ReadIdent(s, p).text);
    var tok := ReadIdent(s, p);
    var end := OrTail(s, p, left).pos;
    if Lower(tok.text) == "or" {
      var start := SkipWs(s, p);
      SkippedIsGap(s, p);
      var term := AndSound(s, tok.end);
      var mid := ParseAnd(s, tok.end).pos;
      var rest := OrTailSound(s, mid, Or(left, AndMeaning(term)));
      r := OrMore(s[p..start], tok.text, term, rest);
      Join(s, tok.end, mid, end);
      Join(s, start, tok.end, end);
      Join(s, p, start, end);
    } else {
      r := OrEnd;
    }
  }

  /** The parser is correct and complete for the grammar. */
  lemma {:induction false} ParserDecidesGrammar(s: string, e: Expr)
    ensures Parse(s) == Ok(e) <==> exists o :: Derives(s, o) && OrMeaning(o) == e
  {
    hide ParseOr, IsOr, OrOf, OrMeaning;
    if Parse(s) == Ok(e) {
      var p := ParseOr(s, 0).pos;
      var o := OrSound(s, 0);
      SkippedIsGap(s, p);
      Join(s, 0, p, |s|);
      assert s == OrOf(o) + s[p..];
      assert Derives(s, o);
    }
    forall o | Derives(s, o)
      ensures Parse(s) == Ok(OrMeaning(o))
    {
      GrammarAccepted(s, o);
    }
  }
}
