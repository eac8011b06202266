/** The parser accepts every text of the grammar and returns its meaning. */
module ConditionAccepts {
  import opened Ascii
  import opened Core
  import opened Condition
  import opened ConditionParser
  import opened ConditionGrammar
  import Decimal

  // ----- Texts inside texts -----

  /** `text` stands in `s` at `p`, character by character. */
  ghost predicate Here(s: string, p: nat, text: string) {
    p + |text| <= |s| && forall i :: 0 <= i < |text| ==> s[p + i] == text[i]
  }

  lemma {:induction false} HereSplit(s: string, p: nat, a: string, b: string)
    requires Here(s, p, a + b)
    ensures Here(s, p, a) && Here(s, p + |a|, b) && |a + b| == |a| + |b|
  {
    forall i | 0 <= i < |a|
      ensures s[p + i] == a[i]
    {
      assert (a + b)[i] == a[i];
    }
    forall i | 0 <= i < |b|
      ensures s[p + |a| + i] == b[i]
    {
      assert (a + b)[|a| + i] == b[i];
    }
  }

  ghost predicate NoneAt(s: string, p: nat, f: char -> bool) {
    p < |s| ==> !f(s[p])
  }

  /** Every character of `s` from `p` up to `q` is in class `f`. */
  ghost predicate Between(s: string, p: nat, q: nat, f: char -> bool) {
    p <= q <= |s| && forall k :: p <= k < q ==> f(s[k])
  }

  lemma {:induction false} SpanIs(s: string, p: nat, q: nat, f: char -> bool)
    requires Between(s, p, q, f) && NoneAt(s, q, f)
    ensures Span(s, p, f) == q
  {
  }

  lemma {:induction false} SkippedTo(s: string, p: nat, q: nat)
    requires Between(s, p, q, IsSpace) && NoneAt(s, q, IsSpace)
    ensures SkipWs(s, p) == q
  {
  }

  /** A text in its place is a run of its characters and a slice. */
  lemma {:induction false} HereRun(s: string, p: nat, text: string, f: char -> bool)
    requires Here(s, p, text)
    requires forall i :: 0 <= i < |text| ==> f(text[i])
    ensures Between(s, p, p + |text|, f) && s[p..p + |text|] == text
  {
    forall k | p <= k < p + |text|
      ensures f(s[k])
    {
      assert s[p + (k - p)] == text[k - p];
    }
  }

  /** The first character from `p` on is space, or the one at `q`. */
  lemma {:induction false} AfterGap(s: string, p: nat, q: nat, f: char -> bool)
    requires Between(s, p, q, IsSpace)
    requires NoneAt(s, q, f) && forall c :: IsSpace(c) ==> !f(c)
    ensures NoneAt(s, p, f)
  {
  }

  // ----- Keywords and function names -----

  predicate IsLowerWord(s: string) {
    s != "" && forall i :: 0 <= i < |s| ==> 'a' <= s[i] <= 'z'
  }

  lemma {:induction false} KnownNamesAreWords(f: string)
    ensures FuncOf(f).Some? ==> IsLowerWord(f) && f != "not"
    ensures f == "and" || f == "or" || f == "not" ==> IsLowerWord(f)
  {
  }

  lemma {:induction false} KeywordsSpelled(kw: string)
    ensures Spells(kw, "not") <==> Lower(kw) == "not"
    ensures Spells(kw, "and") <==> Lower(kw) == "and"
    ensures Spells(kw, "or") <==> Lower(kw) == "or"
  {
    hide Spells, Lower;
    SpellsLower(kw, "not");
    SpellsLower(kw, "and");
    SpellsLower(kw, "or");
  }

  // ----- The functions, as the parser tells them apart -----

  predicate ShapeOfFunc(c: CallText) {
    && FuncOf(Lower(c.func)).Some?
    && IsGap(c.gap) && IsGap(c.gap') && IsGap(c.gap'') && IsName(c.name)
    && IsLb(c.lb) && IsCmp(c.cmp)
    && var f := FuncOf(Lower(c.func)).value;
       (c.lb.LbText? ==> TakesLookBack(f)) && (c.cmp.CmpText? <==> TakesCount(f) || f.ExitCodeF?)
  }

  function MeaningOfFunc(c: CallText): Expr
    requires ShapeOfFunc(c) && Fits(c.cmp)
  {
    var f := FuncOf(Lower(c.func)).value;
    var job := Named(c.name, LbMeaning(c.lb));
    if f.ExitCodeF? then ExitCode(c.name, OPERATORS[c.cmp.op], IntMeaning(c.cmp.negative, c.cmp.digits))
    else if TakesCount(f) then
      CountExpr(f, job, Comparison(OPERATORS[c.cmp.op], IntMeaning(c.cmp.negative, c.cmp.digits)))
    else if TakesLookBack(f) then StateExpr(f, job)
    else NameExpr(f, c.name)
  }

  lemma {:induction false} NamesAreWords()
    ensures forall name :: name in NAMES ==> HasNoCapital(name)
    ensures WITH_LOOK_BACK <= NAMES && COMPARED <= NAMES
  {
  }

  lemma {:induction false} NamesAreFuncs(w: string)
    ensures w in NAMES <==> FuncOf(w).Some?
    ensures FuncOf(w).Some? ==>
              var f := FuncOf(w).value;
              (w in WITH_LOOK_BACK <==> TakesLookBack(f)) && (w in COMPARED <==> TakesCount(f) || f.ExitCodeF?)
  {
  }

  lemma {:induction false} WordsAreNames(s: string)
    ensures IsWord(s) <==> IsName(s)
  {
  }

  lemma {:induction false} ShapesAgree(c: CallText)
    ensures IsCallShape(c) <==> ShapeOfFunc(c)
  {
    hide Spells, SpellsOneOf, FuncOf, IsLb, IsCmp, IsGap, IsName, IsWord, TakesLookBack, TakesCount;
    WordsAreNames(c.name);
    NamesAreWords();
    NamesAreFuncs(Lower(c.func));
    SpellsOneLower(c.func, NAMES);
    SpellsOneLower(c.func, WITH_LOOK_BACK);
    SpellsOneLower(c.func, COMPARED);
  }

  lemma {:induction false} MeaningsAgree(c: CallText)
    requires IsCall(c)
    ensures ShapeOfFunc(c) && CallMeaning(c) == MeaningOfFunc(c)
  {
    ShapesAgree(c);
    if c.cmp.CmpText? {
      CountsAgree(c);
    } else {
      StatesAgree(c);
    }
  }

  lemma {:induction false} WordsOfFuncs(w: string)
    ensures w in {"success", "s"} <==> FuncOf(w) == Some(SuccessF)
    ensures w in {"failure", "f"} <==> FuncOf(w) == Some(FailureF)
    ensures w in {"done", "d"} <==> FuncOf(w) == Some(DoneF)
    ensures w in {"running", "r"} <==> FuncOf(w) == Some(RunningF)
    ensures w in {"notrunning", "n"} <==> FuncOf(w) == Some(NotRunningF)
    ensures w == "exitcode" <==> FuncOf(w) == Some(ExitCodeF)
    ensures w == "numrun" <==> FuncOf(w) == Some(NumRunF)
    ensures w == "numsuc" <==> FuncOf(w) == Some(NumSucF)
  {
  }

  lemma {:induction false} CountsAgree(c: CallText)
    requires IsCall(c) && ShapeOfFunc(c) && c.cmp.CmpText?
    ensures CallMeaning(c) == MeaningOfFunc(c)
  {
    hide Spells, SpellsOneOf, IsCallShape, IsLb, IsCmp, IsGap, IsName, LbMeaning, IntMeaning, Lower, FuncOf;
    WordsOfFuncs(Lower(c.func));
    SpellsLower(c.func, "exitcode");
    SpellsLower(c.func, "numrun");
    SpellsLower(c.func, "numsuc");
  }

  lemma {:induction false} StatesAgree(c: CallText)
    requires IsCall(c) && ShapeOfFunc(c) && !c.cmp.CmpText?
    ensures CallMeaning(c) == MeaningOfFunc(c)
  {
    hide Spells, SpellsOneOf, IsCallShape, IsLb, IsCmp, IsGap, IsName, LbMeaning, IntMeaning, Lower, FuncOf;
    WordsOfFuncs(Lower(c.func));
    SpellsOneLower(c.func, {"success", "s"});
    SpellsOneLower(c.func, {"failure", "f"});
    SpellsOneLower(c.func, {"done", "d"});
    SpellsOneLower(c.func, {"running", "r"});
    SpellsOneLower(c.func, {"notrunning", "n"});
  }

  lemma {:induction false} LowerWordIsName(w: string)
    requires IsLowerWord(Lower(w))
    ensures IsName(w)
    ensures forall i :: 0 <= i < |w| ==> !Decimal.IsDigit(w[i]) && !IsSpace(w[i]) && w[i] != '('
  {
    forall i | 0 <= i < |w|
      ensures IsIdentChar(w[i]) && !Decimal.IsDigit(w[i])
    {
      assert 'a' <= Lower(w)[i] <= 'z';
    }
  }

  // ----- Operands, by position -----

  lemma {:induction false} ExpectAt(s: string, p: nat, q: nat, c: char)
    requires Between(s, p, q, IsSpace) && CharAt(s, q, c) && !IsSpace(c)
    ensures SkipWs(s, p) == q && SkipWs(s, q) == q
    ensures ExpectChar(s, p, c) == Yes((), q + 1)
  {
  }

  lemma {:induction false} IdentAt(s: string, p: nat, a: nat, b: nat)
    requires Between(s, p, a, IsSpace) && Between(s, a, b, IsIdentChar) && a < b && NoneAt(s, b, IsIdentChar)
    ensures SkipWs(s, p) == a && ReadIdent(s, p) == Word(s[a..b], b)
  {
    SkippedTo(s, p, a);
    SpanIs(s, a, b, IsIdentChar);
  }

  lemma {:induction false} CloseAt(s: string, p: nat, close: nat, lb: LookBack)
    requires Between(s, p, close, IsSpace) && CharAt(s, close, ')')
    ensures ParseClose(s, p, lb) == Yes(lb, close + 1)
  {
    hide SkipWs;
    ExpectAt(s, p, close, ')');
    ExpectAt(s, close, close, ')');
  }

  lemma {:induction false} NoLbAt(s: string, p: nat, close: nat)
    requires Between(s, p, close, IsSpace) && CharAt(s, close, ')')
    ensures ParseLbAndClose(s, p) == Yes(None, close + 1)
  {
    hide ReadLookback, ParseClose;
    ExpectAt(s, p, close, ')');
    CloseAt(s, close, close, None);
  }

  lemma {:induction false} LookbackAt(s: string, p: nat, a: nat, b: nat, secs: nat)
    requires Between(s, p, a, IsSpace) && Between(s, a, b, IsLookBackChar) && NoneAt(s, b, IsLookBackChar)
    requires a < b && ParseLookback(s[a..b]) == Some(secs)
    ensures ReadLookback(s, p) == Yes(secs, b)
  {
    SkippedTo(s, p, a);
    SpanIs(s, a, b, IsLookBackChar);
  }

  lemma {:induction false} LbAt(s: string, p: nat, comma: nat, a: nat, b: nat, close: nat, secs: nat)
    requires Between(s, p, comma, IsSpace) && CharAt(s, comma, ',')
    requires Between(s, comma + 1, a, IsSpace) && Between(s, a, b, IsLookBackChar) && a < b
    requires ParseLookback(s[a..b]) == Some(secs)
    requires Between(s, b, close, IsSpace) && CharAt(s, close, ')')
    ensures ParseLbAndClose(s, p) == Yes(Some(secs), close + 1)
  {
    hide ReadLookback, ParseClose, ParseLookback, SkipWs;
    ExpectAt(s, p, comma, ',');
    AfterGap(s, b, close, IsLookBackChar);
    LookbackAt(s, comma + 1, a, b, secs);
    CloseAt(s, b, close, Some(secs));
  }

  lemma {:induction false} ParenNameAt(s: string, p: nat, a: nat, b: nat, lb: LookBack, end: nat)
    requires CharAt(s, p, '(') && Between(s, p + 1, a, IsSpace)
    requires Between(s, a, b, IsIdentChar) && a < b && NoneAt(s, b, IsIdentChar)
    requires ParseLbAndClose(s, b) == Yes(lb, end)
    ensures ParseParenNameLb(s, p) == Yes(Named(s[a..b], lb), end)
  {
    hide ParseLbAndClose, ExpectChar;
    ExpectAt(s, p, p, '(');
    IdentAt(s, p + 1, a, b);
  }

  lemma {:induction false} AtOne(s: string, p: nat, c: char)
    requires p < |s|
    ensures At(s, p, [c]) <==> s[p] == c
  {
    assert s[p..p + 1] == [s[p]];
  }

  lemma {:induction false} AtTwo(s: string, p: nat, c: char, d: char)
    requires p + 1 < |s|
    ensures At(s, p, [c, d]) <==> s[p] == c && s[p + 1] == d
  {
    assert s[p..p + 2] == [s[p], s[p + 1]];
  }

  lemma {:induction false} OpAt(s: string, p: nat, q: nat, op: CmpOp, end: nat)
    requires Between(s, p, q, IsSpace) && Here(s, q, PrintOp(op)) && end == q + |PrintOp(op)|
    requires end < |s| && s[end] != '='
    ensures TryReadCmpOp(s, p) == Operator(Some(op), end)
  {
    hide At, Between;
    assert s[q + 0] == PrintOp(op)[0];
    SkippedTo(s, p, q);
    AtTwo(s, q, '!', '=');
    AtTwo(s, q, '<', '=');
    AtTwo(s, q, '>', '=');
    AtOne(s, q, '=');
    AtOne(s, q, '<');
    AtOne(s, q, '>');
    if |PrintOp(op)| == 2 {
      assert s[q + 1] == PrintOp(op)[1];
    }
  }

  lemma {:induction false} IntAt(s: string, p: nat, q: nat, negative: bool, a: nat, b: nat)
    requires Between(s, p, q, IsSpace) && q < |s| && negative == (s[q] == '-') && a == (if negative then q + 1 else q)
    requires Between(s, a, b, Decimal.IsDigit) && a < b && NoneAt(s, b, Decimal.IsDigit)
    ensures Decimal.AllDigits(s[a..b])
    ensures ReadInt(s, p) == IntResult(negative, s[a..b], b)
  {
    SkippedTo(s, p, q);
    SpanIs(s, a, b, Decimal.IsDigit);
    var digits := s[a..b];
    forall i | 0 <= i < |digits|
      ensures Decimal.IsDigit(digits[i])
    {
      assert digits[i] == s[a + i];
    }
  }

  /** What reading a numeral that ends at `end` yields. */
  function IntResult(negative: bool, digits: string, end: nat): Parsed<int>
    requires Decimal.AllDigits(digits)
  {
    if Decimal.Value(digits) > I32_MAX then No(Unexpected(end, IntegerOverflow))
    else Yes(IntMeaning(negative, digits), end)
  }

  // ----- Operands, by text -----

  /** `HH.MM`, with hours and minutes of any length. */
  lemma {:induction false} ClockIsRead(hours: string, minutes: string)
    requires IsNumeral(hours, U64_MAX) && IsNumeral(minutes, 59)
    ensures ParseLookback(ClockText(hours, minutes)) == Some(Decimal.Value(hours) * 3600 + Decimal.Value(minutes) * 60)
    ensures ClockText(hours, minutes) != ""
    ensures forall i :: 0 <= i < |ClockText(hours, minutes)| ==> IsLookBackChar(ClockText(hours, minutes)[i])
  {
    hide Decimal.Value;
    var raw, n := ClockText(hours, minutes), |hours|;
    forall i | 0 <= i < |raw|
      ensures IsLookBackChar(raw[i]) && (i < n ==> raw[i] != '.')
    {
      if i < n {
        assert raw[i] == hours[i];
      } else if i > n {
        assert raw[i] == minutes[i - n - 1];
      }
    }
    SpanIs(raw, 0, n, IsNotDot);
    assert raw[..n] == hours && raw[n + 1..] == minutes;
  }

  lemma {:induction false} SymbolsArePrinted(op: string)
    requires op in OPERATORS
    ensures PrintOp(OPERATORS[op]) == op
  {
  }

  lemma {:induction false} LbTextParses(s: string, p: nat, comma: nat, lb: LbText, close: nat)
    requires Between(s, p, comma, IsSpace) && IsLb(lb) && lb.LbText? && Here(s, comma, LbOf(lb))
    requires close == comma + |LbOf(lb)| && CharAt(s, close, ')')
    ensures ParseLbAndClose(s, p) == Yes(LbMeaning(lb), close + 1)
    ensures NoneAt(s, p, IsIdentChar)
  {
    hide ParseLbAndClose, ParseLookback, Decimal.Value, ClockText;
    var raw := ClockText(lb.hours, lb.minutes);
    ClockIsRead(lb.hours, lb.minutes);
    var tail := raw + lb.gap';
    HereSplit(s, comma, ",", lb.gap + tail);
    assert s[comma + 0] == ","[0];
    AfterGap(s, p, comma, IsIdentChar);
    HereSplit(s, comma + 1, lb.gap, tail);
    var a := comma + 1 + |lb.gap|;
    HereSplit(s, a, raw, lb.gap');
    var b := a + |raw|;
    HereRun(s, comma + 1, lb.gap, IsSpace);
    HereRun(s, a, raw, IsLookBackChar);
    HereRun(s, b, lb.gap', IsSpace);
    LbAt(s, p, comma, a, b, close, LbMeaning(lb).value);
  }

  lemma {:induction false} LbParses(s: string, p: nat, gap: string, lb: LbText, close: nat)
    requires Here(s, p, gap) && IsGap(gap) && IsLb(lb) && Here(s, p + |gap|, LbOf(lb))
    requires close == p + |gap| + |LbOf(lb)| && CharAt(s, close, ')')
    ensures ParseLbAndClose(s, p) == Yes(LbMeaning(lb), close + 1)
    ensures NoneAt(s, p, IsIdentChar)
  {
    hide ParseLbAndClose, ParseLookback;
    HereRun(s, p, gap, IsSpace);
    if lb.NoLb? {
      NoLbAt(s, p, close);
      AfterGap(s, p, close, IsIdentChar);
    } else {
      LbTextParses(s, p, p + |gap|, lb, close);
    }
  }

  lemma {:induction false} ArgParses(s: string, p: nat, c: CallText, end: nat)
    requires IsGap(c.gap') && IsName(c.name) && IsGap(c.gap'') && IsLb(c.lb)
    requires CharAt(s, p, '(') && Here(s, p + 1, ArgText(c)) && end == p + 1 + |ArgText(c)|
    ensures ParseParenNameLb(s, p) == Yes(Named(c.name, LbMeaning(c.lb)), end)
  {
    hide ParseParenNameLb, ParseLbAndClose, LbMeaning, IsLb;
    var tail := LbOf(c.lb) + ")";
    HereSplit(s, p + 1, c.gap', c.name + (c.gap'' + tail));
    var a := p + 1 + |c.gap'|;
    HereSplit(s, a, c.name, c.gap'' + tail);
    var b := a + |c.name|;
    HereSplit(s, b, c.gap'', tail);
    HereSplit(s, b + |c.gap''|, LbOf(c.lb), ")");
    var close := b + |c.gap''| + |LbOf(c.lb)|;
    assert s[close + 0] == ")"[0];
    LbParses(s, b, c.gap'', c.lb, close);
    HereRun(s, p + 1, c.gap', IsSpace);
    HereRun(s, a, c.name, IsIdentChar);
    ParenNameAt(s, p, a, b, LbMeaning(c.lb), close + 1);
  }

  lemma {:induction false} IntParses(s: string, p: nat, gap: string, negative: bool, digits: string, end: nat)
    requires Here(s, p, gap) && IsGap(gap) && Here(s, p + |gap|, IntText(negative, digits))
    requires digits != "" && Decimal.AllDigits(digits)
    requires end == p + |gap| + |IntText(negative, digits)| && NoneAt(s, end, Decimal.IsDigit)
    ensures p < |s| && s[p] != '='
    ensures ReadInt(s, p) == IntResult(negative, digits, end)
  {
    hide ReadInt, IntResult;
    var q := p + |gap|;
    HereRun(s, p, gap, IsSpace);
    var sign := if negative then "-" else "";
    HereSplit(s, q, sign, digits);
    var a := q + |sign|;
    HereRun(s, a, digits, Decimal.IsDigit);
    assert s[a + 0] == digits[0];
    if negative {
      assert s[q + 0] == sign[0];
    }
    IntAt(s, p, q, negative, a, end);
    AfterGap(s, p, q, c => c == '=');
  }

  /** `<op> N`, also when N is too large: then the failure is the overflow. */
  lemma {:induction false} ComparisonParses(s: string, p: nat, cmp: CmpText, func: string, end: nat)
    requires cmp.CmpText? && IsCmp(cmp)
    requires Here(s, p, CmpOf(cmp)) && end == p + |CmpOf(cmp)| && NoneAt(s, end, Decimal.IsDigit)
    ensures ParseComparison(s, p, func) ==
              if Decimal.Value(cmp.digits) > I32_MAX then No(Unexpected(end, IntegerOverflow))
              else Yes(Comparison(OPERATORS[cmp.op], IntMeaning(cmp.negative, cmp.digits)), end)
  {
    hide TryReadCmpOp, ReadInt, IntMeaning;
    SymbolsArePrinted(cmp.op);
    var number := IntText(cmp.negative, cmp.digits);
    HereSplit(s, p, cmp.gap, cmp.op + (cmp.gap' + number));
    var q := p + |cmp.gap|;
    HereSplit(s, q, cmp.op, cmp.gap' + number);
    var r := q + |cmp.op|;
    HereSplit(s, r, cmp.gap', number);
    IntParses(s, r, cmp.gap', cmp.negative, cmp.digits, end);
    HereRun(s, p, cmp.gap, IsSpace);
    OpAt(s, p, q, OPERATORS[cmp.op], r);
  }

  // ----- Calls -----

  /** What a call reads as: its meaning, or an overflow at its end. */
  ghost function CallOutcome(c: CallText, end: nat): Parsed<Expr>
    requires IsCallShape(c)
  {
    if Fits(c.cmp) then Yes(CallMeaning(c), end) else No(Unexpected(end, IntegerOverflow))
  }

  lemma {:induction false} OperandsParse(s: string, p: nat, c: CallText, mid: nat, end: nat)
    requires IsCallShape(c) && CharAt(s, p, '(') && Here(s, p + 1, ArgText(c)) && mid == p + 1 + |ArgText(c)|
    requires Here(s, mid, CmpOf(c.cmp)) && end == mid + |CmpOf(c.cmp)| && NoneAt(s, end, Decimal.IsDigit)
    ensures ParseFuncCall(s, p, c.func) == CallOutcome(c, end)
  {
    ShapesAgree(c);
    if Fits(c.cmp) {
      MeaningsAgree(c);
    }
    hide ParseFuncCall, MeaningOfFunc, IsCallShape, CallMeaning, IsLb, IsCmp, IsGap, ArgText, FuncOf;
    ArgParses(s, p, c, mid);
    if c.cmp.CmpText? {
      ComparisonParses(s, mid, c.cmp, Lower(c.func), end);
      ComparedOperandsParse(s, p, c, mid, end);
    } else {
      PlainOperandsParse(s, p, c, mid);
    }
  }

  lemma {:induction false} ComparedOperandsParse(s: string, p: nat, c: CallText, mid: nat, end: nat)
    requires p <= |s| && ShapeOfFunc(c) && c.cmp.CmpText?
    requires mid <= |s| && ParseParenNameLb(s, p) == Yes(Named(c.name, LbMeaning(c.lb)), mid)
    requires ParseComparison(s, mid, Lower(c.func)) ==
               if Decimal.Value(c.cmp.digits) > I32_MAX then No(Unexpected(end, IntegerOverflow))
               else Yes(Comparison(OPERATORS[c.cmp.op], IntMeaning(c.cmp.negative, c.cmp.digits)), end)
    ensures ParseFuncCall(s, p, c.func)
         == if Fits(c.cmp) then Yes(MeaningOfFunc(c), end) else No(Unexpected(end, IntegerOverflow))
  {
    hide ParseParenNameLb, ParseComparison, IntMeaning, FuncOf, Lower, Decimal.Value, IsGap, IsName, IsNumeral;
  }

  lemma {:induction false} PlainOperandsParse(s: string, p: nat, c: CallText, end: nat)
    requires p <= |s| && ShapeOfFunc(c) && !c.cmp.CmpText?
    requires ParseParenNameLb(s, p) == Yes(Named(c.name, LbMeaning(c.lb)), end)
    ensures ParseFuncCall(s, p, c.func) == Yes(MeaningOfFunc(c), end)
  {
    hide ParseParenNameLb, ParseComparison, FuncOf, Lower, Decimal.Value, IsGap, IsName, IsNumeral;
  }

  lemma {:induction false} CallAt(s: string, p: nat, b: nat, open: nat)
    requires Between(s, p, b, IsIdentChar) && p < b && Between(s, b, open, IsSpace) && CharAt(s, open, '(')
    ensures SkipWs(s, p) == p && !CharAt(s, p, '(') && ReadIdent(s, p) == Word(s[p..b], b) && SkipWs(s, b) == open
    ensures ParseAtom(s, p) == ParseFuncCall(s, open, s[p..b])
  {
    hide ParseFuncCall, ParseOr;
    AfterGap(s, b, open, IsIdentChar);
    IdentAt(s, p, p, b);
    SkippedTo(s, b, open);
  }

  /** The parts of a call, at their places. */
  lemma {:induction false} CallParts(s: string, p: nat, c: CallText, b: nat, open: nat, mid: nat)
    requires Here(s, p, CallOf(c)) && b == p + |c.func| && open == b + |c.gap| && mid == open + 1 + |ArgText(c)|
    ensures Here(s, p, c.func) && Here(s, b, c.gap) && CharAt(s, open, '(')
    ensures Here(s, open + 1, ArgText(c)) && Here(s, mid, CmpOf(c.cmp))
    ensures mid + |CmpOf(c.cmp)| == p + |CallOf(c)|
  {
    hide ArgText, CmpOf;
    var tail := ArgText(c) + CmpOf(c.cmp);
    HereSplit(s, p, c.func, c.gap + ("(" + tail));
    HereSplit(s, b, c.gap, "(" + tail);
    HereSplit(s, open, "(", tail);
    assert s[open + 0] == "("[0];
    HereSplit(s, open + 1, ArgText(c), CmpOf(c.cmp));
  }

  lemma {:induction false} CallParses(s: string, p: nat, c: CallText, end: nat)
    requires IsCallShape(c) && Here(s, p, CallOf(c)) && end == p + |CallOf(c)| && NoneAt(s, end, Decimal.IsDigit)
    ensures p < |s| && IsIdentChar(s[p])
    ensures ReadIdent(s, p).text == c.func && Lower(c.func) != "not"
    ensures ParseAtom(s, p) == CallOutcome(c, end)
  {
    ShapesAgree(c);
    hide ParseFuncCall, ParseAtom, CallOutcome, FuncOf, ArgText, CmpOf, ReadIdent, CallOf, IsCallShape;
    KnownNamesAreWords(Lower(c.func));
    LowerWordIsName(c.func);
    var b := p + |c.func|;
    var open := b + |c.gap|;
    var mid := open + 1 + |ArgText(c)|;
    CallParts(s, p, c, b, open, mid);
    HereRun(s, p, c.func, IsIdentChar);
    HereRun(s, b, c.gap, IsSpace);
    CallAt(s, p, b, open);
    OperandsParse(s, open, c, mid, end);
  }

  // ----- Keywords and structure -----

  predicate IsKeyword(w: string) {
    w == "and" || w == "or" || w == "not"
  }

  lemma {:induction false} NoGap()
    ensures IsGap("")
  {
  }

  lemma {:induction false} KeywordRead(s: string, p: nat, gap: string, kw: string, end: nat)
    requires Here(s, p, gap) && IsGap(gap) && Here(s, p + |gap|, kw) && IsKeyword(Lower(kw))
    requires end == p + |gap| + |kw| && NoneAt(s, end, IsIdentChar)
    ensures ReadIdent(s, p) == Word(kw, end) && SkipWs(s, p) == p + |gap|
    ensures NoneAt(s, p, Decimal.IsDigit)
  {
    hide FuncOf;
    KnownNamesAreWords(Lower(kw));
    LowerWordIsName(kw);
    HereRun(s, p, gap, IsSpace);
    HereRun(s, p + |gap|, kw, IsIdentChar);
    assert s[p + |gap| + 0] == kw[0];
    AfterGap(s, p, p + |gap|, Decimal.IsDigit);
    IdentAt(s, p, p + |gap|, end);
  }

  /** How a unit begins: its gap, then a parenthesis or a word. */
  lemma {:induction false} UnitStarts(s: string, p: nat, u: Unit)
    requires IsUnit(u) && Here(s, p, UnitOf(u))
    ensures Here(s, p, u.gap) && Between(s, p, p + |u.gap|, IsSpace)
    ensures u.Plain? ==> Here(s, p + |u.gap|, AtomOf(u.atom)) && |UnitOf(u)| == |u.gap| + |AtomOf(u.atom)|
    ensures Separated(u) ==> NoneAt(s, p, IsIdentChar)
    ensures SkipWs(s, p) == p + |u.gap|
    ensures CharAt(s, p + |u.gap|, '(') <==> u.Plain? && u.atom.Paren?
  {
    hide FuncOf, IsAtom, OrOf, ArgText, CmpOf;
    var q := p + |u.gap|;
    match u {
      case Plain(g, Call(c)) =>
        HereSplit(s, p, g, CallOf(c));
        HereSplit(s, q, c.func, c.gap + ("(" + (ArgText(c) + CmpOf(c.cmp))));
        FuncIsWord(u.atom);
        assert s[q + 0] == c.func[0];
      case Plain(g, Paren(body, gap)) =>
        HereSplit(s, p, g, "(" + (OrOf(body) + (gap + ")")));
        HereSplit(s, q, "(", OrOf(body) + (gap + ")"));
        assert s[q + 0] == "("[0];
      case Negated(g, kw, inner) =>
        HereSplit(s, p, g, kw + UnitOf(inner));
        HereSplit(s, q, kw, UnitOf(inner));
        KnownNamesAreWords("not");
        LowerWordIsName(kw);
        assert s[q + 0] == kw[0];
    }
    HereRun(s, p, u.gap, IsSpace);
    SkippedTo(s, p, q);
    if u.gap != "" {
      assert s[p + 0] == u.gap[0];
    }
  }

  lemma {:induction false} FuncIsWord(a: Atom)
    requires IsAtom(a) && a.Call?
    ensures a.call.func != "" && IsIdentChar(a.call.func[0]) && a.call.func[0] != '(' && !IsSpace(a.call.func[0])
  {
    ShapesAgree(a.call);
    KnownNamesAreWords(Lower(a.call.func));
    LowerWordIsName(a.call.func);
  }

  lemma {:induction false} AtomParses(s: string, p: nat, a: Atom, end: nat)
    requires IsAtom(a) && Here(s, p, AtomOf(a)) && end == p + |AtomOf(a)| && NoneAt(s, end, Decimal.IsDigit)
    ensures ParseAtom(s, p) == Yes(AtomMeaning(a), end)
    ensures SkipWs(s, p) == p
    ensures CharAt(s, SkipWs(s, ReadIdent(s, p).end), '(') || Lower(ReadIdent(s, p).text) != "not"
    decreases a
  {
    hide ParseAtom, ParseOr, FuncOf, IsCallShape, Fits, ReadIdent, OrOf;
    match a
    case Call(c) =>
      CallParses(s, p, c, end);
    case Paren(body, gap) =>
      var mid := p + 1 + |OrOf(body)|;
      ParenShape(s, p, body, gap, mid, mid + |gap|);
      OrParses(s, p + 1, body, mid);
      ParenCloses(s, p, OrMeaning(body), mid, mid + |gap|);
  }

  /** Where the parts of a parenthesised expression are. */
  lemma {:induction false} ParenShape(s: string, p: nat, body: OrText, gap: string, mid: nat, close: nat)
    requires Here(s, p, AtomOf(Paren(body, gap))) && IsGap(gap) && mid == p + 1 + |OrOf(body)| && close == mid + |gap|
    ensures CharAt(s, p, '(') && Here(s, p + 1, OrOf(body)) && Between(s, mid, close, IsSpace) && CharAt(s, close, ')')
    ensures |AtomOf(Paren(body, gap))| == close + 1 - p
    ensures NoneAt(s, mid, Decimal.IsDigit) && ReadIdent(s, mid).text == ""
  {
    hide OrOf, ReadIdent;
    HereSplit(s, p, "(", OrOf(body) + (gap + ")"));
    assert s[p + 0] == "("[0];
    HereSplit(s, p + 1, OrOf(body), gap + ")");
    HereSplit(s, mid, gap, ")");
    assert s[close + 0] == ")"[0];
    HereRun(s, mid, gap, IsSpace);
    NoWordAt(s, mid, close);
  }

  lemma {:induction false} ParenCloses(s: string, p: nat, e: Expr, mid: nat, close: nat)
    requires CharAt(s, p, '(') && ParseOr(s, p + 1) == Yes(e, mid)
    requires Between(s, mid, close, IsSpace) && CharAt(s, close, ')')
    ensures ParseAtom(s, p) == Yes(e, close + 1)
    ensures SkipWs(s, p) == p
    ensures Lower(ReadIdent(s, p).text) == ""
  {
    hide ParseOr, ReadIdent;
    ExpectAt(s, mid, close, ')');
    SkippedTo(s, p, p);
    NoWordAt(s, p, p);
  }

  /** Neither a keyword nor a digit stands before a parenthesis or the end. */
  lemma {:induction false} NoWordAt(s: string, p: nat, q: nat)
    requires Between(s, p, q, IsSpace) && (q < |s| ==> s[q] == ')' || s[q] == '(')
    ensures NoneAt(s, p, Decimal.IsDigit) && ReadIdent(s, p).text == ""
  {
    SkippedTo(s, p, q);
    AfterGap(s, p, q, Decimal.IsDigit);
    SpanIs(s, q, q, IsIdentChar);
  }

  lemma {:induction false} UnitParses(s: string, p: nat, u: Unit, end: nat)
    requires IsUnit(u) && Here(s, p, UnitOf(u)) && end == p + |UnitOf(u)| && NoneAt(s, end, Decimal.IsDigit)
    ensures ParseNot(s, p) == Yes(UnitMeaning(u), end)
    decreases u
  {
    hide ParseAtom, ParseNot, ReadIdent, IsAtom, AtomOf, AtomMeaning, Lower, Spells, IsGap, SkipWs;
    UnitStarts(s, p, u);
    var q := p + |u.gap|;
    match u
    case Plain(g, a) =>
      AtomParses(s, q, a, end);
      AtomIsUnit(s, p, q);
    case Negated(g, kw, inner) =>
      HereSplit(s, p, g, kw + UnitOf(inner));
      HereSplit(s, q, kw, UnitOf(inner));
      var r := q + |kw|;
      KeywordsSpelled(kw);
      UnitStarts(s, r, inner);
      NoGap();
      KeywordRead(s, q, "", kw, r);
      GapThenUnit(s, r, inner, end);
      UnitParses(s, r, inner, end);
      NotReads(s, p, q, kw, r);
  }

  lemma {:induction false} AtomIsUnit(s: string, p: nat, q: nat)
    requires p <= |s| && q <= |s| && SkipWs(s, p) == q
    requires CharAt(s, SkipWs(s, ReadIdent(s, q).end), '(') || Lower(ReadIdent(s, q).text) != "not"
    ensures ParseNot(s, p) == ParseAtom(s, q)
  {
    hide ParseAtom, ReadIdent, Lower;
  }

  lemma {:induction false} NotReads(s: string, p: nat, q: nat, kw: string, r: nat)
    requires p <= |s| && q <= |s| && r <= |s| && SkipWs(s, p) == q && ReadIdent(s, q) == Word(kw, r)
    requires Lower(kw) == "not"
    requires !CharAt(s, SkipWs(s, r), '(') && ParseNot(s, SkipWs(s, r)).Yes?
    ensures ParseNot(s, p) == Yes(Not(ParseNot(s, SkipWs(s, r)).value), ParseNot(s, SkipWs(s, r)).pos)
  {
    hide ParseAtom, ReadIdent, Lower;
  }

  /** The gap of a unit may be read before the unit is. */
  lemma {:induction false} GapThenUnit(s: string, p: nat, u: Unit, end: nat)
    requires IsUnit(u) && Here(s, p, UnitOf(u))
    ensures ParseNot(s, SkipWs(s, p)) == ParseNot(s, p)
  {
    hide ParseAtom, ReadIdent, IsAtom, AtomOf, Lower;
    UnitStarts(s, p, u);
    SkippedTo(s, p + |u.gap|, p + |u.gap|);
  }

  lemma {:induction false} AndParses(s: string, p: nat, a: AndText, end: nat)
    requires IsAnd(a) && Here(s, p, AndOf(a)) && end == p + |AndOf(a)|
    requires NoneAt(s, end, Decimal.IsDigit) && Lower(ReadIdent(s, end).text) != "and"
    ensures ParseAnd(s, p) == Yes(AndMeaning(a), end)
    decreases a
  {
    hide ParseNot, ReadIdent, IsUnit, UnitOf, UnitMeaning, Lower;
    HereSplit(s, p, UnitOf(a.first), AndRestOf(a.rest));
    var q := p + |UnitOf(a.first)|;
    AndRestStarts(s, q, a.rest, end);
    UnitParses(s, p, a.first, q);
    AndTailParses(s, q, UnitMeaning(a.first), a.rest, end);
  }

  lemma {:induction false} AndRestStarts(s: string, p: nat, r: AndRest, end: nat)
    requires IsAndRest(r) && Here(s, p, AndRestOf(r)) && end == p + |AndRestOf(r)| && NoneAt(s, end, Decimal.IsDigit)
    ensures NoneAt(s, p, Decimal.IsDigit)
    ensures r.AndMore? ==> var q := p + |r.gap| + |r.kw|;
              ReadIdent(s, p) == Word(r.kw, q) && Here(s, q, UnitOf(r.unit) + AndRestOf(r.rest))
  {
    hide ReadIdent, IsUnit, UnitOf, Separated, Here, NoneAt, Lower, IsGap;
    if r.AndMore? {
      var tail := UnitOf(r.unit) + AndRestOf(r.rest);
      HereSplit(s, p, r.gap, r.kw + tail);
      HereSplit(s, p + |r.gap|, r.kw, tail);
      var q := p + |r.gap| + |r.kw|;
      HereSplit(s, q, UnitOf(r.unit), AndRestOf(r.rest));
      UnitStarts(s, q, r.unit);
      KeywordRead(s, p, r.gap, r.kw, q);
    }
  }

  lemma {:induction false} AndTailStep(s: string, p: nat, left: Expr, right: Expr, mid: nat)
    requires p <= |s| && IsExpr(left) && IsPrintable(left)
    requires Lower(ReadIdent(s, p).text) == "and" && ParseNot(s, ReadIdent(s, p).end) == Yes(right, mid)
    ensures mid <= |s| && IsExpr(And(left, right)) && IsPrintable(And(left, right))
    ensures AndTail(s, p, left) == AndTail(s, mid, And(left, right))
  {
    hide ReadIdent, ParseNot, Lower;
  }

  lemma {:induction false} AndTailEnds(s: string, p: nat, left: Expr)
    requires p <= |s| && IsExpr(left) && IsPrintable(left)
    requires Lower(ReadIdent(s, p).text) != "and"
    ensures AndTail(s, p, left) == Yes(left, p)
  {
    hide ReadIdent, Lower;
  }

  lemma {:induction false} AndTailParses(s: string, p: nat, left: Expr, r: AndRest, end: nat)
    requires IsAndRest(r) && Here(s, p, AndRestOf(r)) && end == p + |AndRestOf(r)|
    requires IsExpr(left) && IsPrintable(left)
    requires NoneAt(s, end, Decimal.IsDigit) && Lower(ReadIdent(s, end).text) != "and"
    ensures AndTail(s, p, left) == Yes(AndFold(left, r), end)
    decreases r
  {
    hide AndTail, ParseNot, ReadIdent, IsUnit, UnitOf, UnitMeaning, Lower, Separated, IsExpr, IsPrintable;
    AndRestStarts(s, p, r, end);
    if r.AndMore? {
      var q := p + |r.gap| + |r.kw|;
      HereSplit(s, q, UnitOf(r.unit), AndRestOf(r.rest));
      var mid := q + |UnitOf(r.unit)|;
      AndRestStarts(s, mid, r.rest, end);
      UnitParses(s, q, r.unit, mid);
      AndTailStep(s, p, left, UnitMeaning(r.unit), mid);
      AndTailParses(s, mid, And(left, UnitMeaning(r.unit)), r.rest, end);
    } else {
      AndTailEnds(s, p, left);
    }
  }

  lemma {:induction false} OrParses(s: string, p: nat, o: OrText, end: nat)
    requires IsOr(o) && Here(s, p, OrOf(o)) && end == p + |OrOf(o)|
    requires NoneAt(s, end, Decimal.IsDigit)
    requires Lower(ReadIdent(s, end).text) != "and" && Lower(ReadIdent(s, end).text) != "or"
    ensures ParseOr(s, p) == Yes(OrMeaning(o), end)
    decreases o
  {
    hide ParseAnd, ReadIdent, IsAnd, AndOf, AndMeaning, Lower;
    HereSplit(s, p, AndOf(o.first), OrRestOf(o.rest));
    var q := p + |AndOf(o.first)|;
    OrRestStarts(s, q, o.rest, end);
    AndParses(s, p, o.first, q);
    OrTailParses(s, q, AndMeaning(o.first), o.rest, end);
  }

  lemma {:induction false} OrRestStarts(s: string, p: nat, r: OrRest, end: nat)
    requires IsOrRest(r) && Here(s, p, OrRestOf(r)) && end == p + |OrRestOf(r)| && NoneAt(s, end, Decimal.IsDigit)
    requires Lower(ReadIdent(s, end).text) != "and"
    ensures NoneAt(s, p, Decimal.IsDigit) && Lower(ReadIdent(s, p).text) != "and"
    ensures r.OrMore? ==> var q := p + |r.gap| + |r.kw|;
              ReadIdent(s, p) == Word(r.kw, q) && Here(s, q, AndOf(r.term) + OrRestOf(r.rest))
  {
    hide ReadIdent, IsUnit, UnitOf, Separated, Here, NoneAt, Lower, IsGap;
    if r.OrMore? {
      var tail := AndOf(r.term) + OrRestOf(r.rest);
      HereSplit(s, p, r.gap, r.kw + tail);
      HereSplit(s, p + |r.gap|, r.kw, tail);
      var q := p + |r.gap| + |r.kw|;
      HereSplit(s, q, AndOf(r.term), OrRestOf(r.rest));
      HereSplit(s, q, UnitOf(r.term.first), AndRestOf(r.term.rest));
      UnitStarts(s, q, r.term.first);
      KeywordRead(s, p, r.gap, r.kw, q);
    }
  }

  lemma {:induction false} OrTailStep(s: string, p: nat, left: Expr, right: Expr, mid: nat)
    requires p <= |s| && IsExpr(left) && IsPrintable(left)
    requires Lower(ReadIdent(s, p).text) == "or" && ParseAnd(s, ReadIdent(s, p).end) == Yes(right, mid)
    ensures mid <= |s| && IsExpr(Or(left, right)) && IsPrintable(Or(left, right))
    ensures OrTail(s, p, left) == OrTail(s, mid, Or(left, right))
  {
    hide ReadIdent, ParseAnd, Lower;
  }

  lemma {:induction false} OrTailEnds(s: string, p: nat, left: Expr)
    requires p <= |s| && IsExpr(left) && IsPrintable(left)
    requires Lower(ReadIdent(s, p).text) != "or"
    ensures OrTail(s, p, left) == Yes(left, p)
  {
    hide ReadIdent, Lower;
  }

  lemma {:induction false} OrTailParses(s: string, p: nat, left: Expr, r: OrRest, end: nat)
    requires IsOrRest(r) && Here(s, p, OrRestOf(r)) && end == p + |OrRestOf(r)|
    requires IsExpr(left) && IsPrintable(left)
    requires NoneAt(s, end, Decimal.IsDigit)
    requires Lower(ReadIdent(s, end).text) != "and" && Lower(ReadIdent(s, end).text) != "or"
    ensures OrTail(s, p, left) == Yes(OrFold(left, r), end)
    decreases r
  {
    hide OrTail, ParseAnd, ReadIdent, IsAnd, AndOf, AndMeaning, Lower, Separated, IsExpr, IsPrintable;
    OrRestStarts(s, p, r, end);
    if r.OrMore? {
      var q := p + |r.gap| + |r.kw|;
      HereSplit(s, q, AndOf(r.term), OrRestOf(r.rest));
      var mid := q + |AndOf(r.term)|;
      OrRestStarts(s, mid, r.rest, end);
      AndParses(s, q, r.term, mid);
      OrTailStep(s, p, left, AndMeaning(r.term), mid);
      OrTailParses(s, mid, Or(left, AndMeaning(r.term)), r.rest, end);
    } else {
      OrTailEnds(s, p, left);
    }
  }

  /** Every text of the grammar is accepted, with the meaning the grammar gives it. */
  lemma {:induction false} GrammarAccepted(s: string, o: OrText)
    requires Derives(s, o)
    ensures Parse(s) == Ok(OrMeaning(o))
  {
    hide ParseOr, OrOf, IsOr, OrMeaning, ReadIdent;
    var g :| IsGap(g) && s == OrOf(o) + g;
    assert Here(s, 0, OrOf(o) + g);
    HereSplit(s, 0, OrOf(o), g);
    var end := |OrOf(o)|;
    HereRun(s, end, g, IsSpace);
    NoWordAt(s, end, |s|);
    SkippedTo(s, end, |s|);
    OrParses(s, 0, o, end);
  }
}
