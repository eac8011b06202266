/** What the parser makes of a printed expression, for every expression. */
module ConditionRoundTrip {
  import opened Ascii
  import opened Core
  import opened Condition
  import opened ConditionParser
  import opened ConditionGrammar
  import opened ConditionAccepts
  import opened ConditionDerives
  import Decimal

  datatype Reading = Reads(e: Expr) | UnknownNot | TooBig

  function DropSeconds(lb: LookBack): LookBack {
    if lb.None? then None else Some(lb.value - lb.value % 60)
  }

  function ReadBinary(left: Reading, right: Reading, node: (Expr, Expr) -> Expr): Reading {
    if !left.Reads? then left
    else if !right.Reads? then right
    else Reads(node(left.e, right.e))
  }

  function ReadInteger(n: int, e: Expr): Reading {
    if n == I32_MIN then TooBig else Reads(e)
  }

  /**
   * The reading of a printed expression: seconds are lost, the least `i32` is
   * refused, and `not(` is taken for a function nobody knows. The leftmost
   * failure is the one reported.
   */
  function Reparse(e: Expr): Reading {
    match e
    case Success(j, lb) => Reads(Expr.Success(j, DropSeconds(lb)))
    case Failure(j, lb) => Reads(Failure(j, DropSeconds(lb)))
    case Done(j, lb) => Reads(Done(j, DropSeconds(lb)))
    case ExitCode(_, _, n) => ReadInteger(n, e)
    case NumRun(j, op, n, lb) => ReadInteger(n, NumRun(j, op, n, DropSeconds(lb)))
    case NumSuc(j, op, n, lb) => ReadInteger(n, NumSuc(j, op, n, DropSeconds(lb)))
    case NumFail(j, op, n, lb) => ReadInteger(n, NumFail(j, op, n, DropSeconds(lb)))
    case And(a, b) => ReadBinary(Reparse(a), Reparse(b), (x, y) => And(x, y))
    case Or(a, b) => ReadBinary(Reparse(a), Reparse(b), (x, y) => Or(x, y))
    case Not(_) => UnknownNot
    case _ => Reads(e)
  }

  ghost predicate Agrees(r: Parsed<Expr>, reading: Reading, end: nat) {
    match reading
    case Reads(e) => r == Yes(e, end)
    case UnknownNot => r == No(UnknownFunction("not"))
    case TooBig => r.No? && r.error.Unexpected? && r.error.reason == IntegerOverflow
  }

  // ----- Calls -----

  function LbSource(lb: LookBack): LbText {
    if lb.None? then NoLb
    else
      var total := lb.value / 60;
      LbText(" ", Decimal.Print2(total / 60), Decimal.Print2(total % 60), "")
  }

  function CmpSource(op: CmpOp, n: int): CmpText {
    CmpText(" ", PrintOp(op), " ", n < 0, Decimal.Print(if n < 0 then -n else n))
  }

  predicate IsCompared(e: Expr) {
    e.ExitCode? || e.NumRun? || e.NumSuc? || e.NumFail?
  }

  function LeafFunc(e: Expr): Func
    requires IsLeaf(e)
  {
    match e
    case Success(_, _) => SuccessF
    case Failure(_, _) => FailureF
    case Done(_, _) => DoneF
    case Running(_) => RunningF
    case NotRunning(_) => NotRunningF
    case ExitCode(_, _, _) => ExitCodeF
    case NumRun(_, _, _, _) => NumRunF
    case NumSuc(_, _, _, _) => NumSucF
    case NumFail(_, _, _, _) => NumFailF
    case Value(_) => ValueF
  }

  function FuncName(f: Func): string {
    match f
    case SuccessF => "success"
    case FailureF => "failure"
    case DoneF => "done"
    case RunningF => "running"
    case NotRunningF => "notrunning"
    case ExitCodeF => "exitcode"
    case NumRunF => "numrun"
    case NumSucF => "numsuc"
    case NumFailF => "numfail"
    case ValueF => "value"
  }

  function LeafJob(e: Expr): string
    requires IsLeaf(e)
  {
    if e.Value? then e.name else e.job
  }

  function LeafLb(e: Expr): LookBack
    requires IsLeaf(e)
  {
    if TakesLookBack(LeafFunc(e)) then e.lb else None
  }

  /** A leaf, as the grammar writes it. */
  function LeafSource(e: Expr): CallText
    requires IsLeaf(e)
  {
    CallText(FuncName(LeafFunc(e)), "", "", LeafJob(e), "", LbSource(LeafLb(e)),
             if IsCompared(e) then CmpSource(e.op, e.n) else NoCmp)
  }

  lemma {:induction false} LbSourceText(lb: LookBack)
    requires FitsLookBack(lb)
    ensures IsLb(LbSource(lb)) && LbMeaning(LbSource(lb)) == DropSeconds(lb)
    ensures LbOf(LbSource(lb)) == PrintLookBack(lb)
  {
    hide Decimal.Print2, Decimal.Value;
    if lb.Some? {
      var (total, secs) := (lb.value / 60, lb.value);
      assert total / 60 * 3600 + total % 60 * 60 == secs - secs % 60;
      var h, m := Decimal.Print2(total / 60), Decimal.Print2(total % 60);
      assert "," + (" " + ((h + ("." + m)) + "")) == ", " + (h + "." + m);
    }
  }

  lemma {:induction false} CmpSourceText(op: CmpOp, n: int)
    requires IsI32(n)
    ensures var c := CmpSource(op, n); IsCmp(c) && (Fits(c) <==> n != I32_MIN) && IntMeaning(c.negative, c.digits) == n
    ensures CmpSource(op, n).CmpText? && CmpSource(op, n).op in OPERATORS && OPERATORS[CmpSource(op, n).op] == op
    ensures CmpOf(CmpSource(op, n)) == " " + (PrintOp(op) + (" " + PrintInt(n)))
  {
    hide Decimal.Print, Decimal.Value;
    PrintedAreSymbols(op);
    if n >= 0 {
      assert "" + Decimal.Print(n) == Decimal.Print(n);
    }
  }

  lemma {:induction false} CallTextPrinted(func: string, j: string, lb: LookBack, cmp: CmpText)
    requires FitsLookBack(lb)
    ensures CallOf(CallText(func, "", "", j, "", LbSource(lb), cmp)) == PrintCall(func, j, lb) + CmpOf(cmp)
  {
    hide LbOf, LbSource, PrintLookBack, CmpOf, IsLb, LbMeaning, DropSeconds;
    LbSourceText(lb);
    var c := CallText(func, "", "", j, "", LbSource(lb), cmp);
    assert ArgText(c) == j + PrintLookBack(lb) + ")";
  }

  lemma {:induction false} LeafText(e: Expr)
    requires IsExpr(e) && IsLeaf(e)
    ensures CallOf(LeafSource(e)) == Print(e)
  {
    hide CallOf, PrintCall, CmpSource, PrintInt, PrintOp, CmpOf, LbSource;
    LeafLbFits(e);
    CallTextPrinted(FuncName(LeafFunc(e)), LeafJob(e), LeafLb(e), LeafSource(e).cmp);
    if IsCompared(e) {
      ComparedLeafText(e);
    } else {
      NoCmpText();
    }
  }

  lemma {:induction false} LeafLbFits(e: Expr)
    requires IsExpr(e) && IsLeaf(e)
    ensures FitsLookBack(LeafLb(e)) && IsName(LeafJob(e)) && (IsCompared(e) ==> IsI32(e.n))
  {
  }

  lemma {:induction false} NoCmpText()
    ensures CmpOf(NoCmp) == "" && forall s: string :: s + "" == s
  {
  }

  lemma {:induction false} ComparedLeafText(e: Expr)
    requires IsLeaf(e) && IsCompared(e) && IsI32(e.n)
    ensures PrintCall(FuncName(LeafFunc(e)), LeafJob(e), LeafLb(e)) + CmpOf(CmpSource(e.op, e.n)) == Print(e)
  {
    hide PrintCall, CmpSource, PrintInt, PrintOp, CmpOf, FuncName;
    CmpSourceText(e.op, e.n);
    var call := PrintCall(FuncName(LeafFunc(e)), LeafJob(e), LeafLb(e));
    assert call + (" " + (PrintOp(e.op) + (" " + PrintInt(e.n)))) == call + " " + PrintOp(e.op) + " " + PrintInt(e.n);
    ComparedPrinted(e);
  }

  lemma {:induction false} ComparedPrinted(e: Expr)
    requires IsLeaf(e) && IsCompared(e)
    ensures Print(e) == PrintCompared(FuncName(LeafFunc(e)), LeafJob(e), LeafLb(e), e.op, e.n)
  {
    hide PrintCompared;
  }

  lemma {:induction false} FuncNameKnown(f: Func)
    ensures FuncOf(Lower(FuncName(f))) == Some(f)
  {
    hide FuncOf;
    assert Lower(FuncName(f)) == FuncName(f);
    FuncNameFound(f);
  }

  lemma {:induction false} FuncNameFound(f: Func)
    ensures FuncOf(FuncName(f)) == Some(f)
  {
  }

  lemma {:induction false} LeafShape(e: Expr)
    requires IsExpr(e) && IsLeaf(e)
    ensures var c := LeafSource(e);
            ShapeOfFunc(c) && FuncOf(Lower(c.func)) == Some(LeafFunc(e)) && LbMeaning(c.lb) == DropSeconds(LeafLb(e))
    ensures IsCompared(e) ==> var cmp := LeafSource(e).cmp;
              && cmp.op in OPERATORS && OPERATORS[cmp.op] == e.op
              && IntMeaning(cmp.negative, cmp.digits) == e.n && (Fits(cmp) <==> e.n != I32_MIN)
    ensures !IsCompared(e) ==> Fits(LeafSource(e).cmp)
  {
    hide FuncOf, FuncName, Lower, LbSource, IsLb, LbMeaning, DropSeconds, CmpSource, IsCmp, Fits, IntMeaning, IsName;
    LeafLbFits(e);
    FuncNameKnown(LeafFunc(e));
    LbSourceText(LeafLb(e));
    EmptyParts(LeafLb(e));
    if IsCompared(e) {
      CmpSourceText(e.op, e.n);
    }
  }

  lemma {:induction false} LeafMeaning(e: Expr, end: nat)
    requires IsExpr(e) && IsLeaf(e)
    ensures IsCallShape(LeafSource(e))
    ensures Agrees(CallOutcome(LeafSource(e), end), Reparse(e), end)
  {
    hide FuncOf, FuncName, Lower, LbSource, LbMeaning, DropSeconds, CmpSource, IsCmp, Fits, IntMeaning, IsCallShape,
         CallMeaning, IsExpr;
    LeafShape(e);
    EmptyParts(None);
    ShapesAgree(LeafSource(e));
    if Fits(LeafSource(e).cmp) {
      MeaningsAgree(LeafSource(e));
    }
  }

  lemma {:induction false} EmptyParts(lb: LookBack)
    ensures IsCmp(NoCmp) && Fits(NoCmp)
    ensures LbSource(lb).LbText? <==> lb.Some?
    ensures DropSeconds(None) == None
  {
  }

  // ----- Structure -----

  lemma {:induction false} NotIsAtom(s: string, p: nat)
    requires p <= |s| && SkipWs(s, p) == p
    requires Lower(ReadIdent(s, p).text) != "not" || CharAt(s, SkipWs(s, ReadIdent(s, p).end), '(')
    ensures ParseNot(s, p) == ParseAtom(s, p)
  {
    hide ParseAtom, ReadIdent, Lower, SkipWs;
  }

  lemma {:induction false} LeafParses(s: string, p: nat, e: Expr, end: nat)
    requires IsExpr(e) && IsLeaf(e) && Here(s, p, Print(e)) && end == p + |Print(e)| && NoneAt(s, end, Decimal.IsDigit)
    ensures Agrees(ParseNot(s, p), Reparse(e), end) && SkipWs(s, p) == p
  {
    hide ParseNot, ParseAtom, CallOutcome, Reparse, Agrees, IsCallShape, CallOf, Print, LeafSource, ReadIdent, Lower,
         IsExpr;
    LeafText(e);
    LeafMeaning(e, end);
    CallParses(s, p, LeafSource(e), end);
    SkippedTo(s, p, p);
    NotIsAtom(s, p);
  }

  /** `not(` reads as the call of an unknown function. */
  lemma {:induction false} PrintedNotParses(s: string, p: nat, rest: string)
    requires Here(s, p, "not(" + rest)
    ensures ParseNot(s, p) == No(UnknownFunction("not")) && SkipWs(s, p) == p
  {
    hide ParseNot, ParseAtom, ReadIdent;
    HereSplit(s, p, "not(", rest);
    assert s[p + 0] == "not("[0] && s[p + 1] == "not("[1] && s[p + 2] == "not("[2] && s[p + 3] == "not("[3];
    assert s[p..p + 3] == "not";
    CallAt(s, p, p + 3, p + 3);
    NotIsAtom(s, p);
    assert Lower("not") == "not";
  }

  lemma {:induction false} ParenParses(s: string, p: nat)
    requires CharAt(s, p, '(')
    ensures SkipWs(s, p) == p
    ensures ParseNot(s, p) == match ParseOr(s, p + 1) case No(e) => No(e) case Yes(v, q) => CloseParen(s, q, v)
  {
    hide ParseOr, ReadIdent;
    SkippedTo(s, p, p);
    NoWordAt(s, p, p);
    NotIsAtom(s, p);
  }

  lemma {:induction false} CloseParenAt(s: string, p: nat, e: Expr)
    requires CharAt(s, p, ')')
    ensures CloseParen(s, p, e) == Yes(e, p + 1)
    ensures Lower(ReadIdent(s, p).text) == "" && NoneAt(s, p, Decimal.IsDigit)
  {
    NoWordAt(s, p, p);
    ExpectAt(s, p, p, ')');
  }

  /** The keyword between the two sides of a printed `and` or `or`. */
  lemma {:induction false} InfixRead(s: string, p: nat, kw: string, q: nat)
    requires kw == "and" || kw == "or"
    requires Here(s, p, " " + kw + " ") && q == p + |kw| + 2 && SkipWs(s, q) == q
    ensures Lower(ReadIdent(s, p).text) == kw && ReadIdent(s, p).end == q - 1
    ensures ParseNot(s, q - 1) == ParseNot(s, q) && ParseAnd(s, q - 1) == ParseAnd(s, q)
    ensures NoneAt(s, p, Decimal.IsDigit)
  {
    hide ReadIdent, ParseNot;
    HereSplit(s, p, " " + kw, " ");
    HereSplit(s, p, " ", kw);
    assert s[q - 1 + 0] == " "[0] && s[p + 0] == " "[0];
    assert Lower(kw) == kw;
    KeywordRead(s, p, " ", kw, q - 1);
    SkipTwice(s, q - 1);
    OneSpaceSkipped(s, q - 1);
  }

  lemma {:induction false} OneSpaceSkipped(s: string, p: nat)
    requires p < |s| && IsSpace(s[p]) && SkipWs(s, p + 1) == p + 1
    ensures SkipWs(s, p) == p + 1
  {
    SkippedTo(s, p, p + 1);
  }

  lemma {:induction false} OperandFails(s: string, p: nat)
    requires p <= |s| && ParseNot(s, p).No?
    ensures ParseOr(s, p) == ParseAnd(s, p) == ParseNot(s, p)
  {
    hide ParseNot;
  }

  lemma {:induction false} AndFails(s: string, p: nat, left: Expr, m: nat)
    requires p <= |s| && ParseNot(s, p) == Yes(left, m)
    requires Lower(ReadIdent(s, m).text) == "and" && ParseNot(s, ReadIdent(s, m).end).No?
    ensures ParseOr(s, p) == ParseAnd(s, p) == ParseNot(s, ReadIdent(s, m).end)
  {
    hide ParseNot, ReadIdent, Lower;
  }

  lemma {:induction false} AndPrinted(s: string, p: nat, a: Reading, m: nat, b: Reading, n: nat)
    requires CharAt(s, p, '(') && p < m && Here(s, m, " and ") && CharAt(s, n, ')') && m + 5 <= |s|
    requires Agrees(ParseNot(s, p + 1), a, m) && Agrees(ParseNot(s, m + 5), b, n) && SkipWs(s, m + 5) == m + 5
    ensures Agrees(ParseNot(s, p), ReadBinary(a, b, (x, y) => And(x, y)), n + 1)
  {
    hide ParseNot, ReadIdent, SkipWs, Lower, CloseParen, IsExpr, IsPrintable;
    ParenParses(s, p);
    assert " " + "and" + " " == " and ";
    InfixRead(s, m, "and", m + 5);
    if !a.Reads? {
      OperandFails(s, p + 1);
    } else if !b.Reads? {
      AndFails(s, p + 1, a.e, m);
    } else {
      AndTailStep(s, m, a.e, b.e, n);
      CloseParenAt(s, n, And(a.e, b.e));
      AndTailEnds(s, n, And(a.e, b.e));
      OrTailEnds(s, n, And(a.e, b.e));
    }
  }

  lemma {:induction false} OrPrinted(s: string, p: nat, a: Reading, m: nat, b: Reading, n: nat)
    requires CharAt(s, p, '(') && p < m && Here(s, m, " or ") && CharAt(s, n, ')') && m + 4 <= |s|
    requires Agrees(ParseNot(s, p + 1), a, m) && Agrees(ParseNot(s, m + 4), b, n) && SkipWs(s, m + 4) == m + 4
    ensures Agrees(ParseNot(s, p), ReadBinary(a, b, (x, y) => Or(x, y)), n + 1)
  {
    hide ParseNot, ReadIdent, SkipWs, Lower, CloseParen, IsExpr, IsPrintable;
    ParenParses(s, p);
    assert " " + "or" + " " == " or ";
    InfixRead(s, m, "or", m + 4);
    if !a.Reads? {
      OperandFails(s, p + 1);
    } else {
      AndTailEnds(s, m, a.e);
      if b.Reads? {
        CloseParenAt(s, n, Or(a.e, b.e));
        AndTailEnds(s, n, b.e);
        OrTailStep(s, m, a.e, b.e, n);
        OrTailEnds(s, n, Or(a.e, b.e));
      }
    }
  }

  lemma {:induction false} BinaryParts(s: string, p: nat, a: string, op: string, b: string)
    requires Here(s, p, "(" + a + op + b + ")")
    ensures var m := p + 1 + |a|;
            var n := m + |op| + |b|;
            CharAt(s, p, '(') && Here(s, p + 1, a) && Here(s, m, op) && Here(s, m + |op|, b) && CharAt(s, n, ')')
            && |"(" + a + op + b + ")"| == n + 1 - p
  {
    HereSplit(s, p, "(" + a + op + b, ")");
    HereSplit(s, p, "(" + a + op, b);
    HereSplit(s, p, "(" + a, op);
    HereSplit(s, p, "(", a);
    assert s[p + 0] == "("[0];
    assert s[p + 1 + |a| + |op| + |b| + 0] == ")"[0];
  }

  /** A printed expression, wherever it stands, reads as `Reparse` says. */
  lemma {:induction false} PrintedParses(s: string, p: nat, e: Expr, end: nat)
    requires IsExpr(e) && Here(s, p, Print(e)) && end == p + |Print(e)| && NoneAt(s, end, Decimal.IsDigit)
    ensures Agrees(ParseNot(s, p), Reparse(e), end) && SkipWs(s, p) == p
    decreases e
  {
    hide ParseNot, SkipWs, Agrees, ReadBinary, PrintCall, PrintCompared, ReadInteger, DropSeconds, IsName;
    match e
    case And(a, b) =>
      BinaryParts(s, p, Print(a), " and ", Print(b));
      var m, n := p + 1 + |Print(a)|, end - 1;
      assert s[m + 0] == " and "[0];
      PrintedParses(s, p + 1, a, m);
      PrintedParses(s, m + 5, b, n);
      ParenParses(s, p);
      AndPrinted(s, p, Reparse(a), m, Reparse(b), n);
    case Or(a, b) =>
      BinaryParts(s, p, Print(a), " or ", Print(b));
      var m, n := p + 1 + |Print(a)|, end - 1;
      assert s[m + 0] == " or "[0];
      PrintedParses(s, p + 1, a, m);
      PrintedParses(s, m + 4, b, n);
      ParenParses(s, p);
      OrPrinted(s, p, Reparse(a), m, Reparse(b), n);
    case Not(a) =>
      assert Print(e) == "not(" + (Print(a) + ")");
      PrintedNotParses(s, p, Print(a) + ")");
      NotAgrees(s, p, end);
    case _ =>
      LeafParses(s, p, e, end);
  }

  lemma {:induction false} NotAgrees(s: string, p: nat, end: nat)
    requires p <= |s| && ParseNot(s, p) == No(UnknownFunction("not"))
    ensures Agrees(ParseNot(s, p), UnknownNot, end)
  {
  }

  // ----- Main results -----

  /** Parsing a printed expression, exactly. */
  lemma {:induction false} ParsePrinted(e: Expr)
    requires IsExpr(e)
    ensures match Reparse(e)
            case Reads(e') => Parse(Print(e)) == Ok(e')
            case UnknownNot => Parse(Print(e)) == Err(UnknownFunction("not"))
            case TooBig => Parse(Print(e)).Err? && Parse(Print(e)).error.Unexpected?
                           && Parse(Print(e)).error.reason == IntegerOverflow
  {
    hide ParseOr, Print, Reparse, IsExpr, Here, Decimal.IsDigit;
    var s := Print(e);
    WholeText(s);
    PrintedParses(s, 0, e, |s|);
    AloneParses(s, Reparse(e));
    SkippedTo(s, |s|, |s|);
  }

  lemma {:induction false} WholeText(s: string)
    ensures Here(s, 0, s)
  {
  }

  lemma {:induction false} AloneParses(s: string, reading: Reading)
    requires Agrees(ParseNot(s, 0), reading, |s|)
    ensures Agrees(ParseOr(s, 0), reading, |s|)
  {
    hide ParseNot, ReadIdent, IsExpr, IsPrintable, Lower;
    NoWordAt(s, |s|, |s|);
    if reading.Reads? {
      AndTailEnds(s, |s|, reading.e);
      OrTailEnds(s, |s|, reading.e);
    }
  }

  lemma {:induction false} ReparseIsIdentity(e: Expr)
    ensures Reparse(e) == Reads(e) <==> NotFree(e) && IsPrintable(e)
    ensures IsPrintable(e) && !NotFree(e) ==> Reparse(e) == UnknownNot
  {
    match e
    case And(a, b) =>
      ReparseIsIdentity(a);
      ReparseIsIdentity(b);
    case Or(a, b) =>
      ReparseIsIdentity(a);
      ReparseIsIdentity(b);
    case _ =>
  }

  /** Printing then parsing is the identity on exactly these expressions. */
  lemma {:induction false} RoundTripExactly(e: Expr)
    requires IsExpr(e)
    ensures Parse(Print(e)) == Ok(e) <==> NotFree(e) && IsPrintable(e)
    ensures IsPrintable(e) && !NotFree(e) ==> Parse(Print(e)) == Err(UnknownFunction("not"))
  {
    hide Parse, Print, Reparse;
    ParsePrinted(e);
    ReparseIsIdentity(e);
  }

  /** What the parser returns is legal, and survives printing unless it holds a `not`. */
  lemma {:induction false} ParsedSurvivesPrinting(s: string)
    requires Parse(s).Ok?
    ensures IsExpr(Parse(s).value) && IsPrintable(Parse(s).value)
    ensures Parse(Print(Parse(s).value)) ==
              if NotFree(Parse(s).value) then Parse(s) else Err(UnknownFunction("not"))
  {
    RoundTripExactly(Parse(s).value);
  }
}
