/**
 * The condition parser as a function of the text and a position in it. A text
 * is a sequence of bytes; each is written as the character with its code.
 */
module ConditionParser {
  import opened Ascii
  import opened Core
  import opened Condition
  import Decimal

  datatype Reason =
    | ExpectedChar(c: char)
    | ExpectedJobName
    | LookBackNotSupported
    | ExpectedOperator(func: string)
    | ExpectedInteger
    | IntegerOverflow
    | ExpectedExpression
    | BareIdentifier(ident: string)
    | TrailingInput

  datatype ParseError =
    | Unexpected(pos: nat, reason: Reason)
    | UnknownFunction(name: string)
    | BadLookback(pos: nat, raw: string)

  /** A sub-parse either fails or yields a value and the position after it. */
  datatype Parsed<+T> = Yes(value: T, pos: nat) | No(error: ParseError)

  datatype Word = Word(text: string, end: nat)
  datatype Operator = Operator(op: Option<CmpOp>, end: nat)
  datatype Named = Named(name: string, lb: LookBack)
  datatype Comparison = Comparison(op: CmpOp, n: int)
  datatype Counted = Counted(named: Named, cmp: Comparison)

  // ----- Lexing -----

  predicate IsLookBackChar(c: char) {
    Decimal.IsDigit(c) || c == '.'
  }

  /** End of the longest run of characters in class `f` from `p` on. */
  function Span(s: string, p: nat, f: char -> bool): (q: nat)
    requires p <= |s|
    ensures p <= q <= |s|
    ensures forall k :: p <= k < q ==> f(s[k])
    ensures q < |s| ==> !f(s[q])
    decreases |s| - p
  {
    if p < |s| && f(s[p]) then Span(s, p + 1, f) else p
  }

  function SkipWs(s: string, p: nat): (q: nat)
    requires p <= |s|
    ensures p <= q <= |s|
  {
    Span(s, p, IsSpace)
  }

  predicate CharAt(s: string, p: nat, c: char) {
    p < |s| && s[p] == c
  }

  /** Skips spaces, then reads the longest identifier, which may be empty. */
  function ReadIdent(s: string, p: nat): (r: Word)
    requires p <= |s|
    ensures p <= r.end <= |s| && |r.text| <= r.end - p
    ensures forall i :: 0 <= i < |r.text| ==> IsIdentChar(r.text[i])
  {
    var start := SkipWs(s, p);
    var end := Span(s, start, IsIdentChar);
    Word(s[start..end], end)
  }

  /** Skipping spaces before reading a word makes no difference. */
  lemma SkipThenRead(s: string, p: nat)
    requires p <= |s|
    ensures ReadIdent(s, SkipWs(s, p)) == ReadIdent(s, p)
  {
  }

  function ExpectChar(s: string, p: nat, c: char): (r: Parsed<()>)
    requires p <= |s|
    ensures r.Yes? ==> p < r.pos <= |s|
  {
    var q := SkipWs(s, p);
    if CharAt(s, q, c) then Yes((), q + 1)
    else No(Unexpected(if q < |s| then q + 1 else q, ExpectedChar(c)))
  }

  // ----- Operands -----

  /** A `u64` numeral; the callers only pass digits and dots. */
  function ParseU64(s: string): (r: Option<nat>)
    ensures r.Some? <==> s != "" && Decimal.AllDigits(s) && Decimal.Value(s) <= U64_MAX
    ensures r.Some? ==> r.value == Decimal.Value(s)
  {
    if s != "" && Decimal.AllDigits(s) && Decimal.Value(s) <= U64_MAX then Some(Decimal.Value(s)) else None
  }

  predicate IsNotDot(c: char) {
    c != '.'
  }

  /** `HH.MM` as seconds: hours up to the first dot, minutes after it. */
  function ParseLookback(raw: string): (r: Option<nat>)
    ensures r.Some? ==> r.value % 60 == 0 && r.value <= MAX_LOOKBACK
  {
    var dot := Span(raw, 0, IsNotDot);
    if dot == |raw| then None
    else
      var h := ParseU64(raw[..dot]);
      var m := ParseU64(raw[dot + 1..]);
      if h.None? || m.None? || m.value >= 60 then None
      else Some(h.value * 3600 + m.value * 60)
  }

  function ReadLookback(s: string, p: nat): (r: Parsed<nat>)
    requires p <= |s|
    ensures r.Yes? ==> p <= r.pos <= |s| && r.value % 60 == 0 && r.value <= MAX_LOOKBACK
  {
    var start := SkipWs(s, p);
    var end := Span(s, start, IsLookBackChar);
    match ParseLookback(s[start..end])
    case Some(d) => Yes(d, end)
    case None => No(BadLookback(start, s[start..end]))
  }

  /** `(name)` or `(name, HH.MM)`. */
  function ParseParenNameLb(s: string, p: nat): (r: Parsed<Named>)
    requires p <= |s|
    ensures r.Yes? ==> p < r.pos <= |s|
    ensures r.Yes? ==> IsName(r.value.name) && FitsLookBack(r.value.lb) && WholeMinutes(r.value.lb)
  {
    match ExpectChar(s, p, '(')
    case No(e) => No(e)
    case Yes(_, open) =>
      var name := ReadIdent(s, open);
      if name.text == "" then No(Unexpected(name.end, ExpectedJobName))
      else
        match ParseLbAndClose(s, name.end)
        case No(e) => No(e)
        case Yes(lb, close) => Yes(Named(name.text, lb), close)
  }

  /** What follows the name: an optional `, HH.MM`, and the parenthesis. */
  function ParseLbAndClose(s: string, p: nat): (r: Parsed<LookBack>)
    requires p <= |s|
    ensures r.Yes? ==> p < r.pos <= |s| && FitsLookBack(r.value) && WholeMinutes(r.value)
  {
    var comma := SkipWs(s, p);
    if CharAt(s, comma, ',') then
      match ReadLookback(s, comma + 1)
      case No(e) => No(e)
      case Yes(d, after) => ParseClose(s, after, Some(d))
    else
      ParseClose(s, comma, None)
  }

  function ParseClose(s: string, p: nat, lb: LookBack): (r: Parsed<LookBack>)
    requires p <= |s|
    ensures r.Yes? ==> p < r.pos <= |s| && r.value == lb
  {
    match ExpectChar(s, SkipWs(s, p), ')')
    case No(e) => No(e)
    case Yes(_, close) => Yes(lb, close)
  }

  /** `(name)`; a look-back is refused. */
  function ParseParenName(s: string, p: nat): (r: Parsed<string>)
    requires p <= |s|
    ensures r.Yes? ==> p < r.pos <= |s| && IsName(r.value)
  {
    match ParseParenNameLb(s, p)
    case No(e) => No(e)
    case Yes(named, q) =>
      if named.lb.Some? then No(Unexpected(q, LookBackNotSupported)) else Yes(named.name, q)
  }

  /** `text` stands in `s` at `p`. */
  predicate At(s: string, p: nat, text: string) {
    p + |text| <= |s| && s[p..p + |text|] == text
  }

  function TryReadCmpOp(s: string, p: nat): (r: Operator)
    requires p <= |s|
    ensures p <= r.end <= |s|
  {
    var q := SkipWs(s, p);
    if At(s, q, "!=") then Operator(Some(Ne), q + 2)
    else if At(s, q, "<=") then Operator(Some(Le), q + 2)
    else if At(s, q, ">=") then Operator(Some(Ge), q + 2)
    else if At(s, q, "=") then Operator(Some(Eq), q + 1)
    else if At(s, q, "<") then Operator(Some(Lt), q + 1)
    else if At(s, q, ">") then Operator(Some(Gt), q + 1)
    else Operator(None, q)
  }

  /** A decimal `i32`, negated after it is read: the least `i32` cannot be written. */
  function ReadInt(s: string, p: nat): (r: Parsed<int>)
    requires p <= |s|
    ensures r.Yes? ==> p < r.pos <= |s| && IsI32(r.value) && r.value != I32_MIN
  {
    var q := SkipWs(s, p);
    var negative := CharAt(s, q, '-');
    var start := if negative then q + 1 else q;
    var end := Span(s, start, Decimal.IsDigit);
    var digits := s[start..end];
    if digits == "" then No(Unexpected(end, ExpectedInteger))
    else if Decimal.Value(digits) > I32_MAX then No(Unexpected(end, IntegerOverflow))
    else
      var n: int := Decimal.Value(digits);
      Yes(if negative then -n else n, end)
  }

  /** The tail `<op> N` shared by the counting functions. */
  function ParseComparison(s: string, p: nat, func: string): (r: Parsed<Comparison>)
    requires p <= |s|
    ensures r.Yes? ==> p < r.pos <= |s| && IsI32(r.value.n) && r.value.n != I32_MIN
  {
    var op := TryReadCmpOp(s, p);
    if op.op.None? then No(Unexpected(op.end, ExpectedOperator(func)))
    else
      match ReadInt(s, op.end)
      case No(e) => No(e)
      case Yes(n, end) => Yes(Comparison(op.op.value, n), end)
  }

  /** `(name[, HH.MM]) <op> N`. */
  function ParseCounted(s: string, p: nat, func: string): (r: Parsed<Counted>)
    requires p <= |s|
    ensures r.Yes? ==> p < r.pos <= |s|
    ensures r.Yes? ==>
              var named := r.value.named; IsName(named.name) && FitsLookBack(named.lb) && WholeMinutes(named.lb)
    ensures r.Yes? ==> IsI32(r.value.cmp.n) && r.value.cmp.n != I32_MIN
  {
    match ParseParenNameLb(s, p)
    case No(e) => No(e)
    case Yes(named, q) =>
      match ParseComparison(s, q, func)
      case No(e) => No(e)
      case Yes(cmp, end) => Yes(Counted(named, cmp), end)
  }

  // ----- Grammar -----

  datatype Func =
    | SuccessF | FailureF | DoneF | RunningF | NotRunningF | ValueF
    | ExitCodeF | NumRunF | NumSucF | NumFailF

  /** The function a lower-case name stands for. */
  function FuncOf(f: string): Option<Func> {
    if f == "success" || f == "s" then Some(SuccessF)
    else if f == "failure" || f == "f" then Some(FailureF)
    else if f == "done" || f == "d" then Some(DoneF)
    else if f == "running" || f == "r" then Some(RunningF)
    else if f == "notrunning" || f == "n" then Some(NotRunningF)
    else if f == "exitcode" then Some(ExitCodeF)
    else if f == "numrun" then Some(NumRunF)
    else if f == "numsuc" then Some(NumSucF)
    else if f == "numfail" then Some(NumFailF)
    else if f == "value" then Some(ValueF)
    else None
  }

  predicate TakesCount(f: Func) {
    f.NumRunF? || f.NumSucF? || f.NumFailF?
  }

  predicate TakesLookBack(f: Func) {
    f.SuccessF? || f.FailureF? || f.DoneF? || TakesCount(f)
  }

  function StateExpr(f: Func, job: Named): Expr {
    if f.SuccessF? then Expr.Success(job.name, job.lb)
    else if f.FailureF? then Failure(job.name, job.lb)
    else Done(job.name, job.lb)
  }

  function NameExpr(f: Func, name: string): Expr {
    if f.RunningF? then Expr.Running(name)
    else if f.NotRunningF? then NotRunning(name)
    else Expr.Value(name)
  }

  function CountExpr(f: Func, job: Named, cmp: Comparison): Expr {
    if f.NumRunF? then NumRun(job.name, cmp.op, cmp.n, job.lb)
    else if f.NumSucF? then NumSuc(job.name, cmp.op, cmp.n, job.lb)
    else NumFail(job.name, cmp.op, cmp.n, job.lb)
  }

  function ParseFuncCall(s: string, p: nat, func: string): (r: Parsed<Expr>)
    requires p <= |s|
    ensures r.Yes? ==> p < r.pos <= |s| && IsExpr(r.value) && IsPrintable(r.value)
  {
    match FuncOf(Lower(func))
    case None => No(UnknownFunction(func))
    case Some(f) => ParseOperands(s, p, f, Lower(func))
  }

  function ParseExitCode(s: string, p: nat, func: string): (r: Parsed<Expr>)
    requires p <= |s|
    ensures r.Yes? ==> p < r.pos <= |s| && IsExpr(r.value) && IsPrintable(r.value)
  {
    match ParseParenName(s, p)
    case No(e) => No(e)
    case Yes(n, q) =>
      match ParseComparison(s, q, func)
      case No(e) => No(e)
      case Yes(cmp, end) => Yes(ExitCode(n, cmp.op, cmp.n), end)
  }

  function ParseCountCall(s: string, p: nat, f: Func, func: string): (r: Parsed<Expr>)
    requires p <= |s| && TakesCount(f)
    ensures r.Yes? ==> p < r.pos <= |s| && IsExpr(r.value) && IsPrintable(r.value)
  {
    match ParseCounted(s, p, func)
    case No(e) => No(e)
    case Yes(c, end) => Yes(CountExpr(f, c.named, c.cmp), end)
  }

  function ParseOperands(s: string, p: nat, f: Func, func: string): (r: Parsed<Expr>)
    requires p <= |s|
    ensures r.Yes? ==> p < r.pos <= |s| && IsExpr(r.value) && IsPrintable(r.value)
  {
    if f.ExitCodeF? then ParseExitCode(s, p, func)
    else if TakesCount(f) then ParseCountCall(s, p, f, func)
    else if TakesLookBack(f) then
      match ParseParenNameLb(s, p)
      case No(e) => No(e)
      case Yes(named, end) => Yes(StateExpr(f, named), end)
    else
      match ParseParenName(s, p)
      case No(e) => No(e)
      case Yes(n, end) => Yes(NameExpr(f, n), end)
  }

  function ParseAtom(s: string, p: nat): (r: Parsed<Expr>)
    requires p <= |s|
    ensures r.Yes? ==> p < r.pos <= |s| && IsExpr(r.value) && IsPrintable(r.value)
    decreases |s| - p, 0
  {
    var q := SkipWs(s, p);
    if CharAt(s, q, '(') then
      match ParseOr(s, q + 1)
      case No(e) => No(e)
      case Yes(inner, end) => CloseParen(s, end, inner)
    else
      var ident := ReadIdent(s, q);
      if ident.text == "" then No(Unexpected(ident.end, ExpectedExpression))
      else
        var next := SkipWs(s, ident.end);
        if CharAt(s, next, '(') then ParseFuncCall(s, next, ident.text)
        else No(Unexpected(next, BareIdentifier(ident.text)))
  }

  function CloseParen(s: string, p: nat, inner: Expr): (r: Parsed<Expr>)
    requires p <= |s|
    ensures r.Yes? ==> p < r.pos <= |s| && r.value == inner
  {
    match ExpectChar(s, p, ')')
    case No(e) => No(e)
    case Yes(_, close) => Yes(inner, close)
  }

  /** `not` is the keyword only when no parenthesis follows it. */
  function ParseNot(s: string, p: nat): (r: Parsed<Expr>)
    requires p <= |s|
    ensures r.Yes? ==> p < r.pos <= |s| && IsExpr(r.value) && IsPrintable(r.value)
    decreases |s| - p, 1
  {
    var start := SkipWs(s, p);
    var ident := ReadIdent(s, start);
    var next := SkipWs(s, ident.end);
    if Lower(ident.text) == "not" && !CharAt(s, next, '(') then
      match ParseNot(s, next)
      case No(e) => No(e)
      case Yes(e, q) => Yes(Not(e), q)
    else
      ParseAtom(s, start)
  }

  function ParseAnd(s: string, p: nat): (r: Parsed<Expr>)
    requires p <= |s|
    ensures r.Yes? ==> p < r.pos <= |s| && IsExpr(r.value) && IsPrintable(r.value)
    decreases |s| - p, 3
  {
    match ParseNot(s, p)
    case No(e) => No(e)
    case Yes(left, q) => AndTail(s, q, left)
  }

  /** The loop of `parse_and`: what is still to come after `left`. */
  function AndTail(s: string, p: nat, left: Expr): (r: Parsed<Expr>)
    requires p <= |s| && IsExpr(left) && IsPrintable(left)
    ensures r.Yes? ==> p <= r.pos <= |s| && IsExpr(r.value) && IsPrintable(r.value)
    decreases |s| - p, 2
  {
    var tok := ReadIdent(s, p);
    if Lower(tok.text) == "and" then
      match ParseNot(s, tok.end)
      case No(e) => No(e)
      case Yes(right, end) => AndTail(s, end, And(left, right))
    else
      Yes(left, p)
  }

  function ParseOr(s: string, p: nat): (r: Parsed<Expr>)
    requires p <= |s|
    ensures r.Yes? ==> p < r.pos <= |s| && IsExpr(r.value) && IsPrintable(r.value)
    decreases |s| - p, 5
  {
    match ParseAnd(s, p)
    case No(e) => No(e)
    case Yes(left, q) => OrTail(s, q, left)
  }

  /** The loop of `parse_or`. */
  function OrTail(s: string, p: nat, left: Expr): (r: Parsed<Expr>)
    requires p <= |s| && IsExpr(left) && IsPrintable(left)
    ensures r.Yes? ==> p <= r.pos <= |s| && IsExpr(r.value) && IsPrintable(r.value)
    decreases |s| - p, 4
  {
    var tok := ReadIdent(s, p);
    if Lower(tok.text) == "or" then
      match ParseAnd(s, tok.end)
      case No(e) => No(e)
      case Yes(right, end) => OrTail(s, end, Or(left, right))
    else
      Yes(left, p)
  }

  lemma BinaryIsLegal(a: Expr, b: Expr)
    requires IsExpr(a) && IsPrintable(a) && IsExpr(b) && IsPrintable(b)
    ensures IsExpr(And(a, b)) && IsPrintable(And(a, b)) && IsExpr(Or(a, b)) && IsPrintable(Or(a, b))
  {
  }

  /** A whole text, with nothing but space after the expression. */
  function Parse(s: string): (r: Result<Expr, ParseError>)
    ensures r.Ok? ==> IsExpr(r.value) && IsPrintable(r.value)
  {
    match ParseOr(s, 0)
    case No(e) => Err(e)
    case Yes(e, p) =>
      var q := SkipWs(s, p);
      if q != |s| then Err(Unexpected(q, TrailingInput)) else Ok(e)
  }
}
