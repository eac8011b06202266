/** Condition expressions: syntax tree and printed form. */
module Condition {
  import opened Core
  import Decimal

  datatype CmpOp = Eq | Ne | Lt | Le | Gt | Ge

  /** A look-back window is a number of seconds. */
  type LookBack = Option<nat>

  datatype Expr =
    | Success(job: string, lb: LookBack)
    | Failure(job: string, lb: LookBack)
    | Done(job: string, lb: LookBack)
    | Running(job: string)
    | NotRunning(job: string)
    | ExitCode(job: string, op: CmpOp, n: int)
    | NumRun(job: string, op: CmpOp, n: int, lb: LookBack)
    | NumSuc(job: string, op: CmpOp, n: int, lb: LookBack)
    | NumFail(job: string, op: CmpOp, n: int, lb: LookBack)
    | Value(name: string)
    | And(left: Expr, right: Expr)
    | Or(left: Expr, right: Expr)
    | Not(inner: Expr)

  const I32_MAX := 0x7FFF_FFFF
  const I32_MIN := -0x8000_0000

  // The longest window whose hours are a `u64`.
  const MAX_LOOKBACK := U64_MAX * 3600 + 3599

  function PrintOp(op: CmpOp): string {
    match op
    case Eq => "="
    case Ne => "!="
    case Lt => "<"
    case Le => "<="
    case Gt => ">"
    case Ge => ">="
  }

  function PrintInt(n: int): string {
    if n < 0 then "-" + Decimal.Print(-n) else Decimal.Print(n)
  }

  /** Hours and minutes; seconds are dropped. */
  function PrintMinutes(secs: nat): string {
    var total := secs / 60;
    Decimal.Print2(total / 60) + "." + Decimal.Print2(total % 60)
  }

  function PrintLookBack(lb: LookBack): string {
    match lb
    case None => ""
    case Some(secs) => ", " + PrintMinutes(secs)
  }

  function PrintCall(func: string, job: string, lb: LookBack): string {
    func + "(" + job + PrintLookBack(lb) + ")"
  }

  function PrintCompared(func: string, job: string, lb: LookBack, op: CmpOp, n: int): string {
    PrintCall(func, job, lb) + " " + PrintOp(op) + " " + PrintInt(n)
  }

  function Print(e: Expr): string {
    match e
    case Success(j, lb) => PrintCall("success", j, lb)
    case Failure(j, lb) => PrintCall("failure", j, lb)
    case Done(j, lb) => PrintCall("done", j, lb)
    case Running(j) => PrintCall("running", j, None)
    case NotRunning(j) => PrintCall("notrunning", j, None)
    case ExitCode(j, op, n) => PrintCompared("exitcode", j, None, op, n)
    case NumRun(j, op, n, lb) => PrintCompared("numrun", j, lb, op, n)
    case NumSuc(j, op, n, lb) => PrintCompared("numsuc", j, lb, op, n)
    case NumFail(j, op, n, lb) => PrintCompared("numfail", j, lb, op, n)
    case Value(name) => PrintCall("value", name, None)
    case And(a, b) => "(" + Print(a) + " and " + Print(b) + ")"
    case Or(a, b) => "(" + Print(a) + " or " + Print(b) + ")"
    case Not(a) => "not(" + Print(a) + ")"
  }

  predicate IsIdentChar(c: char) {
    'a' <= c <= 'z' || 'A' <= c <= 'Z' || '0' <= c <= '9' || c == '_' || c == '-' || c == '.'
  }

  predicate IsName(s: string) {
    s != "" && forall i :: 0 <= i < |s| ==> IsIdentChar(s[i])
  }

  predicate IsI32(n: int) {
    I32_MIN <= n <= I32_MAX
  }

  /** What the Rust types already guarantee, together with legal names. */
  predicate IsExpr(e: Expr) {
    match e
    case Success(j, lb) => IsName(j) && FitsLookBack(lb)
    case Failure(j, lb) => IsName(j) && FitsLookBack(lb)
    case Done(j, lb) => IsName(j) && FitsLookBack(lb)
    case Running(j) => IsName(j)
    case NotRunning(j) => IsName(j)
    case ExitCode(j, op, n) => IsName(j) && IsI32(n)
    case NumRun(j, op, n, lb) => IsName(j) && IsI32(n) && FitsLookBack(lb)
    case NumSuc(j, op, n, lb) => IsName(j) && IsI32(n) && FitsLookBack(lb)
    case NumFail(j, op, n, lb) => IsName(j) && IsI32(n) && FitsLookBack(lb)
    case Value(name) => IsName(name)
    case And(a, b) => IsExpr(a) && IsExpr(b)
    case Or(a, b) => IsExpr(a) && IsExpr(b)
    case Not(a) => IsExpr(a)
  }

  /** The hours of a window fit a `u64`, as they do for every `Duration`. */
  predicate FitsLookBack(lb: LookBack) {
    lb.Some? ==> lb.value <= MAX_LOOKBACK
  }

  predicate WholeMinutes(lb: LookBack) {
    lb.Some? ==> lb.value % 60 == 0
  }

  /** Whole-minute windows and no integer that only exists negated. */
  predicate IsPrintable(e: Expr) {
    match e
    case Success(_, lb) => WholeMinutes(lb)
    case Failure(_, lb) => WholeMinutes(lb)
    case Done(_, lb) => WholeMinutes(lb)
    case ExitCode(_, _, n) => n != I32_MIN
    case NumRun(_, _, n, lb) => n != I32_MIN && WholeMinutes(lb)
    case NumSuc(_, _, n, lb) => n != I32_MIN && WholeMinutes(lb)
    case NumFail(_, _, n, lb) => n != I32_MIN && WholeMinutes(lb)
    case And(a, b) => IsPrintable(a) && IsPrintable(b)
    case Or(a, b) => IsPrintable(a) && IsPrintable(b)
    case Not(a) => IsPrintable(a)
    case _ => true
  }

  predicate IsLeaf(e: Expr) {
    !e.And? && !e.Or? && !e.Not?
  }

  predicate NotFree(e: Expr) {
    match e
    case And(a, b) => NotFree(a) && NotFree(b)
    case Or(a, b) => NotFree(a) && NotFree(b)
    case Not(_) => false
    case _ => true
  }
}
