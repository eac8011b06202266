/** Three-valued evaluation of conditions against what is known of other jobs. */
module Evaluator {
  import opened Core
  import opened Condition

  /** The questions an expression may ask; `None` means "unknown job". */
  datatype Upstream = Upstream(
    lastState: string -> Option<RunState>,
    lastExit: string -> Option<int>,
    isRunning: string -> bool,
    successWithin: (string, nat) -> Option<bool>,
    failureWithin: (string, nat) -> Option<bool>,
    doneWithin: (string, nat) -> Option<bool>,
    runsWithin: (string, nat) -> Option<nat>,
    successesWithin: (string, nat) -> Option<nat>,
    failuresWithin: (string, nat) -> Option<nat>,
    globalValue: string -> Option<bool>)

  // The window of a count without a look-back.
  const NO_WINDOW := U64_MAX / 2

  /** A 32-bit cast of a counter. */
  function AsI32(n: nat): (r: int)
    ensures IsI32(r)
    ensures (n - r) % 0x1_0000_0000 == 0
    ensures n <= I32_MAX ==> r == n
  {
    var low := n % 0x1_0000_0000;
    if low <= I32_MAX then low else low - 0x1_0000_0000
  }

  predicate ApplyOp(op: CmpOp, actual: int, expected: int) {
    match op
    case Eq => actual == expected
    case Ne => actual != expected
    case Lt => actual < expected
    case Le => actual <= expected
    case Gt => actual > expected
    case Ge => actual >= expected
  }

  function StateIs(state: Option<RunState>, f: RunState -> bool): Option<bool> {
    match state
    case None => None
    case Some(st) => Some(f(st))
  }

  function Compared(op: CmpOp, actual: Option<int>, expected: int): Option<bool> {
    match actual
    case None => None
    case Some(n) => Some(ApplyOp(op, n, expected))
  }

  function Counted(op: CmpOp, count: Option<nat>, expected: int): Option<bool> {
    match count
    case None => None
    case Some(n) => Some(ApplyOp(op, AsI32(n), expected))
  }

  function WindowOf(lb: LookBack): nat {
    if lb.Some? then lb.value else NO_WINDOW
  }

  /** Both sides of a connective are always evaluated: one unknown makes it unknown. */
  function Evaluate(e: Expr, u: Upstream): Option<bool> {
    match e
    case Success(j, lb) =>
      if lb.Some? then u.successWithin(j, lb.value) else StateIs(u.lastState(j), st => st == RunState.Success)
    case Failure(j, lb) =>
      if lb.Some? then u.failureWithin(j, lb.value) else StateIs(u.lastState(j), st => st == RunState.Failed)
    case Done(j, lb) =>
      if lb.Some? then u.doneWithin(j, lb.value) else StateIs(u.lastState(j), (st: RunState) => st.IsTerminal())
    case Running(j) => Some(u.isRunning(j))
    case NotRunning(j) => Some(!u.isRunning(j))
    case ExitCode(j, op, n) => Compared(op, u.lastExit(j), n)
    case NumRun(j, op, n, lb) => Counted(op, u.runsWithin(j, WindowOf(lb)), n)
    case NumSuc(j, op, n, lb) => Counted(op, u.successesWithin(j, WindowOf(lb)), n)
    case NumFail(j, op, n, lb) => Counted(op, u.failuresWithin(j, WindowOf(lb)), n)
    case Value(name) => u.globalValue(name)
    case And(a, b) =>
      var (x, y) := (Evaluate(a, u), Evaluate(b, u));
      if x.None? || y.None? then None else Some(x.value && y.value)
    case Or(a, b) =>
      var (x, y) := (Evaluate(a, u), Evaluate(b, u));
      if x.None? || y.None? then None else Some(x.value || y.value)
    case Not(a) =>
      var x := Evaluate(a, u);
      if x.None? then None else Some(!x.value)
  }

  // ----- Strictness -----

  ghost function Leaves(e: Expr): set<Expr> {
    match e
    case And(a, b) => Leaves(a) + Leaves(b)
    case Or(a, b) => Leaves(a) + Leaves(b)
    case Not(a) => Leaves(a)
    case _ => {e}
  }

  /** Two-valued semantics, given a truth value for every leaf. */
  predicate Classical(e: Expr, truth: Expr -> bool) {
    match e
    case And(a, b) => Classical(a, truth) && Classical(b, truth)
    case Or(a, b) => Classical(a, truth) || Classical(b, truth)
    case Not(a) => !Classical(a, truth)
    case _ => truth(e)
  }

  /** The answer is known exactly when every leaf is, and is then the classical one. */
  lemma {:induction false} EvaluationIsStrict(e: Expr, u: Upstream, truth: Expr -> bool)
    requires forall l :: l in Leaves(e) && Evaluate(l, u).Some? ==> truth(l) == Evaluate(l, u).value
    ensures Evaluate(e, u).Some? <==> forall l :: l in Leaves(e) ==> Evaluate(l, u).Some?
    ensures Evaluate(e, u).Some? ==> Evaluate(e, u).value == Classical(e, truth)
  {
    match e
    case And(a, b) =>
      EvaluationIsStrict(a, u, truth);
      EvaluationIsStrict(b, u, truth);
    case Or(a, b) =>
      EvaluationIsStrict(a, u, truth);
      EvaluationIsStrict(b, u, truth);
    case Not(a) =>
      EvaluationIsStrict(a, u, truth);
    case _ =>
      assert Leaves(e) == {e};
  }

  /** `v` knows at least what `u` knows. Whether a job runs is never unknown, so it may not change. */
  ghost predicate Refines(v: Upstream, u: Upstream) {
    && (forall j :: u.lastState(j).Some? ==> v.lastState(j) == u.lastState(j))
    && (forall j :: u.lastExit(j).Some? ==> v.lastExit(j) == u.lastExit(j))
    && (forall j :: v.isRunning(j) == u.isRunning(j))
    && (forall j, w :: u.successWithin(j, w).Some? ==> v.successWithin(j, w) == u.successWithin(j, w))
    && (forall j, w :: u.failureWithin(j, w).Some? ==> v.failureWithin(j, w) == u.failureWithin(j, w))
    && (forall j, w :: u.doneWithin(j, w).Some? ==> v.doneWithin(j, w) == u.doneWithin(j, w))
    && (forall j, w :: u.runsWithin(j, w).Some? ==> v.runsWithin(j, w) == u.runsWithin(j, w))
    && (forall j, w :: u.successesWithin(j, w).Some? ==> v.successesWithin(j, w) == u.successesWithin(j, w))
    && (forall j, w :: u.failuresWithin(j, w).Some? ==> v.failuresWithin(j, w) == u.failuresWithin(j, w))
    && (forall n :: u.globalValue(n).Some? ==> v.globalValue(n) == u.globalValue(n))
  }

  /** Learning more never changes an answer already given. */
  lemma {:induction false} AnswersAreStable(e: Expr, u: Upstream, v: Upstream)
    requires Refines(v, u) && Evaluate(e, u).Some?
    ensures Evaluate(e, v) == Evaluate(e, u)
  {
    match e
    case And(a, b) =>
      AnswersAreStable(a, u, v);
      AnswersAreStable(b, u, v);
    case Or(a, b) =>
      AnswersAreStable(a, u, v);
      AnswersAreStable(b, u, v);
    case Not(a) =>
      AnswersAreStable(a, u, v);
    case _ =>
  }
}
