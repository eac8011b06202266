/** The state of a box, from its children and its optional condition expressions. */
module BoxRollup {
  import opened Core
  import opened Condition
  import opened Evaluator
  import ConditionParser
  import ConditionCursor
  import ConditionRoundTrip
  import RunHistory

  datatype BoxState = BoxSuccess | BoxRunning | BoxFailed | BoxPending | BoxPaused

  datatype JobBox = JobBox(paused: bool, successExpr: Option<string>, failureExpr: Option<string>)

  type ChildStates = map<string, RunState>

  function StateOf(states: ChildStates, job: string): Option<RunState> {
    if job in states then Some(states[job]) else None
  }

  function CountIf(state: Option<RunState>, f: RunState -> bool): Option<nat> {
    match state
    case None => None
    case Some(st) => Some(if f(st) then 1 else 0)
  }

  /** Look-back windows are ignored: only the latest state of a child is known. */
  function ChildUpstream(states: ChildStates): Upstream {
    var succeeded := (st: RunState) => st == RunState.Success;
    var failed := (st: RunState) => st == RunState.Failed;
    Upstream(
      (j: string) => StateOf(states, j),
      (j: string) => None,
      (j: string) => StateOf(states, j) in {Some(RunState.Running), Some(RunState.Queued)},
      (j: string, w: nat) => StateIs(StateOf(states, j), succeeded),
      (j: string, w: nat) => StateIs(StateOf(states, j), failed),
      (j: string, w: nat) => StateIs(StateOf(states, j), (st: RunState) => st.IsTerminal()),
      (j: string, w: nat) => CountIf(StateOf(states, j), st => true),
      (j: string, w: nat) => CountIf(StateOf(states, j), succeeded),
      (j: string, w: nat) => CountIf(StateOf(states, j), failed),
      (n: string) => None)
  }

  /** A rule fires when it parses and is known to be true. */
  predicate Fires(rule: Option<string>, states: ChildStates) {
    && rule.Some?
    && ConditionParser.Parse(rule.value).Ok?
    && Evaluate(ConditionParser.Parse(rule.value).value, ChildUpstream(states)) == Some(true)
  }

  predicate IsFailedState(st: Option<RunState>) {
    st in {Some(RunState.Failed), Some(RunState.Killed), Some(RunState.Lost)}
  }

  predicate IsActiveState(st: Option<RunState>) {
    st in {Some(RunState.Running), Some(RunState.Queued)}
  }

  /** The default rule, by what is among the children. */
  function Rollup(children: set<string>, states: ChildStates): BoxState {
    if exists c :: c in children && IsFailedState(StateOf(states, c)) then BoxFailed
    else if exists c :: c in children && IsActiveState(StateOf(states, c)) then BoxRunning
    else if children != {} && forall c :: c in children ==> StateOf(states, c) == Some(RunState.Success) then BoxSuccess
    else BoxPending
  }

  function Names(children: seq<string>): set<string> {
    set c | c in children
  }

  function BoxStateOf(b: JobBox, children: seq<string>, states: ChildStates): BoxState {
    if b.paused then BoxPaused
    else if Fires(b.failureExpr, states) then BoxFailed
    else if Fires(b.successExpr, states) then BoxSuccess
    else Rollup(Names(children), states)
  }

  method RuleFires(rule: Option<string>, states: ChildStates) returns (fires: bool)
    ensures fires == Fires(rule, states)
  {
    if rule.None? {
      return false;
    }
    var parsed := ConditionCursor.Parse(rule.value);
    fires := parsed.Ok? && Evaluate(parsed.value, ChildUpstream(states)) == Some(true);
  }

  /** The rule is there, parses, and is known to be true of the children. */
  ghost predicate IsKnownTrue(rule: Option<string>, states: ChildStates) {
    exists text, e ::
      rule == Some(text) && ConditionParser.Parse(text) == Ok(e) && Evaluate(e, ChildUpstream(states)) == Some(true)
  }

  /** The state of a box by its children alone, in order of precedence. */
  ghost predicate IsRolledUp(children: seq<string>, states: ChildStates, r: BoxState) {
    var (failed, active) := ({RunState.Failed, RunState.Killed, RunState.Lost}, {RunState.Running, RunState.Queued});
    && (r == BoxFailed <==> exists c :: c in children && c in states && states[c] in failed)
    && (r == BoxRunning <==>
          && (forall c :: c in children && c in states ==> states[c] !in failed)
          && (exists c :: c in children && c in states && states[c] in active))
    && (r == BoxSuccess <==>
          children != [] && forall c :: c in children ==> c in states && states[c] == RunState.Success)
    && (r == BoxPending <==> r != BoxFailed && r != BoxRunning && r != BoxSuccess)
  }

  /** Pause first, then the failure rule, then the success rule, then the children. */
  ghost predicate IsBoxState(b: JobBox, children: seq<string>, states: ChildStates, r: BoxState) {
    if b.paused then r == BoxPaused
    else if IsKnownTrue(b.failureExpr, states) then r == BoxFailed
    else if IsKnownTrue(b.successExpr, states) then r == BoxSuccess
    else IsRolledUp(children, states, r)
  }

  lemma {:induction false} RulesFireWhenKnownTrue(rule: Option<string>, states: ChildStates)
    ensures Fires(rule, states) <==> IsKnownTrue(rule, states)
  {
    hide ConditionParser.Parse, Evaluate, ChildUpstream;
  }

  lemma {:induction false} RollupMeans(children: seq<string>, states: ChildStates)
    ensures IsRolledUp(children, states, Rollup(Names(children), states))
  {
    assert forall c :: c in Names(children) <==> c in children;
    assert children != [] ==> children[0] in Names(children);
    assert forall c :: c in states ==> StateOf(states, c) == Some(states[c]);
  }

  lemma {:induction false} BoxStateMeans(b: JobBox, children: seq<string>, states: ChildStates)
    ensures IsBoxState(b, children, states, BoxStateOf(b, children, states))
  {
    hide Fires, IsKnownTrue, Rollup, IsRolledUp, Names;
    RulesFireWhenKnownTrue(b.failureExpr, states);
    RulesFireWhenKnownTrue(b.successExpr, states);
    RollupMeans(children, states);
  }

  method EvaluateBoxState(b: JobBox, children: seq<string>, states: ChildStates) returns (r: BoxState)
    ensures r == BoxStateOf(b, children, states)
    ensures IsBoxState(b, children, states, r)
  {
    BoxStateMeans(b, children, states);
    hide IsBoxState;
    if b.paused {
      return BoxPaused;
    }
    var fires := RuleFires(b.failureExpr, states);
    if fires {
      return BoxFailed;
    }
    fires := RuleFires(b.successExpr, states);
    if fires {
      return BoxSuccess;
    }
    var anyRunning, anyFailed, anyPending, allSucceed := false, false, false, children != [];
    for i := 0 to |children|
      invariant anyFailed <==> exists c :: c in children[..i] && IsFailedState(StateOf(states, c))
      invariant anyRunning <==> exists c :: c in children[..i] && IsActiveState(StateOf(states, c))
      invariant allSucceed <==>
                  children != [] && forall c :: c in children[..i] ==> StateOf(states, c) == Some(RunState.Success)
      invariant !allSucceed && children != [] ==> anyFailed || anyRunning || anyPending
    {
      var st := StateOf(states, children[i]);
      assert children[..i + 1] == children[..i] + [children[i]];
      match st
      case Some(Success) =>
      case Some(Failed) => anyFailed, allSucceed := true, false;
      case Some(Killed) => anyFailed, allSucceed := true, false;
      case Some(Lost) => anyFailed, allSucceed := true, false;
      case Some(Running) => anyRunning, allSucceed := true, false;
      case Some(Queued) => anyRunning, allSucceed := true, false;
      case Some(Skipped) => anyPending, allSucceed := true, false;
      case None => anyPending, allSucceed := true, false;
    }
    assert children[..|children|] == children;
    assert forall c :: c in Names(children) <==> c in children;
    assert children != [] ==> children[0] in Names(children);
    if anyFailed {
      return BoxFailed;
    }
    if anyRunning {
      return BoxRunning;
    }
    if allSucceed {
      return BoxSuccess;
    }
    return BoxPending;
  }

  // ----- The default rule as a success expression -----

  /** `success(c1) and success(c2) and ...`, nested to the left. */
  function AllSucceed(children: seq<string>): Expr
    requires children != []
  {
    var n := |children| - 1;
    if n == 0 then Expr.Success(children[0], None)
    else And(AllSucceed(children[..n]), Expr.Success(children[n], None))
  }

  lemma {:induction false} AllSucceedIsLegal(children: seq<string>)
    requires children != [] && forall i :: 0 <= i < |children| ==> IsName(children[i])
    ensures IsExpr(AllSucceed(children)) && NotFree(AllSucceed(children)) && IsPrintable(AllSucceed(children))
  {
    if |children| > 1 {
      AllSucceedIsLegal(children[..|children| - 1]);
    }
  }

  lemma {:induction false} ChildSucceeds(c: string, states: ChildStates)
    ensures Evaluate(Expr.Success(c, None), ChildUpstream(states)) == Some(true)
       <==> StateOf(states, c) == Some(RunState.Success)
  {
  }

  lemma {:induction false} BothHold(a: Expr, b: Expr, u: Upstream)
    ensures Evaluate(And(a, b), u) == Some(true) <==> Evaluate(a, u) == Some(true) && Evaluate(b, u) == Some(true)
  {
  }

  lemma {:induction false} AllSucceedMeans(children: seq<string>, states: ChildStates)
    requires children != []
    ensures Evaluate(AllSucceed(children), ChildUpstream(states)) == Some(true)
       <==> forall c :: c in children ==> StateOf(states, c) == Some(RunState.Success)
  {
    hide ChildUpstream, StateOf, Evaluate;
    var n := |children| - 1;
    ChildSucceeds(children[n], states);
    assert forall c :: c in children <==> c in children[..n] || c == children[n] by {
      assert children == children[..n] + [children[n]];
    }
    if n > 0 {
      BothHold(AllSucceed(children[..n]), Expr.Success(children[n], None), ChildUpstream(states));
      AllSucceedMeans(children[..n], states);
    }
  }

  /**
   * Writing the default rule out as a success expression changes nothing, for
   * any box, any failure rule and any child states.
   */
  lemma {:induction false} DefaultRuleAsExpression(b: JobBox, children: seq<string>, states: ChildStates)
    requires children != [] && forall i :: 0 <= i < |children| ==> IsName(children[i])
    ensures BoxStateOf(b.(successExpr := Some(Print(AllSucceed(children)))), children, states)
         == BoxStateOf(b.(successExpr := None), children, states)
  {
    hide ConditionParser.Parse, Print;
    AllSucceedIsLegal(children);
    ConditionRoundTrip.RoundTripExactly(AllSucceed(children));
    AllSucceedMeans(children, states);
    assert children[0] in Names(children);
    assert forall c :: c in Names(children) <==> c in children;
  }

  /** The run history in which every child with a state has run once, just now. */
  function OneRunEach(states: ChildStates, now: Time): RunHistory.Snapshot {
    RunHistory.Snapshot(
      map c | c in states :: RunHistory.LatestOf(RunHistory.RunRow(states[c], None, now, None)),
      map c | c in states :: [RunHistory.RunRow(states[c], None, now, None)],
      map[],
      now)
  }

  lemma {:induction false} OneRunCounts(states: ChildStates, now: Time, c: string, w: nat, f: RunState -> bool)
    ensures RunHistory.Within(OneRunEach(states, now), c, w, f)
         == if c in states then Some(if f(states[c]) then 1 else 0) else None
  {
    if c in states {
      var row := RunHistory.RunRow(states[c], None, now, None);
      assert [row][1..] == [];
      assert RunHistory.Count([row], RunHistory.InWindow(now, w, f)) == if f(states[c]) then 1 else 0;
    }
  }

  lemma {:induction false} TestsOfChildrenAgree(leaf: Expr, states: ChildStates, now: Time)
    requires IsLeaf(leaf)
    ensures Evaluate(leaf, ChildUpstream(states)) == Evaluate(leaf, RunHistory.AsUpstream(OneRunEach(states, now)))
  {
    if RunHistory.AsksWindow(leaf) {
      WindowsAgree(leaf, states, now);
    } else {
      hide RunHistory.Within;
    }
  }

  lemma {:induction false} WindowsAgree(leaf: Expr, states: ChildStates, now: Time)
    requires RunHistory.AsksWindow(leaf)
    ensures Evaluate(leaf, ChildUpstream(states)) == Evaluate(leaf, RunHistory.AsUpstream(OneRunEach(states, now)))
  {
    hide RunHistory.Within, OneRunEach;
    forall c, w, f
      ensures RunHistory.Within(OneRunEach(states, now), c, w, f)
           == if c in states then Some(if f(states[c]) then 1 else 0) else None
    {
      OneRunCounts(states, now, c, w, f);
    }
  }

  /**
   * A box rule means what the same condition means of a history in which
   * every child has run once, just now, to its state: all tests, counts and
   * look-backs included, of children and of strangers.
   */
  lemma {:induction false} ChildrenAreJudgedAlike(e: Expr, states: ChildStates, now: Time)
    ensures Evaluate(e, ChildUpstream(states)) == Evaluate(e, RunHistory.AsUpstream(OneRunEach(states, now)))
  {
    hide ChildUpstream, RunHistory.AsUpstream, OneRunEach;
    match e
    case And(a, b) =>
      ChildrenAreJudgedAlike(a, states, now);
      ChildrenAreJudgedAlike(b, states, now);
    case Or(a, b) =>
      ChildrenAreJudgedAlike(a, states, now);
      ChildrenAreJudgedAlike(b, states, now);
    case Not(a) => ChildrenAreJudgedAlike(a, states, now);
    case _ => TestsOfChildrenAgree(e, states, now);
  }

  /** Neither the order of the children nor repeats matter. */
  lemma {:induction false} OrderOfChildrenIsIrrelevant(b: JobBox, children: seq<string>, children': seq<string>,
                                        states: ChildStates)
    requires forall c :: c in children <==> c in children'
    ensures BoxStateOf(b, children, states) == BoxStateOf(b, children', states)
  {
    assert Names(children) == Names(children');
  }
}
