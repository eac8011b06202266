/** From the way a process ends to the state of its run. */
module Outcome {
  import opened Core

  datatype ExitCodePolicy = ExitCodePolicy(maxExitSuccess: int, failCodes: seq<int>, conditionCode: Option<int>)

  datatype Judgement = Good | Bad | Conditional

  /** What the executor reports of a process that was started. */
  datatype Ending =
    | Exited(timedOut: bool, code: Option<int>)
    | WasKilled
    | TaskPanicked

  function Judge(policy: ExitCodePolicy, code: int): Judgement {
    if policy.conditionCode == Some(code) then Conditional
    else if code in policy.failCodes then Bad
    else if 0 <= code <= policy.maxExitSuccess then Good
    else Bad
  }

  function StateAfter(policy: ExitCodePolicy, ending: Ending): RunState {
    match ending
    case Exited(timedOut, code) =>
      if timedOut then Failed
      else if code.None? then Failed
      else if Judge(policy, code.value) == Bad then Failed else Success
    case WasKilled => Killed
    case TaskPanicked => Lost
  }

  /** A code passes as the condition code, or as one up to the limit that is not listed as failing. */
  predicate Passes(policy: ExitCodePolicy, code: int) {
    policy.conditionCode == Some(code) || (0 <= code <= policy.maxExitSuccess && code !in policy.failCodes)
  }

  /** Each final state, exactly when a run ends in it. */
  lemma {:induction false} EndsExactly(policy: ExitCodePolicy, ending: Ending)
    ensures var state := StateAfter(policy, ending);
            && (state == Success <==>
                  ending.Exited? && !ending.timedOut && ending.code.Some? && Passes(policy, ending.code.value))
            && (state == Killed <==> ending.WasKilled?)
            && (state == Lost <==> ending.TaskPanicked?)
            && state in {Success, Failed, Killed, Lost}
  {
  }
}
