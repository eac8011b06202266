/** Vocabulary shared by every part of the scheduler model. */
module Core {

  datatype Option<+T> = None | Some(value: T)

  datatype Result<+T, +E> = Ok(value: T) | Err(error: E)

  const U64_MAX := 0xFFFF_FFFF_FFFF_FFFF

  // Identifiers are ULIDs in the program; only their equality matters.
  type JobId = nat
  type RunId = nat
  type ResourceId = nat
  type CalendarId = nat

  // Seconds on an unbounded clock.
  type Time = int

  /** State machine of one run. */
  datatype RunState = Queued | Running | Success | Failed | Killed | Skipped | Lost
  {
    predicate IsTerminal() {
      this != Queued && this != Running
    }
  }
}
