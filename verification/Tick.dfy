/** One tick: due jobs first, then condition jobs, and what it promises about fires. */
module Tick {
  import opened Core
  import opened Resources
  import opened ResourceRejection
  import opened Scheduler
  import ConditionParser
  import Evaluator

  datatype FireOutcome =
    | OffCalendar     // the next fire is set
    | Dispatched      // enqueued; the next fire is set
    | Blocked         // resources not available; retried next tick
    | QueueFull       // rolled back, but the run row stays; retried next tick
    | AcquireFailed   // the holds table refused a row: the tick stops with an error
    | CronFailed      // off calendar, and there is no next fire: the tick stops with an error
    | SentCronFailed  // enqueued, but there is no next fire: the tick stops with an error

  predicate Stops(outcome: FireOutcome) {
    outcome == AcquireFailed || outcome == CronFailed || outcome == SentCronFailed
  }

  predicate Sends(outcome: FireOutcome) {
    outcome == Dispatched || outcome == SentCronFailed
  }

  /** One due job. */
  function Fire(t: Tables, job: Job, env: Env): (Tables, FireOutcome) {
    var next := ComputeNext(job.trigger, env);
    if !CalendarAllows(job, env.now, env.cals) then
      if next.Err? then (t, CronFailed) else (SetNextFire(t, job.id, next.value), OffCalendar)
    else
      var run := NewRun(t.nextRun, job.id, 1, []);
      var (verdict, holds) := TryAcquire(t.resources, t.holds, run.id, job.claims);
      var t1 := TakeId(t).(holds := holds);
      if verdict == Rejected then (t1, AcquireFailed)
      else if verdict == Refused then (t1, Blocked)
      else
        var t2 := InsertRun(t1, run);
        if !HasRoom(t2) then (ReleaseHolds(t2, run.id), QueueFull)
        else
          var t3 := Enqueue(t2, Intent(job, run));
          if next.Err? then (t3, SentCronFailed) else (SetNextFire(t3, job.id, next.value), Dispatched)
  }

  datatype Ticked = Ticked(t: Tables, outcomes: seq<FireOutcome>)

  function TickDue(t: Tables, due: seq<Job>, env: Env): Ticked
    decreases |due|
  {
    if due == [] then Ticked(t, [])
    else
      var (t1, outcome) := Fire(t, due[0], env);
      if Stops(outcome) then Ticked(t1, [outcome])
      else
        var rest := TickDue(t1, due[1..], env);
        Ticked(rest.t, [outcome] + rest.outcomes)
  }

  /** The condition parses, and is known to be true. */
  predicate ConditionHolds(expr: string, u: Evaluator.Upstream) {
    var parsed := ConditionParser.Parse(expr);
    parsed.Ok? && Evaluator.Evaluate(parsed.value, u) == Some(true)
  }

  /** A job that fires when its condition holds and no run of it is active. */
  predicate ConditionFires(t: Tables, job: Job, env: Env) {
    && !job.paused
    && job.trigger.Condition?
    && CalendarAllows(job, env.now, env.cals)
    && ConditionHolds(job.trigger.expr, env.upstream(t.runs))
    && !HasActive(t.runs, job.id)
  }

  /** A full queue leaves the run behind. */
  function FireCondition(t: Tables, job: Job, env: Env): (Tables, bool) {
    if !ConditionFires(t, job, env) then (t, false)
    else
      var run := NewRun(t.nextRun, job.id, 1, []);
      var t1 := InsertRun(TakeId(t), run);
      if !HasRoom(t1) then (t1, false)
      else (SetNextFire(Enqueue(t1, Intent(job, run)), job.id, None), true)
  }

  function TickConditions(t: Tables, all: seq<Job>, env: Env): (Tables, nat)
    decreases |all|
  {
    if all == [] then (t, 0)
    else
      var (t1, fired) := FireCondition(t, all[0], env);
      var (t2, n) := TickConditions(t1, all[1..], env);
      (t2, (if fired then 1 else 0) + n)
  }

  function Emitted(outcomes: seq<FireOutcome>): nat {
    if outcomes == [] then 0 else (if Sends(outcomes[0]) then 1 else 0) + Emitted(outcomes[1..])
  }

  predicate Aborted(outcomes: seq<FireOutcome>) {
    outcomes != [] && Stops(outcomes[|outcomes| - 1])
  }

  // ----- One due job -----

  /** The tables with the run stored, its claims held and its intent enqueued. */
  function WithIntent(t: Tables, job: Job): Tables
    requires forall i :: 0 <= i < |job.claims| ==> job.claims[i].resource in t.resources
  {
    var run := NewRun(t.nextRun, job.id, 1, []);
    var holds := t.holds + HoldsFor(t.resources, run.id, job.claims);
    Enqueue(InsertRun(TakeId(t), run).(holds := holds), Intent(job, run))
  }

  /** What each outcome does to the tables, in full. */
  ghost predicate FireEffect(t: Tables, job: Job, env: Env, t': Tables, outcome: FireOutcome) {
    var run := NewRun(t.nextRun, job.id, 1, []);
    var next := ComputeNext(job.trigger, env);
    match outcome
    case OffCalendar => next.Ok? && t' == SetNextFire(t, job.id, next.value)
    case CronFailed => next.Err? && t' == t
    case Blocked => t' == TakeId(t)
    case AcquireFailed => t' == TakeId(t)
    case QueueFull => !HasRoom(t) && t' == InsertRun(TakeId(t), run)
    case Dispatched =>
      && HasRoom(t) && next.Ok?
      && (forall i :: 0 <= i < |job.claims| ==> job.claims[i].resource in t.resources)
      && t' == SetNextFire(WithIntent(t, job), job.id, next.value)
    case SentCronFailed =>
      && HasRoom(t) && next.Err?
      && (forall i :: 0 <= i < |job.claims| ==> job.claims[i].resource in t.resources)
      && t' == WithIntent(t, job)
  }

  lemma {:induction false} FreshRunHoldsNothing(t: Tables)
    requires Keyed(t)
    ensures !HoldsAny(t.holds, t.nextRun) && t.nextRun !in t.runs
    ensures forall id :: !HasHold(t.holds, t.nextRun, id)
  {
  }

  /** Some claim repeats the resource of an earlier one while there is room for all up to it. */
  ghost predicate ClaimsAreRejected(t: Tables, job: Job) {
    exists k :: 0 <= k < |job.claims|
      && AllSatisfiable(t.resources, t.holds, t.nextRun, job.claims[..k])
      && RepeatsAt(t.resources, t.holds, job.claims, k)
  }

  /** The one outcome a job meets, told by what can be looked up before it is fired. */
  ghost function OutcomeOf(t: Tables, job: Job, env: Env): FireOutcome {
    var endless := ComputeNext(job.trigger, env).Err?;
    if !CalendarAllows(job, env.now, env.cals) then (if endless then CronFailed else OffCalendar)
    else if ClaimsAreRejected(t, job) then AcquireFailed
    else if !AllSatisfiable(t.resources, t.holds, t.nextRun, job.claims) then Blocked
    else if !HasRoom(t) then QueueFull
    else if endless then SentCronFailed
    else Dispatched
  }

  lemma {:induction false} ClaimsDecided(t: Tables, job: Job)
    requires TablesOk(t) && IsJob(job)
    ensures var verdict := TryAcquire(t.resources, t.holds, t.nextRun, job.claims).0;
            && (verdict == Acquired <==> AllSatisfiable(t.resources, t.holds, t.nextRun, job.claims))
            && (verdict == Rejected <==> ClaimsAreRejected(t, job))
  {
    hide Acquire, Used, HasHold, AllSatisfiable, RepeatsAt;
    FreshRunHoldsNothing(t);
    AcquiredExactly(t.resources, t.holds, t.nextRun, job.claims);
    RejectedExactly(t.resources, t.holds, t.nextRun, job.claims);
  }

  /** Every outcome, exactly when it happens, and all it changes: every failure leaves jobs, holds and queue alone. */
  lemma {:induction false} FireDoes(t: Tables, job: Job, env: Env)
    requires TablesOk(t) && IsJob(job)
    ensures FireEffect(t, job, env, Fire(t, job, env).0, Fire(t, job, env).1)
    ensures Fire(t, job, env).1 == OutcomeOf(t, job, env)
    ensures Fire(t, job, env).1 == AcquireFailed ==> !DistinctNames(job.claims)
  {
    hide Acquire, Used, HasHold, AllSatisfiable, ClaimsAreRejected, Release, HoldsFor, ComputeNext, CalendarAllows;
    FreshRunHoldsNothing(t);
    ClaimsDecided(t, job);
    AcquiredExactly(t.resources, t.holds, t.nextRun, job.claims);
    AcquireThenRelease(t.resources, t.holds, t.nextRun, job.claims);
    if DistinctNames(job.claims) {
      RejectionNeedsRepeat(t.resources, t.holds, t.nextRun, job.claims);
    }
  }
}
