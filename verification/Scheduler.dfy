/** Jobs, runs and the tables the scheduler works on, one function per store call. */
module Scheduler {
  import opened Core
  import opened Resources
  import opened Evaluator
  import opened Outcome

  datatype Trigger =
    | Cron(expr: string, timezone: Option<string>)
    | Interval(every: nat)
    | OneShot(at: Time)
    | Dep
    | File
    | Webhook
    | Manual
    | Condition(expr: string)

  datatype Job = Job(
    id: JobId,
    trigger: Trigger,
    claims: seq<Claim>,
    maxAttempts: nat,
    paused: bool,
    nextFire: Option<Time>,
    calendar: Option<CalendarId>,
    excludeCalendar: Option<CalendarId>,
    exitPolicy: ExitCodePolicy)

  datatype Run = Run(id: RunId, job: JobId, state: RunState, attempt: nat, parents: seq<RunId>)

  /** The job as it was at dispatch, and the run created for it. */
  datatype Intent = Intent(job: Job, run: Run)

  datatype Tables = Tables(
    jobs: map<JobId, Job>,
    runs: map<RunId, Run>,
    resources: ResourceTable,
    holds: seq<Hold>,
    queue: seq<Intent>,
    cap: nat,
    nextRun: RunId)  // run ids are never reused

  /** What `Job::validate` asks for. */
  predicate IsJob(j: Job) {
    && 1 <= j.maxAttempts <= 100
    && (j.trigger.Interval? ==> j.trigger.every > 0)
    && forall i :: 0 <= i < |j.claims| ==> j.claims[i].units > 0
  }

  // A calendar is the set of instants it allows.
  type Calendars = map<CalendarId, Time -> bool>

  /**
   * The cron library: it looks strictly ahead, and fails on an expression or
   * zone it cannot read or that never matches again.
   */
  type CronSearch = f: (string, Option<string>, Time) -> Option<Time>
    | forall e, z, t :: f(e, z, t).Some? ==> f(e, z, t).value > t
    witness (e: string, z: Option<string>, t: Time) => Some(t + 1)

  datatype CronError = NoOccurrence

  /** What one tick reads besides the tables; `upstream` is the snapshot of the runs that conditions ask. */
  datatype Env = Env(now: Time, cals: Calendars, cron: CronSearch, upstream: map<RunId, Run> -> Upstream)

  // Which calendars allow one instant.
  type Openings = map<CalendarId, bool>

  function OpeningsAt(cals: Calendars, now: Time): Openings {
    map c | c in cals :: cals[c](now)
  }

  /** A calendar that is not there neither allows nor forbids. */
  predicate Allows(open: Openings, job: Job) {
    && (job.calendar.Some? && job.calendar.value in open ==> open[job.calendar.value])
    && (job.excludeCalendar.Some? && job.excludeCalendar.value in open ==> !open[job.excludeCalendar.value])
  }

  predicate CalendarAllows(job: Job, now: Time, cals: Calendars) {
    Allows(OpeningsAt(cals, now), job)
  }

  /** A job may be in the store with an expression the search fails on: the JIL import puts it there. */
  function ComputeNext(trigger: Trigger, env: Env): (next: Result<Option<Time>, CronError>)
    ensures next.Err? <==> trigger.Cron? && env.cron(trigger.expr, trigger.timezone, env.now).None?
    ensures next.Ok? && next.value.Some? && (trigger.Interval? ==> trigger.every > 0) ==> next.value.value > env.now
  {
    match trigger
    case Cron(expr, tz) =>
      var at := env.cron(expr, tz, env.now);
      if at.None? then Err(NoOccurrence) else Ok(at)
    case Interval(every) => Ok(Some(env.now + every))
    case _ => Ok(None)
  }

  predicate IsDue(job: Job, now: Time) {
    !job.paused && job.nextFire.Some? && job.nextFire.value <= now
  }

  /** The rows of the due query, in some order that respects the fire times. */
  ghost predicate IsDueList(jobs: map<JobId, Job>, now: Time, due: seq<Job>) {
    && (forall i :: 0 <= i < |due| ==> due[i].id in jobs && jobs[due[i].id] == due[i] && IsDue(due[i], now))
    && (forall i, j :: 0 <= i < j < |due| ==> due[i].id != due[j].id && due[i].nextFire.value <= due[j].nextFire.value)
    && (forall id :: id in jobs && IsDue(jobs[id], now) ==> jobs[id] in due)
  }

  /** Every job once, in some order. */
  ghost predicate IsJobList(jobs: map<JobId, Job>, all: seq<Job>) {
    && (forall i :: 0 <= i < |all| ==> all[i].id in jobs && jobs[all[i].id] == all[i])
    && (forall i, j :: 0 <= i < j < |all| ==> all[i].id != all[j].id)
    && (forall id :: id in jobs ==> jobs[id] in all)
  }

  predicate HasActive(runs: map<RunId, Run>, job: JobId) {
    exists r :: r in runs && runs[r].job == job && !runs[r].state.IsTerminal()
  }

  function NewRun(id: RunId, job: JobId, attempt: nat, parents: seq<RunId>): Run {
    Run(id, job, Queued, attempt, parents)
  }

  function SetNextFire(t: Tables, id: JobId, next: Option<Time>): Tables {
    if id in t.jobs then t.(jobs := t.jobs[id := t.jobs[id].(nextFire := next)]) else t
  }

  /** A fresh id is taken even when the run is then not stored. */
  function TakeId(t: Tables): Tables {
    t.(nextRun := t.nextRun + 1)
  }

  function InsertRun(t: Tables, run: Run): Tables {
    t.(runs := t.runs[run.id := run])
  }

  function UpdateState(t: Tables, id: RunId, state: RunState): Tables {
    if id in t.runs then t.(runs := t.runs[id := t.runs[id].(state := state)]) else t
  }

  predicate HasRoom(t: Tables) {
    |t.queue| < t.cap
  }

  function Enqueue(t: Tables, intent: Intent): Tables {
    t.(queue := t.queue + [intent])
  }

  function ReleaseHolds(t: Tables, run: RunId): Tables {
    t.(holds := Release(t.holds, run))
  }

  // ----- Table invariants -----

  ghost predicate Keyed(t: Tables) {
    && (forall id :: id in t.jobs ==> t.jobs[id].id == id && IsJob(t.jobs[id]))
    && (forall r :: r in t.runs ==> t.runs[r].id == r && r < t.nextRun)
    && (forall i :: 0 <= i < |t.holds| ==> t.holds[i].run < t.nextRun)
  }

  ghost predicate TablesOk(t: Tables) {
    Keyed(t) && Sound(t.resources, t.holds)
  }
}
