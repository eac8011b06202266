/**
 * The running scheduler as a state machine: one tick loop, any number of run
 * tasks and retry tasks, operators and API callers, interleaved at every call
 * to the store and to the dispatch queue.
 */
module Protocol {
  import opened Core
  import opened Resources
  import opened Scheduler

  /** The instant of a tick, and what the calendars it has read say of it. */
  datatype Moment = Moment(now: Time, open: Openings)

  /** Where the tick loop is. `rest` is what is left of the rows it has read. */
  datatype Pc =
    | Idle
    | Due(at: Moment, rest: seq<Job>)                          // at the head of the loop over due jobs
    | Held(at: Moment, job: Job, run: RunId, rest: seq<Job>)   // claims acquired, run not yet stored
    | Stored(at: Moment, job: Job, run: RunId, rest: seq<Job>) // run stored, intent not yet sent
    | Undoing(at: Moment, run: RunId, rest: seq<Job>)          // queue full, holds not yet released
    | Advancing(at: Moment, job: Job, rest: seq<Job>)          // next fire not yet set
    | Cond(at: Moment, rest: seq<Job>)                         // at the head of the loop over all jobs
    | CondChosen(at: Moment, job: Job, rest: seq<Job>)         // condition true and no active run seen
    | CondStored(at: Moment, job: Job, run: RunId, rest: seq<Job>)
    | CondAdvancing(at: Moment, job: Job, rest: seq<Job>)

  /** A run task: spawning, running, or with its outcome stored but its holds not yet released. */
  datatype Phase = Spawning | Started | Ended(outcome: RunState)
  datatype Task = Task(intent: Intent, phase: Phase)

  datatype Sys = Sys(
    t: Tables,
    pc: Pc,
    tasks: map<RunId, Task>,
    sleeping: map<RunId, Intent>,   // retries waiting for their delay, by the run that failed
    senders: map<RunId, Intent>,    // retries waiting for room in the queue, by their own run
    releasing: multiset<RunId>,     // status changes that have yet to release the holds
    // What has happened so far; no step reads it.
    spawnFailed: set<RunId>,        // runs whose process could not be started
    orphans: set<RunId>,            // runs stored for which the queue had no room
    retried: set<RunId>,            // runs for which a retry was scheduled
    touched: set<RunId>,            // runs changed by CHANGE_STATUS
    carried: map<RunId, Job>)       // the job snapshot each stored run was created from

  function Init(cap: nat): Sys {
    Sys(Tables(map[], map[], map[], [], [], cap, 0), Idle, map[], map[], map[], multiset{}, {}, {}, {}, {}, map[])
  }

  datatype TickAction =
    | Begin(at: Moment, due: seq<Job>) | SkipDue | TryHold | Store | Send(ok: bool) | Undo
    | Advance(next: Option<Time>) | CronError
    | List(all: seq<Job>) | Pass | Choose | CondStore | CondSend(ok: bool) | CondAdvance | End

  datatype TaskAction =
    | Dequeue | SpawnFail(run: RunId) | Start(run: RunId) | Finish(run: RunId, outcome: RunState) | Leave(run: RunId)
    | Wake(parent: RunId) | Deliver(run: RunId)

  datatype ApiAction =
    | CreateJob(job: Job) | EditJob(job: Job) | SetFire(id: JobId, next: Option<Time>)
    | CreateResource(name: string, resource: Resource) | DeleteResource(name: string)
    | ChangeStatus(run: RunId, state: RunState) | ChangeRelease(run: RunId)

  datatype Action = Tick(tick: TickAction) | Work(task: TaskAction) | Api(api: ApiAction)

  // ----- The tick loop -----

  /** What the next fire may be: the cron search is only known to look ahead, if it finds anything. */
  predicate IsNext(trigger: Trigger, now: Time, next: Option<Time>) {
    match trigger
    case Cron(_, _) => next.Some? && next.value > now
    case Interval(every) => next == Some(now + every)
    case _ => next.None?
  }

  /** A waiting sender may be owed the free slot. */
  predicate CanSend(s: Sys, ok: bool) {
    if ok then HasRoom(s.t) else !HasRoom(s.t) || s.senders != map[]
  }

  ghost predicate TickEnabled(s: Sys, a: TickAction) {
    match a
    case Begin(at, due) => s.pc.Idle? && IsDueList(s.t.jobs, at.now, due)
    case SkipDue => s.pc.Due? && s.pc.rest != [] && !Allows(s.pc.at.open, s.pc.rest[0])
    case TryHold => s.pc.Due? && s.pc.rest != [] && Allows(s.pc.at.open, s.pc.rest[0])
    case Store => s.pc.Held?
    case Send(ok) => s.pc.Stored? && CanSend(s, ok)
    case Undo => s.pc.Undoing?
    case Advance(next) => s.pc.Advancing? && IsNext(s.pc.job.trigger, s.pc.at.now, next)
    case CronError => s.pc.Advancing? && s.pc.job.trigger.Cron?
    case List(all) => s.pc.Due? && s.pc.rest == [] && IsJobList(s.t.jobs, all)
    case Pass => s.pc.Cond? && s.pc.rest != []
    case Choose =>
      && s.pc.Cond? && s.pc.rest != []
      && !s.pc.rest[0].paused && s.pc.rest[0].trigger.Condition? && Allows(s.pc.at.open, s.pc.rest[0])
      && !HasActive(s.t.runs, s.pc.rest[0].id)
    case CondStore => s.pc.CondChosen?
    case CondSend(ok) => s.pc.CondStored? && CanSend(s, ok)
    case CondAdvance => s.pc.CondAdvancing?
    case End => s.pc.Cond? && s.pc.rest == []
  }

  function StoreRun(s: Sys, job: Job, run: Run): Sys {
    s.(t := InsertRun(s.t, run), carried := s.carried[run.id := job])
  }

  function SendRun(s: Sys, job: Job, run: RunId): Sys {
    s.(t := Enqueue(s.t, Intent(job, NewRun(run, job.id, 1, []))))
  }

  function Orphaned(s: Sys, run: RunId): Sys {
    s.(orphans := s.orphans + {run})
  }

  ghost function TickStep(s: Sys, a: TickAction): Sys
    requires TickEnabled(s, a)
  {
    var pc := s.pc;
    match a
    case Begin(at, due) => s.(pc := Due(at, due))
    case SkipDue => s.(pc := Advancing(pc.at, pc.rest[0], pc.rest[1..]))
    case TryHold =>
      var (job, run) := (pc.rest[0], s.t.nextRun);
      var (verdict, holds) := TryAcquire(s.t.resources, s.t.holds, run, job.claims);
      s.(t := TakeId(s.t).(holds := holds),
         pc := match verdict
               case Acquired => Held(pc.at, job, run, pc.rest[1..])
               case Refused => Due(pc.at, pc.rest[1..])
               case Rejected => Idle)
    case Store => StoreRun(s, pc.job, NewRun(pc.run, pc.job.id, 1, [])).(pc := Stored(pc.at, pc.job, pc.run, pc.rest))
    case Send(ok) =>
      if ok then SendRun(s, pc.job, pc.run).(pc := Advancing(pc.at, pc.job, pc.rest))
      else Orphaned(s, pc.run).(pc := Undoing(pc.at, pc.run, pc.rest))
    case Undo => s.(t := ReleaseHolds(s.t, pc.run), pc := Due(pc.at, pc.rest))
    case Advance(next) => s.(t := SetNextFire(s.t, pc.job.id, next), pc := Due(pc.at, pc.rest))
    case CronError => s.(pc := Idle)
    case List(all) => s.(pc := Cond(pc.at, all))
    case Pass => s.(pc := Cond(pc.at, pc.rest[1..]))
    case Choose => s.(pc := CondChosen(pc.at, pc.rest[0], pc.rest[1..]))
    case CondStore =>
      var run := s.t.nextRun;
      StoreRun(s.(t := TakeId(s.t)), pc.job, NewRun(run, pc.job.id, 1, []))
        .(pc := CondStored(pc.at, pc.job, run, pc.rest))
    case CondSend(ok) =>
      if ok then SendRun(s, pc.job, pc.run).(pc := CondAdvancing(pc.at, pc.job, pc.rest))
      else Orphaned(s, pc.run).(pc := Cond(pc.at, pc.rest))
    case CondAdvance => s.(t := SetNextFire(s.t, pc.job.id, None), pc := Cond(pc.at, pc.rest))
    case End => s.(pc := Idle)
  }

  // ----- Run tasks and retry tasks -----

  predicate IsOutcome(state: RunState) {
    state == Success || state == Failed || state == Killed || state == Lost
  }

  /** Only a failed run with attempts left is retried; the snapshot decides, not the stored job. */
  predicate ShouldRetry(intent: Intent, outcome: RunState) {
    outcome == Failed && intent.run.attempt < intent.job.maxAttempts
  }

  predicate TaskEnabled(s: Sys, a: TaskAction) {
    match a
    case Dequeue => s.t.queue != []
    case SpawnFail(run) => run in s.tasks && s.tasks[run].phase == Spawning
    case Start(run) => run in s.tasks && s.tasks[run].phase == Spawning
    case Finish(run, outcome) => run in s.tasks && s.tasks[run].phase == Started && IsOutcome(outcome)
    case Leave(run) => run in s.tasks && s.tasks[run].phase.Ended?
    case Wake(parent) => parent in s.sleeping
    case Deliver(run) => run in s.senders && HasRoom(s.t)
  }

  function TaskStep(s: Sys, a: TaskAction): Sys
    requires TaskEnabled(s, a)
  {
    match a
    case Dequeue =>
      var intent := s.t.queue[0];
      s.(t := s.t.(queue := s.t.queue[1..]), tasks := s.tasks[intent.run.id := Task(intent, Spawning)])
    case SpawnFail(run) =>  // returns without releasing anything
      s.(t := UpdateState(s.t, run, Failed), tasks := s.tasks - {run}, spawnFailed := s.spawnFailed + {run})
    case Start(run) => s.(t := UpdateState(s.t, run, Running), tasks := s.tasks[run := s.tasks[run].(phase := Started)])
    case Finish(run, outcome) =>
      s.(t := UpdateState(s.t, run, outcome), tasks := s.tasks[run := s.tasks[run].(phase := Ended(outcome))])
    case Leave(run) =>
      var task := s.tasks[run];
      var left := s.(t := ReleaseHolds(s.t, run), tasks := s.tasks - {run});
      if ShouldRetry(task.intent, task.phase.outcome) then
        left.(sleeping := s.sleeping[run := task.intent], retried := s.retried + {run})
      else left
    case Wake(parent) =>
      var (failed, id) := (s.sleeping[parent], s.t.nextRun);
      var run := NewRun(id, failed.job.id, failed.run.attempt + 1, [parent]);
      StoreRun(s.(t := TakeId(s.t)), failed.job, run)
        .(sleeping := s.sleeping - {parent}, senders := s.senders[id := Intent(failed.job, run)])
    case Deliver(run) => s.(t := Enqueue(s.t, s.senders[run]), senders := s.senders - {run})
  }

  // ----- API callers and operators -----

  ghost predicate ApiEnabled(s: Sys, a: ApiAction) {
    match a
    case CreateJob(job) => job.id !in s.t.jobs && IsJob(job)
    case EditJob(job) => job.id in s.t.jobs && IsJob(job)
    case SetFire(_, _) => true
    case CreateResource(name, r) => name !in s.t.resources && !Known(s.t.resources, r.id)
    case DeleteResource(name) => name in s.t.resources
    case ChangeStatus(run, state) => run in s.t.runs && state.IsTerminal()
    case ChangeRelease(run) => run in s.releasing
  }

  ghost function ApiStep(s: Sys, a: ApiAction): Sys
    requires ApiEnabled(s, a)
  {
    match a
    case CreateJob(job) => s.(t := s.t.(jobs := s.t.jobs[job.id := job]))
    case EditJob(job) => s.(t := s.t.(jobs := s.t.jobs[job.id := job]))
    case SetFire(id, next) => s.(t := SetNextFire(s.t, id, next))
    case CreateResource(name, r) => s.(t := s.t.(resources := s.t.resources[name := r]))
    case DeleteResource(name) =>
      s.(t := s.t.(resources := s.t.resources - {name}, holds := DropResource(s.t.holds, s.t.resources[name].id)))
    case ChangeStatus(run, state) =>
      s.(t := UpdateState(s.t, run, state), releasing := s.releasing + multiset{run}, touched := s.touched + {run})
    case ChangeRelease(run) => s.(t := ReleaseHolds(s.t, run), releasing := s.releasing - multiset{run})
  }

  // ----- Runs of the machine -----

  ghost predicate Enabled(s: Sys, a: Action) {
    match a
    case Tick(tick) => TickEnabled(s, tick)
    case Work(task) => TaskEnabled(s, task)
    case Api(api) => ApiEnabled(s, api)
  }

  ghost function Step(s: Sys, a: Action): Sys
    requires Enabled(s, a)
  {
    match a
    case Tick(tick) => TickStep(s, tick)
    case Work(task) => TaskStep(s, task)
    case Api(api) => ApiStep(s, api)
  }

  /** `s'` comes of `s` by these actions. */
  ghost predicate Leads(s: Sys, actions: seq<Action>, s': Sys)
    decreases |actions|
  {
    if actions == [] then s' == s
    else Enabled(s, actions[0]) && Leads(Step(s, actions[0]), actions[1..], s')
  }

  ghost predicate Reachable(s: Sys) {
    exists cap: nat, actions: seq<Action> :: Leads(Init(cap), actions, s)
  }
}
