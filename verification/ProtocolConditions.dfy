/** A condition job that is not meddled with never has two active runs, even across queue overflows. */
module ProtocolConditions {
  import opened Core
  import opened Resources
  import opened Scheduler
  import opened Protocol
  import opened ProtocolHolds
  import opened ProtocolStates
  import opened ProtocolRetries

  /** A condition job without retries and without a fire time. */
  predicate Quiet(job: Job) {
    job.trigger.Condition? && job.maxAttempts == 1 && job.nextFire.None?
  }

  /** The job is created quiet, and then neither edited nor triggered, nor is the status of its runs changed. */
  predicate LeavesAlone(s: Sys, a: Action, j: JobId) {
    match a
    case Api(CreateJob(job)) => job.id == j ==> Quiet(job)
    case Api(EditJob(job)) => job.id != j
    case Api(SetFire(id, _)) => id != j
    case Api(ChangeStatus(r, _)) => r in s.t.runs ==> s.t.runs[r].job != j
    case _ => true
  }

  ghost predicate LeaveAlone(s: Sys, actions: seq<Action>, j: JobId)
    decreases |actions|
  {
    actions != [] && Enabled(s, actions[0]) ==>
      LeavesAlone(s, actions[0], j) && LeaveAlone(Step(s, actions[0]), actions[1..], j)
  }

  predicate IsActive(s: Sys, r: RunId, j: JobId) {
    r in s.t.runs && s.t.runs[r].job == j && !s.t.runs[r].state.IsTerminal()
  }

  predicate NotAmong(jobs: seq<Job>, j: JobId) {
    forall i :: 0 <= i < |jobs| ==> jobs[i].id != j
  }

  predicate QuietAmong(jobs: seq<Job>, j: JobId) {
    forall i :: 0 <= i < |jobs| ==> (jobs[i].id == j ==> Quiet(jobs[i]))
  }

  /** The loop over due jobs never meets the job, the loop over conditions only as a quiet one. */
  predicate PcQuiet(pc: Pc, j: JobId) {
    match pc
    case Idle => true
    case Due(_, rest) => NotAmong(rest, j)
    case Held(_, job, _, rest) => job.id != j && NotAmong(rest, j)
    case Stored(_, job, _, rest) => job.id != j && NotAmong(rest, j)
    case Undoing(_, _, rest) => NotAmong(rest, j)
    case Advancing(_, job, rest) => job.id != j && NotAmong(rest, j)
    case Cond(_, rest) => QuietAmong(rest, j)
    case CondChosen(_, job, rest) => (job.id == j ==> Quiet(job)) && QuietAmong(rest, j)
    case CondStored(_, job, _, rest) => (job.id == j ==> Quiet(job)) && QuietAmong(rest, j)
    case CondAdvancing(_, job, rest) => (job.id == j ==> Quiet(job)) && QuietAmong(rest, j)
  }

  ghost predicate JobQuiet(s: Sys, j: JobId) {
    && (j in s.t.jobs ==> Quiet(s.t.jobs[j]))
    && PcQuiet(s.pc, j)
  }

  ghost predicate RunsQuiet(s: Sys, j: JobId) {
    forall r :: r in s.t.runs && s.t.runs[r].job == j ==>
      r !in s.touched && r in s.carried && s.carried[r].maxAttempts == 1
  }

  ghost predicate AtMostOne(s: Sys, j: JobId) {
    && (forall r, q :: IsActive(s, r, j) && IsActive(s, q, j) ==> r == q)
    && (s.pc.CondChosen? && s.pc.job.id == j ==> forall r :: !IsActive(s, r, j))
  }

  ghost predicate Single(s: Sys, j: JobId) {
    JobQuiet(s, j) && RunsQuiet(s, j) && AtMostOne(s, j)
  }

  // ----- The job -----

  lemma {:induction false} DueRowsAreNotQuiet(s: Sys, now: Time, due: seq<Job>, j: JobId)
    requires IsDueList(s.t.jobs, now, due) && (j in s.t.jobs ==> Quiet(s.t.jobs[j]))
    ensures NotAmong(due, j)
  {
  }

  lemma {:induction false} TickKeepsJobQuiet(s: Sys, a: TickAction, j: JobId)
    requires JobQuiet(s, j) && TickEnabled(s, a)
    ensures JobQuiet(TickStep(s, a), j)
  {
    hide TryAcquire, Release, HasActive, IsNext, HasRoom, CanSend, Quiet;
    match a
    case Begin(at, due) => DueRowsAreNotQuiet(s, at.now, due, j);
    case Advance(_) =>
    case CondAdvance => SetNoneStaysQuiet(s.t, s.pc.job.id, j);
    case _ => assert TickStep(s, a).t.jobs == s.t.jobs;
  }

  lemma {:induction false} SetNoneStaysQuiet(t: Tables, id: JobId, j: JobId)
    requires j in t.jobs ==> Quiet(t.jobs[j])
    ensures j in SetNextFire(t, id, None).jobs ==> Quiet(SetNextFire(t, id, None).jobs[j])
  {
  }

  lemma {:induction false} ApiKeepsJobQuiet(s: Sys, a: ApiAction, j: JobId)
    requires JobQuiet(s, j) && ApiEnabled(s, a) && LeavesAlone(s, Api(a), j)
    ensures JobQuiet(ApiStep(s, a), j)
  {
    hide Release, DropResource, Quiet, PcQuiet, Known;
    match a
    case CreateJob(_) =>
    case EditJob(_) =>
    case SetFire(_, _) =>
    case _ => assert ApiStep(s, a).t.jobs == s.t.jobs;
  }

  lemma {:induction false} OthersKeepJobQuiet(s: Sys, a: Action, j: JobId)
    requires JobQuiet(s, j) && Enabled(s, a) && !a.Tick? && LeavesAlone(s, a, j)
    ensures JobQuiet(Step(s, a), j)
  {
    hide LeavesAlone, Quiet, PcQuiet, TaskStep, ApiStep, TaskEnabled, ApiEnabled;
    match a
    case Work(task) => WorkKeepsJobs(s, task);
    case Api(api) => ApiKeepsJobQuiet(s, api, j);
  }

  lemma {:induction false} WorkKeepsJobs(s: Sys, a: TaskAction)
    requires TaskEnabled(s, a)
    ensures TaskStep(s, a).t.jobs == s.t.jobs && TaskStep(s, a).pc == s.pc
  {
    hide Release, HasRoom;
  }

  // ----- The runs -----

  /** The only step that makes a run of the job is the one that has just seen none active. */
  ghost predicate NoNewRun(s: Sys, s': Sys, j: JobId) {
    forall r :: r in s'.t.runs && s'.t.runs[r].job == j ==> r in s.t.runs && s.t.runs[r].job == j
  }

  lemma {:induction false} RetriesAreNotQuiet(s: Sys, p: RunId, j: JobId)
    requires Chained(s) && RunsQuiet(s, j) && p in s.sleeping
    ensures s.sleeping[p].job.id != j
  {
    hide OneChild, PcJobs;
    var r := s.sleeping[p].run.id;
    assert Fits(s, s.sleeping[p]);
    assert Linked(s, r);
  }

  lemma {:induction false} TickMakesNoRun(s: Sys, a: TickAction, j: JobId)
    requires Stated(s) && TickEnabled(s, a) && PcQuiet(s.pc, j) && !(a.CondStore? && s.pc.job.id == j)
    ensures NoNewRun(s, TickStep(s, a), j)
  {
    hide Stated, TryAcquire, Release, HasActive, IsDueList, IsJobList, IsNext, HasRoom, CanSend, SetNextFire, Quiet;
    SetNextKeepsRuns(s.t);
    match a
    case Store =>
    case CondStore =>
    case _ => assert TickStep(s, a).t.runs == s.t.runs;
  }

  lemma {:induction false} WorkMakesNoRun(s: Sys, a: TaskAction, j: JobId)
    requires Chained(s) && RunsQuiet(s, j) && TaskEnabled(s, a)
    ensures NoNewRun(s, TaskStep(s, a), j)
  {
    hide Chained, RunsQuiet, Release, HasRoom;
    match a
    case Wake(p) => RetriesAreNotQuiet(s, p, j);
    case _ =>
  }

  lemma {:induction false} ApiMakesNoRun(s: Sys, a: ApiAction, j: JobId)
    requires ApiEnabled(s, a)
    ensures NoNewRun(s, ApiStep(s, a), j)
  {
    hide Release, DropResource, Known;
  }

  ghost predicate CarriedStays(s: Sys, s': Sys) {
    forall r :: r in s.t.runs && r in s.carried ==> r in s'.carried && s'.carried[r] == s.carried[r]
  }

  /** Without new runs of the job, active ones can only become fewer. */
  lemma {:induction false} NoneRevives(s: Sys, s': Sys, j: JobId)
    requires RunsQuiet(s, j) && AtMostOne(s, j) && NoNewRun(s, s', j) && RowsStepOn(s, s') && CarriedStays(s, s')
    requires forall r :: r in s'.touched && r in s.t.runs && s.t.runs[r].job == j ==> r in s.touched
    requires s'.pc == s.pc || !s'.pc.CondChosen? || (s'.pc.job.id == j ==> forall r :: !IsActive(s, r, j))
    ensures RunsQuiet(s', j) && AtMostOne(s', j)
  {
    forall r
      ensures IsActive(s', r, j) ==> IsActive(s, r, j)
    {
      if IsActive(s', r, j) {
        assert r in s.t.runs && s.t.runs[r].job == j;
      }
    }
  }

  lemma {:induction false} FirstRun(s: Sys, j: JobId)
    requires SysOk(s) && Stated(s) && Single(s, j) && TickEnabled(s, CondStore) && s.pc.job.id == j
    ensures RunsQuiet(TickStep(s, CondStore), j) && AtMostOne(TickStep(s, CondStore), j)
  {
    hide SysOk, HandState, QueueState, TaskState, ActivePlaced, NotAmong, QuietAmong;
    FreshIsUnknown(s);
    var s' := TickStep(s, CondStore);
    forall r
      ensures IsActive(s', r, j) ==> r == s.t.nextRun
    {
      assert IsActive(s', r, j) && r != s.t.nextRun ==> IsActive(s, r, j);
    }
  }

  lemma {:induction false} CarriedIsKept(s: Sys, a: Action)
    requires SysOk(s) && Stated(s) && Enabled(s, a)
    ensures CarriedStays(s, Step(s, a))
  {
    hide SysOk, Stated, TickStep, TaskStep, ApiStep, TickEnabled, TaskEnabled, ApiEnabled;
    FreshIsUnknown(s);
    match a
    case Tick(tick) => TickKeepsCarried(s, tick);
    case Work(task) => WorkKeepsCarried(s, task);
    case Api(api) => ApiKeepsCarried(s, api);
  }

  lemma {:induction false} TickKeepsCarried(s: Sys, a: TickAction)
    requires TickEnabled(s, a) && s.t.nextRun !in s.t.runs && (s.pc.Held? ==> s.pc.run !in s.t.runs)
    ensures CarriedStays(s, TickStep(s, a))
  {
    hide TryAcquire, Release, HasActive, IsDueList, IsJobList, IsNext, HasRoom, CanSend, SetNextFire;
  }

  lemma {:induction false} WorkKeepsCarried(s: Sys, a: TaskAction)
    requires TaskEnabled(s, a) && s.t.nextRun !in s.t.runs
    ensures CarriedStays(s, TaskStep(s, a))
  {
    hide Release, HasRoom;
  }

  lemma {:induction false} ApiKeepsCarried(s: Sys, a: ApiAction)
    requires ApiEnabled(s, a)
    ensures ApiStep(s, a).carried == s.carried
  {
    hide Release, DropResource, SetNextFire, Known;
  }

  lemma {:induction false} TouchedAlone(s: Sys, a: Action, j: JobId)
    requires Enabled(s, a) && LeavesAlone(s, a, j)
    ensures forall r :: r in Step(s, a).touched && r in s.t.runs && s.t.runs[r].job == j ==> r in s.touched
  {
    hide TryAcquire, Release, DropResource, HasActive, IsDueList, IsJobList, IsNext, HasRoom, CanSend, SetNextFire,
         Known;
  }

  lemma {:induction false} TickKeepsRuns(s: Sys, a: TickAction, j: JobId)
    requires SysOk(s) && Stated(s) && Single(s, j) && TickEnabled(s, a)
    ensures RunsQuiet(TickStep(s, a), j) && AtMostOne(TickStep(s, a), j)
  {
    hide SysOk, Stated, TryAcquire, Release, IsDueList, IsJobList, IsNext, HasRoom, CanSend, SetNextFire, RowsStepOn,
         NoNewRun, CarriedStays, RunsQuiet, AtMostOne, PcQuiet;
    if a.CondStore? && s.pc.job.id == j {
      FirstRun(s, j);
    } else {
      TickMakesNoRun(s, a, j);
      TickStepsOn(s, a);
      CarriedIsKept(s, Tick(a));
      NoneRevives(s, TickStep(s, a), j);
    }
  }

  lemma {:induction false} OthersKeepRuns(s: Sys, a: Action, j: JobId)
    requires SysOk(s) && Stated(s) && Chained(s) && Single(s, j) && Enabled(s, a) && !a.Tick? && LeavesAlone(s, a, j)
    ensures RunsQuiet(Step(s, a), j) && AtMostOne(Step(s, a), j)
  {
    hide SysOk, Stated, Chained, Enabled, Step, RowsStepOn, NoNewRun, CarriedStays, RunsQuiet, AtMostOne, JobQuiet;
    StepStepsOn(s, a);
    CarriedIsKept(s, a);
    TouchedAlone(s, a, j);
    OthersMakeNoRun(s, a, j);
    NoneRevives(s, Step(s, a), j);
  }

  lemma {:induction false} OthersMakeNoRun(s: Sys, a: Action, j: JobId)
    requires Chained(s) && RunsQuiet(s, j) && Enabled(s, a) && !a.Tick?
    ensures NoNewRun(s, Step(s, a), j) && Step(s, a).pc == s.pc
  {
    hide Chained, NoNewRun, RunsQuiet, TaskStep, TaskEnabled, Release, DropResource, Known, SetNextFire;
    match a
    case Work(task) =>
      WorkMakesNoRun(s, task, j);
      WorkKeepsJobs(s, task);
    case Api(api) => ApiMakesNoRun(s, api, j);
  }

  lemma {:induction false} StepKeepsSingle(s: Sys, a: Action, j: JobId)
    requires SysOk(s) && Stated(s) && Chained(s) && Single(s, j) && Enabled(s, a) && LeavesAlone(s, a, j)
    ensures Single(Step(s, a), j)
  {
    hide SysOk, Stated, Chained, LeavesAlone, JobQuiet, RunsQuiet, AtMostOne, TickEnabled, TaskEnabled, ApiEnabled,
         TickStep, TaskStep, ApiStep;
    match a
    case Tick(tick) =>
      TickKeepsJobQuiet(s, tick, j);
      TickKeepsRuns(s, tick, j);
    case _ =>
      OthersKeepJobQuiet(s, a, j);
      OthersKeepRuns(s, a, j);
  }

  lemma {:induction false} LeadsKeepsSingle(s: Sys, actions: seq<Action>, s': Sys, j: JobId)
    requires SysOk(s) && Stated(s) && RetryInv(s) && Single(s, j) && Leads(s, actions, s') && LeaveAlone(s, actions, j)
    ensures Single(s', j)
    decreases |actions|
  {
    hide SysOk, Stated, Chained, SnapshotsStored, Single, Enabled, Step, LeavesAlone;
    if actions != [] {
      StepKeepsSysOk(s, actions[0]);
      StepKeepsStated(s, actions[0]);
      StepKeepsRetryInv(s, actions[0]);
      StepKeepsSingle(s, actions[0], j);
      LeadsKeepsSingle(Step(s, actions[0]), actions[1..], s', j);
    }
  }

  /**
   * In every state of every history that leaves the job alone there is at
   * most one run of it that is not over.
   */
  lemma {:induction false} ConditionJobsRunOneAtATime(cap: nat, actions: seq<Action>, s: Sys, j: JobId, r: RunId,
                                        q: RunId)
    requires Leads(Init(cap), actions, s) && LeaveAlone(Init(cap), actions, j)
    requires IsActive(s, r, j) && IsActive(s, q, j)
    ensures r == q
  {
    hide SysOk, Leads, LeaveAlone, Stated;
    InitOk(cap);
    InitIsStated(cap);
    LeadsKeepsSingle(Init(cap), actions, s, j);
  }
}
