/** A job that repeats a claim, once it has been due longest, keeps the tick loop from every other job. */
module ProtocolStuck {
  import opened Core
  import opened Resources
  import opened Scheduler
  import opened Tick
  import opened TickForever
  import opened Protocol
  import opened ProtocolHolds
  import opened ProtocolPlaces
  import ProtocolConditions
  import ProtocolStates
  import ProtocolTick
  import ProtocolWitness
  import ResourceRejection

  /** The loop is at the job or about to start, and will be turned away. */
  ghost predicate Stuck(s: Sys, job: Job) {
    && IsFirst(s.t, job.id) && s.t.jobs[job.id] == job && ClaimsAreRejected(s.t, job)
    && (s.pc.Idle? || (s.pc.Due? && s.pc.rest != [] && s.pc.rest[0] == job && Allows(s.pc.at.open, job)))
  }

  predicate IsLater(next: Option<Time>, job: Job) {
    next.Some? && job.nextFire.Some? ==> job.nextFire.value < next.value
  }

  /**
   * No caller edits the job, sets an earlier fire than its own, or deletes a
   * resource it claims; time goes on, and no calendar holds the job back.
   */
  predicate Spares(a: Action, job: Job) {
    match a
    case Tick(Begin(at, _)) => job.nextFire.Some? && job.nextFire.value <= at.now && Allows(at.open, job)
    case Api(CreateJob(other)) => other.id != job.id && IsLater(other.nextFire, job)
    case Api(EditJob(other)) => other.id != job.id && IsLater(other.nextFire, job)
    case Api(SetFire(id, next)) => id != job.id && IsLater(next, job)
    case Api(DeleteResource(name)) => forall i :: 0 <= i < |job.claims| ==> job.claims[i].resource != name
    case _ => true
  }

  /** No hold is new, and no run except of a retry. */
  ghost predicate OnlyRetries(s: Sys, s': Sys) {
    && (forall h :: h in s'.t.holds ==> h in s.t.holds)
    && (forall r :: r in s.t.runs ==> r in s'.t.runs)
    && (forall r :: r in s'.t.runs && r !in s.t.runs ==> s'.t.runs[r].parents != [])
  }

  // ----- One step -----

  /** A run id more or less, the claims are rejected as before. */
  lemma {:induction false} IdTakenStaysRejected(t: Tables, job: Job)
    requires TablesOk(t) && ClaimsAreRejected(t, job)
    ensures ClaimsAreRejected(TakeId(t), job)
  {
    hide TablesOk, ClaimsAreRejected, Used;
    TakenIdKeepsTables(t);
    StillRejected(t, TakeId(t), job);
  }

  lemma {:induction false} TickKeepsStuck(s: Sys, a: TickAction, job: Job)
    requires SysOk(s) && Stuck(s, job) && TickEnabled(s, a) && Spares(Tick(a), job)
    ensures Stuck(TickStep(s, a), job)
    ensures TickStep(s, a).t == s.t || TickStep(s, a).t == TakeId(s.t)
  {
    hide Placed, Keyed, Sound, ClaimsAreRejected, Acquire, IsDueList, IsJobList, Allows;
    match a
    case Begin(at, due) => FirstIsHead(s.t, job.id, at.now, due);
    case TryHold =>
      FirstIsJob(s.t, job.id);
      ClaimsDecided(s.t, job);
      IdTakenStaysRejected(s.t, job);
    case _ => assert false;
  }

  lemma {:induction false} ReleaseStaysRejected(t: Tables, run: RunId, job: Job)
    requires TablesOk(t) && ClaimsAreRejected(t, job)
    ensures ClaimsAreRejected(ReleaseHolds(t, run), job)
    ensures forall h :: h in ReleaseHolds(t, run).holds ==> h in t.holds
  {
    hide Keyed, Sound, ClaimsAreRejected, Used;
    ReleaseKeepsTables(t, run);
    ReleaseKeepsRows(t.holds, run);
    forall i | 0 <= i < |job.claims| && job.claims[i].resource in t.resources
      ensures Used(ReleaseHolds(t, run).holds, t.resources[job.claims[i].resource].id)
           <= Used(t.holds, t.resources[job.claims[i].resource].id)
    {
      ReleaseUsesLess(t.holds, run, t.resources[job.claims[i].resource].id);
    }
    StillRejected(t, ReleaseHolds(t, run), job);
  }

  /** Tables that agree on all that the job depends on. */
  lemma {:induction false} SameClaimsStayRejected(t: Tables, t': Tables, job: Job)
    requires Keyed(t') && t'.resources == t.resources && t'.holds == t.holds && ClaimsAreRejected(t, job)
    ensures ClaimsAreRejected(t', job)
  {
    hide Keyed, ClaimsAreRejected, Used;
    StillRejected(t, t', job);
  }

  /** All that tasks do to what the job depends on. */
  lemma {:induction false} WorkOnlyReleases(s: Sys, a: TaskAction)
    requires TaskEnabled(s, a)
    ensures var (t, t') := (s.t, TaskStep(s, a).t);
            && t'.jobs == t.jobs && t'.resources == t.resources && TaskStep(s, a).pc == s.pc
            && t'.holds == if a.Leave? then Release(t.holds, a.run) else t.holds
  {
    hide Release, HasRoom, ShouldRetry, IsOutcome;
    ProtocolConditions.WorkKeepsJobs(s, a);
    match a
    case Leave(_) =>
    case _ => assert TaskStep(s, a).t.resources == s.t.resources && TaskStep(s, a).t.holds == s.t.holds;
  }

  lemma {:induction false} WorkMakesRetries(s: Sys, a: TaskAction)
    requires TaskEnabled(s, a)
    ensures var (t, t') := (s.t, TaskStep(s, a).t);
            && (forall r :: r in t.runs ==> r in t'.runs)
            && (forall r :: r in t'.runs && r !in t.runs ==> t'.runs[r].parents != [])
  {
    hide Release, HasRoom, ShouldRetry, IsOutcome;
    match a
    case Wake(parent) =>
    case _ => assert TaskStep(s, a).t.runs.Keys == s.t.runs.Keys;
  }

  lemma {:induction false} WorkKeepsStuck(s: Sys, a: TaskAction, job: Job)
    requires SysOk(s) && Stuck(s, job) && TaskEnabled(s, a)
    ensures Stuck(TaskStep(s, a), job) && OnlyRetries(s, TaskStep(s, a))
  {
    TaskKeepsTables(s, a);
    WorkOnlyReleases(s, a);
    WorkMakesRetries(s, a);
    hide Placed, Sound, ClaimsAreRejected, Release, Allows, IsFirst, TaskStep, TaskEnabled;
    var s' := TaskStep(s, a);
    SameJobsSameFirst(s.t, s'.t, job.id);
    if a.Leave? {
      ReleaseStaysRejected(s.t, a.run, job);
      SameClaimsStayRejected(ReleaseHolds(s.t, a.run), s'.t, job);
    } else {
      SameClaimsStayRejected(s.t, s'.t, job);
    }
  }

  lemma {:induction false} SameJobsSameFirst(t: Tables, t': Tables, id: JobId)
    requires t'.jobs == t.jobs && IsFirst(t, id)
    ensures id in t'.jobs && IsFirst(t', id)
  {
  }

  lemma {:induction false} ResourcesKeepStuck(s: Sys, a: ApiAction, job: Job)
    requires SysOk(s) && Stuck(s, job) && ApiEnabled(s, a) && Spares(Api(a), job)
    requires a.CreateResource? || a.DeleteResource?
    ensures ClaimsAreRejected(ApiStep(s, a).t, job)
    ensures forall h :: h in ApiStep(s, a).t.holds ==> h in s.t.holds
  {
    ApiKeepsTables(s, a);
    hide Placed, Keyed, Sound, ClaimsAreRejected, DropResource, Used, Allows, IsFirst;
    var t' := ApiStep(s, a).t;
    if a.DeleteResource? {
      var gone := s.t.resources[a.name].id;
      DropKeepsRows(s.t.holds, gone);
      forall i | 0 <= i < |job.claims| && job.claims[i].resource in s.t.resources
        ensures Used(t'.holds, s.t.resources[job.claims[i].resource].id)
             <= Used(s.t.holds, s.t.resources[job.claims[i].resource].id)
      {
        DropUsesLess(s.t.holds, gone, s.t.resources[job.claims[i].resource].id);
      }
    }
    StillRejected(s.t, t', job);
  }

  lemma {:induction false} ApiStaysRejected(s: Sys, a: ApiAction, job: Job)
    requires SysOk(s) && Stuck(s, job) && ApiEnabled(s, a) && Spares(Api(a), job)
    ensures ClaimsAreRejected(ApiStep(s, a).t, job)
    ensures forall h :: h in ApiStep(s, a).t.holds ==> h in s.t.holds
  {
    ApiKeepsTables(s, a);
    hide Placed, Keyed, Sound, ClaimsAreRejected, DropResource, Release, Allows, IsFirst, Known;
    match a
    case CreateResource(_, _) => ResourcesKeepStuck(s, a, job);
    case DeleteResource(_) => ResourcesKeepStuck(s, a, job);
    case ChangeRelease(run) => ReleaseStaysRejected(s.t, run, job);
    case _ => SameClaimsStayRejected(s.t, ApiStep(s, a).t, job);
  }

  lemma {:induction false} ApiKeepsFirst(s: Sys, a: ApiAction, job: Job)
    requires IsFirst(s.t, job.id) && s.t.jobs[job.id] == job && ApiEnabled(s, a) && Spares(Api(a), job)
    ensures var s' := ApiStep(s, a);
            && IsFirst(s'.t, job.id) && s'.t.jobs[job.id] == job
            && s'.pc == s.pc && s'.t.runs.Keys == s.t.runs.Keys
  {
    hide DropResource, Release, Known;
    match a
    case CreateJob(_) =>
    case EditJob(_) =>
    case SetFire(_, _) =>
    case _ => assert ApiStep(s, a).t.jobs == s.t.jobs;
  }

  lemma {:induction false} ApiKeepsStuck(s: Sys, a: ApiAction, job: Job)
    requires SysOk(s) && Stuck(s, job) && ApiEnabled(s, a) && Spares(Api(a), job)
    ensures Stuck(ApiStep(s, a), job) && OnlyRetries(s, ApiStep(s, a))
  {
    hide SysOk, ClaimsAreRejected, IsFirst, Allows, ApiStep, ApiEnabled, Spares;
    ApiStaysRejected(s, a, job);
    ApiKeepsFirst(s, a, job);
  }

  lemma {:induction false} StepKeepsStuck(s: Sys, a: Action, job: Job)
    requires SysOk(s) && Stuck(s, job) && Enabled(s, a) && Spares(a, job)
    ensures Stuck(Step(s, a), job) && OnlyRetries(s, Step(s, a))
  {
    hide SysOk, Stuck, TickEnabled, TaskEnabled, ApiEnabled, TickStep, TaskStep, ApiStep, Spares;
    match a
    case Tick(tick) => TickKeepsStuck(s, tick, job);
    case Work(task) => WorkKeepsStuck(s, task, job);
    case Api(api) => ApiKeepsStuck(s, api, job);
  }

  // ----- Every history -----

  lemma {:induction false} RetriesTwice(s: Sys, s1: Sys, s': Sys)
    requires OnlyRetries(s, s1) && OnlyRetries(s1, s') && SameParents(s1, s')
    ensures OnlyRetries(s, s')
  {
  }

  ghost predicate SameParents(s: Sys, s': Sys) {
    forall r :: r in s.t.runs ==> r in s'.t.runs && s'.t.runs[r].parents == s.t.runs[r].parents
  }

  lemma {:induction false} LeadsKeepsStuck(s: Sys, actions: seq<Action>, s': Sys, job: Job)
    requires SysOk(s) && ProtocolStates.Stated(s) && Stuck(s, job) && Leads(s, actions, s')
    requires forall i :: 0 <= i < |actions| ==> Spares(actions[i], job)
    ensures Stuck(s', job) && OnlyRetries(s, s') && SameParents(s, s')
    decreases |actions|
  {
    hide SysOk, ProtocolStates.Stated, Stuck, Enabled, Step, Spares, OnlyRetries;
    if actions == [] {
      NothingIsNew(s);
    } else {
      var s1 := Step(s, actions[0]);
      StepKeepsStuck(s, actions[0], job);
      StepKeepsSysOk(s, actions[0]);
      ProtocolStates.StepKeepsStated(s, actions[0]);
      StepKeepsParents(s, actions[0]);
      LeadsKeepsStuck(s1, actions[1..], s', job);
      RetriesTwice(s, s1, s');
    }
  }

  lemma {:induction false} NothingIsNew(s: Sys)
    ensures OnlyRetries(s, s) && SameParents(s, s)
  {
  }

  lemma {:induction false} StepKeepsParents(s: Sys, a: Action)
    requires SysOk(s) && ProtocolStates.Stated(s) && Enabled(s, a)
    ensures SameParents(s, Step(s, a))
  {
    hide SysOk, ProtocolStates.Stated, Enabled, Step;
    ProtocolStates.StepStepsOn(s, a);
    forall r | r in s.t.runs
      ensures Step(s, a).t.runs[r].parents == s.t.runs[r].parents
    {
      assert Step(s, a).t.runs[r].parents == s.t.runs[r].(state := Queued).parents;
    }
  }

  /**
   * The job has been due longest, and its claims are rejected. Then however
   * tasks, retries, operators and other callers go on, the loop never gets
   * past it: no job is dispatched, and holds only go.
   */
  lemma {:induction false} RepeatedClaimBlocksTheLoop(s: Sys, actions: seq<Action>, s': Sys, job: Job)
    requires Reachable(s) && Stuck(s, job) && Leads(s, actions, s')
    requires forall i :: 0 <= i < |actions| ==> Spares(actions[i], job)
    ensures Stuck(s', job) && OnlyRetries(s, s')
  {
    hide Reachable, Stuck, Leads, Spares, OnlyRetries;
    ProtocolStates.ReachableIsStated(s);
    hide SysOk, ProtocolStates.Stated;
    LeadsKeepsStuck(s, actions, s', job);
  }

  // ----- A history into it -----

  function Repeater(units: nat): Job {
    Job(0, OneShot(0), [Claim("db", units), Claim("db", units)], 1, false, Some(0), None, None,
        ProtocolWitness.ZERO_ONLY)
  }

  lemma {:induction false} RepeaterIsRejected(t: Tables, capacity: nat, units: nat)
    requires t.resources == map["db" := Resource(0, capacity)] && t.holds == [] && 0 < units && 2 * units <= capacity
    ensures ClaimsAreRejected(t, Repeater(units))
  {
    var job := Repeater(units);
    assert Used(t.holds, 0) == 0 && !HasHold(t.holds, t.nextRun, 0);
    assert job.claims[..1] == [Claim("db", units)];
    assert Satisfiable(t.resources, t.holds, t.nextRun, Claim("db", units));
    assert AllSatisfiable(t.resources, t.holds, t.nextRun, job.claims[..1]);
    assert job.claims[0].resource == job.claims[1].resource;
    assert ResourceRejection.RepeatsAt(t.resources, t.holds, job.claims, 1);
  }

  /** For any queue, and any claim that fits twice: two calls lead into such a state. */
  lemma {:induction false} RepeatedClaimHappens(cap: nat, capacity: nat, units: nat)
    requires cap > 0 && 0 < units && 2 * units <= capacity
    ensures exists s :: Reachable(s) && s.t.cap == cap && Stuck(s, Repeater(units))
  {
    hide Leads, ClaimsAreRejected;
    var s0, job := Init(cap), Repeater(units);
    var a, b := Api(CreateResource("db", Resource(0, capacity))), Api(CreateJob(job));
    ProtocolTick.NoStep(s0);
    ProtocolWitness.Extend(s0, [], s0, a);
    var s1 := Step(s0, a);
    ProtocolWitness.Extend(s0, [] + [a], s1, b);
    var s := Step(s1, b);
    RepeaterIsRejected(s.t, capacity, units);
    assert Reachable(s) && Stuck(s, job);
  }
}
