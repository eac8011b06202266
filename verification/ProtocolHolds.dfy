/** Resource holds under every interleaving: never over capacity, and never without an owner. */
module ProtocolHolds {
  import opened Core
  import opened Resources
  import opened Scheduler
  import opened Protocol
  import opened ProtocolPlaces
  import TickAccount

  // ----- The tables -----

  ghost predicate SysOk(s: Sys) {
    TablesOk(s.t) && Placed(s)
  }

  lemma {:induction false} HandIsTaken(s: Sys)
    requires Placed(s) && Hand(s.pc).Some?
    ensures Hand(s.pc).value < s.t.nextRun
  {
  }

  /** Rows that change neither key nor job, and jobs that stay valid. */
  lemma {:induction false} UpdateKeepsKeyed(t: Tables, run: RunId, state: RunState)
    requires Keyed(t)
    ensures Keyed(UpdateState(t, run, state))
  {
  }

  lemma {:induction false} JobKeepsKeyed(t: Tables, job: Job)
    requires Keyed(t) && IsJob(job)
    ensures Keyed(t.(jobs := t.jobs[job.id := job]))
  {
  }

  lemma {:induction false} FewerHoldsKeepKeyed(t: Tables, resources: ResourceTable, holds: seq<Hold>)
    requires Keyed(t) && forall h :: h in holds ==> h in t.holds
    ensures Keyed(t.(resources := resources, holds := holds))
  {
    forall i | 0 <= i < |holds|
      ensures holds[i].run < t.nextRun
    {
      assert holds[i] in t.holds;
    }
  }

  lemma {:induction false} ReleaseKeepsTables(t: Tables, run: RunId)
    requires TablesOk(t)
    ensures TablesOk(ReleaseHolds(t, run))
  {
    hide Keyed, Sound;
    ReleaseKeepsRows(t.holds, run);
    ReleaseKeepsSound(t.resources, t.holds, run);
    FewerHoldsKeepKeyed(t, t.resources, Release(t.holds, run));
  }

  lemma {:induction false} OtherFieldsKeepKeyed(t: Tables, t': Tables)
    requires Keyed(t) && t'.jobs == t.jobs && t'.runs == t.runs && t'.holds == t.holds && t'.nextRun >= t.nextRun
    ensures Keyed(t')
  {
  }

  lemma {:induction false} TickKeepsTables(s: Sys, a: TickAction)
    requires SysOk(s) && TickEnabled(s, a)
    ensures TablesOk(TickStep(s, a).t)
  {
    hide Placed, Keyed, Sound, TryAcquire, Release, HasActive, IsDueList, IsJobList, IsNext, HasRoom, CanSend;
    match a
    case TryHold =>
      TryAcquireKeepsSound(s.t.resources, s.t.holds, s.t.nextRun, s.pc.rest[0].claims);
      TickAccount.NewHoldsAreOfTheRun(s.t, s.pc.rest[0]);
      TickAccount.TakenKeepsKeyed(s.t, TickStep(s, a).t.holds);
    case Store =>
      HandIsTaken(s);
      TickAccount.InsertKeepsKeyed(s.t, NewRun(s.pc.run, s.pc.job.id, 1, []));
    case CondStore =>
      OtherFieldsKeepKeyed(s.t, TakeId(s.t));
      TickAccount.InsertKeepsKeyed(TakeId(s.t), NewRun(s.t.nextRun, s.pc.job.id, 1, []));
    case Undo => ReleaseKeepsTables(s.t, s.pc.run);
    case Advance(next) => TickAccount.SetNextKeepsKeyed(s.t, s.pc.job.id, next);
    case CondAdvance => TickAccount.SetNextKeepsKeyed(s.t, s.pc.job.id, None);
    case _ => OtherFieldsKeepKeyed(s.t, TickStep(s, a).t);
  }

  lemma {:induction false} TaskKeepsTables(s: Sys, a: TaskAction)
    requires SysOk(s) && TaskEnabled(s, a)
    ensures TablesOk(TaskStep(s, a).t)
  {
    hide Placed, Keyed, Sound, Release, HasRoom;
    match a
    case SpawnFail(run) => UpdateKeepsKeyed(s.t, run, Failed);
    case Start(run) => UpdateKeepsKeyed(s.t, run, Running);
    case Finish(run, outcome) => UpdateKeepsKeyed(s.t, run, outcome);
    case Leave(run) => ReleaseKeepsTables(s.t, run);
    case Wake(parent) =>
      OtherFieldsKeepKeyed(s.t, TakeId(s.t));
      var failed := s.sleeping[parent];
      TickAccount.InsertKeepsKeyed(TakeId(s.t), NewRun(s.t.nextRun, failed.job.id, failed.run.attempt + 1, [parent]));
    case _ => OtherFieldsKeepKeyed(s.t, TaskStep(s, a).t);
  }

  lemma {:induction false} ApiKeepsTables(s: Sys, a: ApiAction)
    requires TablesOk(s.t) && ApiEnabled(s, a)
    ensures TablesOk(ApiStep(s, a).t)
  {
    hide Keyed, Sound, Release, DropResource, Known;
    match a
    case CreateJob(job) => JobKeepsKeyed(s.t, job);
    case EditJob(job) => JobKeepsKeyed(s.t, job);
    case SetFire(id, next) => TickAccount.SetNextKeepsKeyed(s.t, id, next);
    case CreateResource(name, r) =>
      InsertKeepsSound(s.t.resources, s.t.holds, name, r);
      FewerHoldsKeepKeyed(s.t, s.t.resources[name := r], s.t.holds);
    case DeleteResource(name) =>
      DropKeepsSound(s.t.resources, s.t.holds, name);
      DropKeepsRows(s.t.holds, s.t.resources[name].id);
      FewerHoldsKeepKeyed(s.t, s.t.resources - {name}, DropResource(s.t.holds, s.t.resources[name].id));
    case ChangeStatus(run, state) => UpdateKeepsKeyed(s.t, run, state);
    case ChangeRelease(run) => ReleaseKeepsTables(s.t, run);
  }

  lemma {:induction false} StepKeepsSysOk(s: Sys, a: Action)
    requires SysOk(s) && Enabled(s, a)
    ensures SysOk(Step(s, a))
  {
    hide TablesOk, Placed, TickEnabled, TaskEnabled, ApiEnabled, TickStep, TaskStep, ApiStep;
    StepKeepsPlaced(s, a);
    match a
    case Tick(tick) => TickKeepsTables(s, tick);
    case Work(task) => TaskKeepsTables(s, task);
    case Api(api) => ApiKeepsTables(s, api);
  }

  // ----- Owners -----

  /** A run that is due to release its holds, or failed to spawn and never will. */
  predicate Owner(s: Sys, r: RunId) {
    || ((s.pc.Held? || s.pc.Stored? || s.pc.Undoing?) && s.pc.run == r)
    || InQueue(s.t.queue, r)
    || r in s.tasks
    || r in s.spawnFailed
  }

  ghost predicate HoldsOwned(s: Sys) {
    forall h :: h in s.t.holds ==> Owner(s, h.run)
  }

  lemma {:induction false} HoldsStayOwned(s: Sys, s': Sys, gone: set<RunId>)
    requires HoldsOwned(s)
    requires forall h :: h in s'.t.holds ==> h in s.t.holds && h.run !in gone
    requires forall r :: Owner(s, r) ==> Owner(s', r) || r in gone
    ensures HoldsOwned(s')
  {
  }

  lemma {:induction false} SendKeepsOwners(s: Sys, a: TickAction, ok: bool)
    requires HoldsOwned(s) && TickEnabled(s, a) && (a == Send(ok) || a == CondSend(ok))
    ensures HoldsOwned(TickStep(s, a))
  {
    hide HoldsOwned, InQueue, TryAcquire, Release, HasActive, IsDueList, IsJobList, IsNext, HasRoom, CanSend;
    var s' := TickStep(s, a);
    if ok {
      QueueGrows(s.t.queue, s'.t.queue[|s.t.queue|]);
    }
    HoldsStayOwned(s, s', {});
  }

  lemma {:induction false} TickKeepsOwners(s: Sys, a: TickAction)
    requires SysOk(s) && HoldsOwned(s) && TickEnabled(s, a)
    ensures HoldsOwned(TickStep(s, a))
  {
    hide SysOk, HoldsOwned, InQueue, TryAcquire, Release, HasActive, IsDueList, IsJobList, IsNext, HasRoom, CanSend;
    match a
    case TryHold => HoldTaken(s);
    case Send(ok) => SendKeepsOwners(s, a, ok);
    case CondSend(ok) => SendKeepsOwners(s, a, ok);
    case Undo =>
      ReleaseKeepsRows(s.t.holds, s.pc.run);
      HoldsStayOwned(s, TickStep(s, a), {s.pc.run});
    case _ => HoldsStayOwned(s, TickStep(s, a), {});
  }

  lemma {:induction false} HoldTaken(s: Sys)
    requires HoldsOwned(s) && TickEnabled(s, TryHold)
    ensures HoldsOwned(TickStep(s, TryHold))
  {
    hide InQueue, Acquire, HasActive;
    var s' := TickStep(s, TryHold);
    TickAccount.NewHoldsAreOfTheRun(s.t, s.pc.rest[0]);
    forall h | h in s'.t.holds
      ensures Owner(s', h.run)
    {
      var i :| 0 <= i < |s'.t.holds| && s'.t.holds[i] == h;
      if i < |s.t.holds| {
        assert s.t.holds[i] == h;
      }
    }
  }

  lemma {:induction false} TaskKeepsOwners(s: Sys, a: TaskAction)
    requires HoldsOwned(s) && TaskEnabled(s, a)
    ensures HoldsOwned(TaskStep(s, a))
  {
    hide HoldsOwned, InQueue, Release, HasRoom;
    var s' := TaskStep(s, a);
    match a
    case Dequeue =>
      QueueShrinks(s.t.queue);
      HoldsStayOwned(s, s', {});
    case Leave(run) =>
      ReleaseKeepsRows(s.t.holds, run);
      HoldsStayOwned(s, s', {run});
    case Deliver(run) =>
      QueueGrows(s.t.queue, s.senders[run]);
      HoldsStayOwned(s, s', {});
    case _ => HoldsStayOwned(s, s', {});
  }

  lemma {:induction false} ApiKeepsOwners(s: Sys, a: ApiAction)
    requires HoldsOwned(s) && ApiEnabled(s, a)
    ensures HoldsOwned(ApiStep(s, a))
  {
    hide HoldsOwned, InQueue, Release, DropResource, Known;
    var s' := ApiStep(s, a);
    match a
    case DeleteResource(name) =>
      DropKeepsRows(s.t.holds, s.t.resources[name].id);
      HoldsStayOwned(s, s', {});
    case ChangeRelease(run) =>
      ReleaseKeepsRows(s.t.holds, run);
      HoldsStayOwned(s, s', {});
    case _ => HoldsStayOwned(s, s', {});
  }

  lemma {:induction false} StepKeepsOwners(s: Sys, a: Action)
    requires SysOk(s) && HoldsOwned(s) && Enabled(s, a)
    ensures HoldsOwned(Step(s, a))
  {
    hide SysOk, HoldsOwned, TickEnabled, TaskEnabled, ApiEnabled, TickStep, TaskStep, ApiStep;
    match a
    case Tick(tick) => TickKeepsOwners(s, tick);
    case Work(task) => TaskKeepsOwners(s, task);
    case Api(api) => ApiKeepsOwners(s, api);
  }

  // ----- Every reachable state -----

  lemma {:induction false} InitOk(cap: nat)
    ensures SysOk(Init(cap)) && HoldsOwned(Init(cap))
  {
  }

  lemma {:induction false} LeadsKeepsOk(s: Sys, actions: seq<Action>, s': Sys)
    requires SysOk(s) && HoldsOwned(s) && Leads(s, actions, s')
    ensures SysOk(s') && HoldsOwned(s')
    decreases |actions|
  {
    hide SysOk, HoldsOwned, Enabled, Step;
    if actions != [] {
      StepKeepsSysOk(s, actions[0]);
      StepKeepsOwners(s, actions[0]);
      LeadsKeepsOk(Step(s, actions[0]), actions[1..], s');
    }
  }

  lemma {:induction false} ReachableIsOk(s: Sys)
    requires Reachable(s)
    ensures SysOk(s) && HoldsOwned(s)
  {
    hide SysOk, HoldsOwned, Leads, Init;
    var cap: nat, actions: seq<Action> :| Leads(Init(cap), actions, s);
    InitOk(cap);
    LeadsKeepsOk(Init(cap), actions, s);
  }

  /** No resource is ever held beyond its capacity, so the clamp in the count of free units never acts. */
  lemma {:induction false} CapacityIsNeverExceeded(s: Sys, name: string)
    requires Reachable(s) && name in s.t.resources
    ensures Used(s.t.holds, s.t.resources[name].id) <= s.t.resources[name].capacity
    ensures AvailableUnits(s.t.resources, s.t.holds, name)
         == Some(s.t.resources[name].capacity - Used(s.t.holds, s.t.resources[name].id))
  {
    hide Reachable, Placed, Keyed, Used;
    ReachableIsOk(s);
    ClampIsIdle(s.t.resources, s.t.holds, name);
  }

  /**
   * Every hold belongs to a run that is being dispatched, queued, in a task or
   * failed to spawn. So without spawn failures an idle scheduler holds nothing.
   */
  lemma {:induction false} NothingLeaks(s: Sys)
    requires Reachable(s)
    ensures HoldsOwned(s)
    ensures s.pc == Idle && s.t.queue == [] && s.tasks == map[] && s.spawnFailed == {} ==>
              && s.t.holds == []
              && forall name :: name in s.t.resources ==>
                   AvailableUnits(s.t.resources, s.t.holds, name) == Some(s.t.resources[name].capacity)
  {
    hide Reachable, Placed, Keyed, Sound;
    ReachableIsOk(s);
    if s.pc == Idle && s.t.queue == [] && s.tasks == map[] && s.spawnFailed == {} {
      assert forall h :: h in s.t.holds ==> !Owner(s, h.run);
      SomethingHeld(s.t.holds);
      forall name | name in s.t.resources
        ensures AvailableUnits(s.t.resources, s.t.holds, name) == Some(s.t.resources[name].capacity)
      {
        ClampIsIdle(s.t.resources, s.t.holds, name);
      }
    }
  }

  lemma {:induction false} SomethingHeld(holds: seq<Hold>)
    ensures holds != [] ==> exists h :: h in holds
  {
    if holds != [] {
      assert holds[0] in holds;
    }
  }

  // ----- The leak -----

  /** The two ways out for a hold of a run that failed to spawn. */
  predicate Frees(s: Sys, a: Action, h: Hold) {
    match a
    case Api(ChangeRelease(run)) => run == h.run
    case Api(DeleteResource(name)) => name in s.t.resources && s.t.resources[name].id == h.resource
    case _ => false
  }

  ghost predicate FreesNever(s: Sys, actions: seq<Action>, h: Hold)
    decreases |actions|
  {
    actions != [] && Enabled(s, actions[0]) ==>
      !Frees(s, actions[0], h) && FreesNever(Step(s, actions[0]), actions[1..], h)
  }

  lemma {:induction false} LeakSurvivesTick(s: Sys, a: TickAction, h: Hold)
    requires SysOk(s) && TickEnabled(s, a) && h in s.t.holds && h.run in s.spawnFailed
    ensures h.run in TickStep(s, a).spawnFailed && h in TickStep(s, a).t.holds
  {
    hide TablesOk, HandPlaced, SendersPlaced, QueuePlaced, TasksPlaced, Release, TryAcquire, HasActive, HasRoom,
         IsDueList,
         IsJobList, IsNext, CanSend;
    match a {
      case TryHold =>
        TickAccount.NewHoldsAreOfTheRun(s.t, s.pc.rest[0]);
        var i :| 0 <= i < |s.t.holds| && s.t.holds[i] == h;
        assert TickStep(s, a).t.holds[i] == h;
      case Undo => ReleaseKeepsRows(s.t.holds, s.pc.run);
      case _ =>
    }
  }

  lemma {:induction false} LeakSurvivesTask(s: Sys, a: TaskAction, h: Hold)
    requires SysOk(s) && TaskEnabled(s, a) && h in s.t.holds && h.run in s.spawnFailed
    ensures h.run in TaskStep(s, a).spawnFailed && h in TaskStep(s, a).t.holds
  {
    hide TablesOk, HandPlaced, SendersPlaced, QueuePlaced, OverPlaced, Release, HasRoom;
    match a {
      case Leave(run) => ReleaseKeepsRows(s.t.holds, run);
      case _ =>
    }
  }

  lemma {:induction false} LeakSurvivesApi(s: Sys, a: ApiAction, h: Hold)
    requires ApiEnabled(s, a) && h in s.t.holds && h.run in s.spawnFailed
    ensures h.run in ApiStep(s, a).spawnFailed
    ensures h in ApiStep(s, a).t.holds <==> !Frees(s, Api(a), h)
  {
    hide Release, DropResource, Known, SetNextFire;
    match a {
      case ChangeRelease(run) => ReleaseKeepsRows(s.t.holds, run);
      case DeleteResource(name) => DropKeepsRows(s.t.holds, s.t.resources[name].id);
      case SetFire(id, next) => SetNextKeepsHolds(s.t, id, next);
      case _ =>
    }
  }

  lemma {:induction false} SetNextKeepsHolds(t: Tables, id: JobId, next: Option<Time>)
    ensures SetNextFire(t, id, next).holds == t.holds
  {
  }

  lemma {:induction false} LeakSurvivesStep(s: Sys, a: Action, h: Hold)
    requires SysOk(s) && Enabled(s, a) && h in s.t.holds && h.run in s.spawnFailed
    ensures h.run in Step(s, a).spawnFailed
    ensures h in Step(s, a).t.holds <==> !Frees(s, a, h)
  {
    hide SysOk, TickStep, TaskStep, ApiStep, TickEnabled, TaskEnabled, ApiEnabled;
    match a {
      case Tick(tick) => LeakSurvivesTick(s, tick, h);
      case Work(task) => LeakSurvivesTask(s, task, h);
      case Api(api) => LeakSurvivesApi(s, api, h);
    }
  }

  /**
   * A spawn failure leaks: the holds of the run stay through any further
   * history, until an operator changes the status of that very run or the
   * resource is deleted.
   */
  lemma {:induction false} SpawnFailureLeaks(s: Sys, actions: seq<Action>, s': Sys, h: Hold)
    requires SysOk(s) && Leads(s, actions, s') && h in s.t.holds && h.run in s.spawnFailed
    requires FreesNever(s, actions, h)
    ensures h in s'.t.holds && Used(s'.t.holds, h.resource) >= h.units
    decreases |actions|
  {
    hide SysOk, Enabled, Step, Frees;
    if actions == [] {
      HeldIsUsed(s.t.holds, h);
    } else {
      LeakSurvivesStep(s, actions[0], h);
      StepKeepsSysOk(s, actions[0]);
      SpawnFailureLeaks(Step(s, actions[0]), actions[1..], s', h);
    }
  }

  lemma {:induction false} HeldIsUsed(holds: seq<Hold>, h: Hold)
    requires h in holds
    ensures Used(holds, h.resource) >= h.units
  {
    var front, last := holds[..|holds| - 1], holds[|holds| - 1];
    if last != h {
      assert holds == front + [last];
      HeldIsUsed(front, h);
    }
  }
}
