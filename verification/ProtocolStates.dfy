/** The stored state of a run, as long as no operator overrides it, and where active runs are to be found. */
module ProtocolStates {
  import opened Core
  import opened Resources
  import opened Scheduler
  import opened Protocol
  import opened ProtocolPlaces
  import opened ProtocolHolds

  /** The run the tick loop has stored but not yet sent. */
  function StoredRun(pc: Pc): Option<RunId> {
    match pc
    case Stored(_, _, run, _) => Some(run)
    case CondStored(_, _, run, _) => Some(run)
    case _ => None
  }

  /** The row is there, and only CHANGE_STATUS can have given it another state. */
  predicate Expect(s: Sys, r: RunId, state: RunState) {
    r in s.t.runs && (r !in s.touched ==> s.t.runs[r].state == state)
  }

  predicate StateInTask(phase: Phase, state: RunState) {
    match phase
    case Spawning => state == Queued
    case Started => state == Running
    case Ended(outcome) => state == outcome && IsOutcome(outcome)
  }

  ghost predicate HandState(s: Sys) {
    && (s.pc.Held? ==> s.pc.run !in s.t.runs)
    && (StoredRun(s.pc).Some? ==> Expect(s, StoredRun(s.pc).value, Queued))
  }

  ghost predicate QueueState(s: Sys) {
    forall i :: 0 <= i < |s.t.queue| ==> Expect(s, s.t.queue[i].run.id, Queued)
  }

  ghost predicate TaskState(s: Sys) {
    forall r :: r in s.tasks ==>
      r in s.t.runs && (r !in s.touched ==> StateInTask(s.tasks[r].phase, s.t.runs[r].state))
      && (s.tasks[r].phase.Ended? ==> s.t.runs[r].state.IsTerminal())
  }

  ghost predicate OtherState(s: Sys) {
    && (forall r :: r in s.senders ==> Expect(s, r, Queued))
    && (forall r :: r in s.orphans ==> Expect(s, r, Queued))
    && (forall r :: r in s.spawnFailed ==> Expect(s, r, Failed))
    && (forall r :: r in s.retried ==> Expect(s, r, Failed))
    && s.touched <= s.t.runs.Keys
  }

  /** Somebody will still work on the run, and write its row. */
  predicate Awaited(s: Sys, r: RunId) {
    || StoredRun(s.pc) == Some(r)
    || InQueue(s.t.queue, r)
    || r in s.senders
    || (r in s.tasks && !s.tasks[r].phase.Ended?)
  }

  /** Awaited, or one the queue had no room for. */
  predicate InPlace(s: Sys, r: RunId) {
    Awaited(s, r) || r in s.orphans
  }

  ghost predicate ActivePlaced(s: Sys) {
    forall r :: r in s.t.runs && !s.t.runs[r].state.IsTerminal() ==> InPlace(s, r)
  }

  ghost predicate Stated(s: Sys) {
    HandState(s) && QueueState(s) && TaskState(s) && OtherState(s) && ActivePlaced(s)
  }

  // ----- Moves -----

  ghost predicate SamePlacesButQueue(s: Sys, s': Sys) {
    && s'.senders == s.senders && s'.tasks == s.tasks
    && s'.spawnFailed == s.spawnFailed && s'.retried == s.retried
  }

  lemma {:induction false} Unmoved(s: Sys, s': Sys)
    requires Stated(s) && SamePlacesButQueue(s, s') && s'.t.queue == s.t.queue && s'.orphans == s.orphans
    requires s'.t.runs == s.t.runs && s'.touched == s.touched
    requires StoredRun(s'.pc) == StoredRun(s.pc) && (s'.pc.Held? ==> s'.pc.run !in s'.t.runs)
    ensures Stated(s')
  {
    hide InQueue, StoredRun;
  }

  lemma {:induction false} Added(s: Sys, s': Sys, r: RunId, run: Run)
    requires Stated(s) && r !in s.t.runs && run.state == Queued && s'.t.runs == s.t.runs[r := run]
    requires s'.touched == s.touched
    requires s'.t.queue == s.t.queue && s'.orphans == s.orphans && s'.tasks == s.tasks
    requires s'.spawnFailed == s.spawnFailed && s'.retried == s.retried
    requires s'.pc.Held? ==> s'.pc == s.pc && s.pc.run != r
    requires || (s'.senders == s.senders && StoredRun(s.pc) == None && StoredRun(s'.pc) == Some(r))
             || (s'.senders.Keys == s.senders.Keys + {r} && StoredRun(s'.pc) == StoredRun(s.pc))
    ensures Stated(s')
  {
    hide InQueue, StoredRun;
    assert forall q, st :: Expect(s, q, st) ==> q != r && Expect(s', q, st);
    assert ActivePlaced(s') by {
      forall q | q in s'.t.runs && !s'.t.runs[q].state.IsTerminal()
        ensures InPlace(s', q)
      {
        assert q != r ==> InPlace(s, q);
      }
    }
    hide Expect, InPlace;
  }

  /** From the hand or from a waiting sender into the queue. */
  lemma {:induction false} IntoTheQueue(s: Sys, s': Sys, intent: Intent)
    requires Stated(s) && s'.t.runs == s.t.runs && s'.touched == s.touched && s'.orphans == s.orphans
    requires s'.tasks == s.tasks && s'.spawnFailed == s.spawnFailed && s'.retried == s.retried
    requires s'.t.queue == s.t.queue + [intent] && (s'.pc.Held? ==> s'.pc == s.pc)
    requires || (StoredRun(s.pc) == Some(intent.run.id) && StoredRun(s'.pc) == None && s'.senders == s.senders)
             || (intent.run.id in s.senders && s'.senders == s.senders - {intent.run.id}
                 && StoredRun(s'.pc) == StoredRun(s.pc))
    ensures Stated(s')
  {
    hide InQueue, StoredRun;
    QueueGrows(s.t.queue, intent);
  }

  lemma {:induction false} LeftBehind(s: Sys, s': Sys, run: RunId)
    requires Stated(s) && SamePlacesButQueue(s, s') && s'.t.queue == s.t.queue && s'.orphans == s.orphans + {run}
    requires s'.t.runs == s.t.runs && s'.touched == s.touched
    requires StoredRun(s.pc) == Some(run) && StoredRun(s'.pc) == None && !s'.pc.Held?
    ensures Stated(s')
  {
    hide InQueue, StoredRun;
  }

  lemma {:induction false} Dequeued(s: Sys, s': Sys)
    requires Stated(s) && Placed(s) && s.t.queue != [] && s'.t.queue == s.t.queue[1..]
    requires s'.tasks == s.tasks[s.t.queue[0].run.id := Task(s.t.queue[0], Spawning)]
    requires s'.t.runs == s.t.runs && s'.touched == s.touched && s'.orphans == s.orphans && s'.senders == s.senders
    requires s'.spawnFailed == s.spawnFailed && s'.retried == s.retried && s'.pc == s.pc
    ensures Stated(s')
  {
    hide InQueue, Placed;
    QueueShrinks(s.t.queue);
    assert forall i :: 0 <= i < |s'.t.queue| ==> s'.t.queue[i] == s.t.queue[i + 1];
  }

  /** A task writes its row; nobody else works on that run. */
  ghost predicate RowWritten(s: Sys, s': Sys, r: RunId, state: RunState) {
    && r in s.tasks && r in s.t.runs && s'.t.runs == s.t.runs[r := s.t.runs[r].(state := state)]
    && s'.touched == s.touched && s'.t.queue == s.t.queue && s'.orphans == s.orphans && s'.senders == s.senders
    && s'.pc == s.pc && s'.retried == s.retried
  }

  lemma {:induction false} TaskWentOn(s: Sys, s': Sys, r: RunId, phase: Phase, state: RunState)
    requires Stated(s) && Placed(s) && TasksStored(s) && RowWritten(s, s', r, state)
    requires s'.tasks == s.tasks[r := s.tasks[r].(phase := phase)] && s'.spawnFailed == s.spawnFailed
    requires StateInTask(phase, state)
    ensures Stated(s')
  {
    hide InQueue, StoredRun, Placed, Expect;
    NotElsewhere(s, r);
    OthersExpected(s, s', r, state);
    assert ActivePlaced(s') by {
      forall q | q in s'.t.runs && !s'.t.runs[q].state.IsTerminal()
        ensures InPlace(s', q)
      {
        assert q != r ==> InPlace(s, q);
      }
    }
  }

  lemma {:induction false} TaskDidNotSpawn(s: Sys, s': Sys, r: RunId)
    requires Stated(s) && Placed(s) && TasksStored(s) && RowWritten(s, s', r, Failed)
    requires s'.tasks == s.tasks - {r} && s'.spawnFailed == s.spawnFailed + {r}
    ensures Stated(s')
  {
    hide InQueue, StoredRun, Placed, Expect;
    NotElsewhere(s, r);
    OthersExpected(s, s', r, Failed);
    assert ActivePlaced(s') by {
      forall q | q in s'.t.runs && !s'.t.runs[q].state.IsTerminal()
        ensures InPlace(s', q)
      {
        assert q != r ==> InPlace(s, q);
      }
    }
  }

  lemma {:induction false} OthersExpected(s: Sys, s': Sys, r: RunId, state: RunState)
    requires RowWritten(s, s', r, state)
    ensures Expect(s', r, state)
    ensures forall q, st :: Expect(s, q, st) && q != r ==> Expect(s', q, st)
  {
  }

  ghost predicate TasksStored(s: Sys) {
    forall r :: r in s.tasks ==> r in s.t.runs
  }

  lemma {:induction false} NotElsewhere(s: Sys, r: RunId)
    requires Placed(s) && r in s.tasks
    ensures StoredRun(s.pc) != Some(r) && !InQueue(s.t.queue, r) && r !in s.senders
    ensures r !in s.orphans && r !in s.spawnFailed && r !in s.retried
    ensures forall i :: 0 <= i < |s.t.queue| ==> s.t.queue[i].run.id != r
  {
    assert Hand(s.pc) == Some(r) <== StoredRun(s.pc) == Some(r);
  }

  lemma {:induction false} TaskLeft(s: Sys, s': Sys, r: RunId)
    requires Stated(s) && Placed(s) && r in s.tasks && s.tasks[r].phase.Ended? && s'.tasks == s.tasks - {r}
    requires s'.t.runs == s.t.runs && s'.touched == s.touched && s'.t.queue == s.t.queue && s'.orphans == s.orphans
    requires s'.senders == s.senders && s'.pc == s.pc && s'.spawnFailed == s.spawnFailed
    requires s'.retried == s.retried || (s'.retried == s.retried + {r} && s.tasks[r].phase.outcome == Failed)
    ensures Stated(s')
  {
    hide InQueue, StoredRun, Placed;
  }

  lemma {:induction false} StatusChanged(s: Sys, s': Sys, r: RunId, state: RunState)
    requires Stated(s) && r in s.t.runs && state.IsTerminal()
    requires SamePlacesButQueue(s, s') && s'.t.queue == s.t.queue && s'.orphans == s.orphans && s'.pc == s.pc
    requires s'.t.runs == s.t.runs[r := s.t.runs[r].(state := state)] && s'.touched == s.touched + {r}
    ensures Stated(s')
  {
    hide InQueue, StoredRun;
  }

  // ----- Steps -----

  lemma {:induction false} SendKeepsStated(s: Sys, a: TickAction, ok: bool)
    requires Stated(s) && TickEnabled(s, a) && (a == Send(ok) || a == CondSend(ok))
    ensures Stated(TickStep(s, a))
  {
    hide Stated, TryAcquire, Release, HasActive, IsDueList, IsJobList, IsNext, HasRoom, CanSend;
    var s' := TickStep(s, a);
    if ok {
      IntoTheQueue(s, s', s'.t.queue[|s.t.queue|]);
    } else {
      LeftBehind(s, s', s.pc.run);
    }
  }

  lemma {:induction false} StoreKeepsStated(s: Sys, a: TickAction)
    requires SysOk(s) && Stated(s) && TickEnabled(s, a) && (a == Store || a == CondStore)
    ensures Stated(TickStep(s, a))
  {
    hide SysOk, Stated, TryAcquire, Release, HasActive, IsDueList, IsJobList, IsNext, HasRoom, CanSend;
    FreshIsUnknown(s);
    var r := if a == Store then s.pc.run else s.t.nextRun;
    Added(s, TickStep(s, a), r, NewRun(r, s.pc.job.id, 1, []));
  }

  lemma {:induction false} TickKeepsStated(s: Sys, a: TickAction)
    requires SysOk(s) && Stated(s) && TickEnabled(s, a)
    ensures Stated(TickStep(s, a))
  {
    hide SysOk, Stated, TryAcquire, Release, HasActive, IsDueList, IsJobList, IsNext, HasRoom, CanSend, SetNextFire;
    SetNextKeepsRuns(s.t);
    FreshIsUnknown(s);
    match a
    case Store => StoreKeepsStated(s, a);
    case CondStore => StoreKeepsStated(s, a);
    case Send(ok) => SendKeepsStated(s, a, ok);
    case CondSend(ok) => SendKeepsStated(s, a, ok);
    case _ => Unmoved(s, TickStep(s, a));
  }

  lemma {:induction false} FreshIsUnknown(s: Sys)
    requires SysOk(s) && Stated(s)
    ensures s.t.nextRun !in s.t.runs && (s.pc.Held? ==> s.pc.run !in s.t.runs && s.pc.run < s.t.nextRun)
  {
    assert s.pc.Held? ==> Hand(s.pc) == Some(s.pc.run);
  }

  lemma {:induction false} SetNextKeepsRuns(t: Tables)
    ensures forall id, next :: SetNextFire(t, id, next).runs == t.runs && SetNextFire(t, id, next).queue == t.queue
  {
  }

  lemma {:induction false} WritingKeepsStated(s: Sys, a: TaskAction, r: RunId)
    requires Placed(s) && Stated(s) && TaskEnabled(s, a)
    requires a == SpawnFail(r) || a == Start(r) || (a.Finish? && a.run == r)
    ensures Stated(TaskStep(s, a))
  {
    hide Stated, Release, HasRoom, Placed, StoredRun, TasksStored;
    var s' := TaskStep(s, a);
    TasksAreStored(s);
    TaskIsStored(s, r);
    match a
    case SpawnFail(_) => TaskDidNotSpawn(s, s', r);
    case Start(_) => TaskWentOn(s, s', r, Started, Running);
    case Finish(_, outcome) => TaskWentOn(s, s', r, Ended(outcome), outcome);
  }

  lemma {:induction false} TaskIsStored(s: Sys, r: RunId)
    requires Stated(s) && r in s.tasks
    ensures r in s.t.runs
  {
  }

  lemma {:induction false} TaskKeepsStated(s: Sys, a: TaskAction)
    requires SysOk(s) && Stated(s) && TaskEnabled(s, a)
    ensures Stated(TaskStep(s, a))
  {
    hide SysOk, Stated, Release, HasRoom, Placed, StoredRun, UpdateState;
    assert Placed(s) by { ItsPlaces(s); }
    match a
    case Dequeue => Dequeued(s, TaskStep(s, a));
    case SpawnFail(run) => WritingKeepsStated(s, a, run);
    case Start(run) => WritingKeepsStated(s, a, run);
    case Finish(run, outcome) => WritingKeepsStated(s, a, run);
    case Leave(run) => TaskLeft(s, TaskStep(s, a), run);
    case Wake(parent) => WakeKeepsStated(s, parent);
    case Deliver(run) =>
      SenderKey(s, run);
      IntoTheQueue(s, TaskStep(s, a), s.senders[run]);
  }

  lemma {:induction false} WakeKeepsStated(s: Sys, parent: RunId)
    requires SysOk(s) && Stated(s) && TaskEnabled(s, Wake(parent))
    ensures Stated(TaskStep(s, Wake(parent)))
  {
    hide SysOk, Stated, Release, HasRoom, StoredRun;
    FreshIsUnknown(s);
    var failed := s.sleeping[parent];
    Added(s, TaskStep(s, Wake(parent)), s.t.nextRun,
          NewRun(s.t.nextRun, failed.job.id, failed.run.attempt + 1, [parent]));
  }

  lemma {:induction false} ItsPlaces(s: Sys)
    requires SysOk(s)
    ensures Placed(s)
  {
  }

  lemma {:induction false} SenderKey(s: Sys, run: RunId)
    requires Placed(s) && run in s.senders
    ensures s.senders[run].run.id == run
  {
  }

  lemma {:induction false} TasksAreStored(s: Sys)
    requires Stated(s)
    ensures TasksStored(s)
  {
  }

  lemma {:induction false} ApiKeepsStated(s: Sys, a: ApiAction)
    requires Stated(s) && ApiEnabled(s, a)
    ensures Stated(ApiStep(s, a))
  {
    hide Stated, Release, DropResource, Known;
    var s' := ApiStep(s, a);
    assert s.pc.Held? ==> s.pc.run !in s.t.runs by { HeldIsUnknown(s); }
    match a
    case ChangeStatus(run, state) => StatusChanged(s, s', run, state);
    case _ => Unmoved(s, s');
  }

  lemma {:induction false} HeldIsUnknown(s: Sys)
    requires Stated(s)
    ensures s.pc.Held? ==> s.pc.run !in s.t.runs
  {
  }

  lemma {:induction false} StepKeepsStated(s: Sys, a: Action)
    requires SysOk(s) && Stated(s) && Enabled(s, a)
    ensures Stated(Step(s, a))
  {
    hide SysOk, Stated, TickEnabled, TaskEnabled, ApiEnabled, TickStep, TaskStep, ApiStep;
    match a
    case Tick(tick) => TickKeepsStated(s, tick);
    case Work(task) => TaskKeepsStated(s, task);
    case Api(api) => ApiKeepsStated(s, api);
  }

  lemma {:induction false} LeadsKeepsStated(s: Sys, actions: seq<Action>, s': Sys)
    requires SysOk(s) && Stated(s) && Leads(s, actions, s')
    ensures SysOk(s') && Stated(s')
    decreases |actions|
  {
    hide SysOk, Stated, Enabled, Step;
    if actions != [] {
      StepKeepsSysOk(s, actions[0]);
      StepKeepsStated(s, actions[0]);
      LeadsKeepsStated(Step(s, actions[0]), actions[1..], s');
    }
  }

  lemma {:induction false} ReachableIsStated(s: Sys)
    requires Reachable(s)
    ensures SysOk(s) && Stated(s)
  {
    hide SysOk, Leads;
    var cap: nat, actions: seq<Action> :| Leads(Init(cap), actions, s);
    InitOk(cap);
    LeadsKeepsStated(Init(cap), actions, s);
  }

  // ----- What every history keeps -----

  /** One step of a run that is left alone. */
  predicate OneStepOn(before: RunState, after: RunState) {
    match before
    case Queued => after == Queued || after == Running || after == Failed
    case Running => after == Running || IsOutcome(after)
    case _ => after == before
  }

  /** Any number of them. */
  predicate Forward(before: RunState, after: RunState) {
    match before
    case Queued => after == Queued || after == Running || IsOutcome(after)
    case Running => after == Running || IsOutcome(after)
    case _ => after == before
  }

  /** Rows are never removed, and keep job, attempt and parent. */
  ghost predicate RowsMatch(s: Sys, s': Sys, order: (RunState, RunState) -> bool) {
    forall r :: r in s.t.runs ==>
      && r in s'.t.runs
      && s'.t.runs[r].(state := Queued) == s.t.runs[r].(state := Queued)
      && (r !in s'.touched ==> order(s.t.runs[r].state, s'.t.runs[r].state))
  }

  ghost predicate RowsStepOn(s: Sys, s': Sys) {
    RowsMatch(s, s', OneStepOn)
  }

  ghost predicate RowsGoForward(s: Sys, s': Sys) {
    RowsMatch(s, s', Forward)
  }

  lemma {:induction false} TickStepsOn(s: Sys, a: TickAction)
    requires SysOk(s) && Stated(s) && TickEnabled(s, a)
    ensures RowsStepOn(s, TickStep(s, a)) && s.touched == TickStep(s, a).touched
  {
    hide SysOk, Stated, TryAcquire, Release, HasActive, IsDueList, IsJobList, IsNext, HasRoom, CanSend, SetNextFire,
         RowsStepOn;
    SetNextKeepsRuns(s.t);
    FreshIsUnknown(s);
    match a
    case Store => NewRowStepsOn(s, TickStep(s, a), s.pc.run);
    case CondStore => NewRowStepsOn(s, TickStep(s, a), s.t.nextRun);
    case _ => SameRowsStepOn(s, TickStep(s, a));
  }

  lemma {:induction false} TaskStepsOn(s: Sys, a: TaskAction)
    requires SysOk(s) && Stated(s) && TaskEnabled(s, a)
    ensures RowsStepOn(s, TaskStep(s, a)) && s.touched == TaskStep(s, a).touched
  {
    hide SysOk, HandState, QueueState, OtherState, ActivePlaced, Release, HasRoom, RowsStepOn;
    match a
    case Wake(_) => NewRowStepsOn(s, TaskStep(s, a), s.t.nextRun);
    case SpawnFail(run) => OneRowStepsOn(s, TaskStep(s, a), run);
    case Start(run) => OneRowStepsOn(s, TaskStep(s, a), run);
    case Finish(run, _) => OneRowStepsOn(s, TaskStep(s, a), run);
    case _ => SameRowsStepOn(s, TaskStep(s, a));
  }

  lemma {:induction false} SameRowsStepOn(s: Sys, s': Sys)
    requires s'.t.runs == s.t.runs
    ensures RowsStepOn(s, s')
  {
  }

  lemma {:induction false} NewRowStepsOn(s: Sys, s': Sys, r: RunId)
    requires SysOk(s) && Stated(s) && (r == s.t.nextRun || (s.pc.Held? && s.pc.run == r))
    requires r in s'.t.runs && s'.t.runs == s.t.runs[r := s'.t.runs[r]]
    ensures RowsStepOn(s, s')
  {
    hide SysOk, Stated;
    FreshIsUnknown(s);
  }

  lemma {:induction false} OneRowStepsOn(s: Sys, s': Sys, r: RunId)
    requires r in s.t.runs && r in s'.t.runs && s'.t.runs == s.t.runs[r := s.t.runs[r].(state := s'.t.runs[r].state)]
    requires r !in s'.touched ==> OneStepOn(s.t.runs[r].state, s'.t.runs[r].state)
    ensures RowsStepOn(s, s')
  {
  }

  lemma {:induction false} ApiStepsOn(s: Sys, a: ApiAction)
    requires ApiEnabled(s, a)
    ensures RowsStepOn(s, ApiStep(s, a)) && s.touched <= ApiStep(s, a).touched
  {
    hide Release, DropResource, Known;
  }

  lemma {:induction false} StepStepsOn(s: Sys, a: Action)
    requires SysOk(s) && Stated(s) && Enabled(s, a)
    ensures RowsStepOn(s, Step(s, a)) && s.touched <= Step(s, a).touched
  {
    hide SysOk, Stated, RowsStepOn, TickEnabled, TaskEnabled, ApiEnabled, TickStep, TaskStep, ApiStep;
    match a
    case Tick(tick) => TickStepsOn(s, tick);
    case Work(task) => TaskStepsOn(s, task);
    case Api(api) => ApiStepsOn(s, api);
  }

  lemma {:induction false} ForwardTwice(a: Sys, b: Sys, c: Sys)
    requires RowsStepOn(a, b) && RowsGoForward(b, c) && b.touched <= c.touched
    ensures RowsGoForward(a, c)
  {
  }

  /**
   * Left alone by operators, a run only goes from Queued over Running to its
   * outcome, or from Queued straight to Failed, and nothing revives it; its
   * job, attempt number and parent never change, operators or not.
   */
  lemma {:induction false} RunsGoForward(s: Sys, actions: seq<Action>, s': Sys)
    requires SysOk(s) && Stated(s) && Leads(s, actions, s')
    ensures RowsGoForward(s, s') && s.touched <= s'.touched
    decreases |actions|
  {
    hide SysOk, Stated, Enabled, Step, RowsGoForward, RowsStepOn;
    if actions == [] {
      assert RowsGoForward(s, s') by { ForwardNot(s); }
    } else {
      var next := Step(s, actions[0]);
      StepKeepsSysOk(s, actions[0]);
      StepKeepsStated(s, actions[0]);
      StepStepsOn(s, actions[0]);
      RunsGoForward(next, actions[1..], s');
      ForwardTwice(s, next, s');
    }
  }

  lemma {:induction false} ForwardNot(s: Sys)
    ensures RowsGoForward(s, s)
  {
  }

  /** A run that is not over is being worked on, is waiting, or is one the queue had no room for. */
  lemma {:induction false} NoActiveRunIsLost(s: Sys, r: RunId)
    requires Reachable(s) && r in s.t.runs && !s.t.runs[r].state.IsTerminal()
    ensures InPlace(s, r)
  {
    hide Reachable, SysOk, HandState, QueueState, TaskState, OtherState, InPlace;
    ReachableIsStated(s);
  }

  /** The task has the last word: whatever an operator set, the task's next update replaces it. */
  lemma {:induction false} TaskOverridesOperator(s: Sys, r: RunId, state: RunState, outcome: RunState)
    requires Reachable(s) && r in s.tasks && s.tasks[r].phase.Started? && state.IsTerminal() && IsOutcome(outcome)
    ensures var actions := [Api(ChangeStatus(r, state)), Work(Finish(r, outcome))];
            exists s' :: Leads(s, actions, s') && r in s'.t.runs && s'.t.runs[r].state == outcome
  {
    hide Reachable, SysOk, HandState, QueueState, OtherState, ActivePlaced;
    ReachableIsStated(s);
    var actions := [Api(ChangeStatus(r, state)), Work(Finish(r, outcome))];
    var s1 := Step(s, actions[0]);
    var s' := Step(s1, actions[1]);
    assert actions[1..] == [actions[1]] && actions[1..][1..] == [];
    assert Leads(s', [], s') && Leads(s1, actions[1..], s');
    assert Leads(s, actions, s') && s'.t.runs[r].state == outcome;
  }

  // ----- Orphans -----

  lemma {:induction false} OrphansStay(s: Sys, actions: seq<Action>, s': Sys)
    requires Leads(s, actions, s')
    ensures s.orphans <= s'.orphans
    decreases |actions|
  {
    hide Enabled, Step;
    if actions != [] {
      StepKeepsOrphans(s, actions[0]);
      OrphansStay(Step(s, actions[0]), actions[1..], s');
    }
  }

  lemma {:induction false} StepKeepsOrphans(s: Sys, a: Action)
    requires Enabled(s, a)
    ensures s.orphans <= Step(s, a).orphans
  {
    hide TickEnabled, TaskEnabled, ApiEnabled, TickStep, TaskStep, ApiStep;
    match a
    case Tick(tick) => TickKeepsOrphans(s, tick);
    case Work(task) => TaskKeepsOrphans(s, task);
    case Api(api) => ApiKeepsOrphans(s, api);
  }

  lemma {:induction false} TickKeepsOrphans(s: Sys, a: TickAction)
    requires TickEnabled(s, a)
    ensures s.orphans <= TickStep(s, a).orphans
  {
    hide TryAcquire, Release, HasActive, IsDueList, IsJobList, IsNext, HasRoom, CanSend, SetNextFire;
  }

  lemma {:induction false} TaskKeepsOrphans(s: Sys, a: TaskAction)
    requires TaskEnabled(s, a)
    ensures s.orphans == TaskStep(s, a).orphans
  {
    hide Release, HasRoom;
  }

  lemma {:induction false} ApiKeepsOrphans(s: Sys, a: ApiAction)
    requires ApiEnabled(s, a)
    ensures s.orphans == ApiStep(s, a).orphans
  {
    hide Release, DropResource, SetNextFire, Known;
  }

  /**
   * A run the queue had no room for stays Queued for ever unless an operator
   * changes it, and for as long as it does the condition of its job is never
   * acted upon again, in whatever history follows.
   */
  lemma {:induction false} OrphanBlocksItsCondition(s: Sys, actions: seq<Action>, s': Sys, r: RunId)
    requires SysOk(s) && Stated(s) && Leads(s, actions, s') && r in s.orphans && r !in s'.touched
    ensures r in s.t.runs && r in s'.t.runs && s'.t.runs[r].state == Queued
    ensures s'.pc.Cond? && s'.pc.rest != [] && s'.pc.rest[0].id == s.t.runs[r].job ==> !TickEnabled(s', Choose)
  {
    hide SysOk, Leads, HandState, QueueState, TaskState, ActivePlaced;
    OrphansStay(s, actions, s');
    LeadsKeepsStated(s, actions, s');
    RunsGoForward(s, actions, s');
    assert s'.t.runs[r].job == s.t.runs[r].(state := Queued).job;
  }
}
