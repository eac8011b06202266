/** How long the state that an operator gives a run lasts. */
module ProtocolOperators {
  import opened Core
  import opened Resources
  import opened Scheduler
  import opened Protocol
  import opened ProtocolPlaces
  import opened ProtocolHolds
  import opened ProtocolStates
  import ProtocolTick
  import Worker

  predicate ChangesStatusOf(a: Action, r: RunId) {
    a.Api? && a.api.ChangeStatus? && a.api.run == r
  }

  predicate NoStatusChange(actions: seq<Action>, r: RunId) {
    forall i :: 0 <= i < |actions| ==> !ChangesStatusOf(actions[i], r)
  }

  /** Whatever happens next, short of another status change, the run stays in this state. */
  ghost predicate Lasts(s: Sys, r: RunId, state: RunState) {
    forall actions, s' :: Leads(s, actions, s') && NoStatusChange(actions, r) ==>
      r in s'.t.runs && s'.t.runs[r].state == state
  }

  // ----- Nobody comes back to a run that is not awaited -----

  ghost predicate Settled(s: Sys, r: RunId, state: RunState) {
    r in s.t.runs && s.t.runs[r].state == state && !Awaited(s, r)
  }

  lemma {:induction false} TickLeavesSettled(s: Sys, a: TickAction, r: RunId, state: RunState)
    requires SysOk(s) && Stated(s) && TickEnabled(s, a) && Settled(s, r, state)
    ensures Settled(TickStep(s, a), r, state)
  {
    hide SysOk, Stated, InQueue, TryAcquire, Release, HasActive, IsDueList, IsJobList, IsNext, HasRoom, CanSend,
         SetNextFire;
    FreshIsUnknown(s);
    SetNextKeepsRuns(s.t);
    match a
    case Send(ok) => SendLeavesSettled(s, a, ok, r, state);
    case CondSend(ok) => SendLeavesSettled(s, a, ok, r, state);
    case _ =>
  }

  lemma {:induction false} SendLeavesSettled(s: Sys, a: TickAction, ok: bool, r: RunId, state: RunState)
    requires TickEnabled(s, a) && (a == Send(ok) || a == CondSend(ok)) && Settled(s, r, state)
    ensures Settled(TickStep(s, a), r, state)
  {
    hide InQueue, HasRoom, CanSend;
    if ok {
      QueueGrows(s.t.queue, TickStep(s, a).t.queue[|s.t.queue|]);
    }
  }

  lemma {:induction false} TaskLeavesSettled(s: Sys, a: TaskAction, r: RunId, state: RunState)
    requires SysOk(s) && Stated(s) && TaskEnabled(s, a) && Settled(s, r, state)
    ensures Settled(TaskStep(s, a), r, state)
  {
    hide SysOk, Stated, InQueue, StoredRun, Release, HasRoom;
    FreshIsUnknown(s);
    match a
    case Dequeue => QueueShrinks(s.t.queue);
    case Deliver(run) => DeliverLeavesSettled(s, run, r, state);
    case _ =>
  }

  lemma {:induction false} DeliverLeavesSettled(s: Sys, run: RunId, r: RunId, state: RunState)
    requires SysOk(s) && TaskEnabled(s, Deliver(run)) && Settled(s, r, state)
    ensures Settled(TaskStep(s, Deliver(run)), r, state)
  {
    hide SysOk, InQueue, StoredRun, HasRoom, Placed;
    assert Placed(s) by { ItsPlaces(s); }
    SenderKey(s, run);
    QueueGrows(s.t.queue, s.senders[run]);
  }

  lemma {:induction false} ApiLeavesSettled(s: Sys, a: ApiAction, r: RunId, state: RunState)
    requires ApiEnabled(s, a) && Settled(s, r, state) && !ChangesStatusOf(Api(a), r)
    ensures Settled(ApiStep(s, a), r, state)
  {
    hide InQueue, StoredRun, Release, DropResource, Known;
  }

  lemma {:induction false} StepLeavesSettled(s: Sys, a: Action, r: RunId, state: RunState)
    requires SysOk(s) && Stated(s) && Enabled(s, a) && Settled(s, r, state) && !ChangesStatusOf(a, r)
    ensures Settled(Step(s, a), r, state)
  {
    hide SysOk, Stated, Settled, ChangesStatusOf, TickEnabled, TaskEnabled, ApiEnabled, TickStep, TaskStep, ApiStep;
    match a
    case Tick(tick) => TickLeavesSettled(s, tick, r, state);
    case Work(task) => TaskLeavesSettled(s, task, r, state);
    case Api(api) => ApiLeavesSettled(s, api, r, state);
  }

  lemma {:induction false} SettledLasts(s: Sys, actions: seq<Action>, s': Sys, r: RunId, state: RunState)
    requires SysOk(s) && Stated(s) && Settled(s, r, state) && Leads(s, actions, s') && NoStatusChange(actions, r)
    ensures Settled(s', r, state)
    decreases |actions|
  {
    hide SysOk, Stated, Settled, Enabled, Step, ChangesStatusOf;
    if actions != [] {
      StepKeepsSysOk(s, actions[0]);
      StepKeepsStated(s, actions[0]);
      StepLeavesSettled(s, actions[0], r, state);
      SettledLasts(Step(s, actions[0]), actions[1..], s', r, state);
    }
  }

  // ----- An awaited run can always be overridden -----

  /** A history without API calls, after which the row of the run is another. */
  ghost predicate Overrides(s: Sys, actions: seq<Action>, s': Sys, r: RunId, state: RunState) {
    && Leads(s, actions, s')
    && NoApi(actions)
    && r in s'.t.runs && s'.t.runs[r].state != state
  }

  predicate NoApi(actions: seq<Action>) {
    forall i :: 0 <= i < |actions| ==> !actions[i].Api?
  }

  lemma {:induction false} TaskOverrides(s: Sys, r: RunId, state: RunState) returns (actions: seq<Action>, s': Sys)
    requires r in s.t.runs && r in s.tasks && !s.tasks[r].phase.Ended? && state.IsTerminal()
    ensures Overrides(s, actions, s', r, state)
  {
    hide Leads;
    var a := if s.tasks[r].phase == Spawning then Start(r) else Finish(r, if state == Success then Failed else Success);
    Worker.WorkStep(s, a);
    actions, s' := [Work(a)], TaskStep(s, a);
  }

  lemma {:induction false} Prepend(s: Sys, first: seq<Action>, s1: Sys, rest: seq<Action>, s': Sys, r: RunId,
                                   state: RunState)
    requires Leads(s, first, s1) && NoApi(first) && Overrides(s1, rest, s', r, state)
    ensures Overrides(s, first + rest, s', r, state)
  {
    hide Leads;
    ProtocolTick.LeadsOn(s, first, s1, rest, s');
  }

  lemma {:induction false} QueuedOverrides(s: Sys, r: RunId, state: RunState) returns (actions: seq<Action>, s': Sys)
    requires r in s.t.runs && InQueue(s.t.queue, r) && state.IsTerminal()
    ensures Overrides(s, actions, s', r, state)
    decreases |s.t.queue|
  {
    hide Leads, InQueue, Overrides;
    assert s.t.queue != [] by { NotEmpty(s.t.queue, r); }
    var s1 := TaskStep(s, Dequeue);
    Worker.WorkStep(s, Dequeue);
    QueueShrinks(s.t.queue);
    if s.t.queue[0].run.id == r {
      actions, s' := TaskOverrides(s1, r, state);
    } else {
      actions, s' := QueuedOverrides(s1, r, state);
    }
    Prepend(s, [Work(Dequeue)], s1, actions, s', r, state);
    actions := [Work(Dequeue)] + actions;
  }

  lemma {:induction false} NotEmpty(queue: seq<Intent>, r: RunId)
    requires InQueue(queue, r)
    ensures queue != []
  {
  }

  /** Taking intents off the queue makes room, and touches nothing else that matters here. */
  lemma {:induction false} MakeRoom(s: Sys) returns (actions: seq<Action>, s': Sys)
    requires s.t.cap > 0
    ensures Leads(s, actions, s') && HasRoom(s'.t) && forall i :: 0 <= i < |actions| ==> actions[i] == Work(Dequeue)
    ensures s'.pc == s.pc && s'.senders == s.senders && s'.t.runs == s.t.runs && s'.t.jobs == s.t.jobs
    ensures s'.t.cap == s.t.cap
    decreases |s.t.queue|
  {
    if HasRoom(s.t) {
      actions, s' := [], s;
    } else {
      hide Leads;
      var s1 := TaskStep(s, Dequeue);
      Worker.WorkStep(s, Dequeue);
      actions, s' := MakeRoom(s1);
      ProtocolTick.LeadsOn(s, [Work(Dequeue)], s1, actions, s');
      actions := [Work(Dequeue)] + actions;
    }
  }

  lemma {:induction false} SenderOverrides(s: Sys, r: RunId, state: RunState) returns (actions: seq<Action>, s': Sys)
    requires s.t.cap > 0 && r in s.t.runs && r in s.senders && s.senders[r].run.id == r && state.IsTerminal()
    ensures Overrides(s, actions, s', r, state)
  {
    hide Leads, InQueue, Overrides;
    var first, s1 := MakeRoom(s);
    var s2 := TaskStep(s1, Deliver(r));
    Worker.WorkStep(s1, Deliver(r));
    QueueGrows(s1.t.queue, s1.senders[r]);
    actions, s' := QueuedOverrides(s2, r, state);
    Prepend(s1, [Work(Deliver(r))], s2, actions, s', r, state);
    Prepend(s, first, s1, [Work(Deliver(r))] + actions, s', r, state);
    actions := first + ([Work(Deliver(r))] + actions);
  }

  lemma {:induction false} HandOverrides(s: Sys, r: RunId, state: RunState) returns (actions: seq<Action>, s': Sys)
    requires s.t.cap > 0 && r in s.t.runs && StoredRun(s.pc) == Some(r) && state.IsTerminal()
    ensures Overrides(s, actions, s', r, state)
  {
    hide Leads, InQueue, Overrides;
    var first, s1 := MakeRoom(s);
    var send := if s.pc.Stored? then Send(true) else CondSend(true);
    var s2 := TickStep(s1, send);
    ProtocolTick.OneStep(s1, send);
    QueueGrows(s1.t.queue, s2.t.queue[|s1.t.queue|]);
    actions, s' := QueuedOverrides(s2, r, state);
    Prepend(s1, [Tick(send)], s2, actions, s', r, state);
    Prepend(s, first, s1, [Tick(send)] + actions, s', r, state);
    actions := first + ([Tick(send)] + actions);
  }

  lemma {:induction false} AwaitedOverrides(s: Sys, r: RunId, state: RunState) returns (actions: seq<Action>, s': Sys)
    requires Placed(s) && s.t.cap > 0 && r in s.t.runs && Awaited(s, r) && state.IsTerminal()
    ensures Overrides(s, actions, s', r, state)
  {
    hide Leads, InQueue, Overrides, Placed;
    if StoredRun(s.pc) == Some(r) {
      actions, s' := HandOverrides(s, r, state);
    } else if InQueue(s.t.queue, r) {
      actions, s' := QueuedOverrides(s, r, state);
    } else if r in s.senders {
      SenderKey(s, r);
      actions, s' := SenderOverrides(s, r, state);
    } else {
      actions, s' := TaskOverrides(s, r, state);
    }
  }

  // ----- Exactly -----

  /**
   * The state an operator gives a run lasts, whatever follows short of
   * another status change, if and only if nobody has the run still before
   * him: not the tick loop, nor a waiting sender, the queue, or a task that
   * has not stored its outcome.
   */
  lemma {:induction false} OperatorStateLastsExactly(s: Sys, r: RunId, state: RunState)
    requires Reachable(s) && s.t.cap > 0 && r in s.t.runs && state.IsTerminal()
    ensures Lasts(ApiStep(s, ChangeStatus(r, state)), r, state) <==> !Awaited(s, r)
  {
    hide Reachable, SysOk, Stated, Leads, Lasts, Awaited, Settled;
    var a := Api(ChangeStatus(r, state));
    var s1 := Step(s, a);
    ReachableIsStated(s);
    StepKeepsSysOk(s, a);
    StepKeepsStated(s, a);
    SameAwaited(s, s1, r);
    if Awaited(s, r) {
      assert Placed(s1) by { ItsPlaces(s1); }
      var actions, s' := AwaitedOverrides(s1, r, state);
      OverriddenDoesNotLast(s1, actions, s', r, state);
    } else {
      NotAwaitedLasts(s1, r, state);
    }
  }

  lemma {:induction false} SameAwaited(s: Sys, s1: Sys, r: RunId)
    requires s1.pc == s.pc && s1.t.queue == s.t.queue && s1.senders == s.senders && s1.tasks == s.tasks
    ensures Awaited(s1, r) == Awaited(s, r)
  {
  }

  lemma {:induction false} OverriddenDoesNotLast(s: Sys, actions: seq<Action>, s': Sys, r: RunId, state: RunState)
    requires Overrides(s, actions, s', r, state)
    ensures !Lasts(s, r, state)
  {
    hide Leads;
    assert NoStatusChange(actions, r);
  }

  lemma {:induction false} NotAwaitedLasts(s: Sys, r: RunId, state: RunState)
    requires SysOk(s) && Stated(s) && r in s.t.runs && s.t.runs[r].state == state && !Awaited(s, r)
    ensures Lasts(s, r, state)
  {
    hide SysOk, Stated, Leads, NoStatusChange, Awaited;
    forall actions, s' | Leads(s, actions, s') && NoStatusChange(actions, r)
      ensures r in s'.t.runs && s'.t.runs[r].state == state
    {
      SettledLasts(s, actions, s', r, state);
    }
  }
}
