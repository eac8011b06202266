/** The steps of the tick loop, when nothing comes in between, are the tick that `Tick` describes. */
module ProtocolTick {
  import opened Core
  import opened Resources
  import opened Scheduler
  import opened Tick
  import P = Protocol
  import TickFires

  function MomentOf(env: Env): P.Moment {
    P.Moment(env.now, OpeningsAt(env.cals, env.now))
  }

  lemma {:induction false} LeadsOn(s: P.Sys, first: seq<P.Action>, s1: P.Sys, rest: seq<P.Action>, s2: P.Sys)
    requires P.Leads(s, first, s1) && P.Leads(s1, rest, s2)
    ensures P.Leads(s, first + rest, s2)
    decreases |first|
  {
    hide P.Enabled, P.Step;
    if first == [] {
      assert first + rest == rest;
    } else {
      assert (first + rest)[1..] == first[1..] + rest;
      LeadsOn(P.Step(s, first[0]), first[1..], s1, rest, s2);
    }
  }

  lemma {:induction false} OneStep(s: P.Sys, a: P.TickAction)
    requires P.TickEnabled(s, a)
    ensures P.Leads(s, [P.Tick(a)], P.TickStep(s, a))
  {
    hide P.TickEnabled, P.TickStep;
    var s' := P.TickStep(s, a);
    assert P.Leads(s', [], s') && [P.Tick(a)][1..] == [];
  }

  lemma {:induction false} Then(s: P.Sys, first: seq<P.Action>, s1: P.Sys, a: P.TickAction)
    requires P.Leads(s, first, s1) && P.TickEnabled(s1, a)
    ensures P.Leads(s, first + [P.Tick(a)], P.TickStep(s1, a))
  {
    hide P.Leads, P.TickEnabled, P.TickStep;
    OneStep(s1, a);
    LeadsOn(s, first, s1, [P.Tick(a)], P.TickStep(s1, a));
  }

  /** How the loop goes on once the next fire is to be set. */
  ghost predicate IsLast(last: P.TickAction, trigger: Trigger, env: Env) {
    var next := ComputeNext(trigger, env);
    last == if next.Ok? then P.Advance(next.value) else P.CronError
  }

  lemma {:induction false} LastIsEnabled(s: P.Sys, last: P.TickAction, env: Env)
    requires s.pc.Advancing? && s.pc.at == MomentOf(env) && IsLast(last, s.pc.job.trigger, env)
    ensures P.TickEnabled(s, last)
  {
  }

  /** One due job. */
  lemma {:induction false} DueStepsAreFire(s: P.Sys, env: Env) returns (actions: seq<P.Action>, s': P.Sys)
    requires s.pc.Due? && s.pc.at == MomentOf(env) && s.pc.rest != []
    ensures P.Leads(s, actions, s')
    ensures var (t', outcome) := Fire(s.t, s.pc.rest[0], env);
            s'.t == t' && s'.pc == if Stops(outcome) then P.Idle else P.Due(MomentOf(env), s.pc.rest[1..])
  {
    hide P.Leads, TryAcquire, Release, Allows, ComputeNext, P.IsNext, SetNextFire;
    var job := s.pc.rest[0];
    var next := ComputeNext(job.trigger, env);
    if !CalendarAllows(job, env.now, env.cals) {
      var last := if next.Ok? then P.Advance(next.value) else P.CronError;
      OneStep(s, P.SkipDue);
      s' := P.TickStep(s, P.SkipDue);
      LastIsEnabled(s', last, env);
      Then(s, [P.Tick(P.SkipDue)], s', last);
      actions, s' := [P.Tick(P.SkipDue)] + [P.Tick(last)], P.TickStep(s', last);
    } else {
      OneStep(s, P.TryHold);
      actions, s' := [P.Tick(P.TryHold)], P.TickStep(s, P.TryHold);
      if s'.pc.Held? {
        actions, s' := HeldStepsAreFire(s, actions, s', env);
      }
    }
  }

  lemma {:induction false} HeldStepsAreFire(s: P.Sys, first: seq<P.Action>, s1: P.Sys, env: Env)
      returns (actions: seq<P.Action>, s': P.Sys)
    requires P.Leads(s, first, s1) && s1.pc.Held? && s1.pc.at == MomentOf(env)
    ensures P.Leads(s, actions, s')
    ensures var run := NewRun(s1.pc.run, s1.pc.job.id, 1, []);
            var t2 := InsertRun(s1.t, run);
            var t3 := Enqueue(t2, Intent(s1.pc.job, run));
            var next := ComputeNext(s1.pc.job.trigger, env);
            (s'.t, s'.pc) == if !HasRoom(t2) then (ReleaseHolds(t2, run.id), P.Due(s1.pc.at, s1.pc.rest))
                             else if next.Err? then (t3, P.Idle)
                             else (SetNextFire(t3, s1.pc.job.id, next.value), P.Due(s1.pc.at, s1.pc.rest))
  {
    hide P.Leads, Release, P.IsNext, SetNextFire, ComputeNext;
    Then(s, first, s1, P.Store);
    actions, s' := first + [P.Tick(P.Store)], P.TickStep(s1, P.Store);
    var send := P.Send(HasRoom(s'.t));
    Then(s, actions, s', send);
    actions, s' := actions + [P.Tick(send)], P.TickStep(s', send);
    var next := ComputeNext(s1.pc.job.trigger, env);
    var last := if !send.ok then P.Undo else if next.Ok? then P.Advance(next.value) else P.CronError;
    if send.ok {
      LastIsEnabled(s', last, env);
    }
    Then(s, actions, s', last);
    actions, s' := actions + [P.Tick(last)], P.TickStep(s', last);
  }

  /** One job of the condition loop. */
  lemma {:induction false} CondStepsAreFire(s: P.Sys, env: Env) returns (actions: seq<P.Action>, s': P.Sys)
    requires s.pc.Cond? && s.pc.at == MomentOf(env) && s.pc.rest != []
    ensures P.Leads(s, actions, s')
    ensures s'.t == FireCondition(s.t, s.pc.rest[0], env).0 && s'.pc == P.Cond(s.pc.at, s.pc.rest[1..])
  {
    hide P.Leads, Allows, HasActive, SetNextFire;
    var job := s.pc.rest[0];
    if !ConditionFires(s.t, job, env) {
      OneStep(s, P.Pass);
      actions, s' := [P.Tick(P.Pass)], P.TickStep(s, P.Pass);
    } else {
      OneStep(s, P.Choose);
      actions, s' := ChosenStepsAreFire(s, [P.Tick(P.Choose)], P.TickStep(s, P.Choose));
    }
  }

  lemma {:induction false} ChosenStepsAreFire(s: P.Sys, first: seq<P.Action>, s1: P.Sys)
      returns (actions: seq<P.Action>, s': P.Sys)
    requires P.Leads(s, first, s1) && s1.pc.CondChosen?
    ensures P.Leads(s, actions, s') && s'.pc == P.Cond(s1.pc.at, s1.pc.rest)
    ensures var run := NewRun(s1.t.nextRun, s1.pc.job.id, 1, []);
            var t2 := InsertRun(TakeId(s1.t), run);
            s'.t == if !HasRoom(t2) then t2 else SetNextFire(Enqueue(t2, Intent(s1.pc.job, run)), s1.pc.job.id, None)
  {
    hide P.Leads, SetNextFire;
    Then(s, first, s1, P.CondStore);
    actions, s' := first + [P.Tick(P.CondStore)], P.TickStep(s1, P.CondStore);
    var send := P.CondSend(HasRoom(s'.t));
    Then(s, actions, s', send);
    actions, s' := actions + [P.Tick(send)], P.TickStep(s', send);
    if send.ok {
      Then(s, actions, s', P.CondAdvance);
      actions, s' := actions + [P.Tick(P.CondAdvance)], P.TickStep(s', P.CondAdvance);
    }
  }

  lemma {:induction false} DueLoop(s: P.Sys, env: Env) returns (actions: seq<P.Action>, s': P.Sys)
    requires s.pc.Due? && s.pc.at == MomentOf(env)
    ensures P.Leads(s, actions, s')
    ensures var r := TickDue(s.t, s.pc.rest, env);
            s'.t == r.t && s'.pc == if Aborted(r.outcomes) then P.Idle else P.Due(MomentOf(env), [])
    decreases |s.pc.rest|
  {
    hide P.Leads, Fire;
    if s.pc.rest == [] {
      actions, s' := [], s;
      assert P.Leads(s, actions, s') by { NoStep(s); }
    } else {
      actions, s' := DueStepsAreFire(s, env);
      if s'.pc.Due? {
        var more, s2 := DueLoop(s', env);
        LeadsOn(s, actions, s', more, s2);
        actions, s' := actions + more, s2;
      }
    }
  }

  lemma {:induction false} NoStep(s: P.Sys)
    ensures P.Leads(s, [], s)
  {
  }

  lemma {:induction false} CondLoop(s: P.Sys, env: Env) returns (actions: seq<P.Action>, s': P.Sys)
    requires s.pc.Cond? && s.pc.at == MomentOf(env)
    ensures P.Leads(s, actions, s')
    ensures s'.t == TickConditions(s.t, s.pc.rest, env).0 && s'.pc == P.Cond(s.pc.at, [])
    decreases |s.pc.rest|
  {
    hide P.Leads, FireCondition;
    if s.pc.rest == [] {
      actions, s' := [], s;
      assert P.Leads(s, actions, s') by { NoStep(s); }
    } else {
      actions, s' := CondStepsAreFire(s, env);
      var more, s2 := CondLoop(s', env);
      LeadsOn(s, actions, s', more, s2);
      actions, s' := actions + more, s2;
    }
  }

  /**
   * From any state in which the tick loop is idle, the tick as one atomic
   * operation is one of the histories of the machine; so all that holds of
   * every history holds of it.
   */
  lemma {:induction false} AtomicTickIsAHistory(s: P.Sys, due: seq<Job>, all: seq<Job>, env: Env)
    requires s.pc.Idle? && IsDueList(s.t.jobs, env.now, due) && IsJobList(TickDue(s.t, due, env).t.jobs, all)
    ensures exists actions, s' ::
              P.Leads(s, actions, s') && s'.t == TickFires.TickOnce(s.t, due, all, env).0 && s'.pc.Idle?
  {
    hide P.Leads, TickDue, TickConditions, IsDueList, IsJobList, Aborted;
    OneStep(s, P.Begin(MomentOf(env), due));
    var s1 := P.TickStep(s, P.Begin(MomentOf(env), due));
    var more, s2 := DueLoop(s1, env);
    LeadsOn(s, [P.Tick(P.Begin(MomentOf(env), due))], s1, more, s2);
    var actions := [P.Tick(P.Begin(MomentOf(env), due))] + more;
    if s2.pc.Idle? {
      assert P.Leads(s, actions, s2) && s2.t == TickFires.TickOnce(s.t, due, all, env).0;
    } else {
      Then(s, actions, s2, P.List(all));
      var s3 := P.TickStep(s2, P.List(all));
      var last, s4 := CondLoop(s3, env);
      LeadsOn(s, actions + [P.Tick(P.List(all))], s3, last, s4);
      Then(s, actions + [P.Tick(P.List(all))] + last, s4, P.End);
      var s' := P.TickStep(s4, P.End);
      assert s'.t == TickFires.TickOnce(s.t, due, all, env).0;
    }
  }
}
