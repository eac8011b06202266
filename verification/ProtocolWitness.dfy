/** Histories from the empty store into the states that a spawn failure and a full queue leave behind. */
module ProtocolWitness {
  import opened Core
  import opened Outcome
  import opened Resources
  import opened Scheduler
  import opened Protocol
  import ProtocolTick

  const ZERO_ONLY := ExitCodePolicy(0, [], None)

  // No calendars are stored.
  const AT_ZERO := Moment(0, map[])

  /** A history continued by one action. */
  lemma {:induction false} Extend(start: Sys, actions: seq<Action>, s: Sys, a: Action)
    requires Leads(start, actions, s) && Enabled(s, a)
    ensures Leads(start, actions + [a], Step(s, a))
  {
    var s' := Step(s, a);
    assert Leads(s', [], s') && [a][1..] == [];
    assert Leads(s, [a], s');
    hide Leads, Enabled, Step;
    ProtocolTick.LeadsOn(start, actions, s, [a], s');
  }

  // ----- A run that fails to spawn -----

  function Claimant(units: nat, nextFire: Option<Time>): Job {
    Job(0, OneShot(0), [Claim("db", units)], 1, false, nextFire, None, None, ZERO_ONLY)
  }

  /** One resource, and one job that is due and claims some of it. */
  function WithClaimant(cap: nat, capacity: nat, units: nat): Sys {
    Init(cap).(
      t := Tables(map[0 := Claimant(units, Some(0))], map[], map["db" := Resource(0, capacity)], [], [], cap, 0))
  }

  lemma {:induction false} ClaimantIsSetUp(cap: nat, capacity: nat, units: nat) returns (actions: seq<Action>)
    requires 0 < units
    ensures Leads(Init(cap), actions, WithClaimant(cap, capacity, units))
  {
    hide Leads;
    var s0 := Init(cap);
    var a, b := Api(CreateResource("db", Resource(0, capacity))), Api(CreateJob(Claimant(units, Some(0))));
    ProtocolTick.NoStep(s0);
    Extend(s0, [], s0, a);
    Extend(s0, [] + [a], Step(s0, a), b);
    assert Step(Step(s0, a), b) == WithClaimant(cap, capacity, units);
    actions := [] + [a] + [b];
  }

  /** The job has been dispatched, and its intent waits in the queue. */
  function WithDispatched(cap: nat, capacity: nat, units: nat): Sys {
    var run := NewRun(0, 0, 1, []);
    var job := Claimant(units, Some(0));
    WithClaimant(cap, capacity, units).(
      t := Tables(map[0 := Claimant(units, None)], map[0 := run], map["db" := Resource(0, capacity)],
                  [Hold(0, 0, units)], [Intent(job, run)], cap, 1),
      carried := map[0 := job])
  }

  lemma {:induction false} ClaimIsMet(capacity: nat, units: nat)
    requires 0 < units <= capacity
    ensures TryAcquire(map["db" := Resource(0, capacity)], [], 0, [Claim("db", units)])
         == (Acquired, [Hold(0, 0, units)])
  {
    var table, claims := map["db" := Resource(0, capacity)], [Claim("db", units)];
    var none: seq<Hold> := [];
    assert claims[1..] == [] && none + [Hold(0, 0, units)] == [Hold(0, 0, units)];
    assert Used(none, 0) == 0 && !HasHold(none, 0, 0);
    assert Acquire(table, none, 0, claims) == Acquire(table, [Hold(0, 0, units)], 0, []);
  }

  lemma {:induction false} ClaimantIsHeld(cap: nat, capacity: nat, units: nat, first: seq<Action>)
      returns (actions: seq<Action>, s: Sys)
    requires 0 < units <= capacity && Leads(Init(cap), first, WithClaimant(cap, capacity, units))
    ensures Leads(Init(cap), actions, s)
    ensures s == WithClaimant(cap, capacity, units).(
                   t := WithClaimant(cap, capacity, units).t.(holds := [Hold(0, 0, units)], nextRun := 1),
                   pc := Held(AT_ZERO, Claimant(units, Some(0)), 0, []))
  {
    hide Leads, TryAcquire;
    var job := Claimant(units, Some(0));
    actions, s := first, WithClaimant(cap, capacity, units);
    var a := Tick(Begin(AT_ZERO, [job]));
    Extend(Init(cap), actions, s, a);
    actions, s := actions + [a], Step(s, a);
    ClaimIsMet(capacity, units);
    Extend(Init(cap), actions, s, Tick(TryHold));
    assert [job][1..] == [];
    actions, s := actions + [Tick(TryHold)], Step(s, Tick(TryHold));
  }

  lemma {:induction false} ClaimantIsDispatched(cap: nat, capacity: nat, units: nat) returns (actions: seq<Action>)
    requires 0 < units <= capacity && cap > 0
    ensures Leads(Init(cap), actions, WithDispatched(cap, capacity, units))
  {
    hide Leads, TryAcquire;
    var job := Claimant(units, Some(0));
    var s;
    actions := ClaimantIsSetUp(cap, capacity, units);
    actions, s := ClaimantIsHeld(cap, capacity, units, actions);
    actions, s := SentFromHand(Init(cap), actions, s);
    var b := Tick(List([Claimant(units, None)]));
    Extend(Init(cap), actions, s, b);
    actions, s := actions + [b], Step(s, b);
    Extend(Init(cap), actions, s, Tick(Pass));
    actions, s := actions + [Tick(Pass)], Step(s, Tick(Pass));
    Extend(Init(cap), actions, s, Tick(End));
    actions, s := actions + [Tick(End)], Step(s, Tick(End));
    assert s == WithDispatched(cap, capacity, units);
  }

  /** From the claims on, a job without a next fire is stored, sent and done. */
  lemma {:induction false} SentFromHand(start: Sys, first: seq<Action>, s: Sys)
      returns (actions: seq<Action>, s': Sys)
    requires Leads(start, first, s) && s.pc.Held? && HasRoom(s.t) && IsNext(s.pc.job.trigger, s.pc.at.now, None)
    ensures Leads(start, actions, s')
    ensures var run := NewRun(s.pc.run, s.pc.job.id, 1, []);
            s' == s.(t := SetNextFire(Enqueue(InsertRun(s.t, run), Intent(s.pc.job, run)), s.pc.job.id, None),
                     carried := s.carried[run.id := s.pc.job], pc := Due(s.pc.at, s.pc.rest))
  {
    hide Leads, SetNextFire;
    actions, s' := first, s;
    Extend(start, actions, s', Tick(Store));
    actions, s' := actions + [Tick(Store)], Step(s', Tick(Store));
    Extend(start, actions, s', Tick(Send(true)));
    actions, s' := actions + [Tick(Send(true))], Step(s', Tick(Send(true)));
    Extend(start, actions, s', Tick(Advance(None)));
    actions, s' := actions + [Tick(Advance(None))], Step(s', Tick(Advance(None)));
  }

  /**
   * For any queue, capacity and claim that fits: the scheduler can come to
   * rest with nothing queued, nothing running, and the claimed units gone.
   */
  lemma {:induction false} SpawnFailureHappens(cap: nat, capacity: nat, units: nat)
    requires cap > 0 && 0 < units <= capacity
    ensures exists s :: Reachable(s)
              && s.pc == Idle && s.t.queue == [] && s.tasks == map[] && s.senders == map[] && s.sleeping == map[]
              && s.spawnFailed == {0} && Hold(0, 0, units) in s.t.holds
              && "db" in s.t.resources && s.t.resources["db"].capacity == capacity
              && AvailableUnits(s.t.resources, s.t.holds, "db") == Some(capacity - units)
  {
    hide Leads;
    var actions := ClaimantIsDispatched(cap, capacity, units);
    var s1 := WithDispatched(cap, capacity, units);
    Extend(Init(cap), actions, s1, Work(Dequeue));
    var s2 := Step(s1, Work(Dequeue));
    actions := actions + [Work(Dequeue)];
    Extend(Init(cap), actions, s2, Work(SpawnFail(0)));
    var s3 := Step(s2, Work(SpawnFail(0)));
    assert Leads(Init(cap), actions + [Work(SpawnFail(0))], s3);
    assert [Hold(0, 0, units)][..0] == [];
    assert Used(s3.t.holds, 0) == units;
    assert s3.tasks == map[];
  }

  // ----- A run the queue has no room for -----

  const MANUAL := Job(0, Manual, [], 1, false, None, None, None, ZERO_ONLY)

  // True of every store in which no job of that name is running.
  const WAITING := Job(1, Condition("notrunning(a)"), [], 1, false, None, None, None, ZERO_ONLY)

  /** A manual job has filled the queue up to `n`; there is no other job yet. */
  ghost predicate Filled(s: Sys, cap: nat, n: nat) {
    && s.pc == Idle && s.t.cap == cap && |s.t.queue| == n
    && s.t.jobs == map[0 := MANUAL]
    && s.t.resources == map[] && s.t.holds == []
    && (forall r :: r in s.t.runs ==> s.t.runs[r].job == 0)
    && s.touched == {}
  }

  lemma {:induction false} ManualIsSetUp(cap: nat) returns (actions: seq<Action>, s: Sys)
    ensures Leads(Init(cap), actions, s) && Filled(s, cap, 0)
  {
    hide Leads;
    var a := Api(CreateJob(MANUAL));
    s := Init(cap);
    ProtocolTick.NoStep(s);
    Extend(s, [], s, a);
    actions, s := [] + [a], Step(s, a);
    assert s.t.jobs == map[0 := MANUAL];
  }

  lemma {:induction false} TriggeredJobIsHeld(start: Sys, first: seq<Action>, s: Sys, cap: nat, n: nat)
      returns (actions: seq<Action>, s': Sys)
    requires Leads(start, first, s) && Filled(s, cap, n)
    ensures Leads(start, actions, s')
    ensures s' == s.(t := TakeId(SetNextFire(s.t, 0, Some(0))),
                     pc := Held(AT_ZERO, MANUAL.(nextFire := Some(0)), s.t.nextRun, []))
  {
    hide Leads;
    var due := [MANUAL.(nextFire := Some(0))];
    var a, b := Api(SetFire(0, Some(0))), Tick(Begin(AT_ZERO, due));
    Extend(start, first, s, a);
    actions, s' := first + [a], Step(s, a);
    assert IsDueList(s'.t.jobs, 0, due) by {
      assert due[0] in due;
    }
    Extend(start, actions, s', b);
    actions, s' := actions + [b], Step(s', b);
    assert due[1..] == [];
    Extend(start, actions, s', Tick(TryHold));
    actions, s' := actions + [Tick(TryHold)], Step(s', Tick(TryHold));
  }

  /** Each manual trigger puts one more run into the queue. */
  lemma {:induction false} OneMoreQueued(start: Sys, first: seq<Action>, s: Sys, cap: nat, n: nat)
      returns (actions: seq<Action>, s': Sys)
    requires Leads(start, first, s) && Filled(s, cap, n) && n < cap
    ensures Leads(start, actions, s') && Filled(s', cap, n + 1)
  {
    hide Leads;
    actions, s' := TriggeredJobIsHeld(start, first, s, cap, n);
    actions, s' := SentFromHand(start, actions, s');
    assert s'.t.jobs == map[0 := MANUAL];
    actions, s' := LoopEnds(start, actions, s');
  }

  /** Nothing more is due, and there is no condition job. */
  lemma {:induction false} LoopEnds(start: Sys, first: seq<Action>, s: Sys) returns (actions: seq<Action>, s': Sys)
    requires Leads(start, first, s) && s.pc.Due? && s.pc.rest == [] && s.t.jobs == map[0 := MANUAL]
    ensures Leads(start, actions, s') && s' == s.(pc := Idle)
  {
    hide Leads;
    var all := [MANUAL];
    assert IsJobList(s.t.jobs, all) by {
      assert all[0] in all;
    }
    Extend(start, first, s, Tick(List(all)));
    actions, s' := first + [Tick(List(all))], Step(s, Tick(List(all)));
    assert all[1..] == [];
    Extend(start, actions, s', Tick(Pass));
    actions, s' := actions + [Tick(Pass)], Step(s', Tick(Pass));
    Extend(start, actions, s', Tick(End));
    actions, s' := actions + [Tick(End)], Step(s', Tick(End));
  }

  lemma {:induction false} QueueIsFilled(cap: nat, n: nat) returns (actions: seq<Action>, s: Sys)
    requires n <= cap
    ensures Leads(Init(cap), actions, s) && Filled(s, cap, n)
  {
    hide Leads, Filled;
    if n == 0 {
      actions, s := ManualIsSetUp(cap);
    } else {
      actions, s := QueueIsFilled(cap, n - 1);
      actions, s := OneMoreQueued(Init(cap), actions, s, cap, n - 1);
    }
  }

  lemma {:induction false} BothListed(jobs: map<JobId, Job>)
    requires jobs == map[0 := MANUAL, 1 := WAITING]
    ensures IsJobList(jobs, [MANUAL, WAITING])
  {
    var all := [MANUAL, WAITING];
    assert all[0] == MANUAL && all[1] == WAITING;
  }

  /** The condition job is created when the queue is full, and the next tick comes to it. */
  lemma {:induction false} ConditionIsReached(cap: nat, first: seq<Action>, s: Sys)
      returns (actions: seq<Action>, s': Sys)
    requires Leads(Init(cap), first, s) && Filled(s, cap, cap)
    ensures Leads(Init(cap), actions, s')
    ensures s' == s.(t := s.t.(jobs := map[0 := MANUAL, 1 := WAITING]), pc := Cond(AT_ZERO, [WAITING]))
  {
    hide Leads, IsJobList;
    var all := [MANUAL, WAITING];
    Extend(Init(cap), first, s, Api(CreateJob(WAITING)));
    actions, s' := first + [Api(CreateJob(WAITING))], Step(s, Api(CreateJob(WAITING)));
    assert s'.t.jobs == map[0 := MANUAL, 1 := WAITING];
    Extend(Init(cap), actions, s', Tick(Begin(AT_ZERO, [])));
    actions, s' := actions + [Tick(Begin(AT_ZERO, []))], Step(s', Tick(Begin(AT_ZERO, [])));
    BothListed(s'.t.jobs);
    Extend(Init(cap), actions, s', Tick(List(all)));
    actions, s' := actions + [Tick(List(all))], Step(s', Tick(List(all)));
    Extend(Init(cap), actions, s', Tick(Pass));
    actions, s' := actions + [Tick(Pass)], Step(s', Tick(Pass));
    assert all[1..] == [WAITING];
  }

  /**
   * For any size of the queue: a condition job that comes true while it is
   * full is left with a run that waits nowhere.
   */
  lemma {:induction false} OverflowHappens(cap: nat)
    requires cap > 0
    ensures exists s, r :: Reachable(s) && s.pc == Idle && |s.t.queue| == cap
              && r in s.orphans && r !in s.touched && r in s.t.runs
              && s.t.runs[r].job in s.t.jobs && s.t.jobs[s.t.runs[r].job].trigger.Condition?
  {
    hide Leads;
    var actions, s := QueueIsFilled(cap, cap);
    var r := s.t.nextRun;
    actions, s := ConditionIsReached(cap, actions, s);
    actions, s := ConditionOverflows(Init(cap), actions, s);
    Extend(Init(cap), actions, s, Tick(End));
    actions, s := actions + [Tick(End)], Step(s, Tick(End));
    assert Reachable(s) && r in s.orphans;
  }

  lemma {:induction false} ConditionOverflows(start: Sys, first: seq<Action>, s: Sys)
      returns (actions: seq<Action>, s': Sys)
    requires Leads(start, first, s) && s.pc == Cond(AT_ZERO, [WAITING]) && !HasRoom(s.t) && !HasActive(s.t.runs, 1)
    ensures Leads(start, actions, s')
    ensures var run := NewRun(s.t.nextRun, 1, 1, []);
            s' == s.(t := InsertRun(TakeId(s.t), run), carried := s.carried[run.id := WAITING],
                     orphans := s.orphans + {run.id}, pc := Cond(AT_ZERO, []))
  {
    hide Leads, HasActive;
    actions, s' := first, s;
    Extend(start, actions, s', Tick(Choose));
    assert [WAITING][1..] == [];
    actions, s' := actions + [Tick(Choose)], Step(s', Tick(Choose));
    Extend(start, actions, s', Tick(CondStore));
    actions, s' := actions + [Tick(CondStore)], Step(s', Tick(CondStore));
    Extend(start, actions, s', Tick(CondSend(false)));
    actions, s' := actions + [Tick(CondSend(false))], Step(s', Tick(CondSend(false)));
  }
}
