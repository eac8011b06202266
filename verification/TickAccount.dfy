/** The books of one tick: what it enqueues, stores, holds and reschedules, as functions of its outcomes. */
module TickAccount {
  import opened Core
  import opened Resources
  import opened Scheduler
  import opened Tick

  /** A run id is taken before the claims are tried, whatever comes of them. */
  predicate TakesId(outcome: FireOutcome) {
    outcome != OffCalendar && outcome != CronFailed
  }

  function NextId(outcome: FireOutcome, next: RunId): RunId {
    if TakesId(outcome) then next + 1 else next
  }

  /** The intents of the dispatched jobs, in the order of the due list. */
  function Sent(due: seq<Job>, outcomes: seq<FireOutcome>, next: RunId): seq<Intent>
    requires |outcomes| <= |due|
  {
    if outcomes == [] then []
    else
      var rest := Sent(due[1..], outcomes[1..], NextId(outcomes[0], next));
      if Sends(outcomes[0]) then [Intent(due[0], NewRun(next, due[0].id, 1, []))] + rest else rest
  }

  /** The rows of the dispatched jobs and of those the queue had no room for. */
  function Rows(due: seq<Job>, outcomes: seq<FireOutcome>, next: RunId): seq<Run>
    requires |outcomes| <= |due|
  {
    if outcomes == [] then []
    else
      var rest := Rows(due[1..], outcomes[1..], NextId(outcomes[0], next));
      if Sends(outcomes[0]) || outcomes[0] == QueueFull then [NewRun(next, due[0].id, 1, [])] + rest else rest
  }

  function WithRows(runs: map<RunId, Run>, rows: seq<Run>): map<RunId, Run>
    decreases |rows|
  {
    if rows == [] then runs else WithRows(runs[rows[0].id := rows[0]], rows[1..])
  }

  function Taken(outcomes: seq<FireOutcome>): nat {
    if outcomes == [] then 0 else (if TakesId(outcomes[0]) then 1 else 0) + Taken(outcomes[1..])
  }

  predicate ClaimsKnown(table: ResourceTable, intents: seq<Intent>) {
    forall i, k :: 0 <= i < |intents| && 0 <= k < |intents[i].job.claims| ==> intents[i].job.claims[k].resource in table
  }

  function HoldsOf(table: ResourceTable, intents: seq<Intent>): seq<Hold>
    requires ClaimsKnown(table, intents)
  {
    if intents == [] then []
    else HoldsFor(table, intents[0].run.id, intents[0].job.claims) + HoldsOf(table, intents[1..])
  }

  /** A fire that is over and done with: the next one is set. */
  predicate Settled(outcome: FireOutcome) {
    outcome == OffCalendar || outcome == Dispatched
  }

  function After(job: Job, outcome: FireOutcome, env: Env): Job {
    var next := ComputeNext(job.trigger, env);
    if Settled(outcome) && next.Ok? then job.(nextFire := next.value) else job
  }

  ghost predicate JobsAfter(jobs: map<JobId, Job>, due: seq<Job>, outcomes: seq<FireOutcome>, env: Env,
                            jobs': map<JobId, Job>)
    requires |outcomes| <= |due|
  {
    && jobs'.Keys == jobs.Keys
    && (forall i :: 0 <= i < |outcomes| ==> due[i].id in jobs' && jobs'[due[i].id] == After(due[i], outcomes[i], env))
    && (forall id :: id in jobs && (forall i :: 0 <= i < |outcomes| ==> due[i].id != id) ==> jobs'[id] == jobs[id])
  }

  /** Each outcome leaves exactly the traces it should. */
  ghost predicate Accounted(t: Tables, due: seq<Job>, outcomes: seq<FireOutcome>, env: Env, t': Tables)
    requires |outcomes| <= |due|
  {
    var sent := Sent(due, outcomes, t.nextRun);
    && t'.resources == t.resources && t'.cap == t.cap
    && t'.nextRun == t.nextRun + Taken(outcomes)
    && t'.queue == t.queue + sent
    && t'.runs == WithRows(t.runs, Rows(due, outcomes, t.nextRun))
    && ClaimsKnown(t.resources, sent) && t'.holds == t.holds + HoldsOf(t.resources, sent)
    && JobsAfter(t.jobs, due, outcomes, env, t'.jobs)
  }

  /** The rows of a due list, as long as none of them has been touched. */
  ghost predicate Untouched(jobs: map<JobId, Job>, due: seq<Job>) {
    && (forall i :: 0 <= i < |due| ==> due[i].id in jobs && jobs[due[i].id] == due[i])
    && (forall i, j :: 0 <= i < j < |due| ==> due[i].id != due[j].id)
  }

  lemma {:induction false} FireKeepsTables(t: Tables, job: Job, env: Env)
    requires TablesOk(t) && job.id in t.jobs && t.jobs[job.id] == job
    ensures TablesOk(Fire(t, job, env).0)
  {
    hide TryAcquire, Sound, CalendarAllows, ComputeNext, AllSatisfiable, HasRoom, HoldsAny, Release;
    var holds' := TryAcquire(t.resources, t.holds, t.nextRun, job.claims).1;
    TryAcquireKeepsSound(t.resources, t.holds, t.nextRun, job.claims);
    FreshRunHoldsNothing(t);
    AcquireThenRelease(t.resources, t.holds, t.nextRun, job.claims);
    NewHoldsAreOfTheRun(t, job);
    var computed := ComputeNext(job.trigger, env);
    var next := if computed.Ok? then computed.value else None;
    SetNextKeepsKeyed(t, job.id, next);
    TakenKeepsKeyed(t, holds');
    var t1 := TakeId(t).(holds := holds');
    var run := NewRun(t.nextRun, job.id, 1, []);
    InsertKeepsKeyed(t1, run);
    var t2 := Enqueue(InsertRun(t1, run), Intent(job, run));
    SetNextKeepsKeyed(t2, job.id, next);
  }

  lemma {:induction false} SetNextKeepsKeyed(t: Tables, id: JobId, next: Option<Time>)
    requires Keyed(t)
    ensures Keyed(SetNextFire(t, id, next))
  {
  }

  lemma {:induction false} TakenKeepsKeyed(t: Tables, holds': seq<Hold>)
    requires Keyed(t) && t.holds <= holds' && forall i :: |t.holds| <= i < |holds'| ==> holds'[i].run == t.nextRun
    ensures Keyed(TakeId(t).(holds := holds'))
  {
  }

  lemma {:induction false} InsertKeepsKeyed(t: Tables, run: Run)
    requires Keyed(t) && run.id < t.nextRun
    ensures Keyed(InsertRun(t, run))
  {
  }

  lemma {:induction false} NewHoldsAreOfTheRun(t: Tables, job: Job)
    ensures var holds' := TryAcquire(t.resources, t.holds, t.nextRun, job.claims).1;
            t.holds <= holds' && forall i :: |t.holds| <= i < |holds'| ==> holds'[i].run == t.nextRun
  {
    AcquireOnlyAdds(t.resources, t.holds, t.nextRun, job.claims);
  }

  lemma {:induction false} TickKeepsTables(t: Tables, due: seq<Job>, env: Env)
    requires TablesOk(t) && Untouched(t.jobs, due)
    ensures TablesOk(TickDue(t, due, env).t)
    decreases |due|
  {
    hide TablesOk, Fire, ComputeNext, HasRoom, CalendarAllows;
    if due != [] {
      FireKeepsTables(t, due[0], env);
      OthersUntouched(t, due, env);
      TickKeepsTables(Fire(t, due[0], env).0, due[1..], env);
    }
  }

  /** A fire changes no job but its own. */
  lemma {:induction false} OthersUntouched(t: Tables, due: seq<Job>, env: Env)
    requires Untouched(t.jobs, due) && due != []
    ensures var t1 := Fire(t, due[0], env).0;
            Untouched(t1.jobs, due[1..]) && t1.jobs.Keys == t.jobs.Keys
            && forall id :: id in t.jobs && id != due[0].id ==> t1.jobs[id] == t.jobs[id]
  {
    hide TryAcquire, CalendarAllows, ComputeNext, Release;
    var rest := due[1..];
    forall i | 0 <= i < |rest|
      ensures rest[i] == due[i + 1] && rest[i].id != due[0].id
    {
    }
  }

  lemma {:induction false} FirstAccounted(t: Tables, due: seq<Job>, o: FireOutcome, rest: seq<FireOutcome>, env: Env,
                                        t1: Tables, t': Tables)
    requires Untouched(t.jobs, due) && |rest| < |due|
    requires FireEffect(t, due[0], env, t1, o)
    requires Accounted(t1, due[1..], rest, env, t')
    ensures Accounted(t, due, [o] + rest, env, t')
  {
    hide Sent, Rows, WithRows, HoldsFor, ComputeNext, AllSatisfiable, JobsAfter, HasRoom, Taken, HoldsOf,
         ClaimsKnown, Untouched;
    var outcomes := [o] + rest;
    assert outcomes[1..] == rest;
    FirstRows(t, due, o, rest, env, t1);
    FirstSent(t, due, o, rest, env, t1);
    FirstJob(t, due, o, rest, env, t1, t'.jobs);
  }

  lemma {:induction false} FirstRows(t: Tables, due: seq<Job>, o: FireOutcome, rest: seq<FireOutcome>, env: Env,
                                     t1: Tables)
    requires |rest| < |due| && FireEffect(t, due[0], env, t1, o)
    ensures WithRows(t1.runs, Rows(due[1..], rest, t1.nextRun)) == WithRows(t.runs, Rows(due, [o] + rest, t.nextRun))
    ensures t1.nextRun + Taken(rest) == t.nextRun + Taken([o] + rest)
  {
    hide Sent, HoldsFor, ComputeNext, AllSatisfiable, HasRoom, HoldsOf, ClaimsKnown;
    var outcomes := [o] + rest;
    assert outcomes[1..] == rest;
    var later := Rows(due[1..], rest, t1.nextRun);
    if Sends(o) || o == QueueFull {
      var run := NewRun(t.nextRun, due[0].id, 1, []);
      assert ([run] + later)[1..] == later;
    }
  }

  lemma {:induction false} FirstSent(t: Tables, due: seq<Job>, o: FireOutcome, rest: seq<FireOutcome>, env: Env,
                                     t1: Tables)
    requires |rest| < |due| && FireEffect(t, due[0], env, t1, o)
    requires ClaimsKnown(t.resources, Sent(due[1..], rest, t1.nextRun))
    ensures var later, all := Sent(due[1..], rest, t1.nextRun), Sent(due, [o] + rest, t.nextRun);
            && ClaimsKnown(t.resources, all)
            && t1.queue + later == t.queue + all
            && t1.holds + HoldsOf(t.resources, later) == t.holds + HoldsOf(t.resources, all)
  {
    hide Rows, WithRows, HoldsFor, ComputeNext, AllSatisfiable, HasRoom, Taken;
    var outcomes := [o] + rest;
    assert outcomes[1..] == rest;
    var later := Sent(due[1..], rest, t1.nextRun);
    if Sends(o) {
      var intent := Intent(due[0], NewRun(t.nextRun, due[0].id, 1, []));
      assert ([intent] + later)[1..] == later;
    }
  }

  lemma {:induction false} FirstJobAfter(t: Tables, job: Job, o: FireOutcome, env: Env, t1: Tables)
    requires job.id in t.jobs && t.jobs[job.id] == job && FireEffect(t, job, env, t1, o)
    ensures t1.jobs == t.jobs[job.id := After(job, o, env)]
  {
    hide HoldsFor, ComputeNext, AllSatisfiable, HasRoom;
    assert t.jobs[job.id := job] == t.jobs;
  }

  lemma {:induction false} FirstJob(t: Tables, due: seq<Job>, o: FireOutcome, rest: seq<FireOutcome>, env: Env,
                                    t1: Tables, jobs': map<JobId, Job>)
    requires Untouched(t.jobs, due) && |rest| < |due| && FireEffect(t, due[0], env, t1, o)
    requires JobsAfter(t1.jobs, due[1..], rest, env, jobs')
    ensures JobsAfter(t.jobs, due, [o] + rest, env, jobs')
  {
    hide FireEffect, After;
    var outcomes, later := [o] + rest, due[1..];
    FirstJobAfter(t, due[0], o, env, t1);
    assert forall k :: 0 <= k < |later| ==> later[k] == due[k + 1];
    assert jobs'[due[0].id] == After(due[0], o, env);
    forall i | 0 < i < |outcomes|
      ensures due[i].id in jobs' && jobs'[due[i].id] == After(due[i], outcomes[i], env)
    {
      assert later[i - 1] == due[i] && rest[i - 1] == outcomes[i];
    }
    forall id | id in t.jobs && forall i :: 0 <= i < |outcomes| ==> due[i].id != id
      ensures jobs'[id] == t.jobs[id]
    {
      assert due[0].id != id;
    }
  }

  /** Each outcome is the one that the tables left by the jobs before it decide. */
  ghost predicate Decided(t: Tables, due: seq<Job>, outcomes: seq<FireOutcome>, env: Env)
    requires |outcomes| <= |due|
  {
    forall i :: 0 <= i < |outcomes| ==> outcomes[i] == OutcomeOf(TickDue(t, due[..i], env).t, due[i], env)
  }

  /**
   * Every due job meets exactly one outcome, and queue, runs, holds and fire
   * times change as these say and in no other way. Only an error cuts the
   * list short.
   */
  lemma {:induction false} TickAccounts(t: Tables, due: seq<Job>, env: Env)
    requires TablesOk(t) && Untouched(t.jobs, due)
    ensures var r := TickDue(t, due, env);
            && |r.outcomes| <= |due|
            && Accounted(t, due, r.outcomes, env, r.t)
            && Decided(t, due, r.outcomes, env)
            && (|r.outcomes| == |due| || Aborted(r.outcomes))
            && (forall i :: 0 <= i < |r.outcomes| - 1 ==> !Stops(r.outcomes[i]))
    decreases |due|
  {
    hide TablesOk, Fire, FireEffect, ComputeNext, HasRoom, CalendarAllows, Accounted, Decided, OutcomeOf, Untouched,
         Stops;
    if due == [] {
      NothingDue(t, env);
    } else {
      var (t1, o) := Fire(t, due[0], env);
      FirstIsJob(t, due);
      FireDoes(t, due[0], env);
      if Stops(o) {
        NothingFollows(t1, due[1..], env);
        FirstAccounted(t, due, o, [], env, t1, t1);
        assert [o] + [] == [o];
        FirstDecided(t, due, [], env);
      } else {
        FireKeepsTables(t, due[0], env);
        OthersUntouched(t, due, env);
        TickAccounts(t1, due[1..], env);
        var rest := TickDue(t1, due[1..], env);
        FirstAccounted(t, due, o, rest.outcomes, env, t1, rest.t);
        FirstDecided(t, due, rest.outcomes, env);
        assert forall i :: 0 < i < |rest.outcomes| + 1 ==> ([o] + rest.outcomes)[i] == rest.outcomes[i - 1];
      }
    }
  }

  lemma {:induction false} FirstIsJob(t: Tables, due: seq<Job>)
    requires TablesOk(t) && Untouched(t.jobs, due) && due != []
    ensures IsJob(due[0]) && due[0].id in t.jobs && t.jobs[due[0].id] == due[0]
  {
  }

  lemma {:induction false} FirstDecided(t: Tables, due: seq<Job>, rest: seq<FireOutcome>, env: Env)
    requires due != [] && |rest| < |due| && Fire(t, due[0], env).1 == OutcomeOf(t, due[0], env)
    requires rest == [] || !Stops(Fire(t, due[0], env).1)
    requires Decided(Fire(t, due[0], env).0, due[1..], rest, env)
    ensures Decided(t, due, [Fire(t, due[0], env).1] + rest, env)
  {
    hide Fire, OutcomeOf, Stops;
    var (t1, o) := Fire(t, due[0], env);
    assert due[..0] == [];
    forall i | 0 <= i < |rest|
      ensures rest[i] == OutcomeOf(TickDue(t, due[..i + 1], env).t, due[i + 1], env)
    {
      assert due[..i + 1][0] == due[0] && due[..i + 1][1..] == due[1..][..i] && due[1..][i] == due[i + 1];
    }
    forall i | 0 <= i < |rest| + 1
      ensures ([o] + rest)[i] == OutcomeOf(TickDue(t, due[..i], env).t, due[i], env)
    {
      if i > 0 {
        assert ([o] + rest)[i] == rest[i - 1];
      }
    }
  }

  lemma {:induction false} NothingDue(t: Tables, env: Env)
    ensures TickDue(t, [], env) == Ticked(t, []) && Accounted(t, [], [], env, t) && Decided(t, [], [], env)
  {
    assert t.queue + [] == t.queue && t.holds + [] == t.holds;
  }

  lemma {:induction false} NothingFollows(t: Tables, due: seq<Job>, env: Env)
    ensures Accounted(t, due, [], env, t) && Decided(t, due, [], env)
  {
    assert t.queue + [] == t.queue && t.holds + [] == t.holds;
  }
}
