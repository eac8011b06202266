/** The store and the dispatch queue as the tick changes them, in place, one call after the other. */
module SchedulerStore {
  import opened Core
  import opened Outcome
  import opened Resources
  import opened Scheduler
  import opened Tick
  import ConditionCursor
  import Evaluator
  import Protocol
  import TickAccount
  import TickFires
  import Worker

  class Store {
    const cap: nat
    var jobs: map<JobId, Job>
    var runs: map<RunId, Run>
    var resources: ResourceTable
    var holds: seq<Hold>
    var queue: seq<Intent>
    var nextRun: RunId

    constructor (cap: nat)
      ensures View() == Tables(map[], map[], map[], [], [], cap, 0)
    {
      this.cap := cap;
      jobs, runs, resources, holds, queue, nextRun := map[], map[], map[], [], [], 0;
    }

    ghost function View(): Tables
      reads this
    {
      Tables(jobs, runs, resources, holds, queue, cap, nextRun)
    }

    // ----- Jobs -----

    method Due(now: Time) returns (due: seq<Job>)
      requires forall id :: id in jobs ==> jobs[id].id == id
      ensures IsDueList(jobs, now, due)
    {
      due := [];
      var left := set id | id in jobs && IsDue(jobs[id], now);
      while left != {}
        invariant IsPartOfDue(jobs, now, due, left)
        decreases left
      {
        SomeIsEarliest(jobs, left, now);
        var id :| id in left && NoneEarlier(jobs, left, jobs[id].nextFire.value);
        NextIsPartToo(jobs, now, due, left, id);
        due, left := due + [jobs[id]], left - {id};
      }
    }

    method List() returns (all: seq<Job>)
      requires forall id :: id in jobs ==> jobs[id].id == id
      ensures IsJobList(jobs, all)
    {
      all := [];
      var left := jobs.Keys;
      while left != {}
        invariant left <= jobs.Keys
        invariant forall i :: 0 <= i < |all| ==> all[i].id in jobs && jobs[all[i].id] == all[i] && all[i].id !in left
        invariant forall i, j :: 0 <= i < j < |all| ==> all[i].id != all[j].id
        invariant forall id :: id in jobs ==> id in left || jobs[id] in all
        decreases left
      {
        var id :| id in left;
        all, left := all + [jobs[id]], left - {id};
      }
    }

    method SetNextFire(id: JobId, next: Option<Time>)
      modifies `jobs
      ensures View() == Scheduler.SetNextFire(old(View()), id, next)
    {
      if id in jobs {
        jobs := jobs[id := jobs[id].(nextFire := next)];
      }
    }

    // ----- Resources -----

    /** Rows are inserted as the claims are met and rolled back at the first that is not. */
    method TryAcquire(run: RunId, claims: seq<Claim>) returns (verdict: Verdict)
      modifies `holds
      ensures (verdict, holds) == Resources.TryAcquire(resources, old(holds), run, claims)
    {
      if claims == [] {
        return Acquired;
      }
      var savepoint := holds;
      for i := 0 to |claims|
        invariant Acquire(resources, old(holds), run, claims) == Acquire(resources, holds, run, claims[i..])
      {
        var c := claims[i];
        assert claims[i..][0] == c && claims[i..][1..] == claims[i + 1..];
        if c.resource !in resources {
          holds := savepoint;
          return Refused;
        }
        var r := resources[c.resource];
        if Used(holds, r.id) + c.units > r.capacity {
          holds := savepoint;
          return Refused;
        }
        if c.units == 0 || HasHold(holds, run, r.id) {
          holds := savepoint;
          return Rejected;
        }
        holds := holds + [Hold(run, r.id, c.units)];
      }
      return Acquired;
    }

    method Release(run: RunId)
      modifies `holds
      ensures holds == Resources.Release(old(holds), run)
    {
      var kept := [];
      for i := 0 to |holds|
        invariant kept == Resources.Release(holds[..i], run)
      {
        assert holds[..i + 1][..i] == holds[..i];
        if holds[i].run != run {
          kept := kept + [holds[i]];
        }
      }
      assert holds[..|holds|] == holds;
      holds := kept;
    }

    // ----- Runs and the queue -----

    method NewRun(job: JobId, attempt: nat) returns (run: Run)
      modifies `nextRun
      ensures View() == TakeId(old(View())) && run == Scheduler.NewRun(old(nextRun), job, attempt, [])
    {
      run := Run(nextRun, job, Queued, attempt, []);
      nextRun := nextRun + 1;
    }

    method InsertRun(run: Run)
      modifies `runs
      ensures View() == Scheduler.InsertRun(old(View()), run)
    {
      runs := runs[run.id := run];
    }

    method HasActiveForJob(job: JobId) returns (active: bool)
      ensures active <==> HasActive(runs, job)
    {
      var rows := set r | r in runs && runs[r].job == job && (runs[r].state == Queued || runs[r].state == Running);
      active := |rows| > 0;
      assert forall r :: r in rows <==> r in runs && runs[r].job == job && !runs[r].state.IsTerminal();
      assert active <==> rows != {};
    }

    method TrySend(intent: Intent) returns (sent: bool)
      modifies `queue
      ensures sent == HasRoom(old(View()))
      ensures View() == if sent then Enqueue(old(View()), intent) else old(View())
    {
      sent := |queue| < cap;
      if sent {
        queue := queue + [intent];
      }
    }

    method UpdateRun(id: RunId, state: RunState)
      modifies `runs
      ensures View() == UpdateState(old(View()), id, state)
    {
      if id in runs {
        runs := runs[id := runs[id].(state := state)];
      }
    }

    // ----- Run tasks and operators -----

    /**
     * `ending` is what the process comes to: nothing if it could not be
     * started, and then the holds stay and there is no retry.
     */
    method RunTask(intent: Intent, ending: Option<Ending>) returns (retry: Option<Intent>)
      modifies `runs, `holds
      ensures (View(), retry) == Worker.RunTask(old(View()), intent, ending)
      ensures runs == Worker.WithState(old(runs), intent.run.id, Worker.EndState(intent, ending))
      ensures ending.None? ==> holds == old(holds)
      ensures ending.Some? ==> forall h :: h in holds <==> h in old(holds) && h.run != intent.run.id
      ensures retry == None || retry == Some(intent)
      ensures retry.Some? <==> ending.Some? && Worker.EndState(intent, ending) == Failed
                               && intent.run.attempt < intent.job.maxAttempts
    {
      hide Worker.WithState, Worker.EndState, StateAfter, UpdateState, Resources.Release;
      Worker.TaskEffect(View(), intent, ending);
      var id := intent.run.id;
      if ending.None? {
        UpdateRun(id, Failed);
        return None;
      }
      UpdateRun(id, Running);
      var outcome := StateAfter(intent.job.exitPolicy, ending.value);
      UpdateRun(id, outcome);
      Release(id);
      retry := if Protocol.ShouldRetry(intent, outcome) then Some(intent) else None;
    }

    /** A new run of the same job and snapshot, one attempt on, with the failed one as its parent. */
    method StoreRetry(failed: Intent) returns (intent: Intent)
      modifies `runs, `nextRun
      ensures (View(), intent) == Worker.StoreRetry(old(View()), failed)
      ensures intent.job == failed.job && intent.run.id == old(nextRun) < nextRun
      ensures intent.run.attempt == failed.run.attempt + 1 && intent.run.parents == [failed.run.id]
      ensures intent.run.job == failed.job.id && intent.run.state == Queued
      ensures runs == old(runs)[intent.run.id := intent.run]
    {
      var run := NewRun(failed.job.id, failed.run.attempt + 1);
      run := run.(parents := [failed.run.id]);
      InsertRun(run);
      intent := Intent(failed.job, run);
    }

    /** Any run there is, in whatever state, takes the new state and loses its holds; all else stays. */
    method ChangeRunState(id: RunId, state: RunState) returns (found: bool)
      modifies `runs, `holds
      ensures View() == Worker.ChangeRunState(old(View()), id, state) && found == (id in old(runs))
      ensures runs == Worker.WithState(old(runs), id, state)
      ensures !found ==> holds == old(holds)
      ensures found ==> forall h :: h in holds <==> h in old(holds) && h.run != id
    {
      hide Worker.WithState, UpdateState, Resources.Release;
      Worker.UpdateIsWithState(View(), id, state);
      if id !in runs {
        return false;
      }
      UpdateRun(id, state);
      ReleaseKeepsRows(holds, id);
      Release(id);
      found := true;
    }

    // ----- The tick -----

    method FireDue(job: Job, env: Env) returns (outcome: FireOutcome)
      modifies this
      ensures (View(), outcome) == Fire(old(View()), job, env)
    {
      if !CalendarAllows(job, env.now, env.cals) {
        var next := ComputeNext(job.trigger, env);
        if next.Err? {
          return CronFailed;
        }
        SetNextFire(job.id, next.value);
        return OffCalendar;
      }
      var run := NewRun(job.id, 1);
      var verdict := TryAcquire(run.id, job.claims);
      if verdict == Rejected {
        return AcquireFailed;
      }
      if verdict == Refused {
        return Blocked;
      }
      InsertRun(run);
      var sent := TrySend(Intent(job, run));
      if !sent {
        Release(run.id);
        return QueueFull;
      }
      var next := ComputeNext(job.trigger, env);
      if next.Err? {
        return SentCronFailed;
      }
      SetNextFire(job.id, next.value);
      return Dispatched;
    }

    method FireConditionJob(job: Job, env: Env) returns (fired: bool)
      modifies this
      ensures (View(), fired) == FireCondition(old(View()), job, env)
    {
      if job.paused || !job.trigger.Condition? || !CalendarAllows(job, env.now, env.cals) {
        return false;
      }
      var parsed := ConditionCursor.Parse(job.trigger.expr);
      if parsed.Err? {
        return false;
      }
      var known := Evaluator.Evaluate(parsed.value, env.upstream(runs));
      if known != Some(true) {
        return false;
      }
      var active := HasActiveForJob(job.id);
      if active {
        return false;
      }
      var run := NewRun(job.id, 1);
      InsertRun(run);
      fired := TrySend(Intent(job, run));
      if fired {
        SetNextFire(job.id, None);
      }
    }

    method TickConditionJobs(all: seq<Job>, env: Env) returns (emitted: nat)
      modifies this
      ensures (View(), emitted) == TickConditions(old(View()), all, env)
    {
      hide FireCondition, TickConditions;
      emitted := 0;
      assert all[0..] == all;
      for i := 0 to |all|
        invariant TickConditions(old(View()), all, env) == Counted(emitted, TickConditions(View(), all[i..], env))
      {
        FirstCondition(View(), all[i..], env);
        assert all[i..][0] == all[i] && all[i..][1..] == all[i + 1..];
        var fired := FireConditionJob(all[i], env);
        if fired {
          emitted := emitted + 1;
        }
      }
      NoConditionLeft(View(), env);
    }

    /** The loop over the due jobs; it ends early at an error of the holds table or of the cron search. */
    method TickDueJobs(due: seq<Job>, env: Env) returns (emitted: nat, failed: bool, ghost outcomes: seq<FireOutcome>)
      modifies this
      ensures TickDue(old(View()), due, env) == Ticked(View(), outcomes)
      ensures emitted == Emitted(outcomes) && failed == Aborted(outcomes)
    {
      hide Fire, HasRoom, Emitted, Aborted, TickDue;
      outcomes, emitted := [], 0;
      NothingDone(View(), due, env);
      for i := 0 to |due|
        invariant TickDue(old(View()), due, env) == Behind(outcomes, TickDue(View(), due[i..], env))
        invariant emitted == Emitted(outcomes) && !Aborted(outcomes)
      {
        FirstDue(View(), due[i..], env);
        assert due[i..][0] == due[i] && due[i..][1..] == due[i + 1..];
        var outcome := FireDue(due[i], env);
        OneMore(outcomes, outcome);
        AppendToBoth(outcomes, outcome, TickDue(View(), due[i + 1..], env));
        outcomes := outcomes + [outcome];
        if Sends(outcome) {
          emitted := emitted + 1;
        }
        if Stops(outcome) {
          return emitted, true, outcomes;
        }
      }
      NoneLeft(View(), outcomes, env);
      failed := false;
    }

    /** `None` is the error of the tick; `due` and `all` are the rows the two queries gave. */
    method TickOnce(env: Env) returns (count: Option<nat>, ghost due: seq<Job>, ghost all: seq<Job>)
      requires TablesOk(View())
      modifies this
      ensures TablesOk(View())
      ensures IsDueList(old(jobs), env.now, due)
      ensures count.Some? ==> IsJobList(TickDue(old(View()), due, env).t.jobs, all)
      ensures (View(), count) == TickFires.TickOnce(old(View()), due, all, env)
    {
      hide IsDueList, IsJobList, TickDue, TickConditions, Aborted, Emitted, Sound;
      ghost var start := View();
      var rows := Due(env.now);
      due, all := rows, [];
      KeepsTables(start, rows, env);
      var emitted, failed, outcomes := TickDueJobs(rows, env);
      if failed {
        return None, due, all;
      }
      var listed := List();
      all := listed;
      KeepsTablesToo(start, rows, listed, env);
      var fired := TickConditionJobs(listed, env);
      count := Some(emitted + fired);
    }
  }

  ghost function Behind(outcomes: seq<FireOutcome>, r: Ticked): Ticked {
    Ticked(r.t, outcomes + r.outcomes)
  }

  lemma {:induction false} NothingDone(t: Tables, due: seq<Job>, env: Env)
    ensures TickDue(t, due, env) == Behind([], TickDue(t, due[0..], env))
    ensures Emitted([]) == 0 && !Aborted([])
  {
    assert due[0..] == due;
  }

  lemma {:induction false} NoneLeft(t: Tables, outcomes: seq<FireOutcome>, env: Env)
    ensures Behind(outcomes, TickDue(t, [], env)) == Ticked(t, outcomes)
  {
    assert outcomes + [] == outcomes;
  }

  lemma {:induction false} FirstDue(t: Tables, due: seq<Job>, env: Env)
    requires due != []
    ensures var (t1, o) := Fire(t, due[0], env);
            TickDue(t, due, env) == if Stops(o) then Ticked(t1, [o]) else Behind([o], TickDue(t1, due[1..], env))
  {
  }

  ghost function Counted(emitted: nat, r: (Tables, nat)): (Tables, nat) {
    (r.0, emitted + r.1)
  }

  lemma {:induction false} FirstCondition(t: Tables, all: seq<Job>, env: Env)
    requires all != []
    ensures var (t1, fired) := FireCondition(t, all[0], env);
            TickConditions(t, all, env) == Counted(if fired then 1 else 0, TickConditions(t1, all[1..], env))
  {
  }

  lemma {:induction false} NoConditionLeft(t: Tables, env: Env)
    ensures TickConditions(t, [], env) == (t, 0)
  {
  }

  lemma {:induction false} AppendToBoth(outcomes: seq<FireOutcome>, o: FireOutcome, r: Ticked)
    ensures Behind(outcomes, Behind([o], r)) == Behind(outcomes + [o], r)
    ensures Behind(outcomes, Ticked(r.t, [o])) == Ticked(r.t, outcomes + [o])
    ensures Aborted(outcomes + [o]) <==> Stops(o)
  {
    assert outcomes + ([o] + r.outcomes) == outcomes + [o] + r.outcomes;
  }

  predicate NoneEarlier(jobs: map<JobId, Job>, ids: set<JobId>, at: Time) {
    forall id :: id in ids && id in jobs && jobs[id].nextFire.Some? ==> at <= jobs[id].nextFire.value
  }

  /** What the due list looks like while some ids are still to come. */
  ghost predicate IsPartOfDue(jobs: map<JobId, Job>, now: Time, due: seq<Job>, left: set<JobId>) {
    && (forall id :: id in left ==> id in jobs && jobs[id].id == id && IsDue(jobs[id], now))
    && (forall i :: 0 <= i < |due| ==> due[i].id in jobs && jobs[due[i].id] == due[i] && IsDue(due[i], now))
    && (forall i :: 0 <= i < |due| ==> due[i].id !in left && NoneEarlier(jobs, left, due[i].nextFire.value))
    && (forall i, j :: 0 <= i < j < |due| ==> due[i].id != due[j].id && due[i].nextFire.value <= due[j].nextFire.value)
    && (forall id :: id in jobs && IsDue(jobs[id], now) ==> id in left || jobs[id] in due)
  }

  lemma {:induction false} NextIsPartToo(jobs: map<JobId, Job>, now: Time, due: seq<Job>, left: set<JobId>, id: JobId)
    requires IsPartOfDue(jobs, now, due, left)
    requires id in left && NoneEarlier(jobs, left, jobs[id].nextFire.value)
    ensures IsPartOfDue(jobs, now, due + [jobs[id]], left - {id})
  {
    var due', left' := due + [jobs[id]], left - {id};
    forall i | 0 <= i < |due'|
      ensures due'[i].id !in left' && NoneEarlier(jobs, left', due'[i].nextFire.value)
    {
    }
    forall other | other in jobs && IsDue(jobs[other], now)
      ensures other in left' || jobs[other] in due'
    {
      assert due'[|due|] == jobs[id];
    }
  }

  lemma {:induction false} SomeIsEarliest(jobs: map<JobId, Job>, left: set<JobId>, now: Time)
    requires left != {} && forall id :: id in left ==> id in jobs && IsDue(jobs[id], now)
    ensures exists id :: id in left && IsDue(jobs[id], now) && NoneEarlier(jobs, left, jobs[id].nextFire.value)
    decreases left
  {
    var id :| id in left;
    var rest := left - {id};
    if rest != {} {
      SomeIsEarliest(jobs, rest, now);
      var best :| best in rest && IsDue(jobs[best], now) && NoneEarlier(jobs, rest, jobs[best].nextFire.value);
      var winner := if jobs[best].nextFire.value <= jobs[id].nextFire.value then best else id;
      assert winner in left && IsDue(jobs[winner], now) && NoneEarlier(jobs, left, jobs[winner].nextFire.value);
    } else {
      assert left == rest + {id} == {id};
      assert NoneEarlier(jobs, left, jobs[id].nextFire.value);
    }
  }

  lemma {:induction false} OneMore(outcomes: seq<FireOutcome>, o: FireOutcome)
    ensures Emitted(outcomes + [o]) == Emitted(outcomes) + if Sends(o) then 1 else 0
  {
    if outcomes != [] {
      assert (outcomes + [o])[1..] == outcomes[1..] + [o];
      OneMore(outcomes[1..], o);
    }
  }

  lemma {:induction false} KeepsTables(t: Tables, due: seq<Job>, env: Env)
    requires TablesOk(t) && IsDueList(t.jobs, env.now, due)
    ensures TablesOk(TickDue(t, due, env).t)
  {
    hide TablesOk, TickDue;
    TickFires.UntouchedRows(t, due, env);
    TickAccount.TickKeepsTables(t, due, env);
  }

  lemma {:induction false} KeepsTablesToo(t: Tables, due: seq<Job>, all: seq<Job>, env: Env)
    requires TablesOk(t) && IsDueList(t.jobs, env.now, due) && IsJobList(TickDue(t, due, env).t.jobs, all)
    ensures TablesOk(TickConditions(TickDue(t, due, env).t, all, env).0)
  {
    hide TablesOk, TickDue, TickConditions, IsJobList;
    KeepsTables(t, due, env);
    TickFires.ListedJobs(TickDue(t, due, env).t.jobs, all);
    TickFires.TickConditionsFrame(TickDue(t, due, env).t, all, env);
  }
}
