/** What one whole tick promises: no fire is lost, and none is doubled. */
module TickFires {
  import opened Core
  import opened Resources
  import opened Scheduler
  import opened Tick
  import opened TickAccount

  /** `None` is the error that ends the tick early, before any condition is looked at. */
  function TickOnce(t: Tables, due: seq<Job>, all: seq<Job>, env: Env): (Tables, Option<nat>) {
    var r := TickDue(t, due, env);
    if Aborted(r.outcomes) then (r.t, None)
    else
      var (t', fired) := TickConditions(r.t, all, env);
      (t', Some(Emitted(r.outcomes) + fired))
  }

  /** The intents of the condition jobs that fire. */
  function CondSent(t: Tables, all: seq<Job>, env: Env): seq<Intent>
    decreases |all|
  {
    if all == [] then []
    else
      var (t1, fired) := FireCondition(t, all[0], env);
      (if fired then [Intent(all[0], NewRun(t.nextRun, all[0].id, 1, []))] else []) + CondSent(t1, all[1..], env)
  }

  // ----- Due jobs -----

  lemma {:induction false} SentIsCounted(due: seq<Job>, outcomes: seq<FireOutcome>, next: RunId)
    requires |outcomes| <= |due|
    ensures |Sent(due, outcomes, next)| == Emitted(outcomes)
  {
    if outcomes != [] {
      SentIsCounted(due[1..], outcomes[1..], NextId(outcomes[0], next));
    }
  }

  ghost predicate DistinctJobs(intents: seq<Intent>) {
    forall i, j :: 0 <= i < j < |intents| ==> intents[i].job.id != intents[j].job.id
  }

  lemma DistinctAppend(first: seq<Intent>, rest: seq<Intent>)
    requires DistinctJobs(first) && DistinctJobs(rest)
    requires forall i, j :: 0 <= i < |first| && 0 <= j < |rest| ==> first[i].job.id != rest[j].job.id
    ensures DistinctJobs(first + rest)
  {
  }

  /** Intents are sent for due jobs only, one at most for each. */
  lemma {:induction false} SentOncePerJob(due: seq<Job>, outcomes: seq<FireOutcome>, next: RunId)
    requires |outcomes| <= |due| && forall i, j :: 0 <= i < j < |due| ==> due[i].id != due[j].id
    ensures DistinctJobs(Sent(due, outcomes, next))
    ensures forall k :: 0 <= k < |Sent(due, outcomes, next)| ==>
              Sent(due, outcomes, next)[k].job in due && Sent(due, outcomes, next)[k].run.id >= next
  {
    if outcomes != [] {
      var next' := NextId(outcomes[0], next);
      var rest := Sent(due[1..], outcomes[1..], next');
      SentOncePerJob(due[1..], outcomes[1..], next');
      if Sends(outcomes[0]) {
        DistinctAppend([Intent(due[0], NewRun(next, due[0].id, 1, []))], rest);
      }
    }
  }

  ghost predicate AreNewRows(rows: seq<Run>, next: RunId) {
    && (forall i :: 0 <= i < |rows| ==> rows[i].id >= next && rows[i].state == Queued)
    && (forall i, j :: 0 <= i < j < |rows| ==> rows[i].id < rows[j].id)
  }

  lemma {:induction false} RowsAreNew(due: seq<Job>, outcomes: seq<FireOutcome>, next: RunId)
    requires |outcomes| <= |due|
    ensures AreNewRows(Rows(due, outcomes, next), next)
  {
    if outcomes != [] {
      var next' := NextId(outcomes[0], next);
      var rest := Rows(due[1..], outcomes[1..], next');
      RowsAreNew(due[1..], outcomes[1..], next');
      OneMoreRow(rest, NewRun(next, due[0].id, 1, []), next);
    }
  }

  lemma {:induction false} OneMoreRow(rest: seq<Run>, run: Run, next: RunId)
    requires run.id == next && run.state == Queued
    ensures AreNewRows(rest, next + 1) ==> AreNewRows([run] + rest, next) && AreNewRows(rest, next)
  {
  }

  /** Every intent has its row. */
  lemma {:induction false} SentHaveRows(due: seq<Job>, outcomes: seq<FireOutcome>, next: RunId)
    requires |outcomes| <= |due|
    ensures forall k :: 0 <= k < |Sent(due, outcomes, next)| ==>
              && Sent(due, outcomes, next)[k].run in Rows(due, outcomes, next)
              && Sent(due, outcomes, next)[k].run.job == Sent(due, outcomes, next)[k].job.id
  {
    if outcomes != [] {
      var next' := NextId(outcomes[0], next);
      SentHaveRows(due[1..], outcomes[1..], next');
    }
  }

  lemma {:induction false} RowsAreStored(runs: map<RunId, Run>, rows: seq<Run>)
    requires exists next :: AreNewRows(rows, next)
    ensures var runs' := WithRows(runs, rows);
            && (forall i :: 0 <= i < |rows| ==> rows[i].id in runs' && runs'[rows[i].id] == rows[i])
            && (forall r :: r in runs && (forall i :: 0 <= i < |rows| ==> rows[i].id != r) ==>
                  r in runs' && runs'[r] == runs[r])
    decreases |rows|
  {
    if rows != [] {
      var next :| AreNewRows(rows, next);
      assert AreNewRows(rows[1..], next);
      RowsAreStored(runs[rows[0].id := rows[0]], rows[1..]);
    }
  }

  /** A job that was sent an intent in this tick has an active run from then on. */
  lemma {:induction false} SentJobsAreActive(t: Tables, due: seq<Job>, env: Env)
    requires TablesOk(t) && Untouched(t.jobs, due)
    ensures var r := TickDue(t, due, env);
            forall k :: |t.queue| <= k < |r.t.queue| ==> HasActive(r.t.runs, r.t.queue[k].job.id)
  {
    hide TablesOk, Untouched, JobsAfter, HoldsOf, ClaimsKnown, TickDue;
    var r := TickDue(t, due, env);
    TickAccounts(t, due, env);
    var rows, sent := Rows(due, r.outcomes, t.nextRun), Sent(due, r.outcomes, t.nextRun);
    RowsAreNew(due, r.outcomes, t.nextRun);
    RowsAreStored(t.runs, rows);
    SentHaveRows(due, r.outcomes, t.nextRun);
    forall k | |t.queue| <= k < |r.t.queue|
      ensures HasActive(r.t.runs, r.t.queue[k].job.id)
    {
      var intent := sent[k - |t.queue|];
      assert r.t.queue[k] == intent && intent.run in rows;
      var i :| 0 <= i < |rows| && rows[i] == intent.run;
      assert rows[i].id in r.t.runs && r.t.runs[rows[i].id] == rows[i];
    }
  }

  // ----- Condition jobs -----

  /** What the condition loop changes: runs and the queue grow, and only condition jobs lose their fire time. */
  ghost predicate CondFrame(t: Tables, t': Tables) {
    && t'.resources == t.resources && t'.holds == t.holds && t'.cap == t.cap && t.nextRun <= t'.nextRun
    && t'.jobs.Keys == t.jobs.Keys
    && (forall id :: id in t.jobs ==>
          (t'.jobs[id] == t.jobs[id]
          || (t.jobs[id].trigger.Condition? && t'.jobs[id] == t.jobs[id].(nextFire := None))))
    && (forall r :: r in t.runs ==> r in t'.runs && t'.runs[r] == t.runs[r])
  }

  lemma {:induction false} FireConditionKeepsKeyed(t: Tables, job: Job, env: Env)
    requires Keyed(t)
    ensures Keyed(FireCondition(t, job, env).0)
  {
    hide Keyed, ConditionFires;
    var run := NewRun(t.nextRun, job.id, 1, []);
    TakenKeepsKeyed(t, t.holds);
    assert TakeId(t).(holds := t.holds) == TakeId(t);
    InsertKeepsKeyed(TakeId(t), run);
    var t1 := InsertRun(TakeId(t), run);
    EnqueueKeepsKeyed(t1, Intent(job, run));
    SetNextKeepsKeyed(Enqueue(t1, Intent(job, run)), job.id, None);
  }

  lemma {:induction false} EnqueueKeepsKeyed(t: Tables, intent: Intent)
    requires Keyed(t)
    ensures Keyed(Enqueue(t, intent))
  {
  }

  lemma {:induction false} FireConditionFrame(t: Tables, job: Job, env: Env)
    requires TablesOk(t) && job.id in t.jobs && t.jobs[job.id].trigger == job.trigger
    ensures CondFrame(t, FireCondition(t, job, env).0) && TablesOk(FireCondition(t, job, env).0)
  {
    hide CalendarAllows, HasActive, Sound, Keyed;
    FireConditionKeepsKeyed(t, job, env);
    assert t.nextRun !in t.runs by { FreshRunHoldsNothing(t); }
  }

  ghost predicate SameTriggers(jobs: map<JobId, Job>, all: seq<Job>) {
    && (forall i :: 0 <= i < |all| ==> all[i].id in jobs && jobs[all[i].id].trigger == all[i].trigger)
    && (forall i, j :: 0 <= i < j < |all| ==> all[i].id != all[j].id)
  }

  lemma {:induction false} TriggersStay(t: Tables, t': Tables, all: seq<Job>)
    requires SameTriggers(t.jobs, all) && all != [] && CondFrame(t, t')
    ensures SameTriggers(t'.jobs, all[1..])
  {
    var rest := all[1..];
    forall i | 0 <= i < |rest|
      ensures rest[i].id in t'.jobs && t'.jobs[rest[i].id].trigger == rest[i].trigger
    {
      assert rest[i] == all[i + 1];
    }
  }

  lemma {:induction false} CondFrameTransitive(a: Tables, b: Tables, c: Tables)
    requires CondFrame(a, b) && CondFrame(b, c)
    ensures CondFrame(a, c)
  {
  }

  lemma {:induction false} TickConditionsFrame(t: Tables, all: seq<Job>, env: Env)
    requires TablesOk(t) && SameTriggers(t.jobs, all)
    ensures CondFrame(t, TickConditions(t, all, env).0) && TablesOk(TickConditions(t, all, env).0)
    ensures TickConditions(t, all, env).0.queue == t.queue + CondSent(t, all, env)
    ensures TickConditions(t, all, env).1 == |CondSent(t, all, env)|
    decreases |all|
  {
    hide TablesOk, CondFrame, FireCondition, SameTriggers;
    if all == [] {
      assert CondFrame(t, t) by { CondFrameReflexive(t); }
    } else {
      var t1 := FireCondition(t, all[0], env).0;
      assert all[0].id in t.jobs && t.jobs[all[0].id].trigger == all[0].trigger by { FirstTrigger(t, all); }
      FireConditionFrame(t, all[0], env);
      TriggersStay(t, t1, all);
      TickConditionsFrame(t1, all[1..], env);
      CondFrameTransitive(t, t1, TickConditions(t1, all[1..], env).0);
      FireConditionQueue(t, all[0], env);
    }
  }

  lemma {:induction false} CondFrameReflexive(t: Tables)
    ensures CondFrame(t, t)
  {
  }

  lemma {:induction false} FirstTrigger(t: Tables, all: seq<Job>)
    requires SameTriggers(t.jobs, all) && all != []
    ensures all[0].id in t.jobs && t.jobs[all[0].id].trigger == all[0].trigger
  {
  }

  lemma {:induction false} FireConditionQueue(t: Tables, job: Job, env: Env)
    ensures var (t1, fired) := FireCondition(t, job, env);
            t1.queue == t.queue + if fired then [Intent(job, NewRun(t.nextRun, job.id, 1, []))] else []
  {
    hide ConditionFires;
  }

  lemma {:induction false} StillActive(t: Tables, t': Tables, job: JobId)
    requires CondFrame(t, t') && HasActive(t.runs, job)
    ensures HasActive(t'.runs, job)
  {
    var r :| r in t.runs && t.runs[r].job == job && !t.runs[r].state.IsTerminal();
    assert r in t'.runs && t'.runs[r] == t.runs[r];
  }

  /** Only an idle job of the list fires, and it fires once. */
  lemma {:induction false} CondSentOncePerJob(t: Tables, all: seq<Job>, env: Env)
    requires TablesOk(t) && SameTriggers(t.jobs, all)
    ensures DistinctJobs(CondSent(t, all, env))
    ensures forall k :: 0 <= k < |CondSent(t, all, env)| ==>
              CondSent(t, all, env)[k].job in all && !HasActive(t.runs, CondSent(t, all, env)[k].job.id)
    decreases |all|
  {
    hide TablesOk, CondFrame, FireCondition, HasActive;
    if all != [] {
      var (t1, fired) := FireCondition(t, all[0], env);
      FireConditionFrame(t, all[0], env);
      TriggersStay(t, t1, all);
      CondSentOncePerJob(t1, all[1..], env);
      var rest := CondSent(t1, all[1..], env);
      forall k | 0 <= k < |rest|
        ensures rest[k].job in all && !HasActive(t.runs, rest[k].job.id) && rest[k].job.id != all[0].id
      {
        if HasActive(t.runs, rest[k].job.id) {
          StillActive(t, t1, rest[k].job.id);
        }
      }
      if fired {
        FiredWasIdle(t, all[0], env);
        DistinctAppend([Intent(all[0], NewRun(t.nextRun, all[0].id, 1, []))], rest);
      }
    }
  }

  lemma {:induction false} FiredWasIdle(t: Tables, job: Job, env: Env)
    requires FireCondition(t, job, env).1
    ensures !HasActive(t.runs, job.id)
  {
    hide CalendarAllows;
  }

  // ----- The tick -----

  lemma {:induction false} ListedJobs(jobs: map<JobId, Job>, all: seq<Job>)
    requires IsJobList(jobs, all)
    ensures SameTriggers(jobs, all)
  {
  }

  /**
   * The count returned is the number of intents enqueued, no job gets two of
   * them in one tick whatever its trigger, and a tick that ends with an error
   * has not looked at any condition.
   */
  lemma {:induction false} NoJobFiresTwice(t: Tables, due: seq<Job>, all: seq<Job>, env: Env)
    requires TablesOk(t) && Untouched(t.jobs, due) && IsJobList(TickDue(t, due, env).t.jobs, all)
    ensures var (t', count) := TickOnce(t, due, all, env);
            && TablesOk(t')
            && t.queue <= t'.queue
            && (count.Some? ==> count.value == |t'.queue| - |t.queue|)
            && DistinctJobs(t'.queue[|t.queue|..])
            && (count.None? <==> Aborted(TickDue(t, due, env).outcomes))
  {
    hide TablesOk, Sent, IsJobList, TickDue, TickConditions, CondSent, WithRows, Rows, HoldsOf, JobsAfter, ClaimsKnown,
         HasActive, DistinctJobs, SameTriggers, CondFrame;
    var r := TickDue(t, due, env);
    TickAccounts(t, due, env);
    TickKeepsTables(t, due, env);
    var sent := Sent(due, r.outcomes, t.nextRun);
    SentOncePerJob(due, r.outcomes, t.nextRun);
    SentIsCounted(due, r.outcomes, t.nextRun);
    assert r.t.queue[|t.queue|..] == sent;
    if !Aborted(r.outcomes) {
      ListedJobs(r.t.jobs, all);
      TickConditionsFrame(r.t, all, env);
      CondSentOncePerJob(r.t, all, env);
      SentJobsAreActive(t, due, env);
      var more := CondSent(r.t, all, env);
      assert (t.queue + sent + more)[|t.queue|..] == sent + more;
      forall i, j | 0 <= i < |sent| && 0 <= j < |more|
        ensures sent[i].job.id != more[j].job.id
      {
        assert HasActive(r.t.runs, r.t.queue[|t.queue| + i].job.id);
        assert r.t.queue[|t.queue| + i] == sent[i];
      }
      DistinctAppend(sent, more);
    }
  }

  /** A due job whose fire is still open when the tick is over: it was not reached, or not settled. */
  ghost predicate StillOpen(due: seq<Job>, outcomes: seq<FireOutcome>, id: JobId) {
    exists i :: 0 <= i < |due| && due[i].id == id && (i >= |outcomes| || !Settled(outcomes[i]))
  }

  lemma {:induction false} NextIsLater(job: Job, env: Env)
    requires IsJob(job) && ComputeNext(job.trigger, env).Ok?
    ensures !IsDue(job.(nextFire := ComputeNext(job.trigger, env).value), env.now)
  {
  }

  lemma {:induction false} DueAfterDueJobs(t: Tables, due: seq<Job>, env: Env, id: JobId)
    requires TablesOk(t) && IsDueList(t.jobs, env.now, due) && id in t.jobs
    ensures var r := TickDue(t, due, env);
            id in r.t.jobs && (IsDue(r.t.jobs[id], env.now) <==> StillOpen(due, r.outcomes, id))
  {
    hide Sent, Rows, WithRows, HoldsOf, ClaimsKnown, TickDue, TablesOk, Taken, IsDueList, JobsAfter, IsDue, Decided,
         ComputeNext, Settled;
    var r := TickDue(t, due, env);
    UntouchedRows(t, due, env);
    TickAccounts(t, due, env);
    DueJobsAreValid(t, due);
    SettledHaveNext(t, due, r.outcomes, env);
    assert t.jobs[id].id == id by { assert Keyed(t) by { TablesAreKeyed(t); } }
    DueAfter(t.jobs, due, r.outcomes, env, r.t.jobs, id);
  }

  /** A fire is only over once the next one is known. */
  lemma {:induction false} SettledHaveNext(t: Tables, due: seq<Job>, outcomes: seq<FireOutcome>, env: Env)
    requires |outcomes| <= |due| && Decided(t, due, outcomes, env)
    ensures forall i :: 0 <= i < |outcomes| && Settled(outcomes[i]) ==> ComputeNext(due[i].trigger, env).Ok?
  {
    hide ComputeNext, TickDue, CalendarAllows, ClaimsAreRejected, AllSatisfiable, HasRoom;
  }

  lemma {:induction false} TablesAreKeyed(t: Tables)
    requires TablesOk(t)
    ensures Keyed(t)
  {
  }

  lemma {:induction false} DueJobsAreValid(t: Tables, due: seq<Job>)
    requires TablesOk(t) && Untouched(t.jobs, due)
    ensures forall i :: 0 <= i < |due| ==> IsJob(due[i])
  {
  }

  lemma {:induction false} DueAfter(jobs: map<JobId, Job>, due: seq<Job>, outcomes: seq<FireOutcome>, env: Env,
                                    jobs': map<JobId, Job>, id: JobId)
    requires |outcomes| <= |due| && IsDueList(jobs, env.now, due) && id in jobs
    requires jobs[id].id == id && JobsAfter(jobs, due, outcomes, env, jobs')
    requires forall i :: 0 <= i < |due| ==> IsJob(due[i])
    requires forall i :: 0 <= i < |outcomes| && Settled(outcomes[i]) ==> ComputeNext(due[i].trigger, env).Ok?
    ensures id in jobs' && (IsDue(jobs'[id], env.now) <==> StillOpen(due, outcomes, id))
  {
    hide ComputeNext, IsJob, IsDue;
    if i :| 0 <= i < |outcomes| && due[i].id == id {
      assert due[i] == jobs[id];
      if Settled(outcomes[i]) {
        NextIsLater(due[i], env);
      }
      assert forall k :: 0 <= k < |due| && due[k].id == id ==> k == i;
    } else {
      assert jobs'[id] == jobs[id];
      if IsDue(jobs[id], env.now) {
        var k :| 0 <= k < |due| && due[k] == jobs[id];
        assert due[k].id == id && k >= |outcomes|;
      }
    }
  }

  /**
   * A second tick at the same instant sees exactly the jobs whose fire the
   * first one left open: those blocked by resources or by the full queue, and
   * after an error also the one that caused it, even if it was dispatched,
   * and all behind it.
   */
  lemma {:induction false} OnlyOpenFiresAreDueAgain(t: Tables, due: seq<Job>, all: seq<Job>, env: Env, id: JobId)
    requires TablesOk(t) && IsDueList(t.jobs, env.now, due) && IsJobList(TickDue(t, due, env).t.jobs, all)
    requires id in t.jobs && !t.jobs[id].trigger.Condition?
    ensures var t' := TickOnce(t, due, all, env).0;
            id in t'.jobs && (IsDue(t'.jobs[id], env.now) <==> StillOpen(due, TickDue(t, due, env).outcomes, id))
  {
    hide TablesOk, IsDueList, IsJobList, TickDue, TickConditions, StillOpen, SameTriggers, IsDue, Aborted;
    var r := TickDue(t, due, env);
    DueAfterDueJobs(t, due, env, id);
    UntouchedRows(t, due, env);
    TickKeepsTables(t, due, env);
    TriggerStays(t, due, env, id);
    if !Aborted(r.outcomes) {
      ListedJobs(r.t.jobs, all);
      TickConditionsFrame(r.t, all, env);
    }
  }

  lemma {:induction false} UntouchedRows(t: Tables, due: seq<Job>, env: Env)
    requires IsDueList(t.jobs, env.now, due)
    ensures Untouched(t.jobs, due)
  {
  }

  lemma {:induction false} TriggerStays(t: Tables, due: seq<Job>, env: Env, id: JobId)
    requires TablesOk(t) && Untouched(t.jobs, due) && id in t.jobs
    ensures id in TickDue(t, due, env).t.jobs && TickDue(t, due, env).t.jobs[id].trigger == t.jobs[id].trigger
  {
    hide Sent, Rows, WithRows, HoldsOf, ClaimsKnown, TickDue, TablesOk, Taken, ComputeNext;
    var r := TickDue(t, due, env);
    TickAccounts(t, due, env);
    if i :| 0 <= i < |r.outcomes| && due[i].id == id {
      assert due[i] == t.jobs[id];
    }
  }

  /**
   * A fire is doubled, that is, the job is dispatched and yet due again at
   * the same instant, exactly when the cron search failed after the dispatch.
   */
  lemma {:induction false} FireIsDoubledExactly(t: Tables, due: seq<Job>, all: seq<Job>, env: Env, i: nat)
    requires TablesOk(t) && IsDueList(t.jobs, env.now, due) && IsJobList(TickDue(t, due, env).t.jobs, all)
    requires i < |TickDue(t, due, env).outcomes| <= |due| && !due[i].trigger.Condition?
    ensures var (t', o) := (TickOnce(t, due, all, env).0, TickDue(t, due, env).outcomes[i]);
            && due[i].id in t'.jobs
            && (Sends(o) && IsDue(t'.jobs[due[i].id], env.now) <==> o == SentCronFailed)
            && o == OutcomeOf(TickDue(t, due[..i], env).t, due[i], env)
  {
    hide TablesOk, TickDue, TickOnce, IsDue, Accounted, IsJobList, OutcomeOf;
    UntouchedRows(t, due, env);
    TickAccounts(t, due, env);
    assert due[i].id in t.jobs && t.jobs[due[i].id] == due[i];
    OnlyOpenFiresAreDueAgain(t, due, all, env, due[i].id);
    assert forall k :: 0 <= k < |due| && due[k].id == due[i].id ==> k == i;
  }

  // ----- The error -----

  /**
   * The tick fails exactly when some due job, in the tables that the jobs
   * before it leave, repeats a resource with room for both claims, or has a
   * cron expression without a next fire and is off calendar or can be sent.
   */
  lemma {:induction false} TickFailsExactly(t: Tables, due: seq<Job>, all: seq<Job>, env: Env)
    requires TablesOk(t) && Untouched(t.jobs, due)
    ensures TickOnce(t, due, all, env).1.None?
       <==> exists i :: 0 <= i < |due| && Stops(OutcomeOf(TickDue(t, due[..i], env).t, due[i], env))
  {
    hide TablesOk, Untouched, TickDue, TickConditions, Accounted, OutcomeOf;
    TickAccounts(t, due, env);
    var outcomes := TickDue(t, due, env).outcomes;
    if Aborted(outcomes) {
      var i := |outcomes| - 1;
      assert outcomes[i] == OutcomeOf(TickDue(t, due[..i], env).t, due[i], env);
    } else {
      assert forall i :: 0 <= i < |outcomes| ==> !Stops(outcomes[i]);
    }
  }

  /** Without a repeated resource name, and with a next fire for every due job, the tick does not fail. */
  lemma {:induction false} TickFailsOnlyOnRepeats(t: Tables, due: seq<Job>, all: seq<Job>, env: Env)
    requires TablesOk(t) && Untouched(t.jobs, due)
    requires forall i :: 0 <= i < |due| ==> DistinctNames(due[i].claims) && ComputeNext(due[i].trigger, env).Ok?
    ensures TickOnce(t, due, all, env).1.Some?
  {
    hide TablesOk, Untouched, TickDue, TickOnce, DistinctNames, ComputeNext, OutcomeOf;
    TickFailsExactly(t, due, all, env);
    forall i | 0 <= i < |due|
      ensures !Stops(OutcomeOf(TickDue(t, due[..i], env).t, due[i], env))
    {
      CleanJobGoesOn(TickDue(t, due[..i], env).t, due[i], env);
    }
  }

  lemma {:induction false} CleanJobGoesOn(t: Tables, job: Job, env: Env)
    requires DistinctNames(job.claims) && ComputeNext(job.trigger, env).Ok?
    ensures !Stops(OutcomeOf(t, job, env))
  {
    hide ComputeNext, AllSatisfiable, HasRoom, CalendarAllows;
  }
}
