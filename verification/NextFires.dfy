/** When a job that a tick has dealt with fires again, told by its trigger and by what the cron search found. */
module NextFires {
  import opened Core
  import opened Resources
  import opened Scheduler
  import opened Tick
  import opened TickAccount
  import opened TickFires

  /** Exactly the instant the search found; one interval on; or never again by itself. */
  ghost predicate IsNextFire(trigger: Trigger, env: Env, next: Option<Time>) {
    match trigger
    case Cron(expr, timezone) => next.Some? && next == env.cron(expr, timezone, env.now)
    case Interval(every) => next == Some(env.now + every)
    case _ => next == None
  }

  /** The search found no instant. */
  ghost predicate IsEndless(trigger: Trigger, env: Env) {
    trigger.Cron? && env.cron(trigger.expr, trigger.timezone, env.now) == None
  }

  /** The row of the job, as it was but for a next fire that its trigger asks for. */
  ghost predicate IsRescheduled(job: Job, env: Env, jobs': map<JobId, Job>) {
    job.id in jobs' && exists next :: IsNextFire(job.trigger, env, next) && jobs'[job.id] == job.(nextFire := next)
  }

  /** A calendar the job names, and that is stored, is closed for it: one to run on, or one to stay out of. */
  ghost predicate IsHeldBack(job: Job, env: Env) {
    || (exists c :: job.calendar == Some(c) && c in env.cals && !env.cals[c](env.now))
    || (exists c :: job.excludeCalendar == Some(c) && c in env.cals && env.cals[c](env.now))
  }

  lemma {:induction false} CalendarsHoldBack(job: Job, env: Env)
    ensures CalendarAllows(job, env.now, env.cals) <==> !IsHeldBack(job, env)
  {
  }

  // ----- One due job -----

  lemma {:induction false} SearchDecides(trigger: Trigger, env: Env)
    ensures var next := ComputeNext(trigger, env);
            (next.Err? <==> IsEndless(trigger, env)) && (next.Ok? ==> IsNextFire(trigger, env, next.value))
  {
  }

  /**
   * One due job: if it is sent or held back, and the search finds an instant
   * where there is one to find, its row has the next fire its trigger asks
   * for; in all other cases no row changes.
   */
  lemma {:induction false} FireSetsTheNext(t: Tables, job: Job, env: Env)
    requires job.id in t.jobs && t.jobs[job.id] == job
    ensures var t' := Fire(t, job, env).0;
            && (IsHeldBack(job, env) || |t'.queue| > |t.queue|) && !IsEndless(job.trigger, env) ==>
                 IsRescheduled(job, env, t'.jobs) && t'.jobs - {job.id} == t.jobs - {job.id}
    ensures var t' := Fire(t, job, env).0;
            !(IsHeldBack(job, env) || |t'.queue| > |t.queue|) || IsEndless(job.trigger, env) ==> t'.jobs == t.jobs
    ensures IsHeldBack(job, env) ==> Fire(t, job, env).0.queue == t.queue
  {
    hide TryAcquire, Release, ComputeNext, CalendarAllows, IsHeldBack, IsEndless, IsNextFire;
    CalendarsHoldBack(job, env);
    SearchDecides(job.trigger, env);
  }

  // ----- Due again -----

  predicate IsListed(due: seq<Job>, id: JobId) {
    exists k :: 0 <= k < |due| && due[k].id == id
  }

  /** The due query of any instant finds the job from its next fire on, unless it is paused. */
  lemma {:induction false} ListedFromItsFire(jobs: map<JobId, Job>, id: JobId, now: Time, due: seq<Job>)
    requires id in jobs && jobs[id].id == id && IsDueList(jobs, now, due)
    ensures IsListed(due, id) <==>
              !jobs[id].paused && match jobs[id].nextFire case None => false case Some(at) => at <= now
  {
    if IsDue(jobs[id], now) {
      assert jobs[id] in due;
      var k :| 0 <= k < |due| && due[k] == jobs[id];
      assert due[k].id == id;
    }
  }

  /** And so on for ever: from the instant found on, or never. */
  ghost predicate IsDueFrom(jobs: map<JobId, Job>, trigger: Trigger, env: Env, id: JobId) {
    forall now, due :: IsDueList(jobs, now, due) ==>
      (IsListed(due, id) <==> exists at :: IsNextFire(trigger, env, Some(at)) && at <= now)
  }

  lemma {:induction false} RescheduledIsDueFrom(job: Job, env: Env, jobs': map<JobId, Job>)
    requires IsRescheduled(job, env, jobs') && !job.paused
    ensures IsDueFrom(jobs', job.trigger, env, job.id)
  {
    hide IsDueList, IsListed;
    forall now, due | IsDueList(jobs', now, due)
      ensures IsListed(due, job.id) <==> exists at :: IsNextFire(job.trigger, env, Some(at)) && at <= now
    {
      ListedFromItsFire(jobs', job.id, now, due);
      var next :| IsNextFire(job.trigger, env, next) && jobs'[job.id] == job.(nextFire := next);
      if next.Some? {
        assert IsNextFire(job.trigger, env, Some(next.value));
      }
    }
  }

  // ----- The whole tick -----

  /** The tick came to the job, and it was sent or held back. */
  ghost predicate IsDealtWith(t: Tables, due: seq<Job>, env: Env, i: nat)
    requires i < |due|
  {
    var r := TickDue(t, due, env);
    && i < |r.outcomes|
    && (IsHeldBack(due[i], env) || exists k :: |t.queue| <= k < |r.t.queue| && r.t.queue[k].job == due[i])
  }

  lemma {:induction false} SentWasSent(due: seq<Job>, outcomes: seq<FireOutcome>, next: RunId, k: nat) returns (i: nat)
    requires |outcomes| <= |due| && k < |Sent(due, outcomes, next)|
    ensures i < |outcomes| && Sends(outcomes[i]) && Sent(due, outcomes, next)[k].job == due[i]
  {
    hide Sends, NextId;
    if Sends(outcomes[0]) {
      if k == 0 {
        i := 0;
      } else {
        i := SentWasSent(due[1..], outcomes[1..], NextId(outcomes[0], next), k - 1);
        i := i + 1;
      }
    } else {
      i := SentWasSent(due[1..], outcomes[1..], NextId(outcomes[0], next), k);
      i := i + 1;
    }
  }

  lemma {:induction false} DealtWithIsSettled(t: Tables, due: seq<Job>, env: Env, i: nat)
    requires TablesOk(t) && IsDueList(t.jobs, env.now, due) && i < |due|
    requires IsDealtWith(t, due, env, i) && !IsEndless(due[i].trigger, env)
    ensures Settled(TickDue(t, due, env).outcomes[i])
  {
    hide TablesOk, TickDue, ComputeNext, CalendarAllows, ClaimsAreRejected, AllSatisfiable, HasRoom, IsHeldBack,
         IsEndless, IsNextFire, JobsAfter, WithRows, Rows, HoldsOf, ClaimsKnown, Sent;
    UntouchedRows(t, due, env);
    TickAccounts(t, due, env);
    var r := TickDue(t, due, env);
    assert r.outcomes[i] == OutcomeOf(TickDue(t, due[..i], env).t, due[i], env);
    SearchDecides(due[i].trigger, env);
    CalendarsHoldBack(due[i], env);
    if !IsHeldBack(due[i], env) {
      var k :| |t.queue| <= k < |r.t.queue| && r.t.queue[k].job == due[i];
      var sent := Sent(due, r.outcomes, t.nextRun);
      assert r.t.queue[k] == sent[k - |t.queue|];
      var j := SentWasSent(due, r.outcomes, t.nextRun, k - |t.queue|);
      assert due[j].id == due[i].id;
      assert j == i;
    }
  }

  /**
   * A job that the tick has sent or held back: its row has the next fire its
   * trigger asks for and is otherwise as it was, and from then on every due
   * query finds it exactly from that instant on. What the search found is
   * taken over as it is.
   */
  lemma {:induction false} TickSetsTheNext(t: Tables, due: seq<Job>, all: seq<Job>, env: Env, i: nat)
    requires TablesOk(t) && IsDueList(t.jobs, env.now, due) && IsJobList(TickDue(t, due, env).t.jobs, all)
    requires i < |due| && IsDealtWith(t, due, env, i) && !IsEndless(due[i].trigger, env)
    ensures var t' := TickOnce(t, due, all, env).0;
            IsRescheduled(due[i], env, t'.jobs) && IsDueFrom(t'.jobs, due[i].trigger, env, due[i].id)
  {
    hide TablesOk, IsDueList, IsJobList, TickDue, TickConditions, SameTriggers, Aborted, IsDealtWith, IsDueFrom,
         IsEndless, Sent, WithRows, Rows, HoldsOf, ClaimsKnown, Taken, Decided, ComputeNext, IsNextFire, Settled;
    var r := TickDue(t, due, env);
    DealtWithIsSettled(t, due, env, i);
    UntouchedRows(t, due, env);
    TickAccounts(t, due, env);
    assert i < |r.outcomes| by { DealtWithIsReached(t, due, env, i); }
    SearchDecides(due[i].trigger, env);
    assert IsRescheduled(due[i], env, r.t.jobs);
    TickKeepsTables(t, due, env);
    if !Aborted(r.outcomes) {
      ListedJobs(r.t.jobs, all);
      TickConditionsFrame(r.t, all, env);
      NoneStaysNone(due[i], env, r.t, TickConditions(r.t, all, env).0);
    }
    DueJobIsOn(t.jobs, env.now, due, i);
    RescheduledIsDueFrom(due[i], env, TickOnce(t, due, all, env).0.jobs);
  }

  lemma {:induction false} DealtWithIsReached(t: Tables, due: seq<Job>, env: Env, i: nat)
    requires i < |due| && IsDealtWith(t, due, env, i)
    ensures i < |TickDue(t, due, env).outcomes|
  {
  }

  lemma {:induction false} DueJobIsOn(jobs: map<JobId, Job>, now: Time, due: seq<Job>, i: nat)
    requires IsDueList(jobs, now, due) && i < |due|
    ensures !due[i].paused
  {
  }

  /** The loop over conditions clears the fire of condition jobs, which have none. */
  lemma {:induction false} NoneStaysNone(job: Job, env: Env, t: Tables, t': Tables)
    requires IsRescheduled(job, env, t.jobs) && CondFrame(t, t')
    ensures IsRescheduled(job, env, t'.jobs)
  {
    var next :| IsNextFire(job.trigger, env, next) && t.jobs[job.id] == job.(nextFire := next);
    assert t'.jobs[job.id] == t.jobs[job.id];
  }
}
