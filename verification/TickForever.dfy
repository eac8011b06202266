/** Tick after tick: what one bad job does to all the others. */
module TickForever {
  import opened Core
  import opened Resources
  import opened ResourceRejection
  import opened Scheduler
  import opened Tick
  import opened TickAccount
  import opened TickFires

  /** One call of the tick: what its two queries gave, and what it reads besides. */
  datatype Call = Call(due: seq<Job>, all: seq<Job>, env: Env)

  function AfterTicks(t: Tables, calls: seq<Call>): Tables
    decreases |calls|
  {
    if calls == [] then t
    else AfterTicks(TickOnce(t, calls[0].due, calls[0].all, calls[0].env).0, calls[1..])
  }

  /** Each call reads the tables as the one before left them. */
  ghost predicate AreTicks(t: Tables, calls: seq<Call>)
    decreases |calls|
  {
    calls != [] ==>
      var c := calls[0];
      && IsDueList(t.jobs, c.env.now, c.due)
      && AreTicks(TickOnce(t, c.due, c.all, c.env).0, calls[1..])
  }

  ghost predicate AllFail(t: Tables, calls: seq<Call>)
    decreases |calls|
  {
    calls != [] ==>
      var c := calls[0];
      && TickOnce(t, c.due, c.all, c.env).1.None?
      && AllFail(TickOnce(t, c.due, c.all, c.env).0, calls[1..])
  }

  /** The job is due longer than any other will be. */
  ghost predicate IsFirst(t: Tables, id: JobId) {
    && id in t.jobs && !t.jobs[id].paused && t.jobs[id].nextFire.Some?
    && forall other :: other in t.jobs && other != id && t.jobs[other].nextFire.Some? ==>
         t.jobs[id].nextFire.value < t.jobs[other].nextFire.value
  }

  /** And no calendar holds it back at these calls. */
  ghost predicate ComesFirst(t: Tables, id: JobId, calls: seq<Call>) {
    && IsFirst(t, id)
    && forall i :: 0 <= i < |calls| ==>
         && t.jobs[id].nextFire.value <= calls[i].env.now
         && CalendarAllows(t.jobs[id], calls[i].env.now, calls[i].env.cals)
  }

  lemma {:induction false} FirstIsHead(t: Tables, id: JobId, now: Time, due: seq<Job>)
    requires Keyed(t) && IsFirst(t, id) && t.jobs[id].nextFire.value <= now && IsDueList(t.jobs, now, due)
    ensures id in t.jobs && due != [] && due[0] == t.jobs[id]
  {
    assert IsDue(t.jobs[id], now);
    var k :| 0 <= k < |due| && due[k] == t.jobs[id];
    var head := due[0];
    assert head.id in t.jobs && t.jobs[head.id] == head && head.nextFire.Some?;
  }

  lemma {:induction false} ComesFirstLater(t: Tables, t': Tables, id: JobId, calls: seq<Call>)
    requires ComesFirst(t, id, calls) && calls != [] && t'.jobs == t.jobs
    ensures ComesFirst(t', id, calls[1..])
  {
    hide CalendarAllows;
    assert forall i :: 0 <= i < |calls[1..]| ==> calls[1..][i] == calls[i + 1];
  }

  // ----- A repeated claim -----

  /** The resources the job claims are still there, with no less room. */
  predicate HasNoLessRoom(t: Tables, t': Tables, job: Job) {
    forall i :: 0 <= i < |job.claims| && job.claims[i].resource in t.resources ==>
      var name := job.claims[i].resource;
      && name in t'.resources && t'.resources[name] == t.resources[name]
      && Used(t'.holds, t.resources[name].id) <= Used(t.holds, t.resources[name].id)
  }

  /** Then its claims are still rejected, whichever id the next run gets. */
  lemma {:induction false} StillRejected(t: Tables, t': Tables, job: Job)
    requires Keyed(t') && HasNoLessRoom(t, t', job) && ClaimsAreRejected(t, job)
    ensures ClaimsAreRejected(t', job)
  {
    hide Used, HasHold, Keyed;
    FreshRunHoldsNothing(t');
    var k :| 0 <= k < |job.claims| && AllSatisfiable(t.resources, t.holds, t.nextRun, job.claims[..k])
             && RepeatsAt(t.resources, t.holds, job.claims, k);
    forall i | 0 <= i < k
      ensures Satisfiable(t'.resources, t'.holds, t'.nextRun, job.claims[i])
    {
      assert job.claims[..k][i] == job.claims[i];
    }
    assert AllSatisfiable(t'.resources, t'.holds, t'.nextRun, job.claims[..k]);
    assert RepeatsAt(t'.resources, t'.holds, job.claims, k);
  }

  /** One tick with the bad job in front changes nothing but the counter of run ids. */
  lemma {:induction false} RepeatedClaimStopsTheTick(t: Tables, due: seq<Job>, all: seq<Job>, env: Env)
    requires TablesOk(t) && due != [] && IsJob(due[0]) && CalendarAllows(due[0], env.now, env.cals)
    requires ClaimsAreRejected(t, due[0])
    ensures TickOnce(t, due, all, env) == (TakeId(t), None)
  {
    hide Acquire, AllSatisfiable, ClaimsAreRejected, TablesOk, CalendarAllows, ComputeNext, Release;
    FireDoes(t, due[0], env);
    assert TickDue(t, due, env) == Ticked(TakeId(t), [AcquireFailed]);
  }

  lemma {:induction false} TakenIdKeepsTables(t: Tables)
    requires TablesOk(t)
    ensures TablesOk(TakeId(t)) && Keyed(t) && Keyed(TakeId(t))
  {
  }

  lemma {:induction false} FirstIsJob(t: Tables, id: JobId)
    requires TablesOk(t) && id in t.jobs
    ensures IsJob(t.jobs[id])
  {
  }

  /**
   * A job that has been due longest and repeats a resource with room for both
   * claims stops any number of ticks in a row: all fail, and none changes a
   * job, a run, a hold or the queue.
   */
  lemma {:induction false} RepeatedClaimStopsEveryTick(t: Tables, id: JobId, calls: seq<Call>)
    requires TablesOk(t) && AreTicks(t, calls) && ComesFirst(t, id, calls) && ClaimsAreRejected(t, t.jobs[id])
    ensures AllFail(t, calls)
    ensures AfterTicks(t, calls) == t.(nextRun := t.nextRun + |calls|)
    decreases |calls|
  {
    hide TablesOk, Keyed, IsFirst, ClaimsAreRejected, TickOnce, IsDueList, CalendarAllows;
    if calls != [] {
      var (c, t1) := (calls[0], TakeId(t));
      TakenIdKeepsTables(t);
      FirstIsHead(t, id, c.env.now, c.due);
      FirstIsJob(t, id);
      RepeatedClaimStopsTheTick(t, c.due, c.all, c.env);
      ComesFirstLater(t, t1, id, calls);
      StillRejected(t, t1, t.jobs[id]);
      RepeatedClaimStopsEveryTick(t1, id, calls[1..]);
    }
  }

  // ----- A cron expression without a next fire -----

  /**
   * Creating or editing such a job is refused; importing it as JIL stores it
   * without a next fire, and a trigger then makes it due.
   */
  ghost predicate NeverAgain(job: Job, calls: seq<Call>) {
    job.trigger.Cron? && forall i :: 0 <= i < |calls| ==>
      calls[i].env.cron(job.trigger.expr, job.trigger.timezone, calls[i].env.now).None?
  }

  lemma {:induction false} UnschedulableJobFires(t: Tables, due: seq<Job>, all: seq<Job>, env: Env)
    requires TablesOk(t) && due != [] && IsJob(due[0]) && CalendarAllows(due[0], env.now, env.cals)
    requires due[0].claims == [] && HasRoom(t) && ComputeNext(due[0].trigger, env).Err?
    ensures TickOnce(t, due, all, env) == (WithIntent(t, due[0]), None)
  {
    hide Acquire, TablesOk, CalendarAllows, ComputeNext, Release;
    FireDoes(t, due[0], env);
    assert TickDue(t, due, env) == Ticked(WithIntent(t, due[0]), [SentCronFailed]) by {
      assert ClaimsAreRejected(t, due[0]) ==> false;
      assert AllSatisfiable(t.resources, t.holds, t.nextRun, due[0].claims);
    }
  }

  lemma {:induction false} IntentKeepsTables(t: Tables, job: Job)
    requires TablesOk(t) && job.claims == []
    ensures TablesOk(WithIntent(t, job)) && WithIntent(t, job).jobs == t.jobs
    ensures WithIntent(t, job).queue == t.queue + [Intent(job, NewRun(t.nextRun, job.id, 1, []))]
    ensures WithIntent(t, job).cap == t.cap && Keyed(t)
  {
    hide Sound;
    assert t.holds + [] == t.holds;
    OtherKept(t, job);
  }

  lemma {:induction false} OtherKept(t: Tables, job: Job)
    requires Keyed(t) && job.claims == []
    ensures Keyed(WithIntent(t, job))
  {
    assert t.holds + [] == t.holds;
    TakenKeepsKeyed(t, t.holds);
    InsertKeepsKeyed(TakeId(t).(holds := t.holds), NewRun(t.nextRun, job.id, 1, []));
  }

  /**
   * A job whose expression has no next fire, once due, is dispatched by each
   * of any number of ticks in a row that find room for it, and each then fails:
   * its fire time does not move, and nothing behind it is reached.
   */
  lemma {:induction false} UnschedulableJobFiresEveryTick(t: Tables, id: JobId, calls: seq<Call>)
    requires TablesOk(t) && AreTicks(t, calls) && ComesFirst(t, id, calls) && NeverAgain(t.jobs[id], calls)
    requires t.jobs[id].claims == [] && |t.queue| + |calls| <= t.cap
    ensures AllFail(t, calls)
    ensures var t' := AfterTicks(t, calls);
            && t'.jobs == t.jobs && |t'.queue| == |t.queue| + |calls| && t.queue <= t'.queue
            && forall i :: |t.queue| <= i < |t'.queue| ==> t'.queue[i].job == t.jobs[id]
    decreases |calls|
  {
    hide TablesOk, Keyed, IsFirst, TickOnce, IsDueList, CalendarAllows;
    if calls != [] {
      assert Keyed(t) by { TakenIdKeepsTables(t); }
      FirstIsHead(t, id, calls[0].env.now, calls[0].due);
      FirstIsJob(t, id);
      var c, job := calls[0], t.jobs[id];
      IntentKeepsTables(t, job);
      UnschedulableJobFires(t, c.due, c.all, c.env);
      var t1 := WithIntent(t, job);
      ComesFirstLater(t, t1, id, calls);
      assert forall i :: 0 <= i < |calls[1..]| ==> calls[1..][i] == calls[i + 1];
      UnschedulableJobFiresEveryTick(t1, id, calls[1..]);
    }
  }
}
