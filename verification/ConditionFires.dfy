/** When the tick acts on a condition, and all that it then does. */
module ConditionFires {
  import opened Core
  import opened Resources
  import opened Scheduler
  import opened Tick
  import opened NextFires
  import Condition
  import ConditionParser
  import Evaluator

  /** The text parses, and what it parses to is known to be true; unknown and illegible are not. */
  ghost predicate IsKnownTrue(expr: string, u: Evaluator.Upstream) {
    exists e: Condition.Expr :: ConditionParser.Parse(expr) == Ok(e) && Evaluator.Evaluate(e, u) == Some(true)
  }

  /** No run of the job waits or runs. */
  ghost predicate IsIdle(runs: map<RunId, Run>, job: JobId) {
    forall r :: r in runs && runs[r].job == job ==>
      runs[r].state in {RunState.Success, RunState.Failed, RunState.Killed, RunState.Skipped, RunState.Lost}
  }

  ghost predicate IsReady(t: Tables, job: Job, env: Env) {
    && !job.paused && !IsHeldBack(job, env) && IsIdle(t.runs, job.id)
    && (match job.trigger case Condition(expr) => IsKnownTrue(expr, env.upstream(t.runs)) case _ => false)
  }

  lemma {:induction false} IdleExactly(runs: map<RunId, Run>, job: JobId)
    ensures IsIdle(runs, job) <==> !HasActive(runs, job)
  {
    if IsIdle(runs, job) {
      assert forall r :: r in runs && runs[r].job == job ==> runs[r].state.IsTerminal();
    } else {
      var r :| r in runs && runs[r].job == job
               && runs[r].state !in {RunState.Success, RunState.Failed, RunState.Killed,
                                     RunState.Skipped, RunState.Lost};
      assert runs[r].state == Queued || runs[r].state == Running;
    }
  }

  lemma {:induction false} ReadyExactly(t: Tables, job: Job, env: Env)
    ensures IsReady(t, job, env) <==> ConditionFires(t, job, env)
  {
    hide HasActive, IsIdle, CalendarAllows, IsHeldBack, ConditionParser.Parse, Evaluator.Evaluate;
    IdleExactly(t.runs, job.id);
    CalendarsHoldBack(job, env);
  }

  /**
   * One job in the loop over conditions. If it is ready, a first attempt of it
   * is stored, and sent if the queue has room; then its fire time is cleared.
   * If it is not, nothing changes.
   */
  lemma {:induction false} ConditionActsExactly(t: Tables, job: Job, env: Env)
    requires job.id in t.jobs && t.jobs[job.id] == job
    ensures var (t', fired) := FireCondition(t, job, env);
            var run := Run(t.nextRun, job.id, Queued, 1, []);
            && (fired <==> IsReady(t, job, env) && |t.queue| < t.cap)
            && t'.resources == t.resources && t'.holds == t.holds && t'.cap == t.cap
            && t'.runs == (if IsReady(t, job, env) then t.runs[t.nextRun := run] else t.runs)
            && t'.nextRun == (if IsReady(t, job, env) then t.nextRun + 1 else t.nextRun)
            && t'.queue == (if fired then t.queue + [Intent(job, run)] else t.queue)
            && t'.jobs == (if fired then t.jobs[job.id := job.(nextFire := None)] else t.jobs)
  {
    hide ConditionFires, IsReady;
    ReadyExactly(t, job, env);
  }

  /** In the loop over all jobs each meets the tables that those before it leave. */
  lemma {:induction false} EachIsJudgedInTurn(t: Tables, all: seq<Job>, env: Env, i: nat)
    requires i < |all|
    ensures var before := TickConditions(t, all[..i], env).0;
            TickConditions(t, all[..i + 1], env).0 == FireCondition(before, all[i], env).0
    decreases |all|
  {
    hide FireCondition;
    var t1 := FireCondition(t, all[0], env).0;
    assert all[..i + 1][1..] == all[1..][..i];
    if i > 0 {
      assert all[..i][1..] == all[1..][..i - 1] && all[1..][i - 1] == all[i];
      EachIsJudgedInTurn(t1, all[1..], env, i - 1);
    } else {
      assert all[1..][..0] == [];
    }
  }
}
