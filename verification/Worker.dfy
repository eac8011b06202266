/** What one run task, one retry and one status change do to the tables, and that the machine can do the same. */
module Worker {
  import opened Core
  import opened Resources
  import opened Outcome
  import opened Scheduler
  import opened Protocol
  import ProtocolTick

  /** A whole run task: `None` stands for a process that could not be started. The retry to schedule comes back. */
  function RunTask(t: Tables, intent: Intent, ending: Option<Ending>): (Tables, Option<Intent>) {
    var r := intent.run.id;
    match ending
    case None => (UpdateState(t, r, Failed), None)
    case Some(e) =>
      var outcome := StateAfter(intent.job.exitPolicy, e);
      (ReleaseHolds(UpdateState(UpdateState(t, r, Running), r, outcome), r),
       if ShouldRetry(intent, outcome) then Some(intent) else None)
  }

  /** The run of a retry, stored before it is sent. */
  function StoreRetry(t: Tables, failed: Intent): (Tables, Intent) {
    var run := NewRun(t.nextRun, failed.job.id, failed.run.attempt + 1, [failed.run.id]);
    (InsertRun(TakeId(t), run), Intent(failed.job, run))
  }

  function ChangeRunState(t: Tables, r: RunId, state: RunState): Tables {
    if r in t.runs then ReleaseHolds(UpdateState(t, r, state), r) else t
  }

  /** The same rows, but for the state of one, if it is there. */
  ghost function WithState(runs: map<RunId, Run>, id: RunId, state: RunState): map<RunId, Run> {
    map r | r in runs :: if r == id then runs[r].(state := state) else runs[r]
  }

  /** The last state a task writes. */
  function EndState(intent: Intent, ending: Option<Ending>): RunState {
    if ending.None? then Failed else StateAfter(intent.job.exitPolicy, ending.value)
  }

  lemma {:induction false} UpdateIsWithState(t: Tables, id: RunId, state: RunState)
    ensures UpdateState(t, id, state).runs == WithState(t.runs, id, state)
    ensures UpdateState(t, id, state) == t.(runs := UpdateState(t, id, state).runs)
    ensures id !in t.runs ==> UpdateState(t, id, state) == t
  {
  }

  lemma {:induction false} LastStateCounts(runs: map<RunId, Run>, id: RunId, first: RunState, state: RunState)
    ensures WithState(WithState(runs, id, first), id, state) == WithState(runs, id, state)
  {
  }

  /** All that a run task changes, said of the tables before and after. */
  lemma {:induction false} TaskEffect(t: Tables, intent: Intent, ending: Option<Ending>)
    ensures var (t', retry) := RunTask(t, intent, ending);
            && t'.runs == WithState(t.runs, intent.run.id, EndState(intent, ending))
            && t' == t.(runs := t'.runs, holds := t'.holds)
            && (ending.None? ==> t'.holds == t.holds)
            && (ending.Some? ==> forall h :: h in t'.holds <==> h in t.holds && h.run != intent.run.id)
            && (retry == None || retry == Some(intent))
            && (retry.Some? <==>
                  ending.Some? && EndState(intent, ending) == Failed && intent.run.attempt < intent.job.maxAttempts)
  {
    hide UpdateState, WithState, StateAfter, Release;
    var r := intent.run.id;
    UpdateIsWithState(t, r, Failed);
    if ending.Some? {
      var outcome := StateAfter(intent.job.exitPolicy, ending.value);
      var t1 := UpdateState(t, r, Running);
      UpdateIsWithState(t, r, Running);
      UpdateIsWithState(t1, r, outcome);
      LastStateCounts(t.runs, r, Running, outcome);
      ReleaseKeepsRows(t.holds, r);
    }
  }

  /** A retry follows a time-out, a lost exit code or one that does not pass, while attempts are left; nothing else. */
  lemma {:induction false} RetriesExactly(t: Tables, intent: Intent, ending: Option<Ending>)
    ensures RunTask(t, intent, ending).1.Some? <==>
              && intent.run.attempt < intent.job.maxAttempts
              && ending.Some? && ending.value.Exited?
              && (ending.value.timedOut || ending.value.code.None?
                  || !Passes(intent.job.exitPolicy, ending.value.code.value))
  {
    if ending.Some? {
      EndsExactly(intent.job.exitPolicy, ending.value);
    }
  }

  /** The three steps of a task that is started, one after the other. */
  lemma {:induction false} StartedTask(s: Sys, r: RunId, outcome: RunState) returns (s1: Sys, s2: Sys, s3: Sys)
    requires r in s.tasks && s.tasks[r].phase == Spawning && IsOutcome(outcome)
    ensures TaskEnabled(s, Start(r)) && s1 == TaskStep(s, Start(r))
    ensures TaskEnabled(s1, Finish(r, outcome)) && s2 == TaskStep(s1, Finish(r, outcome))
    ensures TaskEnabled(s2, Leave(r)) && s3 == TaskStep(s2, Leave(r))
    ensures s3.t == ReleaseHolds(UpdateState(UpdateState(s.t, r, Running), r, outcome), r)
    ensures s3.tasks == s.tasks - {r} && s3.spawnFailed == s.spawnFailed
    ensures s3.sleeping
         == if ShouldRetry(s.tasks[r].intent, outcome) then s.sleeping[r := s.tasks[r].intent] else s.sleeping
  {
    hide Release, UpdateState, ShouldRetry;
    s1 := TaskStep(s, Start(r));
    s2 := TaskStep(s1, Finish(r, outcome));
    s3 := TaskStep(s2, Leave(r));
  }

  /** An uninterrupted task is a history of the machine. */
  lemma {:induction false} TaskIsAHistory(s: Sys, r: RunId, ending: Option<Ending>)
    requires r in s.tasks && s.tasks[r].phase == Spawning && s.tasks[r].intent.run.id == r
    ensures var (t', retry) := RunTask(s.t, s.tasks[r].intent, ending);
            exists actions, s' ::
              && Leads(s, actions, s') && s'.t == t' && s'.tasks == s.tasks - {r}
              && s'.sleeping == (if retry.Some? then s.sleeping[r := retry.value] else s.sleeping)
              && s'.spawnFailed == (if ending.None? then s.spawnFailed + {r} else s.spawnFailed)
  {
    hide Leads, Release, StateAfter, UpdateState, ShouldRetry;
    match ending {
      case None =>
        WorkStep(s, SpawnFail(r));
      case Some(e) =>
        var outcome := StateAfter(s.tasks[r].intent.job.exitPolicy, e);
        EndsExactly(s.tasks[r].intent.job.exitPolicy, e);
        var s1, s2, s3 := StartedTask(s, r, outcome);
        hide TaskStep, TaskEnabled;
        WorkStep(s, Start(r));
        WorkStep(s1, Finish(r, outcome));
        WorkStep(s2, Leave(r));
        ProtocolTick.LeadsOn(s, [Work(Start(r))], s1, [Work(Finish(r, outcome))], s2);
        ProtocolTick.LeadsOn(s, [Work(Start(r))] + [Work(Finish(r, outcome))], s2, [Work(Leave(r))], s3);
    }
  }

  lemma {:induction false} WorkStep(s: Sys, a: TaskAction)
    requires TaskEnabled(s, a)
    ensures Leads(s, [Work(a)], TaskStep(s, a))
  {
    hide TaskStep, TaskEnabled;
    var s' := TaskStep(s, a);
    assert Leads(s', [], s') && [Work(a)][1..] == [];
  }

  /** So is a retry, up to the moment it waits for room. */
  lemma {:induction false} RetryIsAHistory(s: Sys, p: RunId)
    requires p in s.sleeping && s.sleeping[p].run.id == p
    ensures var (t', intent) := StoreRetry(s.t, s.sleeping[p]);
            exists actions, s' ::
              && Leads(s, actions, s') && s'.t == t'
              && s'.sleeping == s.sleeping - {p} && s'.senders == s.senders[intent.run.id := intent]
  {
    hide Leads;
    WorkStep(s, Wake(p));
  }

  /** And a status change. */
  lemma {:induction false} StatusChangeIsAHistory(s: Sys, r: RunId, state: RunState)
    requires r in s.t.runs && state.IsTerminal()
    ensures exists actions, s' ::
              Leads(s, actions, s') && s'.t == ChangeRunState(s.t, r, state) && s'.releasing == s.releasing
  {
    hide Leads, ApiStep, ApiEnabled, ChangeRunState;
    var first, second := ChangeStatus(r, state), ChangeRelease(r);
    ChangeAndRelease(s, r, state);
    var s1 := ApiStep(s, first);
    CallStep(s, first);
    CallStep(s1, second);
    ProtocolTick.LeadsOn(s, [Api(first)], s1, [Api(second)], ApiStep(s1, second));
  }

  lemma {:induction false} ChangeAndRelease(s: Sys, r: RunId, state: RunState)
    requires r in s.t.runs && state.IsTerminal()
    ensures ApiEnabled(s, ChangeStatus(r, state)) && ApiEnabled(ApiStep(s, ChangeStatus(r, state)), ChangeRelease(r))
    ensures var s2 := ApiStep(ApiStep(s, ChangeStatus(r, state)), ChangeRelease(r));
            s2.t == ChangeRunState(s.t, r, state) && s2.releasing == s.releasing
  {
    hide Release;
    assert s.releasing + multiset{r} - multiset{r} == s.releasing;
  }

  lemma {:induction false} CallStep(s: Sys, a: ApiAction)
    requires ApiEnabled(s, a)
    ensures Leads(s, [Api(a)], ApiStep(s, a))
  {
    hide ApiStep, ApiEnabled;
    var s' := ApiStep(s, a);
    assert Leads(s', [], s') && [Api(a)][1..] == [];
  }
}
