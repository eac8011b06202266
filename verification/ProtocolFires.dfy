/** A fire set by a caller while the tick loop is at work: what it takes for it to last. */
module ProtocolFires {
  import opened Core
  import opened Resources
  import opened Scheduler
  import opened Protocol
  import ProtocolConditions
  import ProtocolHolds
  import ProtocolStates

  /** The rows whose next fire the loop over due jobs has yet to set. */
  function DueRows(pc: Pc): (rows: seq<Job>)
    ensures rows != [] ==> !pc.Idle?
  {
    match pc
    case Due(_, rest) => rest
    case Undoing(_, _, rest) => rest
    case Held(_, job, _, rest) => [job] + rest
    case Stored(_, job, _, rest) => [job] + rest
    case Advancing(_, job, rest) => [job] + rest
    case _ => []
  }

  /** The rows the loop over conditions has before it. */
  function CondRows(pc: Pc): seq<Job> {
    match pc
    case Cond(_, rest) => rest
    case CondChosen(_, job, rest) => [job] + rest
    case CondStored(_, job, _, rest) => [job] + rest
    case CondAdvancing(_, job, rest) => [job] + rest
    case _ => []
  }

  /** The loop may set another time than this one; only an interval that happens to end then does not. */
  predicate Overwrites(row: Job, now: Time, id: JobId, at: Time) {
    row.id == id && (row.trigger.Interval? ==> now + row.trigger.every != at)
  }

  /** The first of the rows has its claims already. */
  predicate IsInHand(pc: Pc) {
    pc.Held? || pc.Stored? || pc.Advancing?
  }

  /** The loop can come to set the next fire of the row: it is off calendar, or its claims can be met, or are. */
  predicate IsSettable(pc: Pc, i: nat)
    requires i < |DueRows(pc)|
  {
    (i == 0 && IsInHand(pc)) || !Allows(pc.at.open, DueRows(pc)[i]) || DistinctNames(DueRows(pc)[i].claims)
  }

  predicate IsAtRisk(pc: Pc, id: JobId, at: Time) {
    exists i :: 0 <= i < |DueRows(pc)| && Overwrites(DueRows(pc)[i], pc.at.now, id, at) && IsSettable(pc, i)
  }

  /** And can do so without storing another run of the job. */
  predicate IsSilent(pc: Pc, i: nat)
    requires i < |DueRows(pc)|
  {
    if i == 0 && IsInHand(pc) then !pc.Held? else !Allows(pc.at.open, DueRows(pc)[i])
  }

  predicate IsAtSilentRisk(pc: Pc, id: JobId, at: Time) {
    exists i :: 0 <= i < |DueRows(pc)| && Overwrites(DueRows(pc)[i], pc.at.now, id, at) && IsSilent(pc, i)
  }

  /** The job is no condition job, and none of its rows in the condition loop says so. */
  ghost predicate IsPlain(s: Sys, id: JobId) {
    && id in s.t.jobs && s.t.jobs[id].id == id && !s.t.jobs[id].trigger.Condition?
    && (forall i :: 0 <= i < |CondRows(s.pc)| && CondRows(s.pc)[i].id == id ==> !CondRows(s.pc)[i].trigger.Condition?)
    && (s.pc.CondChosen? || s.pc.CondStored? || s.pc.CondAdvancing? ==> s.pc.job.id != id)
  }

  /** Within the current tick, and without other calls about the job. */
  predicate LeavesFire(a: Action, id: JobId) {
    match a
    case Tick(Begin(_, _)) => false
    case Api(CreateJob(job)) => job.id != id
    case Api(EditJob(job)) => job.id != id
    case Api(SetFire(other, _)) => other != id
    case _ => true
  }

  predicate LeaveFire(actions: seq<Action>, id: JobId) {
    forall i :: 0 <= i < |actions| ==> LeavesFire(actions[i], id)
  }

  ghost predicate HasFire(s: Sys, id: JobId, at: Time) {
    id in s.t.jobs && s.t.jobs[id].nextFire == Some(at)
  }

  /** However the tick goes on, the fire is still there when the next one begins. */
  ghost predicate FireLasts(s: Sys, id: JobId, at: Time) {
    forall actions, s' :: Leads(s, actions, s') && LeaveFire(actions, id) ==> HasFire(s', id, at)
  }

  /** A run of the job that no retry has stored, and that was not there before. */
  ghost predicate HasNewRun(s: Sys, s': Sys, id: JobId) {
    exists r :: r in s'.t.runs && r !in s.t.runs && s'.t.runs[r].job == id && s'.t.runs[r].parents == []
  }

  // ----- A fire that is not at risk -----

  /** The loop has gone on by at most one row. */
  predicate Shortens(rows: seq<Job>, rows': seq<Job>) {
    rows' == rows || rows' == [] || (rows != [] && rows' == rows[1..])
  }

  lemma {:induction false} ShorterHolds(rows: seq<Job>, rows': seq<Job>, i: nat)
    requires Shortens(rows, rows') && i < |rows'|
    ensures exists k :: 0 <= k < |rows| && rows[k] == rows'[i] && (rows' == rows ==> k == i)
  {
    if rows' == rows {
      assert rows[i] == rows'[i];
    } else {
      assert rows[i + 1] == rows'[i];
    }
  }

  /** The rows still to come are those there were, or are read from the table. */
  lemma {:induction false} RowsGoOn(s: Sys, a: TickAction)
    requires TickEnabled(s, a) && !a.Begin?
    ensures var (pc, pc') := (s.pc, TickStep(s, a).pc);
            && Shortens(DueRows(pc), DueRows(pc'))
            && (DueRows(pc') != [] ==> DueRows(pc) != [] && pc'.at == pc.at)
            && (a.List? || Shortens(CondRows(pc), CondRows(pc')))
  {
    hide TryAcquire, Release, HasActive, HasRoom, CanSend, IsDueList, IsJobList, IsNext, SetNextFire, Allows;
  }

  /** A row comes into the hand only off calendar, or with its claims. */
  lemma {:induction false} HandComesOf(s: Sys, a: TickAction)
    requires TickEnabled(s, a) && !a.Begin? && IsInHand(TickStep(s, a).pc)
    ensures DueRows(s.pc) != [] && DueRows(TickStep(s, a).pc) == DueRows(s.pc) && IsSettable(s.pc, 0)
  {
    hide Acquire, Release, HasActive, HasRoom, CanSend, IsDueList, IsJobList, IsNext, SetNextFire, Allows,
         DistinctNames;
    if a.TryHold? {
      AcquiredIsDistinct(s.t.resources, s.t.holds, s.t.nextRun, s.pc.rest[0].claims);
      assert [s.pc.rest[0]] + s.pc.rest[1..] == s.pc.rest;
    } else if a.SkipDue? {
      assert [s.pc.rest[0]] + s.pc.rest[1..] == s.pc.rest;
    }
  }

  /** A second claim of a name is refused once the first is met. */
  lemma {:induction false} HeldIsNotAcquired(table: ResourceTable, holds: seq<Hold>, run: RunId, claims: seq<Claim>,
                                             i: nat)
    requires i < |claims| && claims[i].resource in table && HasHold(holds, run, table[claims[i].resource].id)
    ensures Acquire(table, holds, run, claims).0 != Acquired
    decreases |claims|
  {
    hide Used, HasHold;
    var c := claims[0];
    if i > 0 && c.resource in table {
      var h := Hold(run, table[c.resource].id, c.units);
      HasHoldAppend(holds, h, run, table[claims[i].resource].id);
      HeldIsNotAcquired(table, holds + [h], run, claims[1..], i - 1);
    }
  }

  lemma {:induction false} AcquiredIsDistinct(table: ResourceTable, holds: seq<Hold>, run: RunId, claims: seq<Claim>)
    requires Acquire(table, holds, run, claims).0 == Acquired
    ensures DistinctNames(claims)
    decreases |claims|
  {
    hide Used, HasHold;
    if claims != [] {
      var id := table[claims[0].resource].id;
      var h := Hold(run, id, claims[0].units);
      AcquiredIsDistinct(table, holds + [h], run, claims[1..]);
      HasHoldAppend(holds, h, run, id);
      forall j | 0 < j < |claims|
        ensures claims[0].resource != claims[j].resource
      {
        if claims[0].resource == claims[j].resource {
          assert claims[1..][j - 1] == claims[j];
          HeldIsNotAcquired(table, holds + [h], run, claims[1..], j - 1);
        }
      }
      assert forall i :: 0 < i < |claims| ==> claims[i] == claims[1..][i - 1];
    }
  }

  /** The loop goes on, no more risk. */
  lemma {:induction false} RiskGoesOn(s: Sys, a: TickAction, id: JobId, at: Time)
    requires TickEnabled(s, a) && !a.Begin? && !IsAtRisk(s.pc, id, at)
    ensures !IsAtRisk(TickStep(s, a).pc, id, at)
  {
    RowsGoOn(s, a);
    var pc, pc' := s.pc, TickStep(s, a).pc;
    if IsInHand(pc') {
      HandComesOf(s, a);
    }
    hide TickEnabled, TickStep, Overwrites, Shortens, DueRows, Allows, DistinctNames;
    forall i | 0 <= i < |DueRows(pc')| && IsSettable(pc', i)
      ensures !Overwrites(DueRows(pc')[i], pc'.at.now, id, at)
    {
      ShorterHolds(DueRows(pc), DueRows(pc'), i);
      var k :| 0 <= k < |DueRows(pc)| && DueRows(pc)[k] == DueRows(pc')[i]
               && (DueRows(pc') == DueRows(pc) ==> k == i);
      assert IsSettable(pc, k);
    }
  }

  /** What a step of the loop does to the fire time of the job. */
  lemma {:induction false} TickKeepsJob(s: Sys, a: TickAction, id: JobId, at: Time)
    requires HasFire(s, id, at) && IsPlain(s, id) && TickEnabled(s, a) && !a.Begin?
    requires s.pc.Advancing? ==> !Overwrites(s.pc.job, s.pc.at.now, id, at)
    ensures var t' := TickStep(s, a).t;
            id in t'.jobs && t'.jobs[id] == s.t.jobs[id]
  {
    hide TryAcquire, Release, HasActive, HasRoom, CanSend, IsDueList, IsJobList, Allows;
    match a
    case Advance(next) => assert s.t.jobs[id].(nextFire := Some(at)) == s.t.jobs[id];
    case CondAdvance =>
    case Begin(_, _) =>
    case _ => assert TickStep(s, a).t.jobs == s.t.jobs;
  }

  lemma {:induction false} TickKeepsPlain(s: Sys, a: TickAction, id: JobId, at: Time)
    requires HasFire(s, id, at) && IsPlain(s, id) && TickEnabled(s, a) && !a.Begin?
    requires s.pc.Advancing? ==> !Overwrites(s.pc.job, s.pc.at.now, id, at)
    ensures HasFire(TickStep(s, a), id, at) && IsPlain(TickStep(s, a), id)
  {
    TickKeepsJob(s, a, id, at);
    RowsGoOn(s, a);
    hide TryAcquire, Release, HasActive, HasRoom, CanSend, IsDueList, IsNext, SetNextFire, Allows, Overwrites;
    if a.Choose? {
      assert CondRows(s.pc)[0] == s.pc.rest[0];
    }
    var pc' := TickStep(s, a).pc;
    forall i | 0 <= i < |CondRows(pc')| && CondRows(pc')[i].id == id
      ensures !CondRows(pc')[i].trigger.Condition?
    {
      if !a.List? {
        ShorterHolds(CondRows(s.pc), CondRows(pc'), i);
        var k :| 0 <= k < |CondRows(s.pc)| && CondRows(s.pc)[k] == CondRows(pc')[i];
      }
    }
  }

  lemma {:induction false} WorkKeepsFire(s: Sys, a: TaskAction, id: JobId, at: Time)
    requires HasFire(s, id, at) && IsPlain(s, id) && TaskEnabled(s, a)
    ensures HasFire(TaskStep(s, a), id, at) && IsPlain(TaskStep(s, a), id) && TaskStep(s, a).pc == s.pc
  {
    hide TaskStep, TaskEnabled;
    ProtocolConditions.WorkKeepsJobs(s, a);
  }

  lemma {:induction false} ApiKeepsFire(s: Sys, a: ApiAction, id: JobId, at: Time)
    requires HasFire(s, id, at) && IsPlain(s, id) && ApiEnabled(s, a) && LeavesFire(Api(a), id)
    ensures HasFire(ApiStep(s, a), id, at) && IsPlain(ApiStep(s, a), id) && ApiStep(s, a).pc == s.pc
  {
    hide Release, DropResource, Known, CondRows;
    assert ApiStep(s, a).pc == s.pc;
    match a
    case CreateJob(_) =>
    case EditJob(_) =>
    case SetFire(_, _) =>
    case _ => assert ApiStep(s, a).t.jobs == s.t.jobs;
  }

  ghost predicate IsSafe(s: Sys, id: JobId, at: Time) {
    HasFire(s, id, at) && IsPlain(s, id) && !IsAtRisk(s.pc, id, at)
  }

  /** What is in the hand is at risk. */
  lemma {:induction false} HandIsAtRisk(pc: Pc, id: JobId, at: Time)
    requires pc.Advancing? && Overwrites(pc.job, pc.at.now, id, at)
    ensures IsAtRisk(pc, id, at) && IsAtSilentRisk(pc, id, at)
  {
    hide Overwrites;
    assert DueRows(pc)[0] == pc.job && IsSettable(pc, 0) && IsSilent(pc, 0);
  }

  lemma {:induction false} StepKeepsFire(s: Sys, a: Action, id: JobId, at: Time)
    requires IsSafe(s, id, at) && Enabled(s, a) && LeavesFire(a, id)
    ensures IsSafe(Step(s, a), id, at)
  {
    hide HasFire, IsPlain, IsAtRisk, Overwrites, TickEnabled, TaskEnabled, ApiEnabled, TickStep, TaskStep, ApiStep;
    match a
    case Tick(tick) =>
      if s.pc.Advancing? && Overwrites(s.pc.job, s.pc.at.now, id, at) {
        HandIsAtRisk(s.pc, id, at);
      }
      TickKeepsPlain(s, tick, id, at);
      RiskGoesOn(s, tick, id, at);
    case Work(task) => WorkKeepsFire(s, task, id, at);
    case Api(api) => ApiKeepsFire(s, api, id, at);
  }

  lemma {:induction false} SafeLasts(s: Sys, actions: seq<Action>, s': Sys, id: JobId, at: Time)
    requires IsSafe(s, id, at) && Leads(s, actions, s') && LeaveFire(actions, id)
    ensures HasFire(s', id, at)
    decreases |actions|
  {
    hide IsPlain, IsAtRisk, HasFire, Enabled, Step, LeavesFire;
    if actions != [] {
      StepKeepsFire(s, actions[0], id, at);
      SafeLasts(Step(s, actions[0]), actions[1..], s', id, at);
    }
  }

  // ----- A fire that does not go unseen -----

  /** The fire is there and can only go with a run, or the run has come. */
  ghost predicate IsSeen(s0: Sys, s: Sys, id: JobId, at: Time) {
    || HasNewRun(s0, s, id)
    || (HasFire(s, id, at) && IsPlain(s, id) && !IsAtSilentRisk(s.pc, id, at) && s0.t.runs.Keys <= s.t.runs.Keys)
  }

  /** The loop goes on, and either there is still no such risk, or a run of the job has been stored. */
  lemma {:induction false} SilentRiskGoesOn(s: Sys, a: TickAction, id: JobId, at: Time)
    requires TickEnabled(s, a) && !a.Begin? && !IsAtSilentRisk(s.pc, id, at)
    requires !(a.Store? && s.pc.job.id == id)
    ensures !IsAtSilentRisk(TickStep(s, a).pc, id, at)
  {
    RowsGoOn(s, a);
    var pc, pc' := s.pc, TickStep(s, a).pc;
    SilentHandComesOf(s, a, id);
    hide TickEnabled, TickStep, Shortens, DueRows, Allows;
    forall i | 0 <= i < |DueRows(pc')| && IsSilent(pc', i)
      ensures !Overwrites(DueRows(pc')[i], pc'.at.now, id, at)
    {
      ShorterHolds(DueRows(pc), DueRows(pc'), i);
      var k :| 0 <= k < |DueRows(pc)| && DueRows(pc)[k] == DueRows(pc')[i]
               && (DueRows(pc') == DueRows(pc) ==> k == i);
      assert IsSilent(pc, k) || DueRows(pc)[k].id != id;
    }
  }

  lemma {:induction false} SilentHandComesOf(s: Sys, a: TickAction, id: JobId)
    requires TickEnabled(s, a) && !a.Begin? && !(a.Store? && s.pc.job.id == id)
    ensures var (pc, pc') := (s.pc, TickStep(s, a).pc);
            IsInHand(pc') ==>
              && DueRows(pc) != [] && DueRows(pc') == DueRows(pc)
              && (IsSilent(pc', 0) ==> IsSilent(pc, 0) || DueRows(pc)[0].id != id)
  {
    hide TryAcquire, Release, HasActive, HasRoom, CanSend, IsDueList, IsJobList, IsNext, SetNextFire, Allows;
    if a.TryHold? || a.SkipDue? {
      assert [s.pc.rest[0]] + s.pc.rest[1..] == s.pc.rest;
    }
  }

  lemma {:induction false} StoreIsSeen(s0: Sys, s: Sys, id: JobId)
    requires ProtocolStates.Stated(s) && s0.t.runs.Keys <= s.t.runs.Keys && s.pc.Held? && s.pc.job.id == id
    ensures HasNewRun(s0, TickStep(s, Store), id)
  {
    ProtocolStates.HeldIsUnknown(s);
    var r := s.pc.run;
    assert r in TickStep(s, Store).t.runs && r !in s0.t.runs;
  }

  /** Runs are never removed, and stay with their job. */
  lemma {:induction false} NewRunStays(s0: Sys, s: Sys, a: Action, id: JobId)
    requires ProtocolHolds.SysOk(s) && ProtocolStates.Stated(s) && Enabled(s, a)
    ensures s.t.runs.Keys <= Step(s, a).t.runs.Keys
    ensures HasNewRun(s0, s, id) ==> HasNewRun(s0, Step(s, a), id)
  {
    hide ProtocolHolds.SysOk, ProtocolStates.Stated, Enabled, Step;
    ProtocolStates.StepStepsOn(s, a);
    if HasNewRun(s0, s, id) {
      var r :| r in s.t.runs && r !in s0.t.runs && s.t.runs[r].job == id && s.t.runs[r].parents == [];
      assert Step(s, a).t.runs[r].(state := Queued) == s.t.runs[r].(state := Queued);
      assert Step(s, a).t.runs[r].job == s.t.runs[r].(state := Queued).job;
      assert Step(s, a).t.runs[r].parents == s.t.runs[r].(state := Queued).parents;
    }
  }

  lemma {:induction false} StepKeepsSeen(s0: Sys, s: Sys, a: Action, id: JobId, at: Time)
    requires ProtocolHolds.SysOk(s) && ProtocolStates.Stated(s)
    requires IsSeen(s0, s, id, at) && Enabled(s, a) && LeavesFire(a, id)
    ensures IsSeen(s0, Step(s, a), id, at)
  {
    hide HasFire, IsPlain, IsAtSilentRisk, Overwrites, HasNewRun, ProtocolHolds.SysOk, ProtocolStates.Stated,
         TaskEnabled, ApiEnabled, TickStep, TaskStep, ApiStep;
    NewRunStays(s0, s, a, id);
    if !HasNewRun(s0, s, id) {
      match a
      case Tick(tick) =>
        if tick.Store? && s.pc.job.id == id {
          StoreIsSeen(s0, s, id);
        } else {
          if s.pc.Advancing? && Overwrites(s.pc.job, s.pc.at.now, id, at) {
            HandIsAtRisk(s.pc, id, at);
          }
          hide TickEnabled;
          TickKeepsPlain(s, tick, id, at);
          SilentRiskGoesOn(s, tick, id, at);
        }
      case Work(task) => WorkKeepsFire(s, task, id, at);
      case Api(api) => ApiKeepsFire(s, api, id, at);
    }
  }

  lemma {:induction false} SeenLasts(s0: Sys, s: Sys, actions: seq<Action>, s': Sys, id: JobId, at: Time)
    requires ProtocolHolds.SysOk(s) && ProtocolStates.Stated(s)
    requires IsSeen(s0, s, id, at) && Leads(s, actions, s') && LeaveFire(actions, id)
    ensures HasNewRun(s0, s', id) || HasFire(s', id, at)
    decreases |actions|
  {
    hide IsPlain, IsAtSilentRisk, HasFire, HasNewRun, Enabled, Step, LeavesFire, ProtocolHolds.SysOk,
         ProtocolStates.Stated;
    if actions != [] {
      ProtocolHolds.StepKeepsSysOk(s, actions[0]);
      ProtocolStates.StepKeepsStated(s, actions[0]);
      StepKeepsSeen(s0, s, actions[0], id, at);
      SeenLasts(s0, Step(s, actions[0]), actions[1..], s', id, at);
    }
  }
}
