/** Retries: every chain of attempts is linear, and no longer than the job it started with allows. */
module ProtocolRetries {
  import opened Core
  import opened Resources
  import opened Scheduler
  import opened Protocol
  import opened ProtocolPlaces
  import opened ProtocolHolds
  import opened ProtocolStates

  // ----- Links between rows -----

  /** A first attempt has no parent; any other has one, the previous attempt of the same job at the same snapshot. */
  ghost predicate Linked(s: Sys, r: RunId)
    requires r in s.t.runs
  {
    var run := s.t.runs[r];
    && r in s.carried && s.carried[r].id == run.job && IsJob(s.carried[r])
    && 1 <= run.attempt <= s.carried[r].maxAttempts
    && (run.attempt == 1 ==> run.parents == [])
    && (run.attempt > 1 ==>
          && |run.parents| == 1
          && var p := run.parents[0];
             && p in s.retried && p in s.t.runs && p in s.carried
             && s.t.runs[p].job == run.job && s.t.runs[p].attempt == run.attempt - 1 && s.carried[p] == s.carried[r])
  }

  ghost predicate AllLinked(s: Sys) {
    forall r :: r in s.t.runs ==> Linked(s, r)
  }

  predicate IsChild(s: Sys, r: RunId, p: RunId) {
    r in s.t.runs && s.t.runs[r].parents == [p]
  }

  ghost predicate OneChild(s: Sys) {
    && (forall r, q, p :: IsChild(s, r, p) && IsChild(s, q, p) ==> r == q)
    && (forall r, p :: p in s.sleeping ==> !IsChild(s, r, p))
  }

  // ----- Intents -----

  /** The intent is for a stored run, at the snapshot it was created from. */
  predicate Fits(s: Sys, intent: Intent) {
    var r := intent.run.id;
    && r in s.t.runs && r in s.carried
    && intent.job == s.carried[r] && intent.run.attempt == s.t.runs[r].attempt
  }

  function HandIntent(pc: Pc): Option<Intent> {
    match pc
    case Stored(_, job, run, _) => Some(Intent(job, NewRun(run, job.id, 1, [])))
    case CondStored(_, job, run, _) => Some(Intent(job, NewRun(run, job.id, 1, [])))
    case _ => None
  }

  ghost predicate AllFit(s: Sys) {
    && (HandIntent(s.pc).Some? ==> Fits(s, HandIntent(s.pc).value))
    && (forall i :: 0 <= i < |s.t.queue| ==> Fits(s, s.t.queue[i]))
    && (forall r :: r in s.tasks ==> Fits(s, s.tasks[r].intent))
    && (forall r :: r in s.senders ==> Fits(s, s.senders[r]))
    && (forall r :: r in s.sleeping ==> Fits(s, s.sleeping[r]) && ShouldRetry(s.sleeping[r], Failed))
  }

  predicate AreJobs(jobs: seq<Job>) {
    forall i :: 0 <= i < |jobs| ==> IsJob(jobs[i])
  }

  /** The tick loop only works on jobs that have been read from the table. */
  predicate PcJobs(pc: Pc) {
    match pc
    case Idle => true
    case Due(_, rest) => AreJobs(rest)
    case Held(_, job, _, rest) => IsJob(job) && AreJobs(rest)
    case Stored(_, job, _, rest) => IsJob(job) && AreJobs(rest)
    case Undoing(_, _, rest) => AreJobs(rest)
    case Advancing(_, job, rest) => IsJob(job) && AreJobs(rest)
    case Cond(_, rest) => AreJobs(rest)
    case CondChosen(_, job, rest) => IsJob(job) && AreJobs(rest)
    case CondStored(_, job, _, rest) => IsJob(job) && AreJobs(rest)
    case CondAdvancing(_, job, rest) => IsJob(job) && AreJobs(rest)
  }

  ghost predicate Chained(s: Sys) {
    AllLinked(s) && OneChild(s) && AllFit(s) && PcJobs(s.pc)
  }

  // ----- Rows that stay -----

  /** Old rows keep all but their state, and their snapshot. */
  ghost predicate Grows(s: Sys, s': Sys) {
    && s.retried <= s'.retried
    && (forall r :: r in s.t.runs ==> r in s'.t.runs && s'.t.runs[r].(state := Queued) == s.t.runs[r].(state := Queued))
    && (forall r :: r in s.carried ==> r in s'.carried && s'.carried[r] == s.carried[r])
  }

  ghost predicate SameLinks(s: Sys, s': Sys) {
    && Grows(s, s') && s'.t.runs.Keys == s.t.runs.Keys
  }

  lemma {:induction false} LinkStays(s: Sys, s': Sys, r: RunId)
    requires Grows(s, s') && r in s.t.runs && Linked(s, r)
    ensures r in s'.t.runs && Linked(s', r)
  {
    assert s'.t.runs[r].job == s.t.runs[r].(state := Queued).job;
    if s.t.runs[r].attempt > 1 {
      var p := s.t.runs[r].parents[0];
      assert s'.t.runs[p].job == s.t.runs[p].(state := Queued).job;
    }
  }

  lemma {:induction false} FitStays(s: Sys, s': Sys, intent: Intent)
    requires Grows(s, s') && Fits(s, intent)
    ensures Fits(s', intent)
  {
    assert s'.t.runs[intent.run.id].attempt == s.t.runs[intent.run.id].(state := Queued).attempt;
  }

  lemma {:induction false} LinksStay(s: Sys, s': Sys)
    requires AllLinked(s) && OneChild(s) && SameLinks(s, s')
    requires forall p :: p in s'.sleeping ==> p in s.sleeping || p !in s.retried
    ensures AllLinked(s') && OneChild(s')
  {
    hide Linked;
    forall r | r in s'.t.runs
      ensures Linked(s', r)
    {
      LinkStays(s, s', r);
    }
    forall r, p
      ensures IsChild(s', r, p) ==> IsChild(s, r, p) && p in s.retried
    {
      if IsChild(s', r, p) {
        assert s'.t.runs[r].parents == s.t.runs[r].(state := Queued).parents;
        ChildOfRetried(s, r, p);
      }
    }
  }

  lemma {:induction false} ChildOfRetried(s: Sys, r: RunId, p: RunId)
    requires AllLinked(s) && IsChild(s, r, p)
    ensures p in s.retried
  {
    assert Linked(s, r);
  }

  /** A first attempt is stored. */
  ghost predicate FirstStored(s: Sys, s': Sys, r: RunId, job: Job) {
    && r !in s.t.runs && s.carried.Keys <= s.t.runs.Keys
    && s'.t.runs == s.t.runs[r := NewRun(r, job.id, 1, [])] && s'.carried == s.carried[r := job]
    && s'.retried == s.retried && s'.sleeping == s.sleeping
  }

  lemma {:induction false} FirstAttempt(s: Sys, s': Sys, r: RunId, job: Job)
    requires AllLinked(s) && OneChild(s) && IsJob(job) && FirstStored(s, s', r, job)
    ensures AllLinked(s') && OneChild(s') && Grows(s, s') && Fits(s', Intent(job, NewRun(r, job.id, 1, [])))
  {
    hide Linked, OneChild, IsJob, Grows;
    FirstGrows(s, s', r, job);
    FirstIsNoChild(s, s', r, job);
    forall q | q in s'.t.runs
      ensures Linked(s', q)
    {
      if q != r {
        LinkStays(s, s', q);
      } else {
        FirstIsLinked(s', r, job);
      }
    }
  }

  lemma {:induction false} FirstGrows(s: Sys, s': Sys, r: RunId, job: Job)
    requires FirstStored(s, s', r, job)
    ensures Grows(s, s')
  {
  }

  lemma {:induction false} FirstIsNoChild(s: Sys, s': Sys, r: RunId, job: Job)
    requires OneChild(s) && FirstStored(s, s', r, job)
    ensures OneChild(s')
  {
    forall q, p
      ensures IsChild(s', q, p) ==> IsChild(s, q, p)
    {
    }
  }

  lemma {:induction false} FirstIsLinked(s: Sys, r: RunId, job: Job)
    requires r in s.t.runs && s.t.runs[r] == NewRun(r, job.id, 1, []) && r in s.carried && s.carried[r] == job
    requires IsJob(job)
    ensures Linked(s, r)
  {
  }

  /** A retry is stored. */
  ghost predicate Retried(s: Sys, s': Sys, r: RunId, p: RunId) {
    && p in s.sleeping && r !in s.t.runs && s.carried.Keys <= s.t.runs.Keys
    && s'.t.runs == s.t.runs[r := NewRun(r, s.sleeping[p].job.id, s.sleeping[p].run.attempt + 1, [p])]
    && s'.carried == s.carried[r := s.sleeping[p].job] && s'.retried == s.retried && s'.sleeping == s.sleeping - {p}
  }

  lemma {:induction false} NextAttempt(s: Sys, s': Sys, r: RunId, p: RunId)
    requires Chained(s) && Placed(s) && Retried(s, s', r, p)
    ensures AllLinked(s') && OneChild(s') && Grows(s, s')
  {
    hide Placed, Linked, OneChild, Retried;
    SleepersAreRetried(s, p);
    RetryGrows(s, s', r, p);
    RetryIsOnlyChild(s, s', r, p);
    forall q | q in s'.t.runs
      ensures Linked(s', q)
    {
      if q != r {
        LinkStays(s, s', q);
      } else {
        RetryIsLinked(s, s', r, p);
      }
    }
  }

  lemma {:induction false} RetryGrows(s: Sys, s': Sys, r: RunId, p: RunId)
    requires Retried(s, s', r, p)
    ensures Grows(s, s') && p in s.sleeping && forall q :: q in s'.t.runs && q != r ==> q in s.t.runs
  {
  }

  lemma {:induction false} RetryIsOnlyChild(s: Sys, s': Sys, r: RunId, p: RunId)
    requires OneChild(s) && Retried(s, s', r, p)
    ensures OneChild(s')
  {
    forall q, o
      ensures IsChild(s', q, o) ==> IsChild(s, q, o) || (q == r && o == p)
    {
    }
  }

  lemma {:induction false} SleepersAreRetried(s: Sys, p: RunId)
    requires Placed(s)
    ensures p in s.sleeping ==> p in s.retried && s.sleeping[p].run.id == p
  {
  }

  lemma {:induction false} RetryIsLinked(s: Sys, s': Sys, r: RunId, p: RunId)
    requires Retried(s, s', r, p) && AllLinked(s) && AllFit(s) && p in s.retried && s.sleeping[p].run.id == p
    ensures Linked(s', r)
  {
    assert Fits(s, s.sleeping[p]);
    assert Linked(s, p);
  }

  // ----- Steps -----

  ghost predicate SnapshotsStored(s: Sys) {
    s.carried.Keys <= s.t.runs.Keys
  }

  ghost predicate RetryInv(s: Sys) {
    Chained(s) && SnapshotsStored(s)
  }

  lemma {:induction false} RowsAreJobs(t: Tables, rows: seq<Job>)
    requires Keyed(t) && forall i :: 0 <= i < |rows| ==> rows[i].id in t.jobs && t.jobs[rows[i].id] == rows[i]
    ensures AreJobs(rows)
  {
  }

  lemma {:induction false} TickKeepsPcJobs(s: Sys, a: TickAction)
    requires Keyed(s.t) && PcJobs(s.pc) && TickEnabled(s, a)
    ensures PcJobs(TickStep(s, a).pc)
  {
    hide Keyed, IsJob, TryAcquire, Release, HasActive, IsNext, HasRoom, CanSend, SetNextFire;
    match a
    case Begin(at, due) => RowsAreJobs(s.t, due);
    case List(all) => RowsAreJobs(s.t, all);
    case _ =>
  }

  /** No new row and no new intent but, perhaps, the one in hand going into the queue. */
  lemma {:induction false} IntentsStay(s: Sys, s': Sys)
    requires AllFit(s) && Grows(s, s')
    requires s'.tasks == s.tasks && s'.senders == s.senders && s'.sleeping == s.sleeping
    requires s'.t.queue == s.t.queue || (HandIntent(s.pc).Some? && s'.t.queue == s.t.queue + [HandIntent(s.pc).value])
    requires HandIntent(s'.pc).Some? ==> HandIntent(s'.pc) == HandIntent(s.pc) || Fits(s', HandIntent(s'.pc).value)
    ensures AllFit(s')
  {
    hide Fits, Grows, ShouldRetry, HandIntent;
    forall intent | Fits(s, intent)
      ensures Fits(s', intent)
    {
      FitStays(s, s', intent);
    }
  }

  lemma {:induction false} Unchanged(s: Sys, s': Sys)
    requires s'.t.runs == s.t.runs && s'.carried == s.carried && s'.retried == s.retried
    ensures SameLinks(s, s')
  {
  }

  lemma {:induction false} StoreKeepsRetryInv(s: Sys, a: TickAction)
    requires SysOk(s) && Stated(s) && RetryInv(s) && TickEnabled(s, a) && (a == Store || a == CondStore)
    ensures AllLinked(TickStep(s, a)) && OneChild(TickStep(s, a)) && AllFit(TickStep(s, a))
    ensures SnapshotsStored(TickStep(s, a))
  {
    hide TablesOk, Placed, Stated, AllLinked, OneChild, AllFit, PcJobs, TryAcquire, Release, HasActive, IsDueList,
         IsJobList, IsNext, HasRoom, CanSend, Grows, Fits;
    var s' := TickStep(s, a);
    FreshIsUnknown(s);
    PcJobIsJob(s.pc);
    FirstAttempt(s, s', if a == Store then s.pc.run else s.t.nextRun, s.pc.job);
    IntentsStay(s, s');
  }

  lemma {:induction false} TickKeepsRetryInv(s: Sys, a: TickAction)
    requires SysOk(s) && Stated(s) && RetryInv(s) && TickEnabled(s, a)
    ensures RetryInv(TickStep(s, a))
  {
    hide SysOk, Stated, AllLinked, OneChild, AllFit, PcJobs, TryAcquire, Release, HasActive, IsDueList, IsJobList,
         IsNext, HasRoom, CanSend, SetNextFire, Grows, Fits;
    assert Keyed(s.t) by { TablesAreKeyed(s); }
    TickKeepsPcJobs(s, a);
    match a
    case Store => StoreKeepsRetryInv(s, a);
    case CondStore => StoreKeepsRetryInv(s, a);
    case _ =>
      SetNextKeepsRuns(s.t);
      RowsKeepRetryInv(s, TickStep(s, a));
  }

  lemma {:induction false} RowsKeepRetryInv(s: Sys, s': Sys)
    requires AllLinked(s) && OneChild(s) && AllFit(s)
    requires s'.t.runs == s.t.runs && s'.carried == s.carried && s'.retried == s.retried
    requires s'.tasks == s.tasks && s'.senders == s.senders && s'.sleeping == s.sleeping
    requires s'.t.queue == s.t.queue || (HandIntent(s.pc).Some? && s'.t.queue == s.t.queue + [HandIntent(s.pc).value])
    requires HandIntent(s'.pc).Some? ==> HandIntent(s'.pc) == HandIntent(s.pc)
    ensures AllLinked(s') && OneChild(s') && AllFit(s')
  {
    hide AllLinked, OneChild, AllFit, HandIntent;
    Unchanged(s, s');
    LinksStay(s, s');
    IntentsStay(s, s');
  }

  lemma {:induction false} TablesAreKeyed(s: Sys)
    requires SysOk(s)
    ensures Keyed(s.t)
  {
  }

  lemma {:induction false} PcJobIsJob(pc: Pc)
    requires PcJobs(pc)
    ensures pc.Held? || pc.CondChosen? ==> IsJob(pc.job)
  {
  }

  lemma {:induction false} TaskKeepsRetryInv(s: Sys, a: TaskAction)
    requires SysOk(s) && Stated(s) && RetryInv(s) && TaskEnabled(s, a)
    ensures RetryInv(TaskStep(s, a))
  {
    hide TablesOk, Placed, Stated, AllLinked, OneChild, AllFit, PcJobs, Release, HasRoom, Grows, Fits, ShouldRetry;
    var s' := TaskStep(s, a);
    FreshIsUnknown(s);
    match a
    case Wake(p) =>
      NextAttempt(s, s', s.t.nextRun, p);
      RetryWoke(s, s', p);
    case Leave(r) =>
      TaskIsNotRetried(s, r);
      Retrying(s, s');
      LinksStay(s, s');
      TaskLeaves(s, s', r);
    case Dequeue =>
      Unchanged(s, s');
      LinksStay(s, s');
      IntentDequeued(s, s');
    case Deliver(r) =>
      Unchanged(s, s');
      LinksStay(s, s');
      IntentDelivered(s, s', r);
    case SpawnFail(r) =>
      UpdateKeepsLinks(s, s', r);
      LinksStay(s, s');
      TaskMoves(s, s');
    case Start(r) =>
      UpdateKeepsLinks(s, s', r);
      LinksStay(s, s');
      TaskMoves(s, s');
    case Finish(r, _) =>
      UpdateKeepsLinks(s, s', r);
      LinksStay(s, s');
      TaskMoves(s, s');
  }

  lemma {:induction false} TaskIsNotRetried(s: Sys, r: RunId)
    requires Placed(s) && r in s.tasks
    ensures r !in s.retried && s.tasks[r].intent.run.id == r
  {
  }

  lemma {:induction false} Retrying(s: Sys, s': Sys)
    requires s'.t.runs == s.t.runs && s'.carried == s.carried && s.retried <= s'.retried
    ensures SameLinks(s, s')
  {
  }

  lemma {:induction false} UpdateKeepsLinks(s: Sys, s': Sys, r: RunId)
    requires exists state :: s'.t.runs == UpdateState(s.t, r, state).runs
    requires s'.carried == s.carried && s'.retried == s.retried
    ensures SameLinks(s, s')
  {
  }

  lemma {:induction false} RetryWoke(s: Sys, s': Sys, p: RunId)
    requires Chained(s) && p in s.sleeping && Grows(s, s') && s'.pc == s.pc && s'.tasks == s.tasks
    requires s'.t.queue == s.t.queue
    requires s'.sleeping == s.sleeping - {p}
    requires var run := NewRun(s.t.nextRun, s.sleeping[p].job.id, s.sleeping[p].run.attempt + 1, [p]);
             && s'.senders == s.senders[s.t.nextRun := Intent(s.sleeping[p].job, run)]
             && s'.t.runs == s.t.runs[s.t.nextRun := run] && s'.carried == s.carried[s.t.nextRun := s.sleeping[p].job]
    ensures AllFit(s')
  {
    hide AllLinked, OneChild, Grows, ShouldRetry, HandIntent, PcJobs;
    assert Fits(s', s'.senders[s.t.nextRun]);
    FitsStay(s, s');
  }

  lemma {:induction false} FitsStay(s: Sys, s': Sys)
    requires Grows(s, s')
    ensures forall intent :: Fits(s, intent) ==> Fits(s', intent)
  {
    hide Fits, Grows;
    forall intent | Fits(s, intent)
      ensures Fits(s', intent)
    {
      FitStays(s, s', intent);
    }
  }

  lemma {:induction false} TaskLeaves(s: Sys, s': Sys, r: RunId)
    requires AllFit(s) && Grows(s, s') && r in s.tasks && s.tasks[r].phase.Ended? && s'.tasks == s.tasks - {r}
    requires s'.pc == s.pc && s'.t.queue == s.t.queue && s'.senders == s.senders
    requires || s'.sleeping == s.sleeping
             || (s'.sleeping == s.sleeping[r := s.tasks[r].intent]
                 && ShouldRetry(s.tasks[r].intent, s.tasks[r].phase.outcome))
    ensures AllFit(s')
  {
    hide Fits, Grows, HandIntent;
    FitsStay(s, s');
  }

  lemma {:induction false} IntentDequeued(s: Sys, s': Sys)
    requires AllFit(s) && Grows(s, s') && s.t.queue != [] && s'.t.queue == s.t.queue[1..]
    requires s'.tasks == s.tasks[s.t.queue[0].run.id := Task(s.t.queue[0], Spawning)]
    requires s'.pc == s.pc && s'.sleeping == s.sleeping && s'.senders == s.senders
    ensures AllFit(s')
  {
    hide Fits, Grows, HandIntent, ShouldRetry;
    FitsStay(s, s');
    assert forall i :: 0 <= i < |s'.t.queue| ==> s'.t.queue[i] == s.t.queue[i + 1];
  }

  lemma {:induction false} IntentDelivered(s: Sys, s': Sys, r: RunId)
    requires AllFit(s) && Grows(s, s') && r in s.senders && s'.t.queue == s.t.queue + [s.senders[r]]
    requires s'.pc == s.pc && s'.sleeping == s.sleeping && s'.senders == s.senders - {r} && s'.tasks == s.tasks
    ensures AllFit(s')
  {
    hide Fits, Grows, HandIntent, ShouldRetry;
    FitsStay(s, s');
  }

  lemma {:induction false} TaskMoves(s: Sys, s': Sys)
    requires AllFit(s) && Grows(s, s') && s'.pc == s.pc && s'.sleeping == s.sleeping && s'.senders == s.senders
    requires s'.t.queue == s.t.queue
    requires forall r :: r in s'.tasks ==> r in s.tasks && s'.tasks[r].intent == s.tasks[r].intent
    ensures AllFit(s')
  {
    hide Fits, Grows, HandIntent, ShouldRetry;
    FitsStay(s, s');
  }

  lemma {:induction false} ApiKeepsRetryInv(s: Sys, a: ApiAction)
    requires RetryInv(s) && ApiEnabled(s, a)
    ensures RetryInv(ApiStep(s, a))
  {
    hide AllLinked, OneChild, AllFit, PcJobs, Release, DropResource, Known, SetNextFire, Grows;
    var s' := ApiStep(s, a);
    SetNextKeepsRuns(s.t);
    match a
    case ChangeStatus(r, state) =>
      UpdateKeepsLinks(s, s', r);
      LinksStay(s, s');
      TaskMoves(s, s');
    case _ =>
      Unchanged(s, s');
      LinksStay(s, s');
      TaskMoves(s, s');
  }

  lemma {:induction false} StepKeepsRetryInv(s: Sys, a: Action)
    requires SysOk(s) && Stated(s) && RetryInv(s) && Enabled(s, a)
    ensures RetryInv(Step(s, a))
  {
    hide SysOk, Stated, RetryInv, TickEnabled, TaskEnabled, ApiEnabled, TickStep, TaskStep, ApiStep;
    match a
    case Tick(tick) => TickKeepsRetryInv(s, tick);
    case Work(task) => TaskKeepsRetryInv(s, task);
    case Api(api) => ApiKeepsRetryInv(s, api);
  }

  lemma {:induction false} LeadsKeepsRetryInv(s: Sys, actions: seq<Action>, s': Sys)
    requires SysOk(s) && Stated(s) && RetryInv(s) && Leads(s, actions, s')
    ensures RetryInv(s')
    decreases |actions|
  {
    hide SysOk, Stated, RetryInv, Enabled, Step;
    if actions != [] {
      StepKeepsSysOk(s, actions[0]);
      StepKeepsStated(s, actions[0]);
      StepKeepsRetryInv(s, actions[0]);
      LeadsKeepsRetryInv(Step(s, actions[0]), actions[1..], s');
    }
  }

  // ----- Every reachable state -----

  lemma {:induction false} ReachableIsChained(s: Sys)
    requires Reachable(s)
    ensures Chained(s) && Stated(s)
  {
    hide SysOk, Leads, Stated;
    ReachableIsStated(s);
    var cap: nat, actions: seq<Action> :| Leads(Init(cap), actions, s);
    InitOk(cap);
    InitIsStated(cap);
    LeadsKeepsRetryInv(Init(cap), actions, s);
  }

  lemma {:induction false} InitIsStated(cap: nat)
    ensures Stated(Init(cap))
  {
  }

  /** The attempts that led to a run, the first one first. */
  ghost function Chain(s: Sys, r: RunId): seq<RunId>
    requires AllLinked(s) && r in s.t.runs
    decreases s.t.runs[r].attempt
  {
    assert Linked(s, r);
    if s.t.runs[r].attempt == 1 then [r] else Chain(s, s.t.runs[r].parents[0]) + [r]
  }

  /**
   * In every reachable state the attempts before a run form a chain as long
   * as its attempt number: the k-th has attempt k, all are runs of one job at
   * one snapshot, whose `max_attempts` bounds the chain, and all but the last
   * ended Failed, as far as no operator says otherwise.
   */
  lemma {:induction false} RetryChainsAreBounded(s: Sys, r: RunId)
    requires Reachable(s) && r in s.t.runs
    ensures AllLinked(s)
    ensures r in s.carried && |Chain(s, r)| == s.t.runs[r].attempt <= s.carried[r].maxAttempts
    ensures forall k :: 0 <= k < |Chain(s, r)| ==>
              var q := Chain(s, r)[k];
              && q in s.t.runs && q in s.carried
              && s.t.runs[q].attempt == k + 1 && s.t.runs[q].job == s.t.runs[r].job && s.carried[q] == s.carried[r]
              && (k < |Chain(s, r)| - 1 && q !in s.touched ==> s.t.runs[q].state == Failed)
  {
    hide Reachable, OneChild, AllFit, HandState, QueueState, TaskState, ActivePlaced;
    ReachableIsChained(s);
    ChainOf(s, r);
  }

  lemma {:induction false} ChainOf(s: Sys, r: RunId)
    requires AllLinked(s) && OtherState(s) && r in s.t.runs
    ensures r in s.carried && |Chain(s, r)| == s.t.runs[r].attempt <= s.carried[r].maxAttempts
    ensures forall k :: 0 <= k < |Chain(s, r)| ==>
              var q := Chain(s, r)[k];
              && q in s.t.runs && q in s.carried
              && s.t.runs[q].attempt == k + 1 && s.t.runs[q].job == s.t.runs[r].job && s.carried[q] == s.carried[r]
              && (k < |Chain(s, r)| - 1 && q !in s.touched ==> s.t.runs[q].state == Failed)
    decreases s.t.runs[r].attempt
  {
    assert Linked(s, r);
    if s.t.runs[r].attempt > 1 {
      var p := s.t.runs[r].parents[0];
      ChainOf(s, p);
      assert Chain(s, p)[|Chain(s, p)| - 1] == p;
      assert Expect(s, p, Failed);
    }
  }

  /** A run is retried at most once: no two runs have the same parent. */
  lemma {:induction false} OneRetryPerRun(s: Sys, r: RunId, q: RunId, p: RunId)
    requires Reachable(s) && IsChild(s, r, p) && IsChild(s, q, p)
    ensures r == q && p in s.retried
  {
    hide Reachable, AllFit, PcJobs, Stated;
    ReachableIsChained(s);
    ChildOfRetried(s, r, p);
  }
}
