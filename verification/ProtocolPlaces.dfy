/** Where a run can be: in at most one place at a time, and never back in an earlier one. */
module ProtocolPlaces {
  import opened Core
  import opened Resources
  import opened Scheduler
  import opened Protocol

  /** The run the tick loop is working on. */
  function Hand(pc: Pc): Option<RunId> {
    match pc
    case Held(_, _, run, _) => Some(run)
    case Stored(_, _, run, _) => Some(run)
    case CondStored(_, _, run, _) => Some(run)
    case _ => None
  }

  predicate InQueue(queue: seq<Intent>, r: RunId) {
    exists i :: 0 <= i < |queue| && queue[i].run.id == r
  }

  /** Past the queue and the tasks for good. */
  function Over(s: Sys): set<RunId> {
    s.spawnFailed + s.orphans + s.retried
  }

  ghost predicate HandPlaced(s: Sys) {
    Hand(s.pc).Some? ==>
      var r := Hand(s.pc).value;
      r < s.t.nextRun && r !in s.senders && !InQueue(s.t.queue, r) && r !in s.tasks && r !in Over(s)
  }

  ghost predicate SendersPlaced(s: Sys) {
    forall r :: r in s.senders ==>
      r < s.t.nextRun && s.senders[r].run.id == r && !InQueue(s.t.queue, r) && r !in s.tasks && r !in Over(s)
  }

  ghost predicate QueuePlaced(s: Sys) {
    && (forall i :: 0 <= i < |s.t.queue| ==>
          var r := s.t.queue[i].run.id; r < s.t.nextRun && r !in s.tasks && r !in Over(s))
    && (forall i, j :: 0 <= i < j < |s.t.queue| ==> s.t.queue[i].run.id != s.t.queue[j].run.id)
  }

  ghost predicate TasksPlaced(s: Sys) {
    forall r :: r in s.tasks ==> r < s.t.nextRun && s.tasks[r].intent.run.id == r && r !in Over(s)
  }

  ghost predicate OverPlaced(s: Sys) {
    && (forall r :: r in Over(s) ==> r < s.t.nextRun)
    && (forall r :: r in s.spawnFailed ==> r !in s.orphans && r !in s.retried)
    && (forall r :: r in s.orphans ==> r !in s.retried)
    && (forall r :: r in s.sleeping ==> r in s.retried && s.sleeping[r].run.id == r)
    && (s.pc.Undoing? ==> s.pc.run in s.orphans)
  }

  ghost predicate Placed(s: Sys) {
    HandPlaced(s) && SendersPlaced(s) && QueuePlaced(s) && TasksPlaced(s) && OverPlaced(s)
  }

  /** All places but the hand of the tick loop. */
  ghost predicate SamePlaces(s: Sys, s': Sys) {
    && s'.t.queue == s.t.queue && s'.senders == s.senders && s'.sleeping == s.sleeping
    && SameOver(s, s')
    && s'.tasks.Keys == s.tasks.Keys && (forall r :: r in s.tasks ==> s'.tasks[r].intent == s.tasks[r].intent)
  }

  ghost predicate SameOver(s: Sys, s': Sys) {
    s'.spawnFailed == s.spawnFailed && s'.orphans == s.orphans && s'.retried == s.retried
  }

  lemma {:induction false} NothingMoves(s: Sys, s': Sys)
    requires Placed(s) && SamePlaces(s, s') && s'.t.nextRun >= s.t.nextRun
    requires Hand(s'.pc) == None || Hand(s'.pc) == Hand(s.pc)
    requires !s'.pc.Undoing? || s'.pc == s.pc
    ensures Placed(s')
  {
    hide InQueue, Hand;
    assert Over(s') == Over(s);
  }

  lemma {:induction false} IntoTheHand(s: Sys, s': Sys)
    requires Placed(s) && SamePlaces(s, s') && s'.t.nextRun == s.t.nextRun + 1
    requires Hand(s'.pc) == Some(s.t.nextRun)
    ensures Placed(s')
  {
    assert s'.pc.Undoing? ==> Hand(s'.pc) == None;
    hide InQueue, Hand;
    assert Over(s') == Over(s);
    NextIsNowhere(s);
  }

  lemma {:induction false} NextIsNowhere(s: Sys)
    requires Placed(s)
    ensures !InQueue(s.t.queue, s.t.nextRun) && s.t.nextRun !in s.senders && s.t.nextRun !in s.tasks
    ensures s.t.nextRun !in Over(s)
  {
  }

  lemma {:induction false} OutOfTheHand(s: Sys, s': Sys, intent: Intent)
    requires Placed(s) && SamePlaces(s, s'.(t := s'.t.(queue := s.t.queue))) && s'.t.nextRun == s.t.nextRun
    requires Hand(s.pc) == Some(intent.run.id) && s'.t.queue == s.t.queue + [intent]
    requires Hand(s'.pc) == None && !s'.pc.Undoing?
    ensures Placed(s')
  {
    hide InQueue;
    assert Over(s') == Over(s);
    QueueGrows(s.t.queue, intent);
    QueueIds(s.t.queue);
  }

  lemma {:induction false} QueueIds(queue: seq<Intent>)
    ensures forall i :: 0 <= i < |queue| ==> InQueue(queue, queue[i].run.id)
  {
  }

  lemma {:induction false} OutOfTheQueue(s: Sys, s': Sys)
    requires Placed(s) && s.t.queue != [] && SameOver(s, s')
    requires s'.pc == s.pc && s'.senders == s.senders && s'.sleeping == s.sleeping && s'.t.nextRun == s.t.nextRun
    requires s'.t.queue == s.t.queue[1..]
    requires s'.tasks == s.tasks[s.t.queue[0].run.id := Task(s.t.queue[0], Spawning)]
    ensures Placed(s')
  {
    hide InQueue, Hand;
    assert Over(s') == Over(s);
    QueueShrinks(s.t.queue);
    assert s.t.queue[0].run.id !in s.tasks;
    FirstIsAlone(s);
    forall i | 0 <= i < |s'.t.queue|
      ensures s'.t.queue[i] == s.t.queue[i + 1]
    {
    }
  }

  lemma {:induction false} FirstIsAlone(s: Sys)
    requires Placed(s) && s.t.queue != []
    ensures var r := s.t.queue[0].run.id;
            !InQueue(s.t.queue[1..], r) && Hand(s.pc) != Some(r) && r !in s.senders
  {
    var r := s.t.queue[0].run.id;
    assert InQueue(s.t.queue, r);
    assert forall i :: 0 <= i < |s.t.queue[1..]| ==> s.t.queue[1..][i] == s.t.queue[i + 1];
  }

  lemma {:induction false} QueueGrows(queue: seq<Intent>, intent: Intent)
    ensures forall r: RunId :: InQueue(queue + [intent], r) <==> InQueue(queue, r) || r == intent.run.id
  {
    forall r: RunId
      ensures InQueue(queue + [intent], r) <==> InQueue(queue, r) || r == intent.run.id
    {
      if InQueue(queue, r) {
        var i :| 0 <= i < |queue| && queue[i].run.id == r;
        assert (queue + [intent])[i].run.id == r;
      }
      assert (queue + [intent])[|queue|] == intent;
    }
  }

  lemma {:induction false} QueueShrinks(queue: seq<Intent>)
    requires queue != []
    ensures forall r: RunId :: InQueue(queue, r) <==> InQueue(queue[1..], r) || r == queue[0].run.id
  {
    assert [queue[0]] + queue[1..] == queue;
    forall r: RunId
      ensures InQueue(queue, r) <==> InQueue(queue[1..], r) || r == queue[0].run.id
    {
      if InQueue(queue[1..], r) {
        var i :| 0 <= i < |queue[1..]| && queue[1..][i].run.id == r;
        assert queue[i + 1].run.id == r;
      }
      if InQueue(queue, r) && r != queue[0].run.id {
        var i :| 0 <= i < |queue| && queue[i].run.id == r;
        assert queue[1..][i - 1].run.id == r;
      }
    }
  }

  lemma {:induction false} SendKeepsPlaced(s: Sys, a: TickAction, ok: bool)
    requires Placed(s) && TickEnabled(s, a) && (a == Send(ok) || a == CondSend(ok))
    ensures Placed(TickStep(s, a))
  {
    hide TryAcquire, Release, HasActive, IsDueList, IsJobList, IsNext, HasRoom, CanSend, Placed, InQueue;
    var s' := TickStep(s, a);
    if ok {
      OutOfTheHand(s, s', s'.t.queue[|s.t.queue|]);
    } else {
      OrphanKept(s, s', s.pc.run);
    }
  }

  lemma {:induction false} TakeKeepsPlaced(s: Sys, a: TickAction)
    requires Placed(s) && TickEnabled(s, a) && (a == TryHold || a == CondStore)
    ensures Placed(TickStep(s, a))
  {
    hide TryAcquire, Release, HasActive, IsDueList, IsJobList, IsNext, HasRoom, CanSend, Placed, InQueue;
    var s' := TickStep(s, a);
    if Hand(s'.pc).Some? {
      IntoTheHand(s, s');
    } else {
      NothingMoves(s, s');
    }
  }

  lemma {:induction false} TickKeepsPlaced(s: Sys, a: TickAction)
    requires Placed(s) && TickEnabled(s, a)
    ensures Placed(TickStep(s, a))
  {
    hide TryAcquire, Release, HasActive, IsDueList, IsJobList, IsNext, HasRoom, CanSend, Placed, InQueue;
    match a
    case Send(ok) => SendKeepsPlaced(s, a, ok);
    case CondSend(ok) => SendKeepsPlaced(s, a, ok);
    case TryHold => TakeKeepsPlaced(s, a);
    case CondStore => TakeKeepsPlaced(s, a);
    case _ => NothingMoves(s, TickStep(s, a));
  }

  lemma {:induction false} OrphanKept(s: Sys, s': Sys, run: RunId)
    requires Placed(s) && Hand(s.pc) == Some(run)
    requires s' == Orphaned(s, run).(pc := s'.pc) && Hand(s'.pc) == None && (s'.pc.Undoing? ==> s'.pc.run == run)
    ensures Placed(s')
  {
    hide InQueue;
    assert Over(s') == Over(s) + {run};
    QueueIds(s.t.queue);
  }

  lemma {:induction false} TaskEndKeepsPlaced(s: Sys, a: TaskAction, run: RunId)
    requires Placed(s) && TaskEnabled(s, a) && (a == SpawnFail(run) || a == Leave(run))
    ensures Placed(TaskStep(s, a))
  {
    hide Release, HasRoom, Placed, ShouldRetry;
    TaskEnds(s, TaskStep(s, a), run);
  }

  lemma {:induction false} TaskKeepsPlaced(s: Sys, a: TaskAction)
    requires Placed(s) && TaskEnabled(s, a)
    ensures Placed(TaskStep(s, a))
  {
    hide Release, HasRoom, Placed, InQueue, Hand, Over;
    match a
    case Dequeue => OutOfTheQueue(s, TaskStep(s, a));
    case SpawnFail(run) => TaskEndKeepsPlaced(s, a, run);
    case Start(run) => NothingMoves(s, TaskStep(s, a));
    case Finish(run, _) => NothingMoves(s, TaskStep(s, a));
    case Leave(run) => TaskEndKeepsPlaced(s, a, run);
    case Wake(parent) => IntoTheSenders(s, TaskStep(s, a), parent);
    case Deliver(run) => OutOfTheSenders(s, TaskStep(s, a), run);
  }

  lemma {:induction false} TaskEnds(s: Sys, s': Sys, run: RunId)
    requires Placed(s) && run in s.tasks && s'.tasks == s.tasks - {run}
    requires s'.pc == s.pc && s'.senders == s.senders && s'.t.queue == s.t.queue && s'.t.nextRun == s.t.nextRun
    requires s'.orphans == s.orphans
    requires || (s'.spawnFailed == s.spawnFailed + {run} && s'.retried == s.retried && s'.sleeping == s.sleeping)
             || (s'.spawnFailed == s.spawnFailed && s'.retried == s.retried && s'.sleeping == s.sleeping)
             || (s'.spawnFailed == s.spawnFailed && s'.retried == s.retried + {run}
                 && s'.sleeping == s.sleeping[run := s.tasks[run].intent])
    ensures Placed(s')
  {
    hide InQueue, Hand;
    assert Over(s') <= Over(s) + {run};
    TaskIsAlone(s, run);
  }

  lemma {:induction false} TaskIsAlone(s: Sys, run: RunId)
    requires Placed(s) && run in s.tasks
    ensures Hand(s.pc) != Some(run) && run !in s.senders && !InQueue(s.t.queue, run) && run !in Over(s)
    ensures forall i :: 0 <= i < |s.t.queue| ==> s.t.queue[i].run.id != run
  {
  }

  lemma {:induction false} IntoTheSenders(s: Sys, s': Sys, parent: RunId)
    requires Placed(s) && parent in s.sleeping && s'.sleeping == s.sleeping - {parent} && SameOver(s, s')
    requires s'.tasks == s.tasks && s'.pc == s.pc && s'.t.queue == s.t.queue
    requires s'.t.nextRun == s.t.nextRun + 1 && s'.senders.Keys == s.senders.Keys + {s.t.nextRun}
    requires s'.senders[s.t.nextRun].run.id == s.t.nextRun
    requires forall r :: r in s.senders ==> s'.senders[r] == s.senders[r] || r == s.t.nextRun
    ensures Placed(s')
  {
    hide InQueue, Hand;
    assert Over(s') == Over(s);
    NextIsNowhere(s);
  }

  lemma {:induction false} OutOfTheSenders(s: Sys, s': Sys, run: RunId)
    requires Placed(s) && run in s.senders && s'.senders == s.senders - {run} && SameOver(s, s')
    requires s'.tasks == s.tasks && s'.pc == s.pc && s'.sleeping == s.sleeping
    requires s'.t.nextRun == s.t.nextRun && s'.t.queue == s.t.queue + [s.senders[run]]
    ensures Placed(s')
  {
    hide InQueue, Hand;
    assert Over(s') == Over(s);
    QueueGrows(s.t.queue, s.senders[run]);
    QueueIds(s.t.queue);
  }

  lemma {:induction false} ApiKeepsPlaced(s: Sys, a: ApiAction)
    requires Placed(s) && ApiEnabled(s, a)
    ensures Placed(ApiStep(s, a))
  {
    hide Release, DropResource, Known, Placed;
    match a
    case ChangeStatus(_, _) => NothingMoves(s, ApiStep(s, a));
    case ChangeRelease(_) => NothingMoves(s, ApiStep(s, a));
    case SetFire(_, _) => NothingMoves(s, ApiStep(s, a));
    case _ => NothingMoves(s, ApiStep(s, a));
  }

  lemma {:induction false} StepKeepsPlaced(s: Sys, a: Action)
    requires Placed(s) && Enabled(s, a)
    ensures Placed(Step(s, a))
  {
    hide Placed, TickEnabled, TaskEnabled, ApiEnabled, TickStep, TaskStep, ApiStep;
    match a
    case Tick(tick) => TickKeepsPlaced(s, tick);
    case Work(task) => TaskKeepsPlaced(s, task);
    case Api(api) => ApiKeepsPlaced(s, api);
  }
}
