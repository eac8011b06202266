/** The dispatch queue over whole histories: runs begin in the order in which they were sent. */
module ProtocolQueue {
  import opened Core
  import opened Resources
  import opened Scheduler
  import opened Protocol
  import opened ProtocolPlaces

  predicate IsSend(a: Action) {
    || (a.Tick? && a.tick in {TickAction.Send(true), TickAction.CondSend(true)})
    || (a.Work? && a.task.Deliver?)
  }

  /** The tick loop sends a first attempt of the job in its hand; a waiting sender sends its own. */
  ghost predicate Sends(s: Sys, a: Action, intent: Intent) {
    match a
    case Tick(_) =>
      && (s.pc.Stored? || s.pc.CondStored?)
      && intent == Intent(s.pc.job, Run(s.pc.run, s.pc.job.id, Queued, 1, []))
    case Work(Deliver(run)) => run in s.senders && intent == s.senders[run]
    case _ => false
  }

  /** A task for the intent appears. */
  ghost predicate Begins(s: Sys, s': Sys, intent: Intent) {
    intent.run.id !in s.tasks && s'.tasks == s.tasks[intent.run.id := Task(intent, Spawning)]
  }

  /** A history that sends these intents and begins those, each in this order. */
  ghost predicate Moves(s: Sys, actions: seq<Action>, sent: seq<Intent>, begun: seq<Intent>, s': Sys)
    decreases |actions|
  {
    if actions == [] then s' == s && sent == [] && begun == []
    else
      && Enabled(s, actions[0])
      && var (a, s1) := (actions[0], Step(s, actions[0]));
         if a == Work(Dequeue) then
           begun != [] && Begins(s, s1, begun[0]) && Moves(s1, actions[1..], sent, begun[1..], s')
         else if IsSend(a) then
           sent != [] && Sends(s, a, sent[0]) && Moves(s1, actions[1..], sent[1..], begun, s')
         else Moves(s1, actions[1..], sent, begun, s')
  }

  // ----- One step -----

  lemma {:induction false} SendGoesLast(s: Sys, a: Action, intent: Intent)
    requires Enabled(s, a) && IsSend(a)
    ensures Sends(s, a, intent) ==> Step(s, a).t.queue == s.t.queue + [intent] && |s.t.queue| < s.t.cap
  {
  }

  lemma {:induction false} SomethingIsSent(s: Sys, a: Action)
    requires Enabled(s, a) && IsSend(a)
    ensures exists intent :: Sends(s, a, intent)
  {
    if a.Tick? {
      assert Sends(s, a, Intent(s.pc.job, Run(s.pc.run, s.pc.job.id, Queued, 1, [])));
    } else {
      assert Sends(s, a, s.senders[a.task.run]);
    }
  }

  lemma {:induction false} FirstBegins(s: Sys, intent: Intent)
    requires Placed(s) && s.t.queue != []
    ensures Begins(s, TaskStep(s, Dequeue), s.t.queue[0])
    ensures Begins(s, TaskStep(s, Dequeue), intent) ==> intent == s.t.queue[0]
    ensures TaskStep(s, Dequeue).t.queue == s.t.queue[1..]
  {
    var first := s.t.queue[0];
    var tasks' := s.tasks[first.run.id := Task(first, Spawning)];
    if Begins(s, TaskStep(s, Dequeue), intent) {
      assert intent.run.id in tasks';
      assert tasks'[intent.run.id] == Task(intent, Spawning);
    }
  }

  lemma {:induction false} UpdatesKeepTheQueue(t: Tables, r: RunId, state: RunState, id: JobId, next: Option<Time>)
    ensures var t' := UpdateState(t, r, state); t'.queue == t.queue && t'.cap == t.cap
    ensures var t' := SetNextFire(t, id, next); t'.queue == t.queue && t'.cap == t.cap
  {
  }

  lemma {:induction false} TickKeepsTheQueue(s: Sys, a: TickAction)
    requires TickEnabled(s, a)
    ensures TickStep(s, a).t.cap == s.t.cap
    ensures !IsSend(Tick(a)) ==> TickStep(s, a).t.queue == s.t.queue
  {
    hide TryAcquire, Release, SetNextFire, HasActive, IsDueList, IsJobList, Allows;
    match a
    case Advance(next) => UpdatesKeepTheQueue(s.t, 0, Queued, s.pc.job.id, next);
    case CondAdvance => UpdatesKeepTheQueue(s.t, 0, Queued, s.pc.job.id, None);
    case _ =>
  }

  lemma {:induction false} TaskKeepsTheQueue(s: Sys, a: TaskAction)
    requires TaskEnabled(s, a)
    ensures TaskStep(s, a).t.cap == s.t.cap
    ensures a != Dequeue && !a.Deliver? ==> TaskStep(s, a).t.queue == s.t.queue
  {
    hide Release, UpdateState, ShouldRetry;
    match a
    case SpawnFail(run) => UpdatesKeepTheQueue(s.t, run, Failed, 0, None);
    case Start(run) => UpdatesKeepTheQueue(s.t, run, Running, 0, None);
    case Finish(run, outcome) => UpdatesKeepTheQueue(s.t, run, outcome, 0, None);
    case _ =>
  }

  lemma {:induction false} CallKeepsTheQueue(s: Sys, a: ApiAction)
    requires ApiEnabled(s, a)
    ensures ApiStep(s, a).t.queue == s.t.queue && ApiStep(s, a).t.cap == s.t.cap
  {
    hide Release, UpdateState, SetNextFire, DropResource, Known;
    match a
    case SetFire(id, next) => UpdatesKeepTheQueue(s.t, 0, Queued, id, next);
    case ChangeStatus(run, state) => UpdatesKeepTheQueue(s.t, run, state, 0, None);
    case _ =>
  }

  lemma {:induction false} OthersKeepTheQueue(s: Sys, a: Action)
    requires Enabled(s, a)
    ensures Step(s, a).t.cap == s.t.cap
    ensures a != Work(Dequeue) && !IsSend(a) ==> Step(s, a).t.queue == s.t.queue
  {
    hide TickStep, TickEnabled, TaskStep, TaskEnabled, ApiStep, ApiEnabled;
    match a
    case Tick(tick) => TickKeepsTheQueue(s, tick);
    case Work(task) => TaskKeepsTheQueue(s, task);
    case Api(api) => CallKeepsTheQueue(s, api);
  }

  // ----- Whole histories -----

  /** What was queued and sent is what was begun and is queued still, in this order. */
  lemma {:induction false} QueueIsFifo(s: Sys, actions: seq<Action>, sent: seq<Intent>, begun: seq<Intent>, s': Sys)
    requires Placed(s) && Moves(s, actions, sent, begun, s')
    ensures s.t.queue + sent == begun + s'.t.queue
    decreases |actions|
  {
    hide Enabled, Step, Placed, IsSend, Sends, Begins;
    if actions != [] {
      var a, s1, rest := actions[0], Step(s, actions[0]), actions[1..];
      StepKeepsPlaced(s, a);
      if a == Work(Dequeue) {
        QueueIsFifo(s1, rest, sent, begun[1..], s');
        DequeueStep(s);
        FirstBegins(s, begun[0]);
        assert s.t.queue + sent == [s.t.queue[0]] + (s.t.queue[1..] + sent);
      } else if IsSend(a) {
        QueueIsFifo(s1, rest, sent[1..], begun, s');
        SendGoesLast(s, a, sent[0]);
        assert s.t.queue + sent == s.t.queue + [sent[0]] + sent[1..];
      } else {
        QueueIsFifo(s1, rest, sent, begun, s');
        OthersKeepTheQueue(s, a);
      }
    }
  }

  lemma {:induction false} DequeueStep(s: Sys)
    requires Enabled(s, Work(Dequeue))
    ensures s.t.queue != [] && Step(s, Work(Dequeue)) == TaskStep(s, Dequeue)
  {
  }

  /** Every history is one that sends and begins. */
  lemma {:induction false} HistoryMoves(s: Sys, actions: seq<Action>, s': Sys)
    returns (sent: seq<Intent>, begun: seq<Intent>)
    requires Placed(s) && Leads(s, actions, s') && |s.t.queue| <= s.t.cap
    ensures Moves(s, actions, sent, begun, s') && |s'.t.queue| <= s'.t.cap == s.t.cap
    decreases |actions|
  {
    hide Enabled, Step, Placed, IsSend, Sends, Begins;
    if actions == [] {
      return [], [];
    }
    var a, s1 := actions[0], Step(s, actions[0]);
    StepKeepsPlaced(s, a);
    OthersKeepTheQueue(s, a);
    if a == Work(Dequeue) {
      DequeueStep(s);
      FirstBegins(s, s.t.queue[0]);
      sent, begun := HistoryMoves(s1, actions[1..], s');
      begun := [s.t.queue[0]] + begun;
    } else if IsSend(a) {
      var first := SentBy(s, a);
      sent, begun := HistoryMoves(s1, actions[1..], s');
      sent := [first] + sent;
    } else {
      sent, begun := HistoryMoves(s1, actions[1..], s');
    }
  }

  lemma {:induction false} SentBy(s: Sys, a: Action) returns (intent: Intent)
    requires Enabled(s, a) && IsSend(a)
    ensures Sends(s, a, intent) && Step(s, a).t.queue == s.t.queue + [intent] && |s.t.queue| < s.t.cap
  {
    hide Enabled, Step, Sends;
    SomethingIsSent(s, a);
    intent :| Sends(s, a, intent);
    SendGoesLast(s, a, intent);
  }

  /**
   * From the start: whatever tick loop, tasks, senders and callers do, runs
   * begin in the order in which they were sent, none is passed over or begun
   * twice, and the queue never outgrows its capacity.
   */
  lemma {:induction false} RunsBeginInOrder(cap: nat, actions: seq<Action>, s': Sys)
    returns (sent: seq<Intent>, begun: seq<Intent>)
    requires Leads(Init(cap), actions, s')
    ensures Moves(Init(cap), actions, sent, begun, s')
    ensures sent == begun + s'.t.queue && |s'.t.queue| <= cap
  {
    hide Leads, Moves;
    sent, begun := HistoryMoves(Init(cap), actions, s');
    QueueIsFifo(Init(cap), actions, sent, begun, s');
    assert [] + sent == sent;
  }
}
