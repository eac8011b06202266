/** How a fire set while the tick loop is at work is lost, and exactly when it can be. */
module ProtocolFireLosses {
  import opened Core
  import opened Resources
  import opened Scheduler
  import opened Protocol
  import opened ProtocolFires
  import ProtocolHolds
  import ProtocolOperators
  import ProtocolRetries
  import ProtocolStates
  import ProtocolTick
  import ProtocolWitness

  // ----- Histories that leave the fire alone -----

  ghost predicate Way(s: Sys, actions: seq<Action>, s': Sys, id: JobId) {
    Leads(s, actions, s') && LeaveFire(actions, id)
  }

  lemma {:induction false} Further(s: Sys, first: seq<Action>, s1: Sys, rest: seq<Action>, s2: Sys, id: JobId)
    requires Way(s, first, s1, id) && Way(s1, rest, s2, id)
    ensures Way(s, first + rest, s2, id)
  {
    hide Leads, LeavesFire;
    ProtocolTick.LeadsOn(s, first, s1, rest, s2);
  }

  lemma {:induction false} OneAction(s: Sys, a: Action, id: JobId)
    requires Enabled(s, a) && LeavesFire(a, id)
    ensures Way(s, [a], Step(s, a), id)
  {
    hide Enabled, Step;
    var s' := Step(s, a);
    assert Leads(s', [], s') && [a][1..] == [];
  }

  lemma {:induction false} StillReachable(s: Sys, actions: seq<Action>, s': Sys, id: JobId)
    requires Reachable(s) && Way(s, actions, s', id)
    ensures Reachable(s')
  {
    hide Leads, Init;
    var cap: nat, first: seq<Action> :| Leads(Init(cap), first, s);
    ProtocolTick.LeadsOn(Init(cap), first, s, actions, s');
  }

  // ----- One row -----

  /** A next fire the loop may set for the row, and not this one unless it must. */
  function SomeNext(row: Job, now: Time, at: Time): (next: Option<Time>)
    ensures IsNext(row.trigger, now, next)
    ensures Overwrites(row, now, row.id, at) ==> next != Some(at)
  {
    match row.trigger
    case Cron(_, _) => Some((if at > now then at else now) + 1)
    case Interval(every) => Some(now + every)
    case _ => None
  }

  /** The next fire of the row has been set, the loop is past it, and runs were stored of no other job. */
  ghost predicate Settled(s: Sys, row: Job, s': Sys, rest: seq<Job>, at: Time) {
    && !s.pc.Idle? && s'.pc == Due(s.pc.at, rest) && s'.t.cap == s.t.cap
    && s'.t.jobs == SetNextFire(s.t, row.id, SomeNext(row, s.pc.at.now, at)).jobs
    && (forall r :: r in s'.t.runs && r !in s.t.runs ==> s'.t.runs[r].job == row.id)
  }

  lemma {:induction false} AdvanceRow(s: Sys, id: JobId, at: Time) returns (actions: seq<Action>, s': Sys)
    requires s.pc.Advancing?
    ensures Way(s, actions, s', id) && Settled(s, s.pc.job, s', s.pc.rest, at) && s'.t.runs == s.t.runs
  {
    hide Way, SomeNext, IsNext;
    var a := Advance(SomeNext(s.pc.job, s.pc.at.now, at));
    SomeNextIsNext(s.pc.job, s.pc.at.now, at);
    OneAction(s, Tick(a), id);
    actions, s' := [Tick(a)], TickStep(s, a);
  }

  lemma {:induction false} SomeNextIsNext(row: Job, now: Time, at: Time)
    ensures IsNext(row.trigger, now, SomeNext(row, now, at))
    ensures Overwrites(row, now, row.id, at) ==> SomeNext(row, now, at) != Some(at)
  {
  }

  lemma {:induction false} SendRow(s: Sys, id: JobId, at: Time) returns (actions: seq<Action>, s': Sys)
    requires s.pc.Stored? && s.t.cap > 0
    ensures Way(s, actions, s', id) && Settled(s, s.pc.job, s', s.pc.rest, at) && s'.t.runs == s.t.runs
  {
    hide Leads, LeavesFire, SomeNext;
    var first, s1 := ProtocolOperators.MakeRoom(s);
    assert Way(s, first, s1, id) by { DequeuesLeaveFire(first, id); }
    OneAction(s1, Tick(Send(true)), id) by { SendsLeaveFire(id); }
    hide Way;
    var s2 := TickStep(s1, Send(true));
    actions, s' := AdvanceRow(s2, id, at);
    Further(s1, [Tick(Send(true))], s2, actions, s', id);
    Further(s, first, s1, [Tick(Send(true))] + actions, s', id);
    actions := first + ([Tick(Send(true))] + actions);
  }

  lemma {:induction false} DequeuesLeaveFire(actions: seq<Action>, id: JobId)
    requires forall i :: 0 <= i < |actions| ==> actions[i] == Work(Dequeue)
    ensures LeaveFire(actions, id)
  {
  }

  lemma {:induction false} SendsLeaveFire(id: JobId)
    ensures LeavesFire(Tick(Send(true)), id)
  {
  }

  lemma {:induction false} StoreRow(s: Sys, id: JobId, at: Time) returns (actions: seq<Action>, s': Sys)
    requires s.pc.Held? && s.t.cap > 0
    ensures Way(s, actions, s', id) && Settled(s, s.pc.job, s', s.pc.rest, at)
  {
    OneAction(s, Tick(Store), id);
    hide Way, SomeNext, SetNextFire;
    var s1 := TickStep(s, Store);
    actions, s' := SendRow(s1, id, at);
    assert s1.t.jobs == s.t.jobs;
    SameJobsSameNext(s.t, s1.t, s.pc.job.id, SomeNext(s.pc.job, s.pc.at.now, at));
    Further(s, [Tick(Store)], s1, actions, s', id);
    actions := [Tick(Store)] + actions;
  }

  lemma {:induction false} SameJobsSameNext(t: Tables, t': Tables, id: JobId, next: Option<Time>)
    requires t'.jobs == t.jobs
    ensures SetNextFire(t', id, next).jobs == SetNextFire(t, id, next).jobs
  {
  }

  /** The row in the loop's hand, to its end. */
  lemma {:induction false} HandIsSettled(s: Sys, id: JobId, at: Time) returns (actions: seq<Action>, s': Sys)
    requires IsInHand(s.pc) && s.t.cap > 0
    ensures Way(s, actions, s', id) && Settled(s, s.pc.job, s', s.pc.rest, at)
    ensures !s.pc.Held? ==> s'.t.runs == s.t.runs
  {
    hide Way, Settled;
    if s.pc.Held? {
      actions, s' := StoreRow(s, id, at);
    } else if s.pc.Stored? {
      actions, s' := SendRow(s, id, at);
    } else {
      actions, s' := AdvanceRow(s, id, at);
    }
  }

  lemma {:induction false} OffCalendarIsSettled(s: Sys, id: JobId, at: Time) returns (actions: seq<Action>, s': Sys)
    requires s.pc.Due? && s.pc.rest != [] && !Allows(s.pc.at.open, s.pc.rest[0])
    ensures Way(s, actions, s', id) && Settled(s, s.pc.rest[0], s', s.pc.rest[1..], at) && s'.t.runs == s.t.runs
  {
    OneAction(s, Tick(SkipDue), id);
    hide Way, SomeNext, Allows;
    var s1 := TickStep(s, SkipDue);
    actions, s' := AdvanceRow(s1, id, at);
    Further(s, [Tick(SkipDue)], s1, actions, s', id);
    actions := [Tick(SkipDue)] + actions;
  }

  // ----- Meeting claims -----

  /** The resource of the claim is there, free, and just large enough. */
  predicate Provides(t: Tables, c: Claim) {
    && c.resource in t.resources && t.resources[c.resource].capacity == c.units
    && Used(t.holds, t.resources[c.resource].id) == 0
  }

  ghost predicate SameButResources(s: Sys, s': Sys) {
    && s'.pc == s.pc && s'.t.jobs == s.t.jobs && s'.t.runs == s.t.runs && s'.t.cap == s.t.cap
  }

  lemma {:induction false} Dropped(s: Sys, name: string, id: JobId) returns (actions: seq<Action>, s': Sys)
    requires Reachable(s)
    ensures Way(s, actions, s', id) && SameButResources(s, s') && s'.t.resources == s.t.resources - {name}
    ensures forall c: Claim :: c.resource != name && Provides(s.t, c) ==> Provides(s'.t, c)
  {
    if name in s.t.resources {
      OneAction(s, Api(DeleteResource(name)), id);
      actions, s' := [Api(DeleteResource(name))], ApiStep(s, DeleteResource(name));
      hide Way, Reachable, Used, DropResource;
      ProtocolHolds.ReachableIsOk(s);
      var gone := s.t.resources[name].id;
      forall c: Claim | c.resource != name && Provides(s.t, c)
        ensures Provides(s'.t, c)
      {
        DropUsesLess(s.t.holds, gone, s.t.resources[c.resource].id);
      }
    } else {
      actions, s' := [], s;
      assert s.t.resources - {name} == s.t.resources;
    }
  }

  /** An id that neither a resource nor a hold has. */
  lemma {:induction false} FreshResource(t: Tables) returns (unused: ResourceId)
    requires Sound(t.resources, t.holds)
    ensures !Known(t.resources, unused) && Used(t.holds, unused) == 0
  {
    var ids := set n | n in t.resources :: t.resources[n].id;
    unused := LargerThan(ids);
    assert forall n :: n in t.resources ==> t.resources[n].id in ids;
    forall i | 0 <= i < |t.holds|
      ensures t.holds[i].resource != unused
    {
      assert Known(t.resources, t.holds[i].resource);
    }
    NothingUsed(t.holds, unused);
  }

  lemma {:induction false} LargerThan(ids: set<ResourceId>) returns (unused: ResourceId)
    ensures forall k :: k in ids ==> k < unused
  {
    if ids == {} {
      unused := 0;
    } else {
      var k :| k in ids;
      var more := LargerThan(ids - {k});
      unused := if k < more then more else k + 1;
      forall j | j in ids
        ensures j < unused
      {
        assert j == k || j in ids - {k};
      }
    }
  }

  lemma {:induction false} ClaimIsProvided(s: Sys, c: Claim, id: JobId) returns (actions: seq<Action>, s': Sys)
    requires Reachable(s)
    ensures Way(s, actions, s', id) && SameButResources(s, s') && Provides(s'.t, c)
    ensures forall d: Claim :: d.resource != c.resource && Provides(s.t, d) ==> Provides(s'.t, d)
  {
    hide Way, Reachable, Used, Provides;
    var s1;
    actions, s1 := Dropped(s, c.resource, id);
    StillReachable(s, actions, s1, id);
    ProtocolHolds.ReachableIsOk(s1);
    var a, s2 := CreatesResource(s1, c, id);
    s' := s2;
    Further(s, actions, s1, a, s', id);
    actions := actions + a;
  }

  lemma {:induction false} CreatesResource(s: Sys, c: Claim, id: JobId) returns (actions: seq<Action>, s': Sys)
    requires Sound(s.t.resources, s.t.holds) && c.resource !in s.t.resources
    ensures Way(s, actions, s', id) && SameButResources(s, s') && Provides(s'.t, c)
    ensures forall d: Claim :: d.resource != c.resource && Provides(s.t, d) ==> Provides(s'.t, d)
  {
    hide Sound, Used;
    var unused := FreshResource(s.t);
    var a := CreateResource(c.resource, Resource(unused, c.units));
    OneAction(s, Api(a), id);
    actions, s' := [Api(a)], ApiStep(s, a);
  }

  lemma {:induction false} ClaimsAreProvided(s: Sys, claims: seq<Claim>, id: JobId)
      returns (actions: seq<Action>, s': Sys)
    requires Reachable(s) && DistinctNames(claims)
    ensures Way(s, actions, s', id) && SameButResources(s, s')
    ensures forall i :: 0 <= i < |claims| ==> Provides(s'.t, claims[i])
    decreases |claims|
  {
    if claims == [] {
      actions, s' := [], s;
    } else {
      hide Way, Reachable, Provides;
      var first, s1 := ClaimsAreProvided(s, claims[1..], id);
      StillReachable(s, first, s1, id);
      actions, s' := ClaimIsProvided(s1, claims[0], id);
      forall i | 0 < i < |claims|
        ensures Provides(s'.t, claims[i])
      {
        assert claims[i] == claims[1..][i - 1];
      }
      Further(s, first, s1, actions, s', id);
      actions := first + actions;
    }
  }

  lemma {:induction false} ProvidedIsAcquired(s: Sys, job: Job)
    requires Reachable(s) && IsJob(job) && DistinctNames(job.claims)
    requires forall i :: 0 <= i < |job.claims| ==> Provides(s.t, job.claims[i])
    ensures TryAcquire(s.t.resources, s.t.holds, s.t.nextRun, job.claims).0 == Acquired
  {
    hide Reachable, Used, Acquire, DistinctNames;
    ProtocolHolds.ReachableIsOk(s);
    forall i | 0 <= i < |job.claims|
      ensures Satisfiable(s.t.resources, s.t.holds, s.t.nextRun, job.claims[i])
    {
    }
    AcquiredExactly(s.t.resources, s.t.holds, s.t.nextRun, job.claims);
  }

  // ----- Rows on calendar -----

  lemma {:induction false} RowIsJob(s: Sys)
    requires Reachable(s) && s.pc.Due? && s.pc.rest != []
    ensures IsJob(s.pc.rest[0])
  {
    hide Reachable, IsJob;
    ProtocolRetries.ReachableIsChained(s);
  }

  lemma {:induction false} OnCalendarIsSettled(s: Sys, id: JobId, at: Time) returns (actions: seq<Action>, s': Sys)
    requires Reachable(s) && s.t.cap > 0 && s.pc.Due? && s.pc.rest != []
    requires Allows(s.pc.at.open, s.pc.rest[0]) && DistinctNames(s.pc.rest[0].claims)
    ensures Way(s, actions, s', id) && Settled(s, s.pc.rest[0], s', s.pc.rest[1..], at)
  {
    hide Way, Reachable, Provides, DistinctNames, Allows, IsJob, SomeNext, SetNextFire, TryAcquire;
    var row := s.pc.rest[0];
    var first, s1 := ClaimsAreProvided(s, row.claims, id);
    StillReachable(s, first, s1, id);
    RowIsJob(s1);
    ProvidedIsAcquired(s1, row);
    OneAction(s1, Tick(TryHold), id);
    var s2 := TickStep(s1, TryHold);
    actions, s' := StoreRow(s2, id, at);
    SameJobsSameNext(s.t, s2.t, row.id, SomeNext(row, s.pc.at.now, at));
    Further(s1, [Tick(TryHold)], s2, actions, s', id);
    Further(s, first, s1, [Tick(TryHold)] + actions, s', id);
    actions := first + ([Tick(TryHold)] + actions);
  }

  /** Past the row in front: off calendar, without claims, or with a claim of a resource that is gone. */
  lemma {:induction false} RowIsPassed(s: Sys, id: JobId, at: Time) returns (actions: seq<Action>, s': Sys)
    requires Reachable(s) && s.t.cap > 0 && s.pc.Due? && s.pc.rest != []
    ensures Way(s, actions, s', id) && s'.pc == Due(s.pc.at, s.pc.rest[1..]) && s'.t.cap == s.t.cap
    ensures s'.t.jobs.Keys == s.t.jobs.Keys
    ensures forall r :: r in s'.t.runs && r !in s.t.runs ==> s'.t.runs[r].job == s.pc.rest[0].id
  {
    hide Way, Reachable, Allows, SomeNext;
    var row := s.pc.rest[0];
    if !Allows(s.pc.at.open, row) {
      actions, s' := OffCalendarIsSettled(s, id, at);
    } else if row.claims == [] {
      actions, s' := OnCalendarIsSettled(s, id, at);
    } else {
      actions, s' := RowIsRefused(s, id);
    }
  }

  lemma {:induction false} RowIsRefused(s: Sys, id: JobId) returns (actions: seq<Action>, s': Sys)
    requires Reachable(s) && s.pc.Due? && s.pc.rest != []
    requires Allows(s.pc.at.open, s.pc.rest[0]) && s.pc.rest[0].claims != []
    ensures Way(s, actions, s', id) && s'.pc == Due(s.pc.at, s.pc.rest[1..]) && s'.t.cap == s.t.cap
    ensures s'.t.jobs == s.t.jobs && s'.t.runs == s.t.runs
  {
    hide Way, Reachable, Allows, Provides;
    var first, s1 := Dropped(s, s.pc.rest[0].claims[0].resource, id);
    OneAction(s1, Tick(TryHold), id);
    s' := TickStep(s1, TryHold);
    Further(s, first, s1, [Tick(TryHold)], s', id);
    actions := first + [Tick(TryHold)];
  }

  // ----- Losing the fire -----

  ghost predicate Loses(s: Sys, actions: seq<Action>, s': Sys, id: JobId, at: Time) {
    Way(s, actions, s', id) && !HasFire(s', id, at)
  }

  lemma {:induction false} LosesLater(s: Sys, first: seq<Action>, s1: Sys, rest: seq<Action>, s': Sys, id: JobId,
                                      at: Time)
    requires Way(s, first, s1, id) && Loses(s1, rest, s', id, at)
    ensures Loses(s, first + rest, s', id, at)
  {
    hide Way, HasFire;
    Further(s, first, s1, rest, s', id);
  }

  lemma {:induction false} SettledLoses(s: Sys, row: Job, s': Sys, rest: seq<Job>, id: JobId, at: Time)
    requires Settled(s, row, s', rest, at) && id in s.t.jobs && Overwrites(row, s.pc.at.now, id, at)
    ensures !HasFire(s', id, at)
  {
  }

  predicate NoneBefore(rows: seq<Job>, i: nat, id: JobId)
    requires i <= |rows|
  {
    forall j :: 0 <= j < i ==> rows[j].id != id
  }

  lemma {:induction false} NoneBehindTheFirst(rows: seq<Job>, i: nat, id: JobId)
    requires 0 < i <= |rows|
    ensures NoneBefore(rows, i, id) ==> rows[0].id != id && NoneBefore(rows[1..], i - 1, id)
  {
  }

  /** The row at `i` takes the fire; rows of other jobs in front of it leave no run of this one. */
  lemma {:induction false} DueLoses(s: Sys, i: nat, id: JobId, at: Time) returns (actions: seq<Action>, s': Sys)
    requires Reachable(s) && s.t.cap > 0 && id in s.t.jobs && s.pc.Due? && i < |s.pc.rest|
    requires Overwrites(s.pc.rest[i], s.pc.at.now, id, at) && IsSettable(s.pc, i)
    ensures Loses(s, actions, s', id, at)
    ensures !Allows(s.pc.at.open, s.pc.rest[i]) && NoneBefore(s.pc.rest, i, id) ==> !HasNewRun(s, s', id)
    decreases i
  {
    hide Way, Reachable, Overwrites, Allows, DistinctNames, HasFire, SetNextFire, SomeNext, NoneBefore;
    if i == 0 {
      if Allows(s.pc.at.open, s.pc.rest[0]) {
        actions, s' := OnCalendarIsSettled(s, id, at);
      } else {
        actions, s' := OffCalendarIsSettled(s, id, at);
      }
      SettledLoses(s, s.pc.rest[0], s', s.pc.rest[1..], id, at);
    } else {
      var first, s1 := RowIsPassed(s, id, at);
      StillReachable(s, first, s1, id);
      actions, s' := DueLoses(s1, i - 1, id, at);
      LosesLater(s, first, s1, actions, s', id, at);
      NewRunsAddUp(s, s1, actions, s', id);
      NoneBehindTheFirst(s.pc.rest, i, id);
      actions := first + actions;
    }
  }

  /** A run that is new in the end was so on the way, or came after. */
  lemma {:induction false} NewRunsAddUp(s: Sys, s1: Sys, actions: seq<Action>, s': Sys, id: JobId)
    requires Reachable(s1) && Way(s1, actions, s', id)
    ensures HasNewRun(s, s', id) ==> HasNewRun(s, s1, id) || HasNewRun(s1, s', id)
  {
    hide Leads, LeaveFire, Reachable;
    ProtocolStates.ReachableIsStated(s1);
    hide ProtocolHolds.SysOk, ProtocolStates.Stated;
    RunsStay(s1, actions, s');
  }

  lemma {:induction false} RunsStay(s: Sys, actions: seq<Action>, s': Sys)
    requires ProtocolHolds.SysOk(s) && ProtocolStates.Stated(s) && Leads(s, actions, s')
    ensures forall r :: r in s.t.runs ==>
              r in s'.t.runs && s'.t.runs[r].job == s.t.runs[r].job && s'.t.runs[r].parents == s.t.runs[r].parents
    decreases |actions|
  {
    hide ProtocolHolds.SysOk, ProtocolStates.Stated, Enabled, Step;
    if actions != [] {
      var a := actions[0];
      ProtocolHolds.StepKeepsSysOk(s, a);
      ProtocolStates.StepKeepsStated(s, a);
      ProtocolStates.StepStepsOn(s, a);
      RunsStay(Step(s, a), actions[1..], s');
      forall r | r in s.t.runs
        ensures s'.t.runs[r].job == s.t.runs[r].job && s'.t.runs[r].parents == s.t.runs[r].parents
      {
        var same := s.t.runs[r].(state := Queued);
        assert Step(s, a).t.runs[r].job == same.job && Step(s, a).t.runs[r].parents == same.parents;
      }
    }
  }

  lemma {:induction false} HandLoses(s: Sys, i: nat, id: JobId, at: Time) returns (actions: seq<Action>, s': Sys)
    requires Reachable(s) && s.t.cap > 0 && id in s.t.jobs && IsInHand(s.pc) && i < |DueRows(s.pc)|
    requires Overwrites(DueRows(s.pc)[i], s.pc.at.now, id, at) && IsSettable(s.pc, i)
    ensures Loses(s, actions, s', id, at)
    ensures IsSilent(s.pc, i) && NoneBefore(DueRows(s.pc), i, id) ==> !HasNewRun(s, s', id)
  {
    hide Way, Reachable, Overwrites, Allows, DistinctNames, HasFire, SetNextFire, SomeNext, NoneBefore;
    actions, s' := HandIsSettled(s, id, at);
    assert DueRows(s.pc) == [s.pc.job] + s.pc.rest;
    if i == 0 {
      SettledLoses(s, s.pc.job, s', s.pc.rest, id, at);
    } else {
      var s1 := s';
      StillReachable(s, actions, s1, id);
      SettledKeepsJobs(s, s.pc.job, s1, s.pc.rest, at);
      var more;
      more, s' := DueLoses(s1, i - 1, id, at);
      LosesLater(s, actions, s1, more, s', id, at);
      NewRunsAddUp(s, s1, more, s', id);
      assert DueRows(s.pc)[1..] == s.pc.rest;
      NoneBehindTheFirst(DueRows(s.pc), i, id);
      actions := actions + more;
    }
  }

  lemma {:induction false} SettledKeepsJobs(s: Sys, row: Job, s': Sys, rest: seq<Job>, at: Time)
    requires Settled(s, row, s', rest, at)
    ensures s'.t.jobs.Keys == s.t.jobs.Keys
  {
  }

  lemma {:induction false} UndoLoses(s: Sys, i: nat, id: JobId, at: Time) returns (actions: seq<Action>, s': Sys)
    requires Reachable(s) && s.t.cap > 0 && id in s.t.jobs && s.pc.Undoing? && i < |s.pc.rest|
    requires Overwrites(s.pc.rest[i], s.pc.at.now, id, at) && IsSettable(s.pc, i)
    ensures Loses(s, actions, s', id, at)
    ensures !Allows(s.pc.at.open, s.pc.rest[i]) && NoneBefore(s.pc.rest, i, id) ==> !HasNewRun(s, s', id)
  {
    hide Way, Reachable, Overwrites, Allows, DistinctNames, HasFire, HasNewRun, NoneBefore;
    OneAction(s, Tick(Undo), id);
    var s1 := TickStep(s, Undo);
    assert s1.pc == Due(s.pc.at, s.pc.rest);
    StillReachable(s, [Tick(Undo)], s1, id);
    actions, s' := DueLoses(s1, i, id, at);
    LosesLater(s, [Tick(Undo)], s1, actions, s', id, at);
    SameRunsSameNew(s, s1, s', id);
    actions := [Tick(Undo)] + actions;
  }

  lemma {:induction false} SameRunsSameNew(s: Sys, s1: Sys, s': Sys, id: JobId)
    requires s1.t.runs == s.t.runs
    ensures HasNewRun(s, s', id) == HasNewRun(s1, s', id)
  {
  }

  lemma {:induction false} RowLoses(s: Sys, i: nat, id: JobId, at: Time) returns (actions: seq<Action>, s': Sys)
    requires Reachable(s) && s.t.cap > 0 && id in s.t.jobs && i < |DueRows(s.pc)|
    requires Overwrites(DueRows(s.pc)[i], s.pc.at.now, id, at) && IsSettable(s.pc, i)
    ensures Loses(s, actions, s', id, at)
    ensures IsSilent(s.pc, i) && NoneBefore(DueRows(s.pc), i, id) ==> !HasNewRun(s, s', id)
  {
    hide Loses, Reachable, Overwrites, Allows, DistinctNames, HasNewRun, NoneBefore;
    if IsInHand(s.pc) {
      actions, s' := HandLoses(s, i, id, at);
    } else {
      assert DueRows(s.pc) == s.pc.rest;
      hide DueRows;
      if s.pc.Due? {
        actions, s' := DueLoses(s, i, id, at);
      } else {
        actions, s' := UndoLoses(s, i, id, at);
      }
    }
  }

  // ----- One row a job -----

  predicate AreDistinct(rows: seq<Job>) {
    forall i, j :: 0 <= i < j < |rows| ==> rows[i].id != rows[j].id
  }

  lemma {:induction false} StepKeepsDistinct(s: Sys, a: Action)
    requires AreDistinct(DueRows(s.pc)) && Enabled(s, a)
    ensures AreDistinct(DueRows(Step(s, a).pc))
  {
    hide TickStep, TaskStep, DueRows, IsDueList, IsJobList;
    match a
    case Tick(Begin(at, due)) => BeginIsDistinct(s, at, due);
    case Tick(tick) => RowsGoOn(s, tick);
    case Work(task) => WorkKeepsPc(s, task);
    case Api(api) =>
  }

  lemma {:induction false} WorkKeepsPc(s: Sys, a: TaskAction)
    requires TaskEnabled(s, a)
    ensures TaskStep(s, a).pc == s.pc
  {
    hide Release, HasRoom;
  }

  lemma {:induction false} BeginIsDistinct(s: Sys, at: Moment, due: seq<Job>)
    requires TickEnabled(s, Begin(at, due))
    ensures AreDistinct(DueRows(TickStep(s, Begin(at, due)).pc))
  {
  }

  lemma {:induction false} LeadsKeepsDistinct(s: Sys, actions: seq<Action>, s': Sys)
    requires AreDistinct(DueRows(s.pc)) && Leads(s, actions, s')
    ensures AreDistinct(DueRows(s'.pc))
    decreases |actions|
  {
    hide DueRows, AreDistinct, Enabled, Step;
    if actions != [] {
      StepKeepsDistinct(s, actions[0]);
      LeadsKeepsDistinct(Step(s, actions[0]), actions[1..], s');
    }
  }

  lemma {:induction false} ReachableIsDistinct(s: Sys)
    requires Reachable(s)
    ensures AreDistinct(DueRows(s.pc))
  {
    hide Leads;
    var cap: nat, actions: seq<Action> :| Leads(Init(cap), actions, s);
    LeadsKeepsDistinct(Init(cap), actions, s);
  }

  // ----- Exactly -----

  lemma {:induction false} FireIsSet(s: Sys, id: JobId, at: Time) returns (s1: Sys)
    requires Reachable(s) && IsPlain(s, id)
    ensures s1 == ApiStep(s, SetFire(id, Some(at))) && Reachable(s1)
    ensures s1.pc == s.pc && s1.t.cap == s.t.cap && s1.t.runs == s.t.runs && HasFire(s1, id, at) && IsPlain(s1, id)
  {
    hide Leads, Init, CondRows;
    var a := Api(SetFire(id, Some(at)));
    s1 := ApiStep(s, SetFire(id, Some(at)));
    var cap: nat, first: seq<Action> :| Leads(Init(cap), first, s);
    ProtocolWitness.Extend(Init(cap), first, s, a);
    assert Leads(Init(cap), first + [a], s1);
  }

  /**
   * A fire that a webhook, a trigger or a file event sets for a job outlasts
   * the tick in progress, however that goes on, if and only if the loop holds
   * no row of the job whose next fire it may yet set. It may if the row is
   * off calendar, or repeats no claim name, or has its claims already (callers
   * may free, create and delete resources meanwhile); an interval may come to
   * the very same time.
   */
  lemma {:induction false} FireLastsExactly(s: Sys, id: JobId, at: Time)
    requires Reachable(s) && s.t.cap > 0 && IsPlain(s, id)
    ensures FireLasts(ApiStep(s, SetFire(id, Some(at))), id, at) <==> !IsAtRisk(s.pc, id, at)
  {
    hide Reachable, IsPlain, HasFire, Leads, LeaveFire, DueRows, Overwrites, IsSettable;
    var s1 := FireIsSet(s, id, at);
    if IsAtRisk(s.pc, id, at) {
      var i: nat :| i < |DueRows(s.pc)| && Overwrites(DueRows(s.pc)[i], s.pc.at.now, id, at) && IsSettable(s.pc, i);
      HasItsJob(s1, id, at);
      var actions, s' := RowLoses(s1, i, id, at);
      assert Leads(s1, actions, s') && LeaveFire(actions, id);
    } else {
      forall actions, s' | Leads(s1, actions, s') && LeaveFire(actions, id)
        ensures HasFire(s', id, at)
      {
        SafeLasts(s1, actions, s', id, at);
      }
    }
  }

  lemma {:induction false} HasItsJob(s: Sys, id: JobId, at: Time)
    requires HasFire(s, id, at)
    ensures id in s.t.jobs
  {
  }

  /** The fire can go within the tick, and no run of the job has been stored since it was set, retries aside. */
  ghost predicate CanGoUnseen(s: Sys, id: JobId, at: Time) {
    exists actions, s' ::
      Leads(s, actions, s') && LeaveFire(actions, id) && !HasFire(s', id, at) && !HasNewRun(s, s', id)
  }

  /**
   * It can go without another run of the job exactly if the loop has stored
   * the job's run already, or holds a row of it that is off calendar.
   */
  lemma {:induction false} FireGoesUnseenExactly(s: Sys, id: JobId, at: Time)
    requires Reachable(s) && s.t.cap > 0 && IsPlain(s, id)
    ensures CanGoUnseen(ApiStep(s, SetFire(id, Some(at))), id, at) <==> IsAtSilentRisk(s.pc, id, at)
  {
    hide Reachable, IsPlain, HasFire, HasNewRun, Leads, LeaveFire, DueRows, Overwrites, IsSilent, IsSettable, Way;
    var s1 := FireIsSet(s, id, at);
    if IsAtSilentRisk(s.pc, id, at) {
      var i: nat :| i < |DueRows(s.pc)| && Overwrites(DueRows(s.pc)[i], s.pc.at.now, id, at) && IsSilent(s.pc, i);
      HasItsJob(s1, id, at);
      ReachableIsDistinct(s);
      OthersInFront(s.pc, i, id, at);
      var actions, s' := RowLoses(s1, i, id, at);
      WayLeads(s1, actions, s', id);
    } else {
      ProtocolStates.ReachableIsStated(s1);
      forall actions, s' | Leads(s1, actions, s') && LeaveFire(actions, id)
        ensures HasNewRun(s1, s', id) || HasFire(s', id, at)
      {
        hide ProtocolHolds.SysOk, ProtocolStates.Stated;
        SeenLasts(s1, s1, actions, s', id, at);
      }
    }
  }

  lemma {:induction false} WayLeads(s: Sys, actions: seq<Action>, s': Sys, id: JobId)
    requires Way(s, actions, s', id)
    ensures Leads(s, actions, s') && LeaveFire(actions, id)
  {
  }

  lemma {:induction false} OthersInFront(pc: Pc, i: nat, id: JobId, at: Time)
    requires AreDistinct(DueRows(pc)) && i < |DueRows(pc)|
    requires Overwrites(DueRows(pc)[i], pc.at.now, id, at) && IsSilent(pc, i)
    ensures IsSettable(pc, i) && NoneBefore(DueRows(pc), i, id)
  {
    hide DueRows, Allows, DistinctNames;
  }
}
