/**
 * Whole runs of the replay cache against an unbounded "accepted within the
 * window" map. Calls are sequential and read a clock that never goes back.
 */
module DedupHistory {
  import opened Core
  import opened Dedup

  datatype Op = Check(key: Key, now: Time) | Prune(now: Time)

  /** Operation `i` takes `states[i]` to `states[i + 1]`; a prune answers nothing. */
  ghost predicate Step(op: Op, seen: Entries, window: nat, cap: nat, seen': Entries, dup: bool) {
    match op
    case Check(key, now) => CheckStep(seen, key, now, window, cap, seen', dup)
    case Prune(now) => !dup && seen' == Live(seen, now, window)
  }

  ghost predicate IsRun(ops: seq<Op>, window: nat, cap: nat, states: seq<Entries>, dups: seq<bool>) {
    && 0 < cap
    && |states| == |ops| + 1 && |dups| == |ops|
    && states[0] == map[]
    && (forall i :: 0 <= i < |ops| ==> Step(ops[i], states[i], window, cap, states[i + 1], dups[i]))
    && (forall i, j :: 0 <= i < j < |ops| ==> ops[i].now <= ops[j].now)
  }

  /** No two checks read the same instant. */
  ghost predicate DistinctTimes(ops: seq<Op>) {
    forall i, j :: 0 <= i < j < |ops| && ops[i].Check? && ops[j].Check? ==> ops[i].now < ops[j].now
  }

  // ----- Invariants of one run -----

  /** Every entry was written by an accepted check, and is no newer than it. */
  ghost predicate Accepted(ops: seq<Op>, dups: seq<bool>, key: Key, ts: Time)
    requires |ops| == |dups|
  {
    exists j :: 0 <= j < |ops| && ops[j] == Check(key, ts) && !dups[j]
  }

  lemma {:induction false} EntriesWereAccepted(ops: seq<Op>, window: nat, cap: nat, states: seq<Entries>,
                                        dups: seq<bool>, n: nat)
    requires IsRun(ops, window, cap, states, dups) && n <= |ops|
    ensures forall k :: k in states[n] ==> Accepted(ops[..n], dups[..n], k, states[n][k])
    ensures |states[n]| <= cap
  {
    if n > 0 {
      EntriesWereAccepted(ops, window, cap, states, dups, n - 1);
      var s, s' := states[n - 1], states[n];
      assert Step(ops[n - 1], s, window, cap, s', dups[n - 1]);
      forall k | k in s'
        ensures Accepted(ops[..n], dups[..n], k, s'[k])
      {
        if k in s && s'[k] == s[k] {
          var j :| 0 <= j < n - 1 && ops[..n - 1][j] == Check(k, s[k]) && !dups[..n - 1][j];
          assert ops[..n][j] == Check(k, s'[k]) && !dups[..n][j];
        } else {
          assert ops[..n][n - 1] == Check(k, s'[k]) && !dups[..n][n - 1];
        }
      }
      StepKeepsSize(ops[n - 1], s, window, cap, s', dups[n - 1]);
    }
  }

  lemma {:induction false} StepKeepsSize(op: Op, s: Entries, window: nat, cap: nat, s': Entries, dup: bool)
    requires Step(op, s, window, cap, s', dup) && |s| <= cap && 0 < cap
    ensures |s'| <= cap
  {
    assert |s.Keys| == |s| && |s'.Keys| == |s'|;
    match op
    case Prune(now) =>
      CardinalityOfSubset(s'.Keys, s.Keys);
    case Check(key, now) =>
      if key in s {
        assert s'.Keys == s.Keys;
      } else if |s| < cap {
        assert s'.Keys == s.Keys + {key};
      } else {
        var k :| IsOldest(s, k) && s' == (s - {k})[key := now];
        assert s'.Keys == s.Keys - {k} + {key};
      }
  }

  /** The cache never grows beyond its limit. */
  lemma {:induction false} SizeNeverExceedsLimit(ops: seq<Op>, window: nat, cap: nat, states: seq<Entries>,
                                        dups: seq<bool>)
    requires IsRun(ops, window, cap, states, dups)
    ensures forall i :: 0 <= i <= |ops| ==> |states[i]| <= cap
  {
    forall i | 0 <= i <= |ops|
      ensures |states[i]| <= cap
    {
      EntriesWereAccepted(ops, window, cap, states, dups, i);
    }
  }

  /** A rejected request repeats one that was accepted within the window. */
  lemma {:induction false} DuplicatesWereAccepted(ops: seq<Op>, window: nat, cap: nat, states: seq<Entries>,
                                        dups: seq<bool>, i: nat)
    requires IsRun(ops, window, cap, states, dups) && i < |ops|
    requires ops[i].Check? && dups[i]
    ensures exists j :: 0 <= j < i && ops[j].Check? && ops[j].key == ops[i].key && !dups[j]
                        && ops[i].now - ops[j].now < window
  {
    EntriesWereAccepted(ops, window, cap, states, dups, i);
    assert Step(ops[i], states[i], window, cap, states[i + 1], dups[i]);
    var ts := states[i][ops[i].key];
    var j :| 0 <= j < i && ops[..i][j] == Check(ops[i].key, ts) && !dups[..i][j];
    assert ops[j].now <= ops[i].now;
  }

  // ----- Agreement with the unbounded map -----

  /** The specification: remember every accepted key, for ever. */
  function Reference(ops: seq<Op>, window: nat): Entries {
    if ops == [] then map[]
    else
      var before := Reference(ops[..|ops| - 1], window);
      ReferenceStep(before, ops[|ops| - 1], window)
  }

  function ReferenceStep(before: Entries, op: Op, window: nat): Entries {
    match op
    case Prune(_) => before
    case Check(key, now) => if IsLive(before, key, now, window) then before else before[key := now]
  }

  predicate ReferenceDup(ops: seq<Op>, window: nat, i: nat)
    requires i < |ops|
  {
    ops[i].Check? && IsLive(Reference(ops[..i], window), ops[i].key, ops[i].now, window)
  }

  /** A new fingerprint finds fewer than `cap` unexpired ones. Says nothing about the cache. */
  predicate RoomAt(ops: seq<Op>, window: nat, cap: nat, i: nat)
    requires i < |ops|
  {
    ops[i].Check? && !ReferenceDup(ops, window, i) ==>
      |Live(Reference(ops[..i], window), ops[i].now, window)| < cap
  }

  /** After `n` operations both remember the same unexpired fingerprints. */
  ghost predicate SameLive(ops: seq<Op>, window: nat, states: seq<Entries>, n: nat)
    requires n <= |ops| < |states|
  {
    n > 0 ==>
      Live(states[n], ops[n - 1].now, window) == Live(Reference(ops[..n], window), ops[n - 1].now, window)
  }

  ghost predicate NoLaterThan(s: Entries, now: Time) {
    forall k :: k in s ==> s[k] <= now
  }

  /** Time only takes entries away from the live part. */
  lemma {:induction false} LiveLater(s: Entries, now: Time, later: Time, window: nat)
    requires NoLaterThan(s, now) && now <= later
    ensures Live(Live(s, now, window), later, window) == Live(s, later, window)
  {
  }

  /** While there is room, a check does to the live part what the unbounded map does. */
  lemma {:induction false} CheckWithRoom(s: Entries, key: Key, now: Time, window: nat, cap: nat, s': Entries, dup: bool)
    requires CheckStep(s, key, now, window, cap, s', dup)
    requires NoLaterThan(s, now) && |s| <= cap
    ensures dup == (key in Live(s, now, window))
    ensures !dup && |Live(s, now, window)| < cap ==>
              Live(s', now, window) == Live(s[key := now], now, window)
    ensures !dup && |Live(s, now, window)| >= cap ==>
              exists k :: k in Live(s, now, window) && k !in s' && k != key
  {
    var live := Live(s, now, window);
    assert |live.Keys| == |live| && |s.Keys| == |s|;
    assert live.Keys <= s.Keys;
    if !dup && !(key in s || |s| < cap) {
      var k :| IsOldest(s, k) && s' == (s - {k})[key := now];
      if |live| < cap {
        OldestLiveMeansAllLive(s, k, now, window);
      } else {
        SubsetOfSameSize(live.Keys, s.Keys);
        assert k in live.Keys;
      }
    } else if !dup && |live| >= cap {
      SubsetOfSameSize(live.Keys, s.Keys);
      assert false;
    }
  }

  lemma {:induction false} OldestLiveMeansAllLive(s: Entries, k: Key, now: Time, window: nat)
    requires IsOldest(s, k) && NoLaterThan(s, now)
    ensures k in Live(s, now, window) ==> Live(s, now, window) == s
  {
  }

  lemma {:induction false} SubsetOfSameSize<T>(a: set<T>, b: set<T>)
    requires a <= b && |b| <= |a|
    ensures a == b
  {
    if exists x :: x in b && x !in a {
      var x :| x in b && x !in a;
      CardinalityOfSubset(a, b - {x});
    }
  }

  lemma {:induction false} ReferenceNoLater(ops: seq<Op>, window: nat, now: Time)
    requires forall i :: 0 <= i < |ops| ==> ops[i].now <= now
    ensures NoLaterThan(Reference(ops, window), now)
  {
    if ops != [] {
      ReferenceNoLater(ops[..|ops| - 1], window, now);
    }
  }

  lemma {:induction false} StatesNoLater(ops: seq<Op>, window: nat, cap: nat, states: seq<Entries>, dups: seq<bool>,
                                        n: nat, now: Time)
    requires IsRun(ops, window, cap, states, dups) && n <= |ops|
    requires n > 0 ==> ops[n - 1].now <= now
    ensures NoLaterThan(states[n], now)
  {
    EntriesWereAccepted(ops, window, cap, states, dups, n);
    forall k | k in states[n]
      ensures states[n][k] <= now
    {
      var j :| 0 <= j < n && ops[..n][j] == Check(k, states[n][k]);
      assert ops[j].now <= ops[n - 1].now;
    }
  }

  /** One operation further, from agreement on the unexpired part. */
  lemma {:induction false} LiveStep(op: Op, s: Entries, ref: Entries, window: nat, cap: nat, s': Entries, dup: bool)
    requires Step(op, s, window, cap, s', dup) && |s| <= cap
    requires NoLaterThan(s, op.now) && NoLaterThan(ref, op.now)
    requires Live(s, op.now, window) == Live(ref, op.now, window)
    ensures dup == (op.Check? && IsLive(ref, op.key, op.now, window))
    ensures Live(s', op.now, window) == Live(ReferenceStep(ref, op, window), op.now, window)
       <==> (op.Check? && !dup ==> |Live(ref, op.now, window)| < cap)
  {
    var now := op.now;
    match op
    case Prune(_) =>
      LiveLater(s, now, now, window);
    case Check(key, _) =>
      CheckWithRoom(s, key, now, window, cap, s', dup);
      assert (key in Live(s, now, window)) == IsLive(ref, key, now, window);
      if !dup {
        LiveAfterInsert(s, ref, key, now, window);
        if |Live(s, now, window)| >= cap {
          var k :| k in Live(s, now, window) && k !in s' && k != key;
          assert k in Live(ref, now, window);
          assert k in Live(ref[key := now], now, window);
          assert k !in Live(s', now, window);
        }
      }
  }

  /** The same, for operation `n` of a run. */
  lemma {:induction false} AgreementStep(ops: seq<Op>, window: nat, cap: nat, states: seq<Entries>, dups: seq<bool>,
                                        n: nat)
    requires IsRun(ops, window, cap, states, dups) && n < |ops|
    requires SameLive(ops, window, states, n)
    ensures dups[n] == ReferenceDup(ops, window, n)
    ensures SameLive(ops, window, states, n + 1) <==> RoomAt(ops, window, cap, n)
  {
    hide Live, Step, NoLaterThan;
    var s, ref, now := states[n], Reference(ops[..n], window), ops[n].now;
    EntriesWereAccepted(ops, window, cap, states, dups, n);
    StatesNoLater(ops, window, cap, states, dups, n, now);
    ReferenceNoLater(ops[..n], window, now);
    if n > 0 {
      var t := ops[n - 1].now;
      StatesNoLater(ops, window, cap, states, dups, n, t);
      ReferenceNoLater(ops[..n], window, t);
      LiveLater(s, t, now, window);
      LiveLater(ref, t, now, window);
    }
    LiveStep(ops[n], s, ref, window, cap, states[n + 1], dups[n]);
    assert ops[..n + 1][..n] == ops[..n];
    assert Reference(ops[..n + 1], window) == ReferenceStep(ref, ops[n], window);
  }

  lemma {:induction false} LiveAfterInsert(s: Entries, ref: Entries, key: Key, now: Time, window: nat)
    requires Live(s, now, window) == Live(ref, now, window)
    ensures Live(s[key := now], now, window) == Live(ref[key := now], now, window)
  {
    var a, b := Live(s[key := now], now, window), Live(ref[key := now], now, window);
    forall k
      ensures (k in a <==> k in b) && (k in a ==> a[k] == b[k])
    {
      if k != key {
        assert k in Live(s, now, window) <==> k in Live(ref, now, window);
        assert k in a <==> k in Live(s, now, window);
        assert k in b <==> k in Live(ref, now, window);
      }
    }
  }

  lemma {:induction false} AgreementWhileRoom(ops: seq<Op>, window: nat, cap: nat, states: seq<Entries>,
                                        dups: seq<bool>, n: nat)
    requires IsRun(ops, window, cap, states, dups) && n <= |ops|
    requires forall i :: 0 <= i < n ==> RoomAt(ops, window, cap, i)
    ensures SameLive(ops, window, states, n)
    ensures forall i :: 0 <= i < n ==> dups[i] == ReferenceDup(ops, window, i)
  {
    if n > 0 {
      AgreementWhileRoom(ops, window, cap, states, dups, n - 1);
      AgreementStep(ops, window, cap, states, dups, n - 1);
    }
  }

  /**
   * The bounded cache and the unbounded map remember the same unexpired
   * fingerprints throughout if and only if no new fingerprint ever arrives
   * while `cap` of them are unexpired.
   */
  lemma {:induction false} AgreesExactlyWhileRoom(ops: seq<Op>, window: nat, cap: nat, states: seq<Entries>,
                                        dups: seq<bool>)
    requires IsRun(ops, window, cap, states, dups)
    ensures (forall i :: 0 <= i < |ops| ==> RoomAt(ops, window, cap, i))
       <==> (forall n :: 0 <= n <= |ops| ==> SameLive(ops, window, states, n))
    ensures (forall i :: 0 <= i < |ops| ==> RoomAt(ops, window, cap, i)) ==>
              forall i :: 0 <= i < |ops| ==> dups[i] == ReferenceDup(ops, window, i)
  {
    if forall i :: 0 <= i < |ops| ==> RoomAt(ops, window, cap, i) {
      forall n | 0 <= n <= |ops|
        ensures SameLive(ops, window, states, n)
      {
        AgreementWhileRoom(ops, window, cap, states, dups, n);
      }
      AgreementWhileRoom(ops, window, cap, states, dups, |ops|);
    }
    if forall n :: 0 <= n <= |ops| ==> SameLive(ops, window, states, n) {
      forall i | 0 <= i < |ops|
        ensures RoomAt(ops, window, cap, i)
      {
        AgreementStep(ops, window, cap, states, dups, i);
      }
    }
  }

  // ----- Pruning is invisible -----

  /** The questions asked, with their times, in order. */
  function Checks(ops: seq<Op>): seq<Op> {
    if ops == [] then []
    else
      var op := ops[|ops| - 1];
      Checks(ops[..|ops| - 1]) + (if op.Check? then [op] else [])
  }

  /** The answers given to them. */
  function Answers(ops: seq<Op>, dups: seq<bool>): seq<bool>
    requires |ops| == |dups|
  {
    if ops == [] then []
    else
      var n := |ops| - 1;
      Answers(ops[..n], dups[..n]) + (if ops[n].Check? then [dups[n]] else [])
  }

  ghost predicate DistinctStamps(s: Entries) {
    forall j, k :: j in s && k in s && s[j] == s[k] ==> j == k
  }

  lemma {:induction false} StampsAreDistinct(ops: seq<Op>, window: nat, cap: nat, states: seq<Entries>,
                                        dups: seq<bool>, n: nat)
    requires IsRun(ops, window, cap, states, dups) && DistinctTimes(ops) && n <= |ops|
    ensures DistinctStamps(states[n])
  {
    EntriesWereAccepted(ops, window, cap, states, dups, n);
    forall j, k | j in states[n] && k in states[n] && states[n][j] == states[n][k]
      ensures j == k
    {
      var a :| 0 <= a < n && ops[..n][a] == Check(j, states[n][j]);
      var b :| 0 <= b < n && ops[..n][b] == Check(k, states[n][k]);
      assert ops[a].now == ops[b].now;
    }
  }

  /** With distinct stamps a check depends on the unexpired part alone. */
  lemma {:induction false} CheckSeesLivePartOnly(s: Entries, r: Entries, key: Key, now: Time, window: nat, cap: nat,
                              s': Entries, sDup: bool, r': Entries, rDup: bool)
    requires CheckStep(s, key, now, window, cap, s', sDup) && CheckStep(r, key, now, window, cap, r', rDup)
    requires |s| <= cap && |r| <= cap && NoLaterThan(s, now) && NoLaterThan(r, now)
    requires DistinctStamps(s) && DistinctStamps(r)
    requires Live(s, now, window) == Live(r, now, window)
    ensures sDup == rDup && Live(s', now, window) == Live(r', now, window)
  {
    var live := Live(s, now, window);
    CheckWithRoom(s, key, now, window, cap, s', sDup);
    CheckWithRoom(r, key, now, window, cap, r', rDup);
    LiveAfterInsert(s, r, key, now, window);
    if !sDup && |live| >= cap {
      FullCacheIsAllLive(s, now, window, cap);
      FullCacheIsAllLive(r, now, window, cap);
    }
  }

  lemma {:induction false} FullCacheIsAllLive(s: Entries, now: Time, window: nat, cap: nat)
    requires |s| <= cap <= |Live(s, now, window)|
    ensures Live(s, now, window) == s
  {
    var live := Live(s, now, window);
    assert |live.Keys| == |live| && |s.Keys| == |s|;
    SubsetOfSameSize(live.Keys, s.Keys);
  }

  lemma {:induction false} PruneInvisibleAt(ops: seq<Op>, states: seq<Entries>, dups: seq<bool>, n: nat,
                         ops': seq<Op>, states': seq<Entries>, dups': seq<bool>, n': nat,
                         window: nat, cap: nat, now: Time)
    requires IsRun(ops, window, cap, states, dups) && DistinctTimes(ops) && n <= |ops|
    requires IsRun(ops', window, cap, states', dups') && DistinctTimes(ops') && n' <= |ops'|
    requires n > 0 ==> ops[n - 1].now <= now
    requires n' > 0 ==> ops'[n' - 1].now <= now
    requires Checks(ops[..n]) == Checks(ops'[..n'])
    ensures Live(states[n], now, window) == Live(states'[n'], now, window)
    ensures Answers(ops[..n], dups[..n]) == Answers(ops'[..n'], dups'[..n'])
    decreases n + n'
  {
    hide IsRun, DistinctTimes, DistinctStamps, NoLaterThan, Checks, Answers;
    RunShape(ops, window, cap, states, dups);
    RunShape(ops', window, cap, states', dups');
    if n > 0 {
      LastStep(ops, window, cap, states, dups, n - 1, now);
    }
    if n' > 0 {
      LastStep(ops', window, cap, states', dups', n' - 1, now);
    }
    if n > 0 && ops[n - 1].Prune? {
      PruneInvisibleAt(ops, states, dups, n - 1, ops', states', dups', n', window, cap, now);
    } else if n' > 0 && ops'[n' - 1].Prune? {
      PruneInvisibleAt(ops, states, dups, n, ops', states', dups', n' - 1, window, cap, now);
    } else if n > 0 && n' > 0 {
      LastOfEqual(Checks(ops[..n - 1]), ops[n - 1], Checks(ops'[..n' - 1]), ops'[n' - 1]);
      var t := ops[n - 1].now;
      PruneInvisibleAt(ops, states, dups, n - 1, ops', states', dups', n' - 1, window, cap, t);
      CheckSeesLivePartOnly(states[n - 1], states'[n' - 1], ops[n - 1].key, t, window, cap,
                            states[n], dups[n - 1], states'[n'], dups'[n' - 1]);
    } else {
      NothingAsked(ops[..0], dups[..0]);
      NothingAsked(ops'[..0], dups'[..0]);
    }
  }

  lemma {:induction false} NothingAsked(ops: seq<Op>, dups: seq<bool>)
    requires ops == [] && dups == []
    ensures Checks(ops) == [] && Answers(ops, dups) == []
  {
  }

  lemma {:induction false} RunShape(ops: seq<Op>, window: nat, cap: nat, states: seq<Entries>, dups: seq<bool>)
    requires IsRun(ops, window, cap, states, dups)
    ensures |states| == |ops| + 1 && |dups| == |ops| && states[0] == map[]
  {
  }

  lemma {:induction false} LastOfEqual<T>(a: seq<T>, x: T, b: seq<T>, y: T)
    requires a + [x] == b + [y]
    ensures a == b && x == y
  {
    assert (a + [x])[..|a|] == a && (b + [y])[..|b|] == b;
    assert (a + [x])[|a|] == x && (b + [y])[|b|] == y;
  }

  /** Everything `PruneInvisibleAt` needs to know about one operation of a run. */
  lemma {:induction false} LastStep(ops: seq<Op>, window: nat, cap: nat, states: seq<Entries>, dups: seq<bool>,
                                    n: nat, now: Time)
    requires IsRun(ops, window, cap, states, dups) && DistinctTimes(ops) && n < |ops| && ops[n].now <= now
    ensures Step(ops[n], states[n], window, cap, states[n + 1], dups[n])
    ensures NoLaterThan(states[n], ops[n].now)
    ensures n > 0 ==> ops[n - 1].now <= ops[n].now
    ensures DistinctStamps(states[n]) && |states[n]| <= cap
    ensures Live(Live(states[n + 1], ops[n].now, window), now, window) == Live(states[n + 1], now, window)
    ensures ops[n].Prune? ==> Live(states[n + 1], now, window) == Live(states[n], now, window)
    ensures Checks(ops[..n + 1]) == Checks(ops[..n]) + (if ops[n].Check? then [ops[n]] else [])
    ensures Answers(ops[..n + 1], dups[..n + 1])
         == Answers(ops[..n], dups[..n]) + (if ops[n].Check? then [dups[n]] else [])
  {
    StatesNoLater(ops, window, cap, states, dups, n, ops[n].now);
    StatesNoLater(ops, window, cap, states, dups, n + 1, ops[n].now);
    StampsAreDistinct(ops, window, cap, states, dups, n);
    EntriesWereAccepted(ops, window, cap, states, dups, n);
    LiveLater(states[n], ops[n].now, now, window);
    LiveLater(states[n + 1], ops[n].now, now, window);
    assert ops[..n + 1][..n] == ops[..n] && dups[..n + 1][..n] == dups[..n];
  }

  /** Two runs that ask the same questions get the same answers, however they prune. */
  lemma {:induction false} PruningChangesNoAnswer(ops: seq<Op>, states: seq<Entries>, dups: seq<bool>,
                               ops': seq<Op>, states': seq<Entries>, dups': seq<bool>, window: nat, cap: nat)
    requires IsRun(ops, window, cap, states, dups) && DistinctTimes(ops)
    requires IsRun(ops', window, cap, states', dups') && DistinctTimes(ops')
    requires Checks(ops) == Checks(ops')
    ensures Answers(ops, dups) == Answers(ops', dups')
  {
    var n, n' := |ops|, |ops'|;
    assert ops[..n] == ops && dups[..n] == dups && ops'[..n'] == ops' && dups'[..n'] == dups';
    var now := if n == 0 then (if n' == 0 then 0 else ops'[n' - 1].now)
               else if n' == 0 || ops'[n' - 1].now <= ops[n - 1].now then ops[n - 1].now
               else ops'[n' - 1].now;
    PruneInvisibleAt(ops, states, dups, n, ops', states', dups', n', window, cap, now);
  }
}
