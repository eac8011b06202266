/** Tests with a look-back, and counts, told by the rows of the run table. */
module RunWindows {
  import opened Core
  import opened Condition
  import opened Evaluator
  import opened RunHistory

  const ENDED := {RunState.Success, RunState.Failed, RunState.Killed, RunState.Skipped, RunState.Lost}
  const ALL_STATES := ENDED + {RunState.Queued, RunState.Running}

  /** The rows in one of these states that were started, or if not that queued, within the window. */
  ghost function Recent(rows: seq<RunRow>, now: Time, window: nat, states: set<RunState>): set<nat> {
    set i: nat | i < |rows| && rows[i].state in states
                 && (match rows[i].startedAt
                     case Some(at) => at >= now - window
                     case None => rows[i].queuedAt >= now - window)
  }

  /** The operators that are true of two numbers. */
  function TrueOps(a: int, b: int): set<CmpOp> {
    if a < b then {Lt, Le, Ne} else if a == b then {Eq, Le, Ge} else {Gt, Ge, Ne}
  }

  lemma {:induction false} OperatorsCompare(op: CmpOp, a: int, b: int)
    ensures ApplyOp(op, a, b) <==> op in TrueOps(a, b)
  {
  }

  /** An exit code is compared as it stands. */
  lemma {:induction false} ExitCodesCompare(u: Upstream, j: string, op: CmpOp, n: int)
    ensures Evaluate(ExitCode(j, op, n), u)
         == if u.lastExit(j).None? then None else Some(op in TrueOps(u.lastExit(j).value, n))
  {
    if u.lastExit(j).Some? {
      OperatorsCompare(op, u.lastExit(j).value, n);
    }
  }

  /** A count without a look-back is one with half of the longest duration, in seconds. */
  lemma {:induction false} CountsGoBack(u: Upstream, j: string, op: CmpOp, n: int)
    ensures var ever := Some(9223372036854775807);
            && Evaluate(NumRun(j, op, n, None), u) == Evaluate(NumRun(j, op, n, ever), u)
            && Evaluate(NumSuc(j, op, n, None), u) == Evaluate(NumSuc(j, op, n, ever), u)
            && Evaluate(NumFail(j, op, n, None), u) == Evaluate(NumFail(j, op, n, ever), u)
  {
  }

  lemma {:induction false} CountIsCardinality(rows: seq<RunRow>, now: Time, window: nat, f: RunState -> bool,
                                              states: set<RunState>)
    requires forall st :: f(st) <==> st in states
    ensures Count(rows, InWindow(now, window, f)) == |Recent(rows, now, window, states)|
    decreases |rows|
  {
    if rows == [] {
      assert Recent(rows, now, window, states) == {};
    } else {
      var n, g := |rows| - 1, InWindow(now, window, f);
      CountIsCardinality(rows[..n], now, window, f, states);
      CountSplit(rows, n, g);
      assert Count(rows[n..], g) == if g(rows[n]) then 1 else 0 by {
        assert rows[n..] == [rows[n]] && [rows[n]][1..] == [];
      }
      OneMoreRow(rows, now, window, f, states);
    }
  }

  lemma {:induction false} OneMoreRow(rows: seq<RunRow>, now: Time, window: nat, f: RunState -> bool,
                                      states: set<RunState>)
    requires rows != [] && forall st :: f(st) <==> st in states
    ensures var n := |rows| - 1;
            Recent(rows, now, window, states)
            == Recent(rows[..n], now, window, states) + if InWindow(now, window, f)(rows[n]) then {n} else {}
    ensures |rows| - 1 !in Recent(rows[..|rows| - 1], now, window, states)
  {
    assert forall i :: 0 <= i < |rows| - 1 ==> rows[..|rows| - 1][i] == rows[i];
  }

  /** Counts of the snapshot, over the rows that its listing holds. */
  lemma {:induction false} WithinIsCardinality(snap: Snapshot, j: string, w: nat)
    requires j in snap.history
    ensures var rows := snap.history[j];
            && Within(snap, j, w, Any) == Some(|Recent(rows, snap.now, w, ALL_STATES)|)
            && Within(snap, j, w, Succeeded) == Some(|Recent(rows, snap.now, w, {RunState.Success})|)
            && Within(snap, j, w, RunHistory.Failed) == Some(|Recent(rows, snap.now, w, {RunState.Failed})|)
            && Within(snap, j, w, Terminal) == Some(|Recent(rows, snap.now, w, ENDED)|)
  {
    hide InWindow, Recent;
    var rows := snap.history[j];
    assert forall st: RunState :: st.Queued? || st.Running? || st in ENDED;
    CountIsCardinality(rows, snap.now, w, Any, ALL_STATES);
    CountIsCardinality(rows, snap.now, w, Succeeded, {RunState.Success});
    CountIsCardinality(rows, snap.now, w, RunHistory.Failed, {RunState.Failed});
    CountIsCardinality(rows, snap.now, w, Terminal, ENDED);
  }

  /** Rows that count the same in any order. */
  lemma {:induction false} OrderDoesNotMatter(a: seq<RunRow>, b: seq<RunRow>, now: Time, w: nat, states: set<RunState>)
    requires multiset(a) == multiset(b)
    ensures |Recent(a, now, w, states)| == |Recent(b, now, w, states)|
  {
    var f := (st: RunState) => st in states;
    CountIsCardinality(a, now, w, f, states);
    CountIsCardinality(b, now, w, f, states);
    CountIgnoresOrder(a, b, InWindow(now, w, f));
  }

  /** The tests of one job with a look-back of `w`, by these rows: at least one row, or how many. */
  ghost predicate AsksRows(u: Upstream, j: string, rows: seq<RunRow>, now: Time, w: nat) {
    && Evaluate(Expr.Success(j, Some(w)), u) == Some(Recent(rows, now, w, {RunState.Success}) != {})
    && Evaluate(Failure(j, Some(w)), u) == Some(Recent(rows, now, w, {RunState.Failed}) != {})
    && Evaluate(Done(j, Some(w)), u) == Some(Recent(rows, now, w, ENDED) != {})
    && (forall op, n ::
          Evaluate(NumRun(j, op, n, Some(w)), u) == Some(op in TrueOps(|Recent(rows, now, w, ALL_STATES)|, n)))
    && (forall op, n ::
          Evaluate(NumSuc(j, op, n, Some(w)), u) == Some(op in TrueOps(|Recent(rows, now, w, {RunState.Success})|, n)))
    && (forall op, n ::
          Evaluate(NumFail(j, op, n, Some(w)), u) == Some(op in TrueOps(|Recent(rows, now, w, {RunState.Failed})|, n)))
  }

  lemma {:induction false} RecentIsShort(rows: seq<RunRow>, now: Time, w: nat, states: set<RunState>)
    ensures |Recent(rows, now, w, states)| <= |rows|
  {
    var f := (st: RunState) => st in states;
    CountIsCardinality(rows, now, w, f, states);
    CountAtMostLength(rows, InWindow(now, w, f));
  }

  /**
   * Of a job whose newest 200 runs the snapshot shows, every test with a
   * look-back asks the rows of that listing that fall into the window.
   */
  lemma {:induction false} WindowsAskTheListing(snap: Snapshot, j: string, w: nat)
    requires j in snap.history && |snap.history[j]| <= 200
    ensures AsksRows(AsUpstream(snap), j, snap.history[j], snap.now, w)
  {
    hide Within, Recent, ApplyOp, AsI32, TrueOps;
    var rows := snap.history[j];
    WithinIsCardinality(snap, j, w);
    RecentIsShort(rows, snap.now, w, ALL_STATES);
    RecentIsShort(rows, snap.now, w, {RunState.Success});
    RecentIsShort(rows, snap.now, w, {RunState.Failed});
    forall op, a: nat, n
      ensures ApplyOp(op, a, n) <==> op in TrueOps(a, n)
    {
      OperatorsCompare(op, a, n);
    }
  }

  /** The snapshot never counts a run the table does not have, and misses none of a short history. */
  lemma {:induction false} SnapshotCountsTheTable(rows: seq<RunRow>, listing: seq<RunRow>, now: Time, w: nat,
                                                  states: set<RunState>)
    requires IsListing(rows, PER_JOB_HISTORY, listing)
    ensures |Recent(listing, now, w, states)| <= |Recent(rows, now, w, states)|
    ensures |rows| <= 200 ==> |Recent(listing, now, w, states)| == |Recent(rows, now, w, states)|
  {
    hide Recent;
    var f := (st: RunState) => st in states;
    var g := InWindow(now, w, f);
    var sorted: seq<RunRow> :| IsNewestFirst(rows, sorted) && listing == Prefix(sorted, PER_JOB_HISTORY);
    assert |multiset(sorted)| == |multiset(rows)|;
    CountIgnoresOrder(sorted, rows, g);
    CountSplit(sorted, |listing|, g);
    assert listing == sorted[..|listing|] && sorted[|sorted|..] == [];
    CountIsCardinality(rows, now, w, f, states);
    CountIsCardinality(listing, now, w, f, states);
  }

  lemma {:induction false} ShortListing(rows: seq<RunRow>, listing: seq<RunRow>)
    requires IsListing(rows, PER_JOB_HISTORY, listing)
    ensures |listing| <= 200 && (|rows| <= 200 ==> multiset(listing) == multiset(rows))
  {
    var sorted: seq<RunRow> :| IsNewestFirst(rows, sorted) && listing == Prefix(sorted, PER_JOB_HISTORY);
    assert |multiset(sorted)| == |multiset(rows)|;
  }

  /** And of a job with at most 200 runs, the rows of the table. */
  lemma {:induction false} WindowsAskTheTable(snap: Snapshot, table: Table, j: string, w: nat)
    requires Shows(snap, table) && j in table
    ensures |snap.history[j]| <= 200 && AsksRows(AsUpstream(snap), j, snap.history[j], snap.now, w)
    ensures |table[j]| <= 200 ==> AsksRows(AsUpstream(snap), j, table[j], snap.now, w)
  {
    hide IsListing, AsUpstream, Recent, Evaluate;
    ShortListing(table[j], snap.history[j]);
    WindowsAskTheListing(snap, j, w);
    if |table[j]| <= 200 {
      SameAnswers(AsUpstream(snap), j, snap.history[j], table[j], snap.now, w);
    }
  }

  lemma {:induction false} SameAnswers(u: Upstream, j: string, a: seq<RunRow>, b: seq<RunRow>, now: Time, w: nat)
    requires multiset(a) == multiset(b) && AsksRows(u, j, a, now, w)
    ensures AsksRows(u, j, b, now, w)
  {
    hide Recent, Evaluate, TrueOps;
    OrderDoesNotMatter(a, b, now, w, ALL_STATES);
    OrderDoesNotMatter(a, b, now, w, {RunState.Success});
    OrderDoesNotMatter(a, b, now, w, {RunState.Failed});
    OrderDoesNotMatter(a, b, now, w, ENDED);
    forall states: set<RunState>
      ensures Recent(a, now, w, states) == {} <==> |Recent(a, now, w, states)| == 0
      ensures Recent(b, now, w, states) == {} <==> |Recent(b, now, w, states)| == 0
    {
    }
  }
}
