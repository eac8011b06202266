/** The snapshot of run history that conditions are evaluated against. */
module RunHistory {
  import opened Ascii
  import opened Core
  import opened Evaluator
  import opened Condition
  import Whitespace

  datatype RunRow = RunRow(state: RunState, exitCode: Option<int>, queuedAt: Time, startedAt: Option<Time>)

  // How many recent runs of a job the snapshot keeps.
  const PER_JOB_HISTORY := 200

  function When(r: RunRow): Time {
    if r.startedAt.Some? then r.startedAt.value else r.queuedAt
  }

  /** `ORDER BY queued_at DESC LIMIT limit` over the rows of one job; ties are open. */
  ghost predicate IsListing(rows: seq<RunRow>, limit: nat, listing: seq<RunRow>) {
    exists sorted: seq<RunRow> :: IsNewestFirst(rows, sorted) && listing == Prefix(sorted, limit)
  }

  ghost predicate IsNewestFirst(rows: seq<RunRow>, sorted: seq<RunRow>) {
    && multiset(sorted) == multiset(rows)
    && forall i, j :: 0 <= i < j < |sorted| ==> sorted[j].queuedAt <= sorted[i].queuedAt
  }

  function Prefix<T>(s: seq<T>, limit: nat): seq<T> {
    if |s| <= limit then s else s[..limit]
  }

  datatype Latest = Latest(state: RunState, exitCode: Option<int>, running: bool)

  datatype Snapshot = Snapshot(
    latest: map<string, Latest>,
    history: map<string, seq<RunRow>>,
    globals: map<string, string>,
    now: Time)

  function LatestOf(r: RunRow): Latest {
    Latest(r.state, r.exitCode, r.state == RunState.Running || r.state == RunState.Queued)
  }

  /** The snapshot holds, for every job, its listing and the head of it. */
  ghost predicate Captures(snap: Snapshot, jobs: seq<string>, listings: seq<seq<RunRow>>)
    requires |jobs| == |listings|
  {
    && snap.history.Keys == (set n | n in jobs)
    && (forall i :: 0 <= i < |jobs| ==> snap.history[jobs[i]] == listings[i])
    && (forall n :: n in snap.latest <==> n in snap.history && snap.history[n] != [])
    && (forall n :: n in snap.latest ==> snap.latest[n] == LatestOf(snap.history[n][0]))
  }

  /** Builds the snapshot from the listing of every job; job names are unique. */
  method TakeSnapshot(jobs: seq<string>, listings: seq<seq<RunRow>>, globals: map<string, string>, now: Time)
    returns (snap: Snapshot)
    requires |jobs| == |listings|
    requires forall i, j :: 0 <= i < j < |jobs| ==> jobs[i] != jobs[j]
    ensures Captures(snap, jobs, listings)
    ensures snap.globals == globals && snap.now == now
  {
    var latest: map<string, Latest> := map[];
    var history: map<string, seq<RunRow>> := map[];
    assert Captures(Snapshot(latest, history, globals, now), jobs[..0], listings[..0]);
    hide Captures, LatestOf;
    for i := 0 to |jobs|
      invariant Captures(Snapshot(latest, history, globals, now), jobs[..i], listings[..i])
    {
      var runs := listings[i];
      OneMoreCaptured(Snapshot(latest, history, globals, now), jobs, listings, i);
      if runs != [] {
        latest := latest[jobs[i] := LatestOf(runs[0])];
      }
      history := history[jobs[i] := runs];
    }
    assert jobs[..|jobs|] == jobs && listings[..|jobs|] == listings;
    snap := Snapshot(latest, history, globals, now);
  }

  lemma {:induction false} OneMoreCaptured(snap: Snapshot, jobs: seq<string>, listings: seq<seq<RunRow>>, i: nat)
    requires i < |jobs| == |listings| && Captures(snap, jobs[..i], listings[..i])
    requires forall a, b :: 0 <= a < b < |jobs| ==> jobs[a] != jobs[b]
    ensures var (j, runs) := (jobs[i], listings[i]);
            var latest := if runs != [] then snap.latest[j := LatestOf(runs[0])] else snap.latest;
            var next := Snapshot(latest, snap.history[j := runs], snap.globals, snap.now);
            Captures(next, jobs[..i + 1], listings[..i + 1])
  {
    hide LatestOf;
    var j := jobs[i];
    assert jobs[..i + 1] == jobs[..i] + [j] && listings[..i + 1] == listings[..i] + [listings[i]];
    assert j !in snap.history by {
      assert forall a :: 0 <= a < i ==> jobs[..i][a] == jobs[a];
    }
  }

  function Count(rows: seq<RunRow>, f: RunRow -> bool): nat {
    if rows == [] then 0 else (if f(rows[0]) then 1 else 0) + Count(rows[1..], f)
  }

  function InWindow(now: Time, window: nat, f: RunState -> bool): RunRow -> bool {
    (r: RunRow) => When(r) >= now - window && f(r.state)
  }

  function Within(snap: Snapshot, job: string, window: nat, f: RunState -> bool): Option<nat> {
    if job in snap.history then Some(Count(snap.history[job], InWindow(snap.now, window, f))) else None
  }

  predicate Succeeded(st: RunState) { st == RunState.Success }
  predicate Failed(st: RunState) { st == RunState.Failed }
  predicate Terminal(st: RunState) { st.IsTerminal() }
  predicate Any(st: RunState) { true }

  function Positive(n: Option<nat>): Option<bool> {
    if n.None? then None else Some(n.value > 0)
  }

  /** A global holds if its value says so. */
  predicate SaysYes(value: string) {
    Lower(Whitespace.Trim(value)) in {"y", "yes", "true", "1"}
  }

  /** The snapshot as the evaluator sees it. */
  function AsUpstream(snap: Snapshot): Upstream {
    Upstream(
      (j: string) => if j in snap.latest then Some(snap.latest[j].state) else None,
      (j: string) => if j in snap.latest then snap.latest[j].exitCode else None,
      (j: string) => j in snap.latest && snap.latest[j].running,
      (j: string, w: nat) => Positive(Within(snap, j, w, Succeeded)),
      (j: string, w: nat) => Positive(Within(snap, j, w, Failed)),
      (j: string, w: nat) => Positive(Within(snap, j, w, Terminal)),
      (j: string, w: nat) => Within(snap, j, w, Any),
      (j: string, w: nat) => Within(snap, j, w, Succeeded),
      (j: string, w: nat) => Within(snap, j, w, Failed),
      (n: string) => if n in snap.globals then Some(SaysYes(snap.globals[n])) else None)
  }

  // ----- Counting -----

  lemma {:induction false} CountAtMostLength(rows: seq<RunRow>, f: RunRow -> bool)
    ensures Count(rows, f) <= |rows|
  {
    if rows != [] {
      CountAtMostLength(rows[1..], f);
    }
  }

  lemma {:induction false} CountSplit(rows: seq<RunRow>, i: nat, f: RunRow -> bool)
    requires i <= |rows|
    ensures Count(rows, f) == Count(rows[..i], f) + Count(rows[i..], f)
  {
    if i == 0 {
      assert rows[0..] == rows;
    } else {
      CountSplit(rows[1..], i - 1, f);
      assert rows[..i][1..] == rows[1..][..i - 1] && rows[1..][i - 1..] == rows[i..];
    }
  }

  /** Taking one row out. */
  lemma {:induction false} Without(rows: seq<RunRow>, i: nat, f: RunRow -> bool)
    requires i < |rows|
    ensures var rest := rows[..i] + rows[i + 1..];
            multiset(rest) == multiset(rows) - multiset{rows[i]}
            && Count(rows, f) == Count(rest, f) + (if f(rows[i]) then 1 else 0)
  {
    var rest := rows[..i] + rows[i + 1..];
    assert rows == rows[..i] + ([rows[i]] + rows[i + 1..]);
    CountSplit(rows, i, f);
    CountSplit(rest, i, f);
    assert rest[..i] == rows[..i] && rest[i..] == rows[i + 1..] && rows[i..][1..] == rows[i + 1..];
  }

  lemma {:induction false} CountIgnoresOrder(a: seq<RunRow>, b: seq<RunRow>, f: RunRow -> bool)
    requires multiset(a) == multiset(b)
    ensures Count(a, f) == Count(b, f)
    decreases |a|
  {
    assert |a| == |multiset(a)| == |multiset(b)| == |b|;
    if a != [] {
      assert a[0] in multiset(b);
      var i :| 0 <= i < |b| && b[i] == a[0];
      Without(b, i, f);
      assert multiset(a[1..]) == multiset(a) - multiset{a[0]} by {
        assert a == [a[0]] + a[1..];
      }
      CountIgnoresOrder(a[1..], b[..i] + b[i + 1..], f);
    }
  }

  lemma {:induction false} CountMonotone(rows: seq<RunRow>, f: RunRow -> bool, g: RunRow -> bool)
    requires forall r :: f(r) ==> g(r)
    ensures Count(rows, f) <= Count(rows, g)
  {
    if rows != [] {
      CountMonotone(rows[1..], f, g);
    }
  }

  /** A wider window never counts less. */
  lemma {:induction false} WiderWindowCountsMore(snap: Snapshot, job: string, w: nat, w': nat, f: RunState -> bool)
    requires job in snap.history && w <= w'
    ensures Within(snap, job, w, f).value <= Within(snap, job, w', f).value
  {
    CountMonotone(snap.history[job], InWindow(snap.now, w, f), InWindow(snap.now, w', f));
  }

  /**
   * With a look-back, `success` and `failure` ask whether the corresponding
   * count is at least one.
   */
  lemma {:induction false} StateIsACount(snap: Snapshot, job: string, w: nat)
    requires job in snap.history ==> |snap.history[job]| <= PER_JOB_HISTORY
    ensures Evaluate(Expr.Success(job, Some(w)), AsUpstream(snap))
         == Evaluate(NumSuc(job, Ge, 1, Some(w)), AsUpstream(snap))
    ensures Evaluate(Failure(job, Some(w)), AsUpstream(snap))
         == Evaluate(NumFail(job, Ge, 1, Some(w)), AsUpstream(snap))
  {
    if job in snap.history {
      CountAtMostLength(snap.history[job], InWindow(snap.now, w, Succeeded));
      CountAtMostLength(snap.history[job], InWindow(snap.now, w, Failed));
    }
  }

  /** The newest row of a job, by the time it was queued. */
  ghost predicate IsNewest(rows: seq<RunRow>, r: RunRow) {
    r in rows && forall other :: other in rows ==> other.queuedAt <= r.queuedAt
  }

  lemma {:induction false} HeadIsNewest(rows: seq<RunRow>, limit: nat, listing: seq<RunRow>)
    requires IsListing(rows, limit, listing) && limit > 0
    ensures listing == [] <==> rows == []
    ensures listing != [] ==> IsNewest(rows, listing[0])
  {
    var sorted: seq<RunRow> :| IsNewestFirst(rows, sorted) && listing == Prefix(sorted, limit);
    assert |multiset(sorted)| == |multiset(rows)|;
    if listing != [] {
      assert sorted[0] in multiset(rows);
      forall other | other in rows
        ensures other.queuedAt <= sorted[0].queuedAt
      {
        assert other in multiset(sorted);
        var k :| 0 <= k < |sorted| && sorted[k] == other;
      }
    }
  }

  /** State tests without a look-back, and exit codes, answer by one run. */
  ghost predicate JudgedBy(u: Upstream, j: string, r: RunRow) {
    && Evaluate(Expr.Success(j, None), u) == Some(r.state == RunState.Success)
    && Evaluate(Failure(j, None), u) == Some(r.state == RunState.Failed)
    && Evaluate(Done(j, None), u) == Some(r.state.IsTerminal())
    && Evaluate(Expr.Running(j), u) == Some(!r.state.IsTerminal())
    && Evaluate(NotRunning(j), u) == Some(r.state.IsTerminal())
    && forall op, n :: Evaluate(ExitCode(j, op, n), u) == Compared(op, r.exitCode, n)
  }

  /**
   * A job of the table without a run: its state and exit code are unknown, but
   * it is known not to be running, to have run zero times, and not to have
   * ended in any window.
   */
  ghost predicate NeverRan(u: Upstream, j: string) {
    && Evaluate(Expr.Success(j, None), u) == Evaluate(Failure(j, None), u) == Evaluate(Done(j, None), u) == None
    && (forall op, n :: Evaluate(ExitCode(j, op, n), u) == None)
    && Evaluate(Expr.Running(j), u) == Some(false) && Evaluate(NotRunning(j), u) == Some(true)
    && (forall w :: Evaluate(Expr.Success(j, Some(w)), u) == Some(false))
    && (forall w :: Evaluate(Failure(j, Some(w)), u) == Evaluate(Done(j, Some(w)), u) == Some(false))
    && (forall op, n, lb :: Evaluate(NumRun(j, op, n, lb), u) == Some(ApplyOp(op, 0, n)))
    && (forall op, n, lb :: Evaluate(NumSuc(j, op, n, lb), u) == Some(ApplyOp(op, 0, n)))
    && (forall op, n, lb :: Evaluate(NumFail(j, op, n, lb), u) == Some(ApplyOp(op, 0, n)))
  }

  /** The state tests without a look-back, and exit codes, judge a job by its newest run. */
  lemma {:induction false} NewestRunDecides(snap: Snapshot, jobs: seq<string>, listings: seq<seq<RunRow>>, i: nat,
                                            rows: seq<RunRow>)
    requires |jobs| == |listings| && Captures(snap, jobs, listings) && i < |jobs|
    requires IsListing(rows, PER_JOB_HISTORY, listings[i])
    ensures if rows == [] then NeverRan(AsUpstream(snap), jobs[i])
            else exists r :: IsNewest(rows, r) && JudgedBy(AsUpstream(snap), jobs[i], r)
  {
    hide IsListing, IsNewest, JudgedBy, NeverRan, AsUpstream;
    HeadIsNewest(rows, PER_JOB_HISTORY, listings[i]);
    if rows != [] {
      LatestJudges(snap, jobs[i], listings[i][0]);
    } else {
      NothingToJudge(snap, jobs[i]);
    }
  }

  lemma {:induction false} LatestJudges(snap: Snapshot, j: string, r: RunRow)
    requires j in snap.latest && snap.latest[j] == LatestOf(r)
    ensures JudgedBy(AsUpstream(snap), j, r)
  {
    hide Within;
  }

  lemma {:induction false} NothingToJudge(snap: Snapshot, j: string)
    requires j !in snap.latest && j in snap.history && snap.history[j] == []
    ensures NeverRan(AsUpstream(snap), j)
  {
    hide Evaluate, AsUpstream;
    forall op, n
      ensures Evaluate(ExitCode(j, op, n), AsUpstream(snap)) == None
    {
      StateIsUnknown(snap, j, op, n);
    }
    StateIsUnknown(snap, j, Eq, 0);
    forall w
      ensures Evaluate(Expr.Success(j, Some(w)), AsUpstream(snap)) == Some(false)
      ensures Evaluate(Failure(j, Some(w)), AsUpstream(snap)) == Some(false)
      ensures Evaluate(Done(j, Some(w)), AsUpstream(snap)) == Some(false)
    {
      NoneInWindow(snap, j, w);
    }
    forall op, n, lb
      ensures Evaluate(NumRun(j, op, n, lb), AsUpstream(snap)) == Some(ApplyOp(op, 0, n))
      ensures Evaluate(NumSuc(j, op, n, lb), AsUpstream(snap)) == Some(ApplyOp(op, 0, n))
      ensures Evaluate(NumFail(j, op, n, lb), AsUpstream(snap)) == Some(ApplyOp(op, 0, n))
    {
      NoneCounted(snap, j, op, n, lb);
    }
  }

  lemma {:induction false} StateIsUnknown(snap: Snapshot, j: string, op: CmpOp, n: int)
    requires j !in snap.latest
    ensures var u := AsUpstream(snap);
            && Evaluate(Expr.Success(j, None), u) == Evaluate(Failure(j, None), u) == Evaluate(Done(j, None), u) == None
            && Evaluate(ExitCode(j, op, n), u) == None
            && Evaluate(Expr.Running(j), u) == Some(false) && Evaluate(NotRunning(j), u) == Some(true)
  {
    hide Within;
  }

  lemma {:induction false} NoneInWindow(snap: Snapshot, j: string, w: nat)
    requires j in snap.history && snap.history[j] == []
    ensures Evaluate(Expr.Success(j, Some(w)), AsUpstream(snap)) == Some(false)
    ensures Evaluate(Failure(j, Some(w)), AsUpstream(snap)) == Some(false)
    ensures Evaluate(Done(j, Some(w)), AsUpstream(snap)) == Some(false)
  {
    assert Within(snap, j, w, Succeeded) == Within(snap, j, w, Failed) == Within(snap, j, w, Terminal) == Some(0);
    hide Within;
  }

  lemma {:induction false} NoneCounted(snap: Snapshot, j: string, op: CmpOp, n: int, lb: LookBack)
    requires j in snap.history && snap.history[j] == []
    ensures Evaluate(NumRun(j, op, n, lb), AsUpstream(snap)) == Some(ApplyOp(op, 0, n))
    ensures Evaluate(NumSuc(j, op, n, lb), AsUpstream(snap)) == Some(ApplyOp(op, 0, n))
    ensures Evaluate(NumFail(j, op, n, lb), AsUpstream(snap)) == Some(ApplyOp(op, 0, n))
  {
    var w := WindowOf(lb);
    assert Within(snap, j, w, Any) == Within(snap, j, w, Succeeded) == Within(snap, j, w, Failed) == Some(0);
    hide Within;
  }

  lemma {:induction false} YesWords()
    ensures forall word :: word in {"y", "yes", "true", "1"} ==> Whitespace.IsTrim(word)
  {
  }

  /** A global that is set is known: true if it is one of four words, in any letter case and padding, else false. */
  lemma {:induction false} GlobalsSayYes(snap: Snapshot, name: string)
    ensures Evaluate(Expr.Value(name), AsUpstream(snap))
         == if name in snap.globals then Some(Whitespace.IsPadded(snap.globals[name], {"y", "yes", "true", "1"}))
            else None
  {
    hide Within, Lower, Whitespace.Trim, Whitespace.IsTrim, Whitespace.IsPadded;
    if name in snap.globals {
      var value := snap.globals[name];
      Whitespace.LowerTrims(value);
      YesWords();
      Whitespace.PaddedIsTrim(value, {"y", "yes", "true", "1"});
    }
  }

  // ----- What is unknown -----

  // All runs of every job there is, by name.
  type Table = map<string, seq<RunRow>>

  /** A snapshot taken of the table, every job listed once. */
  ghost predicate Shows(snap: Snapshot, table: Table) {
    && snap.history.Keys == table.Keys
    && (forall j :: j in table ==> IsListing(table[j], PER_JOB_HISTORY, snap.history[j]))
    && (forall j :: j in snap.latest <==> j in table && snap.history[j] != [])
    && (forall j :: j in snap.latest ==> snap.latest[j] == LatestOf(snap.history[j][0]))
  }

  /** The loop takes such a snapshot. */
  lemma {:induction false} CapturedIsShown(snap: Snapshot, jobs: seq<string>, listings: seq<seq<RunRow>>, table: Table)
    requires |jobs| == |listings| && Captures(snap, jobs, listings) && table.Keys == set n | n in jobs
    requires forall i :: 0 <= i < |jobs| ==> IsListing(table[jobs[i]], PER_JOB_HISTORY, listings[i])
    ensures Shows(snap, table)
  {
    hide IsListing;
  }

  /** A job that is not there, or has not run yet. */
  predicate NoHistory(table: Table, j: string) {
    j !in table || table[j] == []
  }

  /** The job a test is about. */
  function JobOf(leaf: Expr): Option<string> {
    match leaf
    case Success(j, _) => Some(j)
    case Failure(j, _) => Some(j)
    case Done(j, _) => Some(j)
    case Running(j) => Some(j)
    case NotRunning(j) => Some(j)
    case ExitCode(j, _, _) => Some(j)
    case NumRun(j, _, _, _) => Some(j)
    case NumSuc(j, _, _, _) => Some(j)
    case NumFail(j, _, _, _) => Some(j)
    case _ => None
  }

  predicate AsksUnrun(table: Table, leaf: Expr) {
    JobOf(leaf).Some? && NoHistory(table, JobOf(leaf).value)
  }

  /** Tests that are answered although the job has no history. */
  predicate IsExempt(table: Table, leaf: Expr) {
    match leaf
    case Running(_) => true
    case NotRunning(_) => true
    case Success(j, lb) => j in table && lb.Some?
    case Failure(j, lb) => j in table && lb.Some?
    case Done(j, lb) => j in table && lb.Some?
    case NumRun(j, _, _, _) => j in table
    case NumSuc(j, _, _, _) => j in table
    case NumFail(j, _, _, _) => j in table
    case _ => false
  }

  /** Tests that are not answered although the job has run, or that are about no job. */
  predicate LacksValue(snap: Snapshot, leaf: Expr) {
    match leaf
    case ExitCode(j, _, _) => j in snap.latest && snap.latest[j].exitCode.None?
    case Value(n) => n !in snap.globals
    case _ => false
  }

  predicate IsUnknown(snap: Snapshot, table: Table, leaf: Expr) {
    if AsksUnrun(table, leaf) then !IsExempt(table, leaf) else LacksValue(snap, leaf)
  }

  /** Counts, and state tests with a look-back. */
  predicate AsksWindow(leaf: Expr) {
    match leaf
    case Success(_, lb) => lb.Some?
    case Failure(_, lb) => lb.Some?
    case Done(_, lb) => lb.Some?
    case NumRun(_, _, _, _) => true
    case NumSuc(_, _, _, _) => true
    case NumFail(_, _, _, _) => true
    case _ => false
  }

  lemma {:induction false} WindowIsKnownExactly(snap: Snapshot, leaf: Expr)
    requires AsksWindow(leaf)
    ensures Evaluate(leaf, AsUpstream(snap)).None? <==> JobOf(leaf).value !in snap.history
  {
    hide Count, InWindow;
  }

  lemma {:induction false} LatestIsKnownExactly(snap: Snapshot, leaf: Expr)
    requires IsLeaf(leaf) && !AsksWindow(leaf) && JobOf(leaf).Some?
    ensures var j := JobOf(leaf).value;
            Evaluate(leaf, AsUpstream(snap)).None?
            <==> !leaf.Running? && !leaf.NotRunning? && (j !in snap.latest || LacksValue(snap, leaf))
  {
    hide Within;
  }

  lemma {:induction false} ShownExactly(snap: Snapshot, table: Table, j: string)
    requires Shows(snap, table)
    ensures j in snap.history <==> j in table
    ensures j in snap.latest <==> !NoHistory(table, j)
  {
    hide IsListing, IsNewest;
    if j in table {
      HeadIsNewest(table[j], PER_JOB_HISTORY, snap.history[j]);
    }
  }

  lemma {:induction false} LeafUnknownExactly(snap: Snapshot, table: Table, leaf: Expr)
    requires Shows(snap, table) && IsLeaf(leaf)
    ensures Evaluate(leaf, AsUpstream(snap)).None? <==> IsUnknown(snap, table, leaf)
  {
    hide Shows, Evaluate, AsUpstream, NoHistory;
    if JobOf(leaf).None? {
      GlobalIsKnownExactly(snap, leaf);
    } else {
      ShownExactly(snap, table, JobOf(leaf).value);
      NotThereIsUnrun(table, JobOf(leaf).value);
      if AsksWindow(leaf) {
        WindowIsKnownExactly(snap, leaf);
      } else {
        LatestIsKnownExactly(snap, leaf);
      }
    }
  }

  lemma {:induction false} NotThereIsUnrun(table: Table, j: string)
    ensures j !in table ==> NoHistory(table, j)
  {
  }

  lemma {:induction false} GlobalIsKnownExactly(snap: Snapshot, leaf: Expr)
    requires IsLeaf(leaf) && JobOf(leaf).None?
    ensures Evaluate(leaf, AsUpstream(snap)).None? <==> LacksValue(snap, leaf)
  {
    hide Within;
  }

  lemma {:induction false} LeavesAreLeaves(e: Expr)
    ensures forall l :: l in Leaves(e) ==> IsLeaf(l)
  {
    match e
    case And(a, b) =>
      LeavesAreLeaves(a);
      LeavesAreLeaves(b);
    case Or(a, b) =>
      LeavesAreLeaves(a);
      LeavesAreLeaves(b);
    case Not(a) => LeavesAreLeaves(a);
    case _ =>
  }

  /** An expression is unknown exactly when one of its tests is. */
  lemma {:induction false} UnknownExactly(snap: Snapshot, table: Table, e: Expr)
    requires Shows(snap, table)
    ensures Evaluate(e, AsUpstream(snap)).None? <==> exists l :: l in Leaves(e) && IsUnknown(snap, table, l)
  {
    hide Shows, IsUnknown, Evaluate, AsUpstream, Leaves, Classical, IsLeaf;
    var u := AsUpstream(snap);
    EvaluationIsStrict(e, u, l => Evaluate(l, u) == Some(true));
    LeavesAreLeaves(e);
    forall l | l in Leaves(e)
      ensures Evaluate(l, u).None? <==> IsUnknown(snap, table, l)
    {
      LeafUnknownExactly(snap, table, l);
    }
  }

  /** The expression refers to a job without history: by the documentation it is then unknown, and only then. */
  ghost predicate RefersToUnrun(table: Table, e: Expr) {
    exists l :: l in Leaves(e) && AsksUnrun(table, l)
  }

  /**
   * The documented rule fails in two ways. An expression about a job without
   * history is answered all the same exactly when all its tests of such jobs
   * are exempt and no other lacks a value; and one about jobs with history
   * only is left unknown exactly when a test lacks a value.
   */
  lemma {:induction false} DocumentedRuleFailsExactly(snap: Snapshot, table: Table, e: Expr)
    requires Shows(snap, table)
    ensures RefersToUnrun(table, e) ==>
              (Evaluate(e, AsUpstream(snap)).Some?
               <==> forall l :: l in Leaves(e) ==>
                      if AsksUnrun(table, l) then IsExempt(table, l) else !LacksValue(snap, l))
    ensures !RefersToUnrun(table, e) ==>
              (Evaluate(e, AsUpstream(snap)).None? <==> exists l :: l in Leaves(e) && LacksValue(snap, l))
  {
    hide Shows, Evaluate, AsUpstream, Leaves, AsksUnrun, IsExempt, LacksValue;
    UnknownExactly(snap, table, e);
  }

  /** For one: `numrun(j, 00.01) = 0` holds, and `success(j, 00.01)` does not, of a job that is there but never ran. */
  lemma {:induction false} NeverRunIsCounted(snap: Snapshot, table: Table, j: string)
    requires Shows(snap, table) && j in table && table[j] == []
    ensures Evaluate(NumRun(j, Eq, 0, Some(60)), AsUpstream(snap)) == Some(true)
    ensures Evaluate(Expr.Success(j, Some(60)), AsUpstream(snap)) == Some(false)
  {
    hide IsListing;
    HeadIsNewest(table[j], PER_JOB_HISTORY, snap.history[j]);
    NothingToJudge(snap, j);
  }
}
