/**
 * A live tail reading the log of a run while it is being written: every
 * interleaving of the run task, the reader's pages and checks of the run
 * state, and operators who change that state.
 */
module LogTail {
  import opened LogStore

  // A log row as it is read: its number and its chunk.
  type Row = (int, Chunk)

  // Rows per page.
  const PAGE := 500

  /** The reader polls, then looks at the run state; `seen` rows were there when it polled. */
  datatype Phase = Polling | Checking(drained: bool, seen: nat) | Ended(seen: nat)

  datatype State = State(
    consumed: nat,                 // chunks taken off the output stream
    seqNo: nat, bytes: nat, truncated: bool,
    rows: map<int, Chunk>,         // this run's log rows
    started: bool,                 // the process runs, or has run
    terminal: bool,                // the persisted run state
    marked: bool,                  // an operator has changed it; no step reads this
    nextSeq: int,
    sent: seq<Row>,                // frames delivered to the client
    phase: Phase)

  ghost predicate Init(s: State, from: int) {
    s == State(0, 0, 0, false, map[], false, false, false, from, [], Polling)
  }

  /**
   * The task stores Running, whatever an operator has made of the run by
   * then. A failed start is taken as one without output.
   */
  ghost predicate StartStep(s: State, s': State) {
    !s.started && s' == s.(started := true, terminal := false)
  }

  /** One turn of the writer's loop. */
  ghost predicate WriteStep(chunks: seq<Chunk>, s: State, s': State) {
    && s.started && s.consumed < |chunks|
    && var chunk := chunks[s.consumed];
       var fits := !s.truncated && s.bytes + |chunk.data| <= LOG_CAP;
       s' == s.(consumed := s.consumed + 1,
                bytes := s.bytes + |chunk.data|,
                truncated := s.truncated || !fits,
                seqNo := if fits then s.seqNo + 1 else s.seqNo,
                rows := if fits && s.seqNo !in s.rows then s.rows[s.seqNo := chunk] else s.rows)
  }

  /** The task stores the outcome once the output is drained. */
  ghost predicate FinishStep(chunks: seq<Chunk>, s: State, s': State) {
    s.started && s.consumed == |chunks| && s' == s.(terminal := true)
  }

  /** A status change, at any time. */
  ghost predicate MarkStep(s: State, s': State) {
    s' == s.(terminal := true, marked := true)
  }

  /** `SELECT ... WHERE seq >= from ORDER BY seq LIMIT limit`. */
  ghost predicate IsPage(rows: map<int, Chunk>, from: int, limit: nat, page: seq<Row>) {
    && |page| <= limit
    && (forall i :: 0 <= i < |page| ==> page[i].0 in rows && from <= page[i].0 && page[i].1 == rows[page[i].0])
    && (forall i, j :: 0 <= i < j < |page| ==> page[i].0 < page[j].0)
    && (forall k :: k in rows && from <= k && (forall i :: 0 <= i < |page| ==> page[i].0 != k) ==>
          |page| == limit && forall i :: 0 <= i < |page| ==> page[i].0 < k)
  }

  ghost predicate PollStep(s: State, s': State, page: seq<Row>) {
    && s.phase == Polling
    && IsPage(s.rows, s.nextSeq, PAGE, page)
    && s' == s.(nextSeq := if page == [] then s.nextSeq else page[|page| - 1].0 + 1,
                sent := s.sent + page,
                phase := Checking(page != [], s.seqNo))
  }

  /** The end frame is sent when the run is terminal and the last page was empty. */
  ghost predicate CheckStep(s: State, s': State) {
    && s.phase.Checking?
    && s' == s.(phase := if s.terminal && !s.phase.drained then Ended(s.phase.seen) else Polling)
  }

  ghost predicate Step(chunks: seq<Chunk>, s: State, s': State) {
    || StartStep(s, s')
    || WriteStep(chunks, s, s')
    || FinishStep(chunks, s, s')
    || MarkStep(s, s')
    || (exists page :: PollStep(s, s', page))
    || CheckStep(s, s')
  }

  ghost predicate IsRun(chunks: seq<Chunk>, from: int, states: seq<State>) {
    && |states| > 0 && Init(states[0], from)
    && forall i :: 0 <= i < |states| - 1 ==> Step(chunks, states[i], states[i + 1])
  }

  function Start(from: int): nat {
    if from < 0 then 0 else from
  }

  // ----- Invariant -----

  ghost predicate WriterInv(chunks: seq<Chunk>, s: State) {
    && s.consumed <= |chunks| && s.bytes == Total(chunks[..s.consumed])
    && (s.truncated <==> s.bytes > LOG_CAP)
    && s.seqNo <= s.consumed && (!s.truncated ==> s.seqNo == s.consumed)
    && IsLongestFit(chunks[..s.consumed], s.seqNo)
    && (forall k: int :: k in s.rows <==> 0 <= k < s.seqNo)
    && (forall k: int :: 0 <= k < s.seqNo ==> s.rows[k] == chunks[k])
  }

  /** What was sent is a slice of the stream: no gap, no repeat, nothing altered. */
  ghost predicate SentSlice(chunks: seq<Chunk>, from: int, s: State) {
    && (s.sent != [] ==> Start(from) + |s.sent| <= s.seqNo <= |chunks|)
    && (forall i :: 0 <= i < |s.sent| ==>
          Start(from) + i < |chunks| && s.sent[i] == (Start(from) + i, chunks[Start(from) + i]))
    && s.nextSeq == if s.sent == [] then from else Start(from) + |s.sent|
  }

  /** An empty page means everything that was there had been sent. */
  ghost predicate PhaseInv(from: int, s: State) {
    match s.phase
    case Polling => true
    case Checking(drained, seen) =>
      && seen <= s.seqNo
      && (s.sent != [] ==> Start(from) + |s.sent| <= seen)
      && (!drained ==> seen <= Start(from) + |s.sent|)
    case Ended(seen) =>
      && seen <= s.seqNo
      && (s.sent != [] ==> Start(from) + |s.sent| <= seen)
      && seen <= Start(from) + |s.sent|
  }

  /** Without an operator the run is over only when all its output is. */
  ghost predicate OverMeansDrained(chunks: seq<Chunk>, s: State) {
    && (s.consumed > 0 ==> s.started)
    && (s.terminal && !s.marked ==> s.started && s.consumed == |chunks|)
  }

  ghost predicate Inv(chunks: seq<Chunk>, from: int, s: State) {
    WriterInv(chunks, s) && SentSlice(chunks, from, s) && PhaseInv(from, s) && OverMeansDrained(chunks, s)
  }

  lemma {:induction false} WriteKeepsInv(chunks: seq<Chunk>, from: int, s: State, s': State)
    requires Inv(chunks, from, s) && WriteStep(chunks, s, s')
    ensures Inv(chunks, from, s')
  {
    hide Kept, IsLongestFit, Total;
    TotalNext(chunks, s.consumed);
    FitOneMore(chunks, s.consumed, s.seqNo);
  }

  /** Pages of gap-free rows are gap-free. */
  lemma {:induction false} PageIsContiguous(rows: map<int, Chunk>, n: nat, from: int, page: seq<Row>)
    requires forall k: int :: k in rows <==> 0 <= k < n
    requires IsPage(rows, from, PAGE, page)
    ensures forall i :: 0 <= i < |page| ==> page[i].0 == Start(from) + i
    ensures page == [] ==> n <= Start(from)
  {
    assert Start(from) in rows <==> Start(from) < n;
    forall i | 0 <= i < |page|
      ensures page[i].0 == Start(from) + i
    {
      PageEntry(rows, n, from, page, i);
    }
  }

  lemma {:induction false} PageEntry(rows: map<int, Chunk>, n: nat, from: int, page: seq<Row>, i: nat)
    requires forall k: int :: k in rows <==> 0 <= k < n
    requires IsPage(rows, from, PAGE, page) && i < |page|
    ensures page[i].0 == Start(from) + i
  {
    hide IsPage;
    if i > 0 {
      PageEntry(rows, n, from, page, i - 1);
    }
    var k := Start(from) + i;
    EntryIsStored(rows, from, page, i);
    if k < page[i].0 {
      NothingSkipped(rows, from, page, i, k);
    }
  }

  lemma {:induction false} EntryIsStored(rows: map<int, Chunk>, from: int, page: seq<Row>, i: nat)
    requires IsPage(rows, from, PAGE, page) && i < |page|
    ensures page[i].0 in rows && from <= page[i].0 && (i > 0 ==> page[i - 1].0 < page[i].0)
  {
  }

  /** A page leaves out no row between two of its entries. */
  lemma {:induction false} NothingSkipped(rows: map<int, Chunk>, from: int, page: seq<Row>, i: nat, k: int)
    requires IsPage(rows, from, PAGE, page) && i < |page| && from <= k < page[i].0 && (i > 0 ==> page[i - 1].0 < k)
    ensures k !in rows
  {
    NotListed(rows, page, i, k);
  }

  /** A number between two neighbouring entries is on no entry. */
  lemma {:induction false} NotListed(rows: map<int, Chunk>, page: seq<Row>, i: nat, k: int)
    requires i < |page| && k < page[i].0 && (i > 0 ==> page[i - 1].0 < k)
    requires forall a, b :: 0 <= a < b < |page| ==> page[a].0 < page[b].0
    ensures forall j :: 0 <= j < |page| ==> page[j].0 != k
  {
    forall j | 0 <= j < |page|
      ensures page[j].0 != k
    {
      if j < i {
        assert page[j].0 <= page[i - 1].0;
      } else {
        assert page[i].0 <= page[j].0;
      }
    }
  }

  lemma {:induction false} PollExtendsSlice(chunks: seq<Chunk>, from: int, s: State, page: seq<Row>, i: nat)
    requires Inv(chunks, from, s) && IsPage(s.rows, s.nextSeq, PAGE, page) && i < |page|
    ensures var k := Start(from) + |s.sent| + i;
            k < s.seqNo && page[i] == (k, chunks[k])
  {
    hide Kept, IsLongestFit, Total;
    PageIsContiguous(s.rows, s.seqNo, s.nextSeq, page);
    assert page[i].0 in s.rows;
  }

  lemma {:induction false} PollKeepsInv(chunks: seq<Chunk>, from: int, s: State, s': State, page: seq<Row>)
    requires Inv(chunks, from, s) && PollStep(s, s', page)
    ensures Inv(chunks, from, s')
  {
    hide Kept, IsLongestFit, Total, IsPage;
    PageIsContiguous(s.rows, s.seqNo, s.nextSeq, page);
    forall i | 0 <= i < |page|
      ensures var k := Start(from) + |s.sent| + i;
              k < s.seqNo && page[i] == (k, chunks[k])
    {
      PollExtendsSlice(chunks, from, s, page, i);
    }
    assert forall i :: 0 <= i < |s'.sent| ==> s'.sent[i] == if i < |s.sent| then s.sent[i] else page[i - |s.sent|];
    assert WriterInv(chunks, s');
    assert SentSlice(chunks, from, s');
  }

  lemma {:induction false} StepKeepsInv(chunks: seq<Chunk>, from: int, s: State, s': State)
    requires Inv(chunks, from, s) && Step(chunks, s, s')
    ensures Inv(chunks, from, s')
  {
    hide Kept, IsLongestFit, Total;
    if WriteStep(chunks, s, s') {
      WriteKeepsInv(chunks, from, s, s');
    } else if exists page :: PollStep(s, s', page) {
      var page :| PollStep(s, s', page);
      PollKeepsInv(chunks, from, s, s', page);
    }
  }

  lemma {:induction false} InvAlongRun(chunks: seq<Chunk>, from: int, states: seq<State>, i: nat)
    requires IsRun(chunks, from, states) && i < |states|
    ensures Inv(chunks, from, states[i])
  {
    if i == 0 {
      assert chunks[..0] == [];
    } else {
      InvAlongRun(chunks, from, states, i - 1);
      StepKeepsInv(chunks, from, states[i - 1], states[i]);
    }
  }

  // ----- Main results -----

  /** At every moment of every run the client holds a contiguous, in-order slice of the stream. */
  lemma {:induction false} TailDeliversSlice(chunks: seq<Chunk>, from: int, states: seq<State>, i: nat)
    requires IsRun(chunks, from, states) && i < |states|
    ensures var s := states[i];
            forall k :: 0 <= k < |s.sent| ==>
              Start(from) + k < |chunks| && s.sent[k] == (Start(from) + k, chunks[Start(from) + k])
    ensures states[i].sent != [] ==> Start(from) + |states[i].sent| <= Kept(chunks)
  {
    hide Kept, Total, IsLongestFit;
    var s := states[i];
    InvAlongRun(chunks, from, states, i);
    KeptGrows(chunks, s.consumed, s.seqNo);
  }

  lemma {:induction false} PageIsFull(rows: map<int, Chunk>, n: nat, from: int, page: seq<Row>)
    requires forall k: int :: k in rows <==> 0 <= k < n
    requires IsPage(rows, from, PAGE, page)
    ensures |page| <= 500 && (Start(from) + |page| < n ==> |page| == 500)
  {
    PageIsContiguous(rows, n, from, page);
    assert Start(from) + |page| in rows <==> Start(from) + |page| < n;
  }

  /** A page takes all the rows there are to send, up to five hundred. */
  lemma {:induction false} PageTakesAllThereIs(chunks: seq<Chunk>, from: int, states: seq<State>, i: nat,
                                        page: seq<Row>)
    requires IsRun(chunks, from, states) && i < |states| - 1 && PollStep(states[i], states[i + 1], page)
    ensures var there := states[i].seqNo - Start(from) - |states[i].sent|;
            |states[i + 1].sent| - |states[i].sent| == if there <= 0 then 0 else if there <= 500 then there else 500
  {
    hide Kept, IsLongestFit, Total, IsRun;
    var s := states[i];
    InvAlongRun(chunks, from, states, i);
    PageIsContiguous(s.rows, s.seqNo, s.nextSeq, page);
    if page != [] {
      PollExtendsSlice(chunks, from, s, page, |page| - 1);
    }
    PageIsFull(s.rows, s.seqNo, s.nextSeq, page);
  }

  lemma {:induction false} KeptGrows(chunks: seq<Chunk>, m: nat, n: nat)
    requires m <= |chunks| && IsLongestFit(chunks[..m], n)
    ensures n <= Kept(chunks)
    ensures m == |chunks| ==> n == Kept(chunks)
  {
    assert chunks[..m][..n] == chunks[..n];
    assert m == |chunks| ==> chunks[..m] == chunks;
  }

  /** All the rows this run will ever have, from `from` on, were sent. */
  ghost predicate Complete(chunks: seq<Chunk>, from: int, s: State) {
    Kept(chunks) <= Start(from) + |s.sent|
  }

  /**
   * The end frame promises completeness exactly when the rows that were there
   * at the last, empty page were all there would be (or all that were asked for).
   */
  lemma {:induction false} EndIsCompleteExactly(chunks: seq<Chunk>, from: int, states: seq<State>, i: nat)
    requires IsRun(chunks, from, states) && i < |states| && states[i].phase.Ended?
    ensures Complete(chunks, from, states[i]) <==> Kept(chunks) <= states[i].phase.seen || Kept(chunks) <= Start(from)
  {
    hide Kept, IsLongestFit, Total;
    InvAlongRun(chunks, from, states, i);
  }

  /** The page read at `poll` is the one that the check at `end` goes by. */
  ghost predicate IsLastPage(states: seq<State>, poll: nat, end: nat) {
    && poll < end < |states| && states[poll].phase == Polling && states[end].phase.Ended?
    && forall i :: poll < i < end ==> states[i].phase.Checking?
  }

  lemma {:induction false} LastPageIsSeen(chunks: seq<Chunk>, from: int, states: seq<State>, poll: nat, end: nat,
                                        i: nat)
    requires IsRun(chunks, from, states) && IsLastPage(states, poll, end) && poll < i <= end
    ensures !states[i].phase.Polling? && states[i].phase.seen == states[poll].seqNo
  {
    hide Init, WriteStep, IsPage;
    assert Step(chunks, states[i - 1], states[i]);
    if i - 1 > poll {
      LastPageIsSeen(chunks, from, states, poll, end, i - 1);
    }
    WriteKeepsPhase(chunks, states[i - 1], states[i]);
  }

  lemma {:induction false} WriteKeepsPhase(chunks: seq<Chunk>, s: State, s': State)
    ensures WriteStep(chunks, s, s') ==> s'.phase == s.phase
  {
  }

  /** If the writer was done when the last page was read, the end frame is honest. */
  lemma {:induction false} EndAfterDrainIsComplete(chunks: seq<Chunk>, from: int, states: seq<State>, poll: nat,
                                        end: nat)
    requires IsRun(chunks, from, states) && IsLastPage(states, poll, end)
    requires states[poll].consumed == |chunks|
    ensures Complete(chunks, from, states[end])
  {
    hide Kept, IsLongestFit, Total, IsRun;
    LastPageIsSeen(chunks, from, states, poll, end, end);
    InvAlongRun(chunks, from, states, poll);
    InvAlongRun(chunks, from, states, end);
    KeptGrows(chunks, |chunks|, states[poll].seqNo);
  }

  /** It is if the run was already over before that page, and no operator had changed its state. */
  lemma {:induction false} EndAfterOutcomeIsComplete(chunks: seq<Chunk>, from: int, states: seq<State>, poll: nat,
                                        end: nat)
    requires IsRun(chunks, from, states) && IsLastPage(states, poll, end)
    requires states[poll].terminal && !states[poll].marked
    ensures Complete(chunks, from, states[end])
  {
    hide IsRun, WriterInv, SentSlice, PhaseInv, Complete;
    InvAlongRun(chunks, from, states, poll);
    EndAfterDrainIsComplete(chunks, from, states, poll, end);
  }

  /** A one-row log whose row is appended between the empty page and the check. */
  ghost function LosingStates(chunk: Chunk): seq<State> {
    var s0 := State(0, 0, 0, false, map[], false, false, false, 0, [], Polling);
    var s1 := s0.(started := true);
    var s2 := s1.(phase := Checking(false, 0));
    var s3 := s2.(consumed := 1, seqNo := 1, bytes := |chunk.data|, rows := map[0 := chunk]);
    var s4 := s3.(terminal := true);
    [s0, s1, s2, s3, s4, s4.(phase := Ended(0))]
  }

  lemma {:induction false} LosingRun(chunk: Chunk)
    requires |chunk.data| <= LOG_CAP
    ensures IsRun([chunk], 0, LosingStates(chunk))
  {
    hide Kept;
    var states := LosingStates(chunk);
    assert StartStep(states[0], states[1]);
    assert PollStep(states[1], states[2], []);
    assert states[2].rows[0 := chunk] == map[0 := chunk];
    assert WriteStep([chunk], states[2], states[3]);
    assert FinishStep([chunk], states[3], states[4]);
    assert CheckStep(states[4], states[5]);
  }

  /** The end frame can come with a row unsent, whatever the row holds, and without any operator. */
  lemma {:induction false} EndCanLoseRows(chunk: Chunk)
    requires 0 < |chunk.data| <= LOG_CAP
    ensures exists states: seq<State>, i: nat ::
              && IsRun([chunk], 0, states) && i < |states| && states[i].phase.Ended? && !states[i].marked
              && states[i].sent == [] && Kept([chunk]) == 1 && !Complete([chunk], 0, states[i])
  {
    hide IsRun;
    var states := LosingStates(chunk);
    LosingRun(chunk);
    assert Total([chunk]) == Total([chunk][..0]) + |chunk.data|;
    assert Kept([chunk]) == 1;
    assert !Complete([chunk], 0, states[5]);
  }
}
