/** Persisting the output of a run: chunks in order, up to a byte cap. */
module LogStore {
  import opened Core

  datatype Stream = Stdout | Stderr | Plugin

  datatype Chunk = Chunk(stream: Stream, ts: Time, data: seq<bv8>)

  // Bytes kept per run.
  const LOG_CAP := 100 * 1024 * 1024

  function Total(chunks: seq<Chunk>): nat {
    if chunks == [] then 0 else Total(chunks[..|chunks| - 1]) + |chunks[|chunks| - 1].data|
  }

  /** `n` chunks is the longest prefix of the stream that fits the cap. */
  ghost predicate IsLongestFit(chunks: seq<Chunk>, n: nat) {
    && n <= |chunks|
    && Total(chunks[..n]) <= LOG_CAP
    && forall m :: n < m <= |chunks| ==> Total(chunks[..m]) > LOG_CAP
  }

  /** The rows of one run, with sequence numbers from zero. */
  ghost predicate HoldsPrefix(rows: map<(RunId, int), Chunk>, run: RunId, chunks: seq<Chunk>, n: nat)
    requires n <= |chunks|
  {
    && (forall k: int :: (run, k) in rows <==> 0 <= k < n)
    && (forall k: int :: 0 <= k < n ==> rows[(run, k)] == chunks[k])
  }

  ghost predicate OthersUnchanged(rows: map<(RunId, int), Chunk>, before: map<(RunId, int), Chunk>, run: RunId) {
    forall r: RunId, k: int :: r != run ==>
      ((r, k) in rows <==> (r, k) in before) && ((r, k) in rows ==> rows[(r, k)] == before[(r, k)])
  }

  lemma {:induction false} TotalGrows(chunks: seq<Chunk>, m: nat, n: nat)
    requires m <= n <= |chunks|
    ensures Total(chunks[..m]) <= Total(chunks[..n])
  {
    if m < n {
      TotalGrows(chunks, m, n - 1);
      assert chunks[..n][..n - 1] == chunks[..n - 1];
    }
  }

  lemma TotalNext(chunks: seq<Chunk>, i: nat)
    requires i < |chunks|
    ensures Total(chunks[..i + 1]) == Total(chunks[..i]) + |chunks[i].data|
  {
    assert chunks[..i + 1][..i] == chunks[..i];
  }

  /** How many chunks are kept. */
  ghost function Kept(chunks: seq<Chunk>): (n: nat)
    ensures IsLongestFit(chunks, n)
  {
    if Total(chunks) <= LOG_CAP then
      assert chunks[..|chunks|] == chunks;
      |chunks|
    else
      var front := chunks[..|chunks| - 1];
      assert forall m :: 0 <= m <= |front| ==> front[..m] == chunks[..m];
      assert chunks[..|chunks|] == chunks;
      Kept(front)
  }

  /** There is only one longest fit. */
  lemma LongestFitIsUnique(chunks: seq<Chunk>, m: nat, n: nat)
    requires IsLongestFit(chunks, m) && IsLongestFit(chunks, n)
    ensures m == n
  {
  }

  class RunLogs {
    var rows: map<(RunId, int), Chunk>

    constructor ()
      ensures rows == map[]
    {
      rows := map[];
    }

    /** A second row with the same key is ignored. */
    method Append(run: RunId, seqNo: int, chunk: Chunk)
      modifies this
      ensures rows == if (run, seqNo) in old(rows) then old(rows) else old(rows)[(run, seqNo) := chunk]
    {
      if (run, seqNo) !in rows {
        rows := rows[(run, seqNo) := chunk];
      }
    }

    /** The consumer's loop over the output of a run that has no rows yet. */
    method Persist(run: RunId, chunks: seq<Chunk>) returns (bytes: nat, truncated: bool)
      requires forall k: int :: (run, k) !in rows
      modifies this
      ensures HoldsPrefix(rows, run, chunks, Kept(chunks))
      ensures OthersUnchanged(rows, old(rows), run)
      ensures bytes == Total(chunks)
      ensures truncated <==> Total(chunks) > 104857600
    {
      hide Kept;
      bytes, truncated := 0, false;
      ghost var kept := 0;
      var seqNo := 0;
      assert chunks[..0] == [];
      for i := 0 to |chunks|
        invariant bytes == Total(chunks[..i])
        invariant truncated <==> Total(chunks[..i]) > LOG_CAP
        invariant 0 <= seqNo == kept <= i && (!truncated ==> kept == i)
        invariant IsLongestFit(chunks[..i], kept)
        invariant HoldsPrefix(rows, run, chunks, kept)
        invariant OthersUnchanged(rows, old(rows), run)
      {
        var chunk := chunks[i];
        TotalNext(chunks, i);
        if !truncated && bytes + |chunk.data| <= LOG_CAP {
          Append(run, seqNo, chunk);
          seqNo := seqNo + 1;
          kept := kept + 1;
        } else if !truncated {
          truncated := true;
        }
        bytes := bytes + |chunk.data|;
        FitOneMore(chunks, i, if kept == i + 1 then i else kept);
      }
      assert chunks[..|chunks|] == chunks;
      LongestFitIsUnique(chunks, kept, Kept(chunks));
    }
  }

  /** How the longest fit moves when one more chunk is looked at. */
  lemma FitOneMore(chunks: seq<Chunk>, i: nat, n: nat)
    requires i < |chunks| && IsLongestFit(chunks[..i], n)
    ensures n == i && Total(chunks[..i + 1]) <= LOG_CAP ==> IsLongestFit(chunks[..i + 1], i + 1)
    ensures Total(chunks[..i + 1]) > LOG_CAP ==> IsLongestFit(chunks[..i + 1], n)
  {
    var longer := chunks[..i + 1];
    assert longer[..i + 1] == longer && longer[..n] == chunks[..i][..n] == chunks[..n];
    forall m | n < m <= i + 1 && Total(longer) > LOG_CAP
      ensures Total(longer[..m]) > LOG_CAP
    {
      if m <= i {
        assert longer[..m] == chunks[..i][..m];
      }
    }
  }
}
