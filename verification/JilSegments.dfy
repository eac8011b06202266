/** JIL texts can be parsed apart wherever a block begins. */
module JilSegments {
  import opened Core
  import opened JilBlocks
  import opened JilSpecs
  import opened JilText

  /** The first line that is not blank, if there is one, starts with a known verb. */
  predicate OpensBlock(lines: seq<string>) {
    lines != [] ==> if lines[0] == "" then OpensBlock(lines[1..]) else IsVerbLine(lines[0])
  }

  function SkipBlank(lines: seq<string>): seq<string> {
    if lines != [] && lines[0] == "" then SkipBlank(lines[1..]) else lines
  }

  lemma {:induction false} GatherStopsAtBlock(lines: seq<string>)
    requires OpensBlock(lines)
    ensures Gather(lines) == Gathered([], SkipBlank(lines))
  {
    hide IsVerbLine, LineAttr;
    if lines != [] && lines[0] == "" {
      GatherStopsAtBlock(lines[1..]);
    }
  }

  lemma {:induction false} GatherJoined(a: seq<string>, b: seq<string>)
    requires OpensBlock(b)
    ensures Gather(a + b).attrs == Gather(a).attrs
    ensures Gather(a + b).rest == if Gather(a).rest == [] then SkipBlank(b) else Gather(a).rest + b
  {
    hide IsVerbLine, LineAttr, OpensBlock, SkipBlank;
    if a == [] {
      assert a + b == b;
      GatherStopsAtBlock(b);
    } else {
      assert (a + b)[1..] == a[1..] + b;
      GatherJoined(a[1..], b);
    }
  }

  /** Line numbers only show in error messages. */
  lemma {:induction false} NumbersDoNotMatter(lines: seq<string>, at: nat, at': nat)
    requires ParseLines(lines, at).Ok?
    ensures ParseLines(lines, at') == ParseLines(lines, at)
    decreases |lines|
  {
    hide HeadOf, Gather, SplitName, BlockAttrs;
    if lines != [] {
      var tail := lines[1..];
      var head := HeadOf(lines[0]);
      if lines[0] == "" || head.NoVerb? || head.DeleteHead? {
        NumbersDoNotMatter(tail, at + 1, at' + 1);
      } else {
        var rest := Gather(tail).rest;
        NumbersDoNotMatter(rest, at + |lines| - |rest|, at' + |lines| - |rest|);
      }
    }
  }

  lemma {:induction false} BlanksAreSkipped(lines: seq<string>, at: nat, at': nat)
    requires ParseLines(lines, at).Ok?
    ensures ParseLines(SkipBlank(lines), at') == ParseLines(lines, at)
  {
    hide HeadOf;
    if lines != [] && lines[0] == "" {
      BlanksAreSkipped(lines[1..], at + 1, at');
    } else {
      NumbersDoNotMatter(lines, at, at');
    }
  }

  function Joined(a: Result<seq<Block>, JilError>, b: seq<Block>): Result<seq<Block>, JilError> {
    if a.Err? then a else Ok(a.value + b)
  }

  lemma JoinedAfter(block: Block, a: Result<seq<Block>, JilError>, b: seq<Block>)
    ensures After(block, Joined(a, b)) == Joined(After(block, a), b)
  {
    if a.Ok? {
      assert [block] + (a.value + b) == [block] + a.value + b;
    }
  }

  /** Also when the first text fails: its own failure is then the one reported. */
  lemma {:induction false} LinesParseApart(a: seq<string>, b: seq<string>, at: nat, blocks: seq<Block>)
    requires OpensBlock(b) && forall n: nat :: ParseLines(b, n) == Ok(blocks)
    ensures ParseLines(a + b, at) == Joined(ParseLines(a, at), blocks)
    decreases |a|, 1
  {
    hide HeadOf, Gather, SplitName, BlockAttrs, OpensBlock, SkipBlank, Joined, After;
    if a == [] {
      assert a + b == b;
      NothingJoined(blocks);
    } else {
      var tail := a[1..];
      assert (a + b)[1..] == tail + b && (a + b)[0] == a[0];
      var head := HeadOf(a[0]);
      if a[0] == "" || head.NoVerb? {
        LinesParseApart(tail, b, at + 1, blocks);
      } else if head.DeleteHead? {
        LinesParseApart(tail, b, at + 1, blocks);
        JoinedAfter(Delete(SplitName(head.rest).0), ParseLines(tail, at + 1), blocks);
      } else if head.BadVerb? {
        ErrorJoined(UnknownVerb(head.verb, at + 1), blocks);
      } else {
        GatheredApart(a, b, at, blocks);
      }
    }
  }

  lemma NothingJoined(blocks: seq<Block>)
    ensures Joined(Ok([]), blocks) == Ok(blocks)
  {
    assert [] + blocks == blocks;
  }

  lemma ErrorJoined(e: JilError, blocks: seq<Block>)
    ensures Joined(Err(e), blocks) == Err(e)
  {
  }

  /** The case of a block with continuation lines. */
  lemma {:induction false} GatheredApart(a: seq<string>, b: seq<string>, at: nat, blocks: seq<Block>)
    requires a != [] && a[0] != "" && (HeadOf(a[0]).InsertHead? || HeadOf(a[0]).UpdateHead?)
    requires OpensBlock(b) && forall n: nat :: ParseLines(b, n) == Ok(blocks)
    ensures ParseLines(a + b, at) == Joined(ParseLines(a, at), blocks)
    decreases |a|, 0
  {
    hide HeadOf, Gather, SplitName, OpensBlock, SkipBlank, Joined, After, InlineAttrs, Words;
    var tail := a[1..];
    assert (a + b)[1..] == tail + b && (a + b)[0] == a[0];
    GatherJoined(tail, b);
    var g, g' := Gather(tail), Gather(tail + b);
    var n, n' := at + |a| - |g.rest|, at + |a + b| - |g'.rest|;
    GatheredRest(g.rest, g'.rest, b, n, n', blocks);
    var head := HeadOf(a[0]);
    var name, attrs := SplitName(head.rest).0, BlockAttrs(head.rest, g);
    if head.UpdateHead? {
      JoinedAfter(Update(name, BuildPartialSpec(attrs)), ParseLines(g.rest, n), blocks);
    } else if BuildJobSpec(name, attrs).Ok? {
      JoinedAfter(Insert(BuildJobSpec(name, attrs).value), ParseLines(g.rest, n), blocks);
    } else {
      ErrorJoined(BuildJobSpec(name, attrs).error, blocks);
    }
  }

  /** What is left after the continuation lines parses apart. */
  lemma {:induction false} GatheredRest(rest: seq<string>, rest': seq<string>, b: seq<string>, n: nat, n': nat,
                                        blocks: seq<Block>)
    requires rest' == if rest == [] then SkipBlank(b) else rest + b
    requires rest != [] ==> n == n'
    requires OpensBlock(b) && forall k: nat :: ParseLines(b, k) == Ok(blocks)
    ensures ParseLines(rest', n') == Joined(ParseLines(rest, n), blocks)
    decreases |rest|, 2
  {
    hide HeadOf, Gather, OpensBlock, Joined;
    if rest == [] {
      BlanksAreSkipped(b, n', n');
      NothingJoined(blocks);
    } else {
      LinesParseApart(rest, b, n, blocks);
    }
  }

  /**
   * If `a` and `b` parse, and the first line of `b` that is not blank starts
   * with a known verb, then the two texts together give the blocks of both.
   */
  lemma ParseConcatenates(a: string, b: string)
    requires Parse(a).Ok? && Parse(b).Ok? && OpensBlock(Lines(Strip(b).value))
    ensures Parse(a + ("\n" + b)) == Ok(Parse(a).value + Parse(b).value)
  {
    hide Strip, Lines, ParseLines, OpensBlock, Blank;
    StripJoined(a, b);
    var textA, textB := Strip(a).value, Strip(b).value;
    assert textA + "\n" + textB == textA + ("\n" + textB);
    LinesJoined(textA, textB);
    var lines := Blank(textA) + Lines(textB);
    assert Lines(textA) + Blank(textA) + Lines(textB) == Lines(textA) + lines;
    BlankInFront(textA, Lines(textB), Parse(b).value);
    LinesParseApart(Lines(textA), lines, 0, Parse(b).value);
  }

  lemma BlankInFront(text: string, lines: seq<string>, blocks: seq<Block>)
    requires OpensBlock(lines) && ParseLines(lines, 0) == Ok(blocks)
    ensures OpensBlock(Blank(text) + lines)
    ensures forall n: nat :: ParseLines(Blank(text) + lines, n) == Ok(blocks)
  {
    hide HeadOf, IsVerbLine;
    var all := Blank(text) + lines;
    assert Blank(text) == [""] ==> all[1..] == lines;
    assert Blank(text) == [] ==> all == lines;
    forall n: nat
      ensures ParseLines(all, n) == Ok(blocks)
    {
      NumbersDoNotMatter(lines, 0, n);
      NumbersDoNotMatter(lines, 0, n + 1);
    }
  }
}
