/** What two JIL texts give together, whatever the second one begins with. */
module JilJoins {
  import opened Ascii
  import opened Core
  import opened JilBlocks
  import opened JilSegments
  import opened JilSpecs
  import opened JilText
  import opened Whitespace

  /** The block whose attributes go on to the end of the lines, if there is one. */
  datatype Open = Closed | UpdateOpen(name: string, attrs: Attrs) | InsertOpen(name: string, attrs: Attrs)

  function OpenAt(lines: seq<string>): Open
    decreases |lines|
  {
    if lines == [] then Closed
    else
      var tail := lines[1..];
      if lines[0] == "" then OpenAt(tail)
      else
        match HeadOf(lines[0])
        case UpdateHead(rest) =>
          var g := Gather(tail);
          if g.rest == [] then UpdateOpen(SplitName(rest).0, BlockAttrs(rest, g)) else OpenAt(g.rest)
        case InsertHead(rest) =>
          var g := Gather(tail);
          if g.rest == [] then InsertOpen(SplitName(rest).0, BlockAttrs(rest, g)) else OpenAt(g.rest)
        case _ => OpenAt(tail)
  }

  /** The block it comes to. */
  function Built(open: Open): Result<Block, JilError>
    requires !open.Closed?
  {
    match open
    case UpdateOpen(name, attrs) => Ok(Update(name, BuildPartialSpec(attrs)))
    case InsertOpen(name, attrs) =>
      var spec := BuildJobSpec(name, attrs);
      if spec.Err? then Err(spec.error) else Ok(Insert(spec.value))
  }

  /** The blocks with the open one built anew from what it had and `more`. */
  function Reopened(blocks: seq<Block>, open: Open, more: Attrs): Result<seq<Block>, JilError>
    requires open.Closed? || blocks != []
  {
    if open.Closed? then Ok(blocks)
    else
      var built := Built(open.(attrs := open.attrs + more));
      if built.Err? then Err(built.error) else Ok(blocks[..|blocks| - 1] + [built.value])
  }

  /** The last block is the open one. */
  predicate EndsWithOpen(blocks: seq<Block>, open: Open) {
    open.Closed? || (blocks != [] && Built(open) == Ok(blocks[|blocks| - 1]))
  }

  // ----- Lines before the first verb -----

  predicate Trimmed(line: string) {
    line != "" ==> !IsWhite(line[0])
  }

  lemma {:induction false} TrimEndIsPrefix(s: string)
    ensures TrimEnd(s) <= s
  {
    if s != "" && IsWhite(s[|s| - 1]) {
      TrimEndIsPrefix(s[..|s| - 1]);
    }
  }

  lemma {:induction false} LowerPrefix(a: string, b: string)
    requires a <= b
    ensures Lower(a) <= Lower(b)
  {
    assert forall i :: 0 <= i < |a| ==> a[i] == b[i];
  }

  /** In a trimmed line a known verb is at the very start. */
  lemma {:induction false} KnownHeadIsVerbLine(line: string)
    requires Trimmed(line) && (HeadOf(line).InsertHead? || HeadOf(line).UpdateHead? || HeadOf(line).DeleteHead?)
    ensures IsVerbLine(line)
  {
    var key := line[..Find(line, ':')];
    TrimEndIsPrefix(key);
    var verb := Trim(key);
    VerbIsNotEmpty(line);
    assert verb == TrimEnd(key) by { assert TrimEnd(key) != "" ==> !IsWhite(TrimEnd(key)[0]); }
    LowerPrefix(verb, line);
  }

  lemma {:induction false} VerbIsNotEmpty(line: string)
    requires HeadOf(line).InsertHead? || HeadOf(line).UpdateHead? || HeadOf(line).DeleteHead?
    ensures Find(line, ':') < |line|
    ensures Lower(Trim(line[..Find(line, ':')])) in {"insert_job", "update_job", "delete_job"}
  {
    hide Find, Trim, Lower;
  }

  /** On its own the text passes over its lines before the first verb line. */
  lemma {:induction false} LeadingIsSkipped(b: seq<string>, at: nat, at': nat)
    requires ParseLines(b, at).Ok? && forall i :: 0 <= i < |b| ==> Trimmed(b[i])
    ensures ParseLines(Gather(b).rest, at') == ParseLines(b, at)
    decreases |b|
  {
    hide HeadOf, IsVerbLine, LineAttr, SplitName, BlockAttrs, Trimmed;
    if b != [] {
      assert forall i :: 0 <= i < |b[1..]| ==> b[1..][i] == b[i + 1];
      if b[0] == "" {
        LeadingIsSkipped(b[1..], at + 1, at');
      } else if IsVerbLine(b[0]) {
        NumbersDoNotMatter(b, at, at');
      } else {
        if !HeadOf(b[0]).NoVerb? && !HeadOf(b[0]).BadVerb? {
          KnownHeadIsVerbLine(b[0]);
          assert false;
        }
        LeadingIsSkipped(b[1..], at + 1, at');
      }
    }
  }

  /** The attributes before the first verb go to the block still open; the rest stays the rest. */
  lemma {:induction false} GatherJoins(a: seq<string>, b: seq<string>)
    ensures Gather(a).rest == [] ==> Gather(a + b) == Gathered(Gather(a).attrs + Gather(b).attrs, Gather(b).rest)
    ensures Gather(a).rest != [] ==> Gather(a + b) == Gathered(Gather(a).attrs, Gather(a).rest + b)
  {
    hide IsVerbLine, LineAttr;
    if a == [] {
      assert a + b == b;
      assert [] + Gather(b).attrs == Gather(b).attrs;
    } else {
      assert (a + b)[1..] == a[1..] + b;
      GatherJoins(a[1..], b);
      assert forall x: Attrs, y: Attrs, z: Attrs :: x + y + z == x + (y + z);
    }
  }

  // ----- Both texts -----

  /** Blocks put in front do not matter to what is open behind them. */
  lemma {:induction false} ReopenedBehind(block: Block, blocks: seq<Block>, open: Open, more: Attrs)
    requires open.Closed? || blocks != []
    ensures Reopened([block] + blocks, open, more) == After(block, Reopened(blocks, open, more))
  {
    hide Built;
    if !open.Closed? {
      var all, front := [block] + blocks, blocks[..|blocks| - 1];
      assert all[..|all| - 1] == [block] + front;
      var built := Built(open.(attrs := open.attrs + more));
      if built.Ok? {
        assert [block] + front + [built.value] == [block] + (front + [built.value]);
      }
    }
  }

  lemma {:induction false} OpenIsLast(a: seq<string>, at: nat)
    requires ParseLines(a, at).Ok?
    ensures EndsWithOpen(ParseLines(a, at).value, OpenAt(a))
    decreases |a|
  {
    hide HeadOf, Gather, SplitName, BlockAttrs;
    if a != [] {
      var tail := a[1..];
      var head := HeadOf(a[0]);
      if a[0] == "" || head.NoVerb? || head.DeleteHead? {
        OpenIsLast(tail, at + 1);
      } else {
        var g := Gather(tail);
        if g.rest != [] {
          OpenIsLast(g.rest, at + |a| - |g.rest|);
        }
      }
    }
  }

  /** Two lists of lines that parse, together. */
  lemma {:induction false} LinesTogether(a: seq<string>, b: seq<string>, at: nat, blocks: seq<Block>)
    requires ParseLines(a, at).Ok? && (forall i :: 0 <= i < |b| ==> Trimmed(b[i]))
    requires forall n: nat :: ParseLines(b, n) == Ok(blocks)
    ensures EndsWithOpen(ParseLines(a, at).value, OpenAt(a))
    ensures ParseLines(a + b, at)
         == Joined(Reopened(ParseLines(a, at).value, OpenAt(a), Gather(b).attrs), blocks)
    decreases |a|, 1
  {
    hide HeadOf, Gather, SplitName, BlockAttrs, Joined, After, Reopened, EndsWithOpen, Trimmed;
    OpenIsLast(a, at);
    if a == [] {
      assert a + b == b;
      NothingOpen(blocks, Gather(b).attrs);
    } else {
      var tail := a[1..];
      assert (a + b)[1..] == tail + b && (a + b)[0] == a[0];
      var head := HeadOf(a[0]);
      if a[0] == "" || head.NoVerb? {
        LinesTogether(tail, b, at + 1, blocks);
      } else if head.DeleteHead? {
        AfterNeedsOk(Delete(SplitName(head.rest).0), ParseLines(tail, at + 1));
        LinesTogether(tail, b, at + 1, blocks);
        var block, r := Delete(SplitName(head.rest).0), ParseLines(tail, at + 1).value;
        OneMoreBlock(block, r, OpenAt(tail), Gather(b).attrs, blocks);
        AfterOk(block, r);
      } else {
        BlockTogether(a, b, at, blocks);
      }
    }
  }

  lemma {:induction false} AfterNeedsOk(block: Block, r: Result<seq<Block>, JilError>)
    ensures After(block, r).Ok? <==> r.Ok?
  {
  }

  lemma {:induction false} AfterOk(block: Block, r: seq<Block>)
    ensures After(block, Ok(r)) == Ok([block] + r)
  {
  }

  lemma {:induction false} NothingOpen(blocks: seq<Block>, more: Attrs)
    ensures Joined(Reopened([], Closed, more), blocks) == Ok(blocks)
  {
    assert [] + blocks == blocks;
  }

  lemma {:induction false} OneMoreBlock(block: Block, r: seq<Block>, open: Open, more: Attrs, blocks: seq<Block>)
    requires EndsWithOpen(r, open)
    ensures open.Closed? || r != []
    ensures After(block, Joined(Reopened(r, open, more), blocks))
         == Joined(Reopened([block] + r, open, more), blocks)
  {
    hide Joined, After, Reopened;
    ReopenedBehind(block, r, open, more);
    JoinedAfter(block, Reopened(r, open, more), blocks);
  }

  lemma {:induction false} BlockTogether(a: seq<string>, b: seq<string>, at: nat, blocks: seq<Block>)
    requires a != [] && a[0] != "" && (HeadOf(a[0]).UpdateHead? || HeadOf(a[0]).InsertHead?)
    requires ParseLines(a, at).Ok? && (forall i :: 0 <= i < |b| ==> Trimmed(b[i]))
    requires forall n: nat :: ParseLines(b, n) == Ok(blocks)
    ensures EndsWithOpen(ParseLines(a, at).value, OpenAt(a))
    ensures ParseLines(a + b, at)
         == Joined(Reopened(ParseLines(a, at).value, OpenAt(a), Gather(b).attrs), blocks)
    decreases |a|, 0
  {
    hide HeadOf, Gather, SplitName, Joined, After, Reopened, EndsWithOpen, Trimmed, InlineAttrs, Words, Fill;
    OpenIsLast(a, at);
    var tail := a[1..];
    assert (a + b)[1..] == tail + b && (a + b)[0] == a[0];
    GatherJoins(tail, b);
    var g, g' := Gather(tail), Gather(tail + b);
    var head, n, n' := HeadOf(a[0]), at + |a| - |g.rest|, at + |a + b| - |g'.rest|;
    var name, own := SplitName(head.rest).0, BlockAttrs(head.rest, g);
    var open := if head.UpdateHead? then UpdateOpen(name, own) else InsertOpen(name, own);
    var block := Built(open).value;
    if g.rest == [] {
      LeadingIsSkipped(b, 0, n');
      AttrsTogether(head.rest, g, g', Gather(b).attrs);
      LastTogether(open, Gather(b).attrs, blocks);
      assert ParseLines(g'.rest, n') == Ok(blocks);
      AfterOk(block, []);
      assert ParseLines(g.rest, n) == Ok([]) && [block] + [] == [block];
    } else {
      AfterNeedsOk(block, ParseLines(g.rest, n));
      LinesTogether(g.rest, b, n, blocks);
      var r := ParseLines(g.rest, n).value;
      OneMoreBlock(block, r, OpenAt(g.rest), Gather(b).attrs, blocks);
      AfterOk(block, r);
    }
  }

  lemma {:induction false} AttrsTogether(rest: string, g: Gathered, g': Gathered, more: Attrs)
    requires g'.attrs == g.attrs + more
    ensures BlockAttrs(rest, g') == BlockAttrs(rest, g) + more
  {
    hide InlineAttrs, Words, SplitName;
    var own := InlineAttrs(Words(SplitName(rest).1));
    assert own + (g.attrs + more) == own + g.attrs + more;
  }

  /** The last block takes what comes before the first verb. */
  lemma {:induction false} LastTogether(open: Open, more: Attrs, blocks: seq<Block>)
    requires !open.Closed? && Built(open).Ok?
    ensures var built := Built(open.(attrs := open.attrs + more));
            (if built.Err? then Err(built.error) else After(built.value, Ok(blocks)))
            == Joined(Reopened([Built(open).value], open, more), blocks)
  {
    hide Built;
    var none: seq<Block> := [];
    assert [Built(open).value][..0] == none;
    var built := Built(open.(attrs := open.attrs + more));
    if built.Ok? {
      assert none + [built.value] == [built.value];
    }
  }

  // ----- Texts -----

  lemma {:induction false} TrimStartsBare(s: string)
    ensures Trimmed(TrimStart(s))
  {
    if s != "" && IsWhite(s[0]) {
      TrimStartsBare(s[1..]);
    }
  }

  lemma {:induction false} LinesAreTrimmed(s: string)
    ensures forall i :: 0 <= i < |Lines(s)| ==> Trimmed(Lines(s)[i])
    decreases |s|
  {
    hide Trimmed, Find;
    if s != "" {
      var k := Find(s, '\n');
      TrimStartsBare(TrimEnd(s));
      if k < |s| {
        TrimStartsBare(TrimEnd(s[..k]));
        LinesAreTrimmed(s[k + 1..]);
      }
    }
  }

  function OpenOf(text: string): Open {
    match Strip(text)
    case None => Closed
    case Some(s) => OpenAt(Lines(s))
  }

  /** The attributes a text has before its first verb line. */
  function LeadingOf(text: string): Attrs {
    match Strip(text)
    case None => []
    case Some(s) => Gather(Lines(s)).attrs
  }

  /** Read one by one, the attributes change nothing in the open block. */
  predicate Absorbs(open: Open, more: Attrs) {
    match open
    case Closed => true
    case UpdateOpen(_, attrs) => ChangeNothing(ForUpdate, BuildPartialSpec(attrs), more)
    case InsertOpen(name, attrs) =>
      var spec := BuildJobSpec(name, attrs);
      spec.Ok? && ChangeNothing(ForInsert(name), spec.value.bag, more)
  }

  /** The open block comes out the same exactly then. */
  lemma {:induction false} SameBlockExactly(open: Open, more: Attrs)
    requires !open.Closed? && Built(open).Ok?
    ensures Built(open.(attrs := open.attrs + more)) == Built(open) <==> Absorbs(open, more)
  {
    hide Fill, ChangeNothing;
    match open
    case UpdateOpen(_, attrs) =>
      UpdatesNeverFail(NO_ATTRIBUTES, attrs + more);
      FillOn(ForUpdate, NO_ATTRIBUTES, attrs, more);
      UnchangedExactly(ForUpdate, BuildPartialSpec(attrs), more);
    case InsertOpen(name, attrs) =>
      FillOn(ForInsert(name), INSERTED, attrs, more);
      UnchangedExactly(ForInsert(name), BuildJobSpec(name, attrs).value.bag, more);
  }

  lemma {:induction false} BlankLeads(text: string, b: seq<string>, blocks: seq<Block>)
    requires ParseLines(b, 0) == Ok(blocks) && forall i :: 0 <= i < |b| ==> Trimmed(b[i])
    ensures Gather(Blank(text) + b).attrs == Gather(b).attrs
    ensures forall n: nat :: ParseLines(Blank(text) + b, n) == Ok(blocks)
    ensures forall i :: 0 <= i < |Blank(text) + b| ==> Trimmed((Blank(text) + b)[i])
  {
    hide HeadOf, IsVerbLine;
    var all := Blank(text) + b;
    assert Blank(text) == [""] ==> all[1..] == b;
    assert Blank(text) == [] ==> all == b;
    forall n: nat
      ensures ParseLines(all, n) == Ok(blocks)
    {
      NumbersDoNotMatter(b, 0, n);
      NumbersDoNotMatter(b, 0, n + 1);
    }
  }

  /** What two texts that parse give together: the block still open takes what comes before the first verb. */
  lemma {:induction false} TextsTogether(a: string, b: string)
    requires Parse(a).Ok? && Parse(b).Ok?
    ensures EndsWithOpen(Parse(a).value, OpenOf(a))
    ensures Parse(a + ("\n" + b))
         == Joined(Reopened(Parse(a).value, OpenOf(a), LeadingOf(b)), Parse(b).value)
  {
    hide Strip, Lines, ParseLines, Gather, OpenAt, Blank, Joined, Reopened, EndsWithOpen;
    StripJoined(a, b);
    var textA, textB := Strip(a).value, Strip(b).value;
    assert textA + "\n" + textB == textA + ("\n" + textB);
    LinesJoined(textA, textB);
    LinesAreTrimmed(textB);
    var lines := Blank(textA) + Lines(textB);
    assert Lines(textA) + Blank(textA) + Lines(textB) == Lines(textA) + lines;
    BlankLeads(textA, Lines(textB), Parse(b).value);
    LinesTogether(Lines(textA), lines, 0, Parse(b).value);
  }

  /**
   * Two texts that parse give together the blocks of both if and only if no
   * block is open at the end of the first, or the attributes that the second
   * has before its first verb line change nothing in it: none is refused or
   * warned about, and each sets a field, in the end, to what it already is.
   */
  lemma {:induction false} ConcatenatesExactly(a: string, b: string)
    requires Parse(a).Ok? && Parse(b).Ok?
    ensures Parse(a + ("\n" + b)) == Ok(Parse(a).value + Parse(b).value) <==> Absorbs(OpenOf(a), LeadingOf(b))
  {
    hide Parse, OpenOf, LeadingOf;
    TextsTogether(a, b);
    ReopenedAlike(Parse(a).value, OpenOf(a), LeadingOf(b), Parse(b).value);
  }

  lemma {:induction false} ReopenedAlike(blocks: seq<Block>, open: Open, more: Attrs, rest: seq<Block>)
    requires EndsWithOpen(blocks, open)
    ensures Joined(Reopened(blocks, open, more), rest) == Ok(blocks + rest) <==> Absorbs(open, more)
  {
    if !open.Closed? {
      SameBlockExactly(open, more);
      hide Built, Absorbs;
      var n := |blocks| - 1;
      assert blocks == blocks[..n] + [blocks[n]];
      var built := Built(open.(attrs := open.attrs + more));
      if built.Ok? {
        var changed := blocks[..n] + [built.value];
        assert (changed + rest)[n] == built.value && (blocks + rest)[n] == blocks[n];
      }
    }
  }
}
