/** Every text of the JIL grammar is parsed to what it means. */
module JilAccepts {
  import opened Ascii
  import opened Core
  import opened JilBlocks
  import opened JilGrammar
  import opened JilLayout
  import opened JilReads
  import opened JilSpecs
  import opened JilText
  import opened Whitespace

  /** Attribute lines as the parser sees them. */
  function Cores(attrs: seq<AttrText>): seq<string> {
    if attrs == [] then [] else Trims(attrs[0].above) + ([AttrCore(attrs[0])] + Cores(attrs[1..]))
  }

  function Pairs(attrs: seq<AttrText>): Attrs {
    if attrs == [] then [] else [(Lower(attrs[0].key), attrs[0].raw)] + Pairs(attrs[1..])
  }

  ghost predicate AreAttrTexts(use: Use, attrs: seq<AttrText>) {
    forall i :: 0 <= i < |attrs| ==> IsAttrText(use, attrs[i])
  }

  lemma {:induction false} TrimsOfSum(a: seq<string>, b: seq<string>)
    ensures Trims(a + b) == Trims(a) + Trims(b)
  {
    hide Trim;
    if a == [] {
      assert a + b == b;
    } else {
      assert (a + b)[1..] == a[1..] + b;
      TrimsOfSum(a[1..], b);
    }
  }

  lemma {:induction false} TrimsOfNone()
    ensures Trims([]) == []
  {
  }

  lemma {:induction false} TrimsOfOne(line: string)
    ensures Trims([line]) == [Trim(line)]
  {
    hide Trim;
    assert [line][1..] == [];
  }

  lemma {:induction false} TrimsKeepLength(lines: seq<string>)
    ensures |Trims(lines)| == |lines|
  {
    hide Trim;
    if lines != [] {
      TrimsKeepLength(lines[1..]);
    }
  }

  /** A line that neither ends the attributes of a block nor is one. */
  predicate IsSilent(line: string) {
    Find(line, ':') == |line| && !IsVerbLine(line)
  }

  predicate AreSilent(lines: seq<string>) {
    forall i :: 0 <= i < |lines| ==> IsSilent(lines[i])
  }

  lemma {:induction false} IdleIsSilent(line: string)
    requires IsIdle(line)
    ensures IsSilent(Trim(line))
  {
    hide Find, IsPlain, Trim, IsWhite, IsBlank, IsVerbLine, BeginsWithVerb;
    var a, b := TrimCuts(line);
    var core := line[a..b];
    assert forall i :: 0 <= i < |core| ==> core[i] != ':';
    VerbIsAtTheStart(line, a, b);
  }

  lemma {:induction false} VerbIsAtTheStart(line: string, a: nat, b: nat)
    requires a <= b <= |line|
    ensures IsVerbLine(line[a..b]) ==> BeginsWithVerb(line[a..])
  {
    hide Lower, Spells;
    var core := line[a..b];
    if IsVerbLine(core) {
      assert "insert_job" in VERBS && "update_job" in VERBS && "delete_job" in VERBS;
      var verb :| verb in VERBS && verb <= Lower(core);
      VerbsAreWords(verb);
      LowerSlice(core, 0, |verb|);
      SpellsLower(core[..|verb|], verb);
      assert line[a..][..|verb|] == core[..|verb|];
    }
  }

  lemma {:induction false} IdleLinesAreSilent(lines: seq<string>)
    requires AreIdle(lines)
    ensures AreSilent(Trims(lines)) && ArePlain(lines)
    decreases |lines|
  {
    hide IsSilent, Trim, IsPlain;
    if lines != [] {
      IdleLinesAreSilent(lines[1..]);
      IdleIsSilent(lines[0]);
      assert forall i :: 0 < i < |lines| ==> lines[i] == lines[1..][i - 1];
    }
  }

  lemma {:induction false} PlainsTogether(a: seq<string>, b: seq<string>)
    requires ArePlain(a) && ArePlain(b)
    ensures ArePlain(a + b)
  {
    hide IsPlain;
  }

  lemma {:induction false} CoresAreTrims(use: Use, attrs: seq<AttrText>)
    requires AreAttrTexts(use, attrs)
    ensures Trims(AttrLines(attrs)) == Cores(attrs) && ArePlain(AttrLines(attrs))
    ensures attrs != [] ==> AttrLines(attrs) != [] && AttrLines(attrs)[|AttrLines(attrs)| - 1] != ""
    decreases |attrs|
  {
    hide IsAttrText, Trim, AttrLine, AttrCore, IsPlain, Trims, ArePlain;
    if attrs == [] {
      TrimsOfNone();
      PlainNone();
    } else {
      var a, rest := attrs[0], AttrLines(attrs[1..]);
      CoresAreTrims(use, attrs[1..]);
      AttrLineIsRead(use, a);
      LineIsPlain(use, a);
      IdleLinesAreSilent(a.above);
      TrimsOfOne(AttrLine(a));
      TrimsOfSum([AttrLine(a)], rest);
      TrimsOfSum(a.above, [AttrLine(a)] + rest);
      PlainOne(AttrLine(a));
      PlainsTogether([AttrLine(a)], rest);
      PlainsTogether(a.above, [AttrLine(a)] + rest);
    }
  }

  lemma {:induction false} PlainNone()
    ensures ArePlain([])
  {
  }

  lemma {:induction false} PlainOne(line: string)
    requires IsPlain(line)
    ensures ArePlain([line])
  {
  }

  lemma {:induction false} LineIsPlain(use: Use, a: AttrText)
    requires IsAttrText(use, a)
    ensures IsPlain(AttrLine(a)) && AttrLine(a) != "" && AreIdle(a.above)
  {
    hide IsPlain, IsReading, IsWritten, AreIdle;
    assert |AttrLine(a)| >= |a.key|;
  }

  lemma {:induction false} SilentLineHasNoVerb(line: string)
    requires IsSilent(line)
    ensures LineAttr(line) == [] && HeadOf(line) == NoVerb
  {
    hide Find, Lower, EndsWith, IsVerbLine;
  }

  lemma {:induction false} SilentLineIsPassed(line: string, lines: seq<string>, at: nat)
    requires IsSilent(line) && lines != [] && lines[0] == line
    ensures Gather(lines) == Gather(lines[1..])
    ensures ParseLines(lines, at) == ParseLines(lines[1..], at + 1)
  {
    SilentLineHasNoVerb(line);
    hide LineAttr, HeadOf, IsVerbLine, Find;
  }

  lemma {:induction false} SilentLinesAreSkipped(blanks: seq<string>, rest: seq<string>, at: nat)
    requires AreSilent(blanks)
    ensures Gather(blanks + rest) == Gather(rest)
    ensures ParseLines(blanks + rest, at) == ParseLines(rest, at + |blanks|)
    decreases |blanks|
  {
    hide Gather, ParseLines, IsSilent;
    if blanks == [] {
      assert blanks + rest == rest;
    } else {
      assert (blanks + rest)[1..] == blanks[1..] + rest && (blanks + rest)[0] == blanks[0];
      SilentLineIsPassed(blanks[0], blanks + rest, at);
      SilentLinesAreSkipped(blanks[1..], rest, at + 1);
    }
  }

  /** The lines of a block up to the next verb line. */
  lemma {:induction false} AttrsAreGathered(use: Use, attrs: seq<AttrText>, blanks: seq<string>, rest: seq<string>)
    requires AreAttrTexts(use, attrs) && AreSilent(blanks) && (rest != [] ==> rest[0] != "" && IsVerbLine(rest[0]))
    ensures Gather(Cores(attrs) + (blanks + rest)) == Gathered(Pairs(attrs), rest)
    decreases |attrs|
  {
    hide IsAttrText, AttrCore, IsVerbLine, LineAttr, Lower, Trims, AreSilent, Gather;
    if attrs == [] {
      assert Cores(attrs) + (blanks + rest) == blanks + rest;
      SilentLinesAreSkipped(blanks, rest, 0);
      NothingGathered(rest);
    } else {
      var a, tail := attrs[0], Cores(attrs[1..]) + (blanks + rest);
      AttrLineIsRead(use, a);
      LineIsPlain(use, a);
      IdleLinesAreSilent(a.above);
      AttrsAreGathered(use, attrs[1..], blanks, rest);
      assert Cores(attrs) + (blanks + rest) == Trims(a.above) + ([AttrCore(a)] + tail);
      SilentLinesAreSkipped(Trims(a.above), [AttrCore(a)] + tail, 0);
      OneGathered(AttrCore(a), tail);
    }
  }

  lemma {:induction false} NothingGathered(rest: seq<string>)
    requires rest != [] ==> rest[0] != "" && IsVerbLine(rest[0])
    ensures Gather(rest) == Gathered([], rest)
  {
    hide IsVerbLine;
  }

  lemma {:induction false} OneGathered(line: string, tail: seq<string>)
    requires line != "" && !IsVerbLine(line)
    ensures Gather([line] + tail) == Gathered(LineAttr(line) + Gather(tail).attrs, Gather(tail).rest)
  {
    hide IsVerbLine, LineAttr;
    assert ([line] + tail)[1..] == tail;
  }

  // ----- Filling -----

  /** Attributes read one by one. */
  ghost predicate AreRead(use: Use, attrs: Attrs, readings: seq<Reading>) {
    |attrs| == |readings| && forall i :: 0 <= i < |attrs| ==> Read(use, attrs[i]) == readings[i]
  }

  lemma {:induction false} FilledAsRead(use: Use, bag: Bag, attrs: Attrs, readings: seq<Reading>)
    requires AreRead(use, attrs, readings)
    ensures Fill(use, bag, attrs) == FilledWith(bag, readings)
    decreases |attrs|
  {
    hide Read;
    if attrs != [] {
      assert AreRead(use, attrs[1..], readings[1..]);
      if !readings[0].Refuses? {
        FilledAsRead(use, Taken(bag, readings[0]), attrs[1..], readings[1..]);
      }
    }
  }

  lemma {:induction false} InlinesAreRead(use: Use, inlines: seq<InlineText>)
    requires forall i :: 0 <= i < |inlines| ==> IsReading(use, inlines[i].key, inlines[i].raw, inlines[i].reading)
    ensures AreRead(use, InlinePairs(inlines), seq(|inlines|, i requires 0 <= i < |inlines| => inlines[i].reading))
    decreases |inlines|
  {
    hide Read, IsReading, Lower;
    if inlines != [] {
      InlinesAreRead(use, inlines[1..]);
      ReadExactly(use, inlines[0].key, inlines[0].raw, inlines[0].reading);
    }
  }

  lemma {:induction false} AttrsAreRead(use: Use, attrs: seq<AttrText>)
    requires AreAttrTexts(use, attrs)
    ensures AreRead(use, Pairs(attrs), seq(|attrs|, i requires 0 <= i < |attrs| => attrs[i].reading))
    decreases |attrs|
  {
    hide Read, IsReading, Lower, IsSpacing, BeginsWithVerb, IsWritten, IsPlain;
    if attrs != [] {
      AttrsAreRead(use, attrs[1..]);
      ReadExactly(use, attrs[0].key, attrs[0].raw, attrs[0].reading);
    }
  }

  // ----- Blocks -----

  function UseOf(source: Source): Use {
    if source.InsertText? then ForInsert(source.head.name) else ForUpdate
  }

  function VerbOf(source: Source): string {
    match source
    case InsertText(_, _) => "insert_job"
    case UpdateText(_, _) => "update_job"
    case DeleteText(_) => "delete_job"
  }

  /** The attributes of a block, from its verb line on. */
  function PairsOf(source: Source): Attrs
    requires !source.DeleteText?
  {
    InlinePairs(source.head.inlines) + Pairs(source.attrs)
  }

  lemma {:induction false} SourceIsRead(source: Source)
    requires IsSource(source) && !source.DeleteText?
    ensures AreRead(UseOf(source), PairsOf(source), ReadingsOf(source))
  {
    hide Read, IsReading, Lower, IsHead, IsAttrText;
    InlinesAreRead(UseOf(source), source.head.inlines);
    AttrsAreRead(UseOf(source), source.attrs);
  }

  /** A block and its attributes, in front of the next one. */
  lemma {:induction false} BlockIsParsed(source: Source, blanks: seq<string>, rest: seq<string>, at: nat)
    requires IsSource(source) && AreSilent(blanks)
    requires rest != [] && !source.DeleteText? ==> rest[0] != "" && IsVerbLine(rest[0])
    ensures var attrs := if source.DeleteText? then [] else Cores(source.attrs);
            var lines := [HeadCore(source.head)] + (attrs + (blanks + rest));
            ParseLines(lines, at)
            == match BlockOf(source)
               case Err(e) => Err(e)
               case Ok(block) => After(block, ParseLines(rest, at + 1 + |attrs| + |blanks|))
  {
    hide Gather, SplitName, IsHead, IsAttrText, After, IsVerbLine, HeadCore, InlineAttrs, Words, Fill, HeadOf, Cores,
         FilledWith, ReadingsOf, InlinePairs, Pairs, BuildJobSpec, BuildPartialSpec, AreSilent;
    var h := source.head;
    HeadIsRead(h, VerbOf(source));
    HeadCoreIsTrimmed(h, VerbOf(source));
    NameIsRead(h, VerbOf(source));
    var attrs := if source.DeleteText? then [] else Cores(source.attrs);
    var lines := [HeadCore(h)] + (attrs + (blanks + rest));
    assert lines[0] == HeadCore(h) && lines[1..] == attrs + (blanks + rest);
    if source.DeleteText? {
      assert attrs + (blanks + rest) == blanks + rest;
      SilentLinesAreSkipped(blanks, rest, at + 1);
    } else {
      AttrsAreGathered(UseOf(source), source.attrs, blanks, rest);
      BlockIsFilled(source);
    }
  }

  lemma {:induction false} BlockIsFilled(source: Source)
    requires IsSource(source) && !source.DeleteText?
    ensures source.InsertText? ==>
              var built := BuildJobSpec(source.head.name, PairsOf(source));
              BlockOf(source) == if built.Err? then Err(built.error) else Ok(Insert(built.value))
    ensures source.UpdateText? ==> BlockOf(source) == Ok(Update(source.head.name, BuildPartialSpec(PairsOf(source))))
  {
    hide IsSource, Fill, FilledWith, ReadingsOf, PairsOf;
    SourceIsRead(source);
    if source.InsertText? {
      FilledAsRead(UseOf(source), INSERTED, PairsOf(source), ReadingsOf(source));
    } else {
      FilledAsRead(UseOf(source), NO_ATTRIBUTES, PairsOf(source), ReadingsOf(source));
      UpdatesNeverFail(NO_ATTRIBUTES, PairsOf(source));
    }
  }

  // ----- Texts -----

  /** All lines, as the parser sees them. */
  function AllCores(sources: seq<Source>): seq<string> {
    if sources == [] then [] else Trims(sources[0].head.above) + CoresFrom(sources)
  }

  /** From the first verb line on. */
  function CoresFrom(sources: seq<Source>): seq<string>
    requires sources != []
    decreases |sources|, 0
  {
    var s := sources[0];
    var attrs := if s.DeleteText? then [] else Cores(s.attrs);
    if |sources| == 1 then [HeadCore(s.head)] + attrs
    else [HeadCore(s.head)] + (attrs + (Trims(sources[1].head.above) + CoresFrom(sources[1..])))
  }

  lemma {:induction false} HeadLineIsPlain(h: HeadText, verb: string)
    requires IsHead(h, verb)
    ensures IsPlain(HeadLine(h)) && HeadLine(h) != "" && AreIdle(h.above)
  {
    hide IsPlain, InlinesOf, AreIdle;
    assert |HeadLine(h)| >= |h.name|;
  }

  lemma {:induction false} SourceLines(source: Source)
    requires IsSource(source)
    ensures ArePlain(LinesOf(source)) && LinesOf(source) != [] && LinesOf(source)[|LinesOf(source)| - 1] != ""
    ensures Trims(LinesOf(source))
         == Trims(source.head.above)
            + ([HeadCore(source.head)] + if source.DeleteText? then [] else Cores(source.attrs))
  {
    hide Trim, IsAttrText, IsPlain, HeadCore, Trims, AttrLines, Cores, ArePlain;
    var h := source.head;
    HeadCoreIsTrimmed(h, VerbOf(source));
    HeadLineIsPlain(h, VerbOf(source));
    IdleLinesAreSilent(h.above);
    var head, attrs := [HeadLine(h)], if source.DeleteText? then [] else AttrLines(source.attrs);
    if source.DeleteText? {
      TrimsOfNone();
      PlainNone();
    } else {
      CoresAreTrims(UseOf(source), source.attrs);
      NoAttrLines();
    }
    TrimsOfOne(HeadLine(h));
    TrimsOfSum(head, attrs);
    TrimsOfSum(h.above, head + attrs);
    PlainOne(HeadLine(h));
    PlainsTogether(head, attrs);
    PlainsTogether(h.above, head + attrs);
  }

  lemma {:induction false} NoAttrLines()
    ensures AttrLines([]) == []
  {
  }

  lemma {:induction false} AllLinesAreCores(sources: seq<Source>)
    requires AreSources(sources)
    ensures ArePlain(AllLines(sources)) && Trims(AllLines(sources)) == AllCores(sources)
    ensures sources != [] ==> AllLines(sources) != [] && AllLines(sources)[|AllLines(sources)| - 1] != ""
    decreases |sources|
  {
    hide IsSource, LinesOf, Trims, HeadCore, Cores, IsPlain, ArePlain;
    if sources == [] {
      TrimsOfNone();
      PlainNone();
    } else {
      var s := sources[0];
      AllLinesAreCores(sources[1..]);
      SourceLines(s);
      TrimsOfSum(LinesOf(s), AllLines(sources[1..]));
      PlainsTogether(LinesOf(s), AllLines(sources[1..]));
      var blanks, head, attrs := Trims(s.head.above), [HeadCore(s.head)], if s.DeleteText? then [] else Cores(s.attrs);
      var more := AllCores(sources[1..]);
      assert blanks + (head + attrs) + more == blanks + (head + (attrs + more));
      assert |sources| == 1 ==> AllLines(sources[1..]) == [];
    }
  }

  lemma {:induction false} FirstLineIsVerb(sources: seq<Source>)
    requires AreSources(sources) && sources != []
    ensures CoresFrom(sources) != [] && CoresFrom(sources)[0] != "" && IsVerbLine(CoresFrom(sources)[0])
    ensures AreIdle(sources[0].head.above)
  {
    hide HeadCore, Cores, IsHead, IsAttrText, IsVerbLine, IsReading, AreIdle;
    HeadCoreIsTrimmed(sources[0].head, VerbOf(sources[0]));
    HeadLineIsPlain(sources[0].head, VerbOf(sources[0]));
  }

  /** How many lines the first of several blocks takes, idle lines below included. */
  function FirstTakes(sources: seq<Source>): nat
    requires |sources| > 1
  {
    1 + |if sources[0].DeleteText? then [] else Cores(sources[0].attrs)| + |Trims(sources[1].head.above)|
  }

  lemma {:induction false} FirstBlockIsParsed(sources: seq<Source>, tail: seq<string>, at: nat)
    requires AreSources(sources) && |sources| > 1
    ensures ParseLines(CoresFrom(sources) + tail, at)
         == match BlockOf(sources[0])
            case Err(e) => Err(e)
            case Ok(block) => After(block, ParseLines(CoresFrom(sources[1..]) + tail, at + FirstTakes(sources)))
  {
    hide IsSource, HeadCore, Cores, BlockOf, IsVerbLine, ParseLines, Trims, AreIdle, AreSilent, Gather, IsSilent,
         HeadOf, After;
    var s := sources[0];
    var attrs := if s.DeleteText? then [] else Cores(s.attrs);
    var blanks, more := Trims(sources[1].head.above), CoresFrom(sources[1..]);
    var rest := more + tail;
    FirstLineIsVerb(sources[1..]);
    IdleLinesAreSilent(sources[1].head.above);
    assert rest[0] == more[0];
    BlockIsParsed(s, blanks, rest, at);
    assert CoresFrom(sources) + tail == [HeadCore(s.head)] + (attrs + (blanks + rest));
  }

  lemma {:induction false} LastBlockIsParsed(source: Source, below: seq<string>, at: nat)
    requires IsSource(source) && AreSilent(below)
    ensures ParseLines(CoresFrom([source]) + below, at) == BlocksOf([source])
  {
    hide IsSource, HeadCore, Cores, BlockOf, ParseLines, AreSilent, Gather, HeadOf;
    var none: seq<string> := [];
    var attrs := if source.DeleteText? then [] else Cores(source.attrs);
    BlockIsParsed(source, below, none, at);
    assert CoresFrom([source]) + below == [HeadCore(source.head)] + (attrs + (below + none));
    NothingToParse(at + 1 + |attrs| + |below|);
  }

  lemma {:induction false} BlocksAreParsed(sources: seq<Source>, below: seq<string>, at: nat)
    requires AreSources(sources) && sources != [] && AreSilent(below)
    ensures ParseLines(CoresFrom(sources) + below, at) == BlocksOf(sources)
    decreases |sources|
  {
    hide IsSource, BlockOf, ParseLines, AreSilent, CoresFrom, FirstTakes;
    if |sources| == 1 {
      assert sources == [sources[0]];
      LastBlockIsParsed(sources[0], below, at);
    } else {
      FirstBlockIsParsed(sources, below, at);
      BlocksAreParsed(sources[1..], below, at + FirstTakes(sources));
    }
  }

  lemma {:induction false} NothingToParse(at: nat)
    ensures ParseLines([], at) == Ok([])
  {
  }

  lemma {:induction false} SilenceIsNoBlock(below: seq<string>)
    requires AreSilent(below)
    ensures ParseLines(below, 0) == Ok([])
  {
    hide AreSilent, ParseLines, Gather;
    assert below + [] == below;
    SilentLinesAreSkipped(below, [], 0);
    NothingToParse(|below|);
  }

  lemma {:induction false} CoresAreParsed(sources: seq<Source>, below: seq<string>)
    requires AreSources(sources) && AreSilent(below)
    ensures ParseLines(AllCores(sources) + below, 0) == BlocksOf(sources)
  {
    hide IsSource, ParseLines, Trims, CoresFrom, AreIdle, AreSilent, BlockOf;
    if sources == [] {
      assert AllCores(sources) + below == below;
      SilenceIsNoBlock(below);
    } else {
      var blanks, rest := Trims(sources[0].head.above), CoresFrom(sources) + below;
      FirstLineIsVerb(sources);
      IdleLinesAreSilent(sources[0].head.above);
      assert AllCores(sources) + below == blanks + rest;
      SilentLinesAreSkipped(blanks, rest, 0);
      BlocksAreParsed(sources, below, |blanks|);
    }
  }

  /**
   * However blocks are written, that is, in whatever letter case, spacing,
   * spelling of keys and values, with whatever quotes, comments and lines
   * between them that say nothing, the parser gives exactly what they mean:
   * the blocks, or the first refusal.
   */
  lemma {:induction false} SourcesAreParsed(text: string, sources: seq<Source>, below: seq<string>)
    requires AreSources(sources) && AreIdle(below) && Strip(text) == Some(TextOf(sources, below))
    ensures Parse(text) == BlocksOf(sources)
  {
    hide AreSources, Strip, Lines, ParseLines, JoinLines, AllLines, BlocksOf, ArePlain, Trims, CommentFree, AllCores,
         AreIdle, AreSilent;
    var seen := SourceLinesComeApart(sources, below);
    CoresAreParsed(sources, seen);
  }

  lemma {:induction false} SourceLinesComeApart(sources: seq<Source>, below: seq<string>) returns (seen: seq<string>)
    requires AreSources(sources) && AreIdle(below)
    ensures CommentFree(TextOf(sources, below)) && Lines(TextOf(sources, below)) == AllCores(sources) + seen
    ensures AreSilent(seen)
  {
    hide AreSources, Lines, JoinLines, AllLines, ArePlain, Trims, CommentFree, AllCores, IsIdle, IsSilent;
    AllLinesAreCores(sources);
    NoSourcesNoLines(sources);
    IdleLinesAreSilent(below);
    IdleLinesAreSilent(Seen(below));
    PlainsTogether(AllLines(sources), below);
    JoinedComesApart(AllLines(sources) + below);
    assert Seen(AllLines(sources) + below) == AllLines(sources) + Seen(below) by {
      assert below == [] ==> AllLines(sources) + below == AllLines(sources);
    }
    TrimsOfSum(AllLines(sources), Seen(below));
    seen := Trims(Seen(below));
  }

  lemma {:induction false} NoSourcesNoLines(sources: seq<Source>)
    ensures sources == [] ==> AllLines(sources) == []
  {
  }

  /** Without comments the text is the blocks as they are written. */
  lemma {:induction false} SourcesHaveNoComments(sources: seq<Source>, below: seq<string>)
    requires AreSources(sources) && AreIdle(below)
    ensures Strip(TextOf(sources, below)) == Some(TextOf(sources, below))
  {
    hide AreSources, Strip, TextOf, Lines, CommentFree, AreIdle;
    var seen := SourceLinesComeApart(sources, below);
    CommentFreeIsKept(TextOf(sources, below));
  }

  // ----- Unknown verbs -----

  /** A line like that of a block, with another word that ends in `_job`. */
  predicate IsUnknownVerb(word: string, line: string, gap: string, rest: string) {
    && line == word + (gap + (":" + rest)) && IsSpacing(gap) && IsPlain(line) && IsTrimmed(line)
    && |word| >= 4 && Spells(word[|word| - 4..], "_job") && !SpellsOneOf(word, VERBS)
    && !IsWhite(word[0]) && forall i :: 0 <= i < |word| ==> word[i] != ':'
  }

  lemma {:induction false} JobEnds(word: string)
    requires |word| >= 4 && Spells(word[|word| - 4..], "_job")
    ensures EndsWith(Lower(word), "_job") && !IsWhite(word[|word| - 1])
  {
    var n := |word|;
    SpellsLower(word[n - 4..], "_job");
    LowerSlice(word, n - 4, n);
    assert word[n - 4..n] == word[n - 4..] && Lower(word)[n - 4..n] == Lower(word)[n - 4..];
    assert word[n - 4..][3] == word[n - 1];
  }

  lemma {:induction false} UnknownVerbIsSeen(word: string, line: string, gap: string, rest: string)
    requires IsUnknownVerb(word, line, gap, rest)
    ensures line != "" && HeadOf(line) == BadVerb(word)
  {
    JobEnds(word);
    assert forall verb :: verb in VERBS ==> HasNoCapital(verb) by {
      forall verb | verb in VERBS
        ensures HasNoCapital(verb)
      {
        VerbsAreWords(verb);
      }
    }
    SpellsOneLower(word, VERBS);
    hide IsWhite, Trim, Lower, Find, Spells, SpellsOneOf, IsSpacing, IsPlain, EndsWith;
    var front := word + gap;
    assert line == front + (":" + rest);
    assert forall i :: 0 <= i < |gap| ==> gap[i] != ':' by { SpacingHasNoColon(gap); }
    ColonAt(front, rest);
    TrimBefore(word, gap);
  }

  lemma {:induction false} LineBehindLast(source: Source, line: string, verb: string, at: nat)
    requires IsSource(source) && BlockOf(source).Ok? && source.DeleteText?
    requires line != "" && HeadOf(line) == BadVerb(verb)
    ensures ParseLines(CoresFrom([source]) + [line], at) == Err(UnknownVerb(verb, at + |CoresFrom([source])| + 1))
  {
    hide IsSource, HeadCore, BlockOf, IsVerbLine, HeadOf, ParseLines, IsSilent;
    var none: seq<string> := [];
    BlockIsParsed(source, none, [line], at);
    assert CoresFrom([source]) + [line] == [HeadCore(source.head)] + (none + (none + [line]));
    LineIsRefused(line, verb, at + 1);
  }

  lemma {:induction false} LineBehindBlocks(sources: seq<Source>, line: string, verb: string, at: nat)
    requires AreSources(sources) && BlocksOf(sources).Ok? && sources != [] && sources[|sources| - 1].DeleteText?
    requires line != "" && HeadOf(line) == BadVerb(verb)
    ensures ParseLines(CoresFrom(sources) + [line], at) == Err(UnknownVerb(verb, at + |CoresFrom(sources)| + 1))
    decreases |sources|
  {
    hide IsSource, BlockOf, HeadOf, ParseLines, HeadCore, Cores, Trims;
    if |sources| == 1 {
      assert sources == [sources[0]];
      LineBehindLast(sources[0], line, verb, at);
    } else {
      FirstBlockIsParsed(sources, [line], at);
      LineBehindBlocks(sources[1..], line, verb, at + FirstTakes(sources));
    }
  }

  lemma {:induction false} LineIsRefused(line: string, verb: string, at: nat)
    requires line != "" && HeadOf(line) == BadVerb(verb)
    ensures ParseLines([line], at) == Err(UnknownVerb(verb, at + 1))
  {
    hide HeadOf;
  }

  lemma {:induction false} LineBehindAll(sources: seq<Source>, line: string, verb: string)
    requires AreSources(sources) && BlocksOf(sources).Ok? && (sources != [] ==> sources[|sources| - 1].DeleteText?)
    requires line != "" && HeadOf(line) == BadVerb(verb)
    ensures ParseLines(AllCores(sources) + [line], 0) == Err(UnknownVerb(verb, |AllCores(sources)| + 1))
  {
    hide IsSource, ParseLines, Trims, CoresFrom, AreIdle, AreSilent, HeadOf, BlocksOf, Gather, IsVerbLine;
    if sources == [] {
      assert AllCores(sources) + [line] == [line];
      LineIsRefused(line, verb, 0);
    } else {
      var blanks, rest := Trims(sources[0].head.above), CoresFrom(sources) + [line];
      FirstLineIsVerb(sources);
      IdleLinesAreSilent(sources[0].head.above);
      assert AllCores(sources) + [line] == blanks + rest;
      SilentLinesAreSkipped(blanks, rest, 0);
      LineBehindBlocks(sources, line, verb, |blanks|);
    }
  }

  /**
   * A line with an unknown verb is refused, under the number it has in the
   * text, where no block is open that would take it for an attribute.
   */
  lemma {:induction false} UnknownVerbIsRefused(sources: seq<Source>, word: string, line: string, gap: string,
                                                rest: string)
    requires AreSources(sources) && BlocksOf(sources).Ok? && (sources != [] ==> sources[|sources| - 1].DeleteText?)
    requires IsUnknownVerb(word, line, gap, rest)
    ensures Parse(JoinLines(AllLines(sources) + [line])) == Err(UnknownVerb(word, |AllLines(sources)| + 1))
  {
    hide AreSources, IsSource, Strip, Lines, ParseLines, JoinLines, AllLines, BlocksOf, Trims, CommentFree, Trim,
         IsPlain, HeadOf, AllCores, Spells, SpellsOneOf, IsSpacing, IsWhite;
    AllLinesAreCores(sources);
    UnknownVerbIsSeen(word, line, gap, rest);
    var lines := AllLines(sources) + [line];
    assert ArePlain(lines);
    JoinedComesApart(lines);
    CommentFreeIsKept(JoinLines(lines));
    TrimsOfSum(AllLines(sources), [line]);
    TrimsOfOne(line);
    assert line + "" == line;
    EmptyIsSpacing();
    TrimBefore(line, "");
    TrimsKeepLength(AllLines(sources));
    LineBehindAll(sources, line, word);
  }
}
