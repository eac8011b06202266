/** Cutting JIL text into blocks. */
module JilBlocks {
  import opened Ascii
  import opened Core
  import opened JilSpecs
  import opened JilText
  import opened Whitespace

  datatype Block = Insert(spec: JobSpec) | Update(name: string, partial: Bag) | Delete(name: string)

  // ----- Pieces of a line -----

  predicate IsVerbLine(line: string) {
    var low := Lower(line);
    "insert_job" <= low || "update_job" <= low || "delete_job" <= low
  }

  predicate EndsWith(s: string, suffix: string) {
    |suffix| <= |s| && s[|s| - |suffix|..] == suffix
  }

  /** `key: value`, cut at the first colon. */
  function SplitKv(line: string): Option<(string, string)> {
    var k := Find(line, ':');
    if k == |line| then None else Some((Trim(line[..k]), Trim(line[k + 1..])))
  }

  function WordEnd(s: string, stop: char -> bool): (k: nat)
    ensures k <= |s|
    ensures s != "" && !stop(s[0]) ==> k > 0
  {
    if s == "" || stop(s[0]) then 0 else 1 + WordEnd(s[1..], stop)
  }

  function SplitName(rest: string): (string, string) {
    var r := Trim(rest);
    var k := WordEnd(r, IsSpace);
    (r[..k], Trim(r[k..]))
  }

  lemma TrimStartShrinks(s: string)
    ensures |TrimStart(s)| <= |s| && (TrimStart(s) != "" ==> !IsWhite(TrimStart(s)[0]))
  {
  }

  function Words(s: string): seq<string>
    decreases |s|
  {
    TrimStartShrinks(s);
    var t := TrimStart(s);
    if t == "" then []
    else
      var k := WordEnd(t, IsWhite);
      [t[..k]] + Words(t[k..])
  }

  /** `key: value` or `key:value` pairs on the verb line; other words are dropped. */
  function InlineAttrs(words: seq<string>): Attrs {
    if words == [] then []
    else
      var w := words[0];
      if EndsWith(w, ":") then
        if |words| == 1 then [] else [(Lower(w[..|w| - 1]), words[1])] + InlineAttrs(words[2..])
      else
        var k := Find(w, ':');
        (if k < |w| then [(Lower(w[..k]), w[k + 1..])] else []) + InlineAttrs(words[1..])
  }

  function UnescapeQuotes(s: string): string {
    if |s| >= 2 && s[0] == '\\' && s[1] == '"' then "\"" + UnescapeQuotes(s[2..])
    else if s == "" then ""
    else [s[0]] + UnescapeQuotes(s[1..])
  }

  function Unescape(value: string): string {
    var s := Trim(value);
    if |s| >= 2 && s[0] == '"' && s[|s| - 1] == '"' then UnescapeQuotes(s[1..|s| - 1]) else s
  }

  /** The attribute on a continuation line, if it has a colon. */
  function LineAttr(line: string): Attrs {
    var k := Find(line, ':');
    if k == |line| then [] else [(Lower(Trim(line[..k])), Unescape(Trim(line[k + 1..])))]
  }

  // ----- Blocks, on a list of trimmed lines -----

  datatype Gathered = Gathered(attrs: Attrs, rest: seq<string>)

  /** Continuation lines up to the next verb line; blank lines do not stop it. */
  function Gather(lines: seq<string>): (g: Gathered)
    ensures |g.rest| <= |lines|
  {
    if lines == [] then Gathered([], [])
    else if lines[0] == "" then Gather(lines[1..])
    else if IsVerbLine(lines[0]) then Gathered([], lines)
    else
      var g := Gather(lines[1..]);
      Gathered(LineAttr(lines[0]) + g.attrs, g.rest)
  }

  datatype Head =
    | NoVerb
    | BadVerb(verb: string)
    | InsertHead(rest: string)
    | UpdateHead(rest: string)
    | DeleteHead(rest: string)

  function HeadOf(line: string): Head {
    match SplitKv(line)
    case None => NoVerb
    case Some((verb, rest)) =>
      var v := Lower(verb);
      if v == "insert_job" then InsertHead(rest)
      else if v == "update_job" then UpdateHead(rest)
      else if v == "delete_job" then DeleteHead(rest)
      else if EndsWith(v, "_job") then BadVerb(verb)
      else NoVerb
  }

  function BlockAttrs(rest: string, g: Gathered): Attrs {
    InlineAttrs(Words(SplitName(rest).1)) + g.attrs
  }

  function After(block: Block, tail: Result<seq<Block>, JilError>): Result<seq<Block>, JilError> {
    if tail.Err? then tail else Ok([block] + tail.value)
  }

  /** All blocks of the lines; `at` is the number of the first one. */
  function ParseLines(lines: seq<string>, at: nat): Result<seq<Block>, JilError>
    decreases |lines|
  {
    if lines == [] then Ok([])
    else
      var tail := lines[1..];
      if lines[0] == "" then ParseLines(tail, at + 1)
      else
        match HeadOf(lines[0])
        case NoVerb => ParseLines(tail, at + 1)
        case BadVerb(verb) => Err(UnknownVerb(verb, at + 1))
        case DeleteHead(rest) => After(Delete(SplitName(rest).0), ParseLines(tail, at + 1))
        case UpdateHead(rest) =>
          var g := Gather(tail);
          After(Update(SplitName(rest).0, BuildPartialSpec(BlockAttrs(rest, g))),
                ParseLines(g.rest, at + |lines| - |g.rest|))
        case InsertHead(rest) =>
          var g := Gather(tail);
          match BuildJobSpec(SplitName(rest).0, BlockAttrs(rest, g))
          case Err(e) => Err(e)
          case Ok(spec) => After(Insert(spec), ParseLines(g.rest, at + |lines| - |g.rest|))
  }

  function Parse(input: string): Result<seq<Block>, JilError> {
    match Strip(input)
    case None => Err(UnterminatedComment)
    case Some(text) => ParseLines(Lines(text), 0)
  }

  // ----- The loops -----

  method GatherAttrs(lines: seq<string>, from: nat) returns (attrs: Attrs, i: nat)
    requires from <= |lines|
    ensures from <= i <= |lines| && Gather(lines[from..]) == Gathered(attrs, lines[i..])
  {
    hide IsVerbLine, LineAttr, Lower;
    attrs, i := [], from;
    while i < |lines|
      invariant from <= i <= |lines|
      invariant Gather(lines[from..]) == Gathered(attrs + Gather(lines[i..]).attrs, Gather(lines[i..]).rest)
    {
      assert lines[i..][1..] == lines[i + 1..];
      var line := lines[i];
      if line == "" {
        i := i + 1;
        continue;
      }
      if IsVerbLine(line) {
        break;
      }
      attrs := attrs + LineAttr(line);
      i := i + 1;
    }
    assert attrs + [] == attrs;
  }

  /** The block that starts at line `i`, and the line after it; a line without a verb gives none. */
  method TryParseVerbLine(lines: seq<string>, i: nat)
    returns (r: Result<Option<Block>, JilError>, next: nat)
    requires i < |lines| && lines[i] != ""
    ensures next <= |lines|
    ensures r.Ok? && r.value.Some? ==> i < next
    ensures match r
            case Err(e) => ParseLines(lines[i..], i) == Err(e)
            case Ok(None) => ParseLines(lines[i..], i) == ParseLines(lines[i + 1..], i + 1)
            case Ok(Some(block)) => ParseLines(lines[i..], i) == After(block, ParseLines(lines[next..], next))
  {
    hide HeadOf, SplitName, Gather, InlineAttrs, Words, After, Lower, Fill;
    next := i;
    assert lines[i..][1..] == lines[i + 1..];
    match HeadOf(lines[i])
    case NoVerb => r := Ok(None);
    case BadVerb(verb) => r := Err(UnknownVerb(verb, i + 1));
    case DeleteHead(rest) =>
      next := i + 1;
      r := Ok(Some(Delete(SplitName(rest).0)));
    case UpdateHead(rest) =>
      var attrs;
      attrs, next := GatherAttrs(lines, i + 1);
      var filled := FillBag(ForUpdate, NO_ATTRIBUTES, InlineAttrs(Words(SplitName(rest).1)) + attrs);
      UpdatesNeverFail(NO_ATTRIBUTES, InlineAttrs(Words(SplitName(rest).1)) + attrs);
      r := Ok(Some(Update(SplitName(rest).0, filled.value)));
    case InsertHead(rest) =>
      var attrs;
      attrs, next := GatherAttrs(lines, i + 1);
      var name := SplitName(rest).0;
      var filled := FillBag(ForInsert(name), INSERTED, InlineAttrs(Words(SplitName(rest).1)) + attrs);
      r := if filled.Err? then Err(filled.error) else Ok(Some(Insert(JobSpec(name, filled.value))));
  }

  method ParseJil(input: string) returns (r: Result<seq<Block>, JilError>)
    ensures r == Parse(input)
  {
    hide ParseLines, Strip, Lines, After, Onto;
    var stripped := StripComments(input);
    if stripped.None? {
      return Err(UnterminatedComment);
    }
    var lines := Lines(stripped.value);
    var blocks: seq<Block> := [];
    var i := 0;
    assert lines[0..] == lines;
    OntoNothing(ParseLines(lines, 0));
    while i < |lines|
      invariant 0 <= i <= |lines|
      invariant ParseLines(lines, 0) == Onto(blocks, ParseLines(lines[i..], i))
    {
      if lines[i] == "" {
        BlankSkipped(lines, i);
        i := i + 1;
        continue;
      }
      var block, next := TryParseVerbLine(lines, i);
      if block.Err? {
        OntoError(blocks, block.error);
        return Err(block.error);
      }
      if block.value.Some? {
        OntoAfter(blocks, block.value.value, ParseLines(lines[next..], next));
        blocks := blocks + [block.value.value];
        i := next;
      } else {
        i := i + 1;
      }
    }
    NothingLeft(blocks);
    assert lines[i..] == [];
    return Ok(blocks);
  }

  lemma OntoNothing(r: Result<seq<Block>, JilError>)
    ensures Onto([], r) == r
  {
    if r.Ok? {
      assert [] + r.value == r.value;
    }
  }

  lemma BlankSkipped(lines: seq<string>, i: nat)
    requires i < |lines| && lines[i] == ""
    ensures ParseLines(lines[i..], i) == ParseLines(lines[i + 1..], i + 1)
  {
    hide HeadOf;
    assert lines[i..][1..] == lines[i + 1..];
  }

  lemma NothingLeft(blocks: seq<Block>)
    ensures forall at: nat :: Onto(blocks, ParseLines([], at)) == Ok(blocks)
  {
    assert blocks + [] == blocks;
  }

  function Onto(blocks: seq<Block>, tail: Result<seq<Block>, JilError>): Result<seq<Block>, JilError> {
    if tail.Err? then tail else Ok(blocks + tail.value)
  }

  lemma OntoError(blocks: seq<Block>, e: JilError)
    ensures Onto(blocks, Err(e)) == Err(e)
  {
  }

  lemma OntoAfter(blocks: seq<Block>, block: Block, tail: Result<seq<Block>, JilError>)
    ensures Onto(blocks, After(block, tail)) == Onto(blocks + [block], tail)
  {
    if tail.Ok? {
      assert blocks + ([block] + tail.value) == blocks + [block] + tail.value;
    }
  }
}
