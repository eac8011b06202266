/** Lines laid out as the grammar has it are taken apart again by the parser. */
module JilLayout {
  import opened Ascii
  import opened JilBlocks
  import opened JilGrammar
  import opened JilSpecs
  import opened JilText
  import opened Whitespace

  // ----- The text as lines -----

  function Trims(lines: seq<string>): seq<string> {
    if lines == [] then [] else [Trim(lines[0])] + Trims(lines[1..])
  }

  predicate ArePlain(lines: seq<string>) {
    forall i :: 0 <= i < |lines| ==> IsPlain(lines[i])
  }

  lemma {:induction false} PlainHasNoNewline(line: string)
    requires IsPlain(line)
    ensures Find(line, '\n') == |line|
  {
  }

  lemma {:induction false} NewlineBetweenIsFree(a: string, b: string)
    requires CommentFree(a) && CommentFree(b)
    ensures CommentFree(a + ("\n" + b))
  {
    var s := a + ("\n" + b);
    forall i | 0 <= i < |s| - 1
      ensures !(s[i] == '/' && s[i + 1] == '*')
    {
      if i < |a| - 1 {
        assert s[i] == a[i] && s[i + 1] == a[i + 1];
      } else if i > |a| {
        assert s[i] == b[i - |a| - 1] && s[i + 1] == b[i - |a|];
      }
    }
  }

  /** Nothing behind the last newline is no line. */
  function Seen(lines: seq<string>): seq<string> {
    if lines != [] && lines[|lines| - 1] == "" then lines[..|lines| - 1] else lines
  }

  /** Joined lines hold no comment, and come apart into the lines they were, trimmed. */
  lemma {:induction false} JoinedComesApart(lines: seq<string>)
    requires ArePlain(lines)
    ensures CommentFree(JoinLines(lines)) && Lines(JoinLines(lines)) == Trims(Seen(lines))
    decreases |lines|
  {
    hide Trim, Find, Lines, IsPlain, CommentFree;
    if lines == [] {
      NoLines();
    } else {
      PlainIsFree(lines[0]);
      PlainHasNoNewline(lines[0]);
      if |lines| == 1 {
        OneLine(lines[0]);
        NoLines();
        assert Trims(lines[1..]) == [];
      } else {
        var rest := lines[1..];
        assert ArePlain(rest);
        assert Seen(lines)[0] == lines[0] && Seen(lines)[1..] == Seen(rest);
        JoinedComesApart(rest);
        NewlineBetweenIsFree(lines[0], JoinLines(rest));
        LinesStep(JoinLines(lines), lines[0], JoinLines(rest));
      }
    }
  }

  lemma {:induction false} NoLines()
    ensures CommentFree("") && Lines("") == []
  {
  }

  lemma {:induction false} PlainIsFree(line: string)
    requires IsPlain(line)
    ensures CommentFree(line)
  {
  }

  lemma {:induction false} OneLine(line: string)
    requires Find(line, '\n') == |line|
    ensures line != "" ==> Lines(line) == [Trim(line)]
  {
  }

  // ----- Trimming -----

  lemma {:induction false} SpacingIsBlank(s: string)
    requires IsSpacing(s)
    ensures IsBlank(s)
  {
  }

  lemma {:induction false} TrimBetween(indent: string, core: string, trail: string)
    requires IsSpacing(indent) && IsSpacing(trail) && IsTrimmed(core)
    ensures Trim(indent + (core + trail)) == core
  {
    hide Trim, IsBlank, IsSpacing;
    var s := indent + (core + trail);
    SpacingIsBlank(indent);
    SpacingIsBlank(trail);
    var a, b := |indent|, |indent| + |core|;
    assert s == indent + core + trail;
    assert s[..a] == indent && s[a..b] == core && s[b..] == trail;
    TrimOfPadded(s, a, b);
  }

  lemma {:induction false} TrimBehind(indent: string, core: string)
    requires IsSpacing(indent) && IsTrimmed(core)
    ensures Trim(indent + core) == core
  {
    hide Trim, IsSpacing;
    assert IsSpacing("") by { EmptyIsSpacing(); }
    assert core + "" == core;
    TrimBetween(indent, core, "");
  }

  lemma {:induction false} TrimBefore(core: string, trail: string)
    requires IsSpacing(trail) && IsTrimmed(core)
    ensures Trim(core + trail) == core
  {
    hide Trim, IsSpacing;
    assert IsSpacing("") by { EmptyIsSpacing(); }
    assert "" + (core + trail) == core + trail;
    TrimBetween("", core, trail);
  }

  lemma {:induction false} EmptyIsSpacing()
    ensures IsSpacing("")
  {
  }

  // ----- Quotes -----

  lemma {:induction false} EscapedIsUnescaped(raw: string)
    ensures UnescapeQuotes(Escaped(raw)) == raw
    ensures Escaped(raw) != "" ==> Escaped(raw)[0] != '"'
  {
    if raw != "" {
      EscapedIsUnescaped(raw[1..]);
      var rest := Escaped(raw[1..]);
      if raw[0] == '"' {
        var s := "\\\"" + rest;
        assert s[2..] == rest && s[0] == '\\' && s[1] == '"';
      } else {
        var s := [raw[0]] + rest;
        assert s[1..] == rest;
        assert !(|s| >= 2 && s[0] == '\\' && s[1] == '"');
      }
    }
  }

  lemma {:induction false} WrittenIsTrimmed(written: string, raw: string)
    requires IsWritten(written, raw)
    ensures written != "" && IsTrimmed(written) && !IsWhite(written[0])
  {
    if written == raw && IsBare(raw) {
    } else {
      var s := "\"" + (Escaped(raw) + "\"");
      assert s[0] == '"' && s[|s| - 1] == '"';
    }
  }

  lemma {:induction false} WrittenIsRead(written: string, raw: string)
    requires IsWritten(written, raw)
    ensures Unescape(written) == raw
  {
    hide UnescapeQuotes, Trim, IsWhite;
    WrittenIsTrimmed(written, raw);
    EmptyIsSpacing();
    TrimBefore(written, "");
    assert written + "" == written;
    if written == raw && IsBare(raw) {
    } else {
      var s := "\"" + (Escaped(raw) + "\"");
      assert s[0] == '"' && s[|s| - 1] == '"' && s[1..|s| - 1] == Escaped(raw);
      EscapedIsUnescaped(raw);
    }
  }

  // ----- Attribute lines -----

  /** The first colon is the one behind the key. */
  lemma {:induction false} ColonAt(front: string, rest: string)
    requires forall i :: 0 <= i < |front| ==> front[i] != ':'
    ensures var s := front + (":" + rest); Find(s, ':') == |front| && s[..|front|] == front && s[|front| + 1..] == rest
  {
    hide Find;
    var s := front + (":" + rest);
    assert s[|front|] == ':';
    assert forall i :: 0 <= i < |front| ==> s[i] == front[i];
  }

  lemma {:induction false} AttrCoreParts(a: AttrText)
    requires IsSpacing(a.gap) && (forall i :: 0 <= i < |a.key| ==> a.key[i] != ':')
    ensures var (core, front) := (AttrCore(a), a.key + a.gap);
            && Find(core, ':') == |front| && core[..|front|] == front && core[|front| + 1..] == a.gap' + a.written
  {
    hide Find;
    var front, rest := a.key + a.gap, a.gap' + a.written;
    assert AttrCore(a) == front + (":" + rest);
    ColonAt(front, rest);
  }

  lemma {:induction false} AttrCoreIsTrimmed(a: AttrText)
    requires a.key != "" && !IsWhite(a.key[0]) && IsWritten(a.written, a.raw)
    ensures AttrCore(a) != "" && IsTrimmed(AttrCore(a))
  {
    hide IsWhite;
    WrittenIsTrimmed(a.written, a.raw);
    var core := AttrCore(a);
    assert core[0] == a.key[0];
    assert core == a.key + a.gap + ":" + a.gap' + a.written;
    assert core[|core| - 1] == a.written[|a.written| - 1];
  }

  lemma {:induction false} VerbsAreWords(verb: string)
    requires verb in VERBS
    ensures HasNoCapital(verb) && forall i :: 0 <= i < |verb| ==> verb[i] != ' ' && verb[i] != '\t' && verb[i] != ':'
  {
  }

  lemma {:induction false} VerbLineHasVerbKey(a: AttrText)
    requires IsSpacing(a.gap) && IsVerbLine(AttrCore(a))
    ensures BeginsWithVerb(a.key)
  {
    var core, k := AttrCore(a), |a.key|;
    assert core[k] == if a.gap == "" then ':' else a.gap[0];
    assert Lower(core)[k] == core[k];
    assert "insert_job" in VERBS && "update_job" in VERBS && "delete_job" in VERBS;
    hide Lower, Spells;
    var verb :| verb in VERBS && verb <= Lower(core);
    VerbsAreWords(verb);
    LowerSlice(core, 0, |verb|);
    assert core[0..|verb|] == a.key[..|verb|];
    SpellsLower(a.key[..|verb|], verb);
  }

  /** An attribute line gives its key and the text of its value. */
  lemma {:induction false} AttrLineIsRead(use: Use, a: AttrText)
    requires IsAttrText(use, a)
    ensures var core := AttrCore(a);
            && Trim(AttrLine(a)) == core && core != "" && !IsVerbLine(core)
            && LineAttr(core) == [(Lower(a.key), a.raw)]
  {
    hide Trim, Find, IsWhite, Lower, IsReading, Unescape, IsVerbLine, BeginsWithVerb, IsWritten, IsSpacing, IsPlain;
    AttrCoreIsTrimmed(a);
    TrimBetween(a.indent, AttrCore(a), a.trail);
    if IsVerbLine(AttrCore(a)) {
      VerbLineHasVerbKey(a);
    }
    AttrCoreParts(a);
    TrimBefore(a.key, a.gap);
    WrittenIsTrimmed(a.written, a.raw);
    TrimBehind(a.gap', a.written);
    WrittenIsRead(a.written, a.raw);
  }

  // ----- Verb lines -----

  lemma {:induction false} WordEndsAt(w: string, tail: string, stop: char -> bool)
    requires (forall i :: 0 <= i < |w| ==> !stop(w[i])) && (tail != "" ==> stop(tail[0]))
    ensures WordEnd(w + tail, stop) == |w|
  {
    if w == "" {
      assert w + tail == tail;
    } else {
      assert (w + tail)[1..] == w[1..] + tail;
      WordEndsAt(w[1..], tail, stop);
    }
  }

  lemma {:induction false} TrimStartSkips(gap: string, s: string)
    requires IsSpacing(gap) && (s != "" ==> !IsWhite(s[0]))
    ensures TrimStart(gap + s) == s
  {
    hide IsWhite;
    if gap == "" {
      assert gap + s == s;
    } else {
      assert IsWhite(gap[0]) by { SpacingIsBlank(gap); }
      assert (gap + s)[1..] == gap[1..] + s;
      TrimStartSkips(gap[1..], s);
    }
  }

  lemma {:induction false} FirstWord(gap: string, w: string, tail: string)
    requires IsSpacing(gap) && w != "" && (forall i :: 0 <= i < |w| ==> !IsWhite(w[i]))
    requires tail != "" ==> IsWhite(tail[0])
    ensures Words(gap + (w + tail)) == [w] + Words(tail)
  {
    hide IsWhite, TrimStart;
    var s := gap + (w + tail);
    assert (w + tail)[0] == w[0];
    TrimStartSkips(gap, w + tail);
    WordEndsAt(w, tail, IsWhite);
    assert (w + tail)[..|w|] == w && (w + tail)[|w|..] == tail;
  }

  /** How the words of the attributes behind the name read. */
  function Tokens(inlines: seq<InlineText>): seq<string> {
    if inlines == [] then []
    else
      var i := inlines[0];
      (if i.gap' == "" then [i.key + (":" + i.raw)] else [i.key + ":", i.raw]) + Tokens(inlines[1..])
  }

  function InlinePairs(inlines: seq<InlineText>): Attrs {
    if inlines == [] then [] else [(Lower(inlines[0].key), inlines[0].raw)] + InlinePairs(inlines[1..])
  }

  lemma {:induction false} InlinesStart(inlines: seq<InlineText>)
    requires AreInline(inlines) && inlines != []
    ensures InlinesOf(inlines) != "" && InlinesOf(inlines)[0] in {' ', '\t'}
  {
    assert InlinesOf(inlines)[0] == inlines[0].gap[0];
  }

  lemma {:induction false} InlinesEnd(inlines: seq<InlineText>)
    requires AreInline(inlines) && inlines != []
    ensures var s := InlinesOf(inlines); s != "" && !IsWhite(s[|s| - 1])
  {
    hide IsWhite;
    var i, rest := inlines[0], InlinesOf(inlines[1..]);
    var s := InlinesOf(inlines);
    assert s == InlineOf(i) + rest;
    if |inlines| > 1 {
      InlinesEnd(inlines[1..]);
      assert s[|s| - 1] == rest[|rest| - 1];
    } else {
      assert rest == "";
      assert s == i.gap + i.key + ":" + i.gap' + i.raw;
      assert s[|s| - 1] == i.raw[|i.raw| - 1];
    }
  }

  lemma {:induction false} InlineWords(inlines: seq<InlineText>)
    requires AreInline(inlines)
    ensures Words(InlinesOf(inlines)) == Tokens(inlines)
    decreases |inlines|
  {
    hide IsWhite, Words;
    if inlines == [] {
      NoWords();
    } else {
      var i, rest := inlines[0], InlinesOf(inlines[1..]);
      InlineWords(inlines[1..]);
      if |inlines| > 1 {
        InlinesStart(inlines[1..]);
        SpacingIsBlank([rest[0]]);
        assert [rest[0]][0] == rest[0];
      } else {
        assert rest == "";
      }
      OneInline(i, rest);
    }
  }

  lemma {:induction false} OneInline(i: InlineText, rest: string)
    requires IsInline(i) && (rest != "" ==> IsWhite(rest[0]))
    ensures Words(InlineOf(i) + rest)
         == (if i.gap' == "" then [i.key + (":" + i.raw)] else [i.key + ":", i.raw]) + Words(rest)
  {
    hide Words;
    assert !IsWhite(':');
    if i.gap' == "" {
      var w := i.key + (":" + i.raw);
      assert InlineOf(i) + rest == i.gap + (w + rest);
      FirstWord(i.gap, w, rest);
    } else {
      var w, tail := i.key + ":", i.gap' + (i.raw + rest);
      assert InlineOf(i) + rest == i.gap + (w + tail);
      assert tail[0] == i.gap'[0];
      FirstWord(i.gap, w, tail);
      FirstWord(i.gap', i.raw, rest);
      assert [w] + ([i.raw] + Words(rest)) == [w, i.raw] + Words(rest);
    }
  }

  lemma {:induction false} NoWords()
    ensures Words("") == []
  {
  }

  lemma {:induction false} JoinedToken(key: string, raw: string, more: seq<string>)
    requires IsWord(key) && raw != "" && raw[|raw| - 1] != ':'
    ensures InlineAttrs([key + (":" + raw)] + more) == [(Lower(key), raw)] + InlineAttrs(more)
  {
    hide IsWhite, Lower, Find;
    var w := key + (":" + raw);
    ColonAt(key, raw);
    assert w[|w| - 1..] == [raw[|raw| - 1]];
    assert ([w] + more)[1..] == more;
  }

  lemma {:induction false} SpacedTokens(key: string, raw: string, more: seq<string>)
    ensures InlineAttrs([key + ":", raw] + more) == [(Lower(key), raw)] + InlineAttrs(more)
  {
    hide Lower, Find;
    var w, all := key + ":", [key + ":", raw] + more;
    assert w[|w| - 1..] == ":" && w[..|w| - 1] == key;
    assert all[0] == w && all[1] == raw && all[2..] == more;
  }

  lemma {:induction false} TokensArePairs(inlines: seq<InlineText>)
    requires AreInline(inlines)
    ensures InlineAttrs(Tokens(inlines)) == InlinePairs(inlines)
    decreases |inlines|
  {
    hide IsWhite, Lower, InlineAttrs;
    if inlines == [] {
      NoPairs();
    } else {
      var i, more := inlines[0], Tokens(inlines[1..]);
      TokensArePairs(inlines[1..]);
      if i.gap' == "" {
        JoinedToken(i.key, i.raw, more);
      } else {
        SpacedTokens(i.key, i.raw, more);
      }
    }
  }

  lemma {:induction false} NoPairs()
    ensures InlineAttrs([]) == []
  {
  }

  lemma {:induction false} VerbIsWord(h: HeadText, verb: string)
    requires IsHead(h, verb)
    ensures h.verb != "" && IsTrimmed(h.verb) && Lower(h.verb) == verb
    ensures forall i :: 0 <= i < |h.verb| ==> h.verb[i] != ':'
  {
    VerbsAreWords(verb);
    SpellsLower(h.verb, verb);
  }

  lemma {:induction false} NameTailIsTrimmed(h: HeadText, verb: string)
    requires IsHead(h, verb)
    ensures var rest := h.name + InlinesOf(h.inlines); rest != "" && IsTrimmed(rest) && !IsWhite(rest[|rest| - 1])
  {
    hide IsWhite;
    var tail := InlinesOf(h.inlines);
    var rest := h.name + tail;
    assert rest[0] == h.name[0];
    if h.inlines != [] {
      InlinesEnd(h.inlines);
      assert rest[|rest| - 1] == tail[|tail| - 1];
    } else {
      assert rest == h.name;
    }
  }

  lemma {:induction false} HeadCoreIsTrimmed(h: HeadText, verb: string)
    requires IsHead(h, verb)
    ensures Trim(HeadLine(h)) == HeadCore(h) && HeadCore(h) != "" && IsVerbLine(HeadCore(h))
  {
    hide IsWhite, Trim, InlinesOf, Spells, IsSpacing, Lower, IsPlain;
    VerbIsWord(h, verb);
    NameTailIsTrimmed(h, verb);
    var core, rest := HeadCore(h), h.name + InlinesOf(h.inlines);
    assert core == h.verb + h.gap + ":" + h.gap' + rest;
    assert core[0] == h.verb[0] && core[|core| - 1] == rest[|rest| - 1];
    TrimBetween(h.indent, core, h.trail);
    LowerSlice(core, 0, |h.verb|);
    assert core[0..|h.verb|] == h.verb;
  }

  /** The head of a verb line: its verb, and the name with what follows it. */
  lemma {:induction false} HeadIsRead(h: HeadText, verb: string)
    requires IsHead(h, verb)
    ensures var rest := h.name + InlinesOf(h.inlines);
            HeadOf(HeadCore(h)) == if verb == "insert_job" then InsertHead(rest)
                                   else if verb == "update_job" then UpdateHead(rest) else DeleteHead(rest)
  {
    hide IsWhite, Trim, InlinesOf, Spells, IsSpacing, Lower, Find, IsTrimmed, IsPlain;
    VerbIsWord(h, verb);
    NameTailIsTrimmed(h, verb);
    var core, front, rest := HeadCore(h), h.verb + h.gap, h.name + InlinesOf(h.inlines);
    assert core == front + (":" + (h.gap' + rest));
    assert forall i :: 0 <= i < |h.gap| ==> h.gap[i] != ':' by { SpacingHasNoColon(h.gap); }
    ColonAt(front, h.gap' + rest);
    TrimBefore(h.verb, h.gap);
    TrimBehind(h.gap', rest);
  }

  lemma {:induction false} SpacingHasNoColon(s: string)
    requires IsSpacing(s)
    ensures forall i :: 0 <= i < |s| ==> s[i] != ':'
  {
  }

  /** The name of the job, and the attributes behind it. */
  lemma {:induction false} NameIsRead(h: HeadText, verb: string)
    requires IsHead(h, verb)
    ensures var rest := h.name + InlinesOf(h.inlines);
            && SplitName(rest).0 == h.name
            && InlineAttrs(Words(SplitName(rest).1)) == InlinePairs(h.inlines)
  {
    hide IsWhite, Trim, InlinesOf, Words, InlineAttrs, IsTrimmed, WordEnd, IsPlain;
    NameTailIsTrimmed(h, verb);
    var tail := InlinesOf(h.inlines);
    var rest := h.name + tail;
    EmptyIsSpacing();
    TrimBefore(rest, "");
    assert rest + "" == rest;
    SpaceIsWhite();
    if h.inlines != [] {
      InlinesStart(h.inlines);
    } else {
      NoInlines();
    }
    WordEndsAt(h.name, tail, IsSpace);
    assert rest[..|h.name|] == h.name && rest[|h.name|..] == tail;
    TrimmedWords(h.inlines);
    TokensArePairs(h.inlines);
  }

  lemma {:induction false} NoInlines()
    ensures InlinesOf([]) == ""
  {
  }

  lemma {:induction false} SpaceIsWhite()
    ensures forall c :: IsSpace(c) ==> IsWhite(c)
    ensures IsSpace(' ') && IsSpace('\t')
  {
  }

  lemma {:induction false} TrimmedWords(inlines: seq<InlineText>)
    requires AreInline(inlines)
    ensures Words(Trim(InlinesOf(inlines))) == Tokens(inlines)
  {
    hide IsWhite, InlinesOf;
    var s := InlinesOf(inlines);
    InlineWords(inlines);
    if inlines != [] {
      InlinesEnd(inlines);
    } else {
      NoInlines();
    }
    assert TrimEnd(s) == s;
    TrimStartTwice(s);
  }

  lemma {:induction false} TrimStartTwice(s: string)
    ensures TrimStart(TrimStart(s)) == TrimStart(s)
  {
    if s != "" && IsWhite(s[0]) {
      TrimStartTwice(s[1..]);
    }
  }
}
