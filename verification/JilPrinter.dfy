/** Blocks written out as JIL, and that parsing gives them back. */
module JilPrinter {
  import opened Ascii
  import opened Core
  import opened JilAccepts
  import opened JilBlocks
  import opened JilGrammar
  import opened JilLayout
  import opened JilReads
  import opened JilSpecs
  import opened Whitespace
  import Decimal

  // The order in which the fields are written.
  const ORDER := [
    "job_type", "command", "machine", "owner", "description", "days_of_week", "start_times", "condition",
    "exclude_calendar", "must_start_times", "must_complete_times", "n_retrys", "term_run_time", "max_exit_success",
    "condition_code", "fail_codes", "alarm_if_fail", "std_out_file", "std_err_file", "resources", "box_name",
    "box_success", "box_failure", "box_terminator", "job_terminator", "auto_hold"]

  // ----- Printing -----

  function Quoted(raw: string): string {
    "\"" + (Escaped(raw) + "\"")
  }

  function PrintNumber(n: int): string {
    if n < 0 then "-" + Decimal.Print(-n) else Decimal.Print(n)
  }

  /** Texts are quoted, everything else stands as it is. */
  function RawOf(value: Value): string {
    match value
    case Text(text) => text
    case Flag(yes) => if yes then "y" else "n"
    case Number(n) => PrintNumber(n)
    case Type(Command) => "c"
    case Type(Box) => "box"
    case Type(FileWatcher) => "fw"
  }

  function PrintValue(value: Value): string {
    if value.Text? then Quoted(value.text) else RawOf(value)
  }

  /** `key: value`. */
  function AttrOf(key: string, written: string, raw: string, reading: Reading): AttrText {
    AttrText([], "", key, "", " ", written, "", raw, reading)
  }

  function FieldAttrs(fields: map<string, Value>, names: seq<string>): seq<AttrText> {
    if names == [] then []
    else
      var rest := FieldAttrs(fields, names[1..]);
      var f := names[0];
      if f !in fields then rest
      else [AttrOf(f, PrintValue(fields[f]), RawOf(fields[f]), Sets(f, fields[f]))] + rest
  }

  /** A warning is written as an attribute that brings it about. */
  function WarningAttr(w: Warning): AttrText {
    match w
    case NotMapped(attr, value) => AttrOf(attr, Quoted(value), value, Warns(w))
    case UnknownAttr(attr) => AttrOf(attr, Quoted(""), "", Warns(w))
  }

  function WarningAttrs(warnings: seq<Warning>): seq<AttrText> {
    if warnings == [] then [] else [WarningAttr(warnings[0])] + WarningAttrs(warnings[1..])
  }

  function HeadFor(verb: string, name: string): HeadText {
    HeadText([], "", verb, "", " ", name, [], "")
  }

  function AttrsFor(bag: Bag): seq<AttrText> {
    FieldAttrs(bag.fields, ORDER) + WarningAttrs(bag.warnings)
  }

  function SourceFor(block: Block): Source {
    match block
    case Insert(spec) => InsertText(HeadFor("insert_job", spec.name), AttrsFor(spec.bag))
    case Update(name, bag) => UpdateText(HeadFor("update_job", name), AttrsFor(bag))
    case Delete(name) => DeleteText(HeadFor("delete_job", name))
  }

  function SourcesFor(blocks: seq<Block>): seq<Source> {
    if blocks == [] then [] else [SourceFor(blocks[0])] + SourcesFor(blocks[1..])
  }

  /** One line each, and a newline at the end. */
  function Print(blocks: seq<Block>): string {
    TextOf(SourcesFor(blocks), [""])
  }

  // ----- What can be printed -----

  predicate IsValueOf(kind: FieldKind, value: Value) {
    match kind
    case TextField => value.Text? && IsPlain(value.text)
    case FlagField => value.Flag?
    case NumberField(low, high) => value.Number? && low <= value.n <= high
    case TypeField => value.Type?
  }

  predicate IsFields(fields: map<string, Value>) {
    forall f :: f in fields ==> f in FIELDS && IsValueOf(FIELDS[f], fields[f])
  }

  /** A key that is no field of its own, and would be read again as it is. */
  ghost predicate IsLoneKey(use: Use, attr: string) {
    && attr != "" && HasNoCapital(attr) && IsTrimmed(attr) && IsPlain(attr)
    && (forall i :: 0 <= i < |attr| ==> attr[i] != ':')
    && !HasField(use, attr) && !BeginsWithVerb(attr)
  }

  ghost predicate IsWarning(use: Use, w: Warning) {
    match w
    case NotMapped(attr, value) => use.ForInsert? && attr in UNMAPPED && IsPlain(value)
    case UnknownAttr(attr) => IsLoneKey(use, attr) && (use.ForInsert? ==> attr !in UNMAPPED)
  }

  ghost predicate AreWarnings(use: Use, warnings: seq<Warning>) {
    forall i :: 0 <= i < |warnings| ==> IsWarning(use, warnings[i])
  }

  predicate IsJobName(name: string) {
    name != "" && IsPlain(name) && forall i :: 0 <= i < |name| ==> !IsWhite(name[i])
  }

  /** Texts of one line without comments, numbers in range, and the fields that such a block has. */
  ghost predicate IsBlock(block: Block) {
    match block
    case Insert(spec) =>
      && IsJobName(spec.name) && IsFields(spec.bag.fields) && AreWarnings(ForInsert(spec.name), spec.bag.warnings)
      && DEFAULTS.Keys <= spec.bag.fields.Keys
    case Update(name, bag) =>
      && IsJobName(name) && IsFields(bag.fields) && AreWarnings(ForUpdate, bag.warnings)
      && "job_type" !in bag.fields
    case Delete(name) => IsJobName(name)
  }

  // ----- Lines -----

  lemma {:induction false} PlainSum(a: string, b: string)
    requires IsPlain(a) && IsPlain(b) && (a != "" && b != "" ==> !(a[|a| - 1] == '/' && b[0] == '*'))
    ensures IsPlain(a + b)
  {
    var s := a + b;
    forall i | 0 <= i < |s| - 1
      ensures !(s[i] == '/' && s[i + 1] == '*')
    {
      if i < |a| - 1 {
        assert s[i] == a[i] && s[i + 1] == a[i + 1];
      } else if i >= |a| {
        assert s[i] == b[i - |a|] && s[i + 1] == b[i - |a| + 1];
      } else {
        assert s[i] == a[|a| - 1] && s[i + 1] == b[0];
      }
    }
  }

  lemma {:induction false} EscapedIsPlain(raw: string)
    requires IsPlain(raw)
    ensures IsPlain(Escaped(raw))
    ensures Escaped(raw) != "" && Escaped(raw)[0] == '*' ==> raw != "" && raw[0] == '*'
  {
    if raw != "" {
      var rest := raw[1..];
      assert IsPlain(rest) by {
        forall i | 0 <= i < |rest| - 1
          ensures !(rest[i] == '/' && rest[i + 1] == '*')
        {
          assert rest[i] == raw[i + 1] && rest[i + 1] == raw[i + 2];
        }
        assert forall i :: 0 <= i < |rest| ==> rest[i] == raw[i + 1];
      }
      EscapedIsPlain(rest);
      var first := if raw[0] == '"' then "\\\"" else [raw[0]];
      PlainSum(first, Escaped(rest));
    }
  }

  lemma {:induction false} QuotedIsPlain(raw: string)
    requires IsPlain(raw)
    ensures IsPlain(Quoted(raw)) && IsWritten(Quoted(raw), raw)
  {
    hide IsPlain, Escaped;
    EscapedIsPlain(raw);
    assert IsPlain("\"") by { OneQuoteIsPlain(); }
    PlainSum(Escaped(raw), "\"");
    PlainSum("\"", Escaped(raw) + "\"");
  }

  lemma {:induction false} OneQuoteIsPlain()
    ensures IsPlain("\"") && IsPlain(": ") && IsPlain("")
  {
  }

  /** Digits and letters need no quotes. */
  lemma {:induction false} WordIsBare(raw: string)
    requires raw != "" && forall i :: 0 <= i < |raw| ==> 'a' <= raw[i] <= 'z' || '0' <= raw[i] <= '9' || raw[i] == '-'
    ensures IsPlain(raw) && IsBare(raw)
  {
  }

  lemma {:induction false} NumberIsBare(n: int)
    ensures IsPlain(PrintNumber(n)) && IsBare(PrintNumber(n))
  {
    hide Decimal.Print;
    var digits := Decimal.Print(if n < 0 then -n else n);
    var raw := PrintNumber(n);
    forall i | 0 <= i < |raw|
      ensures '0' <= raw[i] <= '9' || raw[i] == '-'
    {
      assert Decimal.IsDigit(digits[if n < 0 && i > 0 then i - 1 else 0]);
      if n < 0 && i > 0 {
        assert raw[i] == digits[i - 1];
      } else if n >= 0 {
        assert Decimal.IsDigit(digits[i]);
      }
    }
    WordIsBare(raw);
  }

  lemma {:induction false} ValueIsWritten(kind: FieldKind, value: Value)
    requires IsValueOf(kind, value)
    ensures IsPlain(PrintValue(value)) && IsWritten(PrintValue(value), RawOf(value))
  {
    hide IsPlain, IsBare, PrintNumber, Quoted;
    match value
    case Text(text) => QuotedIsPlain(text);
    case Flag(yes) => WordIsBare(if yes then "y" else "n");
    case Number(n) => NumberIsBare(n);
    case Type(t) => WordIsBare(RawOf(value));
  }

  lemma {:induction false} ValueIsDenoted(kind: FieldKind, value: Value)
    requires IsValueOf(kind, value) && (kind.NumberField? && value.n < 0 ==> kind.low < 0)
    ensures Denotes(kind, RawOf(value), value)
  {
    match kind
    case TextField =>
    case FlagField => FlagIsDenoted(value.yes);
    case NumberField(low, high) => NumberIsDenoted(value.n, low < 0);
    case TypeField => TypeIsDenoted(value.jobType);
  }

  lemma {:induction false} FlagIsDenoted(yes: bool)
    ensures Denotes(FlagField, if yes then "y" else "n", Flag(yes))
  {
    var raw := if yes then "y" else "n";
    assert raw[..0] == "" && raw[1..] == "" && raw[0..1] == raw;
    assert Spells(raw, raw);
    assert IsPadded(raw, if yes then {"y", "yes", "true", "1"} else {"n", "no", "false", "0"});
  }

  lemma {:induction false} NumberIsDenoted(n: int, signed: bool)
    requires n < 0 ==> signed
    ensures IsNumeral(PrintNumber(n), n, signed)
  {
    hide Decimal.Print, Decimal.Value;
    var raw := PrintNumber(n);
    if n < 0 {
      assert raw[1..] == Decimal.Print(-n);
    } else {
      assert Decimal.IsDigit(raw[0]);
    }
  }

  lemma {:induction false} TypeIsDenoted(jobType: JobType)
    ensures Denotes(TypeField, RawOf(Type(jobType)), Type(jobType))
  {
    var raw := RawOf(Type(jobType));
    assert Spells(raw, raw);
  }

  // ----- Keys -----

  lemma {:induction false} VerbsHaveJob(s: string)
    requires BeginsWithVerb(s)
    ensures |s| >= 10 && s[7] in {'j', 'J'}
  {
    var verb :| verb in VERBS && |verb| <= |s| && Spells(s[..|verb|], verb);
    assert |verb| == 10 && verb[7] == 'j';
    assert s[..10][7] == s[7];
  }

  /** What the grammar asks of a key, and of the line it begins. */
  predicate IsFitKey(key: string) {
    && key != "" && !IsWhite(key[0]) && !IsWhite(key[|key| - 1]) && IsPlain(key)
    && (forall i :: 0 <= i < |key| ==> key[i] != ':') && !BeginsWithVerb(key)
  }

  lemma {:induction false} KeysAreFit(key: string)
    requires IsKey(key)
    ensures IsFitKey(key) && HasNoCapital(key)
  {
    hide BeginsWithVerb;
    if BeginsWithVerb(key) {
      VerbsHaveJob(key);
    }
  }

  lemma {:induction false} AttrIsText(use: Use, key: string, written: string, raw: string, reading: Reading)
    requires IsFitKey(key) && IsPlain(written) && IsWritten(written, raw) && IsReading(use, key, raw, reading)
    ensures IsAttrText(use, AttrOf(key, written, raw, reading))
  {
    hide IsPlain, IsWhite, BeginsWithVerb, IsWritten, IsReading;
    OneQuoteIsPlain();
    WrittenDoesNotStar(written, raw);
    PlainSum(": ", written);
    PlainSum(key, ": " + written);
    var a := AttrOf(key, written, raw, reading);
    assert AttrLine(a) == key + (": " + written) by {
      assert AttrCore(a) == key + ("" + (":" + (" " + written)));
      assert "" + (AttrCore(a) + "") == AttrCore(a);
      assert "" + (":" + (" " + written)) == ": " + written;
    }
    EmptyIsSpacing();
  }

  lemma {:induction false} WrittenDoesNotStar(written: string, raw: string)
    requires IsWritten(written, raw)
    ensures written != ""
  {
  }

  lemma {:induction false} FieldIsText(use: Use, f: string, value: Value)
    requires f in FIELDS && IsValueOf(FIELDS[f], value) && !(use.ForUpdate? && f == "job_type")
    ensures IsAttrText(use, AttrOf(f, PrintValue(value), RawOf(value), Sets(f, value)))
  {
    FieldsAreKeys(f);
    hide FIELDS, IsPlain, IsFitKey, IsKey, IsWritten, Denotes, PrintValue, RawOf, IsAttrText, Spells;
    KeysAreFit(f);
    ValueIsWritten(FIELDS[f], value);
    ValueIsDenoted(FIELDS[f], value);
    assert IsKeyOf(f, f) by { SpellsItself(f); }
    AttrIsText(use, f, PrintValue(value), RawOf(value), Sets(f, value));
  }

  lemma {:induction false} SpellsItself(s: string)
    ensures Spells(s, s)
  {
  }

  lemma {:induction false} WarningIsText(use: Use, w: Warning)
    requires IsWarning(use, w)
    ensures IsAttrText(use, WarningAttr(w)) && WarningAttr(w).reading == Warns(w)
  {
    hide UNMAPPED, FIELDS, IsPlain, IsWritten, IsAttrText, Spells, BeginsWithVerb, IsWhite, Quoted, HasField,
         HasNoCapital;
    SpellsItself(w.attr);
    OneQuoteIsPlain();
    match w
    case NotMapped(attr, value) =>
      UnmappedAreKeys(attr);
      KeysAreFit(attr);
      QuotedIsPlain(value);
      AttrIsText(use, attr, Quoted(value), value, Warns(w));
    case UnknownAttr(attr) =>
      QuotedIsPlain("");
      AttrIsText(use, attr, Quoted(""), "", Warns(w));
  }

  // ----- All attributes of a block -----

  lemma {:induction false} FieldsAreTexts(use: Use, fields: map<string, Value>, names: seq<string>)
    requires IsFields(fields) && (use.ForUpdate? ==> "job_type" !in fields)
    ensures AreAttrTexts(use, FieldAttrs(fields, names))
    decreases |names|
  {
    hide FIELDS, IsAttrText, AttrOf, PrintValue, RawOf, IsValueOf;
    if names != [] {
      FieldsAreTexts(use, fields, names[1..]);
      if names[0] in fields {
        FieldIsText(use, names[0], fields[names[0]]);
      }
    }
  }

  lemma {:induction false} WarningsAreTexts(use: Use, warnings: seq<Warning>)
    requires AreWarnings(use, warnings)
    ensures AreAttrTexts(use, WarningAttrs(warnings))
    decreases |warnings|
  {
    hide IsAttrText, WarningAttr, IsWarning;
    if warnings != [] {
      WarningsAreTexts(use, warnings[1..]);
      WarningIsText(use, warnings[0]);
    }
  }

  function Readings(attrs: seq<AttrText>): seq<Reading> {
    seq(|attrs|, i requires 0 <= i < |attrs| => attrs[i].reading)
  }

  lemma {:induction false} ReadingsOfSum(a: seq<AttrText>, b: seq<AttrText>)
    ensures Readings(a + b) == Readings(a) + Readings(b)
  {
  }

  /** The fields written, each put in its place. */
  function Overlaid(start: map<string, Value>, fields: map<string, Value>, names: seq<string>): map<string, Value>
    decreases |names|
  {
    if names == [] then start
    else if names[0] in fields then Overlaid(start[names[0] := fields[names[0]]], fields, names[1..])
    else Overlaid(start, fields, names[1..])
  }

  lemma {:induction false} FieldsFill(start: Bag, fields: map<string, Value>, names: seq<string>, more: seq<Reading>)
    ensures FilledWith(start, Readings(FieldAttrs(fields, names)) + more)
         == FilledWith(Bag(Overlaid(start.fields, fields, names), start.warnings), more)
    decreases |names|
  {
    hide RawOf, PrintValue;
    var attrs := FieldAttrs(fields, names);
    if names == [] {
      assert Readings(attrs) + more == more;
    } else if names[0] in fields {
      var f := names[0];
      var rest := FieldAttrs(fields, names[1..]);
      ReadingsOfSum([attrs[0]], rest);
      assert attrs == [attrs[0]] + rest;
      var readings := Readings(attrs) + more;
      assert readings[0] == Sets(f, fields[f]) && readings[1..] == Readings(rest) + more;
      FieldsFill(Bag(start.fields[f := fields[f]], start.warnings), fields, names[1..], more);
    } else {
      FieldsFill(start, fields, names[1..], more);
    }
  }

  lemma {:induction false} NothingFills(start: Bag)
    ensures FilledWith(start, []) == Ok(start)
  {
  }

  lemma {:induction false} WarningIsTaken(start: Bag, w: Warning, readings: seq<Reading>)
    requires readings != [] && readings[0] == Warns(w)
    ensures FilledWith(start, readings) == FilledWith(Bag(start.fields, start.warnings + [w]), readings[1..])
  {
  }

  lemma {:induction false} FirstWarningRead(warnings: seq<Warning>)
    requires warnings != []
    ensures var readings := Readings(WarningAttrs(warnings));
            readings != [] && readings[0] == Warns(warnings[0])
            && readings[1..] == Readings(WarningAttrs(warnings[1..]))
  {
    var first, rest := WarningAttr(warnings[0]), WarningAttrs(warnings[1..]);
    assert first.reading == Warns(warnings[0]);
    hide WarningAttr;
    ReadingsOfSum([first], rest);
    assert Readings([first]) == [first.reading];
  }

  lemma {:induction false} WarningsFill(start: Bag, use: Use, warnings: seq<Warning>)
    requires AreWarnings(use, warnings)
    ensures FilledWith(start, Readings(WarningAttrs(warnings))) == Ok(Bag(start.fields, start.warnings + warnings))
    decreases |warnings|
  {
    hide IsWarning, WarningAttr, FilledWith, Readings;
    if warnings == [] {
      NothingFills(start);
      NoReadings();
      assert start.warnings + [] == start.warnings;
    } else {
      var w := warnings[0];
      FirstWarningRead(warnings);
      WarningIsTaken(start, w, Readings(WarningAttrs(warnings)));
      hide WarningAttrs;
      WarningsFill(Bag(start.fields, start.warnings + [w]), use, warnings[1..]);
      assert start.warnings + [w] + warnings[1..] == start.warnings + warnings;
    }
  }

  lemma {:induction false} NoReadings()
    ensures Readings([]) == []
  {
  }

  lemma {:induction false} OverlaidIs(start: map<string, Value>, fields: map<string, Value>, names: seq<string>)
    ensures forall f ::
              (f in Overlaid(start, fields, names) <==> f in start || (f in names && f in fields))
              && (f in Overlaid(start, fields, names) ==>
                    Overlaid(start, fields, names)[f] == if f in names && f in fields then fields[f] else start[f])
    decreases |names|
  {
    if names != [] {
      var next := if names[0] in fields then start[names[0] := fields[names[0]]] else start;
      OverlaidIs(next, fields, names[1..]);
    }
  }

  lemma {:induction false} OrderIsFull(f: string)
    ensures f in FIELDS ==> f in ORDER
  {
  }

  lemma {:induction false} AllFieldsOverlaid(start: map<string, Value>, fields: map<string, Value>)
    requires IsFields(fields) && start.Keys <= fields.Keys
    ensures Overlaid(start, fields, ORDER) == fields
  {
    hide FIELDS, ORDER, IsValueOf;
    OverlaidIs(start, fields, ORDER);
    var all := Overlaid(start, fields, ORDER);
    forall f
      ensures f in all <==> f in fields
      ensures f in all && f in fields ==> all[f] == fields[f]
    {
      OrderIsFull(f);
    }
  }

  lemma {:induction false} BagIsFilled(start: map<string, Value>, use: Use, bag: Bag)
    requires IsFields(bag.fields) && AreWarnings(use, bag.warnings) && start.Keys <= bag.fields.Keys
    ensures FilledWith(Bag(start, []), Readings(AttrsFor(bag))) == Ok(bag)
  {
    hide FIELDS, ORDER, IsFields, AreWarnings, FilledWith, Overlaid, FieldAttrs, WarningAttrs, Readings;
    var fields, warnings := FieldAttrs(bag.fields, ORDER), WarningAttrs(bag.warnings);
    ReadingsOfSum(fields, warnings);
    FieldsFill(Bag(start, []), bag.fields, ORDER, Readings(warnings));
    AllFieldsOverlaid(start, bag.fields);
    WarningsFill(Bag(bag.fields, []), use, bag.warnings);
    assert [] + bag.warnings == bag.warnings;
  }

  // ----- Blocks -----

  lemma {:induction false} NameIsHead(verb: string, name: string)
    requires verb in VERBS && IsJobName(name)
    ensures IsHead(HeadFor(verb, name), verb)
  {
    hide IsPlain, IsWhite, VERBS, Spells;
    var h := HeadFor(verb, name);
    SpellsItself(verb);
    VerbsArePlain(verb);
    OneQuoteIsPlain();
    PlainSum(": ", name);
    PlainSum(verb, ": " + name);
    assert HeadLine(h) == verb + (": " + name) by {
      assert name + InlinesOf([]) == name;
      assert HeadCore(h) == verb + ("" + (":" + (" " + name)));
      assert "" + (HeadCore(h) + "") == HeadCore(h);
      assert "" + (":" + (" " + name)) == ": " + name;
    }
  }

  lemma {:induction false} VerbsArePlain(verb: string)
    requires verb in VERBS
    ensures IsPlain(verb)
  {
  }

  lemma {:induction false} InsertIsSource(spec: JobSpec)
    requires IsBlock(Insert(spec))
    ensures IsSource(SourceFor(Insert(spec))) && BlockOf(SourceFor(Insert(spec))) == Ok(Insert(spec))
  {
    hide IsHead, IsAttrText, FIELDS, AttrsFor, IsFields, AreWarnings, IsJobName, FilledWith, ReadingsOf, Readings,
         DEFAULTS;
    NameIsHead("insert_job", spec.name) by { VerbsAre(); }
    BagIsSource(ForInsert(spec.name), spec.bag);
    BagIsFilled(DEFAULTS, ForInsert(spec.name), spec.bag);
    NoInlineReadings(SourceFor(Insert(spec)));
  }

  lemma {:induction false} UpdateIsSource(name: string, bag: Bag)
    requires IsBlock(Update(name, bag))
    ensures IsSource(SourceFor(Update(name, bag))) && BlockOf(SourceFor(Update(name, bag))) == Ok(Update(name, bag))
  {
    hide IsHead, IsAttrText, FIELDS, AttrsFor, IsFields, AreWarnings, IsJobName, FilledWith, ReadingsOf, Readings;
    NameIsHead("update_job", name) by { VerbsAre(); }
    BagIsSource(ForUpdate, bag);
    BagIsFilled(map[], ForUpdate, bag);
    NoInlineReadings(SourceFor(Update(name, bag)));
  }

  lemma {:induction false} VerbsAre()
    ensures "insert_job" in VERBS && "update_job" in VERBS && "delete_job" in VERBS
  {
  }

  lemma {:induction false} BlockIsSource(block: Block)
    requires IsBlock(block)
    ensures IsSource(SourceFor(block)) && BlockOf(SourceFor(block)) == Ok(block)
  {
    hide IsHead, IsSource, BlockOf;
    match block
    case Insert(spec) => InsertIsSource(spec);
    case Update(name, bag) => UpdateIsSource(name, bag);
    case Delete(name) => DeleteIsSource(name);
  }

  lemma {:induction false} DeleteIsSource(name: string)
    requires IsJobName(name)
    ensures IsSource(SourceFor(Delete(name))) && BlockOf(SourceFor(Delete(name))) == Ok(Delete(name))
  {
    hide IsHead, IsJobName;
    NameIsHead("delete_job", name);
  }

  lemma {:induction false} BagIsSource(use: Use, bag: Bag)
    requires IsFields(bag.fields) && AreWarnings(use, bag.warnings) && (use.ForUpdate? ==> "job_type" !in bag.fields)
    ensures AreAttrTexts(use, AttrsFor(bag))
  {
    hide IsAttrText, FIELDS, ORDER, IsFields, AreWarnings;
    FieldsAreTexts(use, bag.fields, ORDER);
    WarningsAreTexts(use, bag.warnings);
  }

  lemma {:induction false} NoInlineReadings(source: Source)
    requires !source.DeleteText? && source.head.inlines == []
    ensures ReadingsOf(source) == Readings(source.attrs)
  {
  }

  lemma {:induction false} BlocksAreSources(blocks: seq<Block>)
    requires forall i :: 0 <= i < |blocks| ==> IsBlock(blocks[i])
    ensures AreSources(SourcesFor(blocks)) && BlocksOf(SourcesFor(blocks)) == Ok(blocks)
    decreases |blocks|
  {
    hide IsBlock, SourceFor, IsSource, BlockOf;
    if blocks != [] {
      BlockIsSource(blocks[0]);
      BlocksAreSources(blocks[1..]);
      assert [blocks[0]] + blocks[1..] == blocks;
    }
  }

  lemma {:induction false} NothingIsIdle()
    ensures AreIdle([""])
  {
  }

  /** Parsing gives back the blocks that were printed, fields, numbers, flags and warnings included. */
  lemma {:induction false} PrintedIsParsed(blocks: seq<Block>)
    requires forall i :: 0 <= i < |blocks| ==> IsBlock(blocks[i])
    ensures Parse(Print(blocks)) == Ok(blocks)
  {
    hide IsBlock, SourcesFor, AreSources, BlocksOf, Parse, TextOf;
    BlocksAreSources(blocks);
    NothingIsIdle();
    SourcesHaveNoComments(SourcesFor(blocks), [""]);
    SourcesAreParsed(Print(blocks), SourcesFor(blocks), [""]);
  }
}
