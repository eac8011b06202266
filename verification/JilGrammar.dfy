/**
 * JIL as it is written, told without the parser: which fields there are and
 * how their names and values may be spelled, how attributes and blocks are
 * laid out, and what a list of blocks means.
 */
module JilGrammar {
  import opened Ascii
  import opened Core
  import opened JilBlocks
  import opened JilSpecs
  import opened Whitespace
  import Decimal

  // ----- Fields and their values -----

  datatype FieldKind = TypeField | TextField | FlagField | NumberField(low: int, high: int)

  const FIELDS: map<string, FieldKind> := map[
    "job_type" := TypeField,
    "command" := TextField, "machine" := TextField, "owner" := TextField, "description" := TextField,
    "days_of_week" := TextField, "start_times" := TextField, "condition" := TextField, "exclude_calendar" := TextField,
    "must_start_times" := TextField, "must_complete_times" := TextField, "fail_codes" := TextField,
    "std_out_file" := TextField, "std_err_file" := TextField, "resources" := TextField,
    "box_name" := TextField, "box_success" := TextField, "box_failure" := TextField,
    "alarm_if_fail" := FlagField, "box_terminator" := FlagField, "job_terminator" := FlagField,
    "auto_hold" := FlagField,
    "n_retrys" := NumberField(0, 4294967295), "term_run_time" := NumberField(0, 18446744073709551615),
    "max_exit_success" := NumberField(-2147483648, 2147483647),
    "condition_code" := NumberField(-2147483648, 2147483647)]

  // Attributes of other systems that are known, but come to nothing.
  const UNMAPPED := {
    "application", "date_conditions", "group", "max_run_alarm", "permission", "profile", "run_calendar",
    "timezone", "watch_file", "watch_file_min_size", "watch_interval"}

  // The fields that a new job has whatever its block says.
  const DEFAULTS := map["job_type" := Type(Command), "alarm_if_fail" := Flag(false), "n_retrys" := Number(0)]

  /** The key stands for the field, in any letter case; one field goes by two names. */
  predicate IsKeyOf(key: string, field: string) {
    Spells(key, field) || (field == "n_retrys" && Spells(key, "n_retries"))
  }

  /** The text of a value, quotes removed, stands for the value. */
  predicate Denotes(kind: FieldKind, raw: string, value: Value) {
    match kind
    case TextField => value == Text(raw)
    case FlagField =>
      value.Flag? && IsPadded(raw, if value.yes then {"y", "yes", "true", "1"} else {"n", "no", "false", "0"})
    case NumberField(low, high) => value.Number? && low <= value.n <= high && IsNumeral(raw, value.n, low < 0)
    case TypeField =>
      value.Type? && SpellsOneOf(raw,
        match value.jobType
        case Command => {"c", "cmd", "command"}
        case Box => {"box"}
        case FileWatcher => {"fw", "file_watcher"})
  }

  /** Digits, leading zeros and all, behind a plus or, where allowed, a minus. */
  predicate IsNumeral(raw: string, n: int, signed: bool) {
    && raw != ""
    && var digits := if raw[0] == '+' || (signed && raw[0] == '-') then raw[1..] else raw;
       && digits != "" && Decimal.AllDigits(digits)
       && n == if raw[0] == '-' then -(Decimal.Value(digits) as int) else Decimal.Value(digits)
  }

  ghost predicate IsIllegible(kind: FieldKind, raw: string) {
    forall value :: !Denotes(kind, raw, value)
  }

  /** The type of a job cannot be changed by an update. */
  ghost predicate IsFieldOf(use: Use, key: string, field: string) {
    field in FIELDS && IsKeyOf(key, field) && !(use.ForUpdate? && field == "job_type")
  }

  ghost predicate HasField(use: Use, key: string) {
    exists field :: IsFieldOf(use, key, field)
  }

  /** What an attribute comes to: a field set, a warning, or a bad value, which only an insertion minds. */
  ghost predicate IsReading(use: Use, key: string, raw: string, r: Reading) {
    match r
    case Sets(field, value) => IsFieldOf(use, key, field) && Denotes(FIELDS[field], raw, value)
    case Drops => use.ForUpdate? && exists field :: IsFieldOf(use, key, field) && IsIllegible(FIELDS[field], raw)
    case Refuses(UnknownJobType(jobType, job)) =>
      && use == ForInsert(job) && Spells(raw, jobType) && HasNoCapital(jobType)
      && IsKeyOf(key, "job_type") && IsIllegible(TypeField, raw)
    case Refuses(BadValue(attr, text)) =>
      && use.ForInsert? && Spells(key, attr) && HasNoCapital(attr)
      && exists field :: IsFieldOf(use, key, field) && field != "job_type" && IsIllegible(FIELDS[field], raw)
           && if FIELDS[field].FlagField? then IsPadded(raw, {text}) && IsTrim(text) else text == raw
    case Refuses(_) => false
    case Warns(NotMapped(attr, text)) => use.ForInsert? && attr in UNMAPPED && Spells(key, attr) && text == raw
    case Warns(UnknownAttr(attr)) =>
      && Spells(key, attr) && HasNoCapital(attr) && !HasField(use, key)
      && (use.ForInsert? ==> attr !in UNMAPPED)
  }

  // ----- Layout -----

  predicate IsSpacing(s: string) {
    forall i :: 0 <= i < |s| ==> s[i] in {' ', '\t'}
  }

  /** No white space, and no colon. */
  predicate IsWord(s: string) {
    s != "" && forall i :: 0 <= i < |s| ==> !IsWhite(s[i]) && s[i] != ':'
  }

  function Escaped(raw: string): string {
    if raw == "" then "" else (if raw[0] == '"' then "\\\"" else [raw[0]]) + Escaped(raw[1..])
  }

  /** What can stand without quotes. */
  predicate IsBare(raw: string) {
    && raw != "" && !IsWhite(raw[0]) && !IsWhite(raw[|raw| - 1])
    && !(|raw| >= 2 && raw[0] == '"' && raw[|raw| - 1] == '"')
  }

  predicate IsWritten(written: string, raw: string) {
    written == "\"" + (Escaped(raw) + "\"") || (written == raw && IsBare(raw))
  }

  /** `key: value` on a line of its own, with idle lines above, and what it comes to. */
  datatype AttrText = AttrText(
    above: seq<string>, indent: string, key: string, gap: string, gap': string, written: string, trail: string,
    raw: string, reading: Reading)

  /** `key: value` or `key:value` behind the name of the job. */
  datatype InlineText = InlineText(gap: string, key: string, gap': string, raw: string, reading: Reading)

  datatype HeadText = HeadText(
    above: seq<string>, indent: string, verb: string, gap: string, gap': string, name: string,
    inlines: seq<InlineText>, trail: string)

  datatype Source =
    | InsertText(head: HeadText, attrs: seq<AttrText>)
    | UpdateText(head: HeadText, attrs: seq<AttrText>)
    | DeleteText(head: HeadText)

  function AttrCore(a: AttrText): string {
    a.key + (a.gap + (":" + (a.gap' + a.written)))
  }

  function AttrLine(a: AttrText): string {
    a.indent + (AttrCore(a) + a.trail)
  }

  function InlineOf(i: InlineText): string {
    i.gap + (i.key + (":" + (i.gap' + i.raw)))
  }

  function InlinesOf(inlines: seq<InlineText>): string {
    if inlines == [] then "" else InlineOf(inlines[0]) + InlinesOf(inlines[1..])
  }

  function HeadCore(h: HeadText): string {
    h.verb + (h.gap + (":" + (h.gap' + (h.name + InlinesOf(h.inlines)))))
  }

  function HeadLine(h: HeadText): string {
    h.indent + (HeadCore(h) + h.trail)
  }

  function AttrLines(attrs: seq<AttrText>): seq<string> {
    if attrs == [] then [] else attrs[0].above + ([AttrLine(attrs[0])] + AttrLines(attrs[1..]))
  }

  function LinesOf(source: Source): seq<string> {
    source.head.above + ([HeadLine(source.head)] + if source.DeleteText? then [] else AttrLines(source.attrs))
  }

  function AllLines(sources: seq<Source>): seq<string> {
    if sources == [] then [] else LinesOf(sources[0]) + AllLines(sources[1..])
  }

  function JoinLines(lines: seq<string>): string {
    if lines == [] then ""
    else if |lines| == 1 then lines[0]
    else lines[0] + ("\n" + JoinLines(lines[1..]))
  }

  /** The blocks one below the other, and idle lines at the end. */
  function TextOf(sources: seq<Source>, below: seq<string>): string {
    JoinLines(AllLines(sources) + below)
  }

  // ----- Well-formedness -----

  /** One line, and no part of a comment. */
  predicate IsPlain(line: string) {
    && (forall i :: 0 <= i < |line| ==> line[i] != '\n')
    && (forall i :: 0 <= i < |line| - 1 ==> !(line[i] == '/' && line[i + 1] == '*'))
  }

  const VERBS := {"insert_job", "update_job", "delete_job"}

  predicate BeginsWithVerb(s: string) {
    exists verb :: verb in VERBS && |verb| <= |s| && Spells(s[..|verb|], verb)
  }

  /** A line that says nothing: blank, or without a colon and without a verb at its start. */
  predicate IsIdle(line: string) {
    && IsPlain(line) && (forall i :: 0 <= i < |line| ==> line[i] != ':')
    && forall i :: 0 <= i <= |line| && IsBlank(line[..i]) ==> !BeginsWithVerb(line[i..])
  }

  predicate AreIdle(lines: seq<string>) {
    forall i :: 0 <= i < |lines| ==> IsIdle(lines[i])
  }

  ghost predicate IsAttrText(use: Use, a: AttrText) {
    && AreIdle(a.above) && IsSpacing(a.indent) && IsSpacing(a.gap) && IsSpacing(a.gap') && IsSpacing(a.trail)
    && a.key != "" && !IsWhite(a.key[0]) && !IsWhite(a.key[|a.key| - 1])
    && (forall i :: 0 <= i < |a.key| ==> a.key[i] != ':')
    && !BeginsWithVerb(a.key) && IsWritten(a.written, a.raw) && IsPlain(AttrLine(a))
    && IsReading(use, a.key, a.raw, a.reading)
  }

  predicate IsInline(i: InlineText) {
    && IsSpacing(i.gap) && i.gap != "" && IsSpacing(i.gap') && IsWord(i.key)
    && i.raw != "" && (forall k :: 0 <= k < |i.raw| ==> !IsWhite(i.raw[k]))
    && (i.gap' == "" ==> i.raw[|i.raw| - 1] != ':')
  }

  predicate AreInline(inlines: seq<InlineText>) {
    forall i :: 0 <= i < |inlines| ==> IsInline(inlines[i])
  }

  predicate IsHead(h: HeadText, verb: string) {
    && verb in VERBS && Spells(h.verb, verb)
    && AreIdle(h.above) && IsSpacing(h.indent) && IsSpacing(h.gap) && IsSpacing(h.gap') && IsSpacing(h.trail)
    && h.name != "" && (forall i :: 0 <= i < |h.name| ==> !IsWhite(h.name[i]))
    && AreInline(h.inlines) && IsPlain(HeadLine(h))
  }

  ghost predicate IsHeadText(use: Use, h: HeadText, verb: string) {
    && IsHead(h, verb)
    && forall i :: 0 <= i < |h.inlines| ==> IsReading(use, h.inlines[i].key, h.inlines[i].raw, h.inlines[i].reading)
  }

  /** A deletion may carry attributes behind the name; they are not looked at. */
  ghost predicate IsSource(source: Source) {
    match source
    case InsertText(h, attrs) =>
      IsHeadText(ForInsert(h.name), h, "insert_job")
      && forall i :: 0 <= i < |attrs| ==> IsAttrText(ForInsert(h.name), attrs[i])
    case UpdateText(h, attrs) =>
      IsHeadText(ForUpdate, h, "update_job") && forall i :: 0 <= i < |attrs| ==> IsAttrText(ForUpdate, attrs[i])
    case DeleteText(h) => IsHead(h, "delete_job")
  }

  ghost predicate AreSources(sources: seq<Source>) {
    forall i :: 0 <= i < |sources| ==> IsSource(sources[i])
  }

  // ----- Meaning -----

  function ReadingsOf(source: Source): seq<Reading>
    requires !source.DeleteText?
  {
    seq(|source.head.inlines|, i requires 0 <= i < |source.head.inlines| => source.head.inlines[i].reading)
    + seq(|source.attrs|, i requires 0 <= i < |source.attrs| => source.attrs[i].reading)
  }

  /** Fields are set one after the other, warnings collected, and the first refusal ends it. */
  function FilledWith(bag: Bag, readings: seq<Reading>): Result<Bag, JilError>
    decreases |readings|
  {
    if readings == [] then Ok(bag)
    else
      match readings[0]
      case Sets(field, value) => FilledWith(Bag(bag.fields[field := value], bag.warnings), readings[1..])
      case Warns(warning) => FilledWith(Bag(bag.fields, bag.warnings + [warning]), readings[1..])
      case Drops => FilledWith(bag, readings[1..])
      case Refuses(error) => Err(error)
  }

  function BlockOf(source: Source): Result<Block, JilError> {
    match source
    case InsertText(h, _) =>
      (match FilledWith(Bag(DEFAULTS, []), ReadingsOf(source))
       case Err(e) => Err(e)
       case Ok(bag) => Ok(Insert(JobSpec(h.name, bag))))
    case UpdateText(h, _) =>
      (match FilledWith(Bag(map[], []), ReadingsOf(source))
       case Err(e) => Err(e)
       case Ok(bag) => Ok(Update(h.name, bag)))
    case DeleteText(h) => Ok(Delete(h.name))
  }

  function BlocksOf(sources: seq<Source>): Result<seq<Block>, JilError> {
    if sources == [] then Ok([])
    else
      match BlockOf(sources[0])
      case Err(e) => Err(e)
      case Ok(block) =>
        match BlocksOf(sources[1..])
        case Err(e) => Err(e)
        case Ok(blocks) => Ok([block] + blocks)
  }
}
