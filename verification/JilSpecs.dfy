/** What the attributes of a block are built into, for an insertion and for an update. */
module JilSpecs {
  import opened Ascii
  import opened Core
  import opened Whitespace
  import Decimal

  type Attrs = seq<(string, string)>

  datatype JobType = Command | Box | FileWatcher
  datatype Value = Text(text: string) | Flag(yes: bool) | Number(n: int) | Type(jobType: JobType)
  datatype Warning = NotMapped(attr: string, value: string) | UnknownAttr(attr: string)

  /** A field that is `None` in the program is not in the map. */
  datatype Bag = Bag(fields: map<string, Value>, warnings: seq<Warning>)
  datatype JobSpec = JobSpec(name: string, bag: Bag)

  datatype JilError =
    | UnterminatedComment
    | UnknownVerb(verb: string, line: nat)
    | UnknownJobType(jobType: string, job: string)
    | BadValue(attr: string, value: string)

  const NO_ATTRIBUTES := Bag(map[], [])
  const INSERTED := Bag(map["job_type" := Type(Command), "alarm_if_fail" := Flag(false), "n_retrys" := Number(0)], [])

  // ----- One attribute -----

  datatype Kind = TypeKind | TextKind | FlagKind | NumberKind(low: int, high: int) | IgnoredKind | UnknownKind

  const TEXTS := {
    "command", "machine", "owner", "days_of_week", "start_times", "condition", "description", "std_out_file",
    "std_err_file", "box_name", "exclude_calendar", "must_start_times", "must_complete_times", "fail_codes",
    "box_success", "box_failure", "resources"}
  const FLAGS := {"alarm_if_fail", "box_terminator", "job_terminator", "auto_hold"}
  const IGNORED := {
    "date_conditions", "timezone", "run_calendar", "max_run_alarm", "watch_file", "watch_interval",
    "watch_file_min_size", "profile", "application", "group", "permission"}

  function KindOf(key: string): Kind {
    if key == "job_type" then TypeKind
    else if key in TEXTS then TextKind
    else if key in FLAGS then FlagKind
    else if key == "n_retrys" || key == "n_retries" then NumberKind(0, 0xFFFF_FFFF)
    else if key == "term_run_time" then NumberKind(0, U64_MAX)
    else if key == "max_exit_success" || key == "condition_code" then NumberKind(-0x8000_0000, 0x7FFF_FFFF)
    else if key in IGNORED then IgnoredKind
    else UnknownKind
  }

  function FieldOf(key: string): string {
    if key == "n_retries" then "n_retrys" else key
  }

  /** Only a signed type takes a minus; both take a plus. */
  function ParseNumber(s: string, low: int, high: int): (n: Option<int>)
    ensures n.Some? ==> low <= n.value <= high
  {
    var negative := low < 0 && s != "" && s[0] == '-';
    var digits := if negative || (s != "" && s[0] == '+') then s[1..] else s;
    if digits == "" || !Decimal.AllDigits(digits) then None
    else
      var magnitude: int := Decimal.Value(digits);
      var n := if negative then -magnitude else magnitude;
      if low <= n <= high then Some(n) else None
  }

  function ParseFlag(s: string): Option<bool> {
    var t := Trim(Lower(s));
    if t in {"y", "yes", "true", "1"} then Some(true)
    else if t in {"n", "no", "false", "0"} then Some(false)
    else None
  }

  function ParseJobType(s: string): Option<JobType> {
    var t := Lower(s);
    if t in {"c", "cmd", "command"} then Some(Command)
    else if t == "box" then Some(Box)
    else if t in {"fw", "file_watcher"} then Some(FileWatcher)
    else None
  }

  /** What is being built: a whole specification, or a change to one. */
  datatype Use = ForInsert(job: string) | ForUpdate

  datatype Reading = Sets(field: string, value: Value) | Warns(warning: Warning) | Drops | Refuses(error: JilError)

  /** A bad value is an error in an insertion, and passed over in an update. */
  function Bad(use: Use, error: JilError): Reading {
    if use.ForUpdate? then Drops else Refuses(error)
  }

  function Read(use: Use, attr: (string, string)): Reading {
    var (key, value) := attr;
    match KindOf(key)
    case TextKind => Sets(key, Text(value))
    case FlagKind =>
      var flag := ParseFlag(value);
      if flag.Some? then Sets(key, Flag(flag.value)) else Bad(use, BadValue(key, Trim(Lower(value))))
    case NumberKind(low, high) =>
      var n := ParseNumber(value, low, high);
      if n.Some? then Sets(FieldOf(key), Number(n.value)) else Bad(use, BadValue(key, value))
    case TypeKind =>
      if use.ForUpdate? then Warns(UnknownAttr(key))
      else
        var jobType := ParseJobType(value);
        if jobType.Some? then Sets(key, Type(jobType.value)) else Refuses(UnknownJobType(Lower(value), use.job))
    case IgnoredKind => Warns(if use.ForUpdate? then UnknownAttr(key) else NotMapped(key, value))
    case UnknownKind => Warns(UnknownAttr(key))
  }

  // ----- All of them, in order -----

  function Taken(bag: Bag, reading: Reading): Bag {
    match reading
    case Sets(field, value) => bag.(fields := bag.fields[field := value])
    case Warns(warning) => bag.(warnings := bag.warnings + [warning])
    case _ => bag
  }

  function Fill(use: Use, bag: Bag, attrs: Attrs): Result<Bag, JilError>
    decreases |attrs|
  {
    if attrs == [] then Ok(bag)
    else
      var reading := Read(use, attrs[0]);
      if reading.Refuses? then Err(reading.error) else Fill(use, Taken(bag, reading), attrs[1..])
  }

  function BuildJobSpec(name: string, attrs: Attrs): Result<JobSpec, JilError> {
    var bag := Fill(ForInsert(name), INSERTED, attrs);
    if bag.Err? then Err(bag.error) else Ok(JobSpec(name, bag.value))
  }

  function BuildPartialSpec(attrs: Attrs): Bag {
    UpdatesNeverFail(NO_ATTRIBUTES, attrs);
    Fill(ForUpdate, NO_ATTRIBUTES, attrs).value
  }

  lemma {:induction false} UpdatesNeverFail(bag: Bag, attrs: Attrs)
    ensures Fill(ForUpdate, bag, attrs).Ok?
    decreases |attrs|
  {
    hide KindOf, ParseFlag, ParseNumber;
    if attrs != [] {
      UpdatesNeverFail(Taken(bag, Read(ForUpdate, attrs[0])), attrs[1..]);
    }
  }

  /** The loop over the attributes, which stops at the first that is refused. */
  method FillBag(use: Use, start: Bag, attrs: Attrs) returns (r: Result<Bag, JilError>)
    ensures r == Fill(use, start, attrs)
  {
    hide Read;
    var bag := start;
    var i := 0;
    assert attrs[0..] == attrs;
    while i < |attrs|
      invariant 0 <= i <= |attrs|
      invariant Fill(use, start, attrs) == Fill(use, bag, attrs[i..])
    {
      assert attrs[i..][1..] == attrs[i + 1..];
      var reading := Read(use, attrs[i]);
      if reading.Refuses? {
        return Err(reading.error);
      }
      bag := Taken(bag, reading);
      i := i + 1;
    }
    return Ok(bag);
  }

  lemma {:induction false} FillOn(use: Use, bag: Bag, attrs: Attrs, more: Attrs)
    ensures var filled := Fill(use, bag, attrs);
            Fill(use, bag, attrs + more) == if filled.Err? then filled else Fill(use, filled.value, more)
    decreases |attrs|
  {
    hide Read, Taken;
    if attrs == [] {
      assert attrs + more == more;
    } else {
      assert (attrs + more)[1..] == attrs[1..] + more && (attrs + more)[0] == attrs[0];
      var reading := Read(use, attrs[0]);
      if !reading.Refuses? {
        FillOn(use, Taken(bag, reading), attrs[1..], more);
      }
    }
  }

  // ----- What comes out -----

  /** The last value the attributes give a field. */
  function LastGiven(use: Use, attrs: Attrs, field: string): Option<Value> {
    if attrs == [] then None
    else
      var later := LastGiven(use, attrs[1..], field);
      var reading := Read(use, attrs[0]);
      if later.None? && reading.Sets? && reading.field == field then Some(reading.value) else later
  }

  function Field(bag: Bag, field: string): Option<Value> {
    if field in bag.fields then Some(bag.fields[field]) else None
  }

  function WarningsOf(use: Use, attrs: Attrs): seq<Warning> {
    if attrs == [] then []
    else
      var reading := Read(use, attrs[0]);
      (if reading.Warns? then [reading.warning] else []) + WarningsOf(use, attrs[1..])
  }

  /** The first attribute that is refused. */
  function FirstRefusal(use: Use, attrs: Attrs): Option<JilError> {
    if attrs == [] then None
    else
      var reading := Read(use, attrs[0]);
      if reading.Refuses? then Some(reading.error) else FirstRefusal(use, attrs[1..])
  }

  /** For each field the last value wins, and every warning is kept, in order; unless an attribute is refused. */
  lemma {:induction false} LastValueWins(use: Use, bag: Bag, attrs: Attrs)
    ensures Fill(use, bag, attrs).Err? <==> FirstRefusal(use, attrs).Some?
    ensures Fill(use, bag, attrs).Err? ==> Fill(use, bag, attrs).error == FirstRefusal(use, attrs).value
    ensures Fill(use, bag, attrs).Ok? ==>
              var filled := Fill(use, bag, attrs).value;
              && filled.warnings == bag.warnings + WarningsOf(use, attrs)
              && forall field :: Field(filled, field)
                   == if LastGiven(use, attrs, field).Some? then LastGiven(use, attrs, field) else Field(bag, field)
    decreases |attrs|
  {
    hide Read;
    if attrs != [] {
      LastValueWins(use, Taken(bag, Read(use, attrs[0])), attrs[1..]);
    }
  }

  /** None of these attributes is refused or warned about, and none sets a field to something else in the end. */
  predicate ChangeNothing(use: Use, bag: Bag, more: Attrs) {
    forall i :: 0 <= i < |more| ==>
      var reading := Read(use, more[i]);
      reading.Drops? || (reading.Sets? && LastGiven(use, more, reading.field) == Field(bag, reading.field))
  }

  lemma {:induction false} GivenSomewhere(use: Use, attrs: Attrs, field: string)
    ensures LastGiven(use, attrs, field).Some? <==>
              exists i :: 0 <= i < |attrs| && Read(use, attrs[i]).Sets? && Read(use, attrs[i]).field == field
  {
    hide Read;
    if attrs != [] {
      GivenSomewhere(use, attrs[1..], field);
      assert forall i :: 0 < i < |attrs| ==> attrs[i] == attrs[1..][i - 1];
      assert forall i :: 0 <= i < |attrs[1..]| ==> attrs[1..][i] == attrs[i + 1];
    }
  }

  lemma {:induction false} NoneWarns(use: Use, attrs: Attrs)
    ensures WarningsOf(use, attrs) == [] <==> forall i :: 0 <= i < |attrs| ==> !Read(use, attrs[i]).Warns?
    ensures FirstRefusal(use, attrs).None? <==> forall i :: 0 <= i < |attrs| ==> !Read(use, attrs[i]).Refuses?
  {
    hide Read;
    if attrs != [] {
      NoneWarns(use, attrs[1..]);
      assert forall i :: 0 < i < |attrs| ==> attrs[i] == attrs[1..][i - 1];
      assert forall i :: 0 <= i < |attrs[1..]| ==> attrs[1..][i] == attrs[i + 1];
    }
  }

  /** More attributes leave what has been built as it is exactly if they change nothing, read one by one. */
  lemma {:induction false} UnchangedExactly(use: Use, bag: Bag, more: Attrs)
    ensures Fill(use, bag, more) == Ok(bag) <==> ChangeNothing(use, bag, more)
  {
    hide Read, Fill, LastGiven, WarningsOf, FirstRefusal;
    LastValueWins(use, bag, more);
    NoneWarns(use, more);
    forall field
      ensures LastGiven(use, more, field).Some? <==>
                exists i :: 0 <= i < |more| && Read(use, more[i]).Sets? && Read(use, more[i]).field == field
    {
      GivenSomewhere(use, more, field);
    }
    if ChangeNothing(use, bag, more) {
      assert bag.warnings + [] == bag.warnings;
      var filled := Fill(use, bag, more).value;
      forall field
        ensures Field(filled, field) == Field(bag, field)
      {
        if LastGiven(use, more, field).Some? {
          var i :| 0 <= i < |more| && Read(use, more[i]).Sets? && Read(use, more[i]).field == field;
        }
      }
      SameFields(filled, bag);
    }
  }

  lemma {:induction false} SameFields(x: Bag, y: Bag)
    requires forall field :: Field(x, field) == Field(y, field)
    ensures x.fields == y.fields
  {
    forall field
      ensures field in x.fields <==> field in y.fields
      ensures field in x.fields && field in y.fields ==> x.fields[field] == y.fields[field]
    {
      assert Field(x, field) == Field(y, field);
    }
  }
}
