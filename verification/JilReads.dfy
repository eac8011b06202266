/** An attribute is read as it is written. */
module JilReads {
  import opened Ascii
  import opened Core
  import opened JilGrammar
  import opened JilSpecs
  import opened Whitespace
  import Decimal

  // ----- Keys -----

  /** The kind of a field, as the parser tells them apart. */
  function KindAs(kind: FieldKind): Kind {
    match kind
    case TypeField => TypeKind
    case TextField => TextKind
    case FlagField => FlagKind
    case NumberField(low, high) => NumberKind(low, high)
  }

  /** A key of letters and underscores, and no verb. */
  predicate IsKey(key: string) {
    && key != "" && (forall i :: 0 <= i < |key| ==> 'a' <= key[i] <= 'z' || key[i] == '_')
    && (|key| >= 10 ==> key[7] != 'j')
  }

  lemma {:induction false} KeysHaveNoCapital(key: string)
    requires IsKey(key)
    ensures HasNoCapital(key)
  {
  }

  // The fields in three parts, for shorter proofs.
  const PART_A := {
    "job_type", "command", "machine", "owner", "description", "days_of_week", "start_times", "condition"}
  const PART_B := {
    "exclude_calendar", "must_start_times", "must_complete_times", "fail_codes", "std_out_file", "std_err_file",
    "resources", "box_name", "box_success"}
  const PART_C := {
    "box_failure", "alarm_if_fail", "box_terminator", "job_terminator", "auto_hold", "n_retrys", "term_run_time",
    "max_exit_success", "condition_code"}

  lemma {:induction false} PartsAreFields(field: string)
    ensures field in FIELDS <==> field in PART_A || field in PART_B || field in PART_C
  {
  }

  lemma {:induction false} PartAIsKeys(field: string)
    ensures field in PART_A ==> IsKey(field)
  {
  }

  lemma {:induction false} PartBIsKeys(field: string)
    ensures field in PART_B ==> IsKey(field)
  {
  }

  lemma {:induction false} PartCIsKeys(field: string)
    ensures field in PART_C ==> IsKey(field)
  {
  }

  lemma {:induction false} FieldsAreKeys(field: string)
    ensures field in FIELDS || field == "n_retries" ==> IsKey(field) && HasNoCapital(field)
  {
    if field == "n_retries" {
      KeysHaveNoCapital(field);
    } else {
      hide FIELDS, PART_A, PART_B, PART_C, IsKey;
      PartsAreFields(field);
      PartAIsKeys(field);
      PartBIsKeys(field);
      PartCIsKeys(field);
      if field in FIELDS {
        KeysHaveNoCapital(field);
      }
    }
  }

  lemma {:induction false} UnmappedAreKeys(attr: string)
    ensures attr in UNMAPPED ==> IsKey(attr)
  {
  }

  lemma {:induction false} UnmappedAreLower(attr: string)
    requires attr in UNMAPPED
    ensures HasNoCapital(attr)
  {
    hide UNMAPPED, IsKey;
    UnmappedAreKeys(attr);
    KeysHaveNoCapital(attr);
  }

  lemma {:induction false} FieldsAreKinds(field: string)
    ensures field in FIELDS ==> KindOf(field) == KindAs(FIELDS[field]) && field != "n_retries"
    ensures field in UNMAPPED ==> KindOf(field) == IgnoredKind
  {
  }

  lemma {:induction false} KindsAreFields(key: string)
    ensures KindOf(key).IgnoredKind? ==> key in UNMAPPED
    ensures !KindOf(key).IgnoredKind? && !KindOf(key).UnknownKind? ==> FieldOf(key) in FIELDS
  {
  }

  lemma {:induction false} RetriesAreRetrys()
    ensures KindOf("n_retries") == KindOf("n_retrys") && KindOf("n_retrys").NumberKind? && "n_retrys" in FIELDS
  {
  }

  /** A key stands for the field of its lower-case form, if that is one. */
  lemma {:induction false} KeysAreFields(key: string, field: string)
    requires field in FIELDS
    ensures IsKeyOf(key, field) <==> FieldOf(Lower(key)) == field
    ensures IsKeyOf(key, field) ==> KindOf(Lower(key)) == KindAs(FIELDS[field])
  {
    hide FIELDS, KindOf, Spells, Lower, HasNoCapital;
    FieldsAreKeys(field);
    FieldsAreKeys("n_retries");
    SpellsLower(key, field);
    SpellsLower(key, "n_retries");
    FieldsAreKinds(field);
    RetriesAreRetrys();
  }

  // ----- Values -----

  lemma {:induction false} FlagsDenoted(raw: string, yes: bool)
    ensures ParseFlag(raw) == Some(yes) <==> Denotes(FlagField, raw, Flag(yes))
  {
    hide Trim, Lower, IsPadded, IsWhite;
    FlagNames();
    PaddedIsTrim(raw, {"y", "yes", "true", "1"});
    PaddedIsTrim(raw, {"n", "no", "false", "0"});
  }

  lemma {:induction false} FlagNames()
    ensures forall name :: name in {"y", "yes", "true", "1"} ==> IsTrim(name)
    ensures forall name :: name in {"n", "no", "false", "0"} ==> IsTrim(name)
  {
  }

  lemma {:induction false} NumbersDenoted(raw: string, low: int, high: int, n: int)
    ensures ParseNumber(raw, low, high) == Some(n) <==> Denotes(NumberField(low, high), raw, Number(n))
  {
    hide Decimal.Value;
  }

  lemma {:induction false} TypesDenoted(raw: string, jobType: JobType)
    ensures ParseJobType(raw) == Some(jobType) <==> Denotes(TypeField, raw, Type(jobType))
  {
    hide Lower, SpellsOneOf;
    TypeNames();
    SpellsOneLower(raw, {"c", "cmd", "command"});
    SpellsOneLower(raw, {"box"});
    SpellsOneLower(raw, {"fw", "file_watcher"});
  }

  lemma {:induction false} TypeNames()
    ensures forall name :: name in {"c", "cmd", "command"} ==> HasNoCapital(name)
    ensures forall name :: name in {"box"} ==> HasNoCapital(name)
    ensures forall name :: name in {"fw", "file_watcher"} ==> HasNoCapital(name)
  {
  }

  // ----- Whole attributes -----

  /** The field of a key, if it has one at all. */
  lemma {:induction false} FieldIsTheOne(key: string, field: string)
    requires field in FIELDS && IsKeyOf(key, field)
    ensures forall other :: other in FIELDS && IsKeyOf(key, other) ==> other == field
  {
    hide FIELDS, KindOf, Spells, Lower, IsKeyOf;
    KeysAreFields(key, field);
    forall other | other in FIELDS && IsKeyOf(key, other)
      ensures other == field
    {
      KeysAreFields(key, other);
    }
  }

  lemma {:induction false} KnownKeys(key: string)
    ensures var k := KindOf(Lower(key));
            if k.IgnoredKind? then Lower(key) in UNMAPPED && !HasField(ForInsert(""), key)
            else if k.UnknownKind? then Lower(key) !in UNMAPPED && !HasField(ForInsert(""), key)
            else var f := FieldOf(Lower(key)); f in FIELDS && IsKeyOf(key, f) && k == KindAs(FIELDS[f])
  {
    hide FIELDS, KindOf, Spells, Lower, IsKeyOf, FieldOf, UNMAPPED;
    var low := Lower(key);
    KindsAreFields(low);
    FieldsAreKinds(low);
    if KindOf(low).IgnoredKind? || KindOf(low).UnknownKind? {
      forall field | field in FIELDS
        ensures !IsKeyOf(key, field)
      {
        KeysAreFields(key, field);
      }
    } else {
      KeysAreFields(key, FieldOf(low));
    }
  }

  lemma {:induction false} SpellsItsLower(word: string)
    ensures HasNoCapital(Lower(word)) && Spells(word, Lower(word))
    ensures forall name :: HasNoCapital(name) && Spells(word, name) ==> name == Lower(word)
  {
    forall name | HasNoCapital(name) && Spells(word, name)
      ensures name == Lower(word)
    {
      SpellsLower(word, name);
    }
    SpellsLower(word, Lower(word));
  }

  /** Legible exactly if the parser finds a value, and then it stands for that one only. */
  lemma {:induction false} ValueIsTheOne(kind: FieldKind, raw: string, value: Value)
    requires !kind.TextField? && Denotes(kind, raw, value)
    ensures match kind
            case FlagField => ParseFlag(raw).Some? && value == Flag(ParseFlag(raw).value)
            case NumberField(low, high) =>
              ParseNumber(raw, low, high).Some? && value == Number(ParseNumber(raw, low, high).value)
            case TypeField => ParseJobType(raw).Some? && value == Type(ParseJobType(raw).value)
            case TextField => true
  {
    hide ParseFlag, ParseNumber, ParseJobType;
    match kind
    case FlagField => FlagsDenoted(raw, value.yes);
    case NumberField(low, high) => NumbersDenoted(raw, low, high, value.n);
    case TypeField => TypesDenoted(raw, value.jobType);
    case TextField =>
  }

  lemma {:induction false} IllegibleExactly(kind: FieldKind, raw: string)
    ensures IsIllegible(kind, raw) <==>
              match kind
              case FlagField => ParseFlag(raw).None?
              case NumberField(low, high) => ParseNumber(raw, low, high).None?
              case TypeField => ParseJobType(raw).None?
              case TextField => false
  {
    hide ParseFlag, ParseNumber, ParseJobType, IsPadded, IsNumeral;
    if !kind.TextField? {
      forall value | Denotes(kind, raw, value)
        ensures !IsIllegible(kind, raw)
        ensures match kind
                case FlagField => ParseFlag(raw).Some?
                case NumberField(low, high) => ParseNumber(raw, low, high).Some?
                case TypeField => ParseJobType(raw).Some?
                case TextField => true
      {
        ValueIsTheOne(kind, raw, value);
      }
      SomeValue(kind, raw);
    } else {
      assert Denotes(kind, raw, Text(raw));
    }
  }

  lemma {:induction false} SomeValue(kind: FieldKind, raw: string)
    ensures match kind
            case FlagField => ParseFlag(raw).Some? ==> Denotes(kind, raw, Flag(ParseFlag(raw).value))
            case NumberField(low, high) =>
              ParseNumber(raw, low, high).Some? ==> Denotes(kind, raw, Number(ParseNumber(raw, low, high).value))
            case TypeField => ParseJobType(raw).Some? ==> Denotes(kind, raw, Type(ParseJobType(raw).value))
            case TextField => true
  {
    hide ParseFlag, ParseNumber, ParseJobType, Denotes;
    match kind
    case FlagField => if ParseFlag(raw).Some? { FlagsDenoted(raw, ParseFlag(raw).value); }
    case NumberField(low, high) =>
      if ParseNumber(raw, low, high).Some? {
        NumbersDenoted(raw, low, high, ParseNumber(raw, low, high).value);
      }
    case TypeField => if ParseJobType(raw).Some? { TypesDenoted(raw, ParseJobType(raw).value); }
    case TextField =>
  }

  lemma {:induction false} TheFieldIsRead(use: Use, key: string, raw: string, field: string)
    requires IsFieldOf(use, key, field)
    ensures KindOf(Lower(key)) == KindAs(FIELDS[field]) && FieldOf(Lower(key)) == field
    ensures !FIELDS[field].NumberField? ==> Lower(key) == field
    ensures field == "job_type" <==> FIELDS[field].TypeField?
  {
    KeysAreFields(key, field);
    RetriesAreRetrys();
    JobTypeIsTheType(field);
    hide FIELDS, KindOf, Lower, IsKeyOf;
  }

  lemma {:induction false} JobTypeIsTheType(field: string)
    ensures field in FIELDS ==> (field == "job_type" <==> FIELDS[field].TypeField?)
    ensures KindOf("job_type") == TypeKind && "job_type" in FIELDS
  {
  }

  lemma {:induction false} ReadsField(use: Use, key: string, raw: string, field: string)
    requires IsFieldOf(use, key, field)
    ensures forall value :: Denotes(FIELDS[field], raw, value) ==> Read(use, (Lower(key), raw)) == Sets(field, value)
    ensures IsIllegible(FIELDS[field], raw) ==>
              Read(use, (Lower(key), raw))
              == if use.ForUpdate? then Drops
                 else if FIELDS[field].TypeField? then Refuses(UnknownJobType(Lower(raw), use.job))
                 else Refuses(BadValue(Lower(key), if FIELDS[field].FlagField? then Trim(Lower(raw)) else raw))
  {
    TheFieldIsRead(use, key, raw, field);
    IllegibleExactly(FIELDS[field], raw);
    hide FIELDS, KindOf, Lower, IsKeyOf, ParseFlag, ParseNumber, ParseJobType, Denotes, IsIllegible, Trim;
    forall value | Denotes(FIELDS[field], raw, value)
      ensures Read(use, (Lower(key), raw)) == Sets(field, value)
    {
      if FIELDS[field].TextField? {
        TextIsItself(raw, value);
      } else {
        ValueIsTheOne(FIELDS[field], raw, value);
      }
    }
  }

  lemma {:induction false} TextIsItself(raw: string, value: Value)
    requires Denotes(TextField, raw, value)
    ensures value == Text(raw)
  {
  }

  lemma {:induction false} ReadsNoField(use: Use, key: string, raw: string)
    requires !HasField(use, key)
    ensures Read(use, (Lower(key), raw))
         == if use.ForInsert? && Lower(key) in UNMAPPED then Warns(NotMapped(Lower(key), raw))
            else Warns(UnknownAttr(Lower(key)))
  {
    KnownKeys(key);
    JobTypeIsTheType(FieldOf(Lower(key)));
    hide FIELDS, KindOf, Lower, IsKeyOf, UNMAPPED, ParseFlag, ParseNumber, ParseJobType;
    var k := KindOf(Lower(key));
    if !k.IgnoredKind? && !k.UnknownKind? {
      assert !IsFieldOf(use, key, FieldOf(Lower(key)));
    }
  }

  lemma {:induction false} FlagTextIsTrim(raw: string, text: string)
    ensures IsPadded(raw, {text}) && IsTrim(text) ==> text == Trim(Lower(raw))
    ensures IsPadded(raw, {Trim(Lower(raw))}) && IsTrim(Trim(Lower(raw)))
  {
    hide IsPadded, IsWhite;
    var t := Trim(Lower(raw));
    var a, b := TrimCuts(Lower(raw));
    assert IsTrim(t);
    hide IsTrim, Trim, Lower;
    PaddedIsTrim(raw, {t});
    if IsTrim(text) {
      PaddedIsTrim(raw, {text});
    }
  }

  /**
   * An attribute is read as it is written: as one field set to the one value
   * it denotes, as an error or nothing where it denotes none, and as a warning
   * where there is no such field.
   */
  lemma {:induction false} ReadExactly(use: Use, key: string, raw: string, r: Reading)
    ensures Read(use, (Lower(key), raw)) == r <==> IsReading(use, key, raw, r)
  {
    hide FIELDS, KindOf, Lower, IsKeyOf, UNMAPPED, Denotes, Read, IsFieldOf, Trim, Spells, HasNoCapital, IsTrim,
         IsPadded;
    SpellsItsLower(key);
    if field :| IsFieldOf(use, key, field) {
      FieldReadExactly(use, key, raw, r, field);
    } else {
      ReadsNoField(use, key, raw);
      NoFieldReadExactly(use, key, raw, r);
    }
  }

  lemma {:induction false} NoFieldReadExactly(use: Use, key: string, raw: string, r: Reading)
    requires !HasField(use, key)
    ensures IsReading(use, key, raw, r)
       <==> r == (if use.ForInsert? && Lower(key) in UNMAPPED then Warns(NotMapped(Lower(key), raw))
                  else Warns(UnknownAttr(Lower(key))))
  {
    hide FIELDS, Lower, IsKeyOf, UNMAPPED, Denotes, Spells, HasNoCapital, IsTrim, IsPadded;
    SpellsItsLower(key);
    JobTypeIsTheType("job_type");
    forall attr | attr in UNMAPPED
      ensures HasNoCapital(attr)
    {
      UnmappedAreLower(attr);
    }
    assert use.ForInsert? && IsKeyOf(key, "job_type") ==> IsFieldOf(use, key, "job_type");
  }

  lemma {:induction false} FieldReadExactly(use: Use, key: string, raw: string, r: Reading, field: string)
    requires IsFieldOf(use, key, field)
    ensures Read(use, (Lower(key), raw)) == r <==> IsReading(use, key, raw, r)
  {
    ReadsField(use, key, raw, field);
    TheFieldIsRead(use, key, raw, field);
    SpellsItsLower(key);
    SpellsItsLower(raw);
    FieldIsTheOne(key, field);
    hide FIELDS, KindOf, Lower, IsKeyOf, Denotes, Read, Trim, Spells, HasNoCapital, IsTrim, IsPadded, IsIllegible;
    assert forall other :: IsFieldOf(use, key, other) ==> other == field;
    FieldIsNotUnmapped(key, field);
    if !IsIllegible(FIELDS[field], raw) {
      LegibleReadExactly(use, key, raw, r, field);
    } else {
      NothingLegible(FIELDS[field], raw);
      IllegibleReadExactly(use, key, raw, r, field);
    }
  }

  lemma {:induction false} LegibleReadExactly(use: Use, key: string, raw: string, r: Reading, field: string)
    requires IsFieldOf(use, key, field) && (forall other :: IsFieldOf(use, key, other) ==> other == field)
    requires !IsIllegible(FIELDS[field], raw)
    requires forall value :: Denotes(FIELDS[field], raw, value) ==> Read(use, (Lower(key), raw)) == Sets(field, value)
    requires field == "job_type" <==> FIELDS[field].TypeField?
    requires forall attr :: attr in UNMAPPED ==> !Spells(key, attr)
    ensures Read(use, (Lower(key), raw)) == r <==> IsReading(use, key, raw, r)
  {
    JobTypeIsTheType("job_type");
    hide FIELDS, KindOf, Lower, IsKeyOf, Denotes, Read, Spells, HasNoCapital, IsTrim, IsPadded, IsIllegible, UNMAPPED;
    LegibleMeans(FIELDS[field], raw);
    var value :| Denotes(FIELDS[field], raw, value);
    assert HasField(use, key);
    assert use.ForInsert? && IsKeyOf(key, "job_type") ==> IsFieldOf(use, key, "job_type");
  }

  lemma {:induction false} IllegibleReadExactly(use: Use, key: string, raw: string, r: Reading, field: string)
    requires IsFieldOf(use, key, field) && (forall other :: IsFieldOf(use, key, other) ==> other == field)
    requires IsIllegible(FIELDS[field], raw) && (forall value :: !Denotes(FIELDS[field], raw, value))
    requires field == "job_type" <==> FIELDS[field].TypeField?
    requires forall attr :: attr in UNMAPPED ==> !Spells(key, attr)
    ensures IsReading(use, key, raw, r) <==>
              r == if use.ForUpdate? then Drops
                   else if FIELDS[field].TypeField? then Refuses(UnknownJobType(Lower(raw), use.job))
                   else Refuses(BadValue(Lower(key), if FIELDS[field].FlagField? then Trim(Lower(raw)) else raw))
  {
    SpellsItsLower(key);
    SpellsItsLower(raw);
    JobTypeIsTheType("job_type");
    hide FIELDS, KindOf, Lower, IsKeyOf, Denotes, Trim, Spells, HasNoCapital, IsTrim, IsPadded, IsIllegible, UNMAPPED;
    assert HasField(use, key);
    if r.Refuses? && r.error.BadValue? {
      FlagTextIsTrim(raw, r.error.value);
    } else if r.Refuses? && r.error.UnknownJobType? {
      assert use.ForInsert? && IsKeyOf(key, "job_type") ==> IsFieldOf(use, key, "job_type");
    }
  }

  lemma {:induction false} LegibleMeans(kind: FieldKind, raw: string)
    requires !IsIllegible(kind, raw)
    ensures exists value :: Denotes(kind, raw, value)
  {
  }

  lemma {:induction false} NothingLegible(kind: FieldKind, raw: string)
    requires IsIllegible(kind, raw)
    ensures forall value :: !Denotes(kind, raw, value)
  {
  }

  lemma {:induction false} FieldIsNotUnmapped(key: string, field: string)
    requires field in FIELDS && IsKeyOf(key, field)
    ensures forall attr :: attr in UNMAPPED ==> !Spells(key, attr)
  {
    hide FIELDS, KindOf, Lower, IsKeyOf, UNMAPPED, Spells, HasNoCapital;
    KeysAreFields(key, field);
    forall attr | attr in UNMAPPED
      ensures !Spells(key, attr)
    {
      UnmappedAreLower(attr);
      SpellsLower(key, attr);
      FieldsAreKinds(attr);
    }
  }
}
