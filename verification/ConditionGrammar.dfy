/**
 * The condition language as a grammar that knows nothing of the parser: a
 * concrete syntax tree keeps every space, spelling and numeral of a text.
 * `Text` functions write a tree out; `Meaning` functions say what it stands for.
 */
module ConditionGrammar {
  import opened Ascii
  import opened Core
  import opened Condition
  import Decimal

  // The largest numerals that the parser can hold.
  const MAX_HOURS := 18446744073709551615
  const MAX_OPERAND := 2147483647

  // The spellings of the functions; those behind a count or an exit code come with a comparison.
  const NAMES := {
    "success", "s", "failure", "f", "done", "d", "running", "r", "notrunning", "n",
    "exitcode", "numrun", "numsuc", "numfail", "value"}
  const WITH_LOOK_BACK := {"success", "s", "failure", "f", "done", "d", "numrun", "numsuc", "numfail"}
  const COMPARED := {"exitcode", "numrun", "numsuc", "numfail"}

  const OPERATORS := map["=" := Eq, "!=" := Ne, "<" := Lt, "<=" := Le, ">" := Gt, ">=" := Ge]

  /** Nothing, or `, HH.MM` before the closing parenthesis. */
  datatype LbText = NoLb | LbText(gap: string, hours: string, minutes: string, gap': string)

  /** Nothing, or `<op> N` after it. */
  datatype CmpText = NoCmp | CmpText(gap: string, op: string, gap': string, negative: bool, digits: string)

  datatype CallText = CallText(
    func: string, gap: string, gap': string, name: string, gap'': string, lb: LbText, cmp: CmpText)

  /** Every unit and keyword carries the space in front of it. */
  datatype Atom = Call(call: CallText) | Paren(body: OrText, gap: string)
  datatype Unit = Plain(gap: string, atom: Atom) | Negated(gap: string, kw: string, inner: Unit)
  datatype AndText = AndText(first: Unit, rest: AndRest)
  datatype AndRest = AndEnd | AndMore(gap: string, kw: string, unit: Unit, rest: AndRest)
  datatype OrText = OrText(first: AndText, rest: OrRest)
  datatype OrRest = OrEnd | OrMore(gap: string, kw: string, term: AndText, rest: OrRest)

  // ----- Text -----

  function ClockText(hours: string, minutes: string): string {
    hours + ("." + minutes)
  }

  function LbOf(lb: LbText): string {
    match lb
    case NoLb => ""
    case LbText(g, h, m, g') => "," + (g + (ClockText(h, m) + g'))
  }

  function IntText(negative: bool, digits: string): string {
    (if negative then "-" else "") + digits
  }

  function CmpOf(cmp: CmpText): string {
    match cmp
    case NoCmp => ""
    case CmpText(g, op, g', negative, digits) => g + (op + (g' + IntText(negative, digits)))
  }

  function ArgText(c: CallText): string {
    c.gap' + (c.name + (c.gap'' + (LbOf(c.lb) + ")")))
  }

  function CallOf(c: CallText): string {
    c.func + (c.gap + ("(" + (ArgText(c) + CmpOf(c.cmp))))
  }

  function AtomOf(a: Atom): string {
    match a
    case Call(c) => CallOf(c)
    case Paren(body, g) => "(" + (OrOf(body) + (g + ")"))
  }

  function UnitOf(u: Unit): string {
    match u
    case Plain(g, a) => g + AtomOf(a)
    case Negated(g, kw, inner) => g + (kw + UnitOf(inner))
  }

  function AndOf(a: AndText): string {
    UnitOf(a.first) + AndRestOf(a.rest)
  }

  function AndRestOf(r: AndRest): string {
    match r
    case AndEnd => ""
    case AndMore(g, kw, u, rest) => g + (kw + (UnitOf(u) + AndRestOf(rest)))
  }

  function OrOf(o: OrText): string {
    AndOf(o.first) + OrRestOf(o.rest)
  }

  function OrRestOf(r: OrRest): string {
    match r
    case OrEnd => ""
    case OrMore(g, kw, t, rest) => g + (kw + (AndOf(t) + OrRestOf(rest)))
  }

  // ----- Well-formedness -----

  predicate IsGap(s: string) {
    forall i :: 0 <= i < |s| ==> s[i] in {' ', '\t', '\n', '\r', '\U{000C}'}
  }

  predicate IsWord(s: string) {
    && s != ""
    && forall i :: 0 <= i < |s| ==>
         'a' <= s[i] <= 'z' || 'A' <= s[i] <= 'Z' || '0' <= s[i] <= '9' || s[i] in {'_', '-', '.'}
  }

  predicate IsNumeral(s: string, limit: nat) {
    s != "" && Decimal.AllDigits(s) && Decimal.Value(s) <= limit
  }

  predicate IsLb(lb: LbText) {
    lb.LbText? ==> IsGap(lb.gap) && IsGap(lb.gap') && IsNumeral(lb.hours, MAX_HOURS) && IsNumeral(lb.minutes, 59)
  }

  predicate IsCmp(cmp: CmpText) {
    cmp.CmpText? ==>
      && IsGap(cmp.gap) && IsGap(cmp.gap') && cmp.op in OPERATORS
      && cmp.digits != "" && Decimal.AllDigits(cmp.digits)
  }

  /** The numeral is one the parser can hold. */
  predicate Fits(cmp: CmpText) {
    cmp.CmpText? && Decimal.AllDigits(cmp.digits) ==> Decimal.Value(cmp.digits) <= MAX_OPERAND
  }

  predicate IsCallShape(c: CallText) {
    && SpellsOneOf(c.func, NAMES)
    && IsGap(c.gap) && IsGap(c.gap') && IsGap(c.gap'') && IsWord(c.name)
    && IsLb(c.lb) && IsCmp(c.cmp)
    && (c.lb.LbText? ==> SpellsOneOf(c.func, WITH_LOOK_BACK))
    && (c.cmp.CmpText? <==> SpellsOneOf(c.func, COMPARED))
  }

  predicate IsCall(c: CallText) {
    IsCallShape(c) && Fits(c.cmp)
  }

  predicate IsAtom(a: Atom) {
    match a
    case Call(c) => IsCall(c)
    case Paren(body, g) => IsOr(body) && IsGap(g)
  }

  /** A keyword is kept apart from a word that follows it. */
  predicate Separated(u: Unit) {
    u.gap != "" || (u.Plain? && u.atom.Paren?)
  }

  /** The `not` keyword cannot stand before a parenthesis. */
  predicate IsUnit(u: Unit) {
    match u
    case Plain(g, a) => IsGap(g) && IsAtom(a)
    case Negated(g, kw, inner) =>
      IsGap(g) && Spells(kw, "not") && IsUnit(inner) && inner.gap != "" && !(inner.Plain? && inner.atom.Paren?)
  }

  predicate IsAnd(a: AndText) {
    IsUnit(a.first) && IsAndRest(a.rest)
  }

  predicate IsAndRest(r: AndRest) {
    match r
    case AndEnd => true
    case AndMore(g, kw, u, rest) => IsGap(g) && Spells(kw, "and") && IsUnit(u) && Separated(u) && IsAndRest(rest)
  }

  predicate IsOr(o: OrText) {
    IsAnd(o.first) && IsOrRest(o.rest)
  }

  predicate IsOrRest(r: OrRest) {
    match r
    case OrEnd => true
    case OrMore(g, kw, t, rest) => IsGap(g) && Spells(kw, "or") && IsAnd(t) && Separated(t.first) && IsOrRest(rest)
  }

  // ----- Meaning -----

  function LbMeaning(lb: LbText): LookBack
    requires IsLb(lb)
  {
    match lb
    case NoLb => None
    case LbText(_, h, m, _) => Some(Decimal.Value(h) * 3600 + Decimal.Value(m) * 60)
  }

  function IntMeaning(negative: bool, digits: string): int
    requires Decimal.AllDigits(digits)
  {
    if negative then -(Decimal.Value(digits) as int) else Decimal.Value(digits)
  }

  function CallMeaning(c: CallText): Expr
    requires IsCall(c)
  {
    var (job, lb, f) := (c.name, LbMeaning(c.lb), c.func);
    if c.cmp.CmpText? then
      var (op, n) := (OPERATORS[c.cmp.op], IntMeaning(c.cmp.negative, c.cmp.digits));
      if Spells(f, "exitcode") then ExitCode(job, op, n)
      else if Spells(f, "numrun") then NumRun(job, op, n, lb)
      else if Spells(f, "numsuc") then NumSuc(job, op, n, lb)
      else NumFail(job, op, n, lb)
    else if SpellsOneOf(f, {"success", "s"}) then Expr.Success(job, lb)
    else if SpellsOneOf(f, {"failure", "f"}) then Failure(job, lb)
    else if SpellsOneOf(f, {"done", "d"}) then Done(job, lb)
    else if SpellsOneOf(f, {"running", "r"}) then Expr.Running(job)
    else if SpellsOneOf(f, {"notrunning", "n"}) then NotRunning(job)
    else Value(job)
  }

  function AtomMeaning(a: Atom): Expr
    requires IsAtom(a)
  {
    match a
    case Call(c) => CallMeaning(c)
    case Paren(body, _) => OrMeaning(body)
  }

  function UnitMeaning(u: Unit): Expr
    requires IsUnit(u)
  {
    match u
    case Plain(_, a) => AtomMeaning(a)
    case Negated(_, _, inner) => Not(UnitMeaning(inner))
  }

  /** `and` associates to the left. */
  function AndMeaning(a: AndText): Expr
    requires IsAnd(a)
  {
    AndFold(UnitMeaning(a.first), a.rest)
  }

  function AndFold(left: Expr, r: AndRest): Expr
    requires IsAndRest(r)
    decreases r
  {
    match r
    case AndEnd => left
    case AndMore(_, _, u, rest) => AndFold(And(left, UnitMeaning(u)), rest)
  }

  /** `or` binds looser than `and`, and associates to the left. */
  function OrMeaning(o: OrText): Expr
    requires IsOr(o)
  {
    OrFold(AndMeaning(o.first), o.rest)
  }

  function OrFold(left: Expr, r: OrRest): Expr
    requires IsOrRest(r)
    decreases r
  {
    match r
    case OrEnd => left
    case OrMore(_, _, t, rest) => OrFold(Or(left, AndMeaning(t)), rest)
  }

  /** `s` is a tree written out, followed by space. */
  ghost predicate Derives(s: string, o: OrText) {
    IsOr(o) && exists g :: IsGap(g) && s == OrOf(o) + g
  }
}
