/** White space, and taking it off the ends of a text. */
module Whitespace {
  import opened Ascii

  /** The Unicode white space characters. */
  predicate IsWhite(c: char) {
    || '\U{0009}' <= c <= '\U{000D}' || c == ' ' || c == '\U{0085}' || c == '\U{00A0}' || c == '\U{1680}'
    || '\U{2000}' <= c <= '\U{200A}' || c == '\U{2028}' || c == '\U{2029}' || c == '\U{202F}'
    || c == '\U{205F}' || c == '\U{3000}'
  }

  // The characters with the property White_Space, one by one.
  const WHITE_SPACE := {
    '\U{0009}', '\U{000A}', '\U{000B}', '\U{000C}', '\U{000D}', '\U{0020}', '\U{0085}', '\U{00A0}', '\U{1680}',
    '\U{2000}', '\U{2001}', '\U{2002}', '\U{2003}', '\U{2004}', '\U{2005}', '\U{2006}', '\U{2007}', '\U{2008}',
    '\U{2009}', '\U{200A}', '\U{2028}', '\U{2029}', '\U{202F}', '\U{205F}', '\U{3000}'}

  lemma {:induction false} WhiteSpaceIsListed(c: char)
    ensures IsWhite(c) <==> c in WHITE_SPACE
  {
  }

  function TrimStart(s: string): string {
    if s != "" && IsWhite(s[0]) then TrimStart(s[1..]) else s
  }

  function TrimEnd(s: string): string {
    if s != "" && IsWhite(s[|s| - 1]) then TrimEnd(s[..|s| - 1]) else s
  }

  function Trim(s: string): string {
    TrimStart(TrimEnd(s))
  }

  predicate IsBlank(s: string) {
    forall i :: 0 <= i < |s| ==> IsWhite(s[i])
  }

  /** One of the names in any letter case, with white space around it. */
  predicate IsPadded(s: string, names: set<string>) {
    exists a, b :: 0 <= a <= b <= |s| && IsBlank(s[..a]) && IsBlank(s[b..]) && SpellsOneOf(s[a..b], names)
  }

  /** Nothing to trim, and no capital letters. */
  predicate IsTrim(s: string) {
    HasNoCapital(s) && (s != "" ==> !IsWhite(s[0]) && !IsWhite(s[|s| - 1]))
  }

  // ----- Trimming -----

  lemma {:induction false} TrimEndCuts(s: string) returns (b: nat)
    ensures b <= |s| && TrimEnd(s) == s[..b] && IsBlank(s[b..]) && (b > 0 ==> !IsWhite(s[b - 1]))
  {
    if s != "" && IsWhite(s[|s| - 1]) {
      b := TrimEndCuts(s[..|s| - 1]);
      assert s[..|s| - 1][..b] == s[..b];
      assert s[b..] == s[..|s| - 1][b..] + [s[|s| - 1]];
    } else {
      b := |s|;
      assert s[..b] == s;
    }
  }

  lemma {:induction false} TrimStartCuts(s: string) returns (a: nat)
    ensures a <= |s| && TrimStart(s) == s[a..] && IsBlank(s[..a]) && (a < |s| ==> !IsWhite(s[a]))
  {
    if s != "" && IsWhite(s[0]) {
      a := TrimStartCuts(s[1..]);
      assert s[1..][a..] == s[a + 1..];
      assert s[..a + 1] == [s[0]] + s[1..][..a];
      a := a + 1;
    } else {
      a := 0;
    }
  }

  /** What is cut off is white, and what is left is not, at either end. */
  lemma {:induction false} TrimCuts(s: string) returns (a: nat, b: nat)
    ensures a <= b <= |s| && Trim(s) == s[a..b] && IsBlank(s[..a]) && IsBlank(s[b..])
    ensures a < b ==> !IsWhite(s[a]) && !IsWhite(s[b - 1])
  {
    hide IsWhite, TrimEnd, TrimStart;
    b := TrimEndCuts(s);
    a := TrimStartCuts(s[..b]);
    assert s[..b][..a] == s[..a] && s[..b][a..] == s[a..b];
    if a < b {
      assert s[..b][a] == s[a];
    }
  }

  predicate IsTrimmed(s: string) {
    s != "" ==> !IsWhite(s[0]) && !IsWhite(s[|s| - 1])
  }

  lemma {:induction false} BlankEnds(s: string, a: nat, b: nat)
    requires a <= b <= |s| && IsBlank(s[..a]) && IsBlank(s[b..])
    ensures forall i :: 0 <= i < |s| && (i < a || b <= i) ==> IsWhite(s[i])
  {
    hide IsWhite;
    forall i | 0 <= i < |s| && (i < a || b <= i)
      ensures IsWhite(s[i])
    {
      assert if i < a then s[..a][i] == s[i] else s[b..][i - b] == s[i];
    }
  }

  lemma {:induction false} TrimOfPadded(s: string, a: nat, b: nat)
    requires a <= b <= |s| && IsBlank(s[..a]) && IsBlank(s[b..]) && IsTrimmed(s[a..b])
    ensures Trim(s) == s[a..b]
  {
    hide IsWhite, Trim, IsBlank;
    var a', b' := TrimCuts(s);
    BlankEnds(s, a, b);
    BlankEnds(s, a', b');
    var core := s[a..b];
    if core != "" {
      assert core[0] == s[a] && core[|core| - 1] == s[b - 1];
      assert a == a' && b == b';
    }
  }

  lemma {:induction false} LowerSlice(s: string, a: nat, b: nat)
    requires a <= b <= |s|
    ensures Lower(s)[a..b] == Lower(s[a..b])
  {
  }

  lemma {:induction false} LowerKeepsWhite(s: string)
    ensures forall i :: 0 <= i < |s| ==> IsWhite(Lower(s)[i]) == IsWhite(s[i])
  {
  }

  lemma {:induction false} PaddedIsTrim(raw: string, names: set<string>)
    requires forall name :: name in names ==> IsTrim(name)
    ensures IsPadded(raw, names) <==> Trim(Lower(raw)) in names
  {
    hide Lower, Trim, IsTrim, IsPadded;
    TrimsAreTrimmed(names);
    if IsPadded(raw, names) {
      PaddedIsTrimmed(raw, names);
    }
    if Trim(Lower(raw)) in names {
      TrimmedIsPadded(raw, names);
    }
  }

  lemma {:induction false} PaddedIsTrimmed(raw: string, names: set<string>)
    requires forall name :: name in names ==> HasNoCapital(name) && IsTrimmed(name)
    requires IsPadded(raw, names)
    ensures Trim(Lower(raw)) in names
  {
    hide IsWhite, Lower, Trim, SpellsOneOf;
    var low := Lower(raw);
    LowerKeepsWhite(raw);
    var a: nat, b: nat :| a <= b <= |raw| && IsBlank(raw[..a]) && IsBlank(raw[b..]) && SpellsOneOf(raw[a..b], names);
    SpellsOneLower(raw[a..b], names);
    LowerSlice(raw, a, b);
    assert IsBlank(low[..a]) && IsBlank(low[b..]);
    TrimOfPadded(low, a, b);
  }

  lemma {:induction false} TrimmedIsPadded(raw: string, names: set<string>)
    requires forall name :: name in names ==> HasNoCapital(name) && IsTrimmed(name)
    requires Trim(Lower(raw)) in names
    ensures IsPadded(raw, names)
  {
    hide IsWhite, Lower, Trim, SpellsOneOf;
    var low := Lower(raw);
    LowerKeepsWhite(raw);
    var a, b := TrimCuts(low);
    LowerSlice(raw, a, b);
    SpellsOneLower(raw[a..b], names);
    BlankEnds(low, a, b);
  }

  lemma {:induction false} TrimsAreTrimmed(names: set<string>)
    requires forall name :: name in names ==> IsTrim(name)
    ensures forall name :: name in names ==> HasNoCapital(name) && IsTrimmed(name)
  {
  }

  lemma {:induction false} LowerTrims(s: string)
    ensures Lower(Trim(s)) == Trim(Lower(s))
  {
    hide IsWhite, Lower, Trim, IsBlank;
    var low := Lower(s);
    LowerKeepsWhite(s);
    var a, b := TrimCuts(s);
    BlankEnds(s, a, b);
    LowerSlice(s, a, b);
    WhiteEndsAreBlank(low, a, b);
    TrimOfPadded(low, a, b);
  }

  lemma {:induction false} WhiteEndsAreBlank(s: string, a: nat, b: nat)
    requires a <= b <= |s| && forall i :: 0 <= i < |s| && (i < a || b <= i) ==> IsWhite(s[i])
    ensures IsBlank(s[..a]) && IsBlank(s[b..])
  {
    hide IsWhite;
    assert forall i :: 0 <= i < a ==> s[..a][i] == s[i];
    assert forall i :: 0 <= i < |s| - b ==> s[b..][i] == s[b + i];
  }
}
