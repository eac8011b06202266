/** Letter case and white space as both text formats treat them: those of ASCII. */
module Ascii {

  predicate IsSpace(c: char) {
    c == ' ' || c == '\t' || c == '\n' || c == '\r' || c == '\U{000C}'
  }

  function LowerChar(c: char): char {
    if 'A' <= c <= 'Z' then (c as int + 32) as char else c
  }

  function Lower(s: string): (t: string)
    ensures |t| == |s|
    ensures forall i :: 0 <= i < |s| ==> t[i] == LowerChar(s[i])
  {
    seq(|s|, i requires 0 <= i < |s| => LowerChar(s[i]))
  }

  /** The word is the name in any letter case. */
  predicate Spells(word: string, name: string) {
    && |word| == |name|
    && forall i :: 0 <= i < |name| ==>
         word[i] == name[i] || ('a' <= name[i] <= 'z' && word[i] as int == name[i] as int - 32)
  }

  predicate SpellsOneOf(word: string, names: set<string>) {
    exists name :: name in names && Spells(word, name)
  }

  predicate HasNoCapital(s: string) {
    forall i :: 0 <= i < |s| ==> !('A' <= s[i] <= 'Z')
  }

  lemma {:induction false} SpellsLower(word: string, name: string)
    requires HasNoCapital(name)
    ensures Spells(word, name) <==> Lower(word) == name
  {
    if Spells(word, name) {
      assert forall i :: 0 <= i < |name| ==> LowerChar(word[i]) == name[i];
    }
    if Lower(word) == name {
      assert forall i :: 0 <= i < |name| ==> LowerChar(word[i]) == name[i];
    }
  }

  lemma {:induction false} SpellsOneLower(word: string, names: set<string>)
    requires forall name :: name in names ==> HasNoCapital(name)
    ensures SpellsOneOf(word, names) <==> Lower(word) in names
  {
    hide Spells, HasNoCapital;
    forall name | name in names
      ensures Spells(word, name) <==> Lower(word) == name
    {
      SpellsLower(word, name);
    }
  }
}
