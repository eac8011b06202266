/** Two JIL texts that do not give the blocks of both. */
module JilWitness {
  import opened Ascii
  import opened Core
  import opened JilBlocks
  import opened JilJoins
  import opened JilSpecs
  import opened JilText
  import opened Whitespace

  /** One line that opens an update. */
  lemma {:induction false} LoneUpdate(line: string, rest: string)
    requires line != "" && CommentFree(line) && Lines(line) == [line] && HeadOf(line) == UpdateHead(rest)
    ensures Parse(line).Ok? && OpenOf(line) == UpdateOpen(SplitName(rest).0, BlockAttrs(rest, Gathered([], [])))
  {
    CommentFreeIsKept(line);
    hide HeadOf, BlockAttrs, SplitName, BuildPartialSpec, Strip, Lines;
    assert [line][1..] == [] && Gather([]) == Gathered([], []);
    assert ParseLines([], 1) == Ok([]);
    assert ParseLines([line], 0).Ok?;
  }

  /** One attribute line. */
  lemma {:induction false} LoneAttribute(line: string)
    requires line != "" && CommentFree(line) && Lines(line) == [line] && HeadOf(line) == NoVerb && !IsVerbLine(line)
    ensures Parse(line).Ok? && LeadingOf(line) == LineAttr(line)
  {
    CommentFreeIsKept(line);
    hide HeadOf, IsVerbLine, LineAttr, Strip, Lines;
    assert [line][1..] == [] && Gather([]) == Gathered([], []);
    assert LineAttr(line) + [] == LineAttr(line);
    assert ParseLines([], 1) == Ok([]);
    assert ParseLines([line], 0) == Ok([]);
  }

  lemma {:induction false} TrimmedStays(s: string)
    requires s != "" && !IsWhite(s[0]) && !IsWhite(s[|s| - 1])
    ensures Trim(s) == s
  {
  }

  lemma {:induction false} LeadingSpace(s: string)
    requires s != "" && !IsWhite(s[0]) && !IsWhite(s[|s| - 1])
    ensures Trim(" " + s) == s
  {
    TrimmedStays(s);
    assert TrimEnd(" " + s) == " " + s && (" " + s)[1..] == s;
  }

  lemma {:induction false} LowerStays(s: string)
    requires forall i :: 0 <= i < |s| ==> LowerChar(s[i]) == s[i]
    ensures Lower(s) == s
  {
  }

  /** A line in itself, with its first colon at `k`. */
  lemma {:induction false} WholeLine(line: string, k: nat)
    requires line != "" && !IsWhite(line[0]) && !IsWhite(line[|line| - 1])
    requires k < |line| && line[k] == ':' && forall i :: 0 <= i < |line| ==> line[i] != '\n' && line[i] != '/'
    requires forall i :: 0 <= i < k ==> line[i] != ':'
    ensures CommentFree(line) && Lines(line) == [line] && Find(line, ':') == k
  {
    hide Find, Trim;
    TrimmedStays(line);
  }

  lemma {:induction false} UpdateLine()
    ensures var line := "update_job: x";
            line != "" && CommentFree(line) && Lines(line) == [line] && HeadOf(line) == UpdateHead("x")
  {
    hide Find, Lines, CommentFree, Trim, Lower;
    var line := "update_job: x";
    WholeLine(line, 10);
    TrimmedStays("update_job");
    LeadingSpace("x");
    LowerStays("update_job");
    assert line[..10] == "update_job" && line[11..] == " " + "x";
  }

  lemma {:induction false} NoMoreOnTheLine()
    ensures SplitName("x").0 == "x" && BlockAttrs("x", Gathered([], [])) == []
  {
    assert Trim("x") == "x" && Trim("") == "" && WordEnd("x", IsSpace) == 1;
    assert "x"[..1] == "x" && "x"[1..] == "";
    assert InlineAttrs(Words("")) == [];
  }

  lemma {:induction false} OwnerLine()
    ensures var line := "owner: y";
            && line != "" && CommentFree(line) && Lines(line) == [line]
            && HeadOf(line) == NoVerb && !IsVerbLine(line) && LineAttr(line) == [("owner", "y")]
  {
    var line := "owner: y";
    hide Find, Lines, CommentFree, Trim, Lower;
    WholeLine(line, 5);
    TrimmedStays("owner");
    TrimmedStays("y");
    LeadingSpace("y");
    LowerStays("owner");
    LowerStays(line);
    assert line[..5] == "owner" && line[6..] == " " + "y";
  }

  /** An update of `x` that names no owner gets one from the text behind it. */
  lemma {:induction false} OwnerMoves()
    ensures var (a, b) := ("update_job: x", "owner: y");
            Parse(a).Ok? && Parse(b).Ok? && Parse(a + ("\n" + b)) != Ok(Parse(a).value + Parse(b).value)
  {
    hide Parse, OpenOf, LeadingOf, SplitName, BlockAttrs, HeadOf, LineAttr, IsVerbLine, Lines, CommentFree;
    var (a, b) := ("update_job: x", "owner: y");
    UpdateLine();
    NoMoreOnTheLine();
    LoneUpdate(a, "x");
    OwnerLine();
    LoneAttribute(b);
    ConcatenatesExactly(a, b);
    var more := [("owner", "y")];
    assert Read(ForUpdate, more[0]) == Sets("owner", Text("y"));
    assert LastGiven(ForUpdate, more, "owner") == Some(Text("y"));
    assert BuildPartialSpec([]) == NO_ATTRIBUTES;
    assert !ChangeNothing(ForUpdate, NO_ATTRIBUTES, more);
  }
}
