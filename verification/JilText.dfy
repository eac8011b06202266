/** JIL text: comment stripping, lines, trimming and splitting. */
module JilText {
  import opened Core
  import opened Whitespace

  // ----- Comments -----

  /** What follows the first `*` `/` pair. */
  function Close(s: string): (rest: Option<string>)
    ensures rest.Some? ==> |rest.value| + 2 <= |s|
  {
    if |s| < 2 then None
    else if s[0] == '*' && s[1] == '/' then Some(s[2..])
    else Close(s[1..])
  }

  predicate OpensComment(s: string) {
    |s| >= 2 && s[0] == '/' && s[1] == '*'
  }

  function Prepend(head: string, tail: Option<string>): Option<string> {
    if tail.None? then None else Some(head + tail.value)
  }

  /** Every comment becomes a newline; `None` when one is not closed. */
  function Strip(s: string): Option<string>
    decreases |s|
  {
    if s == "" then Some("")
    else if OpensComment(s) then
      match Close(s[2..])
      case None => None
      case Some(rest) => Prepend("\n", Strip(rest))
    else Prepend([s[0]], Strip(s[1..]))
  }

  method StripComments(input: string) returns (r: Option<string>)
    ensures r == Strip(input)
  {
    var out := "";
    var i := 0;
    assert input[0..] == input;
    assert forall t: string :: "" + t == t;
    while i < |input|
      invariant 0 <= i <= |input|
      invariant Strip(input) == Prepend(out, Strip(input[i..]))
    {
      var rest := input[i..];
      if i + 1 < |input| && input[i] == '/' && input[i + 1] == '*' {
        assert rest[2..] == input[i + 2..];
        var j := i + 2;
        while j + 1 < |input| && !(input[j] == '*' && input[j + 1] == '/')
          invariant i + 2 <= j <= |input|
          invariant Close(input[i + 2..]) == Close(input[j..])
        {
          assert input[j..][1..] == input[j + 1..];
          j := j + 1;
        }
        if j + 1 >= |input| {
          return None;
        }
        assert input[j..][2..] == input[j + 2..];
        PrependTwice(out, "\n", Strip(input[j + 2..]));
        out := out + "\n";
        i := j + 2;
      } else {
        assert rest[1..] == input[i + 1..];
        PrependTwice(out, [input[i]], Strip(input[i + 1..]));
        out := out + [input[i]];
        i := i + 1;
      }
    }
    assert input[i..] == "";
    assert out + "" == out;
    r := Some(out);
  }

  lemma PrependTwice(a: string, b: string, tail: Option<string>)
    ensures Prepend(a, Prepend(b, tail)) == Prepend(a + b, tail)
  {
    if tail.Some? {
      assert a + (b + tail.value) == a + b + tail.value;
    }
  }

  ghost predicate CommentFree(s: string) {
    forall i :: 0 <= i < |s| - 1 ==> !(s[i] == '/' && s[i + 1] == '*')
  }

  /** No comment opener survives, and none is made by joining what is left. */
  lemma {:induction false} StripLeavesNoComment(s: string)
    requires Strip(s).Some?
    ensures CommentFree(Strip(s).value)
    ensures Strip(s).value != "" && Strip(s).value[0] == '*' ==> s[0] == '*'
    decreases |s|
  {
    if s != "" {
      var rest := if OpensComment(s) then Close(s[2..]).value else s[1..];
      StripLeavesNoComment(rest);
    }
  }

  lemma {:induction false} CommentFreeIsKept(s: string)
    requires CommentFree(s)
    ensures Strip(s) == Some(s)
  {
    if s != "" {
      assert !OpensComment(s);
      forall i | 0 <= i < |s[1..]| - 1
        ensures !(s[1..][i] == '/' && s[1..][i + 1] == '*')
      {
        assert !(s[i + 1] == '/' && s[i + 1 + 1] == '*');
      }
      CommentFreeIsKept(s[1..]);
      assert [s[0]] + s[1..] == s;
    }
  }

  /** Stripping twice is stripping once. */
  lemma StripIsIdempotent(s: string)
    requires Strip(s).Some?
    ensures Strip(Strip(s).value) == Strip(s)
  {
    StripLeavesNoComment(s);
    CommentFreeIsKept(Strip(s).value);
  }

  // ----- Which text is stripped -----

  predicate ClosesNothing(s: string) {
    forall i :: 0 <= i < |s| - 1 ==> !(s[i] == '*' && s[i + 1] == '/')
  }

  lemma {:induction false} FirstClose(c: string, b: string)
    requires ClosesNothing(c)
    ensures Close(c) == None && Close(c + ("*/" + b)) == Some(b)
  {
    var s := c + ("*/" + b);
    if c == "" {
      assert s == "*/" + b && s[2..] == b;
    } else {
      assert s[1..] == c[1..] + ("*/" + b) && s[0] == c[0];
      assert s[1] == if |c| == 1 then '*' else c[1];
      FirstClose(c[1..], b);
    }
  }

  /** In front of the first comment nothing is changed. */
  lemma {:induction false} FrontIsKept(a: string, tail: string)
    requires CommentFree(a) && tail != "" && tail[0] != '*'
    ensures Strip(a + tail) == Prepend(a, Strip(tail))
    decreases |a|
  {
    var s := a + tail;
    if a == "" {
      assert s == tail;
      if Strip(tail).Some? {
        assert "" + Strip(tail).value == Strip(tail).value;
      }
    } else {
      assert s[0] == a[0] && s[1..] == a[1..] + tail;
      assert s[1] == if |a| == 1 then tail[0] else a[1];
      assert CommentFree(a[1..]) by {
        assert forall i :: 0 <= i < |a[1..]| ==> a[1..][i] == a[i + 1];
      }
      FrontIsKept(a[1..], tail);
      PrependTwice([a[0]], a[1..], Strip(tail));
      assert [a[0]] + a[1..] == a;
    }
  }

  /** The first comment, up to the first closing after it, becomes a newline. */
  lemma {:induction false} CommentBecomesNewline(a: string, c: string, b: string)
    requires CommentFree(a) && ClosesNothing(c)
    ensures Strip(a + ("/*" + (c + ("*/" + b)))) == Prepend(a + "\n", Strip(b))
  {
    var tail := "/*" + (c + ("*/" + b));
    FirstClose(c, b);
    assert tail[2..] == c + ("*/" + b);
    FrontIsKept(a, tail);
    PrependTwice(a, "\n", Strip(b));
  }

  /** A comment that is not closed is refused. */
  lemma {:induction false} OpenCommentIsRefused(a: string, c: string)
    requires CommentFree(a) && ClosesNothing(c)
    ensures Strip(a + ("/*" + c)) == None
  {
    var tail := "/*" + c;
    FirstClose(c, "");
    assert tail[2..] == c;
    FrontIsKept(a, tail);
  }

  lemma {:induction false} CloseInFront(a: string, b: string)
    requires Close(a).Some?
    ensures Close(a + b) == Some(Close(a).value + b)
  {
    if a[0] == '*' && a[1] == '/' {
      assert (a + b)[2..] == a[2..] + b;
    } else {
      CloseInFront(a[1..], b);
      assert (a + b)[1..] == a[1..] + b;
    }
  }

  /** Texts whose comments are closed can be stripped apart, with a newline between. */
  lemma {:induction false} StripJoined(a: string, b: string)
    requires Strip(a).Some?
    ensures Strip(a + ("\n" + b)) == Prepend(Strip(a).value + "\n", Strip(b))
    decreases |a|
  {
    var tail := "\n" + b;
    if a == "" {
      assert a + tail == tail && tail[1..] == b;
      assert "" + "\n" == "\n";
    } else if OpensComment(a) {
      var rest := Close(a[2..]).value;
      CloseInFront(a[2..], tail);
      assert (a + tail)[2..] == a[2..] + tail;
      StripJoined(rest, b);
      PrependTwice("\n", Strip(rest).value + "\n", Strip(b));
      assert "\n" + (Strip(rest).value + "\n") == "\n" + Strip(rest).value + "\n";
    } else {
      assert (a + tail)[1..] == a[1..] + tail && (a + tail)[0] == a[0];
      assert !OpensComment(a + tail) by {
        assert |a| == 1 ==> (a + tail)[1] == '\n';
      }
      StripJoined(a[1..], b);
      PrependTwice([a[0]], Strip(a[1..]).value + "\n", Strip(b));
      assert [a[0]] + (Strip(a[1..]).value + "\n") == [a[0]] + Strip(a[1..]).value + "\n";
    }
  }

  // ----- Lines -----

  function Find(s: string, c: char): (k: nat)
    ensures k <= |s| && (k < |s| ==> s[k] == c)
    ensures forall i :: 0 <= i < k ==> s[i] != c
  {
    if s == "" || s[0] == c then 0 else 1 + Find(s[1..], c)
  }

  /**
   * The lines of a text, each trimmed, as every use of a line is. A carriage
   * return at the end of a line goes with the trimming.
   */
  function Lines(s: string): seq<string>
    decreases |s|
  {
    if s == "" then []
    else
      var k := Find(s, '\n');
      if k == |s| then [Trim(s)] else [Trim(s[..k])] + Lines(s[k + 1..])
  }

  lemma {:induction false} FindInFront(a: string, b: string, c: char)
    ensures Find(a + b, c) == if Find(a, c) < |a| then Find(a, c) else |a| + Find(b, c)
  {
    if a == "" {
      assert a + b == b;
    } else if a[0] != c {
      assert (a + b)[1..] == a[1..] + b;
      FindInFront(a[1..], b, c);
    }
  }

  /** The blank line that appears when a finished text is followed by a newline. */
  function Blank(a: string): seq<string> {
    if a == "" || a[|a| - 1] == '\n' then [""] else []
  }

  /** A line taken off the front. */
  lemma LinesStep(s: string, line: string, rest: string)
    requires s == line + ("\n" + rest) && Find(line, '\n') == |line|
    ensures Lines(s) == [Trim(line)] + Lines(rest)
  {
    hide Trim, Find;
    FirstNewline(line, rest);
    assert s[..|line|] == line;
    assert s[|line| + 1..] == rest;
  }

  lemma FirstNewline(line: string, rest: string)
    requires Find(line, '\n') == |line|
    ensures Find(line + ("\n" + rest), '\n') == |line|
  {
    var tail := "\n" + rest;
    assert tail[0] == '\n';
    FindInFront(line, tail, '\n');
  }

  lemma FirstLineEnds(a: string)
    ensures Find(a[..Find(a, '\n')], '\n') == Find(a, '\n')
  {
    var line := a[..Find(a, '\n')];
    assert forall i :: 0 <= i < |line| ==> line[i] != '\n';
  }

  lemma {:induction false} LinesJoined(a: string, b: string)
    ensures Lines(a + ("\n" + b)) == Lines(a) + Blank(a) + Lines(b)
    decreases |a|
  {
    hide Trim, Find, Blank, Lines;
    var k := Find(a, '\n');
    FirstLineEnds(a);
    if k < |a| {
      var line, rest := a[..k], a[k + 1..];
      CutLine(a, b, k);
      LinesStep(a, line, rest);
      LinesStep(a + ("\n" + b), line, rest + ("\n" + b));
      LinesJoined(rest, b);
      BlankAfter(a, k);
      Regroup([Trim(line)], Lines(rest), Blank(a), Lines(b));
    } else {
      assert a[..k] == a;
      LinesStep(a + ("\n" + b), a, b);
      BlankAtEnd(a);
    }
  }

  lemma CutLine(a: string, b: string, k: nat)
    requires k < |a| && a[k] == '\n'
    ensures a == a[..k] + ("\n" + a[k + 1..])
    ensures a + ("\n" + b) == a[..k] + ("\n" + (a[k + 1..] + ("\n" + b)))
  {
  }

  lemma Regroup<T>(a: seq<T>, b: seq<T>, c: seq<T>, d: seq<T>)
    ensures a + (b + c + d) == a + b + c + d
  {
  }

  lemma BlankAtEnd(a: string)
    requires Find(a, '\n') == |a|
    ensures Lines(a) + Blank(a) == [Trim(a)]
  {
    if a != "" {
      assert a[|a| - 1] != '\n';
    }
  }

  lemma BlankAfter(a: string, k: nat)
    requires k < |a| && a[k] == '\n'
    ensures Blank(a) == Blank(a[k + 1..])
  {
    if k + 1 < |a| {
      assert a[k + 1..][|a[k + 1..]| - 1] == a[|a| - 1];
    }
  }
}
