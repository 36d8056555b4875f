/** `FunctionLoader.from_file`: the user's function body is the part of a
    file after its start marker line. */
module FunctionLoader {
  import opened Outcomes
  import opened Text

  const StartMarker: string := "### START ###"

  /** Index of the first '\n' of `s`, or `|s|` when there is none. */
  function FirstNewline(s: string): (i: nat)
    ensures i <= |s| && forall j :: 0 <= j < i ==> s[j] != '\n'
    ensures i < |s| ==> s[i] == '\n'
  {
    if |s| == 0 || s[0] == '\n' then 0 else 1 + FirstNewline(s[1..])
  }

  /** The lines iterating over a text file yields: each runs up to and
      including its '\n', the last one possibly without it. */
  function Lines(text: string): (ls: seq<string>)
    ensures Join(ls, "") == text
    ensures forall i :: 0 <= i < |ls| ==> |ls[i]| > 0
    ensures forall i, j :: 0 <= i < |ls| && 0 <= j < |ls[i]| - 1 ==> ls[i][j] != '\n'
    ensures forall i :: 0 <= i < |ls| - 1 ==> ls[i][|ls[i]| - 1] == '\n'
    decreases |text|
  {
    if text == [] then []
    else
      var k := FirstNewline(text);
      var n := if k < |text| then k + 1 else |text|;
      var rest := Lines(text[n..]);
      JoinEmptyCons(text[..n], rest);
      assert text[..n] + text[n..] == text;
      [text[..n]] + rest
  }

  /** The line test: surrounding whitespace (its '\n' included) is ignored. */
  predicate IsMarker(line: string) {
    Strip(line) == StartMarker
  }

  /** The lines kept: all those after the first marker line, none without one. */
  function AfterMarker(lines: seq<string>): (kept: seq<string>)
    ensures |kept| < |lines| || kept == []
  {
    if lines == [] then []
    else if IsMarker(lines[0]) then lines[1..]
    else AfterMarker(lines[1..])
  }

  /** With the first marker at `m`, the kept lines are exactly lines `m+1..`:
      the marker and everything before it go, every later line stays
      verbatim, later marker lines included. */
  lemma {:induction false} AfterFirstMarker(lines: seq<string>, m: nat)
    requires m < |lines| && IsMarker(lines[m])
    requires forall j :: 0 <= j < m ==> !IsMarker(lines[j])
    ensures AfterMarker(lines) == lines[m + 1..]
  {
    if m > 0 {
      assert forall j :: 0 <= j < m - 1 ==> lines[1..][j] == lines[j + 1];
      AfterFirstMarker(lines[1..], m - 1);
      assert lines[1..][m..] == lines[m + 1..];
    }
  }

  /** One line further into the file. */
  lemma AfterMarkerStep(lines: seq<string>, i: nat)
    requires i < |lines|
    ensures AfterMarker(lines[i..]) == if IsMarker(lines[i]) then lines[i + 1..] else AfterMarker(lines[i + 1..])
  {
    assert lines[i..][1..] == lines[i + 1..];
  }

  /** The body `from_file` returns, before it is compiled. */
  function Body(text: string): string {
    Join(AfterMarker(Lines(text)), "")
  }

  /** The keep-lines are a tail of the file's lines. */
  lemma {:induction false} AfterMarkerIsTail(lines: seq<string>)
    ensures exists n :: 0 <= n <= |lines| && AfterMarker(lines) == lines[n..]
  {
    if lines == [] {
      assert AfterMarker(lines) == lines[0..];
    } else if IsMarker(lines[0]) {
      assert AfterMarker(lines) == lines[1..];
    } else {
      AfterMarkerIsTail(lines[1..]);
      var n :| 0 <= n <= |lines[1..]| && AfterMarker(lines[1..]) == lines[1..][n..];
      assert lines[1..][n..] == lines[n + 1..];
    }
  }

  /** The body is the end of the file, character for character. */
  lemma BodyIsSuffix(text: string)
    ensures |Body(text)| <= |text| && text == text[..|text| - |Body(text)|] + Body(text)
  {
    var lines := Lines(text);
    AfterMarkerIsTail(lines);
    var n :| 0 <= n <= |lines| && AfterMarker(lines) == lines[n..];
    TailJoinIsSuffix(lines, n);
  }

  /** Joining a tail of the lines gives a suffix of joining them all. */
  lemma TailJoinIsSuffix(lines: seq<string>, n: nat)
    requires n <= |lines|
    ensures var all, tail := Join(lines, ""), Join(lines[n..], "");
      |tail| <= |all| && all == all[..|all| - |tail|] + tail
  {
    assert lines == lines[..n] + lines[n..];
    JoinEmptyAppend(lines[..n], lines[n..]);
  }

  /** Without a marker line nothing is kept. */
  lemma {:induction false} NoMarkerKeepsNothing(lines: seq<string>)
    requires forall i :: 0 <= i < |lines| ==> !IsMarker(lines[i])
    ensures AfterMarker(lines) == []
  {
    if lines != [] {
      assert forall i :: 0 <= i < |lines| - 1 ==> lines[1..][i] == lines[i + 1];
      NoMarkerKeepsNothing(lines[1..]);
    }
  }

  /** A file without a marker line gives the empty body. */
  lemma NoMarkerNoBody(text: string)
    requires forall i :: 0 <= i < |Lines(text)| ==> !IsMarker(Lines(text)[i])
    ensures Body(text) == ""
  {
    NoMarkerKeepsNothing(Lines(text));
  }

  /** The loop of `from_file`: once the flag is set every further line is
      kept; until then a marker line sets it and is itself dropped. */
  method KeepAfterMarker(lines: seq<string>) returns (contents: seq<string>)
    ensures contents == AfterMarker(lines)
  {
    var store := false;
    contents := [];
    var count := |lines|;
    for i := 0 to count
      invariant store ==> AfterMarker(lines) == contents + lines[i..]
      invariant !store ==> contents == [] && AfterMarker(lines) == AfterMarker(lines[i..])
    {
      if store {
        contents := contents + [lines[i]];
        assert lines[i..] == [lines[i]] + lines[i + 1..];
      } else {
        AfterMarkerStep(lines, i);
        if Strip(lines[i]) == StartMarker {
          store := true;
        }
      }
    }
    assert lines[|lines|..] == [];
  }

  /** `from_file`: the kept lines joined, then `compile`, which raises
      SyntaxError for a body that is not valid Python. */
  method FromFile(text: string, compiles: string -> bool) returns (r: Result<string>)
    ensures r == if compiles(Body(text)) then Ok(Body(text)) else Raise(SyntaxError)
  {
    var contents := KeepAfterMarker(Lines(text));
    var rawText := Join(contents, "");
    if !compiles(rawText) {
      return Raise(SyntaxError);
    }
    r := Ok(rawText);
  }
}
