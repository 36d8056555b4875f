/** The text `MapTask.__init__` and `ReduceTask.load_function` hand to
    `exec`: the user's body rewritten and indented under a fixed header,
    followed by a footer that binds the defined function to `call`. */
module SourceWrapping {
  import opened Text

  const Indent: string := "    "

  /** A task's `call` attribute: the do-nothing default lambda, or the
      function the generated source defined. */
  datatype Callable = NoOp | Loaded(source: string)

  /** One body line: `" " * 4 + line.rstrip()`, i.e. the line with only
      whitespace cut off its end, behind four spaces. */
  function IndentLine(line: string): (l: string)
    requires NoLineBreak(line)
    ensures 4 <= |l| <= |line| + 4
    ensures l[..4] == Indent && l[4..] == line[..|l| - 4]
    ensures AllSpace(line[|l| - 4..])
    ensures |l| == 4 || !IsSpace(l[|l| - 1])
    ensures NoLineBreak(l)
  {
    var r := RStrip(line);
    assert forall i :: 0 <= i < |r| ==> r[i] == line[i];
    var l := Indent + r;
    assert l[4..] == r;
    l
  }

  /** The body lines of the generated definition: every `emit` rewritten to
      `self.emit`, the whole stripped and split into lines, each line then
      indented as `IndentLine` says. */
  function BodyLines(body: string): (ls: seq<string>)
    ensures var lines := SplitLines(Strip(Replace(body, "emit", "self.emit")));
      && |ls| == |lines|
      && forall i :: 0 <= i < |ls| ==> NoLineBreak(lines[i]) && ls[i] == IndentLine(lines[i])
  {
    var lines := SplitLines(Strip(Replace(body, "emit", "self.emit")));
    SplitLinesHaveNoBreak(Strip(Replace(body, "emit", "self.emit")));
    seq(|lines|, i requires 0 <= i < |lines| => IndentLine(lines[i]))
  }

  /** `"\n".join(header + contents + footer)`. */
  function Wrap(header: string, footer: string, body: string): string {
    Join([header] + BodyLines(body) + [footer], "\n")
  }

  /** A line of printable ASCII holds no line break. */
  lemma PlainLine(s: string)
    requires forall i :: 0 <= i < |s| ==> ' ' <= s[i] <= '~'
    ensures NoLineBreak(s)
  {
  }

  /** Read back line by line, the generated text is the header, the body
      lines and the footer, in that order and nothing else. */
  lemma WrappedLines(header: string, footer: string, body: string)
    requires NoLineBreak(header) && NoLineBreak(footer) && footer != ""
    ensures SplitLines(Wrap(header, footer, body)) == [header] + BodyLines(body) + [footer]
  {
    var ls := [header] + BodyLines(body) + [footer];
    assert forall k :: 0 <= k < |ls| ==> NoLineBreak(ls[k]) by {
      forall k | 0 <= k < |ls| ensures NoLineBreak(ls[k]) {
        if 0 < k < |ls| - 1 {
          assert ls[k] == BodyLines(body)[k - 1];
        }
      }
    }
    SplitLinesOfJoin(ls);
  }
}
