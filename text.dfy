/** The pieces of Python's `str` behaviour the model relies on: whitespace,
    `strip`/`rstrip`, `splitlines`, `split`/`join`, `replace`, `str(int)`
    and `os.path.dirname` (POSIX). */
module Text {

  /** `c.isspace()` for a Python 3 str character. */
  predicate IsSpace(c: char) {
    var n := c as int;
    (0x09 <= n <= 0x0D) || (0x1C <= n <= 0x20) || n == 0x85 || n == 0xA0 ||
    n == 0x1680 || (0x2000 <= n <= 0x200A) || n == 0x2028 || n == 0x2029 ||
    n == 0x202F || n == 0x205F || n == 0x3000
  }

  /** A line boundary for `str.splitlines` (`"\r\n"` counts as one). */
  predicate IsLineBreak(c: char) {
    var n := c as int;
    (0x0A <= n <= 0x0D) || (0x1C <= n <= 0x1E) || n == 0x85 || n == 0x2028 || n == 0x2029
  }

  predicate AllSpace(s: string) {
    forall i :: 0 <= i < |s| ==> IsSpace(s[i])
  }

  predicate NoLineBreak(s: string) {
    forall i :: 0 <= i < |s| ==> !IsLineBreak(s[i])
  }

  /** Length of the longest all-whitespace suffix. */
  function TrailingSpace(s: string): (n: nat)
    ensures n <= |s| && AllSpace(s[|s| - n..])
    ensures n < |s| ==> !IsSpace(s[|s| - n - 1])
  {
    if |s| == 0 || !IsSpace(s[|s| - 1]) then 0
    else
      var front := s[..|s| - 1];
      var m := TrailingSpace(front);
      assert s[|s| - (m + 1)..] == front[|front| - m..] + [s[|s| - 1]];
      assert m < |front| ==> s[|s| - m - 2] == front[|front| - m - 1];
      1 + m
  }

  /** Length of the longest all-whitespace prefix. */
  function LeadingSpace(s: string): (n: nat)
    ensures n <= |s| && AllSpace(s[..n])
    ensures n < |s| ==> !IsSpace(s[n])
  {
    if |s| == 0 || !IsSpace(s[0]) then 0
    else
      var m := LeadingSpace(s[1..]);
      assert s[..m + 1] == [s[0]] + s[1..][..m];
      1 + m
  }

  /** `s.rstrip()`: the prefix left after removing trailing whitespace. */
  function RStrip(s: string): (r: string)
    ensures |r| <= |s| && r == s[..|r|] && AllSpace(s[|r|..])
    ensures r == [] || !IsSpace(r[|r| - 1])
  {
    s[..|s| - TrailingSpace(s)]
  }

  /** `s.strip()`: the slice left after removing whitespace at both ends. */
  function Strip(s: string): (r: string)
    ensures LeadingSpace(s) + |r| <= |s|
    ensures r == s[LeadingSpace(s)..LeadingSpace(s) + |r|]
    ensures AllSpace(s[LeadingSpace(s) + |r|..])
    ensures r == [] || (!IsSpace(r[0]) && !IsSpace(r[|r| - 1]))
  {
    var n := LeadingSpace(s);
    var t := s[n..];
    var r := RStrip(t);
    assert t[|r|..] == s[n + |r|..];
    assert r == s[n..n + |r|];
    assert r != [] ==> r[0] == s[n];
    r
  }

  /** Index of the first line boundary, or |s| when there is none. */
  function FirstBreak(s: string): (i: nat)
    ensures i <= |s| && NoLineBreak(s[..i])
    ensures i < |s| ==> IsLineBreak(s[i])
  {
    if |s| == 0 || IsLineBreak(s[0]) then 0 else 1 + FirstBreak(s[1..])
  }

  /** `s.splitlines()`: the lines without their boundaries; a boundary at the
      very end does not start another (empty) line. */
  function SplitLines(s: string): (ls: seq<string>)
    decreases |s|
  {
    if |s| == 0 then []
    else
      var i := FirstBreak(s);
      if i == |s| then [s]
      else
        var w := if s[i] == '\r' && i + 1 < |s| && s[i + 1] == '\n' then 2 else 1;
        [s[..i]] + SplitLines(s[i + w..])
  }

  /** `sep.join(parts)`. */
  function Join(parts: seq<string>, sep: string): (r: string)
  {
    if |parts| == 0 then ""
    else if |parts| == 1 then parts[0]
    else parts[0] + sep + Join(parts[1..], sep)
  }

  /** No line that `splitlines` returns holds a line boundary. */
  lemma {:induction false} SplitLinesHaveNoBreak(s: string)
    ensures forall k :: 0 <= k < |SplitLines(s)| ==> NoLineBreak(SplitLines(s)[k])
    decreases |s|
  {
    if |s| > 0 {
      var i := FirstBreak(s);
      if i < |s| {
        var w := if s[i] == '\r' && i + 1 < |s| && s[i + 1] == '\n' then 2 else 1;
        SplitLinesHaveNoBreak(s[i + w..]);
      }
    }
  }

  /** Joining lines free of boundaries with "\n" and splitting them again
      gives the lines back, provided the last line is not empty. */
  lemma {:induction false} SplitLinesOfJoin(ls: seq<string>)
    requires |ls| > 0 && ls[|ls| - 1] != ""
    requires forall k :: 0 <= k < |ls| ==> NoLineBreak(ls[k])
    ensures SplitLines(Join(ls, "\n")) == ls
  {
    if |ls| == 1 {
      assert Join(ls, "\n") == ls[0];
      assert ls[0] + "" == ls[0];
      FirstBreakAt(ls[0], "");
    } else {
      var tail := ls[1..];
      assert NoLineBreak(ls[0]);
      assert tail[|tail| - 1] == ls[|ls| - 1];
      forall k | 0 <= k < |tail| ensures NoLineBreak(tail[k]) {
        assert tail[k] == ls[k + 1];
      }
      SplitLinesOfJoin(tail);
      SplitLinesStep(ls[0], Join(tail, "\n"));
      assert ls == [ls[0]] + tail;
    }
  }

  lemma SplitLinesStep(a: string, rest: string)
    requires NoLineBreak(a)
    ensures SplitLines(a + "\n" + rest) == [a] + SplitLines(rest)
  {
    var s := a + "\n" + rest;
    FirstBreakAt(a, "\n" + rest);
    assert s == a + ("\n" + rest);
    assert s[|a|] == '\n';
    assert s[..|a|] == a;
    assert s[|a| + 1..] == rest;
  }

  /** The first boundary of `a + b`, for `a` free of boundaries, is where `b`
      starts if `b` starts with one, and the end if `b` is empty. */
  lemma {:induction false} FirstBreakAt(a: string, b: string)
    requires NoLineBreak(a) && (b == [] || IsLineBreak(b[0]))
    ensures FirstBreak(a + b) == |a|
  {
    if |a| > 0 {
      assert !IsLineBreak(a[0]);
      assert (a + b)[1..] == a[1..] + b;
      FirstBreakAt(a[1..], b);
    } else {
      assert a + b == b;
    }
  }

  /** Index of the first whitespace character, or |s| when there is none. */
  function FirstSpace(s: string): (i: nat)
    ensures i <= |s| && forall j :: 0 <= j < i ==> !IsSpace(s[j])
    ensures i < |s| ==> IsSpace(s[i])
  {
    if |s| == 0 || IsSpace(s[0]) then 0 else 1 + FirstSpace(s[1..])
  }

  /** `s.split()` with no separator: the maximal runs without whitespace, in order. */
  function Words(s: string): seq<string>
    decreases |s|
  {
    var t := s[LeadingSpace(s)..];
    if t == [] then []
    else
      var m := FirstSpace(t);
      [t[..m]] + Words(t[m..])
  }

  /** Every word is non-empty and holds no whitespace. */
  lemma {:induction false} WordsHaveNoSpace(s: string)
    ensures forall k :: 0 <= k < |Words(s)| ==> Words(s)[k] != [] && NoSpace(Words(s)[k])
    decreases |s|
  {
    var t := s[LeadingSpace(s)..];
    if t != [] {
      var m := FirstSpace(t);
      WordsHaveNoSpace(t[m..]);
      var ws := Words(s);
      assert ws == [t[..m]] + Words(t[m..]);
      forall k | 0 <= k < |ws| ensures ws[k] != [] && NoSpace(ws[k]) {
        if k > 0 {
          assert ws[k] == Words(t[m..])[k - 1];
        }
      }
    }
  }

  predicate NoSpace(w: string) {
    forall i :: 0 <= i < |w| ==> !IsSpace(w[i])
  }

  lemma {:induction false} FirstSpaceAt(a: string, b: string)
    requires NoSpace(a) && (b == [] || IsSpace(b[0]))
    ensures FirstSpace(a + b) == |a|
  {
    if |a| > 0 {
      assert !IsSpace(a[0]);
      assert (a + b)[1..] == a[1..] + b;
      FirstSpaceAt(a[1..], b);
    } else {
      assert a + b == b;
    }
  }

  lemma WordsLead(w: string, rest: string)
    requires w != [] && NoSpace(w) && (rest == [] || IsSpace(rest[0]))
    ensures Words(w + rest) == [w] + Words(rest)
  {
    var s := w + rest;
    assert !IsSpace(s[0]);
    assert LeadingSpace(s) == 0;
    assert s[0..] == s;
    FirstSpaceAt(w, rest);
    assert s[..|w|] == w && s[|w|..] == rest;
  }

  lemma WordsSpace(rest: string)
    ensures Words(" " + rest) == Words(rest)
  {
    var s := " " + rest;
    assert s[1..] == rest;
    assert s[LeadingSpace(s)..] == rest[LeadingSpace(rest)..];
  }

  /** Splitting words joined by single spaces gives the words back. */
  lemma {:induction false} WordsOfJoin(ws: seq<string>)
    requires forall k :: 0 <= k < |ws| ==> ws[k] != [] && NoSpace(ws[k])
    ensures Words(Join(ws, " ")) == ws
  {
    if |ws| == 0 {
      assert Join(ws, " ") == "";
    } else if |ws| == 1 {
      assert Join(ws, " ") == ws[0] + "";
      WordsLead(ws[0], "");
      assert Words("") == [];
    } else {
      var tail := ws[1..];
      forall k | 0 <= k < |tail| ensures tail[k] != [] && NoSpace(tail[k]) {
        assert tail[k] == ws[k + 1];
      }
      WordsOfJoin(tail);
      JoinStep(ws, " ");
      WordsCons(ws[0], Join(tail, " "));
      assert ws == [ws[0]] + tail;
    }
  }

  /** Joining two or more parts: the first, the separator, then the rest joined. */
  lemma JoinStep(parts: seq<string>, sep: string)
    requires |parts| > 1
    ensures Join(parts, sep) == parts[0] + (sep + Join(parts[1..], sep))
  {
  }

  /** One more word in front of the rest, with a space between. */
  lemma WordsCons(w: string, rest: string)
    requires w != [] && NoSpace(w)
    ensures Words(w + (" " + rest)) == [w] + Words(rest)
  {
    WordsLead(w, " " + rest);
    WordsSpace(rest);
  }

  // ---------------------------------------------------------------------
  // split / join / replace with a non-empty separator

  /** Index of the leftmost occurrence of `p` in `s`, if any. */
  function Find(s: string, p: string): (r: int)
    requires |p| > 0
    ensures r == -1 || 0 <= r <= |s| - |p|
    decreases |s|
  {
    if |s| < |p| then -1
    else if s[..|p|] == p then 0
    else var k := Find(s[1..], p); if k < 0 then -1 else k + 1
  }

  /** Where `Find` reports an index, `p` occurs there. */
  lemma {:induction false} FindAt(s: string, p: string)
    requires |p| > 0
    ensures Find(s, p) >= 0 ==> At(s, p, Find(s, p))
    decreases |s|
  {
    var k := Find(s, p);
    if k > 0 {
      FindAt(s[1..], p);
      AtShift(s, p, k);
    }
  }

  /** `p` occurs in `s` starting at index `i`. */
  predicate At(s: string, p: string, i: int) {
    0 <= i <= |s| - |p| && s[i..i + |p|] == p
  }

  predicate Occurs(s: string, p: string) {
    exists i :: 0 <= i <= |s| && At(s, p, i)
  }

  lemma AtShift(s: string, p: string, i: int)
    requires |s| > 0 && i > 0
    ensures At(s, p, i) == At(s[1..], p, i - 1)
  {
    if 0 < i <= |s| - |p| {
      var x, y := s[i..i + |p|], s[1..][i - 1..i - 1 + |p|];
      assert forall j :: 0 <= j < |p| ==> x[j] == y[j];
      assert x == y;
    }
  }

  lemma AtPrefix(s: string, p: string, i: int, n: int)
    requires 0 <= n <= |s| && 0 <= i && i + |p| <= n
    ensures At(s[..n], p, i) == At(s, p, i)
  {
    var x, y := s[..n][i..i + |p|], s[i..i + |p|];
    assert forall j :: 0 <= j < |p| ==> x[j] == y[j];
    assert x == y;
  }

  lemma {:induction false} FindNone(s: string, p: string)
    requires |p| > 0 && Find(s, p) < 0
    ensures !Occurs(s, p)
    decreases |s|
  {
    if |s| >= |p| {
      assert s[..|p|] != p;
      FindNone(s[1..], p);
      forall i | 0 <= i <= |s| ensures !At(s, p, i) {
        if i > 0 {
          AtShift(s, p, i);
          assert !At(s[1..], p, i - 1);
        }
      }
    }
  }

  /** No occurrence starts before the one `Find` reports. */
  lemma {:induction false} FindFirst(s: string, p: string)
    requires |p| > 0
    ensures forall i :: 0 <= i < Find(s, p) ==> !At(s, p, i)
    decreases |s|
  {
    var k := Find(s, p);
    if k > 0 {
      FindFirst(s[1..], p);
      assert k == Find(s[1..], p) + 1;
      forall i | 0 <= i < k ensures !At(s, p, i) {
        if i > 0 {
          AtShift(s, p, i);
        }
      }
    }
  }

  /** `s.split(p)`: the pieces between the occurrences of `p`, found from the left. */
  function Split(s: string, p: string): (parts: seq<string>)
    requires |p| > 0
    ensures |parts| > 0
    decreases |s|
  {
    var k := Find(s, p);
    if k < 0 then [s] else [s[..k]] + Split(s[k + |p|..], p)
  }

  /** `s.replace(p, q)`: every occurrence of `p`, found from the left and not
      overlapping, is replaced by `q`. */
  function Replace(s: string, p: string, q: string): (r: string)
    requires |p| > 0
    decreases |s|
  {
    if |s| < |p| then s
    else if s[..|p|] == p then q + Replace(s[|p|..], p, q)
    else [s[0]] + Replace(s[1..], p, q)
  }

  /** Joining the pieces of a split with the separator gives the string back. */
  lemma {:induction false} JoinSplit(s: string, p: string)
    requires |p| > 0
    ensures Join(Split(s, p), p) == s
    decreases |s|
  {
    var k := Find(s, p);
    if k >= 0 {
      var rest := s[k + |p|..];
      JoinSplit(rest, p);
      FindAt(s, p);
      assert s == s[..k] + p + rest by { assert s[k..k + |p|] == p; }
    }
  }

  /** No piece of a split contains the separator. */
  lemma {:induction false} SplitPiecesFree(s: string, p: string)
    requires |p| > 0
    ensures forall i :: 0 <= i < |Split(s, p)| ==> !Occurs(Split(s, p)[i], p)
    decreases |s|
  {
    var k := Find(s, p);
    if k < 0 {
      FindNone(s, p);
    } else {
      var rest := s[k + |p|..];
      SplitPiecesFree(rest, p);
      FindFirst(s, p);
      forall i | 0 <= i <= k ensures !At(s[..k], p, i) {
        if i + |p| <= k {
          AtPrefix(s, p, i, k);
        }
      }
      var parts := Split(s, p);
      assert parts == [s[..k]] + Split(rest, p);
      forall i | 0 <= i < |parts| ensures !Occurs(parts[i], p) {
        if i > 0 { assert parts[i] == Split(rest, p)[i - 1]; }
      }
    }
  }

  /** Where `p` does not start `s`, the first character of `s` joins the
      first piece of the split of the rest. */
  lemma SplitMiss(s: string, p: string)
    requires |p| > 0 && |s| >= |p| && s[..|p|] != p
    ensures Split(s, p) == [[s[0]] + Split(s[1..], p)[0]] + Split(s[1..], p)[1..]
  {
    var k := Find(s[1..], p);
    assert Find(s, p) == if k < 0 then -1 else k + 1;
    if k < 0 {
      assert s == [s[0]] + s[1..];
    } else {
      SplitMissAt(s, p, k);
    }
  }

  /** `SplitMiss` where the rest of `s` holds `p` first at `k`. */
  lemma SplitMissAt(s: string, p: string, k: int)
    requires |p| > 0 && |s| > 0 && 0 <= k && Find(s, p) == k + 1 && Find(s[1..], p) == k
    ensures Split(s, p) == [[s[0]] + Split(s[1..], p)[0]] + Split(s[1..], p)[1..]
  {
    var t := s[1..];
    var rest := Split(t[k + |p|..], p);
    SplitFound(t, p, k);
    SplitFound(s, p, k + 1);
    ShiftSlices(s, k, |p|);
  }

  /** Where `p` first occurs at `k`, the split is the text before it and the split after it. */
  lemma SplitFound(s: string, p: string, k: int)
    requires |p| > 0 && 0 <= k && Find(s, p) == k
    ensures k + |p| <= |s| && Split(s, p) == [s[..k]] + Split(s[k + |p|..], p)
  {
  }

  lemma ShiftSlices(s: string, k: nat, n: nat)
    requires k + 1 + n <= |s|
    ensures s[k + 1 + n..] == s[1..][k + n..] && s[..k + 1] == [s[0]] + s[1..][..k]
  {
  }

  lemma JoinCons(c: char, x: string, xs: seq<string>, sep: string)
    ensures Join([[c] + x] + xs, sep) == [c] + Join([x] + xs, sep)
  {
    if |xs| > 0 {
      assert ([[c] + x] + xs)[1..] == xs;
      assert ([x] + xs)[1..] == xs;
    }
  }

  /** Replacing is splitting at the old text and joining with the new one,
      i.e. `s.replace(p, q) == q.join(s.split(p))`. */
  lemma {:induction false} ReplaceIsJoinSplit(s: string, p: string, q: string)
    requires |p| > 0
    ensures Replace(s, p, q) == Join(Split(s, p), q)
    decreases |s|
  {
    if |s| < |p| {
      assert Find(s, p) == -1;
    } else if s[..|p|] == p {
      assert Find(s, p) == 0;
      ReplaceIsJoinSplit(s[|p|..], p, q);
      assert Split(s, p) == [""] + Split(s[|p|..], p);
    } else {
      ReplaceIsJoinSplit(s[1..], p, q);
      var tail := Split(s[1..], p);
      SplitMiss(s, p);
      assert tail == [tail[0]] + tail[1..];
      JoinCons(s[0], tail[0], tail[1..], q);
    }
  }

  /** `"".join` takes the parts one after another. */
  lemma JoinEmptyCons(x: string, xs: seq<string>)
    ensures Join([x] + xs, "") == x + Join(xs, "")
  {
    if |xs| > 0 {
      assert ([x] + xs)[1..] == xs;
    }
  }

  /** `"".join(a + b) == "".join(a) + "".join(b)`. */
  lemma {:induction false} JoinEmptyAppend(a: seq<string>, b: seq<string>)
    ensures Join(a + b, "") == Join(a, "") + Join(b, "")
    decreases |a|
  {
    if |a| > 0 {
      JoinEmptyAppend(a[1..], b);
      assert a + b == [a[0]] + (a[1..] + b);
      assert a == [a[0]] + a[1..];
      JoinEmptyCons(a[0], a[1..] + b);
      JoinEmptyCons(a[0], a[1..]);
    } else {
      assert a + b == b;
    }
  }

  // ---------------------------------------------------------------------
  // str(int)

  function DigitChar(d: nat): char
    requires d < 10
  {
    "0123456789"[d]
  }

  predicate IsDigit(c: char) { '0' <= c <= '9' }

  /** Decimal digits of a natural number, most significant first, no leading zero. */
  function NatToString(n: nat): (s: string)
    ensures |s| > 0 && forall i :: 0 <= i < |s| ==> IsDigit(s[i])
  {
    if n < 10 then [DigitChar(n)] else NatToString(n / 10) + [DigitChar(n % 10)]
  }

  /** Value of a string of decimal digits. */
  function ParseDigits(s: string): int
    requires forall i :: 0 <= i < |s| ==> IsDigit(s[i])
  {
    if |s| == 0 then 0
    else ParseDigits(s[..|s| - 1]) * 10 + ((s[|s| - 1] as int) - ('0' as int))
  }

  /** `str(n)` for a Python int. */
  function IntToString(n: int): (s: string)
    ensures |s| > 0 && forall i :: 0 <= i < |s| ==> (IsDigit(s[i]) || (i == 0 && s[i] == '-'))
  {
    if n < 0 then "-" + NatToString(-n) else NatToString(n)
  }

  lemma {:induction false} ParseNatToString(n: nat)
    ensures ParseDigits(NatToString(n)) == n
  {
    if n >= 10 {
      ParseNatToString(n / 10);
      var s := NatToString(n);
      assert s[..|s| - 1] == NatToString(n / 10);
    }
  }

  /** `int(s)` for what `str` prints: an optional '-' and then digits. */
  function ParseInt(s: string): int
    requires |s| > 0 && forall i :: 0 <= i < |s| ==> (IsDigit(s[i]) || (i == 0 && s[i] == '-'))
  {
    if s[0] == '-' then -ParseDigits(s[1..]) else ParseDigits(s)
  }

  /** Reading back what `str(n)` prints gives `n`. */
  lemma ParseIntToString(n: int)
    ensures ParseInt(IntToString(n)) == n
  {
    if n < 0 {
      ParseNegative(n);
    } else {
      ParseNatToString(n);
      assert IsDigit(NatToString(n)[0]);
    }
  }

  lemma ParseNegative(n: int)
    requires n < 0
    ensures ParseInt(IntToString(n)) == n
  {
    var m: nat := -n;
    var t := NatToString(m);
    ParseNatToString(m);
    var s := IntToString(n);
    assert s == "-" + t;
    assert s[0] == '-' && s[1..] == t;
    assert ParseInt(s) == -ParseDigits(t);
  }

  /** Different ints print differently. */
  lemma IntToStringInjective(a: int, b: int)
    requires IntToString(a) == IntToString(b)
    ensures a == b
  {
    ParseIntToString(a);
    ParseIntToString(b);
  }

  // ---------------------------------------------------------------------
  // os.path.dirname (posixpath)

  /** Length of the longest run of '/' at the end of `s`. */
  function TrailingSlashes(s: string): (n: nat)
    ensures n <= |s| && forall i :: |s| - n <= i < |s| ==> s[i] == '/'
    ensures n < |s| ==> s[|s| - n - 1] != '/'
  {
    if |s| == 0 || s[|s| - 1] != '/' then 0 else 1 + TrailingSlashes(s[..|s| - 1])
  }

  /** Index one past the last '/' of `s` (0 when there is none): `s.rfind('/') + 1`. */
  function AfterLastSlash(s: string): (i: nat)
    ensures i <= |s| && forall j :: i <= j < |s| ==> s[j] != '/'
    ensures i > 0 ==> s[i - 1] == '/'
  {
    if |s| == 0 then 0
    else if s[|s| - 1] == '/' then |s|
    else AfterLastSlash(s[..|s| - 1])
  }

  /** `os.path.basename(p)`: what follows the last '/'. */
  function Basename(p: string): (b: string)
    ensures |b| <= |p| && p == p[..|p| - |b|] + b
    ensures forall i :: 0 <= i < |b| ==> b[i] != '/'
  {
    p[AfterLastSlash(p)..]
  }

  /** `os.path.dirname(p)`: the head up to the last '/', with trailing slashes
      removed unless the head consists of slashes only. */
  function Dirname(p: string): (d: string)
    ensures |d| <= |p| && d == p[..|d|]
  {
    var head := p[..AfterLastSlash(p)];
    if |head| > 0 && TrailingSlashes(head) < |head| then head[..|head| - TrailingSlashes(head)]
    else head
  }

  /** The directory part of `dir + "/" + name`, for a file name without '/'
      and a directory that does not end in '/', is `dir`; of `"/" + name` it is "/". */
  lemma DirnameOfJoin(dir: string, name: string)
    requires forall i :: 0 <= i < |name| ==> name[i] != '/'
    requires dir == [] || dir[|dir| - 1] != '/'
    ensures Dirname(dir + "/" + name) == if dir == [] then "/" else dir
  {
    var p := dir + "/" + name;
    var k := AfterLastSlash(p);
    assert p[|dir|] == '/';
    assert k == |dir| + 1;
    var head := p[..k];
    assert head == dir + "/";
    assert TrailingSlashes(head) == 1 by {
      if |dir| > 0 { assert head[..|head| - 1] == dir; }
    }
  }
}
