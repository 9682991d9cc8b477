/**
 * Line handling of a channel post: Python's `str.splitlines` (which turns a
 * post into candidate configuration lines) and `str.join` (which glues the
 * kept lines back into one outgoing text).
 */
module Lines {

  /** The characters `str.splitlines` treats as line boundaries:
      \n, \r, \v, \f, \x1c, \x1d, \x1e, \x85, U+2028 and U+2029.
      The pair "\r\n" counts as a single boundary (see BoundaryLength). */
  predicate IsLineBoundary(c: char) {
    || c == '\n' || c == '\r'
    || c == '\U{0B}' || c == '\U{0C}'
    || c == '\U{1C}' || c == '\U{1D}' || c == '\U{1E}'
    || c == '\U{85}' || c == '\U{2028}' || c == '\U{2029}'
  }

  /** A string holding no line boundary at all: a single line. */
  predicate NoLineBoundary(s: string) {
    forall i :: 0 <= i < |s| ==> !IsLineBoundary(s[i])
  }

  /** Printable ASCII text is a single line. */
  lemma {:induction false} PrintableIsLine(s: string)
    requires forall k :: 0 <= k < |s| ==> ' ' <= s[k] <= '~'
    ensures NoLineBoundary(s)
  {
  }

  /** The position of the first line boundary in `s`, or `|s|` when there is none. */
  function LineEnd(s: string): (i: nat)
    ensures i <= |s|
    ensures NoLineBoundary(s[..i])
    ensures i < |s| ==> IsLineBoundary(s[i])
  {
    if s == [] then 0
    else if IsLineBoundary(s[0]) then 0
    else 1 + LineEnd(s[1..])
  }

  /** The number of characters the boundary starting at `i` occupies:
      two for "\r\n", one for every other boundary. */
  function BoundaryLength(s: string, i: nat): (n: nat)
    requires i < |s| && IsLineBoundary(s[i])
    ensures 1 <= n <= 2 && i + n <= |s|
    ensures n == 2 <==> s[i] == '\r' && i + 1 < |s| && s[i + 1] == '\n'
  {
    if s[i] == '\r' && i + 1 < |s| && s[i + 1] == '\n' then 2 else 1
  }

  /** Python's `s.splitlines()` (without `keepends`): the text between
      boundaries, in order; the empty string has no lines, and a final
      boundary does not open a further, empty line. */
  function SplitLines(s: string): (lines: seq<string>)
    ensures forall k :: 0 <= k < |lines| ==> NoLineBoundary(lines[k])
    ensures lines == [] <==> s == []
    decreases |s|
  {
    if s == [] then []
    else
      var i := LineEnd(s);
      if i == |s| then [s]
      else [s[..i]] + SplitLines(s[i + BoundaryLength(s, i)..])
  }

  /** A line boundary as it may stand between a line and the rest `t` of
      the text: "\r\n", or one boundary character, where a lone "\r" must
      not be followed by "\n" (which would make the pair one boundary). */
  predicate IsLineBreak(b: string, t: string) {
    || b == "\r\n"
    || (|b| == 1 && IsLineBoundary(b[0]) && !(b[0] == '\r' && t != [] && t[0] == '\n'))
  }

  /** `SplitLines` found the first line of `s` at the first boundary. */
  lemma {:induction false} LineEndAt(a: string, s: string)
    requires NoLineBoundary(a) && |a| < |s| && s[..|a|] == a && IsLineBoundary(s[|a|])
    ensures LineEnd(s) == |a|
  {
  }

  /** The defining law of splitting: a boundary-free line followed by a
      line break is the first line, and splitting goes on after the break. */
  lemma {:induction false} SplitLinesAfterBreak(a: string, b: string, t: string)
    requires NoLineBoundary(a) && IsLineBreak(b, t)
    ensures SplitLines(a + b + t) == [a] + SplitLines(t)
  {
    var s := a + b + t;
    assert s[..|a|] == a;
    assert s[|a|] == b[0];
    LineEndAt(a, s);
    if b == "\r\n" {
      assert s[|a| + 1] == '\n';
    } else if t != [] {
      assert s[|a| + 1] == t[0];
    }
    assert BoundaryLength(s, |a|) == |b|;
    assert s[|a| + |b|..] == t;
  }

  /** A non-empty string without boundaries is one line, unchanged. */
  lemma {:induction false} SplitLinesSingle(a: string)
    requires a != [] && NoLineBoundary(a)
    ensures SplitLines(a) == [a]
  {
  }

  /** Appending "\n" to a text that does not already end in a line
      boundary adds no trailing empty line. */
  lemma {:induction false} TrailingNewlineAddsNoLine(s: string)
    requires s != [] && !IsLineBoundary(s[|s| - 1])
    ensures SplitLines(s + "\n") == SplitLines(s)
    decreases |s|
  {
    var s' := s + "\n";
    var i := LineEnd(s);
    if i == |s| {
      assert s' == s + "\n" + [];
      SplitLinesAfterBreak(s, "\n", []);
      assert s[..i] == s;
    } else {
      var n := BoundaryLength(s, i);
      assert i + 1 < |s|;
      assert s'[..i] == s[..i];
      LineEndAt(s[..i], s');
      assert BoundaryLength(s', i) == n;
      var rest := s[i + n..];
      assert rest != [];
      assert rest[|rest| - 1] == s[|s| - 1];
      assert s'[i + n..] == rest + "\n";
      TrailingNewlineAddsNoLine(rest);
    }
  }

  /** The lines laid end to end. */
  function Concat(lines: seq<string>): string
    decreases |lines|
  {
    if lines == [] then "" else lines[0] + Concat(lines[1..])
  }

  /** The text with its line-boundary characters taken out. */
  function RemoveBoundaries(s: string): string
    decreases |s|
  {
    if s == [] then ""
    else (if IsLineBoundary(s[0]) then "" else [s[0]]) + RemoveBoundaries(s[1..])
  }

  lemma {:induction false} RemoveBoundariesAppend(a: string, b: string)
    ensures RemoveBoundaries(a + b) == RemoveBoundaries(a) + RemoveBoundaries(b)
    decreases |a|
  {
    if a == [] {
      assert a + b == b;
    } else {
      assert (a + b)[0] == a[0];
      assert (a + b)[1..] == a[1..] + b;
      RemoveBoundariesAppend(a[1..], b);
    }
  }

  lemma {:induction false} RemoveBoundariesOfLine(a: string)
    requires NoLineBoundary(a)
    ensures RemoveBoundaries(a) == a
    decreases |a|
  {
    if a != [] {
      RemoveBoundariesOfLine(a[1..]);
    }
  }

  /** The characters of one line break are all boundaries. */
  lemma {:induction false} RemoveBoundariesOfBreak(s: string, i: nat)
    requires i < |s| && IsLineBoundary(s[i])
    ensures RemoveBoundaries(s[i..i + BoundaryLength(s, i)]) == ""
  {
    var brk := s[i..i + BoundaryLength(s, i)];
    assert brk[0] == s[i];
    if |brk| == 2 {
      var tail := brk[1..];
      assert tail[0] == '\n' && tail[1..] == "";
      assert RemoveBoundaries(tail) == "" + RemoveBoundaries(tail[1..]);
    } else {
      assert brk[1..] == "";
    }
  }

  /** Splitting drops the boundaries and nothing else: every other
      character of the text is in some line, in its original order. */
  lemma {:induction false} SplitLinesKeepsText(s: string)
    ensures Concat(SplitLines(s)) == RemoveBoundaries(s)
    decreases |s|
  {
    if s != [] {
      var i := LineEnd(s);
      if i == |s| {
        assert s[..i] == s;
        RemoveBoundariesOfLine(s);
        assert Concat([s]) == s + "";
      } else {
        var rest := s[i + BoundaryLength(s, i)..];
        ConcatFirstLine(s);
        RemoveBoundariesFirstLine(s);
        SplitLinesKeepsText(rest);
      }
    }
  }

  /** The first line of a text that goes on past it, laid before the rest. */
  lemma {:induction false} ConcatFirstLine(s: string)
    requires s != [] && LineEnd(s) < |s|
    ensures Concat(SplitLines(s)) == s[..LineEnd(s)] + Concat(SplitLines(s[LineEnd(s) + BoundaryLength(s, LineEnd(s))..]))
  {
    var i := LineEnd(s);
    var rest := SplitLines(s[i + BoundaryLength(s, i)..]);
    assert SplitLines(s) == [s[..i]] + rest;
    assert ([s[..i]] + rest)[1..] == rest;
  }

  /** Removing boundaries keeps the first line and drops the break after it. */
  lemma {:induction false} RemoveBoundariesFirstLine(s: string)
    requires s != [] && LineEnd(s) < |s|
    ensures RemoveBoundaries(s) == s[..LineEnd(s)] + RemoveBoundaries(s[LineEnd(s) + BoundaryLength(s, LineEnd(s))..])
  {
    var i := LineEnd(s);
    var n := BoundaryLength(s, i);
    var line, brk, rest := s[..i], s[i..i + n], s[i + n..];
    assert s == line + brk + rest;
    RemoveBoundariesOfLine(line);
    RemoveBoundariesOfBreak(s, i);
    RemoveBoundariesAppend(line, brk);
    RemoveBoundariesAppend(line + brk, rest);
  }

  /** Three lines joined with "\n" split back into those three lines. */
  lemma {:induction false} SplitThreeLines(a: string, b: string, c: string)
    requires NoLineBoundary(a) && NoLineBoundary(b) && NoLineBoundary(c) && c != []
    ensures SplitLines(a + "\n" + b + "\n" + c) == [a, b, c]
  {
    assert a + "\n" + b + "\n" + c == a + "\n" + (b + "\n" + c);
    SplitLinesAfterBreak(a, "\n", b + "\n" + c);
    SplitLinesAfterBreak(b, "\n", c);
    SplitLinesSingle(c);
  }

  /** Python's `sep.join(parts)`: the parts with `sep` between neighbours
      and nowhere else. */
  function Join(sep: string, parts: seq<string>): string
    decreases |parts|
  {
    if parts == [] then ""
    else if |parts| == 1 then parts[0]
    else parts[0] + sep + Join(sep, parts[1..])
  }

  /** Splitting undoes joining with "\n", for boundary-free lines whose
      last one is not empty. */
  lemma {:induction false} JoinLinesRoundTrip(lines: seq<string>)
    requires forall k :: 0 <= k < |lines| ==> NoLineBoundary(lines[k])
    requires lines != [] ==> lines[|lines| - 1] != []
    ensures SplitLines(Join("\n", lines)) == lines
    decreases |lines|
  {
    if |lines| == 1 {
      SplitLinesSingle(lines[0]);
    } else if |lines| > 1 {
      var rest := lines[1..];
      assert rest[|rest| - 1] == lines[|lines| - 1];
      JoinLinesRoundTrip(rest);
      SplitLinesAfterBreak(lines[0], "\n", Join("\n", rest));
    }
  }

  /** The parts with an empty line between neighbours. */
  function Spaced(parts: seq<string>): seq<string>
    decreases |parts|
  {
    if |parts| <= 1 then parts
    else [parts[0], ""] + Spaced(parts[1..])
  }

  /** Joining with a blank line ("\n\n") is joining with "\n" after an
      empty line has been put between neighbours. */
  lemma {:induction false} JoinBlankLineIsSpaced(parts: seq<string>)
    ensures Join("\n\n", parts) == Join("\n", Spaced(parts))
    decreases |parts|
  {
    if |parts| > 1 {
      var rest := parts[1..];
      JoinBlankLineIsSpaced(rest);
      var j := Join("\n", Spaced(rest));
      assert Spaced(rest) != [];
      assert Spaced(parts) == [parts[0]] + ([""] + Spaced(rest));
      assert Join("\n", [""] + Spaced(rest)) == "" + "\n" + j;
      assert Join("\n", Spaced(parts)) == parts[0] + "\n" + ("" + "\n" + j);
    }
  }

  /** Spacing keeps the last part last (and adds nothing to an empty list). */
  lemma {:induction false} SpacedLast(parts: seq<string>)
    ensures |Spaced(parts)| == if parts == [] then 0 else 2 * |parts| - 1
    ensures parts != [] ==> Spaced(parts)[|Spaced(parts)| - 1] == parts[|parts| - 1]
    decreases |parts|
  {
    if |parts| > 1 {
      SpacedLast(parts[1..]);
    }
  }

  /** Splitting a blank-line-joined text gives back the parts, each
      followed by one empty line except the last: no part is lost, none
      is changed, and the only empty lines are the separators. */
  lemma {:induction false} SplitBlankLineJoin(parts: seq<string>)
    requires forall k :: 0 <= k < |parts| ==> parts[k] != [] && NoLineBoundary(parts[k])
    ensures SplitLines(Join("\n\n", parts)) == Spaced(parts)
  {
    JoinBlankLineIsSpaced(parts);
    SpacedLast(parts);
    SpacedBoundaryFree(parts);
    var lines := Spaced(parts);
    assert lines != [] ==> lines[|lines| - 1] == parts[|parts| - 1] != [];
    JoinLinesRoundTrip(lines);
  }

  /** A heading line, a blank line, then blank-line-joined parts: splitting
      gives the heading, the blank line and the spaced parts. */
  lemma {:induction false} SplitHeadedBlankLineJoin(head: string, parts: seq<string>)
    requires NoLineBoundary(head)
    requires forall k :: 0 <= k < |parts| ==> parts[k] != [] && NoLineBoundary(parts[k])
    ensures SplitLines(head + "\n\n" + Join("\n\n", parts)) == [head, ""] + Spaced(parts)
  {
    var j := Join("\n\n", parts);
    var rest := "\n" + j;
    var full := head + "\n\n" + j;
    assert SplitLines(rest) == [""] + Spaced(parts) by {
      SplitBlankLineJoin(parts);
      assert rest == "" + "\n" + j;
      SplitLinesAfterBreak("", "\n", j);
    }
    assert SplitLines(full) == [head] + SplitLines(rest) by {
      assert full == head + "\n" + rest;
      SplitLinesAfterBreak(head, "\n", rest);
    }
  }

  /** Spacing boundary-free parts yields boundary-free lines. */
  lemma {:induction false} SpacedBoundaryFree(parts: seq<string>)
    requires forall k :: 0 <= k < |parts| ==> NoLineBoundary(parts[k])
    ensures forall k :: 0 <= k < |Spaced(parts)| ==> NoLineBoundary(Spaced(parts)[k])
    decreases |parts|
  {
    if |parts| > 1 {
      SpacedBoundaryFree(parts[1..]);
    }
  }
}
