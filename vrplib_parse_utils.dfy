/** Line cleaning of the current parser (vrplib/parse/parse_utils.py). */
module VrplibParseUtils {
  import opened Text
  import opened Lists

  /** A stripped line that text2lines keeps: non-empty and not a comment. */
  predicate IsKept(t: string) {
    t != [] && t[0] != '#'
  }

  /** A line as text2lines returns it. */
  predicate IsCleanLine(t: string) {
    IsKept(t) && IsStripped(t) && NoLineBreak(t)
  }

  /** The filter of text2lines over already split lines: strip each line, keep the non-comment, non-empty ones. */
  function CleanLines(lines: seq<string>): (r: seq<string>)
    ensures |r| <= |lines|
    ensures forall k :: 0 <= k < |r| ==> IsKept(r[k]) && IsStripped(r[k])
  {
    KeepMappedAll(lines, Strip, IsKept, IsStripped);
    KeepMapped(lines, Strip, IsKept)
  }

  /** text2lines: the stripped, non-empty, non-comment lines of a text, in order. */
  function Text2Lines(text: string): (r: seq<string>)
    ensures forall k :: 0 <= k < |r| ==> IsCleanLine(r[k])
    ensures |r| <= |SplitLines(text)|
  {
    var lines := SplitLines(text);
    var r := CleanLines(lines);
    assert forall k :: 0 <= k < |r| ==> NoLineBreak(r[k]) by {
      forall i | 0 <= i < |lines| ensures NoLineBreak(Strip(lines[i])) {
        StripKeepsNoLineBreak(lines[i]);
      }
      KeepMappedAll(lines, Strip, IsKept, NoLineBreak);
    }
    r
  }

  /**
   * text2lines keeps exactly the lines whose stripped form is non-empty and not a comment,
   * stripped, in their original order.
   */
  lemma Text2LinesSelects(text: string) returns (idx: seq<nat>)
    ensures var lines := SplitLines(text);
      && |idx| == |Text2Lines(text)| && StrictlyIncreasing(idx)
      && (forall m :: 0 <= m < |idx| ==> idx[m] < |lines| && Text2Lines(text)[m] == Strip(lines[idx[m]]))
      && (forall i :: 0 <= i < |lines| && IsKept(Strip(lines[i])) ==> i in idx)
  {
    idx := KeepMappedSelects(SplitLines(text), Strip, IsKept);
  }

  /** text2lines is idempotent: joining its lines with newlines and cleaning again changes nothing. */
  lemma Text2LinesIdempotent(text: string)
    ensures Text2Lines(Join("\n", Text2Lines(text))) == Text2Lines(text)
  {
    var r := Text2Lines(text);
    SplitLinesOfJoin(r);
    forall k | 0 <= k < |r| ensures Strip(r[k]) == r[k] {
      StripStripped(r[k]);
    }
    KeepMappedFixed(r, Strip, IsKept);
  }

  /** Clean lines written one per line are read back unchanged. */
  lemma Text2LinesOfUnlines(lines: seq<string>)
    requires forall k :: 0 <= k < |lines| ==> IsCleanLine(lines[k])
    ensures Text2Lines(Unlines(lines)) == lines
  {
    SplitLinesOfUnlines(lines);
    forall k | 0 <= k < |lines| ensures Strip(lines[k]) == lines[k] {
      StripStripped(lines[k]);
    }
    KeepMappedFixed(lines, Strip, IsKept);
  }

  /** Empty text has no lines. */
  lemma Text2LinesEmpty()
    ensures Text2Lines("") == []
  {
  }

  /** A lone newline gives no lines. */
  lemma Text2LinesNewline()
    ensures Text2Lines("\n") == []
  {
    assert LineBreakIndex("\n") == 0;
    assert "\n"[1..] == "";
    assert SplitLines("\n") == [""];
  }

  /** A comment after leading whitespace is still a comment. */
  lemma Text2LinesIndentedComment()
    ensures Text2Lines(" # comment") == []
  {
    var s := " # comment";
    OneLine(s);
    IndentedCommentStrip();
    CleanLinesCons(s, []);
  }

  lemma IndentedCommentStrip()
    ensures Strip(" # comment") == "# comment"
  {
    IndentedStrip(" # comment", "# comment");
  }

  lemma IndentedStrip(s: string, t: string)
    requires s == " # comment" && t == "# comment"
    ensures Strip(s) == t
  {
    StripLeadingSpace(' ', t);
    assert [' '] + t == s;
    StripStripped(t);
  }

  /** Data followed by a comment line keeps only the data. */
  lemma Text2LinesTrailingComment()
    ensures Text2Lines("123\n#comment") == ["123"]
  {
    TrailingCommentLines("123\n#comment");
  }

  // The example text is a parameter here so that the verifier does not evaluate the cleaner on
  // the literal text.
  lemma TrailingCommentLines(text: string)
    requires text == "123\n#comment"
    ensures Text2Lines(text) == ["123"]
  {
    assert text == "123" + "\n" + "#comment";
    StripStripped("123");
    StripStripped("#comment");
    KeptThenDropped("123", "#comment");
  }

  /** A line that is kept, a line break, then a line that is dropped: only the first line's text remains. */
  lemma KeptThenDropped(a: string, c: string)
    requires a != [] && c != [] && NoLineBreak(a) && NoLineBreak(c)
    requires IsKept(Strip(a)) && !IsKept(Strip(c))
    ensures Text2Lines(a + "\n" + c) == [Strip(a)]
  {
    assert Join("\n", [a, c]) == a + "\n" + c;
    SplitLinesOfJoin([a, c]);
    assert [a, c] == [a] + [c];
    assert [c] == [c] + [];
    CleanLinesCons(c, []);
    CleanLinesCons(a, [c]);
  }

  /** Cleaning works line by line. */
  lemma CleanLinesCons(l: string, rest: seq<string>)
    ensures CleanLines([l] + rest) == (if IsKept(Strip(l)) then [Strip(l)] else []) + CleanLines(rest)
  {
    assert ([l] + rest)[1..] == rest;
  }

  /** A text without line boundaries is one line. */
  lemma OneLine(s: string)
    requires s != [] && NoLineBreak(s)
    ensures SplitLines(s) == [s]
  {
    SplitLinesOfJoin([s]);
  }
}
