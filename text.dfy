/**
 * The few Python string operations the parsers and writers are built from:
 * str.isspace, str.strip, str.splitlines, the `in` test on strings, str.find,
 * str.split() on whitespace, str.split(sep), str.split(sep, 1), str.join,
 * str.startswith, str.removesuffix and ASCII str.lower / str.upper.
 */
module Text {
  import opened Wrappers

  /** The characters Python's str.isspace() accepts. */
  predicate IsSpace(c: char) {
    ('\t' <= c <= '\r') || ('\U{1C}' <= c <= ' ') || c == '\U{85}' || c == '\U{A0}'
    || c == '\U{1680}' || ('\U{2000}' <= c <= '\U{200A}') || c == '\U{2028}' || c == '\U{2029}'
    || c == '\U{202F}' || c == '\U{205F}' || c == '\U{3000}'
  }

  /** The characters at which Python's str.splitlines() ends a line ("\r\n" counts as one boundary). */
  predicate IsLineBreak(c: char) {
    ('\n' <= c <= '\r') || ('\U{1C}' <= c <= '\U{1E}') || c == '\U{85}' || c == '\U{2028}' || c == '\U{2029}'
  }

  predicate NoSpace(s: string) {
    forall i :: 0 <= i < |s| ==> !IsSpace(s[i])
  }

  predicate NoLineBreak(s: string) {
    forall i :: 0 <= i < |s| ==> !IsLineBreak(s[i])
  }

  /** A string with no leading and no trailing whitespace. */
  predicate IsStripped(s: string) {
    s == [] || (!IsSpace(s[0]) && !IsSpace(s[|s| - 1]))
  }

  function TrimLeft(s: string): (r: string)
    ensures |r| <= |s|
    ensures forall i :: 0 <= i < |s| - |r| ==> IsSpace(s[i])
    ensures r == [] || !IsSpace(r[0])
    decreases |s|
  {
    if s != [] && IsSpace(s[0]) then TrimLeft(s[1..]) else s
  }

  function TrimRight(s: string): (r: string)
    ensures |r| <= |s|
    ensures forall i :: |r| <= i < |s| ==> IsSpace(s[i])
    ensures r == [] || !IsSpace(r[|r| - 1])
    decreases |s|
  {
    if s != [] && IsSpace(s[|s| - 1]) then TrimRight(s[..|s| - 1]) else s
  }

  /** TrimLeft keeps a suffix of its argument. */
  lemma {:induction false} TrimLeftSuffix(s: string)
    ensures TrimLeft(s) == s[|s| - |TrimLeft(s)|..]
    decreases |s|
  {
    if s != [] && IsSpace(s[0]) {
      TrimLeftSuffix(s[1..]);
    }
  }

  /** TrimRight keeps a prefix of its argument. */
  lemma {:induction false} TrimRightPrefix(s: string)
    ensures TrimRight(s) == s[..|TrimRight(s)|]
    decreases |s|
  {
    if s != [] && IsSpace(s[|s| - 1]) {
      TrimRightPrefix(s[..|s| - 1]);
    }
  }

  /** Python's str.strip(): the string without its leading and trailing whitespace. */
  function Strip(s: string): (r: string)
    ensures IsStripped(r)
    ensures |r| <= |s|
  {
    TrimRightPrefix(TrimLeft(s));
    TrimRight(TrimLeft(s))
  }

  /**
   * The stripped string is a slice of the original, and what is cut off before and after it
   * is whitespace only.
   */
  lemma StripSlice(s: string) returns (a: nat)
    ensures a + |Strip(s)| <= |s| && Strip(s) == s[a..a + |Strip(s)|]
    ensures forall i :: 0 <= i < a ==> IsSpace(s[i])
    ensures forall i :: a + |Strip(s)| <= i < |s| ==> IsSpace(s[i])
  {
    var l := TrimLeft(s);
    var r := TrimRight(l);
    a := |s| - |l|;
    TrimLeftSuffix(s);
    TrimRightPrefix(l);
    ShiftedPrefix(s, l, r, a);
  }

  /** A prefix r of the suffix l = s[a..], whose rest is whitespace, is a slice of s followed by whitespace. */
  lemma ShiftedPrefix(s: string, l: string, r: string, a: nat)
    requires a <= |s| && l == s[a..] && |r| <= |l| && r == l[..|r|]
    requires forall i :: |r| <= i < |l| ==> IsSpace(l[i])
    ensures r == s[a..a + |r|]
    ensures forall i :: a + |r| <= i < |s| ==> IsSpace(s[i])
  {
    forall i | a + |r| <= i < |s|
      ensures IsSpace(s[i])
    {
      assert s[i] == l[i - a];
    }
  }

  lemma StripStripped(s: string)
    requires IsStripped(s)
    ensures Strip(s) == s
  {
  }

  /** Leading whitespace does not change the stripped string. */
  lemma StripLeadingSpace(c: char, s: string)
    requires IsSpace(c)
    ensures Strip([c] + s) == Strip(s)
  {
    assert ([c] + s)[1..] == s;
  }

  /** A trailing space after a stripped string is stripped off. */
  lemma StripTrailingSpace(s: string, c: char)
    requires s != [] && IsStripped(s) && IsSpace(c)
    ensures Strip(s + [c]) == s
  {
    var t := s + [c];
    assert t[0] == s[0];
    assert TrimLeft(t) == t;
    assert t[..|t| - 1] == s;
    assert TrimRight(t) == TrimRight(s);
    assert TrimRight(s) == s;
  }

  lemma StripIdempotent(s: string)
    ensures Strip(Strip(s)) == Strip(s)
  {
    StripStripped(Strip(s));
  }

  lemma NoLineBreakConcat(x: string, y: string)
    requires NoLineBreak(x) && NoLineBreak(y)
    ensures NoLineBreak(x + y)
  {
    forall i | 0 <= i < |x + y| ensures !IsLineBreak((x + y)[i]) {
      if i >= |x| {
        assert (x + y)[i] == y[i - |x|];
      }
    }
  }

  lemma StripKeepsNoLineBreak(s: string)
    requires NoLineBreak(s)
    ensures NoLineBreak(Strip(s))
  {
    var r := Strip(s);
    var a := StripSlice(s);
    forall i | 0 <= i < |r| ensures !IsLineBreak(r[i]) {
      assert r[i] == s[a + i];
    }
  }

  predicate MatchAt(s: string, sub: string, j: nat) {
    j + |sub| <= |s| && s[j..j + |sub|] == sub
  }

  /** Python's `sub in s`: sub occurs at some position of s. */
  predicate Contains(s: string, sub: string) {
    exists j :: 0 <= j <= |s| && MatchAt(s, sub, j)
  }

  lemma ContainsAt(s: string, sub: string, j: nat)
    requires MatchAt(s, sub, j)
    ensures Contains(s, sub)
  {
  }

  lemma ContainsWitness(s: string, sub: string) returns (j: nat)
    requires Contains(s, sub)
    ensures MatchAt(s, sub, j)
  {
    j :| 0 <= j <= |s| && MatchAt(s, sub, j);
  }

  lemma ContainsExtends(a: string, s: string, b: string, sub: string)
    requires Contains(s, sub)
    ensures Contains(a + s + b, sub)
  {
    var j := ContainsWitness(s, sub);
    assert (a + s + b)[|a| + j..|a| + j + |sub|] == s[j..j + |sub|];
    assert MatchAt(a + s + b, sub, |a| + j);
    ContainsAt(a + s + b, sub, |a| + j);
  }

  /** A string that lacks one of the characters of sub does not contain sub. */
  lemma NotContainsMissingChar(s: string, sub: string, c: char)
    requires c in sub && c !in s
    ensures !Contains(s, sub)
  {
  }

  lemma ContainsChar(s: string, c: char)
    ensures Contains(s, [c]) <==> c in s
  {
    if c in s {
      var j :| 0 <= j < |s| && s[j] == c;
      assert s[j..j + 1] == [c];
      assert MatchAt(s, [c], j);
      ContainsAt(s, [c], j);
    }
    if Contains(s, [c]) {
      var j := ContainsWitness(s, [c]);
      assert s[j] == s[j..j + 1][0];
    }
  }

  predicate StartsWith(s: string, prefix: string) {
    |prefix| <= |s| && s[..|prefix|] == prefix
  }

  predicate EndsWith(s: string, suffix: string) {
    |suffix| <= |s| && s[|s| - |suffix|..] == suffix
  }

  /** Python's str.removesuffix. */
  function RemoveSuffix(s: string, suffix: string): (r: string)
    ensures EndsWith(s, suffix) ==> |r| + |suffix| == |s|
    ensures !EndsWith(s, suffix) ==> r == s
  {
    if EndsWith(s, suffix) then s[..|s| - |suffix|] else s
  }

  /** The removed suffix put back gives the string again. */
  lemma RemoveSuffixJoin(s: string, suffix: string)
    requires EndsWith(s, suffix)
    ensures RemoveSuffix(s, suffix) + suffix == s
  {
    assert s == s[..|s| - |suffix|] + s[|s| - |suffix|..];
  }

  function LowerChar(c: char): char {
    if 'A' <= c <= 'Z' then (c as int + 32) as char else c
  }

  function UpperChar(c: char): char {
    if 'a' <= c <= 'z' then (c as int - 32) as char else c
  }

  /** Python's str.lower() on ASCII letters. */
  function Lower(s: string): (r: string)
    ensures |r| == |s| && forall i :: 0 <= i < |s| ==> r[i] == LowerChar(s[i])
  {
    seq(|s|, i requires 0 <= i < |s| => LowerChar(s[i]))
  }

  /** Python's str.upper() on ASCII letters. */
  function Upper(s: string): (r: string)
    ensures |r| == |s| && forall i :: 0 <= i < |s| ==> r[i] == UpperChar(s[i])
  {
    seq(|s|, i requires 0 <= i < |s| => UpperChar(s[i]))
  }

  /** Python's sep.join(parts). */
  function Join(sep: string, parts: seq<string>): string
    decreases |parts|
  {
    if |parts| == 0 then ""
    else if |parts| == 1 then parts[0]
    else parts[0] + sep + Join(sep, parts[1..])
  }

  function SpaceIndex(s: string): (k: nat)
    ensures k <= |s| && NoSpace(s[..k])
    ensures k < |s| ==> IsSpace(s[k])
  {
    if s == [] || IsSpace(s[0]) then 0 else 1 + SpaceIndex(s[1..])
  }

  /** Python's str.split() with no separator: the maximal runs of non-whitespace characters. */
  function Words(s: string): (r: seq<string>)
    ensures forall k :: 0 <= k < |r| ==> r[k] != [] && NoSpace(r[k])
    decreases |s|
  {
    var t := TrimLeft(s);
    if t == [] then []
    else
      var k := SpaceIndex(t);
      [t[..k]] + Words(t[k..])
  }

  lemma WordsSkipSpace(c: char, s: string)
    requires IsSpace(c)
    ensures Words([c] + s) == Words(s)
  {
    assert ([c] + s)[1..] == s;
  }

  lemma SpaceIndexOfWord(w: string, rest: string)
    requires NoSpace(w)
    requires rest == [] || IsSpace(rest[0])
    ensures SpaceIndex(w + rest) == |w|
    decreases |w|
  {
    if w != [] {
      assert (w + rest)[1..] == w[1..] + rest;
      SpaceIndexOfWord(w[1..], rest);
    }
  }

  lemma WordsOfWordThen(w: string, rest: string)
    requires w != [] && NoSpace(w)
    requires rest == [] || IsSpace(rest[0])
    ensures Words(w + rest) == [w] + Words(rest)
  {
    SpaceIndexOfWord(w, rest);
    assert TrimLeft(w + rest) == w + rest;
    assert (w + rest)[..|w|] == w;
    assert (w + rest)[|w|..] == rest;
  }

  /** Non-empty tokens without whitespace: what str.split() returns. */
  predicate AreWords(words: seq<string>) {
    forall k :: 0 <= k < |words| ==> words[k] != [] && NoSpace(words[k])
  }

  lemma JoinStartsWithWord(sep: char, words: seq<string>)
    requires AreWords(words) && |words| > 0
    ensures var j := Join([sep], words); j != [] && !IsSpace(j[0])
  {
    if |words| > 1 {
      assert Join([sep], words)[0] == words[0][0];
    }
  }

  lemma {:induction false} JoinEndsWithWord(sep: char, words: seq<string>)
    requires AreWords(words) && |words| > 0
    ensures var j := Join([sep], words); j != [] && !IsSpace(j[|j| - 1])
    decreases |words|
  {
    if |words| > 1 {
      JoinEndsWithWord(sep, words[1..]);
      var rest := Join([sep], words[1..]);
      var j := words[0] + [sep] + rest;
      assert j[|j| - 1] == rest[|rest| - 1];
    }
  }

  /** A property of every character of the separator and of the parts holds of every character of the join. */
  lemma {:induction false} JoinChars(sep: string, parts: seq<string>, p: char -> bool)
    requires forall i :: 0 <= i < |sep| ==> p(sep[i])
    requires forall k, i :: 0 <= k < |parts| && 0 <= i < |parts[k]| ==> p(parts[k][i])
    ensures forall i :: 0 <= i < |Join(sep, parts)| ==> p(Join(sep, parts)[i])
    decreases |parts|
  {
    if |parts| > 1 {
      JoinChars(sep, parts[1..], p);
      var rest := Join(sep, parts[1..]);
      var j := parts[0] + sep + rest;
      forall i | 0 <= i < |j| ensures p(j[i]) {
        if i < |parts[0]| {
          assert j[i] == parts[0][i];
        } else if i < |parts[0]| + |sep| {
          assert j[i] == sep[i - |parts[0]|];
        } else {
          assert j[i] == rest[i - |parts[0]| - |sep|];
        }
      }
    }
  }

  lemma WordsOfJoinStep(sep: char, words: seq<string>)
    requires IsSpace(sep)
    requires |words| > 1 && words[0] != [] && NoSpace(words[0])
    requires Words(Join([sep], words[1..])) == words[1..]
    ensures Words(Join([sep], words)) == words
  {
    var w := words[0];
    var rest := Join([sep], words[1..]);
    assert Join([sep], words) == w + ([sep] + rest);
    WordsOfWordThen(w, [sep] + rest);
    WordsSkipSpace(sep, rest);
    assert [w] + words[1..] == words;
  }

  /** Splitting a separator-joined list of words on whitespace gives the words back. */
  lemma {:induction false} WordsOfJoin(sep: char, words: seq<string>)
    requires IsSpace(sep)
    requires AreWords(words)
    ensures Words(Join([sep], words)) == words
    decreases |words|
  {
    if |words| == 0 {
      assert TrimLeft("") == "";
    } else if |words| == 1 {
      WordsOfWordThen(words[0], "");
      assert words[0] + "" == words[0];
      assert TrimLeft("") == "";
    } else {
      assert AreWords(words[1..]);
      WordsOfJoin(sep, words[1..]);
      WordsOfJoinStep(sep, words);
    }
  }

  function LineBreakIndex(s: string): (k: nat)
    ensures k <= |s| && NoLineBreak(s[..k])
    ensures k < |s| ==> IsLineBreak(s[k])
  {
    if s == [] || IsLineBreak(s[0]) then 0 else 1 + LineBreakIndex(s[1..])
  }

  /**
   * Python's str.splitlines(): the lines without their line boundaries; a boundary at the
   * very end does not start another line, and "\r\n" is a single boundary.
   */
  function SplitLines(s: string): (r: seq<string>)
    ensures forall k :: 0 <= k < |r| ==> NoLineBreak(r[k])
    ensures |r| <= |s|
    decreases |s|
  {
    if s == [] then []
    else
      var k := LineBreakIndex(s);
      if k == |s| then [s]
      else
        var next := if s[k] == '\r' && k + 1 < |s| && s[k + 1] == '\n' then k + 2 else k + 1;
        [s[..k]] + SplitLines(s[next..])
  }

  lemma LineBreakIndexOfLine(l: string, rest: string)
    requires NoLineBreak(l)
    ensures LineBreakIndex(l + "\n" + rest) == |l|
    decreases |l|
  {
    if l != [] {
      assert (l + "\n" + rest)[1..] == l[1..] + "\n" + rest;
      LineBreakIndexOfLine(l[1..], rest);
    }
  }

  /** Lines without boundaries, none of them empty, joined with "\n" split back into the same lines. */
  lemma {:induction false} SplitLinesOfJoin(lines: seq<string>)
    requires forall k :: 0 <= k < |lines| ==> lines[k] != [] && NoLineBreak(lines[k])
    ensures SplitLines(Join("\n", lines)) == lines
    decreases |lines|
  {
    if |lines| == 1 {
      assert LineBreakIndex(lines[0]) == |lines[0]|;
    } else if |lines| > 1 {
      var l := lines[0];
      var rest := Join("\n", lines[1..]);
      assert Join("\n", lines) == l + "\n" + rest;
      LineBreakIndexOfLine(l, rest);
      var s := l + "\n" + rest;
      assert s[..|l|] == l;
      assert s[|l| + 1..] == rest;
      SplitLinesOfJoin(lines[1..]);
      assert [l] + lines[1..] == lines;
    }
  }

  function CharIndex(s: string, c: char): (k: nat)
    ensures k <= |s| && c !in s[..k]
    ensures k < |s| ==> s[k] == c
  {
    if s == [] || s[0] == c then 0 else 1 + CharIndex(s[1..], c)
  }

  /** Python's s.split(c) for a one-character separator: always at least one part. */
  function SplitChar(s: string, c: char): (r: seq<string>)
    ensures |r| >= 1
    decreases |s|
  {
    var k := CharIndex(s, c);
    if k == |s| then [s] else [s[..k]] + SplitChar(s[k + 1..], c)
  }

  /** Python's s.split(c, 1) for a one-character separator: the text before and after the first c, if any. */
  function SplitOnce(s: string, c: char): (r: Option<(string, string)>)
    ensures r.Some? <==> c in s
    ensures r.Some? ==> c !in r.value.0
  {
    var k := CharIndex(s, c);
    assert k == |s| ==> s[..k] == s;
    if k == |s| then None else Some((s[..k], s[k + 1..]))
  }

  /** The two parts with the separator between them are the whole string. */
  lemma SplitOnceJoin(s: string, c: char)
    requires c in s
    ensures SplitOnce(s, c).value.0 + [c] + SplitOnce(s, c).value.1 == s
  {
    var k := CharIndex(s, c);
    assert s == s[..k] + [c] + s[k + 1..];
  }

  /** The split is at the first separator: text before it without the separator comes back whole. */
  lemma SplitOnceOf(a: string, c: char, b: string)
    requires c !in a
    ensures SplitOnce(a + [c] + b, c) == Some((a, b))
  {
    var s := a + [c] + b;
    var k := CharIndex(s, c);
    assert s[|a|] == c;
    assert s[..|a|] == a;
    assert k == |a|;
    assert s[..k] == a;
    assert s[k + 1..] == b;
  }

  /** s.split(c) has a second part exactly when c occurs in s. */
  lemma SplitCharParts(s: string, c: char)
    ensures |SplitChar(s, c)| >= 2 <==> c in s
  {
    var k := CharIndex(s, c);
    if k == |s| {
      assert s[..k] == s;
    }
  }

  /** Splitting a + [c] + b, with no c in a or b, gives the two parts. */
  /** Splitting at c where the first c follows a gives a, then the parts of the rest. */
  lemma SplitCharFirst(a: string, c: char, b: string)
    requires c !in a
    ensures SplitChar(a + [c] + b, c) == [a] + SplitChar(b, c)
  {
    var s := a + [c] + b;
    var k := CharIndex(s, c);
    assert s[|a|] == c;
    assert k == |a|;
    assert s[..k] == a && s[k + 1..] == b;
  }

  /** Splitting a c-joined list of parts without c gives the parts back. */
  lemma {:induction false} SplitCharJoin(c: char, parts: seq<string>)
    requires |parts| >= 1 && forall k :: 0 <= k < |parts| ==> c !in parts[k]
    ensures SplitChar(Join([c], parts), c) == parts
    decreases |parts|
  {
    if |parts| == 1 {
      SplitCharParts(parts[0], c);
    } else {
      SplitCharJoin(c, parts[1..]);
      assert Join([c], parts) == parts[0] + [c] + Join([c], parts[1..]);
      SplitCharFirst(parts[0], c, Join([c], parts[1..]));
      assert [parts[0]] + parts[1..] == parts;
    }
  }

  lemma SplitCharOf(a: string, c: char, b: string)
    requires c !in a && c !in b
    ensures SplitChar(a + [c] + b, c) == [a, b]
  {
    var s := a + [c] + b;
    SplitOnceOf(a, c, b);
    var k := CharIndex(s, c);
    assert s[..k] == a && s[k + 1..] == b;
    SplitCharParts(b, c);
    assert SplitChar(b, c) == [b];
  }

  /** A character found in neither the separator nor the parts is not in the joined string. */
  lemma {:induction false} JoinAvoids(sep: string, parts: seq<string>, c: char)
    requires c !in sep && forall k :: 0 <= k < |parts| ==> c !in parts[k]
    ensures c !in Join(sep, parts)
    decreases |parts|
  {
    if |parts| > 1 {
      JoinAvoids(sep, parts[1..], c);
    }
  }

  /** The text a file holds after writing each line followed by "\n". */
  function Unlines(lines: seq<string>): string
    decreases |lines|
  {
    if lines == [] then "" else lines[0] + "\n" + Unlines(lines[1..])
  }

  /** Reading back lines written one per "\n" gives the same lines. */
  lemma {:induction false} SplitLinesOfUnlines(lines: seq<string>)
    requires forall k :: 0 <= k < |lines| ==> NoLineBreak(lines[k])
    ensures SplitLines(Unlines(lines)) == lines
    decreases |lines|
  {
    if lines != [] {
      var l := lines[0];
      var rest := Unlines(lines[1..]);
      LineBreakIndexOfLine(l, rest);
      var s := l + "\n" + rest;
      assert s[..|l|] == l;
      assert s[|l| + 1..] == rest;
      SplitLinesOfUnlines(lines[1..]);
      assert [l] + lines[1..] == lines;
    }
  }

  /** Writing one more line appends it and its newline to the text. */
  lemma {:induction false} UnlinesAppend(lines: seq<string>, l: string)
    ensures Unlines(lines + [l]) == Unlines(lines) + l + "\n"
    decreases |lines|
  {
    if lines == [] {
      assert [] + [l] == [l];
      assert [l][1..] == [];
    } else {
      assert (lines + [l])[1..] == lines[1..] + [l];
      UnlinesAppend(lines[1..], l);
    }
  }

  /** Writing line j of `lines` after the first j extends the text of the prefix by one line. */
  lemma UnlinesPrefixStep(lines: seq<string>, j: nat)
    requires j < |lines|
    ensures Unlines(lines[..j + 1]) == Unlines(lines[..j]) + lines[j] + "\n"
  {
    assert lines[..j + 1] == lines[..j] + [lines[j]];
    UnlinesAppend(lines[..j], lines[j]);
  }

  /** Writing two runs of lines one after the other gives the two texts one after the other. */
  lemma {:induction false} UnlinesConcat(a: seq<string>, b: seq<string>)
    ensures Unlines(a + b) == Unlines(a) + Unlines(b)
    decreases |a|
  {
    if a == [] {
      assert a + b == b;
    } else {
      assert (a + b)[1..] == a[1..] + b;
      UnlinesConcat(a[1..], b);
    }
  }

  /** Lines joined by "\n" and ended by one more "\n" are the lines written one by one. */
  lemma {:induction false} JoinLinesUnlines(lines: seq<string>)
    requires lines != []
    ensures Join("\n", lines) + "\n" == Unlines(lines)
    decreases |lines|
  {
    if |lines| == 1 {
      assert lines[1..] == [];
    } else {
      JoinLinesUnlines(lines[1..]);
    }
  }

  /** str.find(sub) made total: the first position where sub occurs, or |s| when it does not. */
  function Find(s: string, sub: string): (k: nat)
    ensures k <= |s|
    ensures k < |s| ==> MatchAt(s, sub, k)
    ensures forall j :: 0 <= j < k ==> !MatchAt(s, sub, j)
    decreases |s|
  {
    if s == [] || MatchAt(s, sub, 0) then 0
    else
      var k := 1 + Find(s[1..], sub);
      assert forall j :: 1 <= j <= |s| ==> (MatchAt(s, sub, j) <==> MatchAt(s[1..], sub, j - 1)) by {
        forall j | 1 <= j <= |s| ensures MatchAt(s, sub, j) <==> MatchAt(s[1..], sub, j - 1) {
          if j + |sub| <= |s| {
            assert s[1..][j - 1..j - 1 + |sub|] == s[j..j + |sub|];
          }
        }
      }
      k
  }

  /** For a non-empty sub, `sub in s` holds exactly when find finds it. */
  lemma FindContains(s: string, sub: string)
    requires sub != []
    ensures Contains(s, sub) <==> Find(s, sub) < |s|
  {
    if Find(s, sub) < |s| {
      ContainsAt(s, sub, Find(s, sub));
    }
  }

  /** `s.split(sub)[0]`: the text before the first occurrence of sub, all of s without one. */
  function Before(s: string, sub: string): (r: string)
    ensures |r| <= |s|
  {
    s[..Find(s, sub)]
  }
}
