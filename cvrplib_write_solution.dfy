/**
 * write_solution of the earlier library (cvrplib/write/write_solution.py): one line per route,
 * numbered from 1, then one "key: value" line per keyword argument, each followed by "\n" and
 * with no EOF line. The file text is returned instead of written. Keyword arguments keep the
 * order they were passed in.
 */
module CvrplibWriteSolution {
  import opened Wrappers
  import opened Text
  import opened Tokens
  import opened Lists
  import opened VrplibParseSolution
  import VrplibWriteSolution
  import VrplibParseUtils
  import CvrplibParseUtils
  import CvrplibParseSolution

  /** `[str(s) for s in route]`. */
  function Shown(route: seq<int>): (r: seq<string>)
    ensures |r| == |route| && forall i :: 0 <= i < |route| ==> r[i] == IntToString(route[i])
  {
    seq(|route|, i requires 0 <= i < |route| => IntToString(route[i]))
  }

  function RouteHead(idx: nat): string {
    "Route #" + NatToString(idx)
  }

  /** `f"Route #{idx}: {' '.join([str(s) for s in route])}"`: an empty route leaves a trailing space. */
  function RouteLine(idx: nat, route: seq<int>): string {
    RouteHead(idx) + ": " + Join(" ", Shown(route))
  }

  /** Route idx on line idx - 1. */
  function RouteLines(routes: seq<seq<int>>): (r: seq<string>)
    ensures |r| == |routes| && forall k :: 0 <= k < |routes| ==> r[k] == RouteLine(k + 1, routes[k])
  {
    seq(|routes|, k requires 0 <= k < |routes| => RouteLine(k + 1, routes[k]))
  }

  /** The lines of the file: the route lines, then `f"{k}: {v}"` for each keyword argument. */
  function SolutionLines(routes: seq<seq<int>>, kwargs: seq<(string, Value)>, fmt: real -> string): seq<string> {
    RouteLines(routes) + VrplibWriteSolution.MetaLines(kwargs, fmt)
  }

  /** write_solution: the route loop, then the keyword loop, each line followed by "\n". */
  method WriteSolution(routes: seq<seq<int>>, kwargs: seq<(string, Value)>, fmt: real -> string) returns (text: string)
    ensures text == Unlines(SolutionLines(routes, kwargs, fmt))
  {
    text := WriteRoutes(routes);
    var more := VrplibWriteSolution.WriteEntries(kwargs, fmt);
    UnlinesConcat(RouteLines(routes), VrplibWriteSolution.MetaLines(kwargs, fmt));
    text := text + more;
  }

  /** The route loop: `f"Route #{idx}: ..."` for idx from 1, one line per route. */
  method WriteRoutes(routes: seq<seq<int>>) returns (text: string)
    ensures text == Unlines(RouteLines(routes))
  {
    ghost var lines := RouteLines(routes);
    text := "";
    for idx := 1 to |routes| + 1
      invariant text == Unlines(lines[..idx - 1])
    {
      var line := RouteLine(idx, routes[idx - 1]);
      UnlinesPrefixStep(lines, idx - 1);
      text := text + line + "\n";
    }
    assert lines[..|routes|] == lines;
  }

  /**
   * The file holds one line per route, in order and numbered from 1, then one line per keyword
   * argument in order, and nothing else: no section and no EOF line.
   */
  lemma SolutionLinesLayout(routes: seq<seq<int>>, kwargs: seq<(string, Value)>, fmt: real -> string)
    ensures var lines := SolutionLines(routes, kwargs, fmt);
      && |lines| == |routes| + |kwargs|
      && (forall k :: 0 <= k < |routes| ==> lines[k] == RouteLine(k + 1, routes[k]))
      && forall j :: 0 <= j < |kwargs| ==> lines[|routes| + j] == kwargs[j].0 + ": " + Show(kwargs[j].1, fmt)
  {
  }

  // ----- reading the written file back with the earlier solution reader -----

  /** A route as the reader types it. */
  function Values(route: seq<int>): (r: seq<Value>)
    ensures |r| == |route| && forall i :: 0 <= i < |route| ==> r[i] == I(route[i])
  {
    seq(|route|, i requires 0 <= i < |route| => I(route[i]))
  }

  /** The printed integer is a word of digits after an optional minus, which int() reads back. */
  lemma IntWord(n: int)
    ensures var t := IntToString(n);
      t != [] && NoSpace(t) && ':' !in t && NoLineBreak(t) && ParseInt(t) == Some(n)
  {
    var t := IntToString(n);
    IntReadsBack(n, x => "");
    var u := NatToString(if n < 0 then -n else n);
    assert forall i :: 0 <= i < |u| ==> IsDigit(u[i]);
    if n < 0 {
      assert t == "-" + u;
      assert forall i :: 1 <= i < |t| ==> t[i] == u[i - 1];
    }
  }

  /** The printed route is a list of words that int() reads back as the route. */
  lemma ShownWords(route: seq<int>)
    ensures var ws := Shown(route);
      && (forall k :: 0 <= k < |ws| ==> ws[k] != [] && ' ' !in ws[k] && ':' !in ws[k] && NoLineBreak(ws[k]))
      && AreWords(ws)
      && CvrplibParseSolution.IntTokens(ws) == Ok(Values(route))
  {
    var ws := Shown(route);
    forall k | 0 <= k < |ws| ensures ws[k] != [] && NoSpace(ws[k]) && ':' !in ws[k] && NoLineBreak(ws[k]) && ParseInt(ws[k]) == Some(route[k]) {
      IntWord(route[k]);
    }
    forall k | 0 <= k < |ws| ensures ' ' !in ws[k] {
      assert IsSpace(' ');
    }
    var r := CvrplibParseSolution.IntTokens(ws);
    assert r.Ok?;
    assert r.value == Values(route);
  }

  /** "Route #idx" is a route-line head with no colon and no line break. */
  lemma RouteHeadChars(idx: nat)
    ensures var h := RouteHead(idx);
      ':' !in h && NoLineBreak(h) && h[..5] == "Route" && IsStripped(h + ":")
  {
    var h := RouteHead(idx);
    var n := NatToString(idx);
    forall i | 0 <= i < |h| ensures h[i] != ':' && !IsLineBreak(h[i]) {
      if i >= 7 {
        assert h[i] == n[i - 7];
        assert IsDigit(n[i - 7]);
      }
    }
  }

  /**
   * A written route line, as the reader sees it once stripped, is a route line that is not blank
   * and reads back as exactly the route: an empty route loses its trailing space and reads as [].
   */
  lemma RouteLineRead(idx: nat, route: seq<int>)
    ensures NoLineBreak(RouteLine(idx, route))
    ensures var l := Strip(RouteLine(idx, route));
      l != [] && IsRouteLine(l) && CvrplibParseSolution.RouteVisits(l) == Ok(Values(route))
  {
    RouteLineChars(idx, route);
    if route == [] {
      EmptyRouteLineRead(idx);
    } else {
      FullRouteLineRead(idx, route);
    }
  }

  lemma RouteLineChars(idx: nat, route: seq<int>)
    ensures RouteLine(idx, route) == RouteHead(idx) + [':'] + ([' '] + Join([' '], Shown(route)))
    ensures NoLineBreak(RouteLine(idx, route))
  {
    var h := RouteHead(idx);
    var ws := Shown(route);
    var line := RouteLine(idx, route);
    RouteHeadChars(idx);
    ShownWords(route);
    var j := Join([' '], ws);
    assert line == h + [':'] + ([' '] + j);
    JoinChars([' '], ws, c => !IsLineBreak(c));
    assert NoLineBreak(j);
    NoLineBreakConcat(h, [':']);
    NoLineBreakConcat([' '], j);
    NoLineBreakConcat(h + [':'], [' '] + j);
  }

  /** The line of an empty route is stripped to "Route #idx:", which lists no visit. */
  lemma EmptyRouteLineRead(idx: nat)
    ensures Strip(RouteLine(idx, [])) == RouteHead(idx) + [':']
    ensures IsRouteLine(RouteHead(idx) + [':'])
    ensures CvrplibParseSolution.RouteVisits(RouteHead(idx) + [':']) == Ok([])
  {
    var h := RouteHead(idx);
    RouteHeadChars(idx);
    assert Join(" ", Shown([])) == [];
    assert RouteLine(idx, []) == (h + [':']) + [' '];
    StripTrailingSpace(h + [':'], ' ');
    var l := h + [':'];
    assert l[..5] == h[..5];
    assert MatchAt(l, "Route", 0);
    SplitCharOf(h, ':', []);
    assert l == h + [':'] + [];
    assert l[|h|] == ':';
    assert CvrplibParseSolution.RouteTokens([]) == [];
  }

  /** The line of a non-empty route is already stripped and lists exactly the route. */
  lemma FullRouteLineRead(idx: nat, route: seq<int>)
    requires route != []
    ensures Strip(RouteLine(idx, route)) == RouteLine(idx, route)
    ensures IsRouteLine(RouteLine(idx, route))
    ensures CvrplibParseSolution.RouteVisits(RouteLine(idx, route)) == Ok(Values(route))
  {
    var h := RouteHead(idx);
    var ws := Shown(route);
    var line := RouteLine(idx, route);
    RouteHeadChars(idx);
    ShownWords(route);
    RouteLineChars(idx, route);
    var j := Join([' '], ws);
    JoinEndsWithWord(' ', ws);
    assert line[|line| - 1] == j[|j| - 1];
    assert line[0] == 'R';
    StripStripped(line);
    assert line[..5] == h[..5];
    assert MatchAt(line, "Route", 0);
    CvrplibParseSolution.RouteVisitsOfLine(h, ws);
  }

  /** Each written route line is free of line breaks and not blank once stripped. */
  lemma CleanRouteLines(routes: seq<seq<int>>)
    ensures var a := RouteLines(routes);
      forall k :: 0 <= k < |routes| ==> NoLineBreak(a[k]) && Strip(a[k]) != []
  {
    forall k | 0 <= k < |routes| ensures NoLineBreak(RouteLines(routes)[k]) && Strip(RouteLines(routes)[k]) != [] {
      RouteLineRead(k + 1, routes[k]);
    }
  }

  /** What the reader makes of each written route line. */
  lemma WrittenRouteLines(routes: seq<seq<int>>)
    ensures var a := RouteLines(routes);
      forall k :: 0 <= k < |routes| ==>
        && NoLineBreak(a[k]) && Strip(a[k]) != []
        && CvrplibParseSolution.RouteOf(Strip(a[k])) == Some(Values(routes[k])) && !IsMetaLine(Strip(a[k]))
  {
    var a := RouteLines(routes);
    forall k | 0 <= k < |routes|
      ensures NoLineBreak(a[k]) && Strip(a[k]) != []
      ensures CvrplibParseSolution.RouteOf(Strip(a[k])) == Some(Values(routes[k])) && !IsMetaLine(Strip(a[k]))
    {
      RouteLineRead(k + 1, routes[k]);
    }
  }

  /** Each written keyword line is a metadata line keyed by the read key. */
  lemma WrittenMetaLines(kwargs: seq<(string, Value)>, fmt: real -> string)
    requires forall j :: 0 <= j < |kwargs| ==> VrplibWriteSolution.MetaReadable(kwargs[j].0, kwargs[j].1, fmt)
    ensures var b := VrplibWriteSolution.MetaLines(kwargs, fmt);
      forall j :: 0 <= j < |kwargs| ==> IsMetaLine(b[j]) && MetaKey(b[j]) == VrplibWriteSolution.ReadKey(kwargs[j].0)
  {
    var b := VrplibWriteSolution.MetaLines(kwargs, fmt);
    forall j | 0 <= j < |kwargs|
      ensures IsMetaLine(b[j]) && MetaKey(b[j]) == VrplibWriteSolution.ReadKey(kwargs[j].0)
    {
      VrplibWriteSolution.MetaLineRead(kwargs[j].0, kwargs[j].1, fmt);
    }
  }

  /** Each written keyword line is stripped, not blank and free of line breaks. */
  lemma CleanMetaLines(kwargs: seq<(string, Value)>, fmt: real -> string)
    requires forall j :: 0 <= j < |kwargs| ==> VrplibWriteSolution.MetaReadable(kwargs[j].0, kwargs[j].1, fmt)
    ensures var b := VrplibWriteSolution.MetaLines(kwargs, fmt);
      forall j :: 0 <= j < |kwargs| ==> NoLineBreak(b[j]) && Strip(b[j]) == b[j] && b[j] != []
  {
    forall j | 0 <= j < |kwargs|
      ensures NoLineBreak(VrplibWriteSolution.MetaLines(kwargs, fmt)[j])
      ensures Strip(VrplibWriteSolution.MetaLines(kwargs, fmt)[j]) == VrplibWriteSolution.MetaLines(kwargs, fmt)[j]
      ensures VrplibWriteSolution.MetaLines(kwargs, fmt)[j] != []
    {
      StripMetaLine(kwargs, fmt, j);
    }
  }

  lemma StripMetaLine(kwargs: seq<(string, Value)>, fmt: real -> string, j: nat)
    requires j < |kwargs| && VrplibWriteSolution.MetaReadable(kwargs[j].0, kwargs[j].1, fmt)
    ensures var line := VrplibWriteSolution.MetaLines(kwargs, fmt)[j];
      NoLineBreak(line) && Strip(line) == line && line != []
  {
    var line := VrplibWriteSolution.MetaLines(kwargs, fmt)[j];
    VrplibWriteSolution.MetaLineRead(kwargs[j].0, kwargs[j].1, fmt);
    StripStripped(line);
  }

  /**
   * Round trip with the earlier solution reader: the file written for any routes and for keyword
   * arguments that read back as themselves, with distinct read keys other than "routes", is read
   * as exactly those routes and, under each read key, its argument's value.
   */
  lemma WrittenSolutionReadBack(routes: seq<seq<int>>, kwargs: seq<(string, Value)>, fmt: real -> string)
    requires forall j :: 0 <= j < |kwargs| ==>
      VrplibWriteSolution.MetaReadable(kwargs[j].0, kwargs[j].1, fmt) && VrplibWriteSolution.ReadKey(kwargs[j].0) != "routes"
    requires forall i, j :: 0 <= i < j < |kwargs| ==> VrplibWriteSolution.ReadKey(kwargs[i].0) != VrplibWriteSolution.ReadKey(kwargs[j].0)
    ensures var r := CvrplibParseSolution.SolutionFor(Unlines(SolutionLines(routes, kwargs, fmt)));
      && r.Ok? && "routes" in r.value
      && r.value["routes"] == Routes(seq(|routes|, k requires 0 <= k < |routes| => Values(routes[k])))
      && forall j :: 0 <= j < |kwargs| ==>
        VrplibWriteSolution.ReadKey(kwargs[j].0) in r.value && r.value[VrplibWriteSolution.ReadKey(kwargs[j].0)] == Meta(kwargs[j].1)
  {
    var a := RouteLines(routes);
    var b := VrplibWriteSolution.MetaLines(kwargs, fmt);
    var values := seq(|routes|, k requires 0 <= k < |routes| => Values(routes[k]));
    var keys := seq(|kwargs|, j requires 0 <= j < |kwargs| => VrplibWriteSolution.ReadKey(kwargs[j].0));
    assert SolutionLines(routes, kwargs, fmt) == a + b;
    CleanRouteLines(routes);
    CleanMetaLines(kwargs, fmt);
    WrittenRouteLines(routes);
    WrittenMetaLines(kwargs, fmt);
    ReadBackOf(a, b, values, keys);
    forall j | 0 <= j < |kwargs|
      ensures MetaValue(b[j]) == kwargs[j].1
    {
      VrplibWriteSolution.MetaLineRead(kwargs[j].0, kwargs[j].1, fmt);
    }
  }

  /**
   * Lines a that read as routes listing values, then stripped metadata lines b keyed by distinct
   * keys other than "routes", are read as those routes and each keyword line's value.
   */
  lemma ReadBackOf(a: seq<string>, b: seq<string>, values: seq<seq<Value>>, keys: seq<string>)
    requires |a| == |values| && |b| == |keys|
    requires forall k :: 0 <= k < |a| ==> NoLineBreak(a[k]) && Strip(a[k]) != []
    requires forall k :: 0 <= k < |a| ==> CvrplibParseSolution.RouteOf(Strip(a[k])) == Some(values[k]) && !IsMetaLine(Strip(a[k]))
    requires forall j :: 0 <= j < |b| ==> NoLineBreak(b[j]) && Strip(b[j]) == b[j] && b[j] != []
    requires forall j :: 0 <= j < |b| ==> IsMetaLine(b[j]) && MetaKey(b[j]) == keys[j] && keys[j] != "routes"
    requires forall i, j :: 0 <= i < j < |keys| ==> keys[i] != keys[j]
    ensures var r := CvrplibParseSolution.SolutionFor(Unlines(a + b));
      && r.Ok? && "routes" in r.value && r.value["routes"] == Routes(values)
      && forall j :: 0 <= j < |b| ==> keys[j] in r.value && IsMetaLine(b[j]) && r.value[keys[j]] == Meta(MetaValue(b[j]))
  {
    var lines := ReadLines(a, b);
    var r := CvrplibParseSolution.SolutionAfter(lines, |lines|);
    assert r.Ok? && "routes" in r.value && r.value["routes"] == Routes(values) by {
      ReadRoutes(a, b, lines, values);
    }
    assert forall j :: 0 <= j < |b| ==> keys[j] in r.value && IsMetaLine(b[j]) && r.value[keys[j]] == Meta(MetaValue(b[j])) by {
      ReadKwargs(lines, |a|, b, keys);
    }
  }

  /** The reader sees lines a stripped and the already stripped lines b as they are. */
  lemma ReadLines(a: seq<string>, b: seq<string>) returns (lines: seq<string>)
    requires forall k :: 0 <= k < |a| ==> NoLineBreak(a[k]) && Strip(a[k]) != []
    requires forall j :: 0 <= j < |b| ==> NoLineBreak(b[j]) && Strip(b[j]) == b[j] && b[j] != []
    ensures lines == CvrplibParseUtils.Text2Lines(Unlines(a + b))
    ensures |lines| == |a| + |b|
    ensures forall k :: 0 <= k < |a| ==> lines[k] == Strip(a[k])
    ensures lines[|a|..] == b
  {
    var written := a + b;
    forall k | 0 <= k < |written| ensures NoLineBreak(written[k]) && Strip(written[k]) != [] {
      if k >= |a| {
        assert written[k] == b[k - |a|];
      }
    }
    CvrplibParseUtils.Text2LinesOfUnlines(written);
    lines := seq(|written|, k requires 0 <= k < |written| => Strip(written[k]));
    forall j | 0 <= j < |b| ensures lines[|a|..][j] == b[j] {
      assert written[|a| + j] == b[j];
    }
  }

  /** Metadata lines b ending the lines, with distinct keys, each decide their key's value. */
  lemma ReadKwargs(lines: seq<string>, n: nat, b: seq<string>, keys: seq<string>)
    requires |lines| == n + |b| && |b| == |keys| && CvrplibParseSolution.SolutionAfter(lines, |lines|).Ok?
    requires lines[n..] == b
    requires forall j :: 0 <= j < |b| ==> IsMetaLine(b[j]) && MetaKey(b[j]) == keys[j]
    requires forall i, j :: 0 <= i < j < |keys| ==> keys[i] != keys[j]
    ensures forall j :: 0 <= j < |keys| ==>
      keys[j] in CvrplibParseSolution.SolutionAfter(lines, |lines|).value && IsMetaLine(b[j])
      && CvrplibParseSolution.SolutionAfter(lines, |lines|).value[keys[j]] == Meta(MetaValue(b[j]))
  {
    forall j | 0 <= j < |keys|
      ensures keys[j] in CvrplibParseSolution.SolutionAfter(lines, |lines|).value && IsMetaLine(b[j])
      ensures CvrplibParseSolution.SolutionAfter(lines, |lines|).value[keys[j]] == Meta(MetaValue(b[j]))
    {
      ReadKwarg(lines, n, b, keys, j);
    }
  }

  lemma ReadKwarg(lines: seq<string>, n: nat, b: seq<string>, keys: seq<string>, j: nat)
    requires |lines| == n + |b| && |b| == |keys| && j < |b| && CvrplibParseSolution.SolutionAfter(lines, |lines|).Ok?
    requires lines[n..] == b
    requires forall k :: 0 <= k < |b| ==> IsMetaLine(b[k]) && MetaKey(b[k]) == keys[k]
    requires forall i, k :: 0 <= i < k < |keys| ==> keys[i] != keys[k]
    ensures keys[j] in CvrplibParseSolution.SolutionAfter(lines, |lines|).value && IsMetaLine(b[j])
    ensures CvrplibParseSolution.SolutionAfter(lines, |lines|).value[keys[j]] == Meta(MetaValue(b[j]))
  {
    var i := n + j;
    assert lines[i] == lines[n..][j];
    forall m | i < m < |lines| && IsMetaLine(lines[m]) ensures MetaKey(lines[m]) != MetaKey(lines[i]) {
      assert lines[m] == lines[n..][m - n];
    }
    CvrplibParseSolution.LastMetaWins(lines, |lines|, i);
  }

  /** Stripped route lines listing values, then metadata lines not keyed "routes", are read as those routes. */
  lemma ReadRoutes(a: seq<string>, b: seq<string>, lines: seq<string>, values: seq<seq<Value>>)
    requires |lines| == |a| + |b| && |a| == |values|
    requires forall k :: 0 <= k < |a| ==> lines[k] == Strip(a[k])
    requires lines[|a|..] == b
    requires forall k :: 0 <= k < |a| ==> CvrplibParseSolution.RouteOf(Strip(a[k])) == Some(values[k]) && !IsMetaLine(Strip(a[k]))
    requires forall j :: 0 <= j < |b| ==> IsMetaLine(b[j]) && MetaKey(b[j]) != "routes"
    ensures CvrplibParseSolution.SolutionAfter(lines, |lines|).Ok?
    ensures "routes" in CvrplibParseSolution.SolutionAfter(lines, |lines|).value
    ensures CvrplibParseSolution.SolutionAfter(lines, |lines|).value["routes"] == Routes(values)
  {
    LineKinds(a, b, lines, values);
    CvrplibParseSolution.RoutesInOrder(lines, |lines|);
    PickedPrefix(lines, |lines|, CvrplibParseSolution.RouteOf, values);
  }

  lemma LineKinds(a: seq<string>, b: seq<string>, lines: seq<string>, values: seq<seq<Value>>)
    requires |lines| == |a| + |b| && |a| == |values|
    requires forall k :: 0 <= k < |a| ==> lines[k] == Strip(a[k])
    requires lines[|a|..] == b
    requires forall k :: 0 <= k < |a| ==> CvrplibParseSolution.RouteOf(Strip(a[k])) == Some(values[k]) && !IsMetaLine(Strip(a[k]))
    requires forall j :: 0 <= j < |b| ==> IsMetaLine(b[j]) && MetaKey(b[j]) != "routes"
    ensures forall i :: 0 <= i < |lines| ==>
      && CvrplibParseSolution.ReadableRoute(lines[i])
      && (IsMetaLine(lines[i]) ==> MetaKey(lines[i]) != "routes")
      && (i < |a| ==> CvrplibParseSolution.RouteOf(lines[i]) == Some(values[i]))
      && (i >= |a| ==> CvrplibParseSolution.RouteOf(lines[i]).None?)
  {
    forall i | 0 <= i < |lines|
      ensures CvrplibParseSolution.ReadableRoute(lines[i])
      ensures IsMetaLine(lines[i]) ==> MetaKey(lines[i]) != "routes"
      ensures i < |a| ==> CvrplibParseSolution.RouteOf(lines[i]) == Some(values[i])
      ensures i >= |a| ==> CvrplibParseSolution.RouteOf(lines[i]).None?
    {
      if i >= |a| {
        assert lines[i] == lines[|a|..][i - |a|];
      }
    }
  }
}
