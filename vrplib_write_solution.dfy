/**
 * The solution writer of the current library (vrplib/write/write_solution.py): one line per
 * route, numbered from 1, then one "key: value" line per data entry. The file text is returned
 * instead of written.
 */
module VrplibWriteSolution {
  import opened Wrappers
  import opened Text
  import opened Tokens
  import opened VrplibParseUtils
  import opened VrplibParseSolution
  import opened Lists

  const EmptyRouteMessage := "Empty route in solution."

  /** `[str(val) for val in route]`. */
  function Shown(route: seq<Value>, fmt: real -> string): (r: seq<string>)
    ensures |r| == |route| && forall i :: 0 <= i < |route| ==> r[i] == Show(route[i], fmt)
  {
    seq(|route|, i requires 0 <= i < |route| => Show(route[i], fmt))
  }

  /** `" ".join([f"Route #{idx}:"] + [str(val) for val in route])`. */
  function RouteLine(idx: nat, route: seq<Value>, fmt: real -> string): string {
    Join(" ", ["Route #" + NatToString(idx) + ":"] + Shown(route, fmt))
  }

  /** `f"{key}: {value}"`. */
  function MetaLine(key: string, v: Value, fmt: real -> string): string {
    key + ": " + Show(v, fmt)
  }

  /** The data entries written: none when data is None. */
  function Entries(data: Option<seq<(string, Value)>>): seq<(string, Value)> {
    if data.None? then [] else data.value
  }

  /** Route idx on line idx - 1. */
  function RouteLines(routes: seq<seq<Value>>, fmt: real -> string): seq<string> {
    seq(|routes|, k requires 0 <= k < |routes| => RouteLine(k + 1, routes[k], fmt))
  }

  /** The data entries in order. */
  function MetaLines(data: seq<(string, Value)>, fmt: real -> string): seq<string> {
    seq(|data|, j requires 0 <= j < |data| => MetaLine(data[j].0, data[j].1, fmt))
  }

  /** The lines of the file: the route lines, then the data lines. */
  function SolutionLines(routes: seq<seq<Value>>, data: seq<(string, Value)>, fmt: real -> string): seq<string> {
    RouteLines(routes, fmt) + MetaLines(data, fmt)
  }

  /**
   * write_solution: refuses a solution with an empty route before anything is written,
   * otherwise writes each route line and then each data line, every one followed by "\n".
   */
  method WriteSolution(routes: seq<seq<Value>>, data: Option<seq<(string, Value)>>, fmt: real -> string)
    returns (r: Result<string>)
    ensures r.Err? <==> exists k :: 0 <= k < |routes| && routes[k] == []
    ensures r.Err? ==> r.error == ValueError(EmptyRouteMessage)
    ensures r.Ok? ==> r.value == Unlines(SolutionLines(routes, Entries(data), fmt))
  {
    for k := 0 to |routes|
      invariant forall j :: 0 <= j < k ==> routes[j] != []
    {
      if |routes[k]| == 0 {
        return Err(ValueError(EmptyRouteMessage));
      }
    }
    var text := WriteRoutes(routes, fmt);
    if data.Some? {
      var more := WriteEntries(data.value, fmt);
      text := text + more;
      UnlinesConcat(RouteLines(routes, fmt), MetaLines(data.value, fmt));
    } else {
      assert RouteLines(routes, fmt) == SolutionLines(routes, Entries(data), fmt);
    }
    r := Ok(text);
  }

  /** The route loop of write_solution: each route line followed by "\n". */
  method WriteRoutes(routes: seq<seq<Value>>, fmt: real -> string) returns (text: string)
    ensures text == Unlines(RouteLines(routes, fmt))
  {
    ghost var lines := RouteLines(routes, fmt);
    text := "";
    for idx := 1 to |routes| + 1
      invariant text == Unlines(lines[..idx - 1])
    {
      var line := RouteLine(idx, routes[idx - 1], fmt);
      UnlinesPrefixStep(lines, idx - 1);
      text := text + line + "\n";
    }
    assert lines[..|routes|] == lines;
  }

  /** The data loop of write_solution: each data line followed by "\n". */
  method WriteEntries(entries: seq<(string, Value)>, fmt: real -> string) returns (text: string)
    ensures text == Unlines(MetaLines(entries, fmt))
  {
    ghost var lines := MetaLines(entries, fmt);
    text := "";
    for j := 0 to |entries|
      invariant text == Unlines(lines[..j])
    {
      var line := MetaLine(entries[j].0, entries[j].1, fmt);
      UnlinesPrefixStep(lines, j);
      text := text + line + "\n";
    }
    assert lines[..|entries|] == lines;
  }

  /** The file has one line per route and one per data entry, and nothing else. */
  lemma SolutionLinesCount(routes: seq<seq<Value>>, data: seq<(string, Value)>, fmt: real -> string)
    ensures |SolutionLines(routes, data, fmt)| == |routes| + |data|
  {
  }

  // ----- reading the written file back -----

  /** A route as the source types it: a non-empty list of non-negative integers. */
  predicate NatRoute(route: seq<Value>) {
    route != [] && forall i :: 0 <= i < |route| ==> route[i].I? && route[i].i >= 0
  }

  /** The key the solution reader makes of a written key. */
  function ReadKey(key: string): string {
    Lower(Strip(key))
  }

  /**
   * A data entry whose line the reader takes back as the same entry: a key starting with neither
   * a comment sign nor a space, on one line, with no colon, and a value printed as one token that
   * reads back as itself; neither holds a capital R, so the line is no route line.
   */
  predicate MetaReadable(key: string, v: Value, fmt: real -> string) {
    && key != [] && key[0] != '#' && !IsSpace(key[0]) && NoLineBreak(key) && ':' !in key && 'R' !in key
    && ReadsBack(v, fmt) && 'R' !in Show(v, fmt)
  }

  /** A written route line is a clean route line listing exactly the route. */
  lemma RouteLineRead(idx: nat, route: seq<Value>, fmt: real -> string)
    requires NatRoute(route)
    ensures var line := RouteLine(idx, route, fmt);
      IsCleanLine(line) && IsRouteLine(line) && ':' in line && Visits(line) == Ok(route)
  {
    var ws := Shown(route, fmt);
    ShownNats(route, fmt);
    RouteTextClean(idx, ws);
    RouteTextVisits(idx, ws);
  }

  /** The printed values of a route of naturals are digit words that read back as the route. */
  lemma ShownNats(route: seq<Value>, fmt: real -> string)
    requires NatRoute(route)
    ensures var ws := Shown(route, fmt);
      |ws| > 0 && AreWords(ws) && (forall k :: 0 <= k < |ws| ==> AllDigits(ws[k]) && ':' !in ws[k])
      && seq(|ws|, k requires 0 <= k < |ws| => Visit(ws[k])) == route
  {
    var ws := Shown(route, fmt);
    forall k | 0 <= k < |ws| ensures AllDigits(ws[k]) && ws[k] != [] && NoSpace(ws[k]) && ':' !in ws[k] && Visit(ws[k]) == route[k] {
      assert ws[k] == NatToString(route[k].i);
      AllDigitsNoSpace(ws[k]);
      VisitOfNat(route[k].i);
    }
  }

  /** The line of route idx listing digit words is clean. */
  lemma RouteTextClean(idx: nat, ws: seq<string>)
    requires |ws| > 0 && AreWords(ws) && forall k :: 0 <= k < |ws| ==> AllDigits(ws[k])
    ensures IsCleanLine(Join(" ", ["Route #" + NatToString(idx) + ":"] + ws))
  {
    var h := "Route #" + NatToString(idx) + ":";
    var parts := [h] + ws;
    assert parts[1..] == ws;
    var line := Join(" ", parts);
    var j := Join(" ", ws);
    assert line == h + " " + j;
    JoinEndsWithWord(' ', ws);
    assert line[|line| - 1] == j[|j| - 1];
    assert line[0] == 'R';
    RouteHeadChars(h, NatToString(idx));
    forall k, i | 0 <= k < |parts| && 0 <= i < |parts[k]| ensures !IsLineBreak(parts[k][i]) {
      if k > 0 {
        assert parts[k] == ws[k - 1];
      }
    }
    JoinChars(" ", parts, c => !IsLineBreak(c));
  }

  lemma RouteHeadChars(h: string, n: string)
    requires AllDigits(n) && h == "Route #" + n + ":"
    ensures NoLineBreak(h)
  {
    forall i | 0 <= i < |h| ensures !IsLineBreak(h[i]) {
      if 7 <= i < |h| - 1 {
        assert h[i] == n[i - 7];
      }
    }
  }

  /** The line of route idx is a route line whose visits are the typed words. */
  lemma RouteTextVisits(idx: nat, ws: seq<string>)
    requires |ws| > 0 && AreWords(ws) && forall k :: 0 <= k < |ws| ==> ':' !in ws[k]
    ensures var line := Join(" ", ["Route #" + NatToString(idx) + ":"] + ws);
      IsRouteLine(line) && ':' in line
      && Visits(line) == Ok(seq(|ws|, k requires 0 <= k < |ws| => Visit(ws[k])))
  {
    var n := NatToString(idx);
    var head := "Route #" + n;
    assert ':' !in n by {
      assert AllDigits(n);
    }
    assert ':' !in head;
    var parts := [head + ":"] + ws;
    assert parts[1..] == ws;
    var line := Join(" ", parts);
    assert line == head + ":" + " " + Join(" ", ws);
    VisitsOfRouteLine(head, ws);
    assert line[..5] == "Route";
    assert MatchAt(line, "Route", 0);
  }

  /** A written data line is a clean metadata line keyed by the read key and holding the value. */
  lemma MetaLineRead(key: string, v: Value, fmt: real -> string)
    requires MetaReadable(key, v, fmt)
    ensures var line := MetaLine(key, v, fmt);
      IsCleanLine(line) && !IsRouteLine(line) && IsMetaLine(line)
      && MetaKey(line) == ReadKey(key) && MetaValue(line) == v
  {
    var t := Show(v, fmt);
    MetaTextClean(key, t);
    MetaTextParts(key, t);
    StripSpaced(t);
  }

  lemma MetaTextClean(key: string, t: string)
    requires key != [] && key[0] != '#' && !IsSpace(key[0]) && NoLineBreak(key)
    requires t != [] && NoSpace(t)
    ensures IsCleanLine(key + ": " + t)
  {
    var line := key + ": " + t;
    assert line[0] == key[0];
    assert line[|line| - 1] == t[|t| - 1];
    forall i | 0 <= i < |line| ensures !IsLineBreak(line[i]) {
      if i < |key| {
        assert line[i] == key[i];
      } else if i >= |key| + 2 {
        assert line[i] == t[i - |key| - 2];
      }
    }
  }

  lemma MetaTextParts(key: string, t: string)
    requires ':' !in key && 'R' !in key && 'R' !in t
    ensures var line := key + ": " + t;
      !IsRouteLine(line) && IsMetaLine(line)
      && MetaKey(line) == Lower(Strip(key)) && MetaValue(line) == InferType(Strip(" " + t))
  {
    var line := key + ": " + t;
    assert line == key + ":" + (" " + t);
    assert 'R' !in line;
    NotContainsMissingChar(line, "Route", 'R');
    MetaOfLine(key, " " + t);
  }

  lemma StripSpaced(t: string)
    requires t != [] && NoSpace(t)
    ensures Strip(" " + t) == t
  {
    StripLeadingSpace(' ', t);
    assert [' '] + t == " " + t;
    StripStripped(t);
  }

  /** What the reader makes of each written route line. */
  lemma WrittenRouteLines(routes: seq<seq<Value>>, fmt: real -> string)
    requires forall k :: 0 <= k < |routes| ==> NatRoute(routes[k])
    ensures var a := RouteLines(routes, fmt);
      forall k :: 0 <= k < |routes| ==>
        IsCleanLine(a[k]) && IsRouteLine(a[k]) && ':' in a[k] && RouteOf(a[k]) == Some(routes[k]) && !IsMetaLine(a[k])
  {
    var a := RouteLines(routes, fmt);
    forall k | 0 <= k < |routes|
      ensures IsCleanLine(a[k]) && IsRouteLine(a[k]) && ':' in a[k] && RouteOf(a[k]) == Some(routes[k]) && !IsMetaLine(a[k])
    {
      RouteLineRead(k + 1, routes[k], fmt);
    }
  }

  /** What the reader makes of each written data line. */
  lemma WrittenMetaLines(data: seq<(string, Value)>, fmt: real -> string)
    requires forall j :: 0 <= j < |data| ==> MetaReadable(data[j].0, data[j].1, fmt)
    ensures var b := MetaLines(data, fmt);
      forall j :: 0 <= j < |data| ==>
        IsCleanLine(b[j]) && !IsRouteLine(b[j]) && IsMetaLine(b[j])
        && MetaKey(b[j]) == ReadKey(data[j].0) && MetaValue(b[j]) == data[j].1
  {
    var b := MetaLines(data, fmt);
    forall j | 0 <= j < |data|
      ensures IsCleanLine(b[j]) && !IsRouteLine(b[j]) && IsMetaLine(b[j])
      ensures MetaKey(b[j]) == ReadKey(data[j].0) && MetaValue(b[j]) == data[j].1
    {
      MetaLineRead(data[j].0, data[j].1, fmt);
    }
  }

  /**
   * Round trip with the solution reader: the file written for routes of naturals and data entries
   * that read back as themselves, with distinct read keys other than "routes", is read as exactly
   * those routes and, under each read key, its entry's value.
   */
  lemma WrittenSolutionReadBack(routes: seq<seq<Value>>, data: seq<(string, Value)>, fmt: real -> string)
    requires forall k :: 0 <= k < |routes| ==> NatRoute(routes[k])
    requires forall j :: 0 <= j < |data| ==> MetaReadable(data[j].0, data[j].1, fmt) && ReadKey(data[j].0) != "routes"
    requires forall i, j :: 0 <= i < j < |data| ==> ReadKey(data[i].0) != ReadKey(data[j].0)
    ensures var r := SolutionOfText(Unlines(SolutionLines(routes, data, fmt)));
      && r.Ok?
      && r.value.Keys == {"routes"} + (set j | 0 <= j < |data| :: ReadKey(data[j].0))
      && r.value["routes"] == Routes(routes)
      && forall j :: 0 <= j < |data| ==> ReadKey(data[j].0) in r.value && r.value[ReadKey(data[j].0)] == Meta(data[j].1)
  {
    var lines := SolutionLines(routes, data, fmt);
    var keys := seq(|data|, j requires 0 <= j < |data| => ReadKey(data[j].0));
    var values := seq(|data|, j requires 0 <= j < |data| => data[j].1);
    WrittenFileLines(routes, data, fmt);
    WrittenRouteLines(routes, fmt);
    WrittenMetaLines(data, fmt);
    ReadBack(RouteLines(routes, fmt), MetaLines(data, fmt), routes, keys, values);
    SameKeys(data, keys);
  }

  lemma SameKeys(data: seq<(string, Value)>, keys: seq<string>)
    requires |keys| == |data| && forall j :: 0 <= j < |data| ==> keys[j] == ReadKey(data[j].0)
    ensures (set j | 0 <= j < |keys| :: keys[j]) == (set j | 0 <= j < |data| :: ReadKey(data[j].0))
  {
  }

  lemma CleanRouteLines(routes: seq<seq<Value>>, fmt: real -> string)
    requires forall k :: 0 <= k < |routes| ==> NatRoute(routes[k])
    ensures forall k :: 0 <= k < |routes| ==> IsCleanLine(RouteLines(routes, fmt)[k])
  {
    forall k | 0 <= k < |routes| ensures IsCleanLine(RouteLines(routes, fmt)[k]) {
      RouteLineRead(k + 1, routes[k], fmt);
    }
  }

  lemma CleanMetaLines(data: seq<(string, Value)>, fmt: real -> string)
    requires forall j :: 0 <= j < |data| ==> MetaReadable(data[j].0, data[j].1, fmt)
    ensures forall j :: 0 <= j < |data| ==> IsCleanLine(MetaLines(data, fmt)[j])
  {
    forall j | 0 <= j < |data| ensures IsCleanLine(MetaLines(data, fmt)[j]) {
      MetaLineRead(data[j].0, data[j].1, fmt);
    }
  }

  /** The written lines are clean, so the reader sees exactly them. */
  lemma WrittenFileLines(routes: seq<seq<Value>>, data: seq<(string, Value)>, fmt: real -> string)
    requires forall k :: 0 <= k < |routes| ==> NatRoute(routes[k])
    requires forall j :: 0 <= j < |data| ==> MetaReadable(data[j].0, data[j].1, fmt)
    ensures Text2Lines(Unlines(SolutionLines(routes, data, fmt))) == SolutionLines(routes, data, fmt)
  {
    var a := RouteLines(routes, fmt);
    var b := MetaLines(data, fmt);
    CleanRouteLines(routes, fmt);
    CleanMetaLines(data, fmt);
    var lines := a + b;
    forall k | 0 <= k < |lines| ensures IsCleanLine(lines[k]) {
      if k >= |a| {
        assert lines[k] == b[k - |a|];
      } else {
        assert lines[k] == a[k];
      }
    }
    Text2LinesOfUnlines(lines);
  }

  /**
   * Route lines a listing the routes, followed by metadata lines b with distinct keys other than
   * "routes", are read as those routes and those keys and values.
   */
  lemma ReadBack(a: seq<string>, b: seq<string>, routes: seq<seq<Value>>, keys: seq<string>, values: seq<Value>)
    requires |a| == |routes| && |b| == |keys| == |values|
    requires forall k :: 0 <= k < |a| ==> IsRouteLine(a[k]) && ':' in a[k] && RouteOf(a[k]) == Some(routes[k]) && !IsMetaLine(a[k])
    requires forall j :: 0 <= j < |b| ==> !IsRouteLine(b[j]) && IsMetaLine(b[j]) && MetaKey(b[j]) == keys[j] && MetaValue(b[j]) == values[j]
    requires forall j :: 0 <= j < |b| ==> keys[j] != "routes"
    requires forall i, j :: 0 <= i < j < |keys| ==> keys[i] != keys[j]
    ensures var r := SolutionOf(a + b, |a + b|);
      && r.Ok? && r.value.Keys == {"routes"} + (set j | 0 <= j < |keys| :: keys[j])
      && r.value["routes"] == Routes(routes)
      && forall j :: 0 <= j < |b| ==> keys[j] in r.value && r.value[keys[j]] == Meta(values[j])
  {
    var lines := a + b;
    ReadRoutes(a, b, routes, keys);
    ReadKeys(a, b, keys);
    forall j | 0 <= j < |b|
      ensures keys[j] in SolutionOf(lines, |lines|).value
      ensures SolutionOf(lines, |lines|).value[keys[j]] == Meta(values[j])
    {
      ReadValue(a, b, keys, j);
      assert lines[|a| + j] == b[j];
    }
  }

  lemma ReadRoutes(a: seq<string>, b: seq<string>, routes: seq<seq<Value>>, keys: seq<string>)
    requires |a| == |routes| && |b| == |keys|
    requires forall k :: 0 <= k < |a| ==> IsRouteLine(a[k]) && ':' in a[k] && RouteOf(a[k]) == Some(routes[k]) && !IsMetaLine(a[k])
    requires forall j :: 0 <= j < |b| ==> !IsRouteLine(b[j]) && IsMetaLine(b[j]) && MetaKey(b[j]) == keys[j] && keys[j] != "routes"
    ensures SolutionOf(a + b, |a + b|).Ok? && "routes" in SolutionOf(a + b, |a + b|).value
    ensures SolutionOf(a + b, |a + b|).value["routes"] == Routes(routes)
  {
    var lines := a + b;
    JoinedLines(a, b, routes, keys);
    RoutesInOrder(lines, |lines|);
    PickedPrefix(lines, |lines|, RouteOf, routes);
  }

  /** Each line of the route lines followed by the metadata lines, read on its own. */
  lemma JoinedLines(a: seq<string>, b: seq<string>, routes: seq<seq<Value>>, keys: seq<string>)
    requires |a| == |routes| && |b| == |keys|
    requires forall k :: 0 <= k < |a| ==> IsRouteLine(a[k]) && ':' in a[k] && RouteOf(a[k]) == Some(routes[k]) && !IsMetaLine(a[k])
    requires forall j :: 0 <= j < |b| ==> !IsRouteLine(b[j]) && IsMetaLine(b[j]) && MetaKey(b[j]) == keys[j] && keys[j] != "routes"
    ensures forall i :: 0 <= i < |a + b| ==> (IsRouteLine((a + b)[i]) ==> ':' in (a + b)[i])
    ensures forall i :: 0 <= i < |a + b| && IsMetaLine((a + b)[i]) ==> MetaKey((a + b)[i]) != "routes"
    ensures forall i :: 0 <= i < |a| ==> RouteOf((a + b)[i]) == Some(routes[i])
    ensures forall i :: |a| <= i < |a + b| ==> RouteOf((a + b)[i]).None?
  {
    var lines := a + b;
    forall i | 0 <= i < |lines|
      ensures (IsRouteLine(lines[i]) ==> ':' in lines[i]) && (IsMetaLine(lines[i]) ==> MetaKey(lines[i]) != "routes")
      ensures i < |a| ==> RouteOf(lines[i]) == Some(routes[i])
      ensures i >= |a| ==> RouteOf(lines[i]).None?
    {
      if i >= |a| {
        assert lines[i] == b[i - |a|];
      } else {
        assert lines[i] == a[i];
      }
    }
  }

  lemma ReadKeys(a: seq<string>, b: seq<string>, keys: seq<string>)
    requires |b| == |keys| && SolutionOf(a + b, |a + b|).Ok?
    requires forall k :: 0 <= k < |a| ==> !IsMetaLine(a[k])
    requires forall j :: 0 <= j < |b| ==> IsMetaLine(b[j]) && MetaKey(b[j]) == keys[j]
    ensures SolutionOf(a + b, |a + b|).value.Keys == {"routes"} + (set j | 0 <= j < |keys| :: keys[j])
  {
    forall i | 0 <= i < |a| ensures MetaKeyOf(a[i]).None? {
    }
    forall j | 0 <= j < |b| ensures MetaKeyOf(b[j]) == Some(keys[j]) {
    }
    SolutionKeys(a + b, |a + b|);
    PickedAfter(a, b, MetaKeyOf, keys);
    assert (set k | k in keys) == (set j | 0 <= j < |keys| :: keys[j]);
  }

  lemma ReadValue(a: seq<string>, b: seq<string>, keys: seq<string>, j: nat)
    requires |b| == |keys| && j < |b| && SolutionOf(a + b, |a + b|).Ok?
    requires IsMetaLine(b[j]) && MetaKey(b[j]) == keys[j]
    requires forall i :: 0 <= i < |b| ==> IsMetaLine(b[i]) && MetaKey(b[i]) == keys[i]
    requires forall i, k :: 0 <= i < k < |keys| ==> keys[i] != keys[k]
    ensures keys[j] in SolutionOf(a + b, |a + b|).value
    ensures SolutionOf(a + b, |a + b|).value[keys[j]] == Meta(MetaValue(b[j]))
  {
    var lines := a + b;
    assert lines[|a| + j] == b[j];
    forall i | |a| + j < i < |lines| && IsMetaLine(lines[i]) ensures MetaKey(lines[i]) != MetaKey(lines[|a| + j]) {
      assert lines[i] == b[i - |a|];
    }
    LastMetaWins(lines, |lines|, |a| + j);
  }

  // ----- the library's own example -----

  /** Three routes and three data entries give six lines, the data in the order given. */
  lemma WriteExample(fmt: real -> string)
    requires fmt(123.45) == "123.45"
    ensures SolutionLines([[I(1), I(2)], [I(3), I(4)], [I(5)]],
                          [("Cost", I(100)), ("Time", F(123.45)), ("name", S("test.sol"))], fmt)
         == ["Route #1: 1 2", "Route #2: 3 4", "Route #3: 5", "Cost: 100", "Time: 123.45", "name: test.sol"]
  {
    ExampleRouteLines([[I(1), I(2)], [I(3), I(4)], [I(5)]], fmt);
    ExampleMetaLines([("Cost", I(100)), ("Time", F(123.45)), ("name", S("test.sol"))], fmt);
  }

  lemma ExampleRouteLines(routes: seq<seq<Value>>, fmt: real -> string)
    requires routes == [[I(1), I(2)], [I(3), I(4)], [I(5)]]
    ensures RouteLines(routes, fmt) == ["Route #1: 1 2", "Route #2: 3 4", "Route #3: 5"]
  {
    var ls := RouteLines(routes, fmt);
    RouteLineTwo(1, 1, 2, fmt);
    RouteLineTwo(2, 3, 4, fmt);
    RouteLineOne(3, 5, fmt);
    assert ls[0] == "Route #1: 1 2";
    assert ls[1] == "Route #2: 3 4";
    assert ls[2] == "Route #3: 5";
  }

  lemma ExampleMetaLines(data: seq<(string, Value)>, fmt: real -> string)
    requires fmt(123.45) == "123.45"
    requires data == [("Cost", I(100)), ("Time", F(123.45)), ("name", S("test.sol"))]
    ensures MetaLines(data, fmt) == ["Cost: 100", "Time: 123.45", "name: test.sol"]
  {
    var ls := MetaLines(data, fmt);
    CostLine(fmt);
    TimeLine(fmt);
    NameLine(fmt);
    assert ls[0] == MetaLine("Cost", I(100), fmt);
    assert ls[1] == MetaLine("Time", F(123.45), fmt);
    assert ls[2] == MetaLine("name", S("test.sol"), fmt);
  }

  lemma CostLine(fmt: real -> string)
    ensures MetaLine("Cost", I(100), fmt) == "Cost: 100"
  {
    assert NatToString(100) == "100";
  }

  lemma TimeLine(fmt: real -> string)
    requires fmt(123.45) == "123.45"
    ensures MetaLine("Time", F(123.45), fmt) == "Time: 123.45"
  {
  }

  lemma NameLine(fmt: real -> string)
    ensures MetaLine("name", S("test.sol"), fmt) == "name: test.sol"
  {
  }

  lemma RouteLineTwo(idx: nat, a: nat, b: nat, fmt: real -> string)
    requires idx < 10 && a < 10 && b < 10
    ensures RouteLine(idx, [I(a), I(b)], fmt) == "Route #" + [Digit(idx)] + ": " + [Digit(a)] + " " + [Digit(b)]
  {
    var ws := Shown([I(a), I(b)], fmt);
    assert ws == [[Digit(a)], [Digit(b)]];
    assert Join(" ", ws) == [Digit(a)] + " " + [Digit(b)];
  }

  lemma RouteLineOne(idx: nat, a: nat, fmt: real -> string)
    requires idx < 10 && a < 10
    ensures RouteLine(idx, [I(a)], fmt) == "Route #" + [Digit(idx)] + ": " + [Digit(a)]
  {
    var ps := ["Route #" + NatToString(idx) + ":"] + Shown([I(a)], fmt);
    assert ps == ["Route #" + [Digit(idx)] + ":", [Digit(a)]];
    assert Join(" ", ps[1..]) == [Digit(a)];
  }

  /** The character of a decimal digit. */
  function Digit(d: nat): char
    requires d < 10
  {
    (('0' as int) + d) as char
  }
}
