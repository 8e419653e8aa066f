/**
 * The solution reader of the current parser (vrplib/parse/parse_solution.py): route lines
 * append the visits they list, other lines with a colon or a space give a metadata entry
 * under their lower-cased key, everything else is skipped.
 */
module VrplibParseSolution {
  import opened Wrappers
  import opened Text
  import opened Tokens
  import opened VrplibParseUtils
  import opened Stores
  import opened Lists

  /** A solution entry: the list of routes, or a typed metadata value that may replace it. */
  datatype Entry = Routes(routes: seq<seq<Value>>) | Meta(v: Value)

  type Solution = map<string, Entry>

  /** `{"routes": []}`: the solution before any line is read. */
  const Initial: Solution := map["routes" := Routes([])]

  predicate IsRouteLine(line: string) {
    Contains(line, "Route")
  }

  /** `int(val) if val.isdigit() else val`. */
  function Visit(w: string): (v: Value)
    ensures v.I? <==> AllDigits(w)
    ensures v.S? ==> v.s == w
  {
    if AllDigits(w) then I(DigitsValue(w)) else S(w)
  }

  /** A printed natural number is read back as that number. */
  lemma VisitOfNat(n: nat)
    ensures Visit(NatToString(n)) == I(n)
  {
  }

  /** A printed negative number is not all digits and stays a string. */
  lemma VisitOfNegative(n: int)
    requires n < 0
    ensures Visit(IntToString(n)) == S(IntToString(n))
  {
    assert !IsDigit(IntToString(n)[0]);
  }

  /**
   * `line.split(":")[1].split()` with every word typed: the words between the first colon and the
   * next one (or the end); without a colon there is no part 1 (IndexError).
   */
  function Visits(line: string): (r: Result<seq<Value>>)
    ensures r.Ok? <==> ':' in line
    ensures r.Err? ==> r.error == IndexError
    ensures r.Ok? ==> var ws := Words(SplitChar(line, ':')[1]);
      |r.value| == |ws| && forall k :: 0 <= k < |ws| ==> r.value[k] == Visit(ws[k])
  {
    SplitCharParts(line, ':');
    if ':' !in line then Err(IndexError)
    else
      var ws := Words(SplitChar(line, ':')[1]);
      Ok(seq(|ws|, k requires 0 <= k < |ws| => Visit(ws[k])))
  }

  /** A line other than a route line that holds a key and a value. */
  predicate IsMetaLine(line: string) {
    !IsRouteLine(line) && (':' in line || ' ' in line)
  }

  /** `line.split(split_at, 1)`: at the first colon if there is one, else at the first space. */
  function MetaParts(line: string): (r: (string, string))
    requires ':' in line || ' ' in line
    ensures ':' in line ==> r == SplitOnce(line, ':').value
    ensures ':' !in line ==> r == SplitOnce(line, ' ').value
  {
    if ':' in line then SplitOnce(line, ':').value else SplitOnce(line, ' ').value
  }

  function MetaKey(line: string): string
    requires ':' in line || ' ' in line
  {
    Lower(Strip(MetaParts(line).0))
  }

  function MetaValue(line: string): Value
    requires ':' in line || ' ' in line
  {
    InferType(Strip(MetaParts(line).1))
  }

  /**
   * One pass of the loop: a route line appends its visits to the routes list (a routes entry
   * replaced by metadata has no append: AttributeError); a metadata line sets its key.
   */
  function SolutionStep(sol: Solution, line: string): (r: Result<Solution>)
    ensures r.Ok? && "routes" in sol ==> "routes" in r.value
    ensures !IsRouteLine(line) ==> r.Ok?
  {
    if IsRouteLine(line) then
      match Visits(line)
      case Err(e) => Err(e)
      case Ok(vs) =>
        if "routes" !in sol then Err(KeyError("routes"))
        else if !sol["routes"].Routes? then Err(AttributeError)
        else Ok(sol["routes" := Routes(sol["routes"].routes + [vs])])
    else if ':' in line || ' ' in line then Ok(sol[MetaKey(line) := Meta(MetaValue(line))])
    else Ok(sol)
  }

  /** The solution after the first n lines, or the error of the first line that fails. */
  function SolutionOf(lines: seq<string>, n: nat): Result<Solution>
    requires n <= |lines|
  {
    Fold(lines, n, Initial, SolutionStep)
  }

  /** What parse_solution returns for a text: the loop over its cleaned lines. */
  function SolutionOfText(text: string): Result<Solution> {
    SolutionOf(Text2Lines(text), |Text2Lines(text)|)
  }

  /** parse_solution as written: one loop over the cleaned lines updating the dictionary. */
  method ParseSolution(text: string) returns (r: Result<Solution>)
    ensures r == SolutionOfText(text)
  {
    var lines := Text2Lines(text);
    var sol := Initial;
    var i := 0;
    while i < |lines|
      invariant 0 <= i <= |lines|
      invariant SolutionOf(lines, i) == Ok(sol)
      invariant "routes" in sol
    {
      SolutionNext(lines, i, sol);
      var next := ReadLine(sol, lines[i]);
      if next.Err? {
        SolutionErrorStays(lines, i + 1, |lines|);
        return next;
      }
      sol := next.value;
      i := i + 1;
    }
    r := Ok(sol);
  }

  /** The body of the loop: one line's update of the dictionary. */
  method ReadLine(sol: Solution, line: string) returns (r: Result<Solution>)
    ensures r == SolutionStep(sol, line)
  {
    if Contains(line, "Route") {
      var raw := Visits(line);
      if raw.Err? {
        return Err(raw.error);
      }
      if "routes" !in sol {
        return Err(KeyError("routes"));
      }
      if !sol["routes"].Routes? {
        return Err(AttributeError);
      }
      r := Ok(sol["routes" := Routes(sol["routes"].routes + [raw.value])]);
    } else if ':' in line || ' ' in line {
      var splitAt := if ':' in line then ':' else ' ';
      var kv := SplitOnce(line, splitAt).value;
      r := Ok(sol[Lower(Strip(kv.0)) := Meta(InferType(Strip(kv.1)))]);
    } else {
      r := Ok(sol);
    }
  }

  lemma SolutionNext(lines: seq<string>, i: nat, sol: Solution)
    requires i < |lines| && SolutionOf(lines, i) == Ok(sol)
    ensures SolutionOf(lines, i + 1) == SolutionStep(sol, lines[i])
  {
  }

  /** Once a line has failed, the result stays that failure. */
  lemma SolutionErrorStays(lines: seq<string>, m: nat, n: nat)
    requires m <= n <= |lines| && SolutionOf(lines, m).Err?
    ensures SolutionOf(lines, n) == SolutionOf(lines, m)
  {
    FoldErrorStays(lines, m, n, Initial, SolutionStep);
  }

  // ----- what the loop computes -----

  /** The visits a line contributes when it is a route line with a colon. */
  function RouteOf(line: string): Option<seq<Value>> {
    if IsRouteLine(line) && ':' in line then Some(Visits(line).value) else None
  }

  /** The visits of the route lines among the first n lines, in file order. */
  function RoutesOf(lines: seq<string>, n: nat): seq<seq<Value>>
    requires n <= |lines|
  {
    Picked(lines, n, RouteOf)
  }

  /** A successful read always has a routes entry. */
  lemma {:induction false} SolutionHasRoutes(lines: seq<string>, n: nat)
    requires n <= |lines| && SolutionOf(lines, n).Ok?
    ensures "routes" in SolutionOf(lines, n).value
  {
    if n > 0 {
      SolutionHasRoutes(lines, n - 1);
    }
  }

  /**
   * When every route line has a colon and no metadata line is keyed "routes", the read succeeds
   * and the routes entry lists the route lines' visits in file order.
   */
  lemma {:induction false} RoutesInOrder(lines: seq<string>, n: nat)
    requires n <= |lines|
    requires forall i :: 0 <= i < n && IsRouteLine(lines[i]) ==> ':' in lines[i]
    requires forall i :: 0 <= i < n && IsMetaLine(lines[i]) ==> MetaKey(lines[i]) != "routes"
    ensures SolutionOf(lines, n).Ok? && "routes" in SolutionOf(lines, n).value
    ensures SolutionOf(lines, n).value["routes"] == Routes(RoutesOf(lines, n))
  {
    if n > 0 {
      var m: nat := n - 1;
      RoutesInOrder(lines, m);
      SolutionNext(lines, m, SolutionOf(lines, m).value);
    }
  }

  /** A route line without a colon fails the read with IndexError. */
  lemma RouteWithoutColon(lines: seq<string>, n: nat)
    requires n < |lines| && SolutionOf(lines, n).Ok?
    requires IsRouteLine(lines[n]) && ':' !in lines[n]
    ensures SolutionOf(lines, |lines|) == Err(IndexError)
  {
    SolutionErrorStays(lines, n + 1, |lines|);
  }

  /** After a metadata line keyed "routes", a route line fails the read with AttributeError. */
  lemma RoutesReplaced(lines: seq<string>, i: nat, j: nat)
    requires i < j < |lines| && SolutionOf(lines, j).Ok?
    requires IsMetaLine(lines[i]) && MetaKey(lines[i]) == "routes"
    requires forall k :: i < k < j ==> !IsRouteLine(lines[k])
    requires IsRouteLine(lines[j]) && ':' in lines[j]
    ensures SolutionOf(lines, |lines|) == Err(AttributeError)
  {
    MetaStaysUntilRoute(lines, i, j);
    SolutionNext(lines, j, SolutionOf(lines, j).value);
    RouteIntoMeta(SolutionOf(lines, j).value, lines[j]);
    SolutionErrorStays(lines, j + 1, |lines|);
  }

  /** A route line with a colon, read when the routes entry is a metadata value, fails. */
  lemma RouteIntoMeta(sol: Solution, line: string)
    requires IsRouteLine(line) && ':' in line && RoutesAreMeta()(sol)
    ensures SolutionStep(sol, line) == Err(AttributeError)
  {
  }

  lemma MetaStaysUntilRoute(lines: seq<string>, i: nat, j: nat)
    requires i < j <= |lines| && SolutionOf(lines, j).Ok?
    requires IsMetaLine(lines[i]) && MetaKey(lines[i]) == "routes"
    requires forall k :: i < k < j ==> !IsRouteLine(lines[k])
    ensures "routes" in SolutionOf(lines, j).value && SolutionOf(lines, j).value["routes"].Meta?
  {
    MetaSetAt(lines, j, i);
    forall k | i + 1 <= k < j
      ensures Keeps(SolutionStep, RoutesAreMeta(), lines[k])
    {
      forall sol | RoutesAreMeta()(sol) && SolutionStep(sol, lines[k]).Ok?
        ensures RoutesAreMeta()(SolutionStep(sol, lines[k]).value)
      {
        NonRouteKeepsMeta(sol, lines[k]);
      }
    }
    FoldKeeps(lines, i + 1, j, Initial, SolutionStep, RoutesAreMeta());
  }

  /** The routes entry has been replaced by a metadata value. */
  function RoutesAreMeta(): Solution -> bool {
    (sol: Solution) => "routes" in sol && sol["routes"].Meta?
  }

  /** A line that is not a route line leaves a metadata routes entry a metadata value. */
  lemma NonRouteKeepsMeta(sol: Solution, line: string)
    requires !IsRouteLine(line) && RoutesAreMeta()(sol)
    ensures SolutionStep(sol, line).Ok? && RoutesAreMeta()(SolutionStep(sol, line).value)
  {
  }

  /** Lines with neither a colon nor a space, and no route, leave the solution as it is. */
  lemma SkippedLine(sol: Solution, line: string)
    requires !IsRouteLine(line) && ':' !in line && ' ' !in line
    ensures SolutionStep(sol, line) == Ok(sol)
  {
  }

  /** The key a line sets when it is a metadata line. */
  function MetaKeyOf(line: string): Option<string> {
    if IsMetaLine(line) then Some(MetaKey(line)) else None
  }

  /** The keys of the metadata lines among the first n lines. */
  function MetaKeysOf(lines: seq<string>, n: nat): set<string>
    requires n <= |lines|
  {
    set k | k in Picked(lines, n, MetaKeyOf)
  }

  /** The keys of a successful read are "routes" and the metadata lines' keys, nothing else. */
  lemma {:induction false} SolutionKeys(lines: seq<string>, n: nat)
    requires n <= |lines| && SolutionOf(lines, n).Ok?
    ensures SolutionOf(lines, n).value.Keys == {"routes"} + MetaKeysOf(lines, n)
  {
    if n > 0 {
      SolutionKeys(lines, n - 1);
      SolutionNext(lines, n - 1, SolutionOf(lines, n - 1).value);
      StepKeys(SolutionOf(lines, n - 1).value, lines[n - 1]);
    }
  }

  /** A successful step adds the key of a metadata line and no other key. */
  lemma StepKeys(sol: Solution, line: string)
    requires SolutionStep(sol, line).Ok?
    ensures SolutionStep(sol, line).value.Keys == if IsMetaLine(line) then sol.Keys + {MetaKey(line)} else sol.Keys
  {
  }

  /** A successful step keeps a metadata entry whose key the line does not set. */
  lemma StepKeepsMeta(sol: Solution, line: string, k: string)
    requires SolutionStep(sol, line).Ok? && k in sol && sol[k].Meta?
    requires IsMetaLine(line) ==> MetaKey(line) != k
    ensures k in SolutionStep(sol, line).value && SolutionStep(sol, line).value[k] == sol[k]
  {
  }

  /** A metadata line with no later line of the same key decides that key's value. */
  lemma LastMetaWins(lines: seq<string>, n: nat, i: nat)
    requires i < n <= |lines| && SolutionOf(lines, n).Ok?
    requires IsMetaLine(lines[i])
    requires forall j :: i < j < n && IsMetaLine(lines[j]) ==> MetaKey(lines[j]) != MetaKey(lines[i])
    ensures MetaKey(lines[i]) in SolutionOf(lines, n).value
    ensures SolutionOf(lines, n).value[MetaKey(lines[i])] == Meta(MetaValue(lines[i]))
  {
    var k, v := MetaKey(lines[i]), Meta(MetaValue(lines[i]));
    MetaSetAt(lines, n, i);
    LaterLinesKeep(lines, i, n, k, v);
    FoldKeeps(lines, i + 1, n, Initial, SolutionStep, HasMeta(k, v));
  }

  /** The solution holds `v` under `k`. */
  function HasMeta(k: string, v: Entry): Solution -> bool {
    (sol: Solution) => k in sol && sol[k] == v
  }

  /** Just after a metadata line, its key holds its value. */
  lemma MetaSetAt(lines: seq<string>, n: nat, i: nat)
    requires i < n <= |lines| && SolutionOf(lines, n).Ok? && IsMetaLine(lines[i])
    ensures SolutionOf(lines, i + 1).Ok?
    ensures HasMeta(MetaKey(lines[i]), Meta(MetaValue(lines[i])))(SolutionOf(lines, i + 1).value)
  {
    FoldOkBefore(lines, i, n, Initial, SolutionStep);
    var before := SolutionOf(lines, i).value;
    SolutionNext(lines, i, before);
    MetaStep(before, lines[i]);
  }

  /** Lines after `i` that set no metadata under `k` keep whatever `k` holds. */
  lemma LaterLinesKeep(lines: seq<string>, i: nat, n: nat, k: string, v: Entry)
    requires i < n <= |lines| && v.Meta?
    requires forall j :: i < j < n && IsMetaLine(lines[j]) ==> MetaKey(lines[j]) != k
    ensures forall j :: i + 1 <= j < n ==> Keeps(SolutionStep, HasMeta(k, v), lines[j])
  {
    forall j | i + 1 <= j < n
      ensures Keeps(SolutionStep, HasMeta(k, v), lines[j])
    {
      forall sol | HasMeta(k, v)(sol) && SolutionStep(sol, lines[j]).Ok?
        ensures HasMeta(k, v)(SolutionStep(sol, lines[j]).value)
      {
        StepKeepsMeta(sol, lines[j], k);
      }
    }
  }

  // ----- reading single lines -----

  /**
   * A route line of the form "head: w1 w2 ...", with no colon in the head or the words, lists
   * exactly the typed words.
   */
  lemma VisitsOfRouteLine(head: string, ws: seq<string>)
    requires ':' !in head && AreWords(ws)
    requires forall k :: 0 <= k < |ws| ==> ':' !in ws[k]
    ensures Visits(head + ":" + " " + Join(" ", ws)).Ok?
    ensures Visits(head + ":" + " " + Join(" ", ws)).value == seq(|ws|, k requires 0 <= k < |ws| => Visit(ws[k]))
  {
    var rest := " " + Join(" ", ws);
    JoinAvoids(" ", ws, ':');
    assert ':' !in rest;
    assert head + ":" + " " + Join(" ", ws) == head + [':'] + rest;
    SplitCharOf(head, ':', rest);
    assert rest == [' '] + Join([' '], ws);
    WordsSkipSpace(' ', Join([' '], ws));
    WordsOfJoin(' ', ws);
  }

  /** A line "key:value" that is no route line sets the stripped, lower-cased key to the typed value. */
  lemma MetaOfLine(k: string, v: string)
    requires ':' !in k && !IsRouteLine(k + ":" + v)
    ensures IsMetaLine(k + ":" + v)
    ensures MetaKey(k + ":" + v) == Lower(Strip(k)) && MetaValue(k + ":" + v) == InferType(Strip(v))
  {
    assert k + ":" + v == k + [':'] + v;
    SplitOnceOf(k, ':', v);
  }

  /** A line "key value" with no colon that is no route line splits at its first space. */
  lemma MetaOfSpacedLine(k: string, v: string)
    requires ':' !in k && ':' !in v && ' ' !in k && !IsRouteLine(k + " " + v)
    ensures IsMetaLine(k + " " + v)
    ensures MetaKey(k + " " + v) == Lower(Strip(k)) && MetaValue(k + " " + v) == InferType(Strip(v))
  {
    assert k + " " + v == k + [' '] + v;
    assert ':' !in k + [' '] + v;
    SplitOnceOf(k, ' ', v);
  }

  // ----- examples -----

  lemma VisitDigit(d: char)
    requires IsDigit(d)
    ensures Visit([d]) == I(DigitValue(d))
  {
    assert AllDigits([d]);
    assert [d][..0] == [];
    assert DigitsValue([]) == 0;
    assert DigitsValue([d]) == DigitsValue([d][..0]) * 10 + DigitValue(d);
  }

  lemma RouteOneVisits()
    ensures Visits("Route #1" + ":" + " " + Join(" ", ["1", "2", "3"])) == Ok([I(1), I(2), I(3)])
  {
    var ws := ["1", "2", "3"];
    VisitsOfRouteLine("Route #1", ws);
    VisitDigit('1');
    VisitDigit('2');
    VisitDigit('3');
    var vs := seq(|ws|, k requires 0 <= k < |ws| => Visit(ws[k]));
    assert vs[0] == I(1) && vs[1] == I(2) && vs[2] == I(3);
    assert vs == [I(1), I(2), I(3)];
  }

  lemma RouteOneExample()
    ensures IsRouteLine("Route #1: 1 2 3") && Visits("Route #1: 1 2 3") == Ok([I(1), I(2), I(3)])
  {
    assert MatchAt("Route #1: 1 2 3", "Route", 0);
    assert "Route #1: 1 2 3" == "Route #1" + ":" + " " + Join(" ", ["1", "2", "3"]);
    RouteOneVisits();
  }

  lemma RouteTwoVisits()
    ensures Visits("Route #2" + ":" + " " + Join(" ", ["5", "6"])) == Ok([I(5), I(6)])
  {
    var ws := ["5", "6"];
    VisitsOfRouteLine("Route #2", ws);
    VisitDigit('5');
    VisitDigit('6');
    var vs := seq(|ws|, k requires 0 <= k < |ws| => Visit(ws[k]));
    assert vs[0] == I(5) && vs[1] == I(6);
    assert vs == [I(5), I(6)];
  }

  lemma RouteTwoExample()
    ensures IsRouteLine("Route #2: 5 6") && Visits("Route #2: 5 6") == Ok([I(5), I(6)])
  {
    assert MatchAt("Route #2: 5 6", "Route", 0);
    assert "Route #2: 5 6" == "Route #2" + ":" + " " + Join(" ", ["5", "6"]);
    RouteTwoVisits();
  }

  lemma CostLine()
    ensures IsMetaLine("COST: 10") && MetaKey("COST: 10") == Lower(Strip("COST"))
    ensures MetaValue("COST: 10") == InferType(Strip(" 10"))
  {
    NotContainsMissingChar("COST: 10", "Route", 'R');
    assert "COST: 10" == "COST" + ":" + " 10";
    MetaOfLine("COST", " 10");
  }

  lemma CostExample()
    ensures IsMetaLine("COST: 10") && MetaKey("COST: 10") == "cost" && MetaValue("COST: 10") == I(10)
  {
    CostLine();
    CostKey();
    CostValue();
  }

  lemma CostKey()
    ensures Lower(Strip("COST")) == "cost"
  {
    StripStripped("COST");
  }

  lemma CostValue()
    ensures InferType(Strip(" 10")) == I(10)
  {
    SpacedTen(" 10", "10");
  }

  lemma SpacedTen(t: string, d: string)
    requires t == " 10" && d == "10"
    ensures InferType(Strip(t)) == I(10)
  {
    StripLeadingSpace(' ', d);
    assert [' '] + d == t;
    IntReadsBack(10, x => "");
    assert IntToString(10) == d;
    StripStripped(d);
  }

  /** Two routes and a cost, as the cleaned lines of a solution file. */
  lemma SolutionExample()
    ensures SolutionOf(["Route #1: 1 2 3", "Route #2: 5 6", "COST: 10"], 3)
      == Ok(map["routes" := Routes([[I(1), I(2), I(3)], [I(5), I(6)]]), "cost" := Meta(I(10))])
  {
    var lines := ["Route #1: 1 2 3", "Route #2: 5 6", "COST: 10"];
    var s1 := map["routes" := Routes([[I(1), I(2), I(3)]])];
    var s2 := map["routes" := Routes([[I(1), I(2), I(3)], [I(5), I(6)]])];
    SolutionNext(lines, 0, Initial);
    FirstStep(lines[0]);
    SolutionNext(lines, 1, s1);
    SecondStep(lines[1]);
    SolutionNext(lines, 2, s2);
    ThirdStep(lines[2]);
  }

  // The example lines are parameters here so that the verifier does not evaluate the parser on
  // the literal text.

  lemma FirstStep(line: string)
    requires line == "Route #1: 1 2 3"
    ensures SolutionStep(Initial, line) == Ok(map["routes" := Routes([[I(1), I(2), I(3)]])])
  {
    RouteOneExample();
    RouteStep([], line, [I(1), I(2), I(3)]);
    OneRoute();
  }

  lemma SecondStep(line: string)
    requires line == "Route #2: 5 6"
    ensures SolutionStep(map["routes" := Routes([[I(1), I(2), I(3)]])], line)
      == Ok(map["routes" := Routes([[I(1), I(2), I(3)], [I(5), I(6)]])])
  {
    RouteTwoExample();
    RouteStep([[I(1), I(2), I(3)]], line, [I(5), I(6)]);
    TwoRoutes();
  }

  lemma OneRoute()
    ensures [] + [[I(1), I(2), I(3)]] == [[I(1), I(2), I(3)]]
  {
  }

  lemma TwoRoutes()
    ensures [[I(1), I(2), I(3)]] + [[I(5), I(6)]] == [[I(1), I(2), I(3)], [I(5), I(6)]]
  {
  }

  lemma ThirdStep(line: string)
    requires line == "COST: 10"
    ensures SolutionStep(map["routes" := Routes([[I(1), I(2), I(3)], [I(5), I(6)]])], line)
      == Ok(map["routes" := Routes([[I(1), I(2), I(3)], [I(5), I(6)]]), "cost" := Meta(I(10))])
  {
    CostExample();
    MetaStep(map["routes" := Routes([[I(1), I(2), I(3)], [I(5), I(6)]])], line);
  }

  /** Before any metadata, a route line whose visits parse appends them to the routes list. */
  lemma RouteStep(routes: seq<seq<Value>>, line: string, vs: seq<Value>)
    requires IsRouteLine(line) && Visits(line) == Ok(vs)
    ensures SolutionStep(map["routes" := Routes(routes)], line) == Ok(map["routes" := Routes(routes + [vs])])
  {
    var sol := map["routes" := Routes(routes)];
    assert sol["routes" := Routes(routes + [vs])] == map["routes" := Routes(routes + [vs])];
  }

  /** A metadata line sets its key. */
  lemma MetaStep(sol: Solution, line: string)
    requires IsMetaLine(line)
    ensures SolutionStep(sol, line) == Ok(sol[MetaKey(line) := Meta(MetaValue(line))])
  {
  }

  /** A key and value separated by a space only: "time 180.23". */
  lemma SpaceSeparatedExample()
    ensures IsMetaLine("time 180.23") && MetaKey("time 180.23") == "time" && MetaValue("time 180.23") == F(180.23)
  {
    SpaceLine();
    TimeKey();
    FloatNotInt();
    FloatValue();
  }

  lemma SpaceLine()
    ensures IsMetaLine("time 180.23") && MetaKey("time 180.23") == Lower(Strip("time"))
    ensures MetaValue("time 180.23") == InferType(Strip("180.23"))
  {
    NotContainsMissingChar("time 180.23", "Route", 'R');
    assert "time 180.23" == "time" + " " + "180.23";
    assert ':' !in "time" && ' ' !in "time" && ':' !in "180.23";
    MetaOfSpacedLine("time", "180.23");
  }

  lemma TimeKey()
    ensures Lower(Strip("time")) == "time"
  {
    StripStripped("time");
  }

  lemma FloatNotInt()
    ensures Strip("180.23") == "180.23" && ParseInt("180.23").None?
  {
    StripStripped("180.23");
    assert !AllDigits("180.23") by { assert !IsDigit("180.23"[3]); }
    assert !IsSign("180.23"[0]);
  }

  lemma FloatParts()
    ensures IntPart("180.23") == "180" && FracPart("180.23") == "23"
    ensures DigitsValue("180") == 180 && DigitsValue("23") == 23
  {
    assert CharIndex("180.23", '.') == 3;
    assert "180"[..2] == "18" && "18"[..1] == "1" && "1"[..0] == "";
    assert "23"[..1] == "2" && "2"[..0] == "";
  }

  lemma FloatValue()
    ensures ParseFloat("180.23") == Some(180.23)
  {
    StripStripped("180.23");
    FloatParts();
    assert IsDecimalBody("180.23");
    assert Pow10(2) == 100;
    assert DecimalValue("180.23") == 180.0 + 23.0 / 100.0;
  }
}
