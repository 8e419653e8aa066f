/**
 * parse_solution of the earlier parser (cvrplib/parse/parse_solution.py). It reads metadata lines
 * like the current parser, but a route line is read with `int()` on every piece between single
 * spaces, so a route token that is not an integer makes the read fail.
 */
module CvrplibParseSolution {
  import opened Wrappers
  import opened Text
  import opened Tokens
  import opened Lists
  import opened Stores
  import opened VrplibParseSolution
  import CvrplibParseUtils

  /** The message of int() for a string that is no integer literal. */
  const NotAnInt := "invalid literal for int() with base 10"

  function Same(s: string): string {
    s
  }

  /** `[idx for idx in part.split(" ") if idx]`: the pieces between single spaces, empty ones dropped. */
  function RouteTokens(part: string): seq<string>
  {
    KeepMapped(SplitChar(part, ' '), Same, CvrplibParseUtils.NonEmpty)
  }

  /** `[int(idx) for idx in tokens]`: the numbers, or ValueError at the first token int() rejects. */
  function IntTokens(tokens: seq<string>): (r: Result<seq<Value>>)
    ensures r.Ok? <==> forall k :: 0 <= k < |tokens| ==> ParseInt(tokens[k]).Some?
    ensures r.Ok? ==> |r.value| == |tokens| && forall k :: 0 <= k < |tokens| ==> r.value[k] == I(ParseInt(tokens[k]).value)
    ensures r.Err? ==> r.error == ValueError(NotAnInt)
    decreases |tokens|
  {
    if tokens == [] then Ok([])
    else match ParseInt(tokens[0])
      case None => Err(ValueError(NotAnInt))
      case Some(n) =>
        match IntTokens(tokens[1..])
        case Err(e) => Err(e)
        case Ok(rest) => Ok([I(n)] + rest)
  }

  /**
   * The route of a route line: the integers between its first colon and the next one (or the end);
   * without a colon there is no part 1 (IndexError).
   */
  function RouteVisits(line: string): Result<seq<Value>> {
    SplitCharParts(line, ':');
    if ':' !in line then Err(IndexError) else IntTokens(RouteTokens(SplitChar(line, ':')[1]))
  }

  /** A route line without a colon is an IndexError; otherwise its route is read from part 1. */
  lemma RouteVisitsCases(line: string)
    ensures ':' !in line ==> RouteVisits(line) == Err(IndexError)
    ensures ':' in line ==>
      |SplitChar(line, ':')| >= 2 && RouteVisits(line) == IntTokens(RouteTokens(SplitChar(line, ':')[1]))
  {
    SplitCharParts(line, ':');
  }

  /**
   * One pass of the loop: a route line appends its route to the routes list (a routes entry
   * replaced by metadata has no append: AttributeError); a metadata line sets its key.
   */
  function Step(sol: Solution, line: string): Result<Solution> {
    if IsRouteLine(line) then
      match RouteVisits(line)
      case Err(e) => Err(e)
      case Ok(vs) =>
        if "routes" !in sol then Err(KeyError("routes"))
        else if !sol["routes"].Routes? then Err(AttributeError)
        else Ok(sol["routes" := Routes(sol["routes"].routes + [vs])])
    else if ':' in line || ' ' in line then Ok(sol[MetaKey(line) := Meta(MetaValue(line))])
    else Ok(sol)
  }

  /** The solution after the first n lines, or the error of the first line that fails. */
  function SolutionAfter(lines: seq<string>, n: nat): Result<Solution>
    requires n <= |lines|
  {
    Fold(lines, n, Initial, Step)
  }

  /** What parse_solution returns for a text: the loop over its cleaned lines. */
  function SolutionFor(text: string): Result<Solution> {
    var lines := CvrplibParseUtils.Text2Lines(text);
    SolutionAfter(lines, |lines|)
  }

  /** parse_solution as written: one loop over the cleaned lines updating the dictionary. */
  method ParseSolution(text: string) returns (r: Result<Solution>)
    ensures r == SolutionFor(text)
  {
    var lines := CvrplibParseUtils.Text2Lines(text);
    var sol := Initial;
    var i := 0;
    while i < |lines|
      invariant 0 <= i <= |lines|
      invariant SolutionAfter(lines, i) == Ok(sol)
    {
      var next := ReadLine(sol, lines[i]);
      if next.Err? {
        FoldErrorStays(lines, i + 1, |lines|, Initial, Step);
        return next;
      }
      sol := next.value;
      i := i + 1;
    }
    r := Ok(sol);
  }

  /** The body of the loop: one line's update of the dictionary. */
  method ReadLine(sol: Solution, line: string) returns (r: Result<Solution>)
    ensures r == Step(sol, line)
  {
    if Contains(line, "Route") {
      if ':' !in line {
        return Err(IndexError);
      }
      SplitCharParts(line, ':');
      var route := IntTokens(RouteTokens(SplitChar(line, ':')[1]));
      if route.Err? {
        return Err(route.error);
      }
      if "routes" !in sol {
        return Err(KeyError("routes"));
      }
      if !sol["routes"].Routes? {
        return Err(AttributeError);
      }
      r := Ok(sol["routes" := Routes(sol["routes"].routes + [route.value])]);
    } else if ':' in line || ' ' in line {
      var splitAt := if ':' in line then ':' else ' ';
      var kv := SplitOnce(line, splitAt).value;
      r := Ok(sol[Lower(Strip(kv.0)) := Meta(InferType(Strip(kv.1)))]);
    } else {
      r := Ok(sol);
    }
  }

  // ----- what the loop computes -----

  /** The route a line contributes when it is a route line that reads. */
  function RouteOf(line: string): Option<seq<Value>> {
    if IsRouteLine(line) && RouteVisits(line).Ok? then Some(RouteVisits(line).value) else None
  }

  /** A route line that reads: it has a colon and every token is an integer. */
  predicate ReadableRoute(line: string) {
    IsRouteLine(line) ==> RouteVisits(line).Ok?
  }

  lemma SolutionNext(lines: seq<string>, i: nat, sol: Solution)
    requires i < |lines| && SolutionAfter(lines, i) == Ok(sol)
    ensures SolutionAfter(lines, i + 1) == Step(sol, lines[i])
  {
  }

  /**
   * The routes start empty and every route line appends one route, in file order: when every route
   * line reads and no metadata line is keyed "routes", the routes entry lists the routes of the
   * route lines.
   */
  lemma {:induction false} RoutesInOrder(lines: seq<string>, n: nat)
    requires n <= |lines|
    requires forall i :: 0 <= i < n ==> ReadableRoute(lines[i])
    requires forall i :: 0 <= i < n && IsMetaLine(lines[i]) ==> MetaKey(lines[i]) != "routes"
    ensures SolutionAfter(lines, n).Ok? && "routes" in SolutionAfter(lines, n).value
    ensures SolutionAfter(lines, n).value["routes"] == Routes(Picked(lines, n, RouteOf))
  {
    if n > 0 {
      var m: nat := n - 1;
      RoutesInOrder(lines, m);
      SolutionNext(lines, m, SolutionAfter(lines, m).value);
    }
  }

  /** A route line that does not read stops the loop: the whole read fails with its error. */
  lemma UnreadableRouteFails(lines: seq<string>, n: nat)
    requires n < |lines| && SolutionAfter(lines, n).Ok?
    requires IsRouteLine(lines[n]) && RouteVisits(lines[n]).Err?
    ensures SolutionAfter(lines, |lines|) == Err(RouteVisits(lines[n]).error)
    ensures ':' in lines[n] ==> SolutionAfter(lines, |lines|) == Err(ValueError(NotAnInt))
  {
    FoldErrorStays(lines, n + 1, |lines|, Initial, Step);
    RouteVisitsCases(lines[n]);
  }

  /** Lines with neither a route, a colon nor a space leave the solution as it is. */
  lemma SkippedLine(sol: Solution, line: string)
    requires !IsRouteLine(line) && ':' !in line && ' ' !in line
    ensures Step(sol, line) == Ok(sol)
  {
  }

  /** A metadata line sets its key to its typed value, wherever it appears. */
  lemma MetaStep(sol: Solution, line: string)
    requires IsMetaLine(line)
    ensures Step(sol, line) == Ok(sol[MetaKey(line) := Meta(MetaValue(line))])
  {
  }

  /** A metadata line with no later line of the same key decides that key's value. */
  lemma LastMetaWins(lines: seq<string>, n: nat, i: nat)
    requires i < n <= |lines| && SolutionAfter(lines, n).Ok?
    requires IsMetaLine(lines[i])
    requires forall j :: i < j < n && IsMetaLine(lines[j]) ==> MetaKey(lines[j]) != MetaKey(lines[i])
    ensures MetaKey(lines[i]) in SolutionAfter(lines, n).value
    ensures SolutionAfter(lines, n).value[MetaKey(lines[i])] == Meta(MetaValue(lines[i]))
  {
    var k, v := MetaKey(lines[i]), Meta(MetaValue(lines[i]));
    MetaSetAt(lines, n, i);
    LaterLinesKeep(lines, i, n, k, v);
    FoldKeeps(lines, i + 1, n, Initial, Step, HasMeta(k, v));
  }

  /** The solution holds `v` under `k`. */
  function HasMeta(k: string, v: Entry): Solution -> bool {
    (sol: Solution) => k in sol && sol[k] == v
  }

  /** Just after a metadata line, its key holds its value. */
  lemma MetaSetAt(lines: seq<string>, n: nat, i: nat)
    requires i < n <= |lines| && SolutionAfter(lines, n).Ok? && IsMetaLine(lines[i])
    ensures SolutionAfter(lines, i + 1).Ok?
    ensures HasMeta(MetaKey(lines[i]), Meta(MetaValue(lines[i])))(SolutionAfter(lines, i + 1).value)
  {
    FoldOkBefore(lines, i, n, Initial, Step);
    var before := SolutionAfter(lines, i).value;
    FoldStep(lines, i, Initial, Step, before);
    MetaStep(before, lines[i]);
  }

  /** Lines after `i` that set no metadata under `k` keep whatever `k` holds. */
  lemma LaterLinesKeep(lines: seq<string>, i: nat, n: nat, k: string, v: Entry)
    requires i < n <= |lines| && v.Meta?
    requires forall j :: i < j < n && IsMetaLine(lines[j]) ==> MetaKey(lines[j]) != k
    ensures forall j :: i + 1 <= j < n ==> Keeps(Step, HasMeta(k, v), lines[j])
  {
    forall j | i + 1 <= j < n
      ensures Keeps(Step, HasMeta(k, v), lines[j])
    {
      forall sol | HasMeta(k, v)(sol) && Step(sol, lines[j]).Ok?
        ensures HasMeta(k, v)(Step(sol, lines[j]).value)
      {
        StepKeeps(sol, lines[j], k);
      }
    }
  }

  /** A line that succeeds keeps a metadata entry under any key other than its own. */
  lemma StepKeeps(sol: Solution, line: string, k: string)
    requires Step(sol, line).Ok? && k in sol && sol[k].Meta?
    requires IsMetaLine(line) ==> MetaKey(line) != k
    ensures k in Step(sol, line).value && Step(sol, line).value[k] == sol[k]
  {
  }

  // ----- reading route lines -----

  /**
   * A route line "head: n1 n2 ..." with the numbers single-spaced and no colon in the head reads
   * as exactly those numbers.
   */
  lemma RouteOfLine(head: string, ws: seq<string>)
    requires ':' !in head
    requires forall k :: 0 <= k < |ws| ==> ws[k] != [] && ' ' !in ws[k] && ':' !in ws[k]
    ensures |SplitChar(head + [':'] + ([' '] + Join([' '], ws)), ':')| >= 2
    ensures RouteTokens(SplitChar(head + [':'] + ([' '] + Join([' '], ws)), ':')[1]) == ws
  {
    var rest := [' '] + Join([' '], ws);
    JoinAvoids([' '], ws, ':');
    SplitCharOf(head, ':', rest);
    SpacedTokens(ws);
  }

  /** The pieces of " n1 n2 ..." between single spaces, empty ones dropped, are the numbers. */
  lemma SpacedTokens(ws: seq<string>)
    requires forall k :: 0 <= k < |ws| ==> ws[k] != [] && ' ' !in ws[k]
    ensures RouteTokens([' '] + Join([' '], ws)) == ws
  {
    if |ws| == 0 {
      SpaceTokens();
    } else {
      var rest := [' '] + Join([' '], ws);
      assert rest == Join([' '], [[]] + ws) by {
        JoinAfterEmpty([' '], ws);
      }
      SpacedWords(ws, rest);
    }
  }

  lemma JoinAfterEmpty(sep: string, ws: seq<string>)
    requires |ws| >= 1
    ensures Join(sep, [[]] + ws) == sep + Join(sep, ws)
  {
    assert ([[]] + ws)[1..] == ws;
  }

  lemma SpacedWords(ws: seq<string>, rest: string)
    requires |ws| >= 1 && rest == Join([' '], [[]] + ws)
    requires forall k :: 0 <= k < |ws| ==> ws[k] != [] && ' ' !in ws[k]
    ensures RouteTokens(rest) == ws
  {
    SplitCharJoin(' ', [[]] + ws);
    SkipEmpty(ws);
    KeepMappedFixed(ws, Same, CvrplibParseUtils.NonEmpty);
  }

  lemma SpaceTokens()
    ensures RouteTokens([' ']) == []
  {
    SplitCharFirst([], ' ', []);
    SplitCharParts([], ' ');
    assert [' '] == [] + [' '] + [];
  }

  lemma SkipEmpty(ws: seq<string>)
    ensures KeepMapped([[]] + ws, Same, CvrplibParseUtils.NonEmpty) == KeepMapped(ws, Same, CvrplibParseUtils.NonEmpty)
  {
    assert ([[]] + ws)[1..] == ws;
  }

  /**
   * The route of a line "head: n1 n2 ..." with the tokens single-spaced and no colon in the head
   * is the tokens read by int(), or ValueError when one of them is not an integer.
   */
  lemma RouteVisitsOfLine(head: string, ws: seq<string>)
    requires ':' !in head
    requires forall k :: 0 <= k < |ws| ==> ws[k] != [] && ' ' !in ws[k] && ':' !in ws[k]
    ensures RouteVisits(head + [':'] + ([' '] + Join([' '], ws))) == IntTokens(ws)
  {
    var line := head + [':'] + ([' '] + Join([' '], ws));
    assert line[|head|] == ':';
    RouteOfLine(head, ws);
  }
}
