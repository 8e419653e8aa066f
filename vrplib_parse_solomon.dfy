/**
 * The Solomon VRPTW reader of the current parser (vrplib/parse/parse_solomon.py): a preamble
 * check, the vehicle count and capacity, and the customer table split into its columns.
 */
module VrplibParseSolomon {
  import opened Wrappers
  import opened Text
  import opened Tokens
  import opened Instances
  import opened VrplibParseUtils
  import opened Geometry
  import opened VrplibParseDistances

  const SolomonFormatMessage := "Instance does not conform to the Solomon format."

  /** is_valid_solomon_instance: the checks in source order; a missing line fails like a failed check. */
  function CheckSolomon(lines: seq<string>): (r: Result<()>)
    ensures r.Ok? <==>
      && |lines| >= 5
      && lines[0] != ""
      && Contains(lines[1], "VEHICLE")
      && Contains(lines[2], "NUMBER") && Contains(lines[2], "CAPACITY")
      && Contains(lines[4], "CUSTOMER")
    ensures r.Err? ==> r.error == RuntimeError(SolomonFormatMessage)
  {
    var fail := Err(RuntimeError(SolomonFormatMessage));
    if |lines| < 1 || lines[0] == "" then fail
    else if |lines| < 2 || !Contains(lines[1], "VEHICLE") then fail
    else if |lines| < 3 || !Contains(lines[2], "NUMBER") then fail
    else if !Contains(lines[2], "CAPACITY") then fail
    else if |lines| < 5 || !Contains(lines[4], "CUSTOMER") then fail
    else Ok(())
  }

  /** `[int(num) for num in tokens]`: the first token int() refuses stops the comprehension. */
  function Ints(tokens: seq<string>): (r: Result<seq<int>>)
    ensures r.Ok? <==> forall k :: 0 <= k < |tokens| ==> ParseInt(tokens[k]).Some?
    ensures r.Ok? ==> |r.value| == |tokens| && forall k :: 0 <= k < |tokens| ==> r.value[k] == ParseInt(tokens[k]).value
    ensures r.Err? ==> r.error.ValueError?
  {
    if tokens == [] then Ok([])
    else match ParseInt(tokens[0])
      case None => Err(ValueError("invalid literal for int()"))
      case Some(n) =>
        match Ints(tokens[1..])
        case Err(e) => Err(e)
        case Ok(ns) => Ok([n] + ns)
  }

  /** `vehicles, capacity = [int(num) for num in line.split()]`: exactly two integers. */
  function Header(line: string): (r: Result<(int, int)>)
    ensures r.Ok? <==> |Words(line)| == 2 && ParseInt(Words(line)[0]).Some? && ParseInt(Words(line)[1]).Some?
    ensures r.Ok? ==> r.value == (ParseInt(Words(line)[0]).value, ParseInt(Words(line)[1]).value)
    ensures r.Err? ==> r.error.ValueError?
  {
    match Ints(Words(line))
    case Err(e) => Err(e)
    case Ok(ns) =>
      if |ns| < 2 then Err(ValueError("not enough values to unpack"))
      else if |ns| > 2 then Err(ValueError("too many values to unpack"))
      else Ok((ns[0], ns[1]))
  }

  /** `lines[6:]`, empty when there are at most six lines. */
  function DataLines(lines: seq<string>): (r: seq<string>)
    ensures |lines| >= 6 ==> r == lines[6..]
    ensures |lines| < 6 ==> r == []
  {
    if |lines| >= 6 then lines[6..] else []
  }

  /**
   * What the column indexing accepts of the rows genfromtxt read: rows of differing length are
   * refused by genfromtxt itself, no row or a single row gives a one-dimensional array that
   * `data[:, 1:3]` cannot index, and `data[:, 6]` needs seven columns.
   */
  function DataArray(grid: seq<seq<int>>): (r: Result<seq<seq<int>>>)
    ensures r.Ok? <==> |grid| >= 2 && Rectangular(grid) && |grid[0]| >= 7
    ensures r.Ok? ==> r.value == grid
    ensures r.Err? && Rectangular(grid) ==> r.error == IndexError
  {
    if !Rectangular(grid) then Err(ValueError("Some errors were detected"))
    else if |grid| < 2 then Err(IndexError)
    else if |grid[0]| < 7 then Err(IndexError)
    else Ok(grid)
  }

  /** A table with at least seven columns in every row. */
  predicate Wide(data: seq<seq<int>>) {
    forall i :: 0 <= i < |data| ==> |data[i]| >= 7
  }

  /** `data[:, k]`. */
  function IntColumn(data: seq<seq<int>>, k: nat): (c: seq<Value>)
    requires forall i :: 0 <= i < |data| ==> k < |data[i]|
  {
    seq(|data|, i requires 0 <= i < |data| => I(data[i][k]))
  }

  /** `data[:, k:k + 2]`. */
  function IntPairs(data: seq<seq<int>>, k: nat): (t: seq<seq<Value>>)
    requires forall i :: 0 <= i < |data| ==> k + 1 < |data[i]|
  {
    seq(|data|, i requires 0 <= i < |data| => [I(data[i][k]), I(data[i][k + 1])])
  }

  /** Columns 1 and 2 as the coordinates pairwise_euclidean computes with. */
  function Coords(data: seq<seq<int>>): (p: seq<seq<real>>)
    requires Wide(data)
  {
    seq(|data|, i requires 0 <= i < |data| => [data[i][1] as real, data[i][2] as real])
  }

  /** The instance parse_solomon returns for a checked preamble and a checked data array. */
  function SolomonInstance(name: string, header: (int, int), data: seq<seq<int>>, sqrt: real -> real): (inst: Instance)
    requires Wide(data)
  {
    map[
      "name" := Scalar(S(name)),
      "vehicles" := Scalar(I(header.0)),
      "capacity" := Scalar(I(header.1)),
      "node_coord" := Table(IntPairs(data, 1)),
      "demand" := Vector(IntColumn(data, 3)),
      "time_window" := Table(IntPairs(data, 4)),
      "service_time" := Vector(IntColumn(data, 6)),
      "edge_weight" := FloatTable(PairwiseEuclidean(Coords(data), sqrt))
    ]
  }

  /**
   * parse_solomon as a function of the text; genfromtxt (read the data lines as rows of ints)
   * and the square root are parameters.
   */
  function SolomonOf(text: string, genfromtxt: seq<string> -> Result<seq<seq<int>>>, sqrt: real -> real): Result<Instance> {
    var lines := Text2Lines(text);
    match CheckSolomon(lines)
    case Err(e) => Err(e)
    case Ok(_) =>
      match Header(lines[3])
      case Err(e) => Err(e)
      case Ok(vc) =>
        match genfromtxt(DataLines(lines))
        case Err(e) => Err(e)
        case Ok(grid) =>
          match DataArray(grid)
          case Err(e) => Err(e)
          case Ok(data) => Ok(SolomonInstance(lines[0], vc, data, sqrt))
  }

  /** parse_solomon: check the preamble, then fill the instance entry by entry. */
  method ParseSolomon(text: string, genfromtxt: seq<string> -> Result<seq<seq<int>>>, sqrt: real -> real) returns (r: Result<Instance>)
    ensures r == SolomonOf(text, genfromtxt, sqrt)
  {
    var lines := Text2Lines(text);
    var valid := CheckSolomon(lines);
    if valid.Err? {
      return Err(valid.error);
    }
    var instance: Instance := map["name" := Scalar(S(lines[0]))];
    var header := Header(lines[3]);
    if header.Err? {
      return Err(header.error);
    }
    instance := instance["vehicles" := Scalar(I(header.value.0))];
    instance := instance["capacity" := Scalar(I(header.value.1))];
    var grid := genfromtxt(DataLines(lines));
    if grid.Err? {
      return Err(grid.error);
    }
    var checked := DataArray(grid.value);
    if checked.Err? {
      return Err(checked.error);
    }
    var data := checked.value;
    instance := instance["node_coord" := Table(IntPairs(data, 1))];
    instance := instance["demand" := Vector(IntColumn(data, 3))];
    instance := instance["time_window" := Table(IntPairs(data, 4))];
    instance := instance["service_time" := Vector(IntColumn(data, 6))];
    instance := instance["edge_weight" := FloatTable(PairwiseEuclidean(Coords(data), sqrt))];
    r := Ok(instance);
    assert instance == SolomonInstance(lines[0], header.value, data, sqrt);
  }

  // ----- properties of the reader -----

  /**
   * A text fails exactly when its preamble, its vehicle line or its data fails; a preamble that
   * does not conform, including one too short to inspect, gives RuntimeError.
   */
  lemma SolomonErrors(text: string, genfromtxt: seq<string> -> Result<seq<seq<int>>>, sqrt: real -> real)
    ensures var lines := Text2Lines(text);
      SolomonOf(text, genfromtxt, sqrt).Err? <==>
        || CheckSolomon(lines).Err?
        || Header(lines[3]).Err?
        || genfromtxt(DataLines(lines)).Err?
        || DataArray(genfromtxt(DataLines(lines)).value).Err?
    ensures CheckSolomon(Text2Lines(text)).Err? ==>
      SolomonOf(text, genfromtxt, sqrt) == Err(RuntimeError(SolomonFormatMessage))
    ensures |Text2Lines(text)| < 5 ==> SolomonOf(text, genfromtxt, sqrt) == Err(RuntimeError(SolomonFormatMessage))
  {
  }

  /** A successful parse is the instance of its first line, its header and its data array. */
  lemma SolomonOk(text: string, genfromtxt: seq<string> -> Result<seq<seq<int>>>, sqrt: real -> real)
    requires SolomonOf(text, genfromtxt, sqrt).Ok?
    ensures var lines := Text2Lines(text);
      && |lines| >= 5 && Header(lines[3]).Ok? && genfromtxt(DataLines(lines)).Ok?
      && DataArray(genfromtxt(DataLines(lines)).value).Ok?
      && Wide(genfromtxt(DataLines(lines)).value)
      && SolomonOf(text, genfromtxt, sqrt).value
        == SolomonInstance(lines[0], Header(lines[3]).value, genfromtxt(DataLines(lines)).value, sqrt)
  {
  }

  /**
   * Each data line i gives node i: columns 1-2 its coordinates, 3 its demand, 4-5 its time
   * window and 6 its service time, column 0 being dropped.
   */
  lemma InstanceColumns(name: string, header: (int, int), data: seq<seq<int>>, sqrt: real -> real)
    requires Wide(data)
    ensures var inst := SolomonInstance(name, header, data, sqrt);
      && inst.Keys == {"name", "vehicles", "capacity", "node_coord", "demand", "time_window", "service_time", "edge_weight"}
      && inst["name"] == Scalar(S(name))
      && inst["vehicles"] == Scalar(I(header.0)) && inst["capacity"] == Scalar(I(header.1))
      && inst["node_coord"].Table? && |inst["node_coord"].rows| == |data|
      && inst["demand"].Vector? && |inst["demand"].items| == |data|
      && inst["time_window"].Table? && |inst["time_window"].rows| == |data|
      && inst["service_time"].Vector? && |inst["service_time"].items| == |data|
      && forall i :: 0 <= i < |data| ==>
        && inst["node_coord"].rows[i] == [I(data[i][1]), I(data[i][2])]
        && inst["demand"].items[i] == I(data[i][3])
        && inst["time_window"].rows[i] == [I(data[i][4]), I(data[i][5])]
        && inst["service_time"].items[i] == I(data[i][6])
  {
  }

  /**
   * The edge weights have one row and one column per data line, hold the distance between the
   * coordinates of the two nodes, and form a symmetric matrix with zero diagonal.
   */
  lemma InstanceEdgeWeight(name: string, header: (int, int), data: seq<seq<int>>, sqrt: real -> real)
    requires Wide(data) && sqrt(0.0) == 0.0
    ensures var d := PairwiseEuclidean(Coords(data), sqrt);
      && SolomonInstance(name, header, data, sqrt)["edge_weight"] == FloatTable(d)
      && |d| == |data| && SymmetricZeroDiagonal(d)
      && forall i, j :: 0 <= i < |data| && 0 <= j < |data| ==>
        d[i][j] == Dist([data[i][1] as real, data[i][2] as real], [data[j][1] as real, data[j][2] as real], sqrt)
  {
    PairwiseEuclideanSymmetric(Coords(data), sqrt);
  }

  /**
   * A parsed instance: name is the first line, vehicles and capacity the two integers of the
   * fourth, each data line one node (see InstanceColumns), and the edge weights the symmetric
   * distance matrix of the coordinates with zero diagonal (see InstanceEdgeWeight).
   */
  lemma SolomonFields(text: string, genfromtxt: seq<string> -> Result<seq<seq<int>>>, sqrt: real -> real)
    requires SolomonOf(text, genfromtxt, sqrt).Ok? && sqrt(0.0) == 0.0
    ensures var lines := Text2Lines(text);
      var inst := SolomonOf(text, genfromtxt, sqrt).value;
      var data := genfromtxt(DataLines(lines)).value;
      && inst["name"] == Scalar(S(lines[0]))
      && |Words(lines[3])| == 2
      && inst["vehicles"] == Scalar(I(ParseInt(Words(lines[3])[0]).value))
      && inst["capacity"] == Scalar(I(ParseInt(Words(lines[3])[1]).value))
      && |data| >= 2 && Wide(data)
      && inst == SolomonInstance(lines[0], Header(lines[3]).value, data, sqrt)
      && inst["edge_weight"] == FloatTable(PairwiseEuclidean(Coords(data), sqrt))
      && SymmetricZeroDiagonal(PairwiseEuclidean(Coords(data), sqrt))
  {
    SolomonOk(text, genfromtxt, sqrt);
    var lines := Text2Lines(text);
    var data := genfromtxt(DataLines(lines)).value;
    InstanceColumns(lines[0], Header(lines[3]).value, data, sqrt);
    InstanceEdgeWeight(lines[0], Header(lines[3]).value, data, sqrt);
  }

  // ----- the test cases -----

  /** A string shorter than sub does not contain it. */
  lemma ShortNotContains(s: string, sub: string)
    requires |s| < |sub|
    ensures !Contains(s, sub)
  {
  }

  /** Preambles that do not conform: an empty first line, no VEHICLE, no NUMBER, no CUSTOMER. */
  lemma InvalidPreambles()
    ensures CheckSolomon([""]) == Err(RuntimeError(SolomonFormatMessage))
    ensures CheckSolomon(["NAME", "CARS"]) == Err(RuntimeError(SolomonFormatMessage))
    ensures CheckSolomon(["NAME", "VEHICLES", "?"]) == Err(RuntimeError(SolomonFormatMessage))
    ensures CheckSolomon(["NAME", "VEHICLES", "NUMBER CAPACITY", "20 100", "wrong"]) == Err(RuntimeError(SolomonFormatMessage))
  {
    ShortNotContains("CARS", "VEHICLE");
    ShortNotContains("?", "NUMBER");
    ShortNotContains("wrong", "CUSTOMER");
  }

  /** The data of the two-customer C101 text split into its columns. */
  lemma C101Columns(name: string, header: (int, int), sqrt: real -> real)
    ensures var data := [[0, 40, 50, 0, 0, 1236, 0], [1, 45, 68, 10, 912, 967, 90]];
      var inst := SolomonInstance(name, header, data, sqrt);
      && inst["node_coord"] == Table([[I(40), I(50)], [I(45), I(68)]])
      && inst["demand"] == Vector([I(0), I(10)])
      && inst["time_window"] == Table([[I(0), I(1236)], [I(912), I(967)]])
      && inst["service_time"] == Vector([I(0), I(90)])
  {
    var data := [[0, 40, 50, 0, 0, 1236, 0], [1, 45, 68, 10, 912, 967, 90]];
    InstanceColumns(name, header, data, sqrt);
  }

  /** Leading whitespace does not change str.split(). */
  lemma {:induction false} WordsAfterSpaces(gap: string, s: string)
    requires forall k :: 0 <= k < |gap| ==> IsSpace(gap[k])
    ensures Words(gap + s) == Words(s)
  {
    if gap != [] {
      assert gap + s == [gap[0]] + (gap[1..] + s);
      WordsSkipSpace(gap[0], gap[1..] + s);
      WordsAfterSpaces(gap[1..], s);
    } else {
      assert gap + s == s;
    }
  }

  /** A vehicle line of two digit strings apart reads as those two numbers. */
  lemma HeaderOfDigits(a: string, gap: string, b: string)
    requires a != [] && AllDigits(a) && b != [] && AllDigits(b)
    requires gap != [] && forall k :: 0 <= k < |gap| ==> IsSpace(gap[k])
    ensures Header(a + gap + b) == Ok((DigitsValue(a) as int, DigitsValue(b) as int))
  {
    AllDigitsNoSpace(a);
    AllDigitsNoSpace(b);
    assert a + gap + b == a + (gap + b);
    WordsOfWordThen(a, gap + b);
    WordsAfterSpaces(gap, b);
    assert b + "" == b;
    WordsOfWordThen(b, "");
    StripStripped(a);
    StripStripped(b);
  }

  /** The vehicle line of C101: 25 vehicles of capacity 200. */
  lemma C101Header()
    ensures Header("25" + "         " + "200") == Ok((25, 200))
  {
    HeaderOfDigits("25", "         ", "200");
  }
}
