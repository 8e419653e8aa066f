/**
 * The instance reader of the current parser (vrplib/parse/parse_vrplib.py): specification
 * lines become typed entries under lower-cased keys, section blocks become arrays under the
 * lower-cased section name, and edge weights are computed when no explicit section gives them.
 */
module VrplibParseVrplib {
  import opened Wrappers
  import opened Text
  import opened Tokens
  import opened Lists
  import opened Stores
  import opened Instances
  import opened VrplibParseUtils
  import opened VrplibGroup
  import opened VrplibParseDistances

  const NotEnoughValues := "not enough values to unpack"
  const UsedTwice := " is used both as specification and section."

  // ----- parse_specification -----

  /**
   * parse_specification: split at the first colon, strip both sides, lower-case the key and type
   * the value; a line without a colon cannot be unpacked into two parts.
   */
  function ParseSpecification(line: string): (r: Result<(string, Value)>)
    ensures r.Ok? <==> ':' in line
    ensures r.Err? ==> r == Err(ValueError(NotEnoughValues))
  {
    match SplitOnce(line, ':')
    case None => Err(ValueError(NotEnoughValues))
    case Some((k, v)) => Ok((Lower(Strip(k)), InferType(Strip(v))))
  }

  /** The key is the text before the first colon, stripped and lower-cased; the value is everything after it. */
  lemma ParseSpecificationSplit(k: string, v: string)
    requires ':' !in k
    ensures ParseSpecification(k + ":" + v) == Ok((Lower(Strip(k)), InferType(Strip(v))))
  {
    SplitOnceOf(k, ':', v);
  }

  /** Only the first colon separates: "COMMENT: BKS:1" is the comment "BKS:1". */
  lemma FirstColonExample()
    ensures ParseSpecification("COMMENT: BKS:1") == Ok(("comment", S("BKS:1")))
  {
    assert "COMMENT: BKS:1" == "COMMENT" + ":" + " BKS:1";
    ParseSpecificationSplit("COMMENT", " BKS:1");
    CommentKey();
    CommentValue();
  }

  lemma CommentKey()
    ensures Lower(Strip("COMMENT")) == "comment"
  {
    StripStripped("COMMENT");
  }

  lemma CommentValue()
    ensures InferType(Strip(" BKS:1")) == S("BKS:1")
  {
    StripLeadingSpace(' ', "BKS:1");
    assert [' '] + "BKS:1" == " BKS:1";
    StripStripped("BKS:1");
    InferTypeWord("BKS:1");
  }

  // ----- parse_section -----

  /** The section name: the stripped header without a trailing "_SECTION", lower-cased. */
  function SectionName(header: string): (name: string)
    ensures EndsWith(Strip(header), "_SECTION") ==> name == Lower(Strip(header)[..|Strip(header)| - 8])
    ensures !EndsWith(Strip(header), "_SECTION") ==> name == Lower(Strip(header))
  {
    Lower(RemoveSuffix(Strip(header), "_SECTION"))
  }

  /** The typed tokens of one data line. */
  function Row(line: string): (r: seq<Value>)
    ensures |r| == |Words(line)| && forall j :: 0 <= j < |r| ==> r[j] == InferType(Words(line)[j])
  {
    seq(|Words(line)|, j requires 0 <= j < |Words(line)| => InferType(Words(line)[j]))
  }

  function Rows(lines: seq<string>): (r: seq<seq<Value>>)
    ensures |r| == |lines| && forall i :: 0 <= i < |lines| ==> r[i] == Row(lines[i])
  {
    seq(|lines|, i requires 0 <= i < |lines| => Row(lines[i]))
  }

  /** `row[1:]` for every row: the index column removed. */
  function DropIndex(rows: seq<seq<Value>>): (r: seq<seq<Value>>)
    ensures |r| == |rows|
    ensures forall i :: 0 <= i < |rows| ==> r[i] == if rows[i] == [] then [] else rows[i][1..]
  {
    seq(|rows|, i requires 0 <= i < |rows| => if rows[i] == [] then [] else rows[i][1..])
  }

  /** The depot terminator: -1, also when it was read as a float. */
  predicate IsTerminator(v: Value) {
    v == I(-1) || v == F(-1.0)
  }

  /** A 1-based depot index made 0-based. */
  function Decrement(v: Value): Value
    requires Numeric(v)
  {
    match v
    case I(n) => I(n - 1)
    case F(x) => F(x - 1.0)
  }

  /** `data[data != -1] - 1` on numeric values, in row-major order. */
  function DepotValues(xs: seq<Value>): (r: seq<Value>)
    requires AllNumeric(xs)
    ensures |r| <= |xs|
    decreases |xs|
  {
    if xs == [] then []
    else (if IsTerminator(xs[0]) then [] else [Decrement(xs[0])]) + DepotValues(xs[1..])
  }

  /**
   * The depot section: numpy needs equal-length rows (ValueError otherwise) and cannot subtract
   * from strings (TypeError); the terminators are dropped and the rest shifted to 0-based.
   */
  function Depot(rows: seq<seq<Value>>): Result<Field> {
    if !Rectangular(rows) then Err(ValueError(Inhomogeneous))
    else if !AllNumeric(Flatten(rows)) then Err(TypeError)
    else Ok(Vector(DepotValues(Flatten(rows))))
  }

  /**
   * Any other section: ragged rows stay a list of rows without the index column; equal rows become
   * an array without it, squeezed to one dimension when a single column remains.
   */
  function SectionData(rows: seq<seq<Value>>): (f: Field)
    ensures rows == [] ==> f == Vector([])
    ensures rows != [] && !Rectangular(rows) ==> f == Table(DropIndex(rows))
    ensures rows != [] && Rectangular(rows) && |rows[0]| == 2 ==> f == Vector(seq(|rows|, i requires 0 <= i < |rows| => rows[i][1]))
    ensures rows != [] && Rectangular(rows) && |rows[0]| != 2 ==> f == Table(DropIndex(rows))
  {
    if rows == [] then Vector([])
    else if Rectangular(rows) && |rows[0]| == 2 then Vector(seq(|rows|, i requires 0 <= i < |rows| => rows[i][1]))
    else Table(DropIndex(rows))
  }

  /** The name of a block: its header's section name (an empty block has none: parse_section fails on it). */
  function BlockName(lines: seq<string>): string {
    if lines == [] then "" else SectionName(lines[0])
  }

  /** The data parse_section gives a block, given the instance read so far. */
  function SectionValue(lines: seq<string>, inst: Instance, sqrt: real -> real): (r: Result<Field>)
    ensures lines == [] ==> r == Err(IndexError)
  {
    if lines == [] then Err(IndexError)
    else
      var name := SectionName(lines[0]);
      var rows := Rows(lines[1..]);
      if name == "edge_weight" then ParseDistances(rows, inst, sqrt)
      else if name == "depot" then Depot(rows)
      else Ok(SectionData(rows))
  }

  /** parse_section: the name and the data of one block. */
  function ParseSection(lines: seq<string>, inst: Instance, sqrt: real -> real): (r: Result<(string, Field)>)
    ensures r.Ok? ==> lines != [] && r.value.0 == SectionName(lines[0])
    ensures r.Ok? <==> SectionValue(lines, inst, sqrt).Ok?
    ensures r.Ok? ==> r.value == (BlockName(lines), SectionValue(lines, inst, sqrt).value)
    ensures r.Err? ==> r.error == SectionValue(lines, inst, sqrt).error
  {
    match SectionValue(lines, inst, sqrt)
    case Err(e) => Err(e)
    case Ok(d) => Ok((BlockName(lines), d))
  }

  /** Any block other than edge_weight and depot is read by its rows alone. */
  lemma DataSection(lines: seq<string>, inst: Instance, sqrt: real -> real)
    requires lines != [] && SectionName(lines[0]) != "edge_weight" && SectionName(lines[0]) != "depot"
    ensures ParseSection(lines, inst, sqrt) == Ok((SectionName(lines[0]), SectionData(Rows(lines[1..]))))
  {
  }

  /** With no terminator among them, every depot is kept, shifted by one, in order. */
  lemma {:induction false} DepotValuesNoTerminator(xs: seq<Value>)
    requires AllNumeric(xs)
    requires forall i :: 0 <= i < |xs| ==> !IsTerminator(xs[i])
    ensures |DepotValues(xs)| == |xs|
    ensures forall i :: 0 <= i < |xs| ==> DepotValues(xs)[i] == Decrement(xs[i])
    decreases |xs|
  {
    if xs != [] {
      DepotValuesNoTerminator(xs[1..]);
    }
  }

  /** Terminators anywhere are dropped: appending one changes nothing. */
  lemma {:induction false} DepotValuesAppendTerminator(xs: seq<Value>, t: Value)
    requires AllNumeric(xs) && IsTerminator(t)
    ensures DepotValues(xs + [t]) == DepotValues(xs)
    decreases |xs|
  {
    if xs == [] {
      assert [t][1..] == [];
    } else {
      assert (xs + [t])[1..] == xs[1..] + [t];
      DepotValuesAppendTerminator(xs[1..], t);
    }
  }

  /** A depot section "1", "-1" is the single depot 0. */
  lemma DepotExample(inst: Instance, sqrt: real -> real)
    ensures ParseSection(["DEPOT_SECTION", "1", "-1"], inst, sqrt) == Ok(("depot", Vector([I(0)])))
  {
    var lines := ["DEPOT_SECTION", "1", "-1"];
    DepotName();
    assert lines[1..] == ["1", "-1"];
    DepotRows();
    DepotOfRows();
  }

  lemma DepotName()
    ensures SectionName("DEPOT_SECTION") == "depot"
  {
    var h := "DEPOT_SECTION";
    StripStripped(h);
    assert EndsWith(h, "_SECTION");
    assert h[..|h| - 8] == "DEPOT";
  }

  lemma DepotRows()
    ensures Rows(["1", "-1"]) == [[I(1)], [I(-1)]]
  {
    TokenRow("1");
    TokenRow("-1");
    OneInt();
    MinusOneInt();
  }

  lemma OneInt()
    ensures InferType("1") == I(1)
  {
    StripStripped("1");
  }

  lemma MinusOneInt()
    ensures InferType("-1") == I(-1)
  {
    StripStripped("-1");
    assert "-1"[1..] == "1";
  }

  lemma DepotOfRows()
    ensures Depot([[I(1)], [I(-1)]]) == Ok(Vector([I(0)]))
  {
    var rows := [[I(1)], [I(-1)]];
    assert Flatten(rows) == [I(1), I(-1)] by {
      assert Flatten(rows[1..]) == [I(-1)] + Flatten(rows[2..]);
    }
    assert DepotValues([I(1), I(-1)]) == [I(0)] by {
      assert [I(1), I(-1)][1..] == [I(-1)];
      assert DepotValues([I(-1)]) == [] + DepotValues([]);
    }
  }

  /** A line holding one token is a row of one typed value. */
  lemma TokenRow(t: string)
    requires t != [] && NoSpace(t)
    ensures Row(t) == [InferType(t)]
  {
    OneToken(t);
  }

  /** A token without whitespace is the only word of its line. */
  lemma OneToken(t: string)
    requires t != [] && NoSpace(t)
    ensures Words(t) == [t]
  {
    WordsOfJoin('\t', [t]);
  }

  // ----- parse_vrplib -----

  /** One specification line as an instance entry. */
  function SpecEntry(line: string): Result<(string, Field)> {
    match ParseSpecification(line)
    case Err(e) => Err(e)
    case Ok(kv) => Ok((kv.0, Scalar(kv.1)))
  }

  /** The instance after the specification loop over specs[0..n): later keys overwrite earlier ones. */
  function SpecsInstance(specs: seq<string>, n: nat): Result<Instance>
    requires n <= |specs|
  {
    StoreAll(specs, n, SpecEntry)
  }

  /** The error for a name used both as a specification and a section (or by two sections). */
  function UsedTwiceError(name: string): Error {
    ValueError(Upper(name) + UsedTwice)
  }

  /** The instance after the section loop over sections[0..n), starting from the specifications. */
  function SectionsInstance(sections: seq<seq<string>>, n: nat, specs: Instance, sqrt: real -> real): Result<Instance>
    requires n <= |sections|
  {
    StoreFresh(sections, n, specs, BlockName, (b, m) => SectionValue(b, m, sqrt), UsedTwiceError)
  }

  /** The final step: edge weights from the specifications when asked for and not given. */
  function WithEdgeWeights(inst: Instance, compute: bool, sqrt: real -> real): Result<Instance> {
    if inst != map[] && compute && "edge_weight" !in inst then
      match ParseDistances([], inst, sqrt)
      case Err(e) => Err(e)
      case Ok(d) => Ok(inst["edge_weight" := d])
    else Ok(inst)
  }

  /** The steps of parse_vrplib after the grouping: the specifications, the sections, the edge weights. */
  function InstanceOfGroups(grouped: Result<(seq<string>, seq<seq<string>>)>, compute: bool, sqrt: real -> real): Result<Instance> {
    match grouped
    case Err(e) => Err(e)
    case Ok(g) =>
      match SpecsInstance(g.0, |g.0|)
      case Err(e) => Err(e)
      case Ok(specs) =>
        match SectionsInstance(g.1, |g.1|, specs, sqrt)
        case Err(e) => Err(e)
        case Ok(inst) => WithEdgeWeights(inst, compute, sqrt)
  }

  /** parse_vrplib, stated over the corrected grouping of the cleaned lines. */
  function VrplibInstance(text: string, compute: bool, sqrt: real -> real): Result<Instance> {
    InstanceOfGroups(GroupSpec(Text2Lines(text)), compute, sqrt)
  }

  /** parse_vrplib with the grouping as written, where a block starts at lines.index(line). */
  function VrplibInstanceAsWritten(text: string, compute: bool, sqrt: real -> real): Result<Instance> {
    InstanceOfGroups(GroupAsWritten(Text2Lines(text)), compute, sqrt)
  }

  /**
   * When no section header before "EOF" is repeated, the parser built on the corrected grouping
   * gives exactly what parse_vrplib as written gives: the same instance or the same error.
   */
  lemma ParseVrplibAgrees(text: string, compute: bool, sqrt: real -> real)
    requires DistinctHeaders(Text2Lines(text))
    ensures VrplibInstance(text, compute, sqrt) == VrplibInstanceAsWritten(text, compute, sqrt)
  {
    GroupAsWrittenAgrees(Text2Lines(text));
  }

  /** One more specification line: its entry is stored, or its error ends the loop. */
  lemma SpecsInstanceStep(specs: seq<string>, i: nat, inst: Instance)
    requires i < |specs| && SpecsInstance(specs, i) == Ok(inst)
    ensures ParseSpecification(specs[i]).Err? ==> SpecsInstance(specs, |specs|) == Err(ParseSpecification(specs[i]).error)
    ensures ParseSpecification(specs[i]).Ok? ==>
      SpecsInstance(specs, i + 1) == Ok(inst[ParseSpecification(specs[i]).value.0 := Scalar(ParseSpecification(specs[i]).value.1)])
  {
    if ParseSpecification(specs[i]).Err? {
      StoreAllErrorStays(specs, i + 1, |specs|, SpecEntry);
    }
  }

  /** One more section block: its data is stored under a fresh name, or the loop fails for good. */
  lemma SectionsInstanceStep(sections: seq<seq<string>>, j: nat, specs: Instance, sqrt: real -> real, inst: Instance)
    requires j < |sections| && SectionsInstance(sections, j, specs, sqrt) == Ok(inst)
    ensures ParseSection(sections[j], inst, sqrt).Err? ==>
      SectionsInstance(sections, |sections|, specs, sqrt) == Err(ParseSection(sections[j], inst, sqrt).error)
    ensures ParseSection(sections[j], inst, sqrt).Ok? && ParseSection(sections[j], inst, sqrt).value.0 in inst ==>
      SectionsInstance(sections, |sections|, specs, sqrt) == Err(UsedTwiceError(ParseSection(sections[j], inst, sqrt).value.0))
    ensures ParseSection(sections[j], inst, sqrt).Ok? && ParseSection(sections[j], inst, sqrt).value.0 !in inst ==>
      SectionsInstance(sections, j + 1, specs, sqrt) == Ok(inst[ParseSection(sections[j], inst, sqrt).value.0 := ParseSection(sections[j], inst, sqrt).value.1])
  {
    var p := ParseSection(sections[j], inst, sqrt);
    if p.Err? || p.value.0 in inst {
      StoreFreshErrorStays(sections, j + 1, |sections|, specs, BlockName, (b, m) => SectionValue(b, m, sqrt), UsedTwiceError);
    }
  }

  /**
   * parse_vrplib's loops on the corrected grouping: group, then fill the instance in two loops,
   * then add edge weights. ParseVrplibAgrees relates the grouping as written to this one.
   */
  method ParseVrplib(text: string, compute: bool, sqrt: real -> real) returns (r: Result<Instance>)
    ensures r == VrplibInstance(text, compute, sqrt)
  {
    var grouped := GroupSpecificationsAndSections(Text2Lines(text));
    if grouped.Err? {
      return Err(grouped.error);
    }
    var specs := grouped.value.0;
    var sections := grouped.value.1;
    var inst: Instance := map[];
    var i := 0;
    while i < |specs|
      invariant i <= |specs|
      invariant SpecsInstance(specs, i) == Ok(inst)
    {
      var kv := ParseSpecification(specs[i]);
      SpecsInstanceStep(specs, i, inst);
      if kv.Err? {
        return Err(kv.error);
      }
      inst := inst[kv.value.0 := Scalar(kv.value.1)];
      i := i + 1;
    }
    ghost var fromSpecs := inst;
    var j := 0;
    while j < |sections|
      invariant j <= |sections|
      invariant SectionsInstance(sections, j, fromSpecs, sqrt) == Ok(inst)
    {
      var nd := ParseSection(sections[j], inst, sqrt);
      SectionsInstanceStep(sections, j, fromSpecs, sqrt, inst);
      if nd.Err? {
        return Err(nd.error);
      }
      if nd.value.0 in inst {
        return Err(UsedTwiceError(nd.value.0));
      }
      inst := inst[nd.value.0 := nd.value.1];
      j := j + 1;
    }
    r := WithEdgeWeightsStep(inst, compute, sqrt);
  }

  /** The last step of parse_vrplib: compute the edge weights if they are asked for and missing. */
  method WithEdgeWeightsStep(inst: Instance, compute: bool, sqrt: real -> real) returns (r: Result<Instance>)
    ensures r == WithEdgeWeights(inst, compute, sqrt)
  {
    r := Ok(inst);
    if inst != map[] && compute && "edge_weight" !in inst {
      var d := ParseDistances([], inst, sqrt);
      if d.Err? {
        return Err(d.error);
      }
      r := Ok(inst["edge_weight" := d.value]);
    }
  }

  /**
   * The specifications read from the grouped lines: every key comes from a specification line,
   * each line's key is present, and its value is that of the last line with the same key.
   */
  lemma SpecsInstanceKeys(specs: seq<string>, i: nat)
    requires forall j :: 0 <= j < |specs| ==> ':' in specs[j]
    requires i < |specs| && forall j :: i < j < |specs| ==> ParseSpecification(specs[j]).value.0 != ParseSpecification(specs[i]).value.0
    ensures SpecsInstance(specs, |specs|).Ok?
    ensures forall k :: k in SpecsInstance(specs, |specs|).value ==>
      exists j :: 0 <= j < |specs| && ParseSpecification(specs[j]).value.0 == k
    ensures ParseSpecification(specs[i]).value.0 in SpecsInstance(specs, |specs|).value
    ensures SpecsInstance(specs, |specs|).value[ParseSpecification(specs[i]).value.0] == Scalar(ParseSpecification(specs[i]).value.1)
  {
    assert forall j :: 0 <= j < |specs| ==> SpecEntry(specs[j]).Ok?;
    StoreAllKeys(specs, |specs|, SpecEntry);
    StoreAllLastWins(specs, |specs|, SpecEntry, i);
  }

  /**
   * After a successful section loop no section name is a specification key or the name of
   * another section, every specification keeps its value, and the keys are the specification
   * keys and the section names.
   */
  lemma SectionsInstanceNames(sections: seq<seq<string>>, specs: Instance, sqrt: real -> real)
    requires SectionsInstance(sections, |sections|, specs, sqrt).Ok?
    ensures forall i :: 0 <= i < |sections| ==> BlockName(sections[i]) !in specs
    ensures forall i, j :: 0 <= i < j < |sections| ==> BlockName(sections[i]) != BlockName(sections[j])
    ensures forall k :: k in specs ==>
      k in SectionsInstance(sections, |sections|, specs, sqrt).value && SectionsInstance(sections, |sections|, specs, sqrt).value[k] == specs[k]
    ensures forall k :: k in SectionsInstance(sections, |sections|, specs, sqrt).value ==>
      k in specs || exists i :: 0 <= i < |sections| && BlockName(sections[i]) == k
  {
    StoreFreshKeys(sections, |sections|, specs, BlockName, (b, m) => SectionValue(b, m, sqrt), UsedTwiceError);
  }

  /** A section whose name is already taken fails the instance with the "used both" error. */
  lemma SectionNameClash(sections: seq<seq<string>>, j: nat, specs: Instance, sqrt: real -> real)
    requires j < |sections| && SectionsInstance(sections, j, specs, sqrt).Ok?
    requires SectionValue(sections[j], SectionsInstance(sections, j, specs, sqrt).value, sqrt).Ok?
    requires BlockName(sections[j]) in specs
    ensures SectionsInstance(sections, |sections|, specs, sqrt) == Err(UsedTwiceError(BlockName(sections[j])))
  {
    StoreFreshKeys(sections, j, specs, BlockName, (b, m) => SectionValue(b, m, sqrt), UsedTwiceError);
    StoreFreshErrorStays(sections, j + 1, |sections|, specs, BlockName, (b, m) => SectionValue(b, m, sqrt), UsedTwiceError);
  }

  /** A non-empty instance without an edge weight section gets the computed edge weights, if asked. */
  lemma WithEdgeWeightsAdds(inst: Instance, compute: bool, sqrt: real -> real)
    requires inst != map[] && compute && "edge_weight" !in inst
    requires ParseDistances([], inst, sqrt).Ok?
    ensures WithEdgeWeights(inst, compute, sqrt) == Ok(inst["edge_weight" := ParseDistances([], inst, sqrt).value])
  {
  }
}
