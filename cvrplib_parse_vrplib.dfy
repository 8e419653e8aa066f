/**
 * parse_vrplib of the earlier parser (cvrplib/parse/parse_vrplib.py): a single scan over the cleaned
 * lines that stores every `KEY: VALUE` line wherever it appears and collects the data rows under the
 * last section header seen, then one pass that turns each collected section into an array, and
 * finally the "distance" entry.
 */
module CvrplibParseVrplib {
  import opened Wrappers
  import opened Text
  import opened Tokens
  import opened Lists
  import opened Stores
  import opened Instances
  import VrplibGroup
  import VrplibParseVrplib
  import VrplibParseDistances
  import CvrplibParseUtils
  import CvrplibParseDistances

  /** numpy's error for squeezing an axis whose length is not one. */
  const CannotSqueeze := "cannot select an axis to squeeze out which has size not equal to one"

  // ----- the line kinds, told apart in the scan's order after "EOF" -----

  /** A specification line: it contains ": ". */
  predicate IsSpecLine(line: string) {
    Contains(line, ": ")
  }

  /** A section header: "_SECTION" on a line that is not a specification. */
  predicate IsHeaderLine(line: string) {
    !IsSpecLine(line) && Contains(line, "_SECTION")
  }

  /** Any other line: a data row when a section has been opened. */
  predicate IsDataLine(line: string) {
    !IsSpecLine(line) && !Contains(line, "_SECTION")
  }

  /**
   * The key of `re.split("\s*: ", line, 1)`, stripped and lower-cased: the pattern can only match at
   * the blank run that ends at the first ": ", so the key is what comes before it.
   */
  function SpecKey(line: string): string
    requires IsSpecLine(line)
  {
    Lower(Strip(Before(line, ": ")))
  }

  /** The value of that split: what follows the first ": ", stripped and typed. */
  function SpecValue(line: string): Value
    requires IsSpecLine(line)
  {
    FindContains(line, ": ");
    InferType(Strip(line[Find(line, ": ") + 2..]))
  }

  /** `line.split("_SECTION")[0].strip()`. */
  function HeaderName(line: string): string {
    Strip(Before(line, "_SECTION"))
  }

  /** What a line before "EOF" is to the scan: a specification, a header, or a row of typed words. */
  datatype LineKind = SpecLine(key: string, value: Value) | HeaderLine(header: string) | DataLine(row: seq<Value>)

  /** The tests of the scan's if/elif chain, in the source's order. */
  function Classify(line: string): LineKind {
    if IsSpecLine(line) then SpecLine(SpecKey(line), SpecValue(line))
    else if Contains(line, "_SECTION") then HeaderLine(HeaderName(line))
    else DataLine(VrplibParseVrplib.Row(line))
  }

  /** The three kinds are the three tests. */
  lemma ClassifyKinds(line: string)
    ensures Classify(line).SpecLine? <==> IsSpecLine(line)
    ensures Classify(line).SpecLine? ==> Classify(line) == SpecLine(SpecKey(line), SpecValue(line))
    ensures Classify(line).HeaderLine? <==> IsHeaderLine(line)
    ensures Classify(line).HeaderLine? ==> Classify(line).header == HeaderName(line)
    ensures Classify(line).DataLine? <==> IsDataLine(line)
  {
  }

  /** A data row without its leading index, unless the section is EDGE_WEIGHT or DEPOT. */
  function KeptRow(name: string, row: seq<Value>): seq<Value> {
    if name == "EDGE_WEIGHT" || name == "DEPOT" then row else Drop1(row)
  }

  /** Python's `row[1:]`, which is empty for an empty row. */
  function Drop1<T>(row: seq<T>): (r: seq<T>)
    ensures |r| == if row == [] then 0 else |row| - 1
    ensures forall j :: 0 <= j < |r| ==> r[j] == row[j + 1]
  {
    if row == [] then [] else row[1..]
  }

  // ----- the sections dictionary: names in the order they were first filled -----

  type Section = (string, seq<seq<Value>>)

  function Names(secs: seq<Section>): (r: seq<string>)
    ensures |r| == |secs|
  {
    if secs == [] then [] else [secs[0].0] + Names(secs[1..])
  }

  /** `sections[name]` of the defaultdict: the rows filed under name, or none. */
  function RowsOf(secs: seq<Section>, name: string): seq<seq<Value>> {
    if secs == [] then []
    else if secs[0].0 == name then secs[0].1
    else RowsOf(secs[1..], name)
  }

  predicate Distinct(names: seq<string>) {
    forall i, j :: 0 <= i < j < |names| ==> names[i] != names[j]
  }

  /** A name is in the dictionary exactly when some row is filed under it. */
  ghost predicate Filed(secs: seq<Section>) {
    forall x :: x in Names(secs) <==> RowsOf(secs, x) != []
  }

  /**
   * `sections[name].append(row)`: the row goes to the end of name's rows, no other name's rows
   * change, and a name seen for the first time is added after all others.
   */
  function AddRow(secs: seq<Section>, name: string, row: seq<Value>): (r: seq<Section>)
    ensures RowsOf(r, name) == RowsOf(secs, name) + [row]
    ensures forall x :: x != name ==> RowsOf(r, x) == RowsOf(secs, x)
    ensures Names(r) == if name in Names(secs) then Names(secs) else Names(secs) + [name]
    ensures Distinct(Names(secs)) ==> Distinct(Names(r))
    ensures Filed(secs) ==> Filed(r)
    decreases |secs|
  {
    if secs == [] then [(name, [row])]
    else if secs[0].0 == name then [(name, secs[0].1 + [row])] + secs[1..]
    else [secs[0]] + AddRow(secs[1..], name, row)
  }

  // ----- the scan -----

  /** What the scan has collected: the specifications, the open section and the section rows. */
  datatype ScanState = ScanState(specs: Instance, name: Option<string>, sections: seq<Section>)

  /** One line of the scan, for a line before the first "EOF" line. */
  function Step(s: ScanState, kind: LineKind): ScanState {
    match kind
    case SpecLine(k, v) => s.(specs := s.specs[k := Scalar(v)])
    case HeaderLine(h) => s.(name := Some(h))
    case DataLine(row) =>
      if s.name.Some? then s.(sections := AddRow(s.sections, s.name.value, KeptRow(s.name.value, row))) else s
  }

  /**
   * The scan over the first n lines, each seen through classify. The facts about the scan hold for
   * every classification; the parser's own is Classify.
   */
  function Scanned(lines: seq<string>, n: nat, classify: string -> LineKind): ScanState
    requires n <= |lines|
  {
    if n == 0 then ScanState(map[], None, []) else Step(Scanned(lines, n - 1, classify), classify(lines[n - 1]))
  }

  /** The scan breaks at the first line that contains "EOF". */
  function ScanLines(lines: seq<string>, classify: string -> LineKind): ScanState {
    Scanned(lines, VrplibGroup.EofIndex(lines), classify)
  }

  /** The scan loop as written, with its break at the first "EOF" line; the parser passes Classify. */
  method Scan(lines: seq<string>, classify: string -> LineKind) returns (s: ScanState)
    ensures s == ScanLines(lines, classify)
  {
    var specs: Instance := map[];
    var name: Option<string> := None;
    var sections: seq<Section> := [];
    var i := 0;
    while i < |lines|
      invariant i <= |lines|
      invariant forall k :: 0 <= k < i ==> !VrplibGroup.HasEof(lines[k])
      invariant ScanState(specs, name, sections) == Scanned(lines, i, classify)
    {
      var line := lines[i];
      if VrplibGroup.HasEof(line) {
        break;
      }
      match classify(line) {
        case SpecLine(k, v) =>
          specs := specs[k := Scalar(v)];
        case HeaderLine(h) =>
          name := Some(h);
        case DataLine(row) =>
          if name.Some? {
            sections := AddRow(sections, name.value, KeptRow(name.value, row));
          }
      }
      i := i + 1;
    }
    VrplibGroup.EofFromIs(lines, 0, i);
    s := ScanState(specs, name, sections);
  }

  // ----- turning the sections into arrays -----

  /** Column c of rows that all have more than c entries. */
  function Column(rows: seq<seq<Value>>, c: nat): (r: seq<Value>)
    requires forall i :: 0 <= i < |rows| ==> c < |rows[i]|
    ensures |r| == |rows| && forall i :: 0 <= i < |rows| ==> r[i] == rows[i][c]
  {
    seq(|rows|, i requires 0 <= i < |rows| => rows[i][c])
  }

  /**
   * `np.array(rows)[:-1].squeeze(-1) - 1`: ragged rows cannot make an array, a width other than one
   * cannot be squeezed, a string cannot be decremented; otherwise the last row (the -1 terminator)
   * is dropped and every other index is made 0-based.
   */
  function DepotField(rows: seq<seq<Value>>): (r: Result<Field>)
    ensures r.Ok? <==> rows != [] && Rectangular(rows) && |rows[0]| == 1 && AllNumeric(Column(rows, 0))
    ensures r.Ok? ==> r.value.Vector? && |r.value.items| == |rows| - 1
    ensures r.Ok? ==> forall i :: 0 <= i < |rows| - 1 ==> r.value.items[i] == VrplibParseVrplib.Decrement(rows[i][0])
  {
    if !Rectangular(rows) then Err(ValueError(VrplibParseDistances.Inhomogeneous))
    else if rows == [] || |rows[0]| != 1 then Err(ValueError(CannotSqueeze))
    else
      var col := Column(rows, 0);
      if !AllNumeric(col) then Err(TypeError)
      else Ok(Vector(seq(|rows| - 1, i requires 0 <= i < |rows| - 1 => VrplibParseVrplib.Decrement(col[i]))))
  }

  /** `np.array(rows)`, squeezed when it has one column; ragged rows cannot make an array. */
  function ArrayField(rows: seq<seq<Value>>): (r: Result<Field>)
    ensures r.Err? <==> !Rectangular(rows)
  {
    if !Rectangular(rows) then Err(ValueError(VrplibParseDistances.Inhomogeneous))
    else if rows == [] then Ok(Vector([]))
    else if |rows[0]| == 1 then Ok(Vector(Column(rows, 0)))
    else Ok(Table(rows))
  }

  /** The entry of one section, by its lower-cased name: the depots, the raw edge weights, or an array. */
  function SectionField(key: string, rows: seq<seq<Value>>): Result<Field> {
    if key == "depot" then DepotField(rows)
    else if key == "edge_weight" then Ok(Table(rows))
    else ArrayField(rows)
  }

  /** The instance key of a section: its name lower-cased. */
  function KeyOf(sec: Section): string {
    Lower(sec.0)
  }

  /** `instance[name.lower()] = ...` for one section. */
  function StoreSection(inst: Instance, sec: Section): Result<Instance> {
    var key := KeyOf(sec);
    match SectionField(key, sec.1)
    case Err(e) => Err(e)
    case Ok(f) => Ok(inst[key := f])
  }

  /** The instance before its distances: the specifications, then every section in dictionary order. */
  function Collected(lines: seq<string>): Result<Instance> {
    var s := ScanLines(lines, Classify);
    Fold(s.sections, |s.sections|, s.specs, StoreSection)
  }

  /** parse_vrplib: the collected instance with its "distance" entry added. */
  function Parsed(text: string, sqrt: real -> real): Result<Instance> {
    match Collected(CvrplibParseUtils.Text2Lines(text))
    case Err(e) => Err(e)
    case Ok(inst) =>
      match CvrplibParseDistances.ParseDistances(inst, sqrt)
      case Err(e) => Err(e)
      case Ok(d) => Ok(inst["distance" := d])
  }

  /** The loop over the sections: each one's entry stored under its lower-cased name. */
  method StoreSections(sections: seq<Section>, specs: Instance) returns (r: Result<Instance>)
    ensures r == Fold(sections, |sections|, specs, StoreSection)
  {
    var inst := specs;
    var j := 0;
    while j < |sections|
      invariant j <= |sections|
      invariant Fold(sections, j, specs, StoreSection) == Ok(inst)
    {
      var key := KeyOf(sections[j]);
      var field := SectionField(key, sections[j].1);
      if field.Err? {
        FoldErrorStays(sections, j + 1, |sections|, specs, StoreSection);
        return Err(field.error);
      }
      inst := inst[key := field.value];
      j := j + 1;
    }
    r := Ok(inst);
  }

  /** parse_vrplib as written: the scan, the loop over the sections, then the distances. */
  method ParseVrplib(text: string, sqrt: real -> real) returns (r: Result<Instance>)
    ensures r == Parsed(text, sqrt)
  {
    var s := Scan(CvrplibParseUtils.Text2Lines(text), Classify);
    r := StoreSections(s.sections, s.specs);
    if r.Ok? {
      var d := CvrplibParseDistances.ParseDistances(r.value, sqrt);
      r := if d.Ok? then Ok(r.value["distance" := d.value]) else Err(d.error);
    }
  }

  // ----- reference definitions of what the scan collects -----

  /** The name of the last section header among the first n lines, if any. */
  function LastHeader(lines: seq<string>, n: nat, classify: string -> LineKind): Option<string>
    requires n <= |lines|
  {
    if n == 0 then None
    else if classify(lines[n - 1]).HeaderLine? then Some(classify(lines[n - 1]).header)
    else LastHeader(lines, n - 1, classify)
  }

  /** The data lines among the first n whose last header before them is named x, as kept rows, in order. */
  function RowsFor(lines: seq<string>, n: nat, x: string, classify: string -> LineKind): seq<seq<Value>>
    requires n <= |lines|
  {
    if n == 0 then []
    else
      var kind := classify(lines[n - 1]);
      var here := if kind.DataLine? && LastHeader(lines, n - 1, classify) == Some(x) then [KeptRow(x, kind.row)] else [];
      RowsFor(lines, n - 1, x, classify) + here
  }

  // ----- properties of the scan -----

  /**
   * The open section is the last header's, and the rows filed under a name are the data lines that
   * follow a header of that name, in order, gathered over every header that repeats the name. Spec
   * lines anywhere leave both alone, and data lines before the first header are dropped.
   */
  lemma {:induction false} ScanSections(lines: seq<string>, n: nat, classify: string -> LineKind)
    requires n <= |lines|
    ensures Scanned(lines, n, classify).name == LastHeader(lines, n, classify)
    ensures forall x :: RowsOf(Scanned(lines, n, classify).sections, x) == RowsFor(lines, n, x, classify)
    ensures Distinct(Names(Scanned(lines, n, classify).sections)) && Filed(Scanned(lines, n, classify).sections)
  {
    if n > 0 {
      ScanSections(lines, n - 1, classify);
    }
  }

  /** The open section is the last header's. */
  lemma {:induction false} ScannedName(lines: seq<string>, n: nat, classify: string -> LineKind)
    requires n <= |lines|
    ensures Scanned(lines, n, classify).name == LastHeader(lines, n, classify)
  {
    if n > 0 {
      ScannedName(lines, n - 1, classify);
    }
  }

  /** With no header among the first n lines, no section is open and nothing is filed. */
  lemma {:induction false} NoRowsBeforeHeader(lines: seq<string>, n: nat, classify: string -> LineKind)
    requires n <= |lines| && forall k :: 0 <= k < n ==> !classify(lines[k]).HeaderLine?
    ensures Scanned(lines, n, classify).name.None? && Scanned(lines, n, classify).sections == []
  {
    if n > 0 {
      NoRowsBeforeHeader(lines, n - 1, classify);
    }
  }

  /** The specification keys are exactly the keys of the spec lines scanned. */
  lemma {:induction false} SpecKeys(lines: seq<string>, n: nat, classify: string -> LineKind)
    requires n <= |lines|
    ensures forall key :: key in Scanned(lines, n, classify).specs <==>
      exists k :: 0 <= k < n && classify(lines[k]).SpecLine? && classify(lines[k]).key == key
  {
    if n > 0 {
      SpecKeys(lines, n - 1, classify);
    }
  }

  /**
   * A spec line is stored wherever it appears, also among the rows of a section, and the last spec
   * line with a key decides its value.
   */
  lemma {:induction false} SpecLastWins(lines: seq<string>, n: nat, i: nat, classify: string -> LineKind)
    requires i < n <= |lines| && classify(lines[i]).SpecLine?
    requires forall k :: i < k < n && classify(lines[k]).SpecLine? ==> classify(lines[k]).key != classify(lines[i]).key
    ensures classify(lines[i]).key in Scanned(lines, n, classify).specs
    ensures Scanned(lines, n, classify).specs[classify(lines[i]).key] == Scalar(classify(lines[i]).value)
  {
    if i < n - 1 {
      SpecLastWins(lines, n - 1, i, classify);
    }
  }

  lemma {:induction false} ScannedPrefix(xs: seq<string>, ys: seq<string>, n: nat, classify: string -> LineKind)
    requires n <= |xs| && n <= |ys| && xs[..n] == ys[..n]
    ensures Scanned(xs, n, classify) == Scanned(ys, n, classify)
  {
    if n > 0 {
      assert xs[..n - 1] == xs[..n][..n - 1] && ys[..n - 1] == ys[..n][..n - 1];
      assert xs[n - 1] == xs[..n][n - 1];
      ScannedPrefix(xs, ys, n - 1, classify);
    }
  }

  /** Nothing after the first "EOF" line matters: two line lists that agree up to it scan alike. */
  lemma ScanStopsAtEof(xs: seq<string>, ys: seq<string>, k: nat, classify: string -> LineKind)
    requires k < |xs| && k < |ys| && xs[..k + 1] == ys[..k + 1] && VrplibGroup.HasEof(xs[k])
    ensures ScanLines(xs, classify) == ScanLines(ys, classify)
  {
    var e := VrplibGroup.EofIndex(xs);
    assert e <= k;
    forall m | 0 <= m <= e ensures xs[m] == ys[m] {
      assert xs[m] == xs[..k + 1][m];
    }
    VrplibGroup.EofFromIs(ys, 0, e);
    assert xs[..e] == ys[..e];
    ScannedPrefix(xs, ys, e, classify);
  }

  // ----- properties of the section arrays -----

  lemma {:induction false} FlattenColumn(rows: seq<seq<Value>>)
    requires forall i :: 0 <= i < |rows| ==> |rows[i]| == 1
    ensures Flatten(rows) == Column(rows, 0)
  {
    if rows != [] {
      FlattenColumn(rows[1..]);
      assert rows[0] == [rows[0][0]];
    }
  }

  lemma {:induction false} DepotValuesBeforeTerminator(xs: seq<Value>)
    requires |xs| >= 1 && AllNumeric(xs) && VrplibParseVrplib.IsTerminator(xs[|xs| - 1])
    requires forall i :: 0 <= i < |xs| - 1 ==> !VrplibParseVrplib.IsTerminator(xs[i])
    ensures VrplibParseVrplib.DepotValues(xs) == seq(|xs| - 1, i requires 0 <= i < |xs| - 1 => VrplibParseVrplib.Decrement(xs[i]))
  {
    if |xs| > 1 {
      DepotValuesBeforeTerminator(xs[1..]);
    }
  }

  /**
   * On a depot section as the format writes it (one index per row, the -1 terminator last and only
   * there) the earlier parser gives the same depots as the current parser.
   */
  lemma DepotAgrees(rows: seq<seq<Value>>)
    requires |rows| >= 1 && forall i :: 0 <= i < |rows| ==> |rows[i]| == 1 && Numeric(rows[i][0])
    requires VrplibParseVrplib.IsTerminator(rows[|rows| - 1][0])
    requires forall i :: 0 <= i < |rows| - 1 ==> !VrplibParseVrplib.IsTerminator(rows[i][0])
    ensures DepotField(rows) == VrplibParseVrplib.Depot(rows)
  {
    FlattenColumn(rows);
    DepotValuesBeforeTerminator(Column(rows, 0));
  }

  /**
   * On rectangular section rows the earlier parser's array of the rows without their index is the
   * current parser's section data: one remaining column becomes a vector, anything else a table.
   */
  lemma ArrayFieldAgrees(rows: seq<seq<Value>>)
    requires Rectangular(rows)
    ensures ArrayField(VrplibParseVrplib.DropIndex(rows)) == Ok(VrplibParseVrplib.SectionData(rows))
  {
    var d := VrplibParseVrplib.DropIndex(rows);
    if rows != [] {
      assert Rectangular(d);
      if |rows[0]| == 2 {
        assert Column(d, 0) == seq(|rows|, i requires 0 <= i < |rows| => rows[i][1]);
      }
    }
  }

  /** Every section turns into an entry exactly when none fails, and the first failure is reported. */
  lemma {:induction false} SectionsFail(secs: seq<Section>, n: nat, init: Instance)
    requires n <= |secs|
    ensures Fold(secs, n, init, StoreSection).Ok? <==> forall i :: 0 <= i < n ==> SectionField(KeyOf(secs[i]), secs[i].1).Ok?
    ensures Fold(secs, n, init, StoreSection).Err? ==>
      exists i :: 0 <= i < n && SectionField(KeyOf(secs[i]), secs[i].1).Err?
        && Fold(secs, n, init, StoreSection).error == SectionField(KeyOf(secs[i]), secs[i].1).error
        && forall k :: 0 <= k < i ==> SectionField(KeyOf(secs[k]), secs[k].1).Ok?
  {
    if n > 0 {
      SectionsFail(secs, n - 1, init);
    }
  }

  /**
   * The sections overwrite the specifications: the keys are the specification keys and the
   * lower-cased section names, the last section with a lower-cased name decides its entry, and a
   * specification no section name shadows keeps its value.
   */
  lemma {:induction false} SectionKeys(secs: seq<Section>, n: nat, init: Instance)
    requires n <= |secs| && Fold(secs, n, init, StoreSection).Ok?
    ensures var inst := Fold(secs, n, init, StoreSection).value;
      forall key :: key in inst <==> key in init || exists i :: 0 <= i < n && KeyOf(secs[i]) == key
  {
    if n > 0 {
      FoldOkBefore(secs, n - 1, n, init, StoreSection);
      SectionKeys(secs, n - 1, init);
      var before := Fold(secs, n - 1, init, StoreSection).value;
      var sec := secs[n - 1];
      var f := SectionField(KeyOf(sec), sec.1);
      assert f.Ok? && Fold(secs, n, init, StoreSection).value == before[KeyOf(sec) := f.value];
    }
  }

  lemma {:induction false} SectionLastWins(secs: seq<Section>, n: nat, init: Instance)
    requires n <= |secs| && Fold(secs, n, init, StoreSection).Ok?
    ensures var inst := Fold(secs, n, init, StoreSection).value;
      forall i :: 0 <= i < n && (forall k :: i < k < n ==> KeyOf(secs[k]) != KeyOf(secs[i])) ==>
        KeyOf(secs[i]) in inst && SectionField(KeyOf(secs[i]), secs[i].1).Ok?
        && inst[KeyOf(secs[i])] == SectionField(KeyOf(secs[i]), secs[i].1).value
  {
    if n > 0 {
      FoldOkBefore(secs, n - 1, n, init, StoreSection);
      SectionLastWins(secs, n - 1, init);
      var before := Fold(secs, n - 1, init, StoreSection).value;
      var sec := secs[n - 1];
      var f := SectionField(KeyOf(sec), sec.1);
      var inst := Fold(secs, n, init, StoreSection).value;
      assert f.Ok? && inst == before[KeyOf(sec) := f.value];
      forall i | 0 <= i < n && (forall k :: i < k < n ==> KeyOf(secs[k]) != KeyOf(secs[i]))
        ensures KeyOf(secs[i]) in inst && SectionField(KeyOf(secs[i]), secs[i].1).Ok?
          && inst[KeyOf(secs[i])] == SectionField(KeyOf(secs[i]), secs[i].1).value
      {
        if i < n - 1 {
          assert KeyOf(secs[n - 1]) != KeyOf(secs[i]);
          assert forall k :: i < k < n - 1 ==> KeyOf(secs[k]) != KeyOf(secs[i]);
        }
      }
    }
  }

  lemma {:induction false} SpecsKept(secs: seq<Section>, n: nat, init: Instance)
    requires n <= |secs| && Fold(secs, n, init, StoreSection).Ok?
    ensures var inst := Fold(secs, n, init, StoreSection).value;
      forall key :: key in init && (forall i :: 0 <= i < n ==> KeyOf(secs[i]) != key) ==> key in inst && inst[key] == init[key]
  {
    if n > 0 {
      FoldOkBefore(secs, n - 1, n, init, StoreSection);
      SpecsKept(secs, n - 1, init);
      var before := Fold(secs, n - 1, init, StoreSection).value;
      var sec := secs[n - 1];
      var f := SectionField(KeyOf(sec), sec.1);
      assert f.Ok? && Fold(secs, n, init, StoreSection).value == before[KeyOf(sec) := f.value];
    }
  }

  /**
   * The distances are always computed and merged: parsing succeeds exactly when the sections and
   * the distances do, and then the result is the collected instance with its "distance" entry.
   */
  lemma ParsedHasDistance(text: string, sqrt: real -> real)
    ensures var c := Collected(CvrplibParseUtils.Text2Lines(text));
      Parsed(text, sqrt).Ok? <==> c.Ok? && CvrplibParseDistances.ParseDistances(c.value, sqrt).Ok?
    ensures var c := Collected(CvrplibParseUtils.Text2Lines(text));
      Parsed(text, sqrt).Ok? ==> var r := Parsed(text, sqrt).value;
        "distance" in r && r["distance"] == CvrplibParseDistances.ParseDistances(c.value, sqrt).value
        && (forall key :: key in r <==> key in c.value || key == "distance")
        && (forall key :: key in c.value && key != "distance" ==> r[key] == c.value[key])
  {
  }

  lemma {:induction false} LastHeaderIsHeader(lines: seq<string>, n: nat, classify: string -> LineKind)
    requires n <= |lines| && LastHeader(lines, n, classify).Some?
    ensures exists k :: 0 <= k < n && classify(lines[k]).HeaderLine? && classify(lines[k]).header == LastHeader(lines, n, classify).value
  {
    if !classify(lines[n - 1]).HeaderLine? {
      LastHeaderIsHeader(lines, n - 1, classify);
    }
  }

  /** A name with rows filed under it is the name of some header. */
  lemma {:induction false} RowsForHeader(lines: seq<string>, n: nat, x: string, classify: string -> LineKind)
    requires n <= |lines| && RowsFor(lines, n, x, classify) != []
    ensures exists k :: 0 <= k < n && classify(lines[k]).HeaderLine? && classify(lines[k]).header == x
  {
    if RowsFor(lines, n - 1, x, classify) != [] {
      RowsForHeader(lines, n - 1, x, classify);
    } else {
      LastHeaderIsHeader(lines, n - 1, classify);
    }
  }

  /**
   * Without an EDGE_WEIGHT_TYPE specification (and no section of that name) before "EOF",
   * parsing fails: parse_distances looks the key up unconditionally.
   */
  lemma MissingEdgeWeightType(text: string, sqrt: real -> real)
    requires var lines := CvrplibParseUtils.Text2Lines(text);
      forall k :: 0 <= k < VrplibGroup.EofIndex(lines) ==>
        (IsSpecLine(lines[k]) ==> SpecKey(lines[k]) != "edge_weight_type")
        && (IsHeaderLine(lines[k]) ==> Lower(HeaderName(lines[k])) != "edge_weight_type")
    ensures Parsed(text, sqrt).Err?
  {
    var lines := CvrplibParseUtils.Text2Lines(text);
    var e := VrplibGroup.EofIndex(lines);
    var s := Scanned(lines, e, Classify);
    var c := Collected(lines);
    if c.Ok? {
      SpecKeys(lines, e, Classify);
      ScanSections(lines, e, Classify);
      SectionKeys(s.sections, |s.sections|, s.specs);
      forall k | 0 <= k < e ensures
        && (Classify(lines[k]).SpecLine? ==> Classify(lines[k]).key != "edge_weight_type")
        && (Classify(lines[k]).HeaderLine? ==> Lower(Classify(lines[k]).header) != "edge_weight_type")
      {
        ClassifyKinds(lines[k]);
      }
      forall i | 0 <= i < |s.sections| ensures KeyOf(s.sections[i]) != "edge_weight_type" {
        var x := s.sections[i].0;
        assert Names(s.sections)[i] == x by {
          NamesAt(s.sections, i);
        }
        assert RowsFor(lines, e, x, Classify) != [];
        RowsForHeader(lines, e, x, Classify);
      }
      assert "edge_weight_type" !in c.value;
      CvrplibParseDistances.ParseDistancesErrors(c.value, sqrt);
    }
  }

  lemma {:induction false} NamesAt(secs: seq<Section>, i: nat)
    requires i < |secs|
    ensures Names(secs)[i] == secs[i].0
  {
    if i > 0 {
      NamesAt(secs[1..], i - 1);
    }
  }
}
