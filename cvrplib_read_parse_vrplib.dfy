/**
 * parse_vrplib of the cvrplib reader (cvrplib/read/parse_vrplib.py): three passes over the lines.
 * The specifications are all the lines that hold ": ", wherever they are. The sections are the rows
 * under each "_SECTION" header up to the first "EOF" line, with every number read by _int_or_float.
 * The distances are computed only for the types and the format the reader knows, and are silently
 * absent otherwise.
 */
module CvrplibReadParseVrplib {
  import opened Wrappers
  import opened Text
  import opened Tokens
  import opened Lists
  import opened Stores
  import opened Instances
  import opened LowerTriangle
  import opened Geometry
  import VrplibGroup
  import VrplibParseVrplib
  import VrplibParseDistances
  import CvrplibParseUtils
  import CvrplibParseVrplib
  import CvrplibWriteInstance

  // ----- parse_specifications -----

  /** `int(v) if v.isnumeric() else v`: digits become an integer, any other text stays a string. */
  function SpecNumber(v: string): Value {
    if AllDigits(v) then I(DigitsValue(v)) else S(v)
  }

  /** What follows the first ": " of a specification line, stripped. */
  function SpecText(line: string): string
    requires CvrplibParseVrplib.IsSpecLine(line)
  {
    FindContains(line, ": ");
    Strip(line[Find(line, ": ") + 2..])
  }

  /**
   * The entry a line gives parse_specifications: for a line holding ": ", the text before it
   * stripped and lower-cased, and the text after it read by SpecNumber.
   */
  function SpecEntry(line: string): Option<(string, Value)> {
    if CvrplibParseVrplib.IsSpecLine(line) then Some((CvrplibParseVrplib.SpecKey(line), SpecNumber(SpecText(line))))
    else None
  }

  /** The dictionary after the first n lines, each line's entry given by entry. */
  function Specifications(lines: seq<string>, n: nat, entry: string -> Option<(string, Value)>): Instance
    requires n <= |lines|
  {
    if n == 0 then map[]
    else
      var data := Specifications(lines, n - 1, entry);
      match entry(lines[n - 1])
      case None => data
      case Some((k, v)) => data[k := Scalar(v)]
  }

  /** The last of the first n lines whose entry has key k, if there is one. */
  function LastEntry(lines: seq<string>, n: nat, k: string, entry: string -> Option<(string, Value)>): (r: Option<nat>)
    requires n <= |lines|
    ensures r.Some? ==> r.value < n && entry(lines[r.value]).Some? && entry(lines[r.value]).value.0 == k
    ensures r.Some? ==> forall j :: r.value < j < n && entry(lines[j]).Some? ==> entry(lines[j]).value.0 != k
    ensures r.None? ==> forall j :: 0 <= j < n && entry(lines[j]).Some? ==> entry(lines[j]).value.0 != k
  {
    if n == 0 then None
    else if entry(lines[n - 1]).Some? && entry(lines[n - 1]).value.0 == k then Some(n - 1)
    else LastEntry(lines, n - 1, k, entry)
  }

  /** parse_specifications as written: every line is looked at, none ends the loop. */
  method ParseSpecifications(lines: seq<string>) returns (data: Instance)
    ensures data == Specifications(lines, |lines|, SpecEntry)
  {
    data := map[];
    for i := 0 to |lines|
      invariant data == Specifications(lines, i, SpecEntry)
    {
      var line := lines[i];
      if CvrplibParseVrplib.IsSpecLine(line) {
        data := data[CvrplibParseVrplib.SpecKey(line) := Scalar(SpecNumber(SpecText(line)))];
      }
    }
  }

  /**
   * The keys are the keys of the lines with an entry, and each holds the value of the last such
   * line: a later line with the same lower-cased key overwrites an earlier one.
   */
  lemma {:induction false} SpecificationsLastWins(lines: seq<string>, n: nat, entry: string -> Option<(string, Value)>)
    requires n <= |lines|
    ensures forall k :: k in Specifications(lines, n, entry) <==> LastEntry(lines, n, k, entry).Some?
    ensures forall k :: k in Specifications(lines, n, entry) ==>
      Specifications(lines, n, entry)[k] == Scalar(entry(lines[LastEntry(lines, n, k, entry).value]).value.1)
  {
    if n > 0 {
      SpecificationsLastWins(lines, n - 1, entry);
    }
  }

  /**
   * A scalar line "KEY : text" of the cvrplib writer, with a key free of colons and blanks at its
   * ends, is read back under the lower-cased key; the value is an integer exactly when the
   * stripped text is digits, and otherwise that text.
   */
  lemma SpecLineRead(key: string, t: string)
    requires key != [] && IsStripped(key) && ':' !in key
    ensures SpecEntry(key + " : " + t) == Some((Lower(key), SpecNumber(Strip(t))))
    ensures SpecNumber(Strip(t)).I? <==> AllDigits(Strip(t))
    ensures !AllDigits(Strip(t)) ==> SpecNumber(Strip(t)) == S(Strip(t))
  {
    var line := key + " : " + t;
    var at := |key| + 1;
    assert line[at..at + 2] == ": ";
    assert MatchAt(line, ": ", at);
    ContainsAt(line, ": ", at);
    CvrplibWriteInstance.ColonPosition(line, at);
    assert line[..at] == key + " ";
    StripTrailingSpace(key, ' ');
    assert line[at + 2..] == t;
  }

  // ----- parse_sections: the scan -----

  /**
   * `[_int_or_float(num) for num in line.split()]`: every word converted in turn; the first word
   * that is neither digits nor a float raises.
   */
  function TypedRow(words: seq<string>): (r: Result<seq<Value>>)
    ensures r.Ok? <==> forall j :: 0 <= j < |words| ==> IntOrFloat(words[j]).Ok?
    ensures r.Ok? ==> |r.value| == |words| && forall j :: 0 <= j < |words| ==> r.value[j] == IntOrFloat(words[j]).value
    ensures r.Err? ==> exists j ::
      0 <= j < |words| && IntOrFloat(words[j]) == Err(r.error) && forall q :: 0 <= q < j ==> IntOrFloat(words[q]).Ok?
    decreases |words|
  {
    if words == [] then Ok([])
    else
      match IntOrFloat(words[0])
      case Err(e) => Err(e)
      case Ok(v) =>
        var rest := TypedRow(words[1..]);
        assert forall j :: 1 <= j < |words| ==> words[j] == words[1..][j - 1];
        match rest
        case Err(e) =>
          assert exists j ::
            0 <= j < |words[1..]| && IntOrFloat(words[1..][j]) == Err(e) && forall q :: 0 <= q < j ==> IntOrFloat(words[1..][q]).Ok?;
          var j :| 0 <= j < |words[1..]| && IntOrFloat(words[1..][j]) == Err(e)
            && forall q :: 0 <= q < j ==> IntOrFloat(words[1..][q]).Ok?;
          assert IntOrFloat(words[j + 1]) == Err(e);
          assert forall q :: 0 <= q < j + 1 ==> IntOrFloat(words[q]).Ok? by {
            forall q | 0 <= q < j + 1 ensures IntOrFloat(words[q]).Ok? {
              if q > 0 {
                assert words[q] == words[1..][q - 1];
              }
            }
          }
          Err(e)
        case Ok(vs) => Ok([v] + vs)
  }

  /** Every value _int_or_float gives is a number. */
  lemma TypedRowNumeric(words: seq<string>)
    requires TypedRow(words).Ok?
    ensures AllNumeric(TypedRow(words).value)
  {
  }

  /** The line that ends the scan: it holds "EOF" and, since the "_SECTION" test comes first, not "_SECTION". */
  predicate IsStop(line: string) {
    !Contains(line, "_SECTION") && VrplibGroup.HasEof(line)
  }

  /** The first line from index i on that stop picks, or the end of the lines. */
  function StopFrom(lines: seq<string>, i: nat, stop: string -> bool): (r: nat)
    requires i <= |lines|
    ensures i <= r <= |lines|
    ensures forall k :: i <= k < r ==> !stop(lines[k])
    ensures r < |lines| ==> stop(lines[r])
    decreases |lines| - i
  {
    if i == |lines| || stop(lines[i]) then i else StopFrom(lines, i + 1, stop)
  }

  /** The index of the scan's stop line, or the number of lines when there is none. */
  function Stop(lines: seq<string>): nat
    ensures Stop(lines) <= |lines|
  {
    StopFrom(lines, 0, IsStop)
  }

  /** Before the stop line, a line is the stop line exactly when it is at the stop position. */
  lemma StopAt(lines: seq<string>, i: nat, stop: string -> bool)
    requires i < |lines| && i <= StopFrom(lines, 0, stop)
    ensures stop(lines[i]) <==> i == StopFrom(lines, 0, stop)
  {
  }

  /** What the scan keeps: the open section's name, and the rows filed under each name. */
  datatype SectionScan = SectionScan(name: Option<string>, sections: seq<CvrplibParseVrplib.Section>)

  /** Nothing open, nothing filed. */
  const NoSections := SectionScan(None, [])

  /**
   * One line before the stop line: a header opens the section named by the text before its first
   * "_SECTION"; any other line, once a section is open, is a row of numbers filed under it, with
   * its leading index dropped unless the section is EDGE_WEIGHT or DEPOT.
   */
  function SectionStep(s: SectionScan, line: string): Result<SectionScan> {
    if Contains(line, "_SECTION") then Ok(s.(name := Some(CvrplibParseVrplib.HeaderName(line))))
    else if s.name.None? then Ok(s)
    else
      match TypedRow(Words(line))
      case Err(e) => Err(e)
      case Ok(row) =>
        var name := s.name.value;
        Ok(s.(sections := CvrplibParseVrplib.AddRow(s.sections, name, CvrplibParseVrplib.KeptRow(name, row))))
  }

  /** The scan over the lines before the stop line. */
  function Sections(lines: seq<string>): Result<SectionScan> {
    Fold(lines, Stop(lines), NoSections, SectionStep)
  }

  /** The scan loop as written, with its break at the first stop line. */
  method ScanSections(lines: seq<string>) returns (r: Result<SectionScan>)
    ensures r == Sections(lines)
  {
    var s := NoSections;
    var i := 0;
    while i < |lines|
      invariant i <= Stop(lines)
      invariant Fold(lines, i, NoSections, SectionStep) == Ok(s)
    {
      ScanAt(lines, i, s);
      if IsStop(lines[i]) {
        break;
      }
      var next := ScanLine(s, lines[i]);
      if next.Err? {
        return next;
      }
      s := next.value;
      i := i + 1;
    }
    r := Ok(s);
  }

  /** One turn of the scan loop at line i, with the scan so far at s. */
  lemma ScanAt(lines: seq<string>, i: nat, s: SectionScan)
    requires i < |lines| && i <= Stop(lines) && Fold(lines, i, NoSections, SectionStep) == Ok(s)
    ensures IsStop(lines[i]) <==> i == Stop(lines)
    ensures !IsStop(lines[i]) ==> i + 1 <= Stop(lines) && Fold(lines, i + 1, NoSections, SectionStep) == SectionStep(s, lines[i])
    ensures !IsStop(lines[i]) && SectionStep(s, lines[i]).Err? ==> Sections(lines) == SectionStep(s, lines[i])
  {
    StopAt(lines, i, IsStop);
    FoldStep(lines, i, NoSections, SectionStep, s);
    if !IsStop(lines[i]) && SectionStep(s, lines[i]).Err? {
      FoldErrorStays(lines, i + 1, Stop(lines), NoSections, SectionStep);
    }
  }

  /** The body of the scan loop for a line that is not the stop line. */
  method ScanLine(s: SectionScan, line: string) returns (r: Result<SectionScan>)
    ensures r == SectionStep(s, line)
  {
    if Contains(line, "_SECTION") {
      return Ok(s.(name := Some(CvrplibParseVrplib.HeaderName(line))));
    }
    if s.name.None? {
      return Ok(s);
    }
    var row := TypedRow(Words(line));
    if row.Err? {
      return Err(row.error);
    }
    var name := s.name.value;
    r := Ok(s.(sections := CvrplibParseVrplib.AddRow(s.sections, name, CvrplibParseVrplib.KeptRow(name, row.value))));
  }

  // ----- the scan against its reference definition -----

  /** The scan's view of a line: a header with its name, or a row (a row that fails is never filed). */
  function ReadKind(line: string): CvrplibParseVrplib.LineKind {
    if Contains(line, "_SECTION") then CvrplibParseVrplib.HeaderLine(CvrplibParseVrplib.HeaderName(line))
    else
      var row := TypedRow(Words(line));
      CvrplibParseVrplib.DataLine(if row.Ok? then row.value else [])
  }

  /** A row the scan converts without error. */
  predicate RowOk(line: string) {
    TypedRow(Words(line)).Ok?
  }

  /** Line k is a row the scan must convert: a data line with some header before it. */
  predicate RowToRead(lines: seq<string>, k: nat, kind: string -> CvrplibParseVrplib.LineKind)
    requires k < |lines|
  {
    kind(lines[k]).DataLine? && CvrplibParseVrplib.LastHeader(lines, k, kind).Some?
  }

  /** Every row among the first n lines that the scan must convert converts, line by line. */
  predicate RowsConvert(lines: seq<string>, n: nat, kind: string -> CvrplibParseVrplib.LineKind, ok: string -> bool)
    requires n <= |lines|
  {
    n == 0 || (RowsConvert(lines, n - 1, kind, ok) && (RowToRead(lines, n - 1, kind) ==> ok(lines[n - 1])))
  }

  /** RowsConvert says what its name says for each of the first n lines. */
  lemma {:induction false} RowsConvertEach(lines: seq<string>, n: nat, kind: string -> CvrplibParseVrplib.LineKind, ok: string -> bool)
    requires n <= |lines|
    ensures RowsConvert(lines, n, kind, ok) <==> forall k :: 0 <= k < n && RowToRead(lines, k, kind) ==> ok(lines[k])
  {
    if n > 0 {
      var m: nat := n - 1;
      RowsConvertEach(lines, m, kind, ok);
    }
  }

  /**
   * The scan fails exactly when a row under some header cannot be converted; otherwise it is the
   * earlier library's scan (Scanned) over the same lines seen through ReadKind, with no
   * specification line.
   */
  lemma {:induction false} SectionsAsScanned(lines: seq<string>, n: nat)
    requires n <= |lines|
    ensures Fold(lines, n, NoSections, SectionStep).Ok? <==> RowsConvert(lines, n, ReadKind, RowOk)
    ensures Fold(lines, n, NoSections, SectionStep).Ok? ==>
      (Fold(lines, n, NoSections, SectionStep).value.name == CvrplibParseVrplib.Scanned(lines, n, ReadKind).name
      && Fold(lines, n, NoSections, SectionStep).value.sections == CvrplibParseVrplib.Scanned(lines, n, ReadKind).sections)
  {
    if n > 0 {
      var m: nat := n - 1;
      SectionsAsScanned(lines, m);
      ScanAgreesStep(lines, m);
    }
  }

  /** The induction step of SectionsAsScanned, at line m. */
  lemma ScanAgreesStep(lines: seq<string>, m: nat)
    requires m < |lines|
    requires Fold(lines, m, NoSections, SectionStep).Ok? <==> RowsConvert(lines, m, ReadKind, RowOk)
    requires Fold(lines, m, NoSections, SectionStep).Ok? ==>
      (Fold(lines, m, NoSections, SectionStep).value.name == CvrplibParseVrplib.Scanned(lines, m, ReadKind).name
      && Fold(lines, m, NoSections, SectionStep).value.sections == CvrplibParseVrplib.Scanned(lines, m, ReadKind).sections)
    ensures Fold(lines, m + 1, NoSections, SectionStep).Ok? <==> RowsConvert(lines, m + 1, ReadKind, RowOk)
    ensures Fold(lines, m + 1, NoSections, SectionStep).Ok? ==>
      (Fold(lines, m + 1, NoSections, SectionStep).value.name == CvrplibParseVrplib.Scanned(lines, m + 1, ReadKind).name
      && Fold(lines, m + 1, NoSections, SectionStep).value.sections == CvrplibParseVrplib.Scanned(lines, m + 1, ReadKind).sections)
  {
    var r0 := Fold(lines, m, NoSections, SectionStep);
    if r0.Ok? {
      CvrplibParseVrplib.ScannedName(lines, m, ReadKind);
      FoldStep(lines, m, NoSections, SectionStep, r0.value);
      StepAgrees(r0.value, CvrplibParseVrplib.Scanned(lines, m, ReadKind), lines[m]);
    } else {
      FoldErrorStays(lines, m, m + 1, NoSections, SectionStep);
    }
  }

  /** One line of the scan, against one step of the earlier library's scan from the same name and rows. */
  lemma StepAgrees(s: SectionScan, t: CvrplibParseVrplib.ScanState, line: string)
    requires s.name == t.name && s.sections == t.sections
    ensures var r := SectionStep(s, line);
      && (r.Ok? <==> Contains(line, "_SECTION") || s.name.None? || TypedRow(Words(line)).Ok?)
      && (r.Ok? ==> (r.value.name == CvrplibParseVrplib.Step(t, ReadKind(line)).name
        && r.value.sections == CvrplibParseVrplib.Step(t, ReadKind(line)).sections))
  {
  }

  /**
   * When the scan succeeds, the open section is the last header before the stop line, and the
   * rows filed under each name are the rows that follow a header of that name, in file order,
   * over every header that repeats it; rows before the first header are dropped.
   */
  lemma SectionsCollect(lines: seq<string>)
    requires Sections(lines).Ok?
    ensures var s := Sections(lines).value;
      && s.name == CvrplibParseVrplib.LastHeader(lines, Stop(lines), ReadKind)
      && (forall x :: CvrplibParseVrplib.RowsOf(s.sections, x) == CvrplibParseVrplib.RowsFor(lines, Stop(lines), x, ReadKind))
      && CvrplibParseVrplib.Distinct(CvrplibParseVrplib.Names(s.sections))
  {
    SectionsAsScanned(lines, Stop(lines));
    CvrplibParseVrplib.ScanSections(lines, Stop(lines), ReadKind);
  }

  // ----- parse_sections: the arrays -----

  /** A row with every value made 0-based. */
  function DecrementRow(row: seq<Value>): (r: seq<Value>)
    requires AllNumeric(row)
    ensures |r| == |row| && forall j :: 0 <= j < |row| ==> r[j] == VrplibParseVrplib.Decrement(row[j])
  {
    seq(|row|, j requires 0 <= j < |row| => VrplibParseVrplib.Decrement(row[j]))
  }

  /**
   * `depot_data[:-1] -= 1` on `np.array(section_data)`: ragged rows cannot make an array, and a
   * string anywhere, the terminator row included, gives the whole array a string type that cannot
   * be decremented; otherwise every row but the last (the terminator) is made 0-based, and the
   * array stays two-dimensional.
   */
  function DepotTable(rows: seq<seq<Value>>): Result<Field> {
    if !Rectangular(rows) then Err(ValueError(VrplibParseDistances.Inhomogeneous))
    else if exists i :: 0 <= i < |rows| && !AllNumeric(rows[i]) then Err(TypeError)
    else Ok(Table(seq(|rows|, i requires 0 <= i < |rows| => if i < |rows| - 1 then DecrementRow(rows[i]) else rows[i])))
  }

  /** The entry of one section, by its lower-cased name: the depots, the raw edge weights, or an array. */
  function SectionField(key: string, rows: seq<seq<Value>>): Result<Field> {
    if key == "depot" then DepotTable(rows)
    else if key == "edge_weight" then Ok(Table(rows))
    else CvrplibParseVrplib.ArrayField(rows)
  }

  /** `data[section_name.lower()] = ...` for one section. */
  function StoreSection(data: Instance, sec: CvrplibParseVrplib.Section): Result<Instance> {
    var key := CvrplibParseVrplib.KeyOf(sec);
    match SectionField(key, sec.1)
    case Err(e) => Err(e)
    case Ok(f) => Ok(data[key := f])
  }

  /** parse_sections: the scan, then each section's entry stored in dictionary order. */
  function SectionData(lines: seq<string>): Result<Instance> {
    match Sections(lines)
    case Err(e) => Err(e)
    case Ok(s) => Fold(s.sections, |s.sections|, map[], StoreSection)
  }

  /** The loop over `sections.items()`. */
  method StoreSections(sections: seq<CvrplibParseVrplib.Section>) returns (r: Result<Instance>)
    ensures r == Fold(sections, |sections|, map[], StoreSection)
  {
    var data: Instance := map[];
    for j := 0 to |sections|
      invariant Fold(sections, j, map[], StoreSection) == Ok(data)
    {
      var key := CvrplibParseVrplib.KeyOf(sections[j]);
      var field := SectionField(key, sections[j].1);
      if field.Err? {
        FoldErrorStays(sections, j + 1, |sections|, map[], StoreSection);
        return Err(field.error);
      }
      data := data[key := field.value];
    }
    r := Ok(data);
  }

  /** parse_sections as written. */
  method ParseSections(lines: seq<string>) returns (r: Result<Instance>)
    ensures r == SectionData(lines)
  {
    var s := ScanSections(lines);
    if s.Err? {
      return Err(s.error);
    }
    r := StoreSections(s.value.sections);
  }

  /**
   * The depot entry: the rows must be of one length, and then every row but the last is made
   * 0-based value by value while the last row is kept as it is.
   */
  lemma DepotTableEntries(rows: seq<seq<Value>>)
    requires forall i :: 0 <= i < |rows| ==> AllNumeric(rows[i])
    ensures DepotTable(rows).Ok? <==> Rectangular(rows)
    ensures DepotTable(rows).Ok? ==> var t := DepotTable(rows).value;
      && t.Table? && |t.rows| == |rows|
      && (rows != [] ==> t.rows[|rows| - 1] == rows[|rows| - 1])
      && forall i, j :: 0 <= i < |rows| - 1 && 0 <= j < |rows[i]| ==>
        |t.rows[i]| == |rows[i]| && t.rows[i][j] == VrplibParseVrplib.Decrement(rows[i][j])
  {
  }

  /** Every section turns into an entry exactly when none fails, and the first failure is reported. */
  lemma {:induction false} StoreSectionsFail(secs: seq<CvrplibParseVrplib.Section>, n: nat)
    requires n <= |secs|
    ensures Fold(secs, n, map[], StoreSection).Ok? <==>
      forall i :: 0 <= i < n ==> SectionField(CvrplibParseVrplib.KeyOf(secs[i]), secs[i].1).Ok?
    ensures Fold(secs, n, map[], StoreSection).Err? ==>
      exists i :: 0 <= i < n && SectionField(CvrplibParseVrplib.KeyOf(secs[i]), secs[i].1).Err?
        && Fold(secs, n, map[], StoreSection).error == SectionField(CvrplibParseVrplib.KeyOf(secs[i]), secs[i].1).error
  {
    if n > 0 {
      StoreSectionsFail(secs, n - 1);
    }
  }

  /**
   * The keys are the lower-cased section names, and the last section with a given lower-cased
   * name decides its entry.
   */
  lemma {:induction false} StoreSectionsLastWins(secs: seq<CvrplibParseVrplib.Section>, n: nat)
    requires n <= |secs| && Fold(secs, n, map[], StoreSection).Ok?
    ensures var data := Fold(secs, n, map[], StoreSection).value;
      && (forall key :: key in data <==> exists i :: 0 <= i < n && CvrplibParseVrplib.KeyOf(secs[i]) == key)
      && forall i :: 0 <= i < n && (forall k :: i < k < n ==> CvrplibParseVrplib.KeyOf(secs[k]) != CvrplibParseVrplib.KeyOf(secs[i])) ==>
        var key := CvrplibParseVrplib.KeyOf(secs[i]);
        key in data && SectionField(key, secs[i].1).Ok? && data[key] == SectionField(key, secs[i].1).value
  {
    if n > 0 {
      FoldOkBefore(secs, n - 1, n, map[], StoreSection);
      StoreSectionsLastWins(secs, n - 1);
      var before := Fold(secs, n - 1, map[], StoreSection).value;
      var sec := secs[n - 1];
      var f := SectionField(CvrplibParseVrplib.KeyOf(sec), sec.1);
      var data := Fold(secs, n, map[], StoreSection).value;
      assert f.Ok? && data == before[CvrplibParseVrplib.KeyOf(sec) := f.value];
      forall i | 0 <= i < n && (forall k :: i < k < n ==> CvrplibParseVrplib.KeyOf(secs[k]) != CvrplibParseVrplib.KeyOf(secs[i]))
        ensures var key := CvrplibParseVrplib.KeyOf(secs[i]);
          key in data && SectionField(key, secs[i].1).Ok? && data[key] == SectionField(key, secs[i].1).value
      {
        if i < n - 1 {
          assert CvrplibParseVrplib.KeyOf(secs[n - 1]) != CvrplibParseVrplib.KeyOf(secs[i]);
          assert forall k :: i < k < n - 1 ==> CvrplibParseVrplib.KeyOf(secs[k]) != CvrplibParseVrplib.KeyOf(secs[i]);
        }
      }
    }
  }

  // ----- parse_distances -----

  /** Python's round of a float: the nearest integer, ties to the even one. */
  function RoundedInt(x: real): Value {
    I(RoundHalfEven(x))
  }

  /** math.floor: an integer. */
  function FlooredInt(x: real): Value {
    I(Floor(x))
  }

  /** `lambda n: n`: the float distance. */
  function Exact(x: real): Value {
    F(x)
  }

  /**
   * The coordinates euclidean walks: the rows of a two-dimensional array; `zip` cannot iterate
   * the numbers of a one-dimensional array, nor `-` subtract characters, so those only pass when
   * there is no pair to subtract.
   */
  function Coordinates(f: Field): (r: Result<seq<seq<real>>>)
    ensures r.Ok? && f.Table? ==> |r.value| == |f.rows|
  {
    match f
    case Table(rows) =>
      if |rows| >= 2 && exists i :: 0 <= i < |rows| && !AllNumeric(rows[i]) then Err(TypeError)
      else Ok(seq(|rows|, i requires 0 <= i < |rows| => if AllNumeric(rows[i]) then Reals(rows[i]) else []))
    case Vector(items) => if |items| >= 2 then Err(TypeError) else Ok(seq(|items|, i => []))
    case Scalar(S(s)) => if |s| >= 2 then Err(TypeError) else Ok(seq(|s|, i => []))
    case Scalar(_) => Err(TypeError)
  }

  /** The distances of the "2D" types: euclidean over the coordinates, rounded by round. */
  function Euclid(data: Instance, round: real -> Value, sqrt: real -> real): Result<Option<Field>> {
    if "node_coord" !in data then Err(KeyError("node_coord"))
    else match Coordinates(data["node_coord"])
      case Err(e) => Err(e)
      case Ok(cs) => Ok(Some(Table(CvrplibParseUtils.EuclideanMatrix(cs, round, I(0), sqrt))))
  }

  /** Storing a value in a list: anything goes. */
  function Keep(v: Value): Result<Value> {
    Ok(v)
  }

  /**
   * The edge weights as the LOWER_ROW code walks them: the rows of a section, or the characters
   * of a string specification (`EDGE_WEIGHT : abc`), since `len`, iteration and indexing work on
   * a string one character at a time and give one-character strings, and indexing those at 0
   * gives them back. A number has no `len`.
   */
  function EdgeWeightRows(weights: Field): (r: Option<seq<seq<Value>>>)
    ensures r.Some? <==> weights.Table? || (weights.Scalar? && weights.v.S?)
    ensures weights.Table? ==> r == Some(weights.rows)
    ensures weights.Scalar? && weights.v.S? ==> r == Some(CharRows(weights.v.s))
  {
    match weights
    case Table(rows) => Some(rows)
    case Scalar(S(text)) => Some(CharRows(text))
    case _ => None
  }

  /** A string as the rows it acts as: one row per character, holding that character as a string. */
  function CharRows(text: string): (rows: seq<seq<Value>>)
    ensures |rows| == |text|
    ensures forall i :: 0 <= i < |text| ==> rows[i] == [S([text[i]])]
  {
    seq(|text|, i requires 0 <= i < |text| => [S([text[i]])])
  }

  /**
   * The LOWER_ROW branch: get_representation compares the row count with dimension - 1, then
   * from_triangular or from_flattened fill a list of zeros; a negative dimension gives an empty
   * matrix, and a dimension or edge weights of another kind cannot be used (the instance's
   * specifications are integers or strings, so a dimension is never a float here).
   */
  function LowerRow(weights: Field, dim: Field): Result<Field> {
    if EdgeWeightRows(weights).None? || !(dim.Scalar? && dim.v.I?) then Err(TypeError)
    else
      var rows := EdgeWeightRows(weights).value;
      var n := dim.v.i;
      if |rows| == n - 1 then
        match TriangularMatrix(rows, Keep, I(0))
        case Err(e) => Err(e)
        case Ok(m) => Ok(Table(m))
      else if n < 0 then Ok(Table([]))
      else
        match FlattenedMatrix(rows, n, Keep, I(0))
        case Err(e) => Err(e)
        case Ok(m) => Ok(Table(m))
  }

  /**
   * parse_distances: nothing when "distances" is already there; the lookups fail with KeyError in
   * the order the code makes them; an unknown type or an EXPLICIT format other than LOWER_ROW
   * gives nothing.
   */
  function Distances(data: Instance, sqrt: real -> real): Result<Option<Field>> {
    if "distances" in data then Ok(None)
    else if "edge_weight_type" !in data then Err(KeyError("edge_weight_type"))
    else
      var t := data["edge_weight_type"];
      if t == Scalar(S("EUC_2D")) then Euclid(data, RoundedInt, sqrt)
      else if t == Scalar(S("FLOOR_2D")) then Euclid(data, FlooredInt, sqrt)
      else if t == Scalar(S("EXACT_2D")) then Euclid(data, Exact, sqrt)
      else if t != Scalar(S("EXPLICIT")) then Ok(None)
      else if "edge_weight_format" !in data then Err(KeyError("edge_weight_format"))
      else if data["edge_weight_format"] != Scalar(S("LOWER_ROW")) then Ok(None)
      else if "edge_weight" !in data then Err(KeyError("edge_weight"))
      else if "dimension" !in data then Err(KeyError("dimension"))
      else
        match LowerRow(data["edge_weight"], data["dimension"])
        case Err(e) => Err(e)
        case Ok(f) => Ok(Some(f))
  }

  // ----- parse_vrplib -----

  /** parse_vrplib: the specifications, overwritten by the sections, then the distances if any. */
  function Parsed(lines: seq<string>, sqrt: real -> real): Result<Instance> {
    var specs := Specifications(lines, |lines|, SpecEntry);
    match SectionData(lines)
    case Err(e) => Err(e)
    case Ok(secs) =>
      var data := specs + secs;
      match Distances(data, sqrt)
      case Err(e) => Err(e)
      case Ok(None) => Ok(data)
      case Ok(Some(d)) => Ok(data["distances" := d])
  }

  /** parse_vrplib as written. */
  method ParseVrplib(lines: seq<string>, sqrt: real -> real) returns (r: Result<Instance>)
    ensures r == Parsed(lines, sqrt)
  {
    var data := ParseSpecifications(lines);
    var secs := ParseSections(lines);
    if secs.Err? {
      return Err(secs.error);
    }
    data := data + secs.value;
    var d := Distances(data, sqrt);
    if d.Err? {
      return Err(d.error);
    }
    r := if d.value.Some? then Ok(data["distances" := d.value.value]) else Ok(data);
  }

  // ----- properties of the distances and of the whole -----

  /**
   * Distances are computed only when they are missing: a "distances" entry stops everything, and
   * an unknown type or an EXPLICIT format other than LOWER_ROW gives no distances and no error.
   */
  lemma DistancesSilent(data: Instance, sqrt: real -> real)
    ensures "distances" in data ==> Distances(data, sqrt) == Ok(None)
    ensures "distances" !in data && "edge_weight_type" !in data ==> Distances(data, sqrt) == Err(KeyError("edge_weight_type"))
    ensures ("distances" !in data && "edge_weight_type" in data
      && data["edge_weight_type"] !in {Scalar(S("EUC_2D")), Scalar(S("FLOOR_2D")), Scalar(S("EXACT_2D")), Scalar(S("EXPLICIT"))})
      ==> Distances(data, sqrt) == Ok(None)
    ensures ("distances" !in data && "edge_weight_type" in data && data["edge_weight_type"] == Scalar(S("EXPLICIT"))
      && "edge_weight_format" in data && data["edge_weight_format"] != Scalar(S("LOWER_ROW")))
      ==> Distances(data, sqrt) == Ok(None)
  {
  }

  /**
   * The "2D" types give a square matrix of the coordinate rows, symmetric with the integer zero on
   * its diagonal, whose entries off the diagonal are the distance rounded (EUC_2D), floored
   * (FLOOR_2D) or kept (EXACT_2D).
   */
  lemma EuclidProperties(data: Instance, t: string, sqrt: real -> real)
    requires "distances" !in data && "edge_weight_type" in data && data["edge_weight_type"] == Scalar(S(t))
    requires t in {"EUC_2D", "FLOOR_2D", "EXACT_2D"}
    requires "node_coord" in data && Coordinates(data["node_coord"]).Ok?
    ensures var cs := Coordinates(data["node_coord"]).value;
      var r := Distances(data, sqrt);
      && r.Ok? && r.value.Some? && r.value.value.Table?
      && var m := r.value.value.rows;
      && |m| == |cs| && Mirrored(m, I(0))
      && forall a, b :: 0 <= a < |cs| && 0 <= b < |cs| && a != b ==>
        var x := Dist(cs[a], cs[b], sqrt);
        m[a][b] == if t == "EUC_2D" then I(RoundHalfEven(x)) else if t == "FLOOR_2D" then I(Floor(x)) else F(x)
  {
    var cs := Coordinates(data["node_coord"]).value;
    if t == "EUC_2D" {
      CvrplibParseUtils.EuclideanProperties(cs, RoundedInt, I(0), sqrt);
    } else if t == "FLOOR_2D" {
      CvrplibParseUtils.EuclideanProperties(cs, FlooredInt, I(0), sqrt);
    } else {
      CvrplibParseUtils.EuclideanProperties(cs, Exact, I(0), sqrt);
    }
  }

  /**
   * LOWER_ROW with dimension n reads the rows as a triangle exactly when there are n - 1 of them:
   * entry (i, j), j < i, is then t[i - 1][j]; otherwise the values fill the pairs (1, 0), (2, 0),
   * (2, 1), ... in order. Either matrix is square and symmetric with zero on its diagonal, and
   * keeps the values as they are.
   */
  lemma LowerRowProperties(rows: seq<seq<Value>>, n: int)
    ensures var r := LowerRow(Table(rows), Scalar(I(n)));
      r.Ok? ==> r.value.Table? && Mirrored(r.value.rows, I(0)) && |r.value.rows| == (if |rows| == n - 1 then |rows| + 1 else if n < 0 then 0 else n)
    ensures var r := LowerRow(Table(rows), Scalar(I(n)));
      |rows| == n - 1 ==>
        ((r.Ok? <==> TriReadable(rows, Keep))
        && (r.Ok? ==> forall i, j :: 0 <= j < i <= |rows| ==> TriRead(rows, Keep, i, j) == Ok(r.value.rows[i][j])))
    ensures var r := LowerRow(Table(rows), Scalar(I(n)));
      |rows| != n - 1 && n >= 0 ==>
        ((r.Ok? <==> FlatReadable(Flatten(rows), Keep, n))
        && (r.Ok? ==> forall i, j :: 0 <= j < i < n ==>
          LowerIndex(i, j) < |Flatten(rows)| && Flatten(rows)[LowerIndex(i, j)] == r.value.rows[i][j]))
  {
    if |rows| == n - 1 {
      TriangularMatrixProperties(rows, Keep, I(0));
    } else if n >= 0 {
      FlattenedMatrixProperties(rows, n, Keep, I(0));
    }
  }

  /** The characters of a string, each as a one-character string. */
  function CharValues(text: string): (vs: seq<Value>)
    ensures |vs| == |text|
  {
    seq(|text|, i requires 0 <= i < |text| => S([text[i]]))
  }

  /** Iterating the rows of a string and then each row gives its characters back in order. */
  lemma {:induction false} FlattenCharRows(text: string)
    ensures Flatten(CharRows(text)) == CharValues(text)
    decreases |text|
  {
    if text != [] {
      assert CharRows(text)[1..] == CharRows(text[1..]);
      FlattenCharRows(text[1..]);
      assert CharValues(text) == [S([text[0]])] + CharValues(text[1..]);
    }
  }

  /**
   * A string specification with dimension one more than its length is read as a triangle:
   * `triangular[i - 1][j]` indexes a one-character string, so only j = 0 exists and every string
   * of two or more characters raises IndexError; `EDGE_WEIGHT : a` with `DIMENSION : 2` gives
   * [[0, 'a'], ['a', 0]].
   */
  lemma StringTriangle(text: string)
    ensures var r := LowerRow(Scalar(S(text)), Scalar(I(|text| + 1)));
      && (r.Ok? <==> |text| < 2)
      && (r.Err? ==> r.error == IndexError)
      && (|text| == 0 ==> r == Ok(Table([[I(0)]])))
      && (|text| == 1 ==> r == Ok(Table([[I(0), S(text)], [S(text), I(0)]])))
  {
    var rows := CharRows(text);
    var r := LowerRow(Scalar(S(text)), Scalar(I(|text| + 1)));
    assert r == LowerRow(Table(rows), Scalar(I(|text| + 1)));
    TriangularMatrixProperties(rows, Keep, I(0));
    if |text| >= 2 {
      assert TriRead(rows, Keep, 2, 1) == Err(IndexError);
    } else {
      assert TriReadable(rows, Keep);
      var m := TriangularMatrix(rows, Keep, I(0)).value;
      if |text| == 1 {
        assert [text[0]] == text;
        assert TriRead(rows, Keep, 1, 0) == Ok(S(text));
        assert |m| == 2 && |m[0]| == 2 && |m[1]| == 2;
        assert m[1][0] == S(text) && m[0][1] == S(text) && m[0][0] == I(0) && m[1][1] == I(0);
        assert m[0] == [I(0), S(text)] && m[1] == [S(text), I(0)];
        assert m == [[I(0), S(text)], [S(text), I(0)]];
      } else {
        assert |m| == 1 && |m[0]| == 1 && m[0][0] == I(0);
        assert m[0] == [I(0)];
        assert m == [[I(0)]];
      }
    }
  }

  /**
   * A string specification of any other length is read as flattened: its characters fill the
   * pairs (1, 0), (2, 0), (2, 1), ... in order, so it succeeds exactly when it has a character
   * for each of the n (n - 1) / 2 pairs and otherwise raises IndexError; `EDGE_WEIGHT : abc` with
   * `DIMENSION : 3` fills a 3 x 3 matrix with 'a', 'b' and 'c'.
   */
  lemma StringFlattened(text: string, n: nat)
    requires |text| != n - 1
    ensures var r := LowerRow(Scalar(S(text)), Scalar(I(n)));
      && (r.Ok? <==> Tri(n) <= |text|)
      && (r.Err? ==> r.error == IndexError)
      && (r.Ok? ==>
        && r.value.Table? && |r.value.rows| == n && Mirrored(r.value.rows, I(0))
        && forall i, j :: 0 <= j < i < n ==> LowerIndex(i, j) < |text| && r.value.rows[i][j] == S([text[LowerIndex(i, j)]]))
  {
    var rows := CharRows(text);
    assert LowerRow(Scalar(S(text)), Scalar(I(n))) == LowerRow(Table(rows), Scalar(I(n)));
    FlattenedMatrixProperties(rows, n, Keep, I(0));
    FlattenCharRows(text);
    if Tri(n) > |text| {
      assert FlatRead(Flatten(rows), Keep, |text|) == Err(IndexError);
    }
  }

  /**
   * parse_vrplib succeeds exactly when the sections and the distances do. The sections then
   * overwrite the specifications, and "distances" is added exactly when parse_distances gave a
   * matrix; every other entry is the merged one.
   */
  lemma ParsedMerges(lines: seq<string>, sqrt: real -> real)
    ensures Parsed(lines, sqrt).Ok? <==>
      SectionData(lines).Ok? && Distances(Specifications(lines, |lines|, SpecEntry) + SectionData(lines).value, sqrt).Ok?
    ensures Parsed(lines, sqrt).Ok? ==>
      var specs := Specifications(lines, |lines|, SpecEntry);
      var secs := SectionData(lines).value;
      var d := Distances(specs + secs, sqrt).value;
      var r := Parsed(lines, sqrt).value;
      && (forall key :: key in r <==> key in specs || key in secs || (key == "distances" && d.Some?))
      && (forall key :: key in secs && (key != "distances" || d.None?) ==> r[key] == secs[key])
      && (forall key :: key in specs && key !in secs && (key != "distances" || d.None?) ==> r[key] == specs[key])
      && (d.Some? ==> r["distances"] == d.value)
  {
  }
}
