/**
 * The instance writer of the earlier library (cvrplib/write/write_instance.py): for each entry of
 * the mapping, in order, a single value becomes the line "KEY : value" with the key upper-cased,
 * and a list becomes a section block; then the line "EOF". EDGE_WEIGHT rows carry no index, DEPOT
 * lists each depot plus one and then the -1 terminator, and every other section numbers its rows
 * from 1. The file text is returned instead of written: when a write raises, the text written
 * before it is returned with the error.
 */
module CvrplibWriteInstance {
  import opened Wrappers
  import opened Text
  import opened Tokens
  import opened Instances
  import opened Stores
  import opened Lists
  import VrplibParseVrplib
  import VrplibParseDistances
  import CvrplibParseVrplib
  import VrplibWriteInstance

  // ----- the lines of each kind of block -----

  /** `str(elt)` for each value of a row. */
  function Shown(row: seq<Value>, fmt: real -> string): (r: seq<string>)
    ensures |r| == |row| && forall j :: 0 <= j < |row| ==> r[j] == Show(row[j], fmt)
  {
    seq(|row|, j requires 0 <= j < |row| => Show(row[j], fmt))
  }

  /** `"\t".join(map(str, row))`. */
  function TabRow(row: seq<Value>, fmt: real -> string): string {
    Join("\t", Shown(row, fmt))
  }

  /**
   * A row of a one-dimensional EDGE_WEIGHT list: `map(str, row)` walks the characters of a string
   * and cannot iterate a number.
   */
  function CharRow(fmt: real -> string, v: Value): Result<seq<string>> {
    match v
    case S(s) => Ok([Join("\t", seq(|s|, i requires 0 <= i < |s| => [s[i]]))])
    case _ => Err(TypeError)
  }

  /** write_edge_weight_section: the header, then one line per row, without an index. */
  function EdgeWeightLines(f: Field, fmt: real -> string): (seq<string>, Option<Error>)
    requires !f.Scalar?
  {
    match f
    case Table(rows) => (["EDGE_WEIGHT_SECTION"] + seq(|rows|, i requires 0 <= i < |rows| => TabRow(rows[i], fmt)), None)
    case Vector(items) =>
      var w := Emitted(items, |items|, fmt, CharRow);
      (["EDGE_WEIGHT_SECTION"] + w.0, w.1)
  }

  /** `f"{idx + 1}"` for one depot: a string cannot be added to. */
  function DepotLine(fmt: real -> string, v: Value): Result<seq<string>> {
    match v
    case I(n) => Ok([IntToString(n + 1)])
    case F(x) => Ok([fmt(x + 1.0)])
    case S(_) => Err(TypeError)
  }

  /**
   * write_depot_section: the header, each depot plus one on its own line, then "-1". A list of
   * lists cannot be added to either, so a table only passes when it has no row.
   */
  function DepotLines(f: Field, fmt: real -> string): (seq<string>, Option<Error>)
    requires !f.Scalar?
  {
    match f
    case Vector(items) =>
      var w := Emitted(items, |items|, fmt, DepotLine);
      if w.1.None? then (["DEPOT_SECTION"] + w.0 + ["-1"], None) else (["DEPOT_SECTION"] + w.0, w.1)
    case Table(rows) =>
      if rows == [] then (["DEPOT_SECTION", "-1"], None) else (["DEPOT_SECTION"], Some(TypeError))
  }

  /** `f"{idx}\t{elt}"`: row idx of a one-dimensional list. */
  function ItemLine(idx: nat, v: Value, fmt: real -> string): string {
    NatToString(idx) + "\t" + Show(v, fmt)
  }

  /** `f"{idx}\t" + "\t".join(...)`: row idx of a table. */
  function RowLine(idx: nat, row: seq<Value>, fmt: real -> string): string {
    NatToString(idx) + "\t" + TabRow(row, fmt)
  }

  /** The numbered rows of a section other than EDGE_WEIGHT and DEPOT. */
  function NumberedLines(f: Field, fmt: real -> string): (r: seq<string>)
    requires !f.Scalar?
    ensures f.Vector? ==> |r| == |f.items| && forall i :: 0 <= i < |f.items| ==> r[i] == ItemLine(i + 1, f.items[i], fmt)
    ensures f.Table? ==> |r| == |f.rows| && forall i :: 0 <= i < |f.rows| ==> r[i] == RowLine(i + 1, f.rows[i], fmt)
  {
    match f
    case Vector(items) => seq(|items|, i requires 0 <= i < |items| => ItemLine(i + 1, items[i], fmt))
    case Table(rows) => seq(|rows|, i requires 0 <= i < |rows| => RowLine(i + 1, rows[i], fmt))
  }

  /**
   * Any other section: the header "{name}_SECTION", then the numbered rows. The header is written
   * before `np.shape` looks at the data, which refuses rows of different lengths.
   */
  function IndexedLines(name: string, f: Field, fmt: real -> string): (seq<string>, Option<Error>)
    requires !f.Scalar?
  {
    var header := name + "_SECTION";
    if f.Table? && f.rows != [] && !Rectangular(f.rows) then ([header], Some(ValueError(VrplibParseDistances.Inhomogeneous)))
    else ([header] + NumberedLines(f, fmt), None)
  }

  /** write_section: the block of a list, by its upper-cased name. */
  function SectionLines(name: string, f: Field, fmt: real -> string): (seq<string>, Option<Error>)
    requires !f.Scalar?
  {
    if name == "EDGE_WEIGHT" then EdgeWeightLines(f, fmt)
    else if name == "DEPOT" then DepotLines(f, fmt)
    else IndexedLines(name, f, fmt)
  }

  /** The lines of one entry, and the error that stopped it if one did. */
  function EntryLines(key: string, f: Field, fmt: real -> string): (seq<string>, Option<Error>) {
    if f.Scalar? then ([Upper(key) + " : " + Show(f.v, fmt)], None) else SectionLines(Upper(key), f, fmt)
  }

  /** The lines of one entry of the mapping. */
  function EntryOf(fmt: real -> string, e: (string, Field)): (seq<string>, Option<Error>) {
    EntryLines(e.0, e.1, fmt)
  }

  /** The lines written for the first n entries, and the error if one stopped the loop. */
  function Written(data: seq<(string, Field)>, n: nat, fmt: real -> string): (seq<string>, Option<Error>)
    requires n <= |data|
  {
    Streamed(data, n, fmt, EntryOf)
  }

  /** The file text write_instance leaves, and the error it raised if it did. */
  function InstanceText(data: seq<(string, Field)>, fmt: real -> string): (string, Option<Error>) {
    var w := Written(data, |data|, fmt);
    if w.1.None? then (Unlines(w.0 + ["EOF"]), None) else (Unlines(w.0), w.1)
  }

  // ----- the writes, one line at a time -----

  /** write_instance: each entry in order, each line followed by "\n", then "EOF". */
  method WriteInstance(data: seq<(string, Field)>, fmt: real -> string) returns (text: string, err: Option<Error>)
    ensures (text, err) == InstanceText(data, fmt)
  {
    text := "";
    for j := 0 to |data|
      invariant Written(data, j, fmt).1.None?
      invariant text == Unlines(Written(data, j, fmt).0)
    {
      var more, failed := WriteEntry(data[j].0, data[j].1, fmt);
      UnlinesConcat(Written(data, j, fmt).0, EntryLines(data[j].0, data[j].1, fmt).0);
      text := text + more;
      if failed.Some? {
        StreamedErrorStays(data, j + 1, |data|, fmt, EntryOf);
        return text, failed;
      }
    }
    UnlinesAppend(Written(data, |data|, fmt).0, "EOF");
    text := text + "EOF" + "\n";
    err := None;
  }

  /** One entry: `f"{k.upper()} : {v}"` and a line break, or write_section. */
  method WriteEntry(key: string, f: Field, fmt: real -> string) returns (text: string, err: Option<Error>)
    ensures (text, err) == (Unlines(EntryLines(key, f, fmt).0), EntryLines(key, f, fmt).1)
  {
    if f.Scalar? {
      text := Upper(key) + " : " + Show(f.v, fmt) + "\n";
      err := None;
      assert Unlines([Upper(key) + " : " + Show(f.v, fmt)]) == text;
    } else {
      text, err := WriteSection(Upper(key), f, fmt);
    }
  }

  /** write_section: the EDGE_WEIGHT and DEPOT blocks have writers of their own. */
  method WriteSection(name: string, f: Field, fmt: real -> string) returns (text: string, err: Option<Error>)
    requires !f.Scalar?
    ensures (text, err) == (Unlines(SectionLines(name, f, fmt).0), SectionLines(name, f, fmt).1)
  {
    if name == "EDGE_WEIGHT" {
      text, err := WriteEdgeWeightSection(f, fmt);
    } else if name == "DEPOT" {
      text, err := WriteDepotSection(f, fmt);
    } else {
      var header := name + "_SECTION";
      text := header + "\n";
      assert text == Unlines([header]);
      if f.Table? && f.rows != [] && !Rectangular(f.rows) {
        return text, Some(ValueError(VrplibParseDistances.Inhomogeneous));
      }
      text := WriteLines(text, [header], NumberedLines(f, fmt));
      err := None;
    }
  }

  /** The lines ls written after the text of the lines done, one line at a time. */
  method WriteLines(text: string, done: seq<string>, ls: seq<string>) returns (text': string)
    requires text == Unlines(done)
    ensures text' == Unlines(done + ls)
  {
    text' := text;
    assert done + ls[..0] == done;
    for i := 0 to |ls|
      invariant text' == Unlines(done + ls[..i])
    {
      UnlinesAppend(done + ls[..i], ls[i]);
      assert done + ls[..i + 1] == done + ls[..i] + [ls[i]];
      text' := text' + ls[i] + "\n";
    }
    assert ls[..|ls|] == ls;
  }

  /** write_edge_weight_section. */
  method WriteEdgeWeightSection(f: Field, fmt: real -> string) returns (text: string, err: Option<Error>)
    requires !f.Scalar?
    ensures (text, err) == (Unlines(EdgeWeightLines(f, fmt).0), EdgeWeightLines(f, fmt).1)
  {
    var header := "EDGE_WEIGHT_SECTION";
    text := header + "\n";
    assert text == Unlines([header]);
    match f
    case Table(rows) =>
      text := WriteLines(text, [header], seq(|rows|, i requires 0 <= i < |rows| => TabRow(rows[i], fmt)));
      err := None;
    case Vector(items) =>
      text, err := WriteEmitted(text, [header], items, fmt, CharRow);
  }

  /** write_depot_section. */
  method WriteDepotSection(f: Field, fmt: real -> string) returns (text: string, err: Option<Error>)
    requires !f.Scalar?
    ensures (text, err) == (Unlines(DepotLines(f, fmt).0), DepotLines(f, fmt).1)
  {
    var header := "DEPOT_SECTION";
    text := header + "\n";
    assert text == Unlines([header]);
    match f
    case Table(rows) =>
      if rows != [] {
        return text, Some(TypeError);
      }
      UnlinesAppend([header], "-1");
      text := text + "-1" + "\n";
      err := None;
    case Vector(items) =>
      text, err := WriteEmitted(text, [header], items, fmt, DepotLine);
      if err.None? {
        UnlinesAppend([header] + Emitted(items, |items|, fmt, DepotLine).0, "-1");
        text := text + "-1" + "\n";
      }
  }

  /** The lines emit gives each value, after the text of the lines done, until one value fails. */
  method WriteEmitted(text: string, done: seq<string>, xs: seq<Value>, fmt: real -> string, emit: (real -> string, Value) -> Result<seq<string>>) returns (text': string, err: Option<Error>)
    requires text == Unlines(done)
    ensures (text', err) == (Unlines(done + Emitted(xs, |xs|, fmt, emit).0), Emitted(xs, |xs|, fmt, emit).1)
  {
    text' := text;
    assert done + [] == done;
    for i := 0 to |xs|
      invariant Emitted(xs, i, fmt, emit).1.None?
      invariant text' == Unlines(done + Emitted(xs, i, fmt, emit).0)
    {
      var w := Emitted(xs, i, fmt, emit).0;
      match emit(fmt, xs[i])
      case Err(e) =>
        EmittedErrorStays(xs, i + 1, |xs|, fmt, emit);
        return text', Some(e);
      case Ok(ls) =>
        UnlinesConcat(done + w, ls);
        assert done + w + ls == done + (w + ls);
        text' := text' + Unlines(ls);
    }
    err := None;
  }

  // ----- what the writer promises -----

  /** The loop ends without error exactly when every entry is written without one. */
  lemma WrittenOk(data: seq<(string, Field)>, n: nat, fmt: real -> string)
    requires n <= |data|
    ensures Written(data, n, fmt).1.None? <==> forall j :: 0 <= j < n ==> EntryLines(data[j].0, data[j].1, fmt).1.None?
    ensures Written(data, n, fmt).1.Some? ==> exists j :: 0 <= j < n && EntryLines(data[j].0, data[j].1, fmt).1 == Written(data, n, fmt).1
  {
    StreamedOk(data, n, fmt, EntryOf);
  }

  /**
   * The lists write_section can write: a one-dimensional EDGE_WEIGHT of strings only, DEPOT
   * numbers only or an empty table, and for any other name a table whose rows are all as long.
   */
  predicate Writable(name: string, f: Field) {
    match f
    case Scalar(_) => true
    case Vector(items) =>
      && (name == "EDGE_WEIGHT" ==> forall i :: 0 <= i < |items| ==> items[i].S?)
      && (name == "DEPOT" ==> AllNumeric(items))
    case Table(rows) =>
      && (name == "DEPOT" ==> rows == [])
      && (name != "EDGE_WEIGHT" && name != "DEPOT" ==> rows == [] || Rectangular(rows))
  }

  /** A block fails exactly when its list is not writable, with a TypeError or numpy's ValueError. */
  lemma SectionLinesFail(name: string, f: Field, fmt: real -> string)
    requires !f.Scalar?
    ensures SectionLines(name, f, fmt).1.None? <==> Writable(name, f)
    ensures SectionLines(name, f, fmt).1 in {None, Some(TypeError), Some(ValueError(VrplibParseDistances.Inhomogeneous))}
  {
    if f.Vector? {
      EmittedOk(f.items, |f.items|, fmt, CharRow);
      EmittedOk(f.items, |f.items|, fmt, DepotLine);
    }
  }

  /**
   * write_instance raises exactly when some list is not writable under its upper-cased key, and
   * then with a TypeError or numpy's ValueError; otherwise the whole file is written.
   */
  lemma InstanceTextError(data: seq<(string, Field)>, fmt: real -> string)
    ensures InstanceText(data, fmt).1.None? <==> forall j :: 0 <= j < |data| ==> Writable(Upper(data[j].0), data[j].1)
    ensures InstanceText(data, fmt).1 in {None, Some(TypeError), Some(ValueError(VrplibParseDistances.Inhomogeneous))}
  {
    WrittenOk(data, |data|, fmt);
    forall j | 0 <= j < |data|
      ensures EntryLines(data[j].0, data[j].1, fmt).1.None? <==> Writable(Upper(data[j].0), data[j].1)
      ensures EntryLines(data[j].0, data[j].1, fmt).1 in {None, Some(TypeError), Some(ValueError(VrplibParseDistances.Inhomogeneous))}
    {
      if !data[j].1.Scalar? {
        SectionLinesFail(Upper(data[j].0), data[j].1, fmt);
      }
    }
  }

  /** A complete file ends with the line "EOF". */
  lemma InstanceEndsWithEof(data: seq<(string, Field)>, fmt: real -> string)
    requires InstanceText(data, fmt).1.None?
    ensures EndsWith(InstanceText(data, fmt).0, "EOF\n")
  {
    var ls := Written(data, |data|, fmt).0;
    UnlinesAppend(ls, "EOF");
    var t := Unlines(ls) + "EOF" + "\n";
    assert t[|t| - 4..] == "EOF\n";
  }

  /** With every list writable, the lines are the entries' lines one after the other, in mapping order. */
  lemma WrittenInOrder(data: seq<(string, Field)>, n: nat, fmt: real -> string)
    requires n <= |data| && forall j :: 0 <= j < n ==> Writable(Upper(data[j].0), data[j].1)
    ensures Written(data, n, fmt) == (Flatten(seq(n, j requires 0 <= j < n => EntryLines(data[j].0, data[j].1, fmt).0)), None)
  {
    forall j | 0 <= j < n ensures EntryOf(fmt, data[j]).1.None? {
      if !data[j].1.Scalar? {
        SectionLinesFail(Upper(data[j].0), data[j].1, fmt);
      }
    }
    StreamedInOrder(data, n, fmt, EntryOf);
    var b := seq(n, j requires 0 <= j < n => EntryLines(data[j].0, data[j].1, fmt).0);
    assert Outputs(data, n, fmt, EntryOf) == b;
  }

  // ----- reading the blocks back -----

  /** Upper-casing and then lower-casing is lower-casing. */
  lemma LowerUpper(s: string)
    ensures Lower(Upper(s)) == Lower(s)
  {
  }

  /**
   * A single value's line "KEY : value" reads back, through the current library's
   * parse_specification, as the lower-cased key and the value.
   */
  lemma ScalarLineRead(key: string, v: Value, fmt: real -> string)
    requires key != [] && IsStripped(key) && ':' !in key && ReadsBack(v, fmt)
    ensures var line := EntryLines(key, Scalar(v), fmt).0;
      |line| == 1 && VrplibParseVrplib.ParseSpecification(line[0]) == Ok((Lower(key), v))
  {
    var t := Show(v, fmt);
    SpecLineSplit(Upper(key), t);
    StripStripped(t);
    LowerUpper(key);
  }

  lemma SpecLineSplit(k: string, t: string)
    requires k != [] && IsStripped(k) && ':' !in k
    ensures VrplibParseVrplib.ParseSpecification(k + " : " + t) == Ok((Lower(k), InferType(Strip(t))))
  {
    assert k + " : " + t == (k + " ") + ":" + ([' '] + t);
    assert ':' !in k + " ";
    VrplibParseVrplib.ParseSpecificationSplit(k + " ", [' '] + t);
    StripTrailingSpace(k, ' ');
    StripLeadingSpace(' ', t);
  }

  /**
   * The same line is a specification to the earlier library's scan: the key is what precedes the
   * first ": ", lower-cased, and the value what follows it.
   */
  lemma ScalarLineClassified(key: string, v: Value, fmt: real -> string)
    requires key != [] && IsStripped(key) && ':' !in key && ReadsBack(v, fmt)
    ensures var line := EntryLines(key, Scalar(v), fmt).0;
      |line| == 1 && CvrplibParseVrplib.Classify(line[0]) == CvrplibParseVrplib.SpecLine(Lower(key), v)
  {
    var t := Show(v, fmt);
    SpecLineScanned(Upper(key), t);
    StripStripped(t);
    LowerUpper(key);
  }

  lemma SpecLineScanned(k: string, t: string)
    requires k != [] && IsStripped(k) && ':' !in k
    ensures CvrplibParseVrplib.Classify(k + " : " + t) == CvrplibParseVrplib.SpecLine(Lower(k), InferType(Strip(t)))
  {
    var line := k + " : " + t;
    var at := |k| + 1;
    assert line[at..at + 2] == ": ";
    assert MatchAt(line, ": ", at);
    ContainsAt(line, ": ", at);
    ColonPosition(line, at);
    assert line[..at] == k + " ";
    StripTrailingSpace(k, ' ');
    assert line[at + 2..] == t;
  }

  /** The first ": " of a line whose only colon is at position at. */
  lemma ColonPosition(line: string, at: nat)
    requires at + 1 < |line| && MatchAt(line, ": ", at)
    requires forall j :: 0 <= j < at ==> line[j] != ':'
    ensures Find(line, ": ") == at
  {
    forall j | 0 <= j < at ensures !MatchAt(line, ": ", j) {
      if j + 2 <= |line| {
        assert line[j..j + 2][0] == line[j];
      }
    }
  }

  /** The depots as integers. */
  function Depots(ds: seq<int>): (r: seq<Value>)
    ensures |r| == |ds| && forall i :: 0 <= i < |ds| ==> r[i] == I(ds[i])
  {
    seq(|ds|, i requires 0 <= i < |ds| => I(ds[i]))
  }

  /** The depot block of depots ds: the header, each depot plus one, then "-1". */
  lemma DepotBlock(ds: seq<int>, fmt: real -> string)
    ensures DepotLines(Vector(Depots(ds)), fmt) == (["DEPOT_SECTION"] + DepotTexts(ds) + ["-1"], None)
  {
    EmittedSingles(Depots(ds), |ds|, fmt, DepotLine, DepotTexts(ds));
    assert DepotTexts(ds)[..|ds|] == DepotTexts(ds);
  }

  /** Each depot plus one, as text. */
  function DepotTexts(ds: seq<int>): (r: seq<string>)
    ensures |r| == |ds| && forall i :: 0 <= i < |ds| ==> r[i] == IntToString(ds[i] + 1)
  {
    seq(|ds|, i requires 0 <= i < |ds| => IntToString(ds[i] + 1))
  }

  /** A line holding an integer alone is read as that integer. */
  lemma IntLineRow(n: int)
    ensures VrplibParseVrplib.Row(IntToString(n)) == [I(n)]
  {
    IntReadsBack(n, x => "");
    VrplibParseVrplib.TokenRow(IntToString(n));
  }

  /**
   * Depot round trip: the block written for non-negative depots is read back as the same depots
   * by the current library (which drops every -1 and subtracts one) and by the earlier one
   * (which drops the last row and subtracts one).
   */
  lemma DepotReadBack(ds: seq<int>, fmt: real -> string)
    requires forall i :: 0 <= i < |ds| ==> ds[i] >= 0
    ensures var lines := DepotLines(Vector(Depots(ds)), fmt).0;
      && DepotLines(Vector(Depots(ds)), fmt).1.None?
      && |lines| == |ds| + 2 && lines[0] == "DEPOT_SECTION" && lines[|ds| + 1] == "-1"
      && VrplibParseVrplib.Depot(VrplibParseVrplib.Rows(lines[1..])) == Ok(Vector(Depots(ds)))
      && CvrplibParseVrplib.DepotField(VrplibParseVrplib.Rows(lines[1..])) == Ok(Vector(Depots(ds)))
  {
    DepotBlock(ds, fmt);
    var lines := DepotLines(Vector(Depots(ds)), fmt).0;
    assert lines[1..] == DepotTexts(ds) + ["-1"];
    DepotLinesRows(ds, lines[1..]);
    DepotRowsRead(ds);
  }

  /** The rows of the depot lines: each depot plus one, then the terminator. */
  function DepotRows(ds: seq<int>): (r: seq<seq<Value>>)
    ensures |r| == |ds| + 1 && r[|ds|] == [I(-1)]
    ensures forall i :: 0 <= i < |ds| ==> r[i] == [I(ds[i] + 1)]
  {
    seq(|ds| + 1, i requires 0 <= i <= |ds| => if i < |ds| then [I(ds[i] + 1)] else [I(-1)])
  }

  lemma DepotLinesRows(ds: seq<int>, body: seq<string>)
    requires body == DepotTexts(ds) + ["-1"]
    ensures VrplibParseVrplib.Rows(body) == DepotRows(ds)
  {
    var rows := VrplibParseVrplib.Rows(body);
    forall i | 0 <= i < |ds| ensures rows[i] == [I(ds[i] + 1)] {
      IntLineRow(ds[i] + 1);
    }
    TerminatorRow();
  }

  /** The terminator line is read as -1. */
  lemma TerminatorRow()
    ensures VrplibParseVrplib.Row("-1") == [I(-1)]
  {
    assert IntToString(-1) == "-1";
    IntLineRow(-1);
  }

  lemma DepotRowsRead(ds: seq<int>)
    requires forall i :: 0 <= i < |ds| ==> ds[i] >= 0
    ensures CvrplibParseVrplib.DepotField(DepotRows(ds)) == Ok(Vector(Depots(ds)))
    ensures VrplibParseVrplib.Depot(DepotRows(ds)) == Ok(Vector(Depots(ds)))
  {
    var rows := DepotRows(ds);
    var r := CvrplibParseVrplib.DepotField(rows);
    assert Rectangular(rows);
    assert AllNumeric(CvrplibParseVrplib.Column(rows, 0));
    assert r.value.items == Depots(ds);
    CvrplibParseVrplib.DepotAgrees(rows);
  }

  /** A numbered row of values that each read back is read as its number, then the values. */
  lemma RowLineRead(i: nat, row: seq<Value>, fmt: real -> string)
    requires row != [] && forall j :: 0 <= j < |row| ==> ReadsBack(row[j], fmt)
    ensures VrplibParseVrplib.Row(RowLine(i, row, fmt)) == [I(i)] + row
  {
    var h := NatToString(i);
    var cs := Shown(row, fmt);
    assert Join("\t", [h] + cs) == RowLine(i, row, fmt) by {
      assert ([h] + cs)[1..] == cs;
    }
    IntReadsBack(i, fmt);
    VrplibWriteInstance.RowOfJoin(h, cs, row);
  }

  /** A numbered item that reads back is read as its number, then the item. */
  lemma ItemLineRead(i: nat, v: Value, fmt: real -> string)
    requires ReadsBack(v, fmt)
    ensures VrplibParseVrplib.Row(ItemLine(i, v, fmt)) == [I(i), v]
  {
    assert Shown([v], fmt) == [Show(v, fmt)];
    assert ItemLine(i, v, fmt) == RowLine(i, [v], fmt);
    RowLineRead(i, [v], fmt);
  }

  /**
   * Round trip of a one-dimensional section other than EDGE_WEIGHT and DEPOT: both libraries read
   * the numbered block back as the same list.
   */
  lemma ItemsReadBack(name: string, items: seq<Value>, fmt: real -> string)
    requires name != "EDGE_WEIGHT" && name != "DEPOT"
    requires forall i :: 0 <= i < |items| ==> ReadsBack(items[i], fmt)
    ensures var (lines, err) := SectionLines(name, Vector(items), fmt);
      && err.None? && |lines| == |items| + 1 && lines[0] == name + "_SECTION"
      && VrplibParseVrplib.SectionData(VrplibParseVrplib.Rows(lines[1..])) == Vector(items)
      && CvrplibParseVrplib.ArrayField(VrplibParseVrplib.DropIndex(VrplibParseVrplib.Rows(lines[1..]))) == Ok(Vector(items))
  {
    var column := seq(|items|, i requires 0 <= i < |items| => [items[i]]);
    ItemsAsColumn(name, items, column, fmt);
    if items == [] {
      CvrplibParseVrplib.ArrayFieldAgrees([]);
    } else {
      TableReadBack(name, column, fmt);
      assert seq(|column|, i requires 0 <= i < |column| => column[i][0]) == items;
    }
  }

  /** A list is written as the table of its one-value rows. */
  lemma ItemsAsColumn(name: string, items: seq<Value>, column: seq<seq<Value>>, fmt: real -> string)
    requires name != "EDGE_WEIGHT" && name != "DEPOT"
    requires |column| == |items| && forall i :: 0 <= i < |items| ==> column[i] == [items[i]]
    ensures SectionLines(name, Vector(items), fmt) == SectionLines(name, Table(column), fmt)
  {
    assert Rectangular(column);
    forall i | 0 <= i < |items| ensures ItemLine(i + 1, items[i], fmt) == RowLine(i + 1, column[i], fmt) {
      assert Shown([items[i]], fmt) == [Show(items[i], fmt)];
    }
    assert NumberedLines(Vector(items), fmt) == NumberedLines(Table(column), fmt);
  }

  /**
   * Round trip of a table section other than EDGE_WEIGHT and DEPOT: rows of two or more values
   * come back as the table, rows of one value are squeezed into a list.
   */
  lemma TableReadBack(name: string, rows: seq<seq<Value>>, fmt: real -> string)
    requires name != "EDGE_WEIGHT" && name != "DEPOT"
    requires rows != [] && Rectangular(rows) && rows[0] != []
    requires forall i, j :: 0 <= i < |rows| && 0 <= j < |rows[i]| ==> ReadsBack(rows[i][j], fmt)
    ensures var (lines, err) := SectionLines(name, Table(rows), fmt);
      var data := VrplibParseVrplib.SectionData(VrplibParseVrplib.Rows(lines[1..]));
      && err.None? && |lines| == |rows| + 1 && lines[0] == name + "_SECTION"
      && CvrplibParseVrplib.ArrayField(VrplibParseVrplib.DropIndex(VrplibParseVrplib.Rows(lines[1..]))) == Ok(data)
      && (|rows[0]| >= 2 ==> data == Table(rows))
      && (|rows[0]| == 1 ==> data == Vector(seq(|rows|, i requires 0 <= i < |rows| => rows[i][0])))
  {
    var lines := SectionLines(name, Table(rows), fmt).0;
    var r := VrplibParseVrplib.Rows(lines[1..]);
    forall i | 0 <= i < |rows| ensures |r[i]| == 1 + |rows[i]| && r[i][1..] == rows[i] {
      assert lines[1..][i] == RowLine(i + 1, rows[i], fmt);
      RowLineRead(i + 1, rows[i], fmt);
    }
    VrplibWriteInstance.IndexedData(r, rows);
    assert Rectangular(r);
    CvrplibParseVrplib.ArrayFieldAgrees(r);
  }

  /** A tab-joined row of values that each read back is read as that row. */
  lemma TabRowRead(row: seq<Value>, fmt: real -> string)
    requires row != [] && forall j :: 0 <= j < |row| ==> ReadsBack(row[j], fmt)
    ensures VrplibParseVrplib.Row(TabRow(row, fmt)) == row
  {
    var cs := Shown(row[1..], fmt);
    assert Shown(row, fmt) == [Show(row[0], fmt)] + cs;
    VrplibWriteInstance.RowOfJoin(Show(row[0], fmt), cs, row[1..]);
    assert [row[0]] + row[1..] == row;
  }

  /**
   * Round trip of an EDGE_WEIGHT table: the block has no index column, so both libraries see the
   * rows written, value for value.
   */
  lemma EdgeWeightReadBack(rows: seq<seq<Value>>, fmt: real -> string)
    requires forall i :: 0 <= i < |rows| ==> rows[i] != []
    requires forall i, j :: 0 <= i < |rows| && 0 <= j < |rows[i]| ==> ReadsBack(rows[i][j], fmt)
    ensures var (lines, err) := SectionLines("EDGE_WEIGHT", Table(rows), fmt);
      && err.None? && |lines| == |rows| + 1 && lines[0] == "EDGE_WEIGHT_SECTION"
      && VrplibParseVrplib.Rows(lines[1..]) == rows
  {
    var lines := SectionLines("EDGE_WEIGHT", Table(rows), fmt).0;
    var r := VrplibParseVrplib.Rows(lines[1..]);
    forall i | 0 <= i < |rows| ensures r[i] == rows[i] {
      assert lines[1..][i] == TabRow(rows[i], fmt);
      TabRowRead(rows[i], fmt);
    }
  }

  // ----- the small instance of the writer's test -----

  /** The six entries of the C101 mapping, in keyword order. */
  function C101Data(): seq<(string, Field)> {
    [("name", Scalar(S("C101"))), ("type", Scalar(S("VRPTW"))), ("dimension", Scalar(I(101))),
     ("capacity", Scalar(I(200))),
     ("node_coord", Table([[I(40), I(50)], [I(45), I(68)], [I(45), I(70)], [I(42), I(66)]])),
     ("demand", Vector([I(0), I(10), I(30), I(10)]))]
  }

  /** The C101 mapping is written as four specification lines, two numbered sections and "EOF". */
  lemma C101Text(fmt: real -> string)
    ensures InstanceText(C101Data(), fmt) == (Unlines(
      ["NAME : C101", "TYPE : VRPTW", "DIMENSION : 101", "CAPACITY : 200",
       "NODE_COORD_SECTION", "1\t40\t50", "2\t45\t68", "3\t45\t70", "4\t42\t66",
       "DEMAND_SECTION", "1\t0", "2\t10", "3\t30", "4\t10", "EOF"]), None)
  {
    var specs := ["NAME : C101", "TYPE : VRPTW", "DIMENSION : 101", "CAPACITY : 200"];
    var coords := ["NODE_COORD_SECTION", "1\t40\t50", "2\t45\t68", "3\t45\t70", "4\t42\t66"];
    var demands := ["DEMAND_SECTION", "1\t0", "2\t10", "3\t30", "4\t10"];
    C101Lines(C101Data(), fmt, specs, coords, demands);
    assert specs + coords + demands + ["EOF"] ==
      ["NAME : C101", "TYPE : VRPTW", "DIMENSION : 101", "CAPACITY : 200",
       "NODE_COORD_SECTION", "1\t40\t50", "2\t45\t68", "3\t45\t70", "4\t42\t66",
       "DEMAND_SECTION", "1\t0", "2\t10", "3\t30", "4\t10", "EOF"];
  }

  lemma C101Lines(data: seq<(string, Field)>, fmt: real -> string, specs: seq<string>, coords: seq<string>, demands: seq<string>)
    requires data == C101Data()
    requires specs == ["NAME : C101", "TYPE : VRPTW", "DIMENSION : 101", "CAPACITY : 200"]
    requires coords == ["NODE_COORD_SECTION", "1\t40\t50", "2\t45\t68", "3\t45\t70", "4\t42\t66"]
    requires demands == ["DEMAND_SECTION", "1\t0", "2\t10", "3\t30", "4\t10"]
    ensures InstanceText(data, fmt) == (Unlines(specs + coords + demands + ["EOF"]), None)
  {
    C101Writable(data);
    var ls := [[specs[0]], [specs[1]], [specs[2]], [specs[3]], coords, demands];
    forall j | 0 <= j < |data| ensures EntryLines(data[j].0, data[j].1, fmt).0 == ls[j] {
      if j == 0 {
        C101Name(data[0], fmt, specs[0]);
      } else if j == 1 {
        C101Type(data[1], fmt, specs[1]);
      } else if j == 2 {
        C101Dimension(data[2], fmt, specs[2]);
      } else if j == 3 {
        C101Capacity(data[3], fmt, specs[3]);
      } else if j == 4 {
        C101Coords(data[4], fmt, coords);
      } else {
        C101Demands(data[5], fmt, demands);
      }
    }
    WrittenLines(data, fmt, ls);
    FlattenSix(ls[0], ls[1], ls[2], ls[3], ls[4], ls[5]);
    FourSingles(specs);
  }

  lemma FourSingles<T>(s: seq<T>)
    requires |s| == 4
    ensures [s[0]] + [s[1]] + [s[2]] + [s[3]] == s
  {}

  /** Writable entries whose lines are ls are written as the lines of ls one after the other, then "EOF". */
  lemma WrittenLines(data: seq<(string, Field)>, fmt: real -> string, ls: seq<seq<string>>)
    requires forall j :: 0 <= j < |data| ==> Writable(Upper(data[j].0), data[j].1)
    requires |ls| == |data| && forall j :: 0 <= j < |data| ==> EntryLines(data[j].0, data[j].1, fmt).0 == ls[j]
    ensures InstanceText(data, fmt) == (Unlines(Flatten(ls) + ["EOF"]), None)
  {
    WrittenInOrder(data, |data|, fmt);
    assert seq(|data|, j requires 0 <= j < |data| => EntryLines(data[j].0, data[j].1, fmt).0) == ls;
  }

  lemma FlattenSix<T>(a: seq<T>, b: seq<T>, c: seq<T>, d: seq<T>, e: seq<T>, f: seq<T>)
    ensures Flatten([a, b, c, d, e, f]) == a + b + c + d + e + f
  {
    assert Flatten([f]) == f by { assert [f][1..] == []; }
    assert Flatten([e, f]) == e + f by { assert [e, f][1..] == [f]; }
    assert Flatten([d, e, f]) == d + e + f by { assert [d, e, f][1..] == [e, f]; }
    assert Flatten([c, d, e, f]) == c + d + e + f by { assert [c, d, e, f][1..] == [d, e, f]; }
    assert Flatten([b, c, d, e, f]) == b + c + d + e + f by { assert [b, c, d, e, f][1..] == [c, d, e, f]; }
    assert [a, b, c, d, e, f][1..] == [b, c, d, e, f];
  }

  lemma C101Writable(data: seq<(string, Field)>)
    requires data == C101Data()
    ensures forall j :: 0 <= j < |data| ==> Writable(Upper(data[j].0), data[j].1)
  {
    assert Upper("node_coord") == "NODE_COORD";
    assert Upper("demand") == "DEMAND";
    assert Rectangular(data[4].1.rows);
  }

  lemma ScalarEntry(key: string, v: Value, fmt: real -> string, k: string, t: string, line: string)
    requires Upper(key) == k && Show(v, fmt) == t && line == k + " : " + t
    ensures EntryLines(key, Scalar(v), fmt).0 == [line]
  {}

  lemma C101Name(e: (string, Field), fmt: real -> string, line: string)
    requires e == ("name", Scalar(S("C101"))) && line == "NAME : C101"
    ensures EntryLines(e.0, e.1, fmt).0 == [line]
  {
    ScalarEntry(e.0, e.1.v, fmt, "NAME", "C101", line);
  }

  lemma C101Type(e: (string, Field), fmt: real -> string, line: string)
    requires e == ("type", Scalar(S("VRPTW"))) && line == "TYPE : VRPTW"
    ensures EntryLines(e.0, e.1, fmt).0 == [line]
  {
    ScalarEntry(e.0, e.1.v, fmt, "TYPE", "VRPTW", line);
  }

  lemma C101Dimension(e: (string, Field), fmt: real -> string, line: string)
    requires e == ("dimension", Scalar(I(101))) && line == "DIMENSION : 101"
    ensures EntryLines(e.0, e.1, fmt).0 == [line]
  {
    ScalarEntry(e.0, e.1.v, fmt, "DIMENSION", "101", line);
  }

  lemma C101Capacity(e: (string, Field), fmt: real -> string, line: string)
    requires e == ("capacity", Scalar(I(200))) && line == "CAPACITY : 200"
    ensures EntryLines(e.0, e.1, fmt).0 == [line]
  {
    ScalarEntry(e.0, e.1.v, fmt, "CAPACITY", "200", line);
  }

  lemma C101Coords(e: (string, Field), fmt: real -> string, lines: seq<string>)
    requires e == ("node_coord", Table([[I(40), I(50)], [I(45), I(68)], [I(45), I(70)], [I(42), I(66)]]))
    requires lines == ["NODE_COORD_SECTION", "1\t40\t50", "2\t45\t68", "3\t45\t70", "4\t42\t66"]
    ensures EntryLines(e.0, e.1, fmt).0 == lines
  {
    var rows, body := e.1.rows, lines[1..];
    forall i | 0 <= i < 4 ensures RowLine(i + 1, rows[i], fmt) == body[i] {
      if i == 0 {
        C101CoordLine1(fmt);
      } else if i == 1 {
        C101CoordLine2(fmt);
      } else if i == 2 {
        C101CoordLine3(fmt);
      } else {
        C101CoordLine4(fmt);
      }
    }
    TableLines(rows, fmt, body);
    C101CoordShape(e);
    IndexedEntry(e.0, "NODE_COORD", e.1, fmt, "NODE_COORD_SECTION", body);
  }

  lemma C101CoordShape(e: (string, Field))
    requires e == ("node_coord", Table([[I(40), I(50)], [I(45), I(68)], [I(45), I(70)], [I(42), I(66)]]))
    ensures Upper(e.0) == "NODE_COORD" && "NODE_COORD" + "_SECTION" == "NODE_COORD_SECTION"
    ensures e.1.Table? && Rectangular(e.1.rows)
  {
    assert |e.1.rows[0]| == 2;
  }

  lemma C101CoordLine1(fmt: real -> string)
    ensures RowLine(1, [I(40), I(50)], fmt) == "1\t40\t50"
  {
    PairRowLine(1, 40, 50, fmt, "1", "40", "50", "1\t40\t50");
  }

  lemma C101CoordLine2(fmt: real -> string)
    ensures RowLine(2, [I(45), I(68)], fmt) == "2\t45\t68"
  {
    PairRowLine(2, 45, 68, fmt, "2", "45", "68", "2\t45\t68");
  }

  lemma C101CoordLine3(fmt: real -> string)
    ensures RowLine(3, [I(45), I(70)], fmt) == "3\t45\t70"
  {
    PairRowLine(3, 45, 70, fmt, "3", "45", "70", "3\t45\t70");
  }

  lemma C101CoordLine4(fmt: real -> string)
    ensures RowLine(4, [I(42), I(66)], fmt) == "4\t42\t66"
  {
    PairRowLine(4, 42, 66, fmt, "4", "42", "66", "4\t42\t66");
  }

  /** A table whose numbered rows are the lines of body is written as body. */
  lemma TableLines(rows: seq<seq<Value>>, fmt: real -> string, body: seq<string>)
    requires |rows| == |body| && forall i :: 0 <= i < |rows| ==> RowLine(i + 1, rows[i], fmt) == body[i]
    ensures NumberedLines(Table(rows), fmt) == body
  {}

  /** A list whose numbered items are the lines of body is written as body. */
  lemma ItemLines(items: seq<Value>, fmt: real -> string, body: seq<string>)
    requires |items| == |body| && forall i :: 0 <= i < |items| ==> ItemLine(i + 1, items[i], fmt) == body[i]
    ensures NumberedLines(Vector(items), fmt) == body
  {}

  /** A numbered section's entry: its header, then its numbered rows. */
  lemma IndexedEntry(key: string, name: string, f: Field, fmt: real -> string, header: string, body: seq<string>)
    requires Upper(key) == name && name != "EDGE_WEIGHT" && name != "DEPOT" && header == name + "_SECTION"
    requires f.Vector? || (f.Table? && Rectangular(f.rows))
    requires NumberedLines(f, fmt) == body
    ensures EntryLines(key, f, fmt).0 == [header] + body
  {}

  lemma PairRowLine(idx: nat, a: int, b: int, fmt: real -> string, si: string, sa: string, sb: string, line: string)
    requires NatToString(idx) == si && IntToString(a) == sa && IntToString(b) == sb
    requires line == si + "\t" + sa + "\t" + sb
    ensures RowLine(idx, [I(a), I(b)], fmt) == line
  {
    assert Shown([I(a), I(b)], fmt) == [sa, sb];
    assert [sa, sb][1..] == [sb];
    assert Join("\t", [sb]) == sb;
  }

  lemma C101Demands(e: (string, Field), fmt: real -> string, lines: seq<string>)
    requires e == ("demand", Vector([I(0), I(10), I(30), I(10)]))
    requires lines == ["DEMAND_SECTION", "1\t0", "2\t10", "3\t30", "4\t10"]
    ensures EntryLines(e.0, e.1, fmt).0 == lines
  {
    var items, body := e.1.items, lines[1..];
    forall i | 0 <= i < 4 ensures ItemLine(i + 1, items[i], fmt) == body[i] {
      if i == 0 {
        C101DemandLine1(fmt);
      } else if i == 1 {
        C101DemandLine2(fmt);
      } else if i == 2 {
        C101DemandLine3(fmt);
      } else {
        C101DemandLine4(fmt);
      }
    }
    ItemLines(items, fmt, body);
    C101DemandName(e.0);
    IndexedEntry(e.0, "DEMAND", e.1, fmt, "DEMAND_SECTION", body);
  }

  lemma C101DemandName(key: string)
    requires key == "demand"
    ensures Upper(key) == "DEMAND" && "DEMAND" + "_SECTION" == "DEMAND_SECTION"
  {}

  lemma C101DemandLine1(fmt: real -> string)
    ensures ItemLine(1, I(0), fmt) == "1\t0"
  {
    OneItemLine(1, 0, fmt, "1", "0", "1\t0");
  }

  lemma C101DemandLine2(fmt: real -> string)
    ensures ItemLine(2, I(10), fmt) == "2\t10"
  {
    OneItemLine(2, 10, fmt, "2", "10", "2\t10");
  }

  lemma C101DemandLine3(fmt: real -> string)
    ensures ItemLine(3, I(30), fmt) == "3\t30"
  {
    OneItemLine(3, 30, fmt, "3", "30", "3\t30");
  }

  lemma C101DemandLine4(fmt: real -> string)
    ensures ItemLine(4, I(10), fmt) == "4\t10"
  {
    OneItemLine(4, 10, fmt, "4", "10", "4\t10");
  }

  lemma OneItemLine(idx: nat, a: int, fmt: real -> string, si: string, sa: string, line: string)
    requires NatToString(idx) == si && IntToString(a) == sa && line == si + "\t" + sa
    ensures ItemLine(idx, I(a), fmt) == line
  {}
}
