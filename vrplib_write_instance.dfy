/**
 * The instance writer of the current library (vrplib/write/write_instance.py): one "key: value"
 * line per single value, one section block per list or array, in the order of the mapping, and
 * a final "EOF" line. The file text is returned instead of written; when numpy refuses a ragged
 * table the text written before it is returned with the error.
 */
module VrplibWriteInstance {
  import opened Wrappers
  import opened Text
  import opened Tokens
  import opened Instances
  import opened Stores
  import opened VrplibParseDistances
  import opened VrplibParseVrplib

  /** The element type numpy gives the array of a section. */
  datatype Dtype = IntArray | FloatArray | StrArray

  /** Some cell of the table is a string. */
  predicate AnyString(rows: seq<seq<Value>>) {
    exists i, j :: 0 <= i < |rows| && 0 <= j < |rows[i]| && rows[i][j].S?
  }

  predicate AnyInt(rows: seq<seq<Value>>) {
    exists i, j :: 0 <= i < |rows| && 0 <= j < |rows[i]| && rows[i][j].I?
  }

  predicate AnyFloat(rows: seq<seq<Value>>) {
    exists i, j :: 0 <= i < |rows| && 0 <= j < |rows[i]| && rows[i][j].F?
  }

  /**
   * `np.asarray(data).dtype`: strings make a string array, integers alone an integer array, and
   * anything else (some float, or no value at all) a float array.
   */
  function ArrayDtype(rows: seq<seq<Value>>): (d: Dtype)
    ensures d == StrArray <==> AnyString(rows)
    ensures d == IntArray <==> !AnyString(rows) && AnyInt(rows) && !AnyFloat(rows)
    ensures d == FloatArray ==> forall i, j :: 0 <= i < |rows| && 0 <= j < |rows[i]| ==> Numeric(rows[i][j])
  {
    if AnyString(rows) then StrArray
    else if AnyInt(rows) && !AnyFloat(rows) then IntArray
    else FloatArray
  }

  /** `str(elt)` for a cell of an array of type d: a float array prints every number as a float. */
  function CellText(v: Value, d: Dtype, fmt: real -> string): string
    requires d == FloatArray ==> Numeric(v)
  {
    if d == FloatArray then fmt(Real(v)) else Show(v, fmt)
  }

  /** `str(elt)` for the index k stacked onto an array of type d. */
  function IndexText(k: nat, d: Dtype, fmt: real -> string): string {
    if d == FloatArray then fmt(k as real) else NatToString(k)
  }

  /** Every section except these two gets an index column. */
  predicate HasIndex(name: string) {
    name != "EDGE_WEIGHT_SECTION" && name != "DEPOT_SECTION"
  }

  /** The printed cells of a row of an array of type d. */
  function CellTexts(row: seq<Value>, d: Dtype, fmt: real -> string): (r: seq<string>)
    requires d == FloatArray ==> forall j :: 0 <= j < |row| ==> Numeric(row[j])
    ensures |r| == |row| && forall j :: 0 <= j < |row| ==> r[j] == CellText(row[j], d, fmt)
  {
    seq(|row|, j requires 0 <= j < |row| => CellText(row[j], d, fmt))
  }

  /** The printed cells of row i: its index first when the section has an index column. */
  function RowTexts(name: string, i: nat, row: seq<Value>, d: Dtype, fmt: real -> string): (r: seq<string>)
    requires d == FloatArray ==> forall j :: 0 <= j < |row| ==> Numeric(row[j])
    ensures HasIndex(name) ==> r == [IndexText(i + 1, d, fmt)] + CellTexts(row, d, fmt)
    ensures !HasIndex(name) ==> r == CellTexts(row, d, fmt)
  {
    if HasIndex(name) then [IndexText(i + 1, d, fmt)] + CellTexts(row, d, fmt) else CellTexts(row, d, fmt)
  }

  /** `np.expand_dims(array, axis=1)`: a one-dimensional array as a single column. */
  function Column(items: seq<Value>): (rows: seq<seq<Value>>)
    ensures |rows| == |items| && forall i :: 0 <= i < |items| ==> rows[i] == [items[i]]
  {
    seq(|items|, i requires 0 <= i < |items| => [items[i]])
  }

  /** _format2section as lines (the block is these joined by "\n"): the name, then each row's cells joined by tabs. */
  function SectionLines(name: string, rows: seq<seq<Value>>, fmt: real -> string): (r: seq<string>)
    ensures |r| == 1 + |rows| && r[0] == name
  {
    var d := ArrayDtype(rows);
    [name] + seq(|rows|, i requires 0 <= i < |rows| => Join("\t", RowTexts(name, i, rows[i], d, fmt)))
  }

  /** The lines one entry of the mapping is written as; numpy refuses a ragged table. */
  function EntryLines(key: string, f: Field, fmt: real -> string): Result<seq<string>> {
    match f
    case Scalar(v) => Ok([key + ": " + Show(v, fmt)])
    case Vector(items) => Ok(SectionLines(key, Column(items), fmt))
    case Table(rows) => if Rectangular(rows) then Ok(SectionLines(key, rows, fmt)) else Err(ValueError(Inhomogeneous))
  }

  /**
   * The lines written for the first n entries, and the error that stopped the loop if one did:
   * once an entry fails nothing more is written.
   */
  function Written(data: seq<(string, Field)>, n: nat, fmt: real -> string): (seq<string>, Option<Error>)
    requires n <= |data|
  {
    Emitted(data, n, fmt, EntryOf)
  }

  /** The loop's entry function. */
  function EntryOf(fmt: real -> string, e: (string, Field)): Result<seq<string>> {
    EntryLines(e.0, e.1, fmt)
  }

  /** The file text write_instance leaves, and the error it raised if it did. */
  function InstanceText(data: seq<(string, Field)>, fmt: real -> string): (string, Option<Error>) {
    var w := Written(data, |data|, fmt);
    if w.1.None? then (Unlines(w.0 + ["EOF"]), None) else (Unlines(w.0), w.1)
  }

  /** write_instance: each entry in order, each line followed by "\n", then "EOF". */
  method WriteInstance(data: seq<(string, Field)>, fmt: real -> string) returns (text: string, err: Option<Error>)
    ensures (text, err) == InstanceText(data, fmt)
  {
    text := "";
    for j := 0 to |data|
      invariant Written(data, j, fmt).1.None?
      invariant text == Unlines(Written(data, j, fmt).0)
    {
      var failed;
      text, failed := AppendEntry(data, j, text, fmt);
      if failed.Some? {
        return text, failed;
      }
    }
    EofAppended(data, text, fmt);
    text := text + "EOF\n";
    err := None;
  }

  /** The body of write_instance's loop: entry j is appended to the text, or its error ends the file. */
  method AppendEntry(data: seq<(string, Field)>, j: nat, text: string, fmt: real -> string) returns (text': string, failed: Option<Error>)
    requires j < |data| && Written(data, j, fmt).1.None? && text == Unlines(Written(data, j, fmt).0)
    ensures failed.Some? ==> (text', failed) == InstanceText(data, fmt)
    ensures failed.None? ==> Written(data, j + 1, fmt).1.None? && text' == Unlines(Written(data, j + 1, fmt).0)
  {
    var key := data[j].0;
    var entry := WriteEntry(key, data[j].1, fmt);
    WrittenStep(data, j, fmt);
    if entry.Err? {
      EmittedErrorStays(data, j + 1, |data|, fmt, EntryOf);
      return text, Some(entry.error);
    }
    UnlinesConcat(Written(data, j, fmt).0, EntryLines(key, data[j].1, fmt).value);
    text' := text + entry.value;
    failed := None;
  }

  /** After the last entry, the line "EOF" completes the file. */
  lemma EofAppended(data: seq<(string, Field)>, text: string, fmt: real -> string)
    requires Written(data, |data|, fmt).1.None? && text == Unlines(Written(data, |data|, fmt).0)
    ensures (text + "EOF\n", None) == InstanceText(data, fmt)
  {
    UnlinesAppend(Written(data, |data|, fmt).0, "EOF");
    assert text + "EOF\n" == text + "EOF" + "\n";
  }

  /** One more entry: its lines are appended, or its error stops the output. */
  lemma WrittenStep(data: seq<(string, Field)>, j: nat, fmt: real -> string)
    requires j < |data| && Written(data, j, fmt).1.None?
    ensures var e := EntryLines(data[j].0, data[j].1, fmt);
      Written(data, j + 1, fmt) == if e.Ok? then (Written(data, j, fmt).0 + e.value, None) else (Written(data, j, fmt).0, Some(e.error))
  {
  }

  /** The text of one entry: `f"{key}: {value}\n"` or `_format2section(key, value) + "\n"`. */
  method WriteEntry(key: string, f: Field, fmt: real -> string) returns (r: Result<string>)
    ensures r.Err? <==> EntryLines(key, f, fmt).Err?
    ensures r.Err? ==> r.error == EntryLines(key, f, fmt).error
    ensures r.Ok? ==> r.value == Unlines(EntryLines(key, f, fmt).value)
  {
    match f
    case Scalar(v) =>
      r := Ok(key + ": " + Show(v, fmt) + "\n");
      assert Unlines([key + ": " + Show(v, fmt)]) == key + ": " + Show(v, fmt) + "\n";
    case Vector(items) =>
      JoinLinesUnlines(SectionLines(key, Column(items), fmt));
      r := Ok(Join("\n", SectionLines(key, Column(items), fmt)) + "\n");
    case Table(rows) =>
      if !Rectangular(rows) {
        return Err(ValueError(Inhomogeneous));
      }
      JoinLinesUnlines(SectionLines(key, rows, fmt));
      r := Ok(Join("\n", SectionLines(key, rows, fmt)) + "\n");
  }

  // ----- what the writer promises -----

  /** A table numpy cannot make an array of: rows of different lengths. */
  predicate Ragged(f: Field) {
    f.Table? && !Rectangular(f.rows)
  }

  /** write_instance fails exactly when some entry is a ragged table, and then with numpy's ValueError. */
  lemma InstanceTextError(data: seq<(string, Field)>, fmt: real -> string)
    ensures InstanceText(data, fmt).1.None? <==> forall j :: 0 <= j < |data| ==> !Ragged(data[j].1)
    ensures InstanceText(data, fmt).1.Some? ==> InstanceText(data, fmt).1 == Some(ValueError(Inhomogeneous))
  {
    EmittedOk(data, |data|, fmt, EntryOf);
    forall j | 0 <= j < |data| ensures EntryOf(fmt, data[j]).Ok? <==> !Ragged(data[j].1) {
    }
    forall j | 0 <= j < |data| && EntryOf(fmt, data[j]).Err? ensures EntryOf(fmt, data[j]).error == ValueError(Inhomogeneous) {
    }
  }

  /** A complete file ends with the line "EOF". */
  lemma InstanceEndsWithEof(data: seq<(string, Field)>, fmt: real -> string)
    requires InstanceText(data, fmt).1.None?
    ensures EndsWith(InstanceText(data, fmt).0, "EOF\n")
  {
    var ls := Written(data, |data|, fmt).0;
    UnlinesAppend(ls, "EOF");
    var t := Unlines(ls) + "EOF" + "\n";
    assert t[|t| - 4..] == "EOF\n";
  }

  /** Entries are written in the order of the mapping: a + b gives a's lines, then b's file. */
  lemma InstanceTextConcat(a: seq<(string, Field)>, b: seq<(string, Field)>, fmt: real -> string)
    requires forall j :: 0 <= j < |a| ==> !Ragged(a[j].1)
    ensures InstanceText(a + b, fmt) == (Unlines(Written(a, |a|, fmt).0) + InstanceText(b, fmt).0, InstanceText(b, fmt).1)
  {
    InstanceTextError(a, fmt);
    EmittedConcat(a, b, fmt, EntryOf);
    var wa := Written(a, |a|, fmt).0;
    var wb := Written(b, |b|, fmt).0;
    if Written(b, |b|, fmt).1.None? {
      assert (wa + wb) + ["EOF"] == wa + (wb + ["EOF"]);
      UnlinesConcat(wa, wb + ["EOF"]);
    } else {
      UnlinesConcat(wa, wb);
    }
  }

  /** A single value is the one line "key: value", with the key as given. */
  lemma ScalarText(key: string, v: Value, fmt: real -> string)
    ensures InstanceText([(key, Scalar(v))], fmt) == (key + ": " + Show(v, fmt) + "\nEOF\n", None)
  {
    var line := key + ": " + Show(v, fmt);
    var data := [(key, Scalar(v))];
    assert EntryOf(fmt, data[0]) == Ok([line]);
    assert Written(data, 0, fmt) == ([], None);
    assert [] + [line] == [line];
    assert Written(data, 1, fmt) == ([line], None);
    assert [line] + ["EOF"] == [line, "EOF"];
    assert [line, "EOF"][1..] == ["EOF"];
    assert ["EOF"][1..] == [];
    assert Unlines([line, "EOF"]) == line + "\n" + "EOF" + "\n";
    assert line + "\n" + "EOF" + "\n" == line + "\nEOF\n";
    assert InstanceText(data, fmt).0 == Unlines([line, "EOF"]);
  }

  /** Printed text split() takes as one token. */
  predicate Word(t: string) {
    t != [] && NoSpace(t)
  }

  /** Every printed cell of the array, and every index stacked onto it, is one token. */
  predicate PrintsAsWords(rows: seq<seq<Value>>, fmt: real -> string) {
    var d := ArrayDtype(rows);
    && (forall i, j :: 0 <= i < |rows| && 0 <= j < |rows[i]| ==> Word(CellText(rows[i][j], d, fmt)))
    && (d == FloatArray ==> forall k :: 1 <= k <= |rows| ==> Word(IndexText(k, d, fmt)))
  }

  /**
   * Row i of a block is the line of its printed cells, tab-separated: the index i + 1 first unless
   * the section is EDGE_WEIGHT_SECTION or DEPOT_SECTION.
   */
  lemma SectionRowWords(name: string, rows: seq<seq<Value>>, fmt: real -> string, i: nat)
    requires i < |rows| && PrintsAsWords(rows, fmt)
    ensures var ws := Words(SectionLines(name, rows, fmt)[i + 1]);
      && ws == RowTexts(name, i, rows[i], ArrayDtype(rows), fmt)
      && (HasIndex(name) ==> |ws| == 1 + |rows[i]| && ws[0] == IndexText(i + 1, ArrayDtype(rows), fmt))
      && (!HasIndex(name) ==> |ws| == |rows[i]|)
  {
    var d := ArrayDtype(rows);
    var ts := RowTexts(name, i, rows[i], d, fmt);
    assert SectionLines(name, rows, fmt)[i + 1] == Join("\t", ts);
    IndexWord(i + 1, d, fmt, |rows|);
    assert AreWords(ts);
    WordsOfJoin('\t', ts);
  }

  lemma IndexWord(k: nat, d: Dtype, fmt: real -> string, n: nat)
    requires 1 <= k <= n
    requires d == FloatArray ==> forall k' :: 1 <= k' <= n ==> Word(IndexText(k', d, fmt))
    ensures Word(IndexText(k, d, fmt))
  {
    if d != FloatArray {
      AllDigitsNoSpace(NatToString(k));
    }
  }

  // ----- reading the written text back -----

  /** A single-value line reads back, through parse_specification, as the stripped lower-cased key and the value. */
  lemma SpecLineReadBack(key: string, v: Value, fmt: real -> string)
    requires ':' !in key && ReadsBack(v, fmt)
    ensures ParseSpecification(key + ": " + Show(v, fmt)) == Ok((Lower(Strip(key)), v))
  {
    var t := Show(v, fmt);
    assert key + ": " + t == key + ":" + ([' '] + t);
    ParseSpecificationSplit(key, [' '] + t);
    StripLeadingSpace(' ', t);
    StripStripped(t);
  }

  /** The cells of the array print as themselves, and read back as themselves. */
  predicate ReadsBackAsArray(rows: seq<seq<Value>>, fmt: real -> string) {
    && (ArrayDtype(rows) == FloatArray ==> !AnyInt(rows))
    && (forall i, j :: 0 <= i < |rows| && 0 <= j < |rows[i]| ==> ReadsBack(rows[i][j], fmt))
    && (ArrayDtype(rows) == FloatArray ==> forall k :: 1 <= k <= |rows| ==> Word(IndexText(k, FloatArray, fmt)))
  }

  lemma CellsShown(rows: seq<seq<Value>>, fmt: real -> string)
    requires ReadsBackAsArray(rows, fmt)
    ensures forall i, j :: 0 <= i < |rows| && 0 <= j < |rows[i]| ==> CellText(rows[i][j], ArrayDtype(rows), fmt) == Show(rows[i][j], fmt)
    ensures PrintsAsWords(rows, fmt)
  {
    var d := ArrayDtype(rows);
    forall i, j | 0 <= i < |rows| && 0 <= j < |rows[i]| ensures CellText(rows[i][j], d, fmt) == Show(rows[i][j], fmt) {
      if d == FloatArray {
        assert rows[i][j].F?;
      }
    }
  }

  /** Row i of a block with an index column reads back as the index followed by the row. */
  lemma RowReadBack(name: string, rows: seq<seq<Value>>, fmt: real -> string, i: nat)
    requires HasIndex(name) && i < |rows| && ReadsBackAsArray(rows, fmt)
    ensures Row(SectionLines(name, rows, fmt)[i + 1]) == [InferType(IndexText(i + 1, ArrayDtype(rows), fmt))] + rows[i]
  {
    var d := ArrayDtype(rows);
    var ts := RowTexts(name, i, rows[i], d, fmt);
    assert SectionLines(name, rows, fmt)[i + 1] == Join("\t", ts);
    CellsShown(rows, fmt);
    IndexWord(i + 1, d, fmt, |rows|);
    var cs := CellTexts(rows[i], d, fmt);
    forall j | 0 <= j < |cs| ensures Word(cs[j]) && InferType(cs[j]) == rows[i][j] {
      assert ReadsBack(rows[i][j], fmt);
    }
    RowOfJoin(IndexText(i + 1, d, fmt), cs, rows[i]);
  }

  /** A tab-joined line of tokens h, cs whose cs read back as vs is read as h's value, then vs. */
  lemma RowOfJoin(h: string, cs: seq<string>, vs: seq<Value>)
    requires |cs| == |vs| && Word(h)
    requires forall j :: 0 <= j < |cs| ==> Word(cs[j]) && InferType(cs[j]) == vs[j]
    ensures Row(Join("\t", [h] + cs)) == [InferType(h)] + vs
  {
    var ts := [h] + cs;
    TabWords(h, cs);
    forall j | 0 <= j < |vs| ensures InferType(ts[j + 1]) == vs[j] {
      assert ts[j + 1] == cs[j];
    }
    RowOfWords(Join("\t", ts), ts, h, vs);
  }

  lemma TabWords(h: string, cs: seq<string>)
    requires Word(h) && forall j :: 0 <= j < |cs| ==> Word(cs[j])
    ensures Words(Join("\t", [h] + cs)) == [h] + cs
  {
    var ts := [h] + cs;
    assert AreWords(ts) by {
      forall k | 0 <= k < |ts| ensures ts[k] != [] && NoSpace(ts[k]) {
        if k > 0 {
          assert ts[k] == cs[k - 1];
        }
      }
    }
    WordsOfJoin('\t', ts);
  }

  lemma RowOfWords(line: string, ts: seq<string>, h: string, vs: seq<Value>)
    requires Words(line) == ts && |ts| == |vs| + 1 && ts[0] == h
    requires forall j :: 0 <= j < |vs| ==> InferType(ts[j + 1]) == vs[j]
    ensures Row(line) == [InferType(h)] + vs
  {
    var r := Row(line);
    var want := [InferType(h)] + vs;
    assert |r| == |want|;
    forall j | 0 <= j < |r| ensures r[j] == want[j] {
      assert r[j] == InferType(ts[j]);
      if j > 0 {
        var k := j - 1;
        assert ts[j] == ts[k + 1];
        assert want[j] == vs[k];
      }
    }
  }

  lemma ReadRows(name: string, rows: seq<seq<Value>>, fmt: real -> string)
    requires HasIndex(name) && ReadsBackAsArray(rows, fmt)
    ensures var r := Rows(SectionLines(name, rows, fmt)[1..]);
      |r| == |rows| && forall i :: 0 <= i < |rows| ==> r[i] == [InferType(IndexText(i + 1, ArrayDtype(rows), fmt))] + rows[i]
    ensures var r := Rows(SectionLines(name, rows, fmt)[1..]);
      forall i :: 0 <= i < |rows| ==> |r[i]| == 1 + |rows[i]| && r[i][1..] == rows[i]
  {
    var lines := SectionLines(name, rows, fmt);
    forall i | 0 <= i < |rows| ensures Rows(lines[1..])[i] == [InferType(IndexText(i + 1, ArrayDtype(rows), fmt))] + rows[i] {
      assert lines[1..][i] == lines[i + 1];
      RowReadBack(name, rows, fmt, i);
    }
  }

  /** Round trip: a list or one-dimensional array written as a block is read back by parse_section unchanged. */
  lemma VectorReadBack(name: string, items: seq<Value>, inst: Instance, sqrt: real -> real, fmt: real -> string)
    requires HasIndex(name) && SectionName(name) != "edge_weight" && SectionName(name) != "depot"
    requires ReadsBackAsArray(Column(items), fmt)
    ensures ParseSection(SectionLines(name, Column(items), fmt), inst, sqrt) == Ok((SectionName(name), Vector(items)))
  {
    var lines := SectionLines(name, Column(items), fmt);
    ReadRows(name, Column(items), fmt);
    IndexedData(Rows(lines[1..]), Column(items));
    ColumnItems(items);
    DataSection(lines, inst, sqrt);
  }

  /**
   * Round trip: a table of equal rows written as a block is read back by parse_section unchanged,
   * unless it has exactly one column, which is read back squeezed to a list.
   */
  lemma TableReadBack(name: string, rows: seq<seq<Value>>, inst: Instance, sqrt: real -> real, fmt: real -> string)
    requires HasIndex(name) && SectionName(name) != "edge_weight" && SectionName(name) != "depot"
    requires rows != [] && Rectangular(rows) && ReadsBackAsArray(rows, fmt)
    ensures |rows[0]| != 1 ==> ParseSection(SectionLines(name, rows, fmt), inst, sqrt) == Ok((SectionName(name), Table(rows)))
    ensures |rows[0]| == 1 ==> ParseSection(SectionLines(name, rows, fmt), inst, sqrt) == Ok((SectionName(name), Vector(seq(|rows|, i requires 0 <= i < |rows| => rows[i][0]))))
  {
    var lines := SectionLines(name, rows, fmt);
    ReadRows(name, rows, fmt);
    IndexedData(Rows(lines[1..]), rows);
    DataSection(lines, inst, sqrt);
  }

  lemma ColumnItems(items: seq<Value>)
    ensures Rectangular(Column(items))
    ensures items != [] ==> |Column(items)[0]| == 1
    ensures seq(|items|, i requires 0 <= i < |items| => Column(items)[i][0]) == items
  {
  }

  /** Rows each made of one more value followed by the rows of a table give back that table. */
  lemma IndexedData(r: seq<seq<Value>>, rows: seq<seq<Value>>)
    requires |r| == |rows| && forall i :: 0 <= i < |rows| ==> |r[i]| == 1 + |rows[i]| && r[i][1..] == rows[i]
    requires Rectangular(rows)
    ensures rows == [] ==> SectionData(r) == Vector([])
    ensures rows != [] && |rows[0]| != 1 ==> SectionData(r) == Table(rows)
    ensures rows != [] && |rows[0]| == 1 ==> SectionData(r) == Vector(seq(|rows|, i requires 0 <= i < |rows| => rows[i][0]))
  {
    if rows != [] {
      assert Rectangular(r);
      if |rows[0]| == 1 {
        forall i | 0 <= i < |rows| ensures r[i][1] == rows[i][0] {
          assert r[i][1..][0] == r[i][1];
        }
      } else {
        assert DropIndex(r) == rows;
      }
    }
  }
}
