# VRPLIB and CVRPLIB text formats in Dafny

This project models the text-format core of the `vrplib` Python package and of its predecessor
`cvrplib`. The core reads vehicle routing instances and solutions from text and writes them back.
The instance format follows TSPLIB 95 (G. Reinelt). Section 1.1 of TSPLIB 95 covers the
specification part: single `KEY : VALUE` lines. Section 1.2 covers the data part: `NAME_SECTION`
blocks of rows, ended by `EOF`. Section 2 defines the distance types that are reconstructed here:
`EUC_2D`, `FLOOR_2D`, `EXACT_2D` and `EXPLICIT` with `LOWER_ROW` or `FULL_MATRIX`.

What is modelled:

- **The current parser (`vrplib/parse`).** This covers line cleaning and token typing (`text2lines`,
  `infer_type`) and the grouper that splits the lines into specifications and section blocks. The
  grouper enforces that specifications come before sections and rejects stray lines. The grouper and
  the parser built on it are modelled as intended, with each block starting at its header's own line.
  The code as written looks the header up with `lines.index`, which finds its first copy. Both
  versions are modelled, and they are proved to agree on every file in which no header line repeats
  before `EOF` (see "## Findings"). Also modelled:
  the section parser and its depot rule (drop every `-1`, shift to zero-based); the distance
  reconstruction, including the Eilon flattened path and `is_triangular_number`; the permissive
  solution parser; and the Solomon preamble check and column extraction.
- **The writers (`vrplib/write`, `cvrplib/write`).** Each writer is a method that builds the file text
  line by line. It is proved equal to a function of its input. Round-trip lemmas show that the parsers
  read the written lines back as the data written.
- **The earlier parsers (`cvrplib/parse`, `cvrplib/read/parse_vrplib.py`).** They follow their own
  rules, and the two differ from each other.
  - `cvrplib/parse/parse_vrplib.py` makes a single pass that stops at the first line containing `EOF`. It takes
    specifications wherever they appear. It files rows under the last header, and it drops the depot
    section's last row.
  - `cvrplib/read/parse_vrplib.py` makes three passes over the lines: the specifications of every
    line, the sections up to the first line containing `EOF`, then the distances. It keeps the depot section's
    last row as read and makes only the rows before it zero-based.
  - Both choose the triangular or flattened lower-row form by the row count. Lemmas relate their
    scans to the current parser where they agree, and state where they differ.
- **The benchmark set classifier (`vrplib/download/download_utils.py`).** Names are mapped to sets by
  prefix.

Values are `I(int) | F(real) | S(string)`. An instance is a map from keys to a
`Scalar`, a `Vector` or a `Table` of values. Writer inputs are sequences of key/value pairs, in a
Python dictionary's insertion order. Errors are a `Result` whose error names the Python exception
the code raises: `ValueError`, `RuntimeError`, `TypeError`, `IndexError`, `KeyError` or
`AttributeError`. Loops in the source are `method`s with loop invariants, each proved equal to a
specification function. The properties are proved about those functions as lemmas.

The modules follow the source files. `cvrplib_read_parse_vrplib.dfy` models
`cvrplib/read/parse_vrplib.py`, and `vrplib_group.dfy` models the grouper of
`vrplib/parse/parse_vrplib.py`. The shared modules are:

- `text.dfy`: Python string methods on ASCII.
- `tokens.dfy`: `int()`, `float()` and `infer_type`.
- `lists.dfy`, `stores.dfy`: comprehensions and folds over dictionaries.
- `lower_triangle.dfy`: lower-row index arithmetic.
- `geometry.dfy`: squared distances and rounding.
- `instances.dfy`, `wrappers.dfy`: the data model.

## Model

| member | source | states |
|---|---|---|
| VrplibParseUtils.CleanLines | vrplib/parse/parse_utils.py:6-10 | every kept line is stripped, non-empty and not a comment; never more lines than the input |
| VrplibParseUtils.Text2Lines | vrplib/parse/parse_utils.py:1-10 | every returned line is stripped, non-empty, without a `#` at its start and without a line break; never more lines than `splitlines` gives |
| VrplibParseUtils.Text2LinesSelects | vrplib/parse/parse_utils.py:6-10 | the result is exactly the stripped forms of the kept physical lines, in their original order: a strictly increasing choice of indices, and every line whose stripped form is kept is chosen |
| VrplibParseUtils.Text2LinesIdempotent | vrplib/parse/parse_utils.py:6-10 | cleaning the newline-joined result again gives the same lines |
| VrplibParseUtils.Text2LinesOfUnlines | vrplib/parse/parse_utils.py:6-10 | clean lines written one per line are read back unchanged |
| VrplibParseUtils.Text2LinesEmpty | tests/parse/test_parse_utils.py:7-9 | the empty text has no lines |
| VrplibParseUtils.Text2LinesNewline | tests/parse/test_parse_utils.py:7-9 | a lone newline has no lines |
| VrplibParseUtils.Text2LinesIndentedComment | tests/parse/test_parse_utils.py:19-21 | a comment after leading whitespace is dropped, because lines are stripped before the comment test |
| VrplibParseUtils.Text2LinesTrailingComment | tests/parse/test_parse_utils.py:17 | `"123\n#comment"` gives only `["123"]` |
| VrplibParseUtils.KeptThenDropped | vrplib/parse/parse_utils.py:6-10 | a kept line followed by a dropped line leaves only the first line, stripped |
| VrplibParseUtils.CleanLinesCons | vrplib/parse/parse_utils.py:6-10 | the filter works line by line: the first line contributes its stripped form exactly when that is kept |
| Tokens.ParseInt | vrplib/parse/parse_utils.py:15 | `int(s)` succeeds exactly when the stripped text is an optional sign followed by decimal digits |
| Tokens.ParseFloat | vrplib/parse/parse_utils.py:18 | `float(s)` succeeds exactly when the stripped text is a signed decimal literal with at least one digit |
| Tokens.InferType | vrplib/parse/parse_utils.py:13-20 | an int exactly when `int(s)` succeeds (with that value); otherwise a float exactly when `float(s)` succeeds (with that value); otherwise the string itself, unchanged |
| Tokens.InferTypeWord | vrplib/parse/parse_utils.py:13-20 | a stripped token that starts with neither a digit, a sign nor a point stays a string |
| Tokens.IntOrFloat | cvrplib/read/parse_vrplib.py:176-178 | a string of digits becomes that integer; anything else goes through `float()`, and fails with ValueError exactly when that does |
| Tokens.NatToString | cvrplib/write/write_solution.py:23 | `str()` of a non-negative integer is a non-empty digit string denoting that integer |
| Tokens.IntReadsBack | vrplib/write/write_instance.py:66 | every integer is printed as one token that `infer_type` reads back as the same integer |
| Tokens.ToReal | cvrplib/parse/parse_distances.py:119 | storing a value into a float array fails exactly for strings |
| CvrplibParseUtils.StripLines | cvrplib/parse/parse_utils.py:30-34 | every returned line is stripped and non-empty; never more lines than the input |
| CvrplibParseUtils.StripLinesSelects | cvrplib/parse/parse_utils.py:30-34 | the result is exactly the non-empty stripped lines, in their original order: a strictly increasing choice of indices that misses no line whose stripped form is non-empty |
| CvrplibParseUtils.StripLinesIdempotent | cvrplib/parse/parse_utils.py:30-34 | stripping the result again changes nothing |
| CvrplibParseUtils.Text2Lines | cvrplib/parse/parse_vrplib.py:8 | the cleaner this parser imports, modelled as `strip_lines` over the lines of the text: every line is stripped, non-empty and free of line breaks |
| CvrplibParseUtils.Text2LinesOfUnlines | cvrplib/parse/parse_utils.py:30-34 | stripped, non-empty lines written one per line are read back unchanged |
| CvrplibParseUtils.Euclidean | cvrplib/parse/parse_utils.py:19-27 | the pair loop fills an n-by-n matrix with the rounded distance of every pair, zero on the diagonal, the same value in both triangles |
| CvrplibParseUtils.EuclideanProperties | cvrplib/parse/parse_utils.py:6-27 | the distance matrix is square, symmetric and zero on the diagonal, and each entry is the rounding of the square root of the squared coordinate distance |
| Geometry.SqDist | cvrplib/parse/parse_utils.py:17 | the sum of squared coordinate differences over the zipped coordinates is never negative |
| Geometry.SqDistSymmetric | cvrplib/parse/parse_utils.py:17 | the squared distance does not depend on the order of the two points |
| Geometry.SqDistSelf | cvrplib/parse/parse_utils.py:17 | a point is at squared distance zero from itself |
| Geometry.RoundHalfEven | cvrplib/parse/parse_utils.py:23 | `round()` gives the nearest integer, ties to the even one |
| Geometry.Floor | cvrplib/parse/parse_distances.py:34 | the greatest integer not above the value |
| CvrplibParseDistances.StoreFloat | cvrplib/parse/parse_distances.py:119 | storing a value into a numpy float array succeeds exactly for numbers, and stores their real value |
| CvrplibParseDistances.MirroredReal | cvrplib/parse/parse_distances.py:115-120 | a real matrix is mirrored with a zero diagonal exactly when it is square, symmetric and zero on the diagonal |
| CvrplibParseDistances.PairwiseEuclidean | cvrplib/parse/parse_distances.py:65-86 | the pair loop leaves an n-by-n array whose entry (a, b) is the distance of rows a and b off the diagonal and zero on it |
| CvrplibParseDistances.CoordinateRows | cvrplib/parse/parse_distances.py:29 | the coordinate rows `pairwise_euclidean` subtracts: one per table row, or one per item of a one-dimensional array; a string is a row of characters, and fails as soon as two characters must be subtracted; with two or more rows, the rows succeed exactly when they are numeric and, for a table, of one length |
| CvrplibParseDistances.GetRepresentation | cvrplib/parse/parse_distances.py:89-107 | "triangular" exactly when the number of rows is the dimension minus one, "flattened" otherwise; a string dimension raises |
| CvrplibParseDistances.Euclidean2DProperties | cvrplib/parse/parse_distances.py:28-40 | a "2D" type succeeds exactly for EUC_2D, FLOOR_2D and EXACT_2D; the matrix is square, symmetric and zero on the diagonal, and off the diagonal it is the distance rounded half-to-even, floored, or kept |
| CvrplibParseDistances.RepresentationByCount | cvrplib/parse/parse_distances.py:104-107 | for an integer dimension n, triangular exactly when there are n - 1 rows, flattened exactly otherwise |
| CvrplibParseDistances.LowerRowDistancesProperties | cvrplib/parse/parse_distances.py:47-55 | for any way of storing a value (the rows of a table, the characters of a string), LOWER_ROW gives a square, symmetric matrix, zero on the diagonal, of size rows + 1 for the triangular reading and n otherwise; its entries below the diagonal are the triangle's cells, or the concatenated values in pair order; a negative dimension raises ValueError |
| CvrplibParseDistances.FullMatrixUnchanged | cvrplib/parse/parse_distances.py:57-58 | FULL_MATRIX returns the edge weights unchanged when the rows have one length |
| CvrplibParseDistances.ParseDistancesErrors | cvrplib/parse/parse_distances.py:26-62 | the errors follow the order of the lookups: a missing edge weight type, a non-string type, then for EXPLICIT a missing format, edge weights or dimension, then an unknown format |
| CvrplibParseDistances.TypeErrors | cvrplib/parse/parse_distances.py:28-62 | a string type that is neither EXPLICIT nor contains "2D" raises ValueError; a "2D" type without coordinates raises KeyError |
| LowerTriangle.ColumnError | cvrplib/parse/parse_distances.py:117-118 | no error exactly when every read of the column from the given row down succeeds; an error is the error of one of those reads |
| LowerTriangle.TriangularError | cvrplib/parse/parse_distances.py:117-118 | no error exactly when every pair from the given column on can be read; an error is the error of one of those reads |
| LowerTriangle.TriangularErrorAt | cvrplib/parse/parse_distances.py:117-118 | when every read before pair (j, i) in combination order succeeds and that one fails, its error is the one raised |
| LowerTriangle.TriangularMatrixProperties | cvrplib/parse/parse_distances.py:110-122 | the triangular reading succeeds exactly when every needed cell exists and can be stored; it then gives a mirrored matrix of size rows + 1, zero on the diagonal, with entry (i, j), j < i, equal to `triangular[i - 1][j]`; a failure is the error of one read |
| LowerTriangle.FromTriangular | cvrplib/parse/parse_distances.py:110-122 | the loop over the pairs fails exactly when the triangular reading does, with the same error, and otherwise fills an array equal to that matrix cell by cell |
| LowerTriangle.TriClosed | cvrplib/parse/parse_distances.py:135 | the pairs below row i number i (i - 1) / 2 |
| LowerTriangle.LowerIndex | cvrplib/parse/parse_distances.py:135 | the position of pair (i, j) in the sorted pair list lies within the block of row i |
| LowerTriangle.LowerIndexInjective | cvrplib/parse/parse_distances.py:135-138 | distinct pairs have distinct positions, so each value is read for at most one pair |
| LowerTriangle.LowerIndexOrder | cvrplib/parse/parse_distances.py:130-135 | the sorted order is (1, 0), then along each row, then from the end of a row to the start of the next one |
| LowerTriangle.FlatError | cvrplib/parse/parse_distances.py:137-138 | no error exactly when every read in the range succeeds; an error is the error of one of them |
| LowerTriangle.FlatErrorAt | cvrplib/parse/parse_distances.py:137-138 | when every read before position q succeeds and that one fails, its error is the one raised |
| LowerTriangle.FlattenedMatrixProperties | cvrplib/parse/parse_distances.py:125-142 | the flattened reading succeeds exactly when the first n (n - 1) / 2 concatenated values exist and can be stored; it then gives a mirrored n-by-n matrix, zero on the diagonal, whose entry (i, j), j < i, is value number i (i - 1) / 2 + j; a failure is the error of one read |
| LowerTriangle.FlatFilledStep | cvrplib/parse/parse_distances.py:139-140 | storing the value of one pair changes that entry and its mirror and nothing else |
| LowerTriangle.FromFlattened | cvrplib/parse/parse_distances.py:125-142 | the loop over the sorted pairs fails exactly when the flattened reading does, with the same error, and otherwise fills an array equal to that matrix cell by cell |
| LowerTriangle.FilledComplete | cvrplib/parse/parse_distances.py:137-142 | once every pair is stored, the filled array is the whole rebuilt matrix |
| VrplibGroup.EofFrom | vrplib/parse/parse_vrplib.py:67-69 | the first line at or after i that contains "EOF" (or the end): no line before it contains "EOF" and it does |
| VrplibGroup.ScanBlock | vrplib/parse/parse_vrplib.py:80-89 | the inner loop stops at the first line after the header that has a ':', a "_SECTION" or an "EOF", and reports whether that line had a ':' |
| VrplibGroup.GroupSpecificationsAndSections | vrplib/parse/parse_vrplib.py:59-96 | the loop returns exactly the corrected grouping, in which each block starts at its own header line: the first error before the "EOF" line if there is one, otherwise the specification lines and the section blocks before it |
| VrplibGroup.FirstErrorStable | vrplib/parse/parse_vrplib.py:67-94 | once a line has raised, lines after it do not change the error |
| VrplibGroup.ErrorAt | vrplib/parse/parse_vrplib.py:67-94 | the first line that raises, with no "EOF" before it, decides the error of the whole grouping |
| VrplibGroup.SkipStep | vrplib/parse/parse_vrplib.py:71-72 | a line inside the current block is skipped: it raises nothing and adds neither a specification nor a block |
| VrplibGroup.StrayStep | vrplib/parse/parse_vrplib.py:92-94 | a data row outside every section block raises RuntimeError "does not conform to the VRPLIB format" |
| VrplibGroup.GroupPartitions | vrplib/parse/parse_vrplib.py:67-91 | a successful grouping partitions the lines before "EOF": the specifications are exactly the ':' lines, and the blocks, concatenated, are exactly the other lines, in order |
| VrplibGroup.GroupBlocksShaped | vrplib/parse/parse_vrplib.py:76-91 | every block starts with a section header and the rest of it is data rows |
| VrplibGroup.ErrorBeforeEof | vrplib/parse/parse_vrplib.py:67-94 | any line before "EOF" that raises makes the whole grouping fail |
| VrplibGroup.SpecAfterSectionFails | vrplib/parse/parse_vrplib.py:80-82 | a ':' line that follows a section header, with only data rows between, makes grouping fail |
| VrplibGroup.StrayLineFails | vrplib/parse/parse_vrplib.py:92-94 | a line before "EOF" that is neither a specification, a header nor part of a block makes grouping fail |
| VrplibGroup.IndexOf | vrplib/parse/parse_vrplib.py:77 | `list.index`: a position holding the line, with no equal line before it |
| VrplibGroup.RepeatedHeaderSkipsOrderCheck | vrplib/parse/parse_vrplib.py:76-91 | with the block start looked up by `lines.index`, the lines `A_SECTION, A_SECTION, K: V, EOF` are accepted with `K: V` as a specification |
| VrplibGroup.RepeatedHeaderRejected | vrplib/parse/parse_vrplib.py:80-82 | with the block starting at the current line, the same lines raise "Specification presented after section." |
| VrplibParseVrplib.ParseSpecification | vrplib/parse/parse_vrplib.py:99-105 | a line can be parsed exactly when it has a ':'; without one, unpacking the split fails with ValueError |
| VrplibParseVrplib.ParseSpecificationSplit | vrplib/parse/parse_vrplib.py:104-105 | the key is the stripped, lower-cased text before the first ':', and the value is the type-inferred stripped rest, later colons included |
| VrplibParseVrplib.FirstColonExample | tests/parse/test_parse_vrplib.py:85 | `COMMENT: BKS:1` gives the key `comment` and the string value `BKS:1` |
| VrplibParseVrplib.SectionName | vrplib/parse/parse_vrplib.py:114 | the stripped header, lower-cased, without its trailing "_SECTION" when it has one |
| VrplibParseVrplib.Row | vrplib/parse/parse_vrplib.py:115 | one value per whitespace-separated word of the line, the word's inferred type |
| VrplibParseVrplib.Rows | vrplib/parse/parse_vrplib.py:115 | one row per data line, each that line's inferred words |
| VrplibParseVrplib.DropIndex | vrplib/parse/parse_vrplib.py:127 | every row without its first value |
| VrplibParseVrplib.SectionData | vrplib/parse/parse_vrplib.py:124-133 | ragged rows stay a nested list without their index column; equal rows become an array without it, squeezed to a vector of the second column when each row had two values |
| VrplibParseVrplib.SectionValue | vrplib/parse/parse_vrplib.py:114 | an empty block raises IndexError, because it has no header line |
| VrplibParseVrplib.ParseSection | vrplib/parse/parse_vrplib.py:108-135 | the name is the header's section name, and the section succeeds or fails exactly as its data does |
| VrplibParseVrplib.DataSection | vrplib/parse/parse_vrplib.py:124-133 | a block other than edge_weight and depot is read from its rows alone, by the data rule |
| VrplibParseVrplib.DepotValuesNoTerminator | vrplib/parse/parse_vrplib.py:122-123 | without a -1 every depot is kept, in order, made zero-based |
| VrplibParseVrplib.DepotValuesAppendTerminator | vrplib/parse/parse_vrplib.py:123 | a -1 terminator is dropped: appending one changes nothing |
| VrplibParseVrplib.DepotExample | tests/parse/test_parse_vrplib.py:116-118 | the block `DEPOT_SECTION`, `1`, `-1` gives the name `depot` and the single depot 0 |
| VrplibParseVrplib.TokenRow | vrplib/parse/parse_vrplib.py:115 | a line holding one token is a row of that token's inferred value |
| VrplibParseVrplib.SpecsInstanceStep | vrplib/parse/parse_vrplib.py:38-40 | each specification either stores its key and value over the instance so far or ends the loop with its error |
| VrplibParseVrplib.SpecsInstanceKeys | vrplib/parse/parse_vrplib.py:38-40 | every key comes from a specification line, every line's key is present, and it holds the value of the last line with that key |
| VrplibParseVrplib.SectionsInstanceStep | vrplib/parse/parse_vrplib.py:42-49 | each section either fails the loop with its error, fails it because its name is taken, or stores its data under its fresh name |
| VrplibParseVrplib.SectionsInstanceNames | vrplib/parse/parse_vrplib.py:42-49 | after a successful loop no section name is a specification key or the name of another section, every specification keeps its value, and the keys are exactly the specification keys and section names |
| VrplibParseVrplib.SectionNameClash | vrplib/parse/parse_vrplib.py:45-47 | a section named like a specification fails with "NAME is used both as specification and section." |
| VrplibParseVrplib.WithEdgeWeightsAdds | vrplib/parse/parse_vrplib.py:51-54 | a non-empty instance without edge weights, when computing is asked for, gets the computed distances under "edge_weight" and nothing else changes |
| VrplibParseVrplib.WithEdgeWeightsStep | vrplib/parse/parse_vrplib.py:51-54 | the last step of the parser computes the edge weights exactly as the function states |
| VrplibParseVrplib.ParseVrplib | vrplib/parse/parse_vrplib.py:11-56 | on the corrected grouping, the parser's two loops and final step give the grouping's error, a specification's or a section's error, a name clash, or the instance of specifications, sections and computed edge weights |
| VrplibParseDistances.FirstRowError | vrplib/parse/parse_distances.py:115-116 | no error exactly when every row up to n can be assigned to its place in the triangle |
| VrplibParseDistances.LowerRowMatrixProperties | vrplib/parse/parse_distances.py:96-118 | `from_lower_row` succeeds exactly when every row is numeric and has length i + 1 or 1; it then gives a square matrix of size rows + 1, symmetric and zero on the diagonal, whose entry (i + 1, j) is value j of row i, or the row's single value when it has one |
| VrplibParseDistances.FromLowerRow | vrplib/parse/parse_distances.py:112-118 | the row-by-row assignment followed by adding the transpose fails exactly when the function does, with the same error, and otherwise gives an array equal to its matrix cell by cell |
| VrplibParseDistances.AddTranspose | vrplib/parse/parse_distances.py:118 | a new array whose every entry (x, y) is d[x, y] + d[y, x] |
| VrplibParseDistances.FirstErrorIs | vrplib/parse/parse_distances.py:115-116 | the first row that cannot be assigned decides the error |
| VrplibParseDistances.FirstRowErrorStable | vrplib/parse/parse_distances.py:115-116 | once a row has failed, later rows do not change the error |
| VrplibParseDistances.ISqrt | vrplib/parse/parse_distances.py:147 | `int((2 * n) ** 0.5)` on exact arithmetic: the r with r * r <= m < (r + 1) * (r + 1) |
| VrplibParseDistances.ISqrtUnique | vrplib/parse/parse_distances.py:147 | that r is the only one |
| VrplibParseDistances.IsTriangularNumberIff | vrplib/parse/parse_distances.py:143-148 | a non-negative n passes exactly when n = i (i + 1) / 2 for some natural i |
| VrplibParseDistances.IsTriangularNumberExamples | tests/parse/test_parse_distances.py:130-134 | 1, 3 and 630 are triangular, 4 and 1000 are not, and -1 raises |
| VrplibParseDistances.RowStartClosed | vrplib/parse/parse_distances.py:133 | the pairs whose first element is below i number i (2n - i - 1) / 2 |
| VrplibParseDistances.PairIndex | vrplib/parse/parse_distances.py:133-136 | the position of pair (i, j) in the sorted pair list lies in the block of its first element |
| VrplibParseDistances.PairIndexInjective | vrplib/parse/parse_distances.py:133-136 | distinct pairs have distinct positions, so each value is read for at most one pair |
| VrplibParseDistances.PairIndexOrder | vrplib/parse/parse_distances.py:133 | the sorted order is (0, 1), then along each row, then from the end of one row to the start of the next |
| VrplibParseDistances.EilonSizeOfTriangle | vrplib/parse/parse_distances.py:130 | for m (m + 1) / 2 values the size is m + 1, and the pairs use every value |
| VrplibParseDistances.EilonMatrixProperties | vrplib/parse/parse_distances.py:121-140 | the Eilon matrix is square, symmetric and zero on the diagonal, and entry (i, j), i < j, is the value at that pair's position in the flattened rows |
| VrplibParseDistances.EilonTriangleOk | vrplib/parse/parse_distances.py:129-140 | a triangular number of numeric values always gives a matrix, of size m + 1 |
| VrplibParseDistances.FilledStep | vrplib/parse/parse_distances.py:136-138 | assigning one pair changes that entry and its mirror and nothing else |
| VrplibParseDistances.FromEilon | vrplib/parse/parse_distances.py:121-140 | the loop over the sorted pairs fails exactly when the function does, with the same error, and otherwise fills an array equal to its matrix cell by cell |
| VrplibParseDistances.EilonShortFails | vrplib/parse/parse_distances.py:136 | too few values raise IndexError when the loop reaches the first missing one |
| VrplibParseDistances.EilonStringFails | vrplib/parse/parse_distances.py:137 | a string among the needed values raises ValueError when it is stored |
| VrplibParseDistances.LowerRowExample | tests/parse/test_parse_distances.py:90-106 | the rows [1], [2, 3], [4, 5, 6] give the 4-by-4 matrix of that test |
| VrplibParseDistances.LowerRowBroadcastExample | vrplib/parse/parse_distances.py:116 | a single value per row is broadcast along its row |
| VrplibParseDistances.LowerRowErrorExamples | vrplib/parse/parse_distances.py:116 | a row too long for its place and a string value both raise ValueError |
| VrplibParseDistances.EilonExample | tests/parse/test_parse_distances.py:109-127 | the rows [1, 2, 3, 4], [5, 6] give the 4-by-4 column-wise matrix of that test |
| VrplibParseDistances.EilonShortExample | vrplib/parse/parse_distances.py:130-136 | two values are too few for the three pairs of a 3-by-3 matrix and raise IndexError |
| VrplibParseDistances.PairwiseEuclidean | vrplib/parse/parse_distances.py:75-93 | an n-by-n matrix whose entry (i, j) is the square root of the squared distance of rows i and j |
| VrplibParseDistances.PairwiseEuclideanSymmetric | vrplib/parse/parse_distances.py:90-93 | the pairwise distances are symmetric, and zero on the diagonal when the square root of 0 is 0 |
| VrplibParseDistances.MapMatrix | vrplib/parse/parse_distances.py:55-58 | an element-wise numpy function keeps the shape and applies to every entry |
| VrplibParseDistances.MapMatrixSymmetric | vrplib/parse/parse_distances.py:55-58 | a function with f(0) = 0 keeps a matrix symmetric with zero diagonal |
| VrplibParseDistances.RoundingZero | vrplib/parse/parse_distances.py:55-58 | `floor` and `round(1000 x)` both map 0 to 0 |
| VrplibParseDistances.Coordinates | vrplib/parse/parse_distances.py:90 | the coordinates that can be broadcast form a table, one point per row |
| VrplibParseDistances.KindMatrixSymmetric | vrplib/parse/parse_distances.py:41-67 | every computed matrix is square, symmetric and zero on the diagonal, of the coordinates' size, one more than the triangle's rows, or the Eilon size |
| VrplibParseDistances.ParseDistancesErrors | vrplib/parse/parse_distances.py:41-72 | a "2D" type without coordinates raises ValueError, an unknown type or format raises "Edge weight type or format unknown.", an instance entry named data raises TypeError |
| VrplibParseDistances.NoCoordsExample | tests/parse/test_parse_distances.py:37-46 | EUC_2D without coordinates raises ValueError |
| VrplibParseDistances.UnknownTypeExample | tests/parse/test_parse_distances.py:13-34 | an edge weight type that is neither "2D" nor EXPLICIT (here GEO) raises ValueError |
| VrplibParseDistances.NumericTypeExample | vrplib/parse/parse_distances.py:41 | a numeric edge weight type cannot be searched for "2D" and raises TypeError |
| VrplibParseDistances.ParseDistancesExactExample | vrplib/parse/parse_distances.py:57-58 | the points (0, 0) and (3, 4) are 5000 apart in EXACT_2D |
| VrplibParseDistances.ParseDistancesFullExample | vrplib/parse/parse_distances.py:69-70 | FULL_MATRIX returns the rows as they are |
| VrplibParseSolution.Visit | vrplib/parse/parse_solution.py:33 | a visit is an integer exactly when its word is all digits; any other word stays the same string |
| VrplibParseSolution.VisitOfNat | vrplib/parse/parse_solution.py:33 | a printed natural number is read back as that number |
| VrplibParseSolution.VisitOfNegative | vrplib/parse/parse_solution.py:33 | a printed negative number is not all digits and stays a string |
| VrplibParseSolution.Visits | vrplib/parse/parse_solution.py:32-33 | a route line has visits exactly when it has a ':' (IndexError otherwise); they are the typed words between the first ':' and the next one |
| VrplibParseSolution.MetaParts | vrplib/parse/parse_solution.py:36-37 | the line is split once, at its first ':' if it has one and at its first space otherwise |
| VrplibParseSolution.SolutionStep | vrplib/parse/parse_solution.py:31-40 | a line that is not a route line never fails, and a successful step keeps the routes entry |
| VrplibParseSolution.ParseSolution | vrplib/parse/parse_solution.py:8-42 | the loop over the cleaned lines gives exactly the fold of the step over them, from `{"routes": []}` |
| VrplibParseSolution.ReadLine | vrplib/parse/parse_solution.py:31-40 | the loop body updates the dictionary exactly as the step does |
| VrplibParseSolution.SolutionErrorStays | vrplib/parse/parse_solution.py:30-40 | once a line has failed, the result stays that failure |
| VrplibParseSolution.SolutionHasRoutes | vrplib/parse/parse_solution.py:28 | a successful read always has a routes entry |
| VrplibParseSolution.RoutesInOrder | vrplib/parse/parse_solution.py:28-34 | when every route line has a ':' and no metadata line is keyed "routes", the read succeeds and the routes list the route lines' visits in file order |
| VrplibParseSolution.RouteWithoutColon | vrplib/parse/parse_solution.py:32 | a route line without a ':' fails the read with IndexError |
| VrplibParseSolution.RoutesReplaced | vrplib/parse/parse_solution.py:34-38 | after a metadata line keyed "routes", the next route line fails the read with AttributeError, because the list was replaced |
| VrplibParseSolution.SkippedLine | vrplib/parse/parse_solution.py:39-40 | a line with neither ':' nor space that is no route line leaves the solution unchanged |
| VrplibParseSolution.SolutionKeys | vrplib/parse/parse_solution.py:28-40 | the keys of a successful read are exactly "routes" and the metadata lines' keys |
| VrplibParseSolution.StepKeys | vrplib/parse/parse_solution.py:31-40 | one step adds the key of a metadata line and no other |
| VrplibParseSolution.StepKeepsMeta | vrplib/parse/parse_solution.py:31-40 | one step keeps every metadata entry whose key the line does not set |
| VrplibParseSolution.LastMetaWins | vrplib/parse/parse_solution.py:38 | a metadata line with no later line of the same key decides that key's value |
| VrplibParseSolution.MetaStep | vrplib/parse/parse_solution.py:35-38 | a metadata line sets its key to its typed value |
| VrplibParseSolution.RouteStep | vrplib/parse/parse_solution.py:31-34 | before any metadata, a route line appends its visits to the routes |
| VrplibParseSolution.VisitsOfRouteLine | vrplib/parse/parse_solution.py:32-33 | a line `head: w1 w2 ...` with no further colon lists exactly the typed words |
| VrplibParseSolution.MetaOfLine | vrplib/parse/parse_solution.py:35-38 | a line `key:value` that is no route line sets the stripped, lower-cased key to the typed stripped value |
| VrplibParseSolution.MetaOfSpacedLine | vrplib/parse/parse_solution.py:35-38 | a line `key value` without a colon is split at its first space the same way |
| VrplibParseSolution.SolutionExample | tests/parse/test_parse_solution.py:10-13 | the lines of two routes and a cost give the routes [1, 2, 3], [5, 6] and the cost 10 |
| VrplibParseSolution.SpaceSeparatedExample | tests/parse/test_parse_solution.py:18-21 | `time 180.23` sets "time" to the float 180.23 |
| VrplibParseSolomon.CheckSolomon | vrplib/parse/parse_solomon.py:44-63 | the preamble passes exactly when there are at least five lines, the first is non-empty, the second has VEHICLE, the third has NUMBER and CAPACITY and the fifth has CUSTOMER; otherwise RuntimeError "does not conform to the Solomon format" |
| VrplibParseSolomon.InvalidPreambles | tests/parse/test_parse_solomon.py:34-52 | an empty first line, no VEHICLE, no NUMBER CAPACITY and no CUSTOMER each raise that RuntimeError |
| VrplibParseSolomon.Ints | vrplib/parse/parse_solomon.py:29-31 | the tokens convert exactly when each passes `int()`, to those integers in order; otherwise ValueError |
| VrplibParseSolomon.Header | vrplib/parse/parse_solomon.py:29-31 | the vehicle line unpacks exactly when it has two words that are integers, giving them as vehicles and capacity; otherwise ValueError |
| VrplibParseSolomon.DataLines | vrplib/parse/parse_solomon.py:33 | the lines from the seventh on, none when there are at most six |
| VrplibParseSolomon.DataArray | vrplib/parse/parse_solomon.py:33-38 | the column slicing succeeds exactly for at least two rows of equal length with at least seven columns, and keeps the rows; equal rows that are too few or too short raise IndexError |
| VrplibParseSolomon.ParseSolomon | vrplib/parse/parse_solomon.py:11-41 | the checks and the entry-by-entry filling give exactly the instance of the text |
| VrplibParseSolomon.SolomonErrors | vrplib/parse/parse_solomon.py:24-41 | a text fails exactly when its preamble, its vehicle line or its data fails; a preamble that does not conform, even one too short to inspect, raises RuntimeError |
| VrplibParseSolomon.SolomonOk | vrplib/parse/parse_solomon.py:24-41 | a successful parse is the instance of the first line, the vehicle line and the data array |
| VrplibParseSolomon.InstanceColumns | vrplib/parse/parse_solomon.py:28-38 | the keys are exactly name, vehicles, capacity, node_coord, demand, time_window, service_time and edge_weight; data line i gives node i its coordinates from columns 1-2, its demand from 3, its time window from 4-5 and its service time from 6 |
| VrplibParseSolomon.InstanceEdgeWeight | vrplib/parse/parse_solomon.py:39 | the edge weights are the pairwise distances of the coordinates: one row and column per node, symmetric, zero on the diagonal |
| VrplibParseSolomon.SolomonFields | vrplib/parse/parse_solomon.py:28-39 | a parsed instance has the first line as name, the two integers of the fourth line as vehicles and capacity, and the symmetric distance matrix of the coordinates as edge weights |
| VrplibParseSolomon.C101Columns | tests/parse/test_parse_solomon.py:73-87 | the two data lines of that test give its coordinates, demands, time windows and service times |
| VrplibParseSolomon.HeaderOfDigits | vrplib/parse/parse_solomon.py:29-31 | two digit strings separated by whitespace read as those two numbers |
| VrplibParseSolomon.C101Header | tests/parse/test_parse_solomon.py:70-83 | the line `25         200` gives 25 vehicles of capacity 200 |
| VrplibWriteInstance.ArrayDtype | vrplib/write/write_instance.py:57 | `np.asarray(data).dtype`: a string array exactly when some cell is a string, an integer array exactly when there are integers and no strings or floats, and otherwise a float array of numbers |
| VrplibWriteInstance.CellTexts | vrplib/write/write_instance.py:66 | one printed cell per value of the row, each printed as an element of the array's type |
| VrplibWriteInstance.RowTexts | vrplib/write/write_instance.py:61-66 | the index i + 1 comes first, except in EDGE_WEIGHT_SECTION and DEPOT_SECTION, then the row's printed cells |
| VrplibWriteInstance.Column | vrplib/write/write_instance.py:58-59 | a one-dimensional array becomes one single-value row per item |
| VrplibWriteInstance.SectionLines | vrplib/write/write_instance.py:55-67 | a block is the name line and then one line per row |
| VrplibWriteInstance.WriteInstance | vrplib/write/write_instance.py:45-52 | the loop writes exactly the text of the mapping: every entry in order, then "EOF", or the text up to the entry that raised |
| VrplibWriteInstance.AppendEntry | vrplib/write/write_instance.py:46-50 | one pass appends the entry's lines to the text, or ends the file with that entry's error |
| VrplibWriteInstance.EofAppended | vrplib/write/write_instance.py:52 | after the last entry the line "EOF" completes the file |
| VrplibWriteInstance.WrittenStep | vrplib/write/write_instance.py:46-50 | one more entry appends its lines, or its error stops the output with nothing more written |
| VrplibWriteInstance.WriteEntry | vrplib/write/write_instance.py:47-50 | one entry gives `key: value` for a single value and the block for a list or array, each line ended by a newline; a ragged table raises |
| VrplibWriteInstance.InstanceTextError | vrplib/write/write_instance.py:47-57 | writing fails exactly when some entry is a ragged table, and then with numpy's ValueError |
| VrplibWriteInstance.InstanceEndsWithEof | vrplib/write/write_instance.py:52 | a complete file ends with the line "EOF" |
| VrplibWriteInstance.InstanceTextConcat | vrplib/write/write_instance.py:46-51 | entries are written in the mapping's order: the file of a + b is a's lines followed by the file of b |
| VrplibWriteInstance.ScalarText | vrplib/write/write_instance.py:49-52 | a single value is the one line `key: value`, with the key as given, then "EOF" |
| VrplibWriteInstance.SectionRowWords | vrplib/write/write_instance.py:61-66 | row i of a block splits into its printed cells, with the index i + 1 first unless the section is EDGE_WEIGHT_SECTION or DEPOT_SECTION |
| VrplibWriteInstance.SpecLineReadBack | vrplib/write/write_instance.py:50 | a single-value line is read back by the specification parser as the stripped, lower-cased key and the same value |
| VrplibWriteInstance.RowReadBack | vrplib/write/write_instance.py:61-66 | a row of a block with an index column is read back as the index followed by the row's values |
| VrplibWriteInstance.ReadRows | vrplib/write/write_instance.py:61-67 | all rows of a block read back as index then values, so dropping the index gives the original rows |
| VrplibWriteInstance.VectorReadBack | vrplib/write/write_instance.py:55-67 | a list or one-dimensional array written as a block is read back by `parse_section` unchanged |
| VrplibWriteInstance.TableReadBack | vrplib/write/write_instance.py:55-67 | a table of equal rows written as a block is read back by `parse_section` unchanged, except that a single column comes back squeezed to a list |
| VrplibWriteInstance.IndexedData | vrplib/parse/parse_vrplib.py:124-133 | rows of one index value followed by a table's rows give back that table, squeezed when it has one column |
| VrplibWriteSolution.Shown | vrplib/write/write_solution.py:27 | one printed word per value of the route, in order |
| VrplibWriteSolution.WriteSolution | vrplib/write/write_solution.py:21-32 | an empty route raises "Empty route in solution." before anything is written; otherwise the text is the route lines numbered from 1, then one `key: value` line per data entry in order, each line ended by a newline |
| VrplibWriteSolution.WriteRoutes | vrplib/write/write_solution.py:26-28 | the route loop writes the line of each route, numbered from 1 |
| VrplibWriteSolution.WriteEntries | vrplib/write/write_solution.py:30-32 | the data loop writes one `key: value` line per entry, in order |
| VrplibWriteSolution.SolutionLinesCount | vrplib/write/write_solution.py:21-32 | the file has one line per route and one per data entry, and nothing else |
| VrplibWriteSolution.RouteLineRead | vrplib/write/write_solution.py:27 | a written route of non-negative integers is a clean route line whose visits, read back, are exactly the route |
| VrplibWriteSolution.MetaLineRead | vrplib/write/write_solution.py:32 | a written data line is a clean metadata line whose read key is the stripped, lower-cased key and whose read value is the value |
| VrplibWriteSolution.WrittenRouteLines | vrplib/write/write_solution.py:26-28 | every written route line is read as the route it was written from, and never as metadata |
| VrplibWriteSolution.WrittenMetaLines | vrplib/write/write_solution.py:30-32 | every written data line is read as its own key and value, and never as a route |
| VrplibWriteSolution.WrittenFileLines | vrplib/write/write_solution.py:21-32 | the written lines are clean, so the reader's cleaning leaves exactly them |
| VrplibWriteSolution.WrittenSolutionReadBack | vrplib/write/write_solution.py:21-32 | round trip with `parse_solution`: the file of routes of naturals and of data entries with distinct keys is read as exactly those routes and, under each read key, its value, with no other key than "routes" |
| VrplibWriteSolution.ReadBack | vrplib/parse/parse_solution.py:28-40 | route lines followed by metadata lines with distinct keys other than "routes" are read as those routes and those keys and values |
| VrplibWriteSolution.WriteExample | tests/write/test_write_solution.py:10-26 | the routes [1, 2], [3, 4], [5] and the data Cost 100, Time 123.45, name test.sol give the six lines of that test |
| VrplibWriteSolution.ExampleRouteLines | tests/write/test_write_solution.py:18-20 | the three routes of that test give `Route #1: 1 2`, `Route #2: 3 4` and `Route #3: 5` |
| VrplibWriteSolution.ExampleMetaLines | tests/write/test_write_solution.py:21-23 | the data of that test gives `Cost: 100`, `Time: 123.45` and `name: test.sol`, in the order given |
| DownloadUtils.FirstPrefix | vrplib/download/download_utils.py:31-33 | a returned set name is one of the listed sets and a prefix of the instance name |
| DownloadUtils.FirstPrefixFirst | vrplib/download/download_utils.py:31-33 | the loop finds nothing exactly when no set name is a prefix, and otherwise returns the first listed one that is |
| DownloadUtils.FirstPrefixSkip | vrplib/download/download_utils.py:31-33 | set names that are not prefixes are passed over |
| DownloadUtils.MatchesVrptwPrefixes | vrplib/download/download_utils.py:19 | `re.match("(R\|C\|RC)[12]", name)` holds exactly for the names starting with R1, R2, C1, C2, RC1 or RC2 |
| DownloadUtils.VrptwNames | vrplib/download/download_utils.py:19-23 | a VRPTW name is in HG exactly when it contains "_", and in Solomon otherwise; it is VRPTW |
| DownloadUtils.OtherNames | vrplib/download/download_utils.py:25-35 | for other names the checks run in order: an XXL name gives XXL, then a DIMACS name gives D, then the first CVRP set that is a prefix; an unknown name raises "Set name not known for instance" |
| DownloadUtils.IsVrptw | vrplib/download/download_utils.py:38-43 | `is_vrptw` succeeds exactly when `find_set` does, and is true exactly when the set is HG or Solomon |
| DownloadUtils.IsVrptwExactly | vrplib/download/download_utils.py:38-43 | for every known name, `is_vrptw` holds exactly when the VRPTW pattern matches |
| DownloadUtils.XxlOnlyByName | vrplib/download/download_utils.py:25-33 | XXL is returned only for the XXL instance names, never through the CVRP set list, because X comes before XXL |
| DownloadUtils.XNames | vrplib/download/constants.py:4-17 | every name starting with X is in set X, including names starting with XXL |
| DownloadUtils.SolomonAndHgExamples | vrplib/download/download_utils.py:19-23 | C101 is in Solomon and C1_2_1 is in HG |
| DownloadUtils.CvrpExamples | vrplib/download/download_utils.py:31-33 | X-n101-k25 and XXL-n1 are both in set X |
| DownloadUtils.UnknownExample | vrplib/download/download_utils.py:35 | `test_name` belongs to no set and raises |
| CvrplibParseVrplib.ClassifyKinds | cvrplib/parse/parse_vrplib.py:37-49 | a line is a specification exactly when it contains ": ", a header exactly when it does not but contains "_SECTION", and a data line exactly otherwise; each kind carries its key and value or its header name |
| CvrplibParseVrplib.Drop1 | cvrplib/parse/parse_vrplib.py:47 | `row[1:]`: every value but the first, empty for an empty row |
| CvrplibParseVrplib.AddRow | cvrplib/parse/parse_vrplib.py:49 | the row goes to the end of that section's rows, no other section changes, and a name seen for the first time is added after all others, as the default dictionary keeps insertion order |
| CvrplibParseVrplib.Scan | cvrplib/parse/parse_vrplib.py:33-49 | the scan loop with its break at the first "EOF" line gives exactly the fold of the line step over the lines before it |
| CvrplibParseVrplib.ScanSections | cvrplib/parse/parse_vrplib.py:40-49 | the open section is the last header's, and the rows filed under a name are the data lines after a header of that name, in order, gathered over every header that repeats it; section names are distinct |
| CvrplibParseVrplib.ScannedName | cvrplib/parse/parse_vrplib.py:41 | the open section is the name of the last header seen |
| CvrplibParseVrplib.NoRowsBeforeHeader | cvrplib/parse/parse_vrplib.py:42 | data lines before the first header are dropped |
| CvrplibParseVrplib.SpecKeys | cvrplib/parse/parse_vrplib.py:37-39 | the specification keys are exactly the keys of the specification lines scanned |
| CvrplibParseVrplib.SpecLastWins | cvrplib/parse/parse_vrplib.py:37-39 | a specification line is stored wherever it appears, also among a section's rows, and the last line with a key decides its value |
| CvrplibParseVrplib.ScanStopsAtEof | cvrplib/parse/parse_vrplib.py:34-35 | nothing after the first "EOF" line matters: two line lists that agree up to it scan alike |
| CvrplibParseVrplib.Column | cvrplib/parse/parse_vrplib.py:59 | column c of the rows, one value per row |
| CvrplibParseVrplib.DepotField | cvrplib/parse/parse_vrplib.py:54-59 | the depots exist exactly for non-empty equal rows of one numeric value; they are every row but the last, made zero-based |
| CvrplibParseVrplib.ArrayField | cvrplib/parse/parse_vrplib.py:62-66 | any other section becomes an array exactly when its rows have equal length |
| CvrplibParseVrplib.StoreSections | cvrplib/parse/parse_vrplib.py:51-66 | the loop over the sections gives exactly the fold that stores each under its lower-cased name, from the specifications |
| CvrplibParseVrplib.ParseVrplib | cvrplib/parse/parse_vrplib.py:14-73 | the scan, the section loop and the distances give exactly the parsed instance of the text |
| CvrplibParseVrplib.SectionsFail | cvrplib/parse/parse_vrplib.py:51-66 | the sections all turn into entries exactly when none fails, and otherwise the first failure is the error |
| CvrplibParseVrplib.SectionKeys | cvrplib/parse/parse_vrplib.py:51-66 | the keys are exactly the specification keys and the lower-cased section names |
| CvrplibParseVrplib.SectionLastWins | cvrplib/parse/parse_vrplib.py:52-66 | the last section with a lower-cased name decides that entry |
| CvrplibParseVrplib.SpecsKept | cvrplib/parse/parse_vrplib.py:51-66 | a specification no section name shadows keeps its value |
| CvrplibParseVrplib.ParsedHasDistance | cvrplib/parse/parse_vrplib.py:70-71 | parsing succeeds exactly when the sections and the distances do; the result is the collected instance with its "distance" entry added and nothing else changed |
| CvrplibParseVrplib.MissingEdgeWeightType | cvrplib/parse/parse_vrplib.py:70 | without an EDGE_WEIGHT_TYPE before "EOF" parsing fails, because the distances look the key up unconditionally |
| CvrplibParseVrplib.DepotValuesBeforeTerminator | vrplib/parse/parse_vrplib.py:120-123 | values with the -1 terminator last and only there give every value before it, made zero-based |
| CvrplibParseVrplib.DepotAgrees | cvrplib/parse/parse_vrplib.py:54-59 | on a depot section as the format writes it, one index per row and -1 last and only there, this parser gives the same depots as the current one |
| CvrplibParseVrplib.ArrayFieldAgrees | cvrplib/parse/parse_vrplib.py:62-66 | on equal rows this parser's array of the rows without their index is the current parser's section data |
| CvrplibParseVrplib.LastHeaderIsHeader | cvrplib/parse/parse_vrplib.py:41 | the open section is named by some header line |
| CvrplibParseVrplib.RowsForHeader | cvrplib/parse/parse_vrplib.py:49 | a name with rows filed under it is the name of some header |
| CvrplibParseSolution.IntTokens | cvrplib/parse/parse_solution.py:27 | int() of every token: the tokens read exactly when every one is an integer, each value is that token's integer, and otherwise ValueError |
| CvrplibParseSolution.RouteVisitsCases | cvrplib/parse/parse_solution.py:27 | a route line without a colon has no part after it, an IndexError; otherwise its route is read from the text between its first and second colon |
| CvrplibParseSolution.ParseSolution | cvrplib/parse/parse_solution.py:8-36 | the loop over the cleaned lines, starting from an empty routes list, gives exactly the line-by-line fold of the text |
| CvrplibParseSolution.ReadLine | cvrplib/parse/parse_solution.py:26-34 | one pass of the loop body: a route line appends its route, a line with a colon or space sets its key, and anything else is skipped |
| CvrplibParseSolution.SolutionNext | cvrplib/parse/parse_solution.py:25 | the solution after one more line is that line's step from the solution before it |
| CvrplibParseSolution.RoutesInOrder | cvrplib/parse/parse_solution.py:23-28 | the routes start empty and each route line adds one route at the end, so the routes are those of the route lines, in file order |
| CvrplibParseSolution.UnreadableRouteFails | cvrplib/parse/parse_solution.py:27 | a route line that does not read fails the whole parse with its error, a ValueError when it has a colon |
| CvrplibParseSolution.SkippedLine | cvrplib/parse/parse_solution.py:33-34 | a line with no "Route", colon or space leaves the solution unchanged |
| CvrplibParseSolution.MetaStep | cvrplib/parse/parse_solution.py:29-32 | a metadata line stores its typed value under its lower-cased key |
| CvrplibParseSolution.LastMetaWins | cvrplib/parse/parse_solution.py:29-32 | the last metadata line with a key decides that key's value in the result |
| CvrplibParseSolution.StepKeeps | cvrplib/parse/parse_solution.py:26-34 | a line that succeeds leaves the metadata under every other key as it was |
| CvrplibParseSolution.RouteOfLine | cvrplib/parse/parse_solution.py:27 | for "head: n1 n2 ..." with single spaces and no colon in the head, the tokens after the colon are exactly n1, n2, ... |
| CvrplibParseSolution.SpacedTokens | cvrplib/parse/parse_solution.py:27 | splitting " n1 n2 ..." at spaces and dropping empty pieces gives exactly the words |
| CvrplibParseSolution.RouteVisitsOfLine | cvrplib/parse/parse_solution.py:27 | the route of "head: n1 n2 ..." is the words read by int(), or ValueError when one is not an integer |
| CvrplibWriteInstance.Shown | cvrplib/write/write_instance.py:67 | `str` of each value of a row, in order |
| CvrplibWriteInstance.NumberedLines | cvrplib/write/write_instance.py:61-68 | one line per row numbered from 1: "idx\tvalue" for a list, "idx\t" and the tab-joined values for a table |
| CvrplibWriteInstance.WriteInstance | cvrplib/write/write_instance.py:35-43 | each entry written in mapping order, each line followed by a line break, then "EOF", unless an entry raises, which stops the writing where it is |
| CvrplibWriteInstance.WriteEntry | cvrplib/write/write_instance.py:37-41 | a list goes to the section writer under the upper-cased key; any other value is the line "KEY : value" |
| CvrplibWriteInstance.WriteSection | cvrplib/write/write_instance.py:46-68 | EDGE_WEIGHT and DEPOT have writers of their own; any other list is its header then its numbered rows |
| CvrplibWriteInstance.WriteLines | cvrplib/write/write_instance.py:64 | writing lines one at a time after a text leaves the text of all the lines |
| CvrplibWriteInstance.WriteEdgeWeightSection | cvrplib/write/write_instance.py:71-79 | the header, then each row tab-joined and without an index, stopping at a row that cannot be iterated |
| CvrplibWriteInstance.WriteDepotSection | cvrplib/write/write_instance.py:82-92 | the header, each depot plus one on a line of its own, then "-1", stopping at a value that cannot be added to |
| CvrplibWriteInstance.WriteEmitted | cvrplib/write/write_instance.py:77-79 | the loop over a section's values writes each value's lines in order until one fails, and reports that failure |
| CvrplibWriteInstance.WrittenOk | cvrplib/write/write_instance.py:36-41 | the loop ends without error exactly when every entry is written without one, and an error is some entry's own |
| CvrplibWriteInstance.SectionLinesFail | cvrplib/write/write_instance.py:46-92 | a section fails exactly when its list is not writable (an EDGE_WEIGHT list of numbers, a DEPOT list of strings or of rows, rows of different lengths), and then with TypeError or numpy's inhomogeneous-shape ValueError |
| CvrplibWriteInstance.InstanceTextError | cvrplib/write/write_instance.py:35-43 | writing raises exactly when some list is not writable under its upper-cased key, with one of those two errors |
| CvrplibWriteInstance.InstanceEndsWithEof | cvrplib/write/write_instance.py:43 | a file written without error ends with the line "EOF" |
| CvrplibWriteInstance.WrittenInOrder | cvrplib/write/write_instance.py:36-41 | with every list writable the file's lines are the entries' lines one after another, in mapping order |
| CvrplibWriteInstance.WrittenLines | cvrplib/write/write_instance.py:35-43 | writable entries whose lines are given are written as those lines one entry after another, then "EOF", without error |
| CvrplibWriteInstance.LowerUpper | cvrplib/write/write_instance.py:40 | lower-casing an upper-cased key equals lower-casing the key, so a key's case is lost on the way back |
| CvrplibWriteInstance.ScalarLineRead | cvrplib/write/write_instance.py:40 | a value's line "KEY : value" is read by the current parser as the lower-cased key and that same value |
| CvrplibWriteInstance.SpecLineSplit | vrplib/parse/parse_vrplib.py:99-105 | "k : t" with a plain key parses to the lower-cased key and the typed, stripped value |
| CvrplibWriteInstance.ScalarLineClassified | cvrplib/parse/parse_vrplib.py:37-39 | the same line is a specification to the earlier scan, with the lower-cased key and the same value |
| CvrplibWriteInstance.SpecLineScanned | cvrplib/parse/parse_vrplib.py:37-39 | the earlier scan splits "k : t" at its first ": " into the lower-cased key and the typed value |
| CvrplibWriteInstance.ColonPosition | cvrplib/parse/parse_vrplib.py:38 | a line whose only colon is followed by a space has its first ": " there |
| CvrplibWriteInstance.Depots | cvrplib/write/write_instance.py:89 | the depots as integer values, one for one |
| CvrplibWriteInstance.DepotBlock | cvrplib/write/write_instance.py:82-92 | integer depots are written as the header, each depot plus one, then "-1", without an error |
| CvrplibWriteInstance.DepotTexts | cvrplib/write/write_instance.py:90 | each depot plus one, as text |
| CvrplibWriteInstance.IntLineRow | vrplib/parse/parse_vrplib.py:115 | a line holding one integer reads as a row of that integer |
| CvrplibWriteInstance.DepotReadBack | cvrplib/write/write_instance.py:82-92 | round trip: the depot block of non-negative depots reads back as the same depots in both parsers |
| CvrplibWriteInstance.DepotRows | cvrplib/write/write_instance.py:89-92 | the rows of the depot block: each depot plus one, then the -1 terminator |
| CvrplibWriteInstance.DepotLinesRows | vrplib/parse/parse_vrplib.py:115 | the depot lines are read as those rows |
| CvrplibWriteInstance.TerminatorRow | cvrplib/write/write_instance.py:92 | the "-1" line reads as -1 |
| CvrplibWriteInstance.DepotRowsRead | cvrplib/parse/parse_vrplib.py:54-59 | both parsers turn those rows back into the depots |
| CvrplibWriteInstance.RowLineRead | cvrplib/write/write_instance.py:66-68 | a numbered table row reads back as its number followed by its values |
| CvrplibWriteInstance.ItemLineRead | cvrplib/write/write_instance.py:62-64 | a numbered list item reads back as its number followed by the item |
| CvrplibWriteInstance.ItemsReadBack | cvrplib/write/write_instance.py:58-64 | round trip: any other one-dimensional section reads back as the same list in both parsers |
| CvrplibWriteInstance.ItemsAsColumn | cvrplib/write/write_instance.py:61-68 | a list is written exactly as the table of its one-value rows |
| CvrplibWriteInstance.TableReadBack | cvrplib/write/write_instance.py:58-68 | round trip: table rows of two or more values read back as the table, rows of one value are squeezed to a list, and both parsers agree |
| CvrplibWriteInstance.TabRowRead | cvrplib/write/write_instance.py:78 | a tab-joined row reads back as that row |
| CvrplibWriteInstance.EdgeWeightReadBack | cvrplib/write/write_instance.py:71-79 | round trip: an EDGE_WEIGHT table has no index column, so the rows read back value for value |
| CvrplibWriteInstance.C101Text | tests/write/test_write_instance.py:11-49 | the C101 mapping is written as the expected file text |
| CvrplibWriteInstance.C101Lines | tests/write/test_write_instance.py:27-46 | the written text is the four specification lines, the two numbered sections and "EOF" |
| CvrplibWriteInstance.C101Writable | tests/write/test_write_instance.py:16-23 | every value of the C101 mapping is writable |
| CvrplibWriteInstance.C101Name | tests/write/test_write_instance.py:17 | the name entry gives the line "NAME : C101" |
| CvrplibWriteInstance.C101Type | tests/write/test_write_instance.py:18 | the type entry gives the line "TYPE : VRPTW" |
| CvrplibWriteInstance.C101Dimension | tests/write/test_write_instance.py:19 | the dimension entry gives the line "DIMENSION : 101" |
| CvrplibWriteInstance.C101Capacity | tests/write/test_write_instance.py:20 | the capacity entry gives the line "CAPACITY : 200" |
| CvrplibWriteInstance.C101Coords | tests/write/test_write_instance.py:33-37 | the coordinates give the NODE_COORD_SECTION block |
| CvrplibWriteInstance.C101Demands | tests/write/test_write_instance.py:38-42 | the demands give the DEMAND_SECTION block |
| CvrplibWriteSolution.Shown | cvrplib/write/write_solution.py:23 | `str` of each visit of a route, in order |
| CvrplibWriteSolution.RouteLines | cvrplib/write/write_solution.py:22-24 | route k is written on line k - 1 as "Route #k: " and its visits joined by spaces |
| CvrplibWriteSolution.WriteSolution | cvrplib/write/write_solution.py:21-28 | the text written is the route lines, then one "key: value" line per keyword argument, each followed by a line break |
| CvrplibWriteSolution.WriteRoutes | cvrplib/write/write_solution.py:22-24 | the route loop writes exactly the route lines, numbered from 1 |
| CvrplibWriteSolution.SolutionLinesLayout | cvrplib/write/write_solution.py:21-28 | one line per route in order and numbered from 1, then one line per keyword argument in order, and nothing else: no section and no "EOF" |
| CvrplibWriteSolution.Values | cvrplib/parse/parse_solution.py:27 | a route as the reader types it, visit for visit |
| CvrplibWriteSolution.IntWord | cvrplib/write/write_solution.py:23 | a printed visit is one word without space, colon or line break, and int() reads it back |
| CvrplibWriteSolution.ShownWords | cvrplib/write/write_solution.py:23 | the printed visits are words that int() reads back as the route |
| CvrplibWriteSolution.RouteHeadChars | cvrplib/write/write_solution.py:23 | "Route #idx" contains "Route" and no colon, so the reader takes the line as a route line |
| CvrplibWriteSolution.RouteLineRead | cvrplib/write/write_solution.py:23 | a written route line, stripped as the reader does, is a route line that reads back as exactly the route; an empty route loses its trailing space and reads as no visit |
| CvrplibWriteSolution.RouteLineChars | cvrplib/write/write_solution.py:23 | the line is the head, a colon, a space and the space-joined visits, with no line break |
| CvrplibWriteSolution.EmptyRouteLineRead | cvrplib/write/write_solution.py:23 | an empty route's line strips to "Route #idx:", which reads as no visit |
| CvrplibWriteSolution.FullRouteLineRead | cvrplib/write/write_solution.py:23 | a non-empty route's line is already stripped and reads as the route |
| CvrplibWriteSolution.CleanRouteLines | cvrplib/write/write_solution.py:22-24 | no route line holds a line break or is blank |
| CvrplibWriteSolution.WrittenRouteLines | cvrplib/write/write_solution.py:22-24 | the reader sees each written route line as that route and never as metadata |
| CvrplibWriteSolution.WrittenMetaLines | cvrplib/write/write_solution.py:26-28 | each keyword line is metadata under its read key |
| CvrplibWriteSolution.CleanMetaLines | cvrplib/write/write_solution.py:26-28 | each keyword line is stripped, not blank and free of line breaks |
| CvrplibWriteSolution.WrittenSolutionReadBack | cvrplib/write/write_solution.py:21-28 | round trip with the earlier reader: the file reads as exactly the routes and, under each argument's lower-cased key, its value, for arguments that read back as themselves with distinct keys other than "routes" |
| CvrplibWriteSolution.ReadBackOf | cvrplib/parse/parse_solution.py:23-36 | route lines listing values, then metadata lines with distinct keys, read as those routes and each line's value |
| CvrplibWriteSolution.ReadLines | cvrplib/parse/parse_utils.py:30-34 | the reader's line split of the written text gives each route line stripped and each keyword line as written |
| CvrplibWriteSolution.ReadKwargs | cvrplib/parse/parse_solution.py:29-32 | trailing metadata lines with distinct keys each decide their key's value |
| CvrplibWriteSolution.ReadKwarg | cvrplib/parse/parse_solution.py:29-32 | one trailing metadata line decides its key's value |
| CvrplibWriteSolution.ReadRoutes | cvrplib/parse/parse_solution.py:23-28 | the route lines before the metadata lines give the routes, in order |
| CvrplibWriteSolution.LineKinds | cvrplib/parse/parse_solution.py:26-32 | every line of such a file is readable, the first ones are routes and the rest are metadata not keyed "routes" |
| CvrplibReadParseVrplib.LastEntry | cvrplib/read/parse_vrplib.py:37-40 | the last of the lines so far whose entry has a given key: no later line has that key, and without one no line does |
| CvrplibReadParseVrplib.ParseSpecifications | cvrplib/read/parse_vrplib.py:30-42 | the loop over every line, none ending it, gives exactly the dictionary of the lines holding ": " |
| CvrplibReadParseVrplib.SpecificationsLastWins | cvrplib/read/parse_vrplib.py:37-40 | the keys are exactly those of the lines with an entry, and each holds the value of the last such line |
| CvrplibReadParseVrplib.SpecLineRead | cvrplib/read/parse_vrplib.py:38-40 | "KEY : text" with a plain key gives the lower-cased key; the value is an integer exactly when the stripped text is digits, and otherwise that text |
| CvrplibReadParseVrplib.TypedRow | cvrplib/read/parse_vrplib.py:61 | every word of a row read by `_int_or_float`: the row converts exactly when every word does, value for value, and otherwise the first word that fails gives the error |
| CvrplibReadParseVrplib.TypedRowNumeric | cvrplib/read/parse_vrplib.py:176-178 | a converted row holds numbers only |
| CvrplibReadParseVrplib.StopFrom | cvrplib/read/parse_vrplib.py:53-58 | the first stop line from an index on, or the end of the lines: no line before it stops |
| CvrplibReadParseVrplib.Stop | cvrplib/read/parse_vrplib.py:57-58 | the scan stops within the lines |
| CvrplibReadParseVrplib.StopAt | cvrplib/read/parse_vrplib.py:57-58 | up to the stop, a line stops the scan exactly when it is at the stop position |
| CvrplibReadParseVrplib.ScanSections | cvrplib/read/parse_vrplib.py:50-67 | the scan loop with its break at the first "EOF" line that is no header gives exactly the fold of the line step over the lines before it |
| CvrplibReadParseVrplib.ScanAt | cvrplib/read/parse_vrplib.py:53-67 | one turn of the loop: the stop line ends it, any other line takes one step, and a row that fails to convert fails the whole scan |
| CvrplibReadParseVrplib.ScanLine | cvrplib/read/parse_vrplib.py:54-67 | the loop body: a header opens its section, a line before any header is skipped, and a row is converted and filed without its index unless the section is EDGE_WEIGHT or DEPOT |
| CvrplibReadParseVrplib.RowsConvertEach | cvrplib/read/parse_vrplib.py:60-61 | every line that follows some header converts |
| CvrplibReadParseVrplib.SectionsAsScanned | cvrplib/read/parse_vrplib.py:53-67 | the scan fails exactly when a row under some header cannot be converted; otherwise it is the earlier parser's scan of the same lines |
| CvrplibReadParseVrplib.ScanAgreesStep | cvrplib/read/parse_vrplib.py:53-67 | the agreement with the earlier scan carries over one more line |
| CvrplibReadParseVrplib.StepAgrees | cvrplib/read/parse_vrplib.py:54-67 | one line's step succeeds exactly when the line is a header, comes before any header or converts, and then agrees with the earlier parser's step |
| CvrplibReadParseVrplib.SectionsCollect | cvrplib/read/parse_vrplib.py:50-67 | the open section is the last header's, and the rows under each name are those following a header of that name, in order, over every header that repeats it; rows before the first header are dropped and names are distinct |
| CvrplibReadParseVrplib.DecrementRow | cvrplib/read/parse_vrplib.py:76 | every value of a row made zero-based |
| CvrplibReadParseVrplib.StoreSections | cvrplib/read/parse_vrplib.py:69-86 | the loop over the sections gives exactly the fold that stores each under its lower-cased name |
| CvrplibReadParseVrplib.ParseSections | cvrplib/read/parse_vrplib.py:45-86 | the scan and then the storing loop give exactly the section data of the lines |
| CvrplibReadParseVrplib.DepotTableEntries | cvrplib/read/parse_vrplib.py:74-77 | numeric depot rows store exactly when they have one length; then every row but the last is made zero-based value by value and the last (the terminator) is kept |
| CvrplibReadParseVrplib.StoreSectionsFail | cvrplib/read/parse_vrplib.py:71-84 | the sections all store exactly when none of their entries fails, and otherwise the error is that of a failing section |
| CvrplibReadParseVrplib.StoreSectionsLastWins | cvrplib/read/parse_vrplib.py:71-84 | the keys are exactly the lower-cased section names, and the last section with a name decides its entry |
| CvrplibReadParseVrplib.Coordinates | cvrplib/read/parse_vrplib.py:99-106 | the coordinates of a table are one per row |
| CvrplibReadParseVrplib.ParseVrplib | cvrplib/read/parse_vrplib.py:14-27 | the specifications, updated by the sections, then by the distances when there are any, give exactly the parsed instance |
| CvrplibReadParseVrplib.DistancesSilent | cvrplib/read/parse_vrplib.py:98-122 | existing distances are kept; a missing edge_weight_type is a KeyError; an unknown type, or an EXPLICIT format other than LOWER_ROW, gives no distances and no error |
| CvrplibReadParseVrplib.EuclidProperties | cvrplib/read/parse_vrplib.py:99-106 | the "2D" types give a square, symmetric matrix of the coordinates with integer zero on the diagonal, whose other entries are the distance rounded half to even (EUC_2D), floored (FLOOR_2D) or kept (EXACT_2D) |
| CvrplibReadParseVrplib.LowerRowProperties | cvrplib/read/parse_vrplib.py:108-173 | LOWER_ROW with dimension n: with n - 1 rows entry (i, j), j < i, is row i - 1's value j; otherwise the values fill (1, 0), (2, 0), (2, 1), ... in order; either matrix is square, symmetric and zero on the diagonal, and fails exactly when the values run short |
| CvrplibReadParseVrplib.ParsedMerges | cvrplib/read/parse_vrplib.py:21-25 | parsing succeeds exactly when the sections and the distances do; sections overwrite specifications, "distances" is added exactly when a matrix was made, and every other entry is the merged one |
| Text.Strip | vrplib/parse/parse_utils.py:9 | `str.strip()`: the result has no whitespace character at either end and is never longer than the input |
| Text.StripSlice | vrplib/parse/parse_utils.py:9 | the stripped text is a contiguous piece of the original, and every character cut off before or after it is whitespace |
| Text.StripIdempotent | vrplib/parse/parse_utils.py:9 | stripping twice is stripping once |
| Text.SplitLines | vrplib/parse/parse_utils.py:8 | `str.splitlines()`: no line holds a line break, and "\r\n" is one boundary |
| Text.SplitLinesOfUnlines | vrplib/parse/parse_utils.py:8 | lines without line breaks, each followed by "\n", split back into the same lines |
| Text.Words | vrplib/parse/parse_vrplib.py:115 | `str.split()` with no argument: the words are non-empty and hold no blank |
| Text.WordsOfJoin | vrplib/parse/parse_vrplib.py:115 | words joined by a single blank split back into the same words |
| Text.SplitChar | vrplib/parse/parse_solution.py:32 | `str.split(c)`: there is always at least one part |
| Text.SplitCharJoin | vrplib/parse/parse_solution.py:32 | parts free of the separator, joined by it, split back into the same parts |
| Text.SplitOnce | vrplib/parse/parse_solution.py:37 | `str.split(c, 1)`: two parts exactly when c occurs, the first free of c |
| Text.SplitOnceJoin | vrplib/parse/parse_solution.py:37 | the two parts with the separator between them give the string back |
| Text.SplitOnceOf | vrplib/parse/parse_solution.py:37 | the split is at the first separator |
| Text.Find | cvrplib/parse/parse_vrplib.py:38 | the first position where a pattern matches, or the length when none does: no earlier position matches |
| Text.FindContains | cvrplib/parse/parse_vrplib.py:38 | the `in` test on a non-empty pattern holds exactly when the search finds it |
| Text.RemoveSuffix | vrplib/parse/parse_vrplib.py:114 | `str.removesuffix`: the suffix is cut exactly when the text ends with it, and the text is kept otherwise |
| Text.RemoveSuffixJoin | vrplib/parse/parse_vrplib.py:114 | the removed suffix put back gives the text again |
| Text.Lower | vrplib/parse/parse_vrplib.py:105 | `str.lower()` on ASCII: character by character, letters A to Z lowered, every other character kept |
| Text.Upper | cvrplib/write/write_instance.py:38 | `str.upper()` on ASCII: character by character, letters a to z raised, every other character kept |
| VrplibParseSolution.RouteIntoMeta | vrplib/parse/parse_solution.py:31-34 | a route line with a colon, once "routes" holds a metadata value, fails with AttributeError: there is no list to append to |
| VrplibParseSolution.MetaStaysUntilRoute | vrplib/parse/parse_solution.py:35-38 | a metadata value under "routes" stays one until a route line comes |
| VrplibParseSolution.NonRouteKeepsMeta | vrplib/parse/parse_solution.py:35-40 | a line that is not a route line keeps a metadata "routes" entry a metadata value |
| VrplibGroup.GroupSpec | vrplib/parse/parse_vrplib.py:59-96 | the corrected grouping: the first error before the "EOF" line, or the specification lines and the blocks of each header up to the next header or "EOF"; GroupSpecificationsAndSections and the grouping lemmas state its properties |
| VrplibGroup.GroupAsWritten | vrplib/parse/parse_vrplib.py:59-96 | the grouping as the code is written, with each block starting at the first copy of its header line (`lines.index`); GroupAsWrittenAgrees relates it to GroupSpec |
| VrplibGroup.GroupAsWrittenAgrees | vrplib/parse/parse_vrplib.py:77 | when no header line before "EOF" repeats, the grouping as written and the corrected grouping give the same result, error or blocks |
| VrplibGroup.RepeatedHeaderStrays | vrplib/parse/parse_vrplib.py:77 | for `A_SECTION`, `1`, `A_SECTION`, `2`, `EOF` the code as written files the first block twice, and the row `2` is then a stray line that raises RuntimeError |
| VrplibGroup.RepeatedHeaderTwoBlocks | vrplib/parse/parse_vrplib.py:59-96 | on the same lines the corrected grouping gives no specifications and the two blocks `A_SECTION`, `1` and `A_SECTION`, `2` |
| VrplibParseVrplib.VrplibInstance | vrplib/parse/parse_vrplib.py:11-56 | the instance of a text on the corrected grouping: specifications, then sections, then the computed edge weights; ParseVrplib is proved equal to it |
| VrplibParseVrplib.VrplibInstanceAsWritten | vrplib/parse/parse_vrplib.py:11-56 | the same steps applied to the grouping as the code is written |
| VrplibParseVrplib.ParseVrplibAgrees | vrplib/parse/parse_vrplib.py:36-77 | when no header line before "EOF" repeats, the parser on the corrected grouping and the parser as written give the same instance or the same error |
| VrplibParseDistances.ParseDistances | vrplib/parse/parse_distances.py:7-72 | `parse_distances`: the edge weight kind chosen from the type and format, then the full matrix as given, the computed matrix of that kind, or the unknown-type error; ParseDistancesErrors and KindMatrixSymmetric state its properties |
| VrplibParseDistances.IsTriangularNumber | vrplib/parse/parse_distances.py:143-148 | `is_triangular_number`: the integer square root test, failing for a negative argument; IsTriangularNumberIff states what it decides |
| CvrplibParseDistances.ParseDistances | cvrplib/parse/parse_distances.py:9-62 | the earlier `parse_distances`: the type lookups in order, then the Euclidean matrix or the triangular or flattened lower-row matrix, read from a table or from the characters of a string; ParseDistancesErrors, Euclidean2DProperties, LowerRowDistancesProperties, StringTriangular and StringFlattened state its properties |
| LowerTriangle.TriangularMatrix | cvrplib/parse/parse_distances.py:110-122 | the triangular reading: the first failing cell read, or the mirrored matrix of the triangle's cells with zero on the diagonal; TriangularMatrixProperties states its properties |
| LowerTriangle.FlattenedMatrix | cvrplib/parse/parse_distances.py:125-142 | the flattened reading: the first failing value read, or the mirrored matrix filled in pair order with zero on the diagonal; FlattenedMatrixProperties states its properties |
| DownloadUtils.FindSet | vrplib/download/download_utils.py:6-35 | `find_set`: the VRPTW test, then XXL, DIMACS and the first CVRP set that is a prefix, else an error; VrptwNames and OtherNames state its cases |
| VrplibParseSolomon.SolomonOf | vrplib/parse/parse_solomon.py:11-41 | the Solomon instance of a text: the preamble check, the vehicle line, the customer table read by `np.genfromtxt` (a parameter), then the instance built from the name, the vehicles and the table's columns; ParseSolomon is proved equal to it |
| CvrplibReadParseVrplib.DepotTable | cvrplib/read/parse_vrplib.py:74-77 | the depot array: ragged rows are a ValueError and a string in any row, the terminator's included, a TypeError; otherwise every row but the last made zero-based, the last kept as read; DepotTableEntries states its properties |
| CvrplibReadParseVrplib.Distances | cvrplib/read/parse_vrplib.py:89-122 | the earlier reader's distances: none when present, a KeyError without a type, the "2D" matrices, LOWER_ROW, or none; DistancesSilent, EuclidProperties and LowerRowProperties state its properties |
| CvrplibReadParseVrplib.LowerRow | cvrplib/read/parse_vrplib.py:108-173 | LOWER_ROW: the triangular reading when the rows number n - 1, otherwise the flattened one; LowerRowProperties, StringTriangle and StringFlattened state its properties |
| CvrplibReadParseVrplib.StringTriangle | cvrplib/read/parse_vrplib.py:134-152 | an edge weight string is read as a list of characters: with n - 1 characters the triangular reading succeeds exactly for fewer than two of them, and otherwise fails with IndexError |
| CvrplibReadParseVrplib.StringFlattened | cvrplib/read/parse_vrplib.py:155-173 | with any other count the flattened reading succeeds exactly when the string has n (n - 1) / 2 characters or more, and then stores character q of the string for the pair at position q |
| CvrplibReadParseVrplib.Parsed | cvrplib/read/parse_vrplib.py:14-27 | the earlier reader's instance: the specifications from every line, overwritten by the sections, then the distances; ParsedMerges states its properties |
| VrplibWriteInstance.InstanceText | vrplib/write/write_instance.py:7-52 | the text the writer produces: every entry's lines in order and "EOF", or the lines up to the entry that raised; WriteInstance is proved equal to it |
| CvrplibWriteInstance.InstanceText | cvrplib/write/write_instance.py:6-43 | the text the earlier writer produces, with the same shape; WriteInstance is proved equal to it |
| CvrplibParseSolution.SolutionFor | cvrplib/parse/parse_solution.py:8-36 | the solution of a text: the fold of the line step over the cleaned lines; ParseSolution is proved equal to it |
| VrplibParseSolution.SolutionOfText | vrplib/parse/parse_solution.py:8-42 | the solution of a text: the fold of the line step over the cleaned lines from `{"routes": []}`; ParseSolution is proved equal to it |
| VrplibParseDistances.LowerRowSpecs | vrplib/parse/parse_distances.py:60-67 | with EDGE_WEIGHT_TYPE EXPLICIT and EDGE_WEIGHT_FORMAT LOWER_ROW, the `"Eilon" in comment` test alone chooses between the Eilon and the lower-row reading |
| VrplibParseDistances.RaggedCommentExample | vrplib/parse/parse_distances.py:64 | a ragged comment section, kept as a nested list, never mentions Eilon, even with a row holding the word: the lower-row reading is chosen |
| VrplibParseDistances.ArrayCommentExample | vrplib/parse/parse_distances.py:64 | a comment section of equal rows is an array, searched element by element: holding the word selects the Eilon reading |
| CvrplibParseDistances.ExplicitDistances | cvrplib/parse/parse_distances.py:42-60 | for LOWER_ROW, a result is a square table of floats, symmetric and zero on the diagonal, and it exists exactly when the dimension is a single value and the lower-row reading of the edge weights succeeds |
| CvrplibParseDistances.LowerRowField | cvrplib/parse/parse_distances.py:47-55 | the LOWER_ROW edge weights as Python iterates them: a table's rows, or a string's characters one per row; any other value raises TypeError; a result is symmetric with zero diagonal |
| CvrplibParseDistances.LowerRowSymmetric | cvrplib/parse/parse_distances.py:47-55 | for any dimension value, the triangular or flattened reading gives a square symmetric matrix with zero diagonal |
| CvrplibParseDistances.StoreChar | cvrplib/parse/parse_distances.py:119 | storing one character of a string into a numpy float array succeeds exactly for a digit, stores its value, and otherwise raises numpy's ValueError |
| CvrplibParseDistances.CharFloat | cvrplib/parse/parse_distances.py:119 | `float()` of a one-character string succeeds exactly for a digit and gives its value |
| CvrplibParseDistances.Characters | cvrplib/parse/parse_distances.py:118 | a string iterated as rows: one row per character, holding that character |
| CvrplibParseDistances.CharactersFlatten | cvrplib/parse/parse_distances.py:134 | flattening the character rows of a string gives the string back |
| CvrplibParseDistances.StringTriangular | cvrplib/parse/parse_distances.py:110-120 | a string edge weight of n - 1 characters succeeds exactly when it has at most one character and that is a digit, and then entry (i, 0) is the digit at position i - 1; every failure is IndexError or numpy's ValueError |
| CvrplibParseDistances.StringFlattened | cvrplib/parse/parse_distances.py:125-140 | a string edge weight of any other length succeeds exactly when its first n (n - 1) / 2 characters exist and are digits, and then entry (i, j) is the digit at the pair's position; every failure is IndexError, numpy's ValueError or a negative dimension |
| CvrplibParseDistances.StringWeightExample | cvrplib/parse/parse_distances.py:132-140 | `EDGE_WEIGHT : 5a` with dimension 2 is read flattened and gives [[0, 5], [5, 0]] |
| CvrplibParseDistances.StringWeightErrorExample | cvrplib/parse/parse_distances.py:132-140 | `EDGE_WEIGHT : 5a` with dimension 3 reaches the 'a' and raises numpy's ValueError |

## Left out

- File and network I/O: `open`, `read_*` and the download functions are not part of this model. Writers return the file text; parsers take the text or its lines.
- Floating point: floats are exact reals. `math.sqrt`/`np.sqrt` is a parameter `sqrt: real -> real`. Only the structure of distance matrices is proved: the shape, symmetry, zero diagonal and which rounding applies. Squared distances, `floor`, and `round` (half to even) are concrete.
- Tokens.ParseFloat: accepts only an optional sign, digits and an optional fraction, so exponents, `inf`, `nan` and underscores are not modelled.
- Tokens.ParseInt: accepts ASCII digits only, so underscores and non-ASCII digits are not modelled. `str.isnumeric` and `str.isdigit` are likewise ASCII digits.
- Text.Lower: lower-cases ASCII letters only, so no Unicode case mapping is modelled.
- Text.Upper: raises ASCII letters only, so no Unicode case mapping is modelled.
- CvrplibParseDistances.LowerRowField: a one-dimensional list under `edge_weight` is a `TypeError`. The earlier parser always stores that section as a table, so such a list comes only from a caller. Python would accept an empty one, and would iterate the characters of strings inside one.
- Printing floats (`str(float)`, `f"{v}"`) is a parameter `fmt: real -> string` of the writers. Integers and strings are printed concretely. Round trips are stated for values whose printed form reads back (`ReadsBack`).
- numpy: `np.array` dtype promotion is not modelled in the parsers' stored values (values keep their token's type). Where the dtype decides an outcome it is modelled: VrplibWriteInstance.ArrayDtype gives the printed type of an array, and CvrplibParseVrplib.DepotField and CvrplibReadParseVrplib.DepotTable raise the TypeError of decrementing a string array. Nor are ndarray printing and broadcasting beyond the cases named in contracts, or `np.genfromtxt`. Tables are `seq<seq<Value>>`. `squeeze` and `reshape` are explicit.
- Integer width: Python integers are unbounded, and numpy's int64 overflow is not modelled.
- Error messages: errors carry the exception kind and, where the code distinguishes them, a reason. Interpolated text is not modelled.
- `cvrplib/parse/parse_vrplib.py` imports a `text2lines` that `cvrplib/parse/parse_utils.py` does not define. It is modelled as `strip_lines` over the lines of the text (`CvrplibParseUtils.Text2Lines`).
- `cvrplib/write/write_instance.py:36` iterates an undefined name `instance`. The model iterates the keyword mapping passed in, as evidently intended.
- `cvrplib/read/parse_vrplib.py` imports `euclidean` from a `utils` module that is not part of this model. The `euclidean` of `cvrplib/parse/parse_utils.py` is used in its place.
- VrplibGroup.GroupSpecificationsAndSections: proved equal to the corrected grouping (GroupSpec), not to the code as written. The two differ only when a header line repeats before `EOF`, because `lines.index` at `vrplib/parse/parse_vrplib.py:77` finds the header's first copy. The code as written is modelled as GroupAsWritten, and GroupAsWrittenAgrees proves the two equal whenever no header repeats. When one does, the code may accept a specification after a section (see "## Findings"). It may also raise RuntimeError where the corrected grouping keeps two blocks: for `A_SECTION`, `1`, `A_SECTION`, `2`, `EOF` see RepeatedHeaderStrays and RepeatedHeaderTwoBlocks.
- VrplibParseVrplib.ParseVrplib: proved equal to the parse on the corrected grouping (VrplibInstance). ParseVrplibAgrees proves it equal to the parse as written (VrplibInstanceAsWritten) whenever no header line repeats before `EOF`. For `A_SECTION`, `1`, `A_SECTION`, `2`, `EOF` the code as written raises RuntimeError. The model instead reads two sections named `a`, and the second one fails with the name-clash ValueError.
- CvrplibReadParseVrplib.Coordinates: strings and one-dimensional coordinate lists are approximated. They pass only when no pair of points has to be subtracted.
- VrplibParseDistances.EdgeWeightKind: an `edge_weight_type` that is not a single string is modelled as a `TypeError` (CvrplibParseDistances.ParseDistances likewise). For a number that is what the `"2D" in` test raises. For a list, Python would instead fall through to the unknown-type `ValueError`.
- `tests/parse/test_parse_vrplib.py:135-149` expects a `RuntimeError` for a depot section without `-1`. `vrplib/parse/parse_vrplib.py:120-123` only filters `-1` and never raises, and the model follows the code.
- Distance rounding: for `EUC_2D` the current parser returns unrounded distances, and for `EXACT_2D` it returns `np.round(1000 · d)` (half to even). Both differ from the nearest-integer rule of section 2 of TSPLIB 95, and the model follows the code.
- `vrplib/parse/parse_vrplib.py:53` and `:119` pass the instance as `**instance` to `parse_distances`. The model passes it as a map, and an entry named `data`, which would collide with the positional parameter, is the `TypeError` Python raises.
- Everything outside the named core is not part of this model. That covers instance listing, caching, the `pycvrplib` copies, the XML100 generator, `parse_durations` and deprecation warnings.

## Findings

| source | as written | input that shows it | evidently intended | confidence | as-written member | corrected member |
|---|---|---|---|---|---|---|
| vrplib/parse/parse_vrplib.py:77 | the end of a section block is searched from `lines.index(line)`, the first copy of the header line | `["A_SECTION", "A_SECTION", "K: V", "EOF"]` is accepted, with `K: V` taken as a specification | a specification after a section raises `ValueError` ("Specification presented after section") | not executed | VrplibGroup.RepeatedHeaderSkipsOrderCheck | VrplibGroup.RepeatedHeaderRejected |
