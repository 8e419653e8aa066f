/**
 * Edge weights of the earlier parser (cvrplib/parse/parse_distances.py): pairwise Euclidean
 * distances for the "2D" types, rounded as the type says, and a full matrix from explicit
 * LOWER_ROW data (triangular or flattened, told apart by the row count) or FULL_MATRIX data
 * (TSPLIB 95, section 2).
 */
module CvrplibParseDistances {
  import opened Wrappers
  import opened Text
  import opened Tokens
  import opened Instances
  import opened Geometry
  import opened LowerTriangle
  import opened CvrplibParseUtils
  import VrplibParseDistances

  const UnknownTypeMessage := "Edge weight type unknown."
  const UnknownFormatMessage := "Edge weight format unknown."
  const NegativeDimensions := "negative dimensions are not allowed"

  /** Storing a value in a numpy float array: numbers convert, a string that is not a number does not. */
  function StoreFloat(v: Value): (r: Result<real>)
    ensures r.Ok? <==> Numeric(v)
    ensures r.Ok? ==> r.value == Real(v)
  {
    if v.S? then Err(ValueError(VrplibParseDistances.NotFloat)) else Ok(Real(v))
  }

  /**
   * Storing one character of a string edge weight in a numpy float array: numpy converts it with
   * float(), which reads exactly the decimal digits.
   */
  function StoreChar(c: char): (r: Result<real>)
    ensures r.Ok? <==> IsDigit(c)
    ensures r.Ok? ==> r.value == DigitValue(c) as real
    ensures r.Err? ==> r.error == ValueError(VrplibParseDistances.NotFloat)
  {
    CharFloat(c);
    match ParseFloat([c])
    case Some(x) => Ok(x)
    case None => Err(ValueError(VrplibParseDistances.NotFloat))
  }

  /** float() of a one-character string succeeds exactly for a digit, and gives its value. */
  lemma CharFloat(c: char)
    ensures ParseFloat([c]).Some? <==> IsDigit(c)
    ensures IsDigit(c) ==> ParseFloat([c]) == Some(DigitValue(c) as real)
  {
    if IsSpace(c) {
      var a := StripSlice([c]);
      assert Strip([c]) == [];
      assert !IsDecimalBody([]) by { assert IntPart([]) == [] && FracPart([]) == []; }
    } else {
      assert IsStripped([c]);
      StripStripped([c]);
      if c == '.' {
        assert CharIndex([c], '.') == 0;
        assert IntPart([c]) == [] && FracPart([c]) == [];
      } else {
        assert CharIndex([c], '.') == 1 + CharIndex([], '.') == 1 by { assert [c][1..] == []; }
        assert IntPart([c]) == [c] && FracPart([c]) == [];
        if IsDigit(c) {
          assert DigitsValue([c]) == DigitValue(c) by { assert [c][..0] == []; }
        }
      }
      assert !IsDecimalBody([c][1..]) by { assert [c][1..] == []; assert IntPart([]) == [] && FracPart([]) == []; }
    }
  }

  /** A string edge weight as Python iterates it: one row per character, holding that character. */
  function Characters(text: string): (rows: seq<seq<char>>)
    ensures |rows| == |text|
    ensures forall i :: 0 <= i < |text| ==> rows[i] == [text[i]]
  {
    seq(|text|, i requires 0 <= i < |text| => [text[i]])
  }

  lemma MirroredReal(m: seq<seq<real>>)
    ensures Mirrored(m, 0.0) <==> SymmetricZeroDiagonal(m)
  {
  }

  // ----- pairwise_euclidean -----

  function Unrounded(x: real): real {
    x
  }

  /** pairwise_euclidean: entry (i, j) is the distance of rows i and j, the diagonal stays zero. */
  method PairwiseEuclidean(coords: seq<seq<real>>, sqrt: real -> real) returns (d: array2<real>)
    ensures d.Length0 == |coords| && d.Length1 == |coords|
    ensures forall a, b :: 0 <= a < |coords| && 0 <= b < |coords| ==>
      d[a, b] == if a == b then 0.0 else Dist(coords[a], coords[b], sqrt)
  {
    d := Euclidean(coords, Unrounded, 0.0, sqrt);
    EuclideanProperties(coords, Unrounded, 0.0, sqrt);
  }

  /**
   * The coordinate rows pairwise_euclidean subtracts: a numeric table, or a numeric array whose
   * entries are one-coordinate points. With fewer than two rows nothing is subtracted, so nothing
   * can fail; with two or more, strings or rows of different lengths cannot be subtracted. A
   * string specification has a `len` and is indexed character by character, so it passes only
   * when it has fewer than two characters; a number has no `len`.
   */
  function CoordinateRows(f: Field): (r: Result<seq<seq<real>>>)
    ensures r.Ok? && f.Table? ==> |r.value| == |f.rows|
    ensures r.Ok? && f.Vector? ==> |r.value| == |f.items|
    ensures f.Table? ==> (r.Ok? <==>
      |f.rows| < 2 || (Rectangular(f.rows) && forall i :: 0 <= i < |f.rows| ==> AllNumeric(f.rows[i])))
    ensures f.Vector? ==> (r.Ok? <==> |f.items| < 2 || AllNumeric(f.items))
    ensures f.Scalar? ==> (r.Ok? <==> f.v.S? && |f.v.s| < 2)
    ensures r.Ok? && f.Scalar? ==> |r.value| == |f.v.s|
  {
    match f
    case Table(rows) =>
      if |rows| >= 2 && (!Rectangular(rows) || exists i :: 0 <= i < |rows| && !AllNumeric(rows[i])) then Err(TypeError)
      else Ok(seq(|rows|, i requires 0 <= i < |rows| => if AllNumeric(rows[i]) then Reals(rows[i]) else []))
    case Vector(items) =>
      if |items| >= 2 && !AllNumeric(items) then Err(TypeError)
      else Ok(seq(|items|, i requires 0 <= i < |items| => if Numeric(items[i]) then [Real(items[i])] else []))
    case Scalar(S(text)) => if |text| >= 2 then Err(TypeError) else Ok(seq(|text|, i => []))
    case Scalar(_) => Err(TypeError)
  }

  /** np.round: to the nearest integer, ties to even, as a float. */
  function RoundReal(x: real): real {
    RoundHalfEven(x) as real
  }

  /** The matrix of a "2D" edge weight type: the rounding the type names, applied to every entry. */
  function Euclidean2D(t: string, inst: Instance, sqrt: real -> real): Result<seq<seq<real>>> {
    if "node_coord" !in inst then Err(KeyError("node_coord"))
    else match CoordinateRows(inst["node_coord"])
      case Err(e) => Err(e)
      case Ok(cs) =>
        var d := EuclideanMatrix(cs, Unrounded, 0.0, sqrt);
        if t == "EUC_2D" then Ok(VrplibParseDistances.MapMatrix(d, RoundReal))
        else if t == "FLOOR_2D" then Ok(VrplibParseDistances.MapMatrix(d, VrplibParseDistances.FloorReal))
        else if t == "EXACT_2D" then Ok(d)
        else Err(ValueError(UnknownTypeMessage))
  }

  // ----- get_representation, from_triangular, from_flattened -----

  datatype Representation = Triangular | Flattened

  /** get_representation: `len(edge_weights) == n - 1`; a string dimension cannot have 1 subtracted. */
  function GetRepresentation(count: nat, n: Value): (r: Result<Representation>)
    ensures r.Err? <==> n.S?
    ensures n.I? ==> r == Ok(if count == n.i - 1 then Triangular else Flattened)
    ensures n.F? ==> r == Ok(if count as real == n.r - 1.0 then Triangular else Flattened)
  {
    match n
    case I(k) => Ok(if count == k - 1 then Triangular else Flattened)
    case F(x) => Ok(if count as real == x - 1.0 then Triangular else Flattened)
    case S(_) => Err(TypeError)
  }

  /**
   * The LOWER_ROW branch: from_triangular on dimension - 1 rows, from_flattened otherwise, where
   * np.zeros((n, n)) refuses a negative and a fractional dimension.
   */
  function LowerRowDistances<T>(rows: seq<seq<T>>, dim: Value, store: T -> Result<real>): Result<seq<seq<real>>> {
    match GetRepresentation(|rows|, dim)
    case Err(e) => Err(e)
    case Ok(Triangular) => TriangularMatrix(rows, store, 0.0)
    case Ok(Flattened) =>
      match dim
      case I(n) => if n < 0 then Err(ValueError(NegativeDimensions)) else FlattenedMatrix(rows, n, store, 0.0)
      case _ => Err(TypeError)
  }

  /**
   * The LOWER_ROW edge weights: the rows of a table, each value stored as a float, or the
   * characters of a string, each a row of its own; any other value has no rows (TypeError).
   */
  function LowerRowField(weights: Field, dim: Value): (r: Result<seq<seq<real>>>)
    ensures r.Ok? ==> SymmetricZeroDiagonal(r.value)
    ensures weights.Vector? || (weights.Scalar? && !weights.v.S?) ==> r == Err(TypeError)
  {
    match weights
    case Table(rows) => LowerRowSymmetric(rows, dim, StoreFloat); LowerRowDistances(rows, dim, StoreFloat)
    case Scalar(S(text)) => LowerRowSymmetric(Characters(text), dim, StoreChar); LowerRowDistances(Characters(text), dim, StoreChar)
    case _ => Err(TypeError)
  }

  /** Either reading, for any dimension value, gives a symmetric matrix with zero diagonal. */
  lemma LowerRowSymmetric<T>(rows: seq<seq<T>>, dim: Value, store: T -> Result<real>)
    ensures LowerRowDistances(rows, dim, store).Ok? ==> SymmetricZeroDiagonal(LowerRowDistances(rows, dim, store).value)
  {
    if dim.I? {
      LowerRowDistancesProperties(rows, dim.i, store);
    } else if GetRepresentation(|rows|, dim) == Ok(Triangular) {
      TriangularMatrixProperties(rows, store, 0.0);
      if TriangularMatrix(rows, store, 0.0).Ok? {
        MirroredReal(TriangularMatrix(rows, store, 0.0).value);
      }
    }
  }

  /** A scalar specification: instance[key] fails when the key is missing. */
  function Spec(inst: Instance, key: string): Result<Field> {
    if key in inst then Ok(inst[key]) else Err(KeyError(key))
  }

  /** The EXPLICIT branch: format, edge weights and dimension are looked up in that order. */
  function ExplicitDistances(inst: Instance): (r: Result<Field>)
    ensures Spec(inst, "edge_weight_format") == Ok(Scalar(S("LOWER_ROW"))) && r.Ok? ==>
      r.value.Table? &&
      var rows := r.value.rows;
      && (forall i :: 0 <= i < |rows| ==> |rows[i]| == |rows| && rows[i][i] == F(0.0))
      && (forall i, j :: 0 <= i < |rows| && 0 <= j < |rows| ==> rows[i][j].F? && rows[i][j] == rows[j][i])
    ensures (Spec(inst, "edge_weight_format") == Ok(Scalar(S("LOWER_ROW"))) && "edge_weight" in inst && "dimension" in inst)
      ==> (r.Ok? <==> inst["dimension"].Scalar? && LowerRowField(inst["edge_weight"], inst["dimension"].v).Ok?)
  {
    match Spec(inst, "edge_weight_format")
    case Err(e) => Err(e)
    case Ok(format) =>
      match Spec(inst, "edge_weight")
      case Err(e) => Err(e)
      case Ok(weights) =>
        match Spec(inst, "dimension")
        case Err(e) => Err(e)
        case Ok(dim) =>
          if format == Scalar(S("LOWER_ROW")) then
            if !dim.Scalar? then Err(TypeError)
            else match LowerRowField(weights, dim.v)
              case Err(e) => Err(e)
              case Ok(m) => Ok(FloatTable(m))
          else if format == Scalar(S("FULL_MATRIX")) then
            if weights.Table? then VrplibParseDistances.FullMatrixField(weights.rows) else Ok(weights)
          else Err(ValueError(UnknownFormatMessage))
  }

  /** parse_distances: the "distance" entry the instance's edge weight type calls for. */
  function ParseDistances(inst: Instance, sqrt: real -> real): Result<Field> {
    match Spec(inst, "edge_weight_type")
    case Err(e) => Err(e)
    case Ok(Scalar(S(t))) =>
      if Contains(t, "2D") then
        match Euclidean2D(t, inst, sqrt)
        case Err(e) => Err(e)
        case Ok(m) => Ok(FloatTable(m))
      else if t == "EXPLICIT" then ExplicitDistances(inst)
      else Err(ValueError(UnknownTypeMessage))
    case Ok(_) => Err(TypeError)
  }

  // ----- properties -----

  /**
   * Every "2D" matrix is square, symmetric and zero on the diagonal; off the diagonal EUC_2D rounds
   * the distance, FLOOR_2D floors it and EXACT_2D keeps it.
   */
  lemma Euclidean2DProperties(t: string, inst: Instance, sqrt: real -> real)
    requires "node_coord" in inst && CoordinateRows(inst["node_coord"]).Ok?
    ensures var cs := CoordinateRows(inst["node_coord"]).value;
      var r := Euclidean2D(t, inst, sqrt);
      (r.Ok? <==> t in {"EUC_2D", "FLOOR_2D", "EXACT_2D"})
      && (r.Ok? ==> |r.value| == |cs| && SymmetricZeroDiagonal(r.value))
      && (r.Ok? ==> forall a, b :: 0 <= a < |cs| && 0 <= b < |cs| && a != b ==>
        var x := Dist(cs[a], cs[b], sqrt);
        r.value[a][b] == if t == "EUC_2D" then RoundHalfEven(x) as real else if t == "FLOOR_2D" then Floor(x) as real else x)
  {
    var cs := CoordinateRows(inst["node_coord"]).value;
    var d := EuclideanMatrix(cs, Unrounded, 0.0, sqrt);
    EuclideanProperties(cs, Unrounded, 0.0, sqrt);
    MirroredReal(d);
    assert RoundReal(0.0) == 0.0 && VrplibParseDistances.FloorReal(0.0) == 0.0;
    VrplibParseDistances.MapMatrixSymmetric(d, RoundReal);
    VrplibParseDistances.MapMatrixSymmetric(d, VrplibParseDistances.FloorReal);
  }

  /** The triangular reading is taken exactly when there is one row fewer than the dimension. */
  lemma RepresentationByCount(rows: seq<seq<Value>>, n: int)
    ensures GetRepresentation(|rows|, I(n)) == Ok(Triangular) <==> |rows| == n - 1
    ensures GetRepresentation(|rows|, I(n)) == Ok(Flattened) <==> |rows| != n - 1
  {
  }

  /**
   * LOWER_ROW with dimension n: on n - 1 rows, the triangle t gives entry (i, j), j < i, from
   * t[i - 1][j]; otherwise the values fill the pairs (1, 0), (2, 0), (2, 1), ... in order. Either
   * matrix is square, symmetric and zero on the diagonal.
   */
  lemma LowerRowDistancesProperties<T>(rows: seq<seq<T>>, n: int, store: T -> Result<real>)
    ensures var r := LowerRowDistances(rows, I(n), store);
      r.Ok? ==> SymmetricZeroDiagonal(r.value) && |r.value| == (if |rows| == n - 1 then |rows| + 1 else n)
    ensures |rows| == n - 1 && LowerRowDistances(rows, I(n), store).Ok? ==>
      forall i, j :: 0 <= j < i <= |rows| ==> TriRead(rows, store, i, j) == Ok(LowerRowDistances(rows, I(n), store).value[i][j])
    ensures |rows| != n - 1 && LowerRowDistances(rows, I(n), store).Ok? ==>
      forall i, j :: 0 <= j < i < n ==>
        FlatRead(Lists.Flatten(rows), store, LowerIndex(i, j)) == Ok(LowerRowDistances(rows, I(n), store).value[i][j])
    ensures |rows| != n - 1 && n < 0 ==> LowerRowDistances(rows, I(n), store) == Err(ValueError(NegativeDimensions))
  {
    if |rows| == n - 1 {
      TriangularMatrixProperties(rows, store, 0.0);
      if TriangularMatrix(rows, store, 0.0).Ok? {
        MirroredReal(TriangularMatrix(rows, store, 0.0).value);
      }
    } else if n >= 0 {
      FlattenedMatrixProperties(rows, n, store, 0.0);
      var r := FlattenedMatrix(rows, n, store, 0.0);
      if r.Ok? {
        MirroredReal(r.value);
        forall i, j | 0 <= j < i < n
          ensures FlatRead(Lists.Flatten(rows), store, LowerIndex(i, j)) == Ok(r.value[i][j])
        {
        }
      }
    }
  }

  /** The characters of a string, one per row, concatenate back to the string. */
  lemma {:induction false} CharactersFlatten(text: string)
    ensures Lists.Flatten(Characters(text)) == text
    decreases |text|
  {
    if text != [] {
      assert Characters(text)[1..] == Characters(text[1..]);
      CharactersFlatten(text[1..]);
      assert text == [text[0]] + text[1..];
    }
  }

  /**
   * A string edge weight of n - 1 characters, read as a triangle: row i - 1 is one character, so
   * column j exists only for j = 0, and the reading succeeds exactly when there is at most one
   * character and it is a digit. A failure is IndexError or numpy's ValueError.
   */
  lemma StringTriangular(text: string, n: int)
    ensures var r := LowerRowField(Scalar(S(text)), I(n));
      |text| == n - 1 ==> (r.Ok? <==> |text| < 2 && forall i :: 0 <= i < |text| ==> IsDigit(text[i]))
    ensures var r := LowerRowField(Scalar(S(text)), I(n));
      |text| == n - 1 && r.Ok? ==> |r.value| == n && forall i :: 0 < i < n ==>
        |r.value[i]| == n && IsDigit(text[i - 1]) && r.value[i][0] == DigitValue(text[i - 1]) as real
    ensures var r := LowerRowField(Scalar(S(text)), I(n));
      |text| == n - 1 && r.Err? ==> r.error in {IndexError, ValueError(VrplibParseDistances.NotFloat)}
  {
    var rows := Characters(text);
    var r := LowerRowField(Scalar(S(text)), I(n));
    if |text| == n - 1 {
      assert r == TriangularMatrix(rows, StoreChar, 0.0);
      TriangularMatrixProperties(rows, StoreChar, 0.0);
      if |text| >= 2 {
        assert TriRead(rows, StoreChar, 2, 1) == Err(IndexError);
      } else if r.Ok? {
        forall i | 0 < i < n
          ensures |r.value[i]| == n && IsDigit(text[i - 1]) && r.value[i][0] == DigitValue(text[i - 1]) as real
        {
          assert TriRead(rows, StoreChar, i, 0) == Ok(r.value[i][0]);
        }
      } else {
        var i :| 0 < i <= |text| && TriRead(rows, StoreChar, i, 0).Err?;
      }
    }
  }

  /**
   * A string edge weight of any other length, read as flattened values: the first n (n - 1) / 2
   * characters fill the pairs in order, and all of them must exist and be digits. A failure is
   * IndexError, numpy's ValueError or a negative dimension.
   */
  lemma StringFlattened(text: string, n: int)
    ensures var r := LowerRowField(Scalar(S(text)), I(n));
      |text| != n - 1 && n >= 0 ==> (r.Ok? <==> Tri(n) <= |text| && forall q :: 0 <= q < Tri(n) ==> IsDigit(text[q]))
    ensures var r := LowerRowField(Scalar(S(text)), I(n));
      |text| != n - 1 && r.Ok? ==> |r.value| == n && forall i, j :: 0 <= j < i < n ==>
        |r.value[i]| == n && LowerIndex(i, j) < |text| && IsDigit(text[LowerIndex(i, j)])
        && r.value[i][j] == DigitValue(text[LowerIndex(i, j)]) as real
    ensures var r := LowerRowField(Scalar(S(text)), I(n));
      |text| != n - 1 && r.Err? ==> r.error in {IndexError, ValueError(VrplibParseDistances.NotFloat), ValueError(NegativeDimensions)}
  {
    var rows := Characters(text);
    var r := LowerRowField(Scalar(S(text)), I(n));
    if |text| != n - 1 && n >= 0 {
      assert r == FlattenedMatrix(rows, n, StoreChar, 0.0);
      CharactersFlatten(text);
      FlattenedMatrixProperties(rows, n, StoreChar, 0.0);
      if r.Ok? {
        if Tri(n) > 0 {
          assert FlatRead(text, StoreChar, Tri(n) - 1).Ok?;
        }
        forall q | 0 <= q < Tri(n)
          ensures IsDigit(text[q])
        {
          assert FlatRead(text, StoreChar, q).Ok?;
        }
      }
    }
  }

  /**
   * "EDGE_WEIGHT : 5a" with DIMENSION 2: the string has two characters, not n - 1 = 1, so it is
   * read as flattened values, and the one pair (1, 0) takes the digit 5; the 'a' is never read.
   */
  lemma StringWeightExample()
    ensures LowerRowField(Scalar(S("5a")), I(2)) == Ok([[0.0, 5.0], [5.0, 0.0]])
  {
    var rows := Characters("5a");
    assert rows == [['5'], ['a']];
    assert Lists.Flatten(rows) == "5a" by { CharactersFlatten("5a"); }
    assert Tri(2) == 1;
    assert StoreChar('5') == Ok(5.0);
    FlattenedMatrixProperties(rows, 2, StoreChar, 0.0);
    assert FlatReadable("5a", StoreChar, 2) by {
      assert FlatRead("5a", StoreChar, 0).Ok?;
    }
    var m := FlattenedMatrix(rows, 2, StoreChar, 0.0).value;
    assert LowerIndex(1, 0) == 0;
    assert m[1][0] == 5.0 && m[0][1] == 5.0 && m[0][0] == 0.0 && m[1][1] == 0.0;
    assert m[0] == [0.0, 5.0] && m[1] == [5.0, 0.0];
    assert m == [[0.0, 5.0], [5.0, 0.0]];
    assert GetRepresentation(|rows|, I(2)) == Ok(Flattened);
    assert LowerRowField(Scalar(S("5a")), I(2)) == FlattenedMatrix(rows, 2, StoreChar, 0.0);
  }

  /** With DIMENSION 3 the three pairs take '5', then 'a', which numpy cannot store as a float. */
  lemma StringWeightErrorExample()
    ensures LowerRowField(Scalar(S("5a")), I(3)) == Err(ValueError(VrplibParseDistances.NotFloat))
  {
    var rows := Characters("5a");
    assert Lists.Flatten(rows) == "5a" by { CharactersFlatten("5a"); }
    assert Tri(3) == 3;
    assert StoreChar('5').Ok? && StoreChar('a').Err?;
    FlatErrorAt("5a", StoreChar, 0, 1, 3);
  }

  /** FULL_MATRIX returns the edge weights as they are, unless numpy refuses ragged rows. */
  lemma FullMatrixUnchanged(inst: Instance, rows: seq<seq<Value>>, sqrt: real -> real)
    requires Spec(inst, "edge_weight_type") == Ok(Scalar(S("EXPLICIT")))
    requires Spec(inst, "edge_weight_format") == Ok(Scalar(S("FULL_MATRIX")))
    requires Spec(inst, "edge_weight") == Ok(Table(rows)) && "dimension" in inst
    requires rows != [] && Rectangular(rows)
    ensures ParseDistances(inst, sqrt) == Ok(Table(rows))
  {
    NotContainsMissingChar("EXPLICIT", "2D", '2');
  }

  /**
   * The errors, in the order the lookups happen: a missing edge weight type, a non-string one, an
   * unknown type, and for EXPLICIT a missing format, edge weights or dimension, then an unknown
   * format; a "2D" type needs coordinates.
   */
  lemma ParseDistancesErrors(inst: Instance, sqrt: real -> real)
    ensures "edge_weight_type" !in inst ==> ParseDistances(inst, sqrt) == Err(KeyError("edge_weight_type"))
    ensures "edge_weight_type" in inst && !(inst["edge_weight_type"].Scalar? && inst["edge_weight_type"].v.S?) ==>
      ParseDistances(inst, sqrt) == Err(TypeError)
    ensures Spec(inst, "edge_weight_type") == Ok(Scalar(S("EXPLICIT"))) ==>
      ParseDistances(inst, sqrt) == ExplicitDistances(inst)
    ensures "edge_weight_format" !in inst ==> ExplicitDistances(inst) == Err(KeyError("edge_weight_format"))
    ensures "edge_weight_format" in inst && "edge_weight" !in inst ==> ExplicitDistances(inst) == Err(KeyError("edge_weight"))
    ensures "edge_weight_format" in inst && "edge_weight" in inst && "dimension" !in inst ==>
      ExplicitDistances(inst) == Err(KeyError("dimension"))
    ensures ("edge_weight_format" in inst && "edge_weight" in inst && "dimension" in inst
      && inst["edge_weight_format"] != Scalar(S("LOWER_ROW")) && inst["edge_weight_format"] != Scalar(S("FULL_MATRIX")))
      ==> ExplicitDistances(inst) == Err(ValueError(UnknownFormatMessage))
  {
    NotContainsMissingChar("EXPLICIT", "2D", '2');
  }

  /** A string type other than EXPLICIT without "2D" is unknown; a "2D" type needs coordinates. */
  lemma TypeErrors(inst: Instance, t: string, sqrt: real -> real)
    requires Spec(inst, "edge_weight_type") == Ok(Scalar(S(t)))
    ensures !Contains(t, "2D") && t != "EXPLICIT" ==> ParseDistances(inst, sqrt) == Err(ValueError(UnknownTypeMessage))
    ensures Contains(t, "2D") && "node_coord" !in inst ==> ParseDistances(inst, sqrt) == Err(KeyError("node_coord"))
  {
  }
}
