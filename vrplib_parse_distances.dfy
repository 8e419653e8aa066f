/**
 * Edge weights of the current parser (vrplib/parse/parse_distances.py): Euclidean
 * distances from node coordinates for the EUC_2D, FLOOR_2D and EXACT_2D types, and full
 * matrices rebuilt from explicit LOWER_ROW or FULL_MATRIX data (TSPLIB 95, section 2).
 */
module VrplibParseDistances {
  import opened Wrappers
  import opened Text
  import opened Tokens
  import opened Lists
  import opened Instances
  import opened Geometry

  const UnknownType := "Edge weight type or format unknown."
  const NoCoords := "Cannot compute Euclidean distances because node coordinates are not provided."
  const NotFloat := "could not convert string to float"
  const NoBroadcast := "could not broadcast input array"
  const Inhomogeneous := "setting an array element with a sequence"

  // ----- from_lower_row -----

  /** The error numpy raises when row i of the triangle is assigned to distances[i + 1, :i + 1]. */
  function RowError(row: seq<Value>, i: nat): Option<Error> {
    if !AllNumeric(row) then Some(ValueError(NotFloat))
    else if |row| != 1 && |row| != i + 1 then Some(ValueError(NoBroadcast))
    else None
  }

  /** The error of the first of rows [0, n) that cannot be assigned, if any. */
  function FirstRowError(rows: seq<seq<Value>>, n: nat): (r: Option<Error>)
    requires n <= |rows|
    ensures r.None? <==> forall k :: 0 <= k < n ==> RowError(rows[k], k).None?
  {
    if n == 0 then None
    else if FirstRowError(rows, n - 1).Some? then FirstRowError(rows, n - 1)
    else RowError(rows[n - 1], n - 1)
  }

  /** Rows of a lower triangle without diagonal that numpy accepts: numeric, row i of length i + 1 or 1. */
  predicate LowerShaped(rows: seq<seq<Value>>) {
    forall k :: 0 <= k < |rows| ==> RowError(rows[k], k).None?
  }

  /** The value row i of the triangle puts in column j (a single value is broadcast along the row). */
  function RowValue(row: seq<Value>, j: nat): real
    requires AllNumeric(row) && (|row| == 1 || j < |row|)
  {
    if |row| == 1 then Real(row[0]) else Real(row[j])
  }

  /** Entry (a, b) of the full matrix rebuilt from the triangle. */
  function LowerCell(rows: seq<seq<Value>>, a: nat, b: nat): real
    requires LowerShaped(rows) && a <= |rows| && b <= |rows|
  {
    if a > b then RowValue(rows[a - 1], b)
    else if a < b then RowValue(rows[b - 1], a)
    else 0.0
  }

  /** from_lower_row: the (k + 1) x (k + 1) symmetric matrix whose strict lower triangle is the k rows. */
  function LowerRowMatrix(rows: seq<seq<Value>>): Result<seq<seq<real>>> {
    match FirstRowError(rows, |rows|)
    case Some(e) => Err(e)
    case None =>
      var n := |rows| + 1;
      Ok(seq(n, a requires 0 <= a < n => seq(n, b requires 0 <= b < n => LowerCell(rows, a, b))))
  }

  /**
   * from_lower_row gives, for k rows, a (k + 1) x (k + 1) symmetric matrix with zero diagonal
   * whose entry (i + 1, j), j <= i, is value j of row i, or its single value when row i has one
   * (numpy broadcasts it); it fails exactly when a row is not numeric or cannot be broadcast to its
   * i + 1 places.
   */
  lemma LowerRowMatrixProperties(rows: seq<seq<Value>>)
    ensures LowerRowMatrix(rows).Ok? <==> LowerShaped(rows)
    ensures LowerRowMatrix(rows).Ok? ==>
      var m := LowerRowMatrix(rows).value;
      |m| == |rows| + 1 && SymmetricZeroDiagonal(m)
      && (forall i, j :: 0 <= i < |rows| && 0 <= j <= i && |rows[i]| == i + 1 ==> m[i + 1][j] == Real(rows[i][j]))
      && (forall i, j :: 0 < i <= |rows| && 0 <= j < i && |rows[i - 1]| == 1 ==> m[i][j] == Real(rows[i - 1][0]))
  {
  }

  /** from_lower_row as written: fill a zero matrix row by row, then add its transpose. */
  method FromLowerRow(rows: seq<seq<Value>>) returns (r: Result<array2<real>>)
    ensures r.Err? <==> LowerRowMatrix(rows).Err?
    ensures r.Err? ==> r.error == LowerRowMatrix(rows).error
    ensures r.Ok? ==> r.value.Length0 == |rows| + 1 && r.value.Length1 == |rows| + 1
    ensures r.Ok? ==> forall a, b :: 0 <= a <= |rows| && 0 <= b <= |rows| ==> r.value[a, b] == LowerRowMatrix(rows).value[a][b]
  {
    var n := |rows| + 1;
    var d := new real[n, n]((_, _) => 0.0);
    var i := 0;
    while i < n - 1
      invariant 0 <= i <= n - 1
      invariant FirstRowError(rows, i).None?
      invariant forall a, b :: 0 <= a < n && 0 <= b < n ==>
        d[a, b] == (if 1 <= a <= i && b < a then RowValue(rows[a - 1], b) else 0.0)
    {
      var row := rows[i];
      var e := RowError(row, i);
      if e.Some? {
        FirstErrorIs(rows, i);
        return Err(e.value);
      }
      var j := 0;
      while j < i + 1
        invariant 0 <= j <= i + 1
        invariant forall a, b :: 0 <= a < n && 0 <= b < n ==>
          d[a, b] == (if (1 <= a <= i && b < a) || (a == i + 1 && b < j) then RowValue(rows[a - 1], b) else 0.0)
      {
        d[i + 1, j] := RowValue(row, j);
        j := j + 1;
      }
      i := i + 1;
    }
    var m := AddTranspose(d);
    forall x, y | 0 <= x < n && 0 <= y < n
      ensures m[x, y] == LowerCell(rows, x, y)
    {
      if x > y {
        assert d[y, x] == 0.0;
      } else if x < y {
        assert d[x, y] == 0.0;
      }
    }
    r := Ok(m);
  }

  /** `distances + distances.T` for a square matrix, into a new array. */
  method AddTranspose(d: array2<real>) returns (m: array2<real>)
    requires d.Length0 == d.Length1
    ensures fresh(m) && m.Length0 == d.Length0 && m.Length1 == d.Length0
    ensures forall x, y :: 0 <= x < d.Length0 && 0 <= y < d.Length0 ==> m[x, y] == d[x, y] + d[y, x]
  {
    var n := d.Length0;
    m := new real[n, n];
    var a := 0;
    while a < n
      modifies m
      invariant 0 <= a <= n
      invariant forall x, y :: 0 <= x < a && 0 <= y < n ==> m[x, y] == d[x, y] + d[y, x]
    {
      var b := 0;
      while b < n
        modifies m
        invariant 0 <= b <= n
        invariant forall x, y :: 0 <= x < a && 0 <= y < n ==> m[x, y] == d[x, y] + d[y, x]
        invariant forall y :: 0 <= y < b ==> m[a, y] == d[a, y] + d[y, a]
      {
        m[a, b] := d[a, b] + d[b, a];
        b := b + 1;
      }
      a := a + 1;
    }
  }

  lemma FirstErrorIs(rows: seq<seq<Value>>, i: nat)
    requires i < |rows| && FirstRowError(rows, i).None? && RowError(rows[i], i).Some?
    ensures LowerRowMatrix(rows) == Err(RowError(rows[i], i).value)
  {
    FirstRowErrorStable(rows, i + 1, |rows|);
  }

  lemma {:induction false} FirstRowErrorStable(rows: seq<seq<Value>>, m: nat, n: nat)
    requires m <= n <= |rows| && FirstRowError(rows, m).Some?
    ensures FirstRowError(rows, n) == FirstRowError(rows, m)
    decreases n - m
  {
    if m < n {
      FirstRowErrorStable(rows, m, n - 1);
    }
  }

  // ----- integer square root and triangular numbers -----

  lemma SquareMonotone(a: nat, b: nat)
    requires a <= b
    ensures a * a <= b * b
  {
    assert a * a <= a * b <= b * b;
  }

  /** int(m ** 0.5) for a non-negative integer m, on exact arithmetic. */
  function ISqrt(m: nat): (r: nat)
    ensures r * r <= m < (r + 1) * (r + 1)
  {
    if m == 0 then 0
    else
      var s := ISqrt(m - 1);
      if (s + 1) * (s + 1) <= m then s + 1 else s
  }

  /** The integer square root is the only r with r * r <= m < (r + 1) * (r + 1). */
  lemma ISqrtUnique(m: nat, r: nat)
    requires r * r <= m < (r + 1) * (r + 1)
    ensures ISqrt(m) == r
  {
    var s := ISqrt(m);
    if s < r {
      SquareMonotone(s + 1, r);
    } else if s > r {
      SquareMonotone(r + 1, s);
    }
  }

  predicate TriangleOf(i: nat, n: int) {
    i * (i + 1) == 2 * n
  }

  /** is_triangular_number: a negative argument makes the square root complex and int() fails. */
  function IsTriangularNumber(n: int): Result<bool> {
    if n < 0 then Err(TypeError)
    else
      var i := ISqrt(2 * n);
      Ok(TriangleOf(i, n))
  }

  /** A non-negative n passes exactly when it is i * (i + 1) / 2 for some natural i. */
  lemma IsTriangularNumberIff(n: nat)
    ensures IsTriangularNumber(n) == Ok(true) <==> exists i: nat :: TriangleOf(i, n)
  {
    if i: nat :| TriangleOf(i, n) {
      assert i * i <= 2 * n < (i + 1) * (i + 1);
      ISqrtUnique(2 * n, i);
    }
  }

  lemma IsTriangularNumberExamples()
    ensures IsTriangularNumber(1) == Ok(true) && IsTriangularNumber(3) == Ok(true)
    ensures IsTriangularNumber(630) == Ok(true)
    ensures IsTriangularNumber(4) == Ok(false) && IsTriangularNumber(1000) == Ok(false)
    ensures IsTriangularNumber(-1) == Err(TypeError)
  {
    ISqrtUnique(2, 1);
    ISqrtUnique(6, 2);
    ISqrtUnique(1260, 35);
    ISqrtUnique(8, 2);
    ISqrtUnique(2000, 44);
  }

  // ----- from_eilon -----

  /** Number of pairs (i, j), i < j < n, whose first element is below i: where row i starts. */
  function RowStart(n: nat, i: nat): nat
    requires i <= n
  {
    if i == 0 then 0 else RowStart(n, i - 1) + (n - i)
  }

  lemma {:induction false} RowStartMonotone(n: nat, i: nat, k: nat)
    requires i <= k <= n
    ensures RowStart(n, i) <= RowStart(n, k)
    decreases k - i
  {
    if i < k {
      RowStartMonotone(n, i, k - 1);
    }
  }

  /** The number of pairs below n is n (n - 1) / 2. */
  lemma {:induction false} RowStartClosed(n: nat, i: nat)
    requires i <= n
    ensures 2 * RowStart(n, i) == i * (2 * n - i - 1)
  {
    if i > 0 {
      RowStartClosed(n, i - 1);
    }
  }

  /** The position of pair (i, j) in the sorted list of pairs i < j < n. */
  function PairIndex(n: nat, i: nat, j: nat): (k: nat)
    requires i < j < n
    ensures RowStart(n, i) <= k < RowStart(n, i + 1) && k < RowStart(n, n)
  {
    RowStartMonotone(n, i + 1, n);
    RowStart(n, i) + (j - i - 1)
  }

  /** Distinct pairs have distinct positions: the enumeration reads each value at most once. */
  lemma PairIndexInjective(n: nat, i: nat, j: nat, i': nat, j': nat)
    requires i < j < n && i' < j' < n
    requires PairIndex(n, i, j) == PairIndex(n, i', j')
    ensures i == i' && j == j'
  {
    if i < i' {
      RowStartMonotone(n, i + 1, i');
    } else if i' < i {
      RowStartMonotone(n, i' + 1, i);
    }
  }

  /** The order of the pairs: along a row, then from the end of one row to the start of the next. */
  lemma PairIndexOrder(n: nat, i: nat, j: nat)
    requires i < j < n
    ensures i == 0 && j == 1 ==> PairIndex(n, i, j) == 0
    ensures j + 1 < n ==> PairIndex(n, i, j + 1) == PairIndex(n, i, j) + 1
    ensures j + 1 == n && i + 2 < n ==> PairIndex(n, i + 1, i + 2) == PairIndex(n, i, j) + 1
  {
  }

  /** n = int((2 * len(flattened)) ** 0.5) + 1. */
  function EilonSize(len: nat): nat {
    ISqrt(2 * len) + 1
  }

  /** For a triangular count m (m + 1) / 2 of values the size is m + 1 and every value fills one pair. */
  lemma EilonSizeOfTriangle(m: nat, len: nat)
    requires 2 * len == m * (m + 1)
    ensures EilonSize(len) == m + 1
    ensures RowStart(m + 1, m + 1) == len
  {
    assert (m + 1) * (m + 1) == m * (m + 1) + m + 1;
    assert m * m <= m * (m + 1);
    ISqrtUnique(2 * len, m);
    RowStartClosed(m + 1, m + 1);
    assert (m + 1) * (2 * (m + 1) - (m + 1) - 1) == (m + 1) * m;
  }

  predicate NumericUpTo(flat: seq<Value>, k: nat) {
    forall t :: 0 <= t < k && t < |flat| ==> Numeric(flat[t])
  }

  /** Entry (a, b) of the Eilon matrix: the value at the position of the pair, mirrored, zero on the diagonal. */
  function EilonCell(flat: seq<Value>, n: nat, a: nat, b: nat): real
    requires a < n && b < n && RowStart(n, n) <= |flat| && NumericUpTo(flat, RowStart(n, n))
  {
    if a < b then Real(flat[PairIndex(n, a, b)])
    else if b < a then Real(flat[PairIndex(n, b, a)])
    else 0.0
  }

  /**
   * from_eilon: the flattened values fill the pairs (i, j), i < j, in sorted order and are mirrored;
   * a value that is not a number fails the assignment, and too few values fail the indexing.
   */
  function EilonMatrix(rows: seq<seq<Value>>): Result<seq<seq<real>>> {
    var flat := Flatten(rows);
    var n := EilonSize(|flat|);
    var p := RowStart(n, n);
    if !NumericUpTo(flat, p) then Err(ValueError(NotFloat))
    else if p > |flat| then Err(IndexError)
    else Ok(seq(n, a requires 0 <= a < n => seq(n, b requires 0 <= b < n => EilonCell(flat, n, a, b))))
  }

  /** The Eilon matrix is symmetric with zero diagonal, and entry (i, j), i < j, is value PairIndex(n, i, j). */
  lemma EilonMatrixProperties(rows: seq<seq<Value>>)
    ensures EilonMatrix(rows).Ok? ==>
      var flat := Flatten(rows);
      var n := EilonSize(|flat|);
      var m := EilonMatrix(rows).value;
      |m| == n && SymmetricZeroDiagonal(m)
      && forall i, j :: 0 <= i < j < n ==> m[i][j] == Real(flat[PairIndex(n, i, j)])
  {
  }

  /** A triangular number of numeric values always gives a matrix. */
  lemma EilonTriangleOk(rows: seq<seq<Value>>, m: nat)
    requires 2 * |Flatten(rows)| == m * (m + 1)
    requires AllNumeric(Flatten(rows))
    ensures EilonMatrix(rows).Ok? && |EilonMatrix(rows).value| == m + 1
  {
    EilonSizeOfTriangle(m, |Flatten(rows)|);
  }

  /** The matrix from_eilon holds once the first q pairs are assigned. */
  function Filled(flat: seq<Value>, n: nat, q: nat, a: nat, b: nat): real
    requires a < n && b < n && q <= |flat| && NumericUpTo(flat, q)
  {
    if a < b && PairIndex(n, a, b) < q then Real(flat[PairIndex(n, a, b)])
    else if b < a && PairIndex(n, b, a) < q then Real(flat[PairIndex(n, b, a)])
    else 0.0
  }

  /** Assigning pair (i, j), the q-th, changes entries (i, j) and (j, i) and no other. */
  lemma FilledStep(flat: seq<Value>, n: nat, i: nat, j: nat, a: nat, b: nat)
    requires i < j < n && a < n && b < n
    requires PairIndex(n, i, j) < |flat| && NumericUpTo(flat, PairIndex(n, i, j) + 1)
    ensures var q := PairIndex(n, i, j);
      Filled(flat, n, q + 1, a, b)
      == if (a == i && b == j) || (a == j && b == i) then Real(flat[q]) else Filled(flat, n, q, a, b)
  {
    var q := PairIndex(n, i, j);
    if a < b && PairIndex(n, a, b) == q {
      PairIndexInjective(n, a, b, i, j);
    } else if b < a && PairIndex(n, b, a) == q {
      PairIndexInjective(n, b, a, i, j);
    }
  }

  /** from_eilon as written: walk the sorted pairs with a running index into the flattened values. */
  method FromEilon(rows: seq<seq<Value>>) returns (r: Result<array2<real>>)
    ensures r.Err? <==> EilonMatrix(rows).Err?
    ensures r.Err? ==> r.error == EilonMatrix(rows).error
    ensures r.Ok? ==> r.value.Length0 == |EilonMatrix(rows).value| && r.value.Length1 == |EilonMatrix(rows).value|
    ensures r.Ok? ==> forall a, b :: 0 <= a < r.value.Length0 && 0 <= b < r.value.Length0 ==>
      r.value[a, b] == EilonMatrix(rows).value[a][b]
  {
    var flat := Flatten(rows);
    var n := EilonSize(|flat|);
    var d := new real[n, n]((_, _) => 0.0);
    var idx := 0;
    var i := 0;
    while i < n
      invariant 0 <= i <= n
      invariant idx == RowStart(n, i) && idx <= |flat| && NumericUpTo(flat, idx)
      invariant forall a, b :: 0 <= a < n && 0 <= b < n ==> d[a, b] == Filled(flat, n, idx, a, b)
    {
      var j := i + 1;
      while j < n
        invariant i + 1 <= j <= n
        invariant idx == RowStart(n, i) + (j - i - 1) && idx <= |flat| && NumericUpTo(flat, idx)
        invariant forall a, b :: 0 <= a < n && 0 <= b < n ==> d[a, b] == Filled(flat, n, idx, a, b)
      {
        assert idx == PairIndex(n, i, j);
        if idx >= |flat| {
          EilonShortFails(rows, n, idx);
          return Err(IndexError);
        }
        if flat[idx].S? {
          EilonStringFails(rows, n, idx);
          return Err(ValueError(NotFloat));
        }
        var v := Real(flat[idx]);
        forall a, b | 0 <= a < n && 0 <= b < n
          ensures Filled(flat, n, idx + 1, a, b)
            == if (a == i && b == j) || (a == j && b == i) then v else Filled(flat, n, idx, a, b)
        {
          FilledStep(flat, n, i, j, a, b);
        }
        d[i, j] := v;
        d[j, i] := v;
        idx := idx + 1;
        j := j + 1;
      }
      i := i + 1;
    }
    assert EilonMatrix(rows).Ok?;
    forall a, b | 0 <= a < n && 0 <= b < n
      ensures d[a, b] == EilonCell(flat, n, a, b)
    {
    }
    r := Ok(d);
  }

  lemma EilonShortFails(rows: seq<seq<Value>>, n: nat, idx: nat)
    requires n == EilonSize(|Flatten(rows)|)
    requires idx < RowStart(n, n) && |Flatten(rows)| <= idx && NumericUpTo(Flatten(rows), idx)
    ensures EilonMatrix(rows) == Err(IndexError)
  {
  }

  lemma EilonStringFails(rows: seq<seq<Value>>, n: nat, idx: nat)
    requires n == EilonSize(|Flatten(rows)|)
    requires idx < RowStart(n, n) && idx < |Flatten(rows)| && Flatten(rows)[idx].S?
    ensures EilonMatrix(rows) == Err(ValueError(NotFloat))
  {
  }

  /** The lower-row reading of six values: value j of row i at (i + 1, j). */
  lemma LowerRowExample()
    ensures LowerRowMatrix([[I(1)], [I(2), I(3)], [I(4), I(5), I(6)]])
      == Ok([[0.0, 1.0, 2.0, 4.0], [1.0, 0.0, 3.0, 5.0], [2.0, 3.0, 0.0, 6.0], [4.0, 5.0, 6.0, 0.0]])
  {
    var rows := [[I(1)], [I(2), I(3)], [I(4), I(5), I(6)]];
    assert FirstRowError(rows, 3).None?;
    var m := LowerRowMatrix(rows).value;
    assert m[0] == [0.0, 1.0, 2.0, 4.0];
    assert m[1] == [1.0, 0.0, 3.0, 5.0];
    assert m[2] == [2.0, 3.0, 0.0, 6.0];
    assert m[3] == [4.0, 5.0, 6.0, 0.0];
    assert m == [[0.0, 1.0, 2.0, 4.0], [1.0, 0.0, 3.0, 5.0], [2.0, 3.0, 0.0, 6.0], [4.0, 5.0, 6.0, 0.0]];
  }

  /** A single value per row is broadcast along the row. */
  lemma LowerRowBroadcastExample()
    ensures LowerRowMatrix([[I(1)], [I(2)]]) == Ok([[0.0, 1.0, 2.0], [1.0, 0.0, 2.0], [2.0, 2.0, 0.0]])
  {
    var rows := [[I(1)], [I(2)]];
    assert FirstRowError(rows, 2).None?;
    var m := LowerRowMatrix(rows).value;
    assert m[0] == [0.0, 1.0, 2.0];
    assert m[1] == [1.0, 0.0, 2.0];
    assert m[2] == [2.0, 2.0, 0.0];
    assert m == [[0.0, 1.0, 2.0], [1.0, 0.0, 2.0], [2.0, 2.0, 0.0]];
  }

  lemma LowerRowErrorExamples()
    ensures LowerRowMatrix([[I(1)], [I(2), I(3), I(4)]]) == Err(ValueError(NoBroadcast))
    ensures LowerRowMatrix([[S("x")]]) == Err(ValueError(NotFloat))
  {
    assert RowError([I(2), I(3), I(4)], 1) == Some(ValueError(NoBroadcast));
    assert !Numeric([S("x")][0]);
  }

  lemma SixValues()
    ensures Flatten([[I(1), I(2), I(3), I(4)], [I(5), I(6)]]) == [I(1), I(2), I(3), I(4), I(5), I(6)]
    ensures EilonSize(6) == 4
    ensures RowStart(4, 1) == 3 && RowStart(4, 2) == 5 && RowStart(4, 3) == 6 && RowStart(4, 4) == 6
  {
    var rows := [[I(1), I(2), I(3), I(4)], [I(5), I(6)]];
    assert Flatten(rows[1..]) == rows[1] + Flatten(rows[2..]);
    ISqrtUnique(12, 3);
  }

  /** The same six values read column-wise, as the Eilon instances store them. */
  lemma EilonExample()
    ensures EilonMatrix([[I(1), I(2), I(3), I(4)], [I(5), I(6)]])
      == Ok([[0.0, 1.0, 2.0, 3.0], [1.0, 0.0, 4.0, 5.0], [2.0, 4.0, 0.0, 6.0], [3.0, 5.0, 6.0, 0.0]])
  {
    var rows := [[I(1), I(2), I(3), I(4)], [I(5), I(6)]];
    var flat := [I(1), I(2), I(3), I(4), I(5), I(6)];
    SixValues();
    assert NumericUpTo(flat, 6);
    var m := EilonMatrix(rows).value;
    assert m[0] == [0.0, 1.0, 2.0, 3.0];
    assert m[1] == [1.0, 0.0, 4.0, 5.0];
    assert m[2] == [2.0, 4.0, 0.0, 6.0];
    assert m[3] == [3.0, 5.0, 6.0, 0.0];
    assert m == [[0.0, 1.0, 2.0, 3.0], [1.0, 0.0, 4.0, 5.0], [2.0, 4.0, 0.0, 6.0], [3.0, 5.0, 6.0, 0.0]];
  }

  /** Two values are too few for the three pairs of a 3 x 3 matrix. */
  lemma EilonShortExample()
    ensures EilonMatrix([[I(1), I(2)]]) == Err(IndexError)
  {
    assert Flatten([[I(1), I(2)]]) == [I(1), I(2)] by {
      assert Flatten([[I(1), I(2)]][1..]) == [];
    }
    ISqrtUnique(4, 2);
    assert RowStart(3, 3) == 3;
  }

  // ----- pairwise_euclidean and the 2D edge weight types -----

  /** pairwise_euclidean: entry (i, j) is the distance between coordinate rows i and j. */
  function PairwiseEuclidean(coords: seq<seq<real>>, sqrt: real -> real): (d: seq<seq<real>>)
    ensures |d| == |coords| && forall i :: 0 <= i < |d| ==> |d[i]| == |coords|
    ensures forall i, j :: 0 <= i < |coords| && 0 <= j < |coords| ==> d[i][j] == Dist(coords[i], coords[j], sqrt)
  {
    var n := |coords|;
    seq(n, i requires 0 <= i < n => seq(n, j requires 0 <= j < n => Dist(coords[i], coords[j], sqrt)))
  }

  /** Pairwise distances are symmetric, and zero on the diagonal when sqrt(0) is 0. */
  lemma PairwiseEuclideanSymmetric(coords: seq<seq<real>>, sqrt: real -> real)
    requires sqrt(0.0) == 0.0
    ensures SymmetricZeroDiagonal(PairwiseEuclidean(coords, sqrt))
  {
    forall i, j | 0 <= i < |coords| && 0 <= j < |coords| {
      SqDistSymmetric(coords[i], coords[j]);
    }
    forall i | 0 <= i < |coords| {
      SqDistSelf(coords[i]);
    }
  }

  /** An element-wise numpy function applied to a matrix. */
  function MapMatrix(m: seq<seq<real>>, f: real -> real): (r: seq<seq<real>>)
    ensures |r| == |m| && forall i :: 0 <= i < |m| ==> |r[i]| == |m[i]|
    ensures forall i, j :: 0 <= i < |m| && 0 <= j < |m[i]| ==> r[i][j] == f(m[i][j])
  {
    seq(|m|, i requires 0 <= i < |m| => seq(|m[i]|, j requires 0 <= j < |m[i]| => f(m[i][j])))
  }

  /** A function with f(0) = 0 keeps a matrix symmetric with zero diagonal. */
  lemma MapMatrixSymmetric(m: seq<seq<real>>, f: real -> real)
    requires SymmetricZeroDiagonal(m) && f(0.0) == 0.0
    ensures SymmetricZeroDiagonal(MapMatrix(m, f))
  {
  }

  /** np.floor, which returns floats. */
  function FloorReal(x: real): real {
    Floor(x) as real
  }

  /** np.round(d * 1000): three decimals kept as an integer-valued float, ties to even. */
  function ExactReal(x: real): real {
    RoundHalfEven(1000.0 * x) as real
  }

  lemma RoundingZero()
    ensures FloorReal(0.0) == 0.0 && ExactReal(0.0) == 0.0
  {
    assert RoundHalfEven(0.0) == 0;
  }

  /**
   * The coordinates numpy can broadcast: a two-dimensional numeric array. A ragged list cannot be
   * indexed with a tuple and strings cannot be subtracted (TypeError); a one-dimensional array has too
   * few dimensions for coords[:, np.newaxis, :] (IndexError).
   */
  function Coordinates(f: Field): (r: Result<seq<seq<real>>>)
    ensures r.Ok? ==> f.Table? && |r.value| == |f.rows|
  {
    match f
    case Table(rows) =>
      if !Rectangular(rows) then Err(TypeError)
      else if exists i :: 0 <= i < |rows| && !AllNumeric(rows[i]) then Err(TypeError)
      else Ok(seq(|rows|, i requires 0 <= i < |rows| => Reals(rows[i])))
    case Vector(_) => Err(IndexError)
    case Scalar(_) => Err(TypeError)
  }

  /** The matrix for an edge weight type containing "2D". */
  function EuclideanMatrix(t: string, inst: Instance, sqrt: real -> real): Result<seq<seq<real>>> {
    if "node_coord" !in inst then Err(ValueError(NoCoords))
    else match Coordinates(inst["node_coord"])
      case Err(e) => Err(e)
      case Ok(cs) =>
        var d := PairwiseEuclidean(cs, sqrt);
        if t == "EUC_2D" then Ok(d)
        else if t == "FLOOR_2D" then Ok(MapMatrix(d, FloorReal))
        else if t == "EXACT_2D" then Ok(MapMatrix(d, ExactReal))
        else Err(ValueError(UnknownType))
  }

  // ----- parse_distances -----

  /** Which branch of parse_distances the instance's specifications select. */
  datatype WeightKind = Coordinates2D(t: string) | LowerRowKind | EilonKind | FullMatrixKind | UnknownKind

  /**
   * Python's `"Eilon" in comment`: a substring test on a string, an element test on an array and a
   * TypeError on a number. A table whose rows differ in length is the nested list a ragged section
   * keeps; `in` compares the string with its whole rows, so it never holds.
   */
  function MentionsEilon(inst: Instance): Result<bool> {
    if "comment" !in inst then Ok(false)
    else match inst["comment"]
      case Scalar(S(c)) => Ok(Contains(c, "Eilon"))
      case Scalar(_) => Err(TypeError)
      case Vector(items) => Ok(S("Eilon") in items)
      case Table(rows) => Ok(Rectangular(rows) && exists i :: 0 <= i < |rows| && S("Eilon") in rows[i])
  }

  /**
   * A ragged comment section never selects the Eilon reading, even when one of its rows holds the
   * word: with EXPLICIT and LOWER_ROW the lower-row reading is chosen.
   */
  lemma RaggedCommentExample(inst: Instance)
    requires inst == map["edge_weight_type" := Scalar(S("EXPLICIT")), "edge_weight_format" := Scalar(S("LOWER_ROW")),
                         "comment" := Table([[S("Eilon")], [S("a"), S("b")]])]
    ensures EdgeWeightKind(inst) == Ok(LowerRowKind)
  {
    assert !Rectangular(inst["comment"].rows) by { assert |inst["comment"].rows[0]| != |inst["comment"].rows[1]|; }
    LowerRowSpecs(inst);
    assert MentionsEilon(inst) == Ok(false);
  }

  /** An array comment holding the word selects the Eilon reading. */
  lemma ArrayCommentExample(inst: Instance)
    requires inst == map["edge_weight_type" := Scalar(S("EXPLICIT")), "edge_weight_format" := Scalar(S("LOWER_ROW")),
                         "comment" := Table([[S("Eilon")], [S("a")]])]
    ensures EdgeWeightKind(inst) == Ok(EilonKind)
  {
    var rows := inst["comment"].rows;
    assert Rectangular(rows) by { assert |rows[0]| == |rows[1]| == 1; }
    assert S("Eilon") in rows[0];
    LowerRowSpecs(inst);
    assert MentionsEilon(inst) == Ok(true);
  }

  /** The specifications of an explicit lower-row instance select the LOWER_ROW branch. */
  lemma LowerRowSpecs(inst: Instance)
    requires "data" !in inst && "edge_weight_type" in inst && inst["edge_weight_type"] == Scalar(S("EXPLICIT"))
    requires HasSpec(inst, "edge_weight_format", "LOWER_ROW")
    ensures MentionsEilon(inst).Ok? ==> EdgeWeightKind(inst) == Ok(if MentionsEilon(inst).value then EilonKind else LowerRowKind)
  {
    NotContainsMissingChar("EXPLICIT", "2D", '2');
  }

  predicate HasSpec(inst: Instance, key: string, value: string) {
    key in inst && inst[key] == Scalar(S(value))
  }

  /**
   * The branch selected by the keyword arguments `**instance`: an instance entry named "data"
   * collides with the positional argument and a missing or non-string edge weight type cannot be
   * searched for "2D" (TypeError in every case).
   */
  function EdgeWeightKind(inst: Instance): Result<WeightKind> {
    if "data" in inst || "edge_weight_type" !in inst then Err(TypeError)
    else match inst["edge_weight_type"]
      case Scalar(S(t)) =>
        if Contains(t, "2D") then Ok(Coordinates2D(t))
        else if t != "EXPLICIT" then Ok(UnknownKind)
        else if HasSpec(inst, "edge_weight_format", "LOWER_ROW") then
          match MentionsEilon(inst)
          case Err(e) => Err(e)
          case Ok(eilon) => Ok(if eilon then EilonKind else LowerRowKind)
        else if HasSpec(inst, "edge_weight_format", "FULL_MATRIX") then Ok(FullMatrixKind)
        else Ok(UnknownKind)
      case _ => Err(TypeError)
  }

  /** The float matrix a computed branch produces. */
  function KindMatrix(k: WeightKind, data: seq<seq<Value>>, inst: Instance, sqrt: real -> real): Result<seq<seq<real>>> {
    match k
    case Coordinates2D(t) => EuclideanMatrix(t, inst, sqrt)
    case LowerRowKind => LowerRowMatrix(data)
    case EilonKind => EilonMatrix(data)
    case _ => Err(ValueError(UnknownType))
  }

  /** np.array(data) for an explicit full matrix: rows as they are; ragged rows are refused. */
  function FullMatrixField(data: seq<seq<Value>>): Result<Field> {
    if data == [] then Ok(Vector([]))
    else if !Rectangular(data) then Err(ValueError(Inhomogeneous))
    else Ok(Table(data))
  }

  /** parse_distances(data, **instance). */
  function ParseDistances(data: seq<seq<Value>>, inst: Instance, sqrt: real -> real): Result<Field> {
    match EdgeWeightKind(inst)
    case Err(e) => Err(e)
    case Ok(FullMatrixKind) => FullMatrixField(data)
    case Ok(UnknownKind) => Err(ValueError(UnknownType))
    case Ok(k) =>
      match KindMatrix(k, data, inst, sqrt)
      case Err(e) => Err(e)
      case Ok(m) => Ok(FloatTable(m))
  }

  /**
   * Every computed edge weight matrix is square and symmetric with zero diagonal: of the size of the
   * coordinates, one more than the rows of a lower triangle, or the Eilon size.
   */
  lemma KindMatrixSymmetric(k: WeightKind, data: seq<seq<Value>>, inst: Instance, sqrt: real -> real)
    requires sqrt(0.0) == 0.0
    ensures KindMatrix(k, data, inst, sqrt).Ok? ==> SymmetricZeroDiagonal(KindMatrix(k, data, inst, sqrt).value)
    ensures KindMatrix(k, data, inst, sqrt).Ok? && k.Coordinates2D? ==>
      |KindMatrix(k, data, inst, sqrt).value| == |inst["node_coord"].rows|
    ensures KindMatrix(k, data, inst, sqrt).Ok? && k.LowerRowKind? ==> |KindMatrix(k, data, inst, sqrt).value| == |data| + 1
    ensures KindMatrix(k, data, inst, sqrt).Ok? && k.EilonKind? ==>
      |KindMatrix(k, data, inst, sqrt).value| == EilonSize(|Flatten(data)|)
  {
    match k
    case Coordinates2D(t) =>
      if "node_coord" in inst && Coordinates(inst["node_coord"]).Ok? {
        var d := PairwiseEuclidean(Coordinates(inst["node_coord"]).value, sqrt);
        PairwiseEuclideanSymmetric(Coordinates(inst["node_coord"]).value, sqrt);
        RoundingZero();
        MapMatrixSymmetric(d, FloorReal);
        MapMatrixSymmetric(d, ExactReal);
      }
    case LowerRowKind => LowerRowMatrixProperties(data);
    case EilonKind => EilonMatrixProperties(data);
    case _ =>
  }

  /** Coordinates are required for every "2D" type; any other type or format is refused. */
  lemma ParseDistancesErrors(data: seq<seq<Value>>, inst: Instance, sqrt: real -> real)
    ensures EdgeWeightKind(inst).Ok? && EdgeWeightKind(inst).value.Coordinates2D? && "node_coord" !in inst
      ==> ParseDistances(data, inst, sqrt) == Err(ValueError(NoCoords))
    ensures EdgeWeightKind(inst) == Ok(UnknownKind) ==> ParseDistances(data, inst, sqrt) == Err(ValueError(UnknownType))
    ensures "data" in inst ==> ParseDistances(data, inst, sqrt) == Err(TypeError)
  {
  }

  /** EUC_2D without coordinates. */
  lemma NoCoordsExample(sqrt: real -> real)
    ensures ParseDistances([], map["edge_weight_type" := Scalar(S("EUC_2D"))], sqrt) == Err(ValueError(NoCoords))
  {
    ContainsAt("EUC_2D", "2D", 4);
  }

  /** GEO distances are not computed. */
  lemma UnknownTypeExample(sqrt: real -> real)
    ensures ParseDistances([], map["edge_weight_type" := Scalar(S("GEO"))], sqrt) == Err(ValueError(UnknownType))
  {
    NotContainsMissingChar("GEO", "2D", '2');
  }

  /** A numeric edge weight type cannot be searched for "2D". */
  lemma NumericTypeExample(sqrt: real -> real)
    ensures ParseDistances([], map["edge_weight_type" := Scalar(I(2))], sqrt) == Err(TypeError)
  {
  }

  lemma CoordinatesExample()
    ensures Coordinates(Table([[I(0), I(0)], [I(3), I(4)]])) == Ok([[0.0, 0.0], [3.0, 4.0]])
  {
    var rows := [[I(0), I(0)], [I(3), I(4)]];
    var cs := [[0.0, 0.0], [3.0, 4.0]];
    assert Rectangular(rows);
    forall i | 0 <= i < |rows|
      ensures AllNumeric(rows[i]) && Reals(rows[i]) == cs[i]
    {
      if i == 0 {
        assert rows[i] == [I(0), I(0)];
      } else {
        assert rows[i] == [I(3), I(4)];
      }
    }
    assert seq(|rows|, i requires 0 <= i < |rows| => Reals(rows[i])) == cs;
  }

  lemma ExampleSqDist()
    ensures SqDist([0.0, 0.0], [3.0, 4.0]) == 25.0 && SqDist([3.0, 4.0], [0.0, 0.0]) == 25.0
    ensures SqDist([0.0, 0.0], [0.0, 0.0]) == 0.0 && SqDist([3.0, 4.0], [3.0, 4.0]) == 0.0
  {
    assert [0.0, 0.0][1..] == [0.0] && [3.0, 4.0][1..] == [4.0];
  }

  lemma ExampleDistances(sqrt: real -> real)
    requires sqrt(0.0) == 0.0 && sqrt(25.0) == 5.0
    ensures PairwiseEuclidean([[0.0, 0.0], [3.0, 4.0]], sqrt) == [[0.0, 5.0], [5.0, 0.0]]
  {
    ExampleSqDist();
    var d := PairwiseEuclidean([[0.0, 0.0], [3.0, 4.0]], sqrt);
    assert d[0] == [0.0, 5.0] && d[1] == [5.0, 0.0];
  }

  lemma ExampleExact()
    ensures MapMatrix([[0.0, 5.0], [5.0, 0.0]], ExactReal) == [[0.0, 5000.0], [5000.0, 0.0]]
  {
    assert RoundHalfEven(5000.0) == 5000 && RoundHalfEven(0.0) == 0;
    var e := MapMatrix([[0.0, 5.0], [5.0, 0.0]], ExactReal);
    assert e[0] == [0.0, 5000.0] && e[1] == [5000.0, 0.0];
  }

  lemma ExactKind(coords: Field)
    ensures EdgeWeightKind(map["edge_weight_type" := Scalar(S("EXACT_2D")), "node_coord" := coords])
      == Ok(Coordinates2D("EXACT_2D"))
  {
    ContainsAt("EXACT_2D", "2D", 6);
  }

  /** Integer coordinates (0, 0) and (3, 4) are 5 apart: 5000 in EXACT_2D. */
  lemma ParseDistancesExactExample(sqrt: real -> real)
    requires sqrt(0.0) == 0.0 && sqrt(25.0) == 5.0
    ensures ParseDistances([], map["edge_weight_type" := Scalar(S("EXACT_2D")),
                                   "node_coord" := Table([[I(0), I(0)], [I(3), I(4)]])], sqrt)
      == Ok(Table([[F(0.0), F(5000.0)], [F(5000.0), F(0.0)]]))
  {
    var inst := map["edge_weight_type" := Scalar(S("EXACT_2D")), "node_coord" := Table([[I(0), I(0)], [I(3), I(4)]])];
    ExactKind(inst["node_coord"]);
    ExactEuclidean(inst, sqrt);
    ExampleTable();
  }

  lemma ExactEuclidean(inst: Instance, sqrt: real -> real)
    requires sqrt(0.0) == 0.0 && sqrt(25.0) == 5.0
    requires "node_coord" in inst && inst["node_coord"] == Table([[I(0), I(0)], [I(3), I(4)]])
    ensures EuclideanMatrix("EXACT_2D", inst, sqrt) == Ok([[0.0, 5000.0], [5000.0, 0.0]])
  {
    CoordinatesExample();
    ExampleDistances(sqrt);
    ExampleExact();
  }

  lemma ExampleTable()
    ensures FloatTable([[0.0, 5000.0], [5000.0, 0.0]]) == Table([[F(0.0), F(5000.0)], [F(5000.0), F(0.0)]])
  {
    var t := FloatTable([[0.0, 5000.0], [5000.0, 0.0]]);
    assert t.rows[0] == [F(0.0), F(5000.0)] && t.rows[1] == [F(5000.0), F(0.0)];
  }

  lemma ParseDistancesFullExample(sqrt: real -> real)
    ensures ParseDistances([[I(0), I(7)], [I(7), I(0)]], map["edge_weight_type" := Scalar(S("EXPLICIT")),
                                   "edge_weight_format" := Scalar(S("FULL_MATRIX"))], sqrt)
      == Ok(Table([[I(0), I(7)], [I(7), I(0)]]))
  {
    NotContainsMissingChar("EXPLICIT", "2D", '2');
  }
}
