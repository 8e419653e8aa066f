/**
 * The two lower-row readings of the earlier parsers (cvrplib/parse/parse_distances.py and
 * cvrplib/read/parse_vrplib.py): a full symmetric matrix rebuilt from a triangle of rows, or from
 * the flattened values assigned to the pairs (1, 0), (2, 0), (2, 1), (3, 0), ... in that order.
 * Both readers fill a zero matrix cell by cell; they differ only in what storing a value means
 * (a numpy float array converts it, a list keeps it), so the conversion `conv` and the zero are
 * parameters here.
 */
module LowerTriangle {
  import opened Wrappers
  import opened Lists

  /** A square matrix with the given diagonal that equals its transpose. */
  predicate Mirrored<U(==)>(m: seq<seq<U>>, zero: U) {
    && (forall i :: 0 <= i < |m| ==> |m[i]| == |m|)
    && (forall i :: 0 <= i < |m| ==> m[i][i] == zero)
    && (forall i, j :: 0 <= i < |m| && 0 <= j < |m| ==> m[i][j] == m[j][i])
  }

  // ----- from_triangular -----

  /** `triangular[i - 1][j]`, converted for storing; a row that is too short raises IndexError. */
  function TriRead<T, U>(t: seq<seq<T>>, conv: T -> Result<U>, i: nat, j: nat): Result<U>
    requires 0 < i <= |t|
  {
    if j < |t[i - 1]| then conv(t[i - 1][j]) else Err(IndexError)
  }

  /** Every pair j < i <= |t| can be read and stored. */
  predicate TriReadable<T, U>(t: seq<seq<T>>, conv: T -> Result<U>) {
    forall i, j :: 0 <= j < i <= |t| ==> TriRead(t, conv, i, j).Ok?
  }

  /** The first failing read of column j from row i on: the pairs (j, i), (j, i + 1), ..., (j, |t|). */
  function ColumnError<T, U>(t: seq<seq<T>>, conv: T -> Result<U>, j: nat, i: nat): (r: Option<Error>)
    requires 0 < i <= |t| + 1
    ensures r.None? <==> forall k :: i <= k <= |t| ==> TriRead(t, conv, k, j).Ok?
    ensures r.Some? ==> exists k :: i <= k <= |t| && TriRead(t, conv, k, j) == Err(r.value)
    decreases |t| + 1 - i
  {
    if i == |t| + 1 then None
    else match TriRead(t, conv, i, j)
      case Err(e) => Some(e)
      case Ok(_) => ColumnError(t, conv, j, i + 1)
  }

  /**
   * The first failing read in the order of `combinations(range(n), 2)`, from column j on: column
   * by column, and down each column.
   */
  function TriangularError<T, U>(t: seq<seq<T>>, conv: T -> Result<U>, j: nat): (r: Option<Error>)
    ensures r.None? <==> forall c, k :: j <= c < k <= |t| ==> TriRead(t, conv, k, c).Ok?
    ensures r.Some? ==> exists c, k :: j <= c < k <= |t| && TriRead(t, conv, k, c) == Err(r.value)
    decreases |t| - j
  {
    if j >= |t| then None
    else match ColumnError(t, conv, j, j + 1)
      case Some(e) => Some(e)
      case None => TriangularError(t, conv, j + 1)
  }

  /** Entry (a, b) of the rebuilt matrix: the triangle's value for the pair, mirrored, zero on the diagonal. */
  function TriCell<T, U>(t: seq<seq<T>>, conv: T -> Result<U>, zero: U, a: nat, b: nat): U
    requires TriReadable(t, conv) && a <= |t| && b <= |t|
  {
    if a > b then TriRead(t, conv, a, b).value
    else if a < b then TriRead(t, conv, b, a).value
    else zero
  }

  /** from_triangular: n = |t| + 1, and `D[i][j] = D[j][i] = t[i - 1][j]` for j < i; the first failing read raises. */
  function TriangularMatrix<T, U>(t: seq<seq<T>>, conv: T -> Result<U>, zero: U): Result<seq<seq<U>>> {
    match TriangularError(t, conv, 0)
    case Some(e) => Err(e)
    case None =>
      var n := |t| + 1;
      Ok(seq(n, a requires 0 <= a < n => seq(n, b requires 0 <= b < n => TriCell(t, conv, zero, a, b))))
  }

  /**
   * The triangular reading succeeds exactly when every needed cell exists and converts; it then
   * gives a (|t| + 1)-square mirrored matrix whose entry (i, j), j < i, is the converted t[i - 1][j].
   * A failure is the error of one of the reads.
   */
  lemma TriangularMatrixProperties<T, U>(t: seq<seq<T>>, conv: T -> Result<U>, zero: U)
    ensures TriangularMatrix(t, conv, zero).Ok? <==> TriReadable(t, conv)
    ensures TriangularMatrix(t, conv, zero).Err? ==>
      exists i, j :: 0 <= j < i <= |t| && TriRead(t, conv, i, j) == Err(TriangularMatrix(t, conv, zero).error)
    ensures TriangularMatrix(t, conv, zero).Ok? ==>
      var m := TriangularMatrix(t, conv, zero).value;
      |m| == |t| + 1 && Mirrored(m, zero)
      && forall i, j :: 0 <= j < i <= |t| ==> TriRead(t, conv, i, j) == Ok(m[i][j])
  {
  }

  /** Reads (j, k), ..., (j, i - 1) succeed and (j, i) fails: the column's first error is that one. */
  lemma {:induction false} ColumnErrorAt<T, U>(t: seq<seq<T>>, conv: T -> Result<U>, j: nat, k: nat, i: nat)
    requires 0 < k <= i <= |t|
    requires forall q :: k <= q < i ==> TriRead(t, conv, q, j).Ok?
    requires TriRead(t, conv, i, j).Err?
    ensures ColumnError(t, conv, j, k) == Some(TriRead(t, conv, i, j).error)
    decreases i - k
  {
    if k < i {
      ColumnErrorAt(t, conv, j, k + 1, i);
    }
  }

  /** Every read before (j, i) in combination order succeeds and (j, i) fails: that is the first error. */
  lemma {:induction false} TriangularErrorAt<T, U>(t: seq<seq<T>>, conv: T -> Result<U>, c: nat, j: nat, i: nat)
    requires c <= j < i <= |t|
    requires forall c', k :: c <= c' < j && c' < k <= |t| ==> TriRead(t, conv, k, c').Ok?
    requires forall k :: j < k < i ==> TriRead(t, conv, k, j).Ok?
    requires TriRead(t, conv, i, j).Err?
    ensures TriangularError(t, conv, c) == Some(TriRead(t, conv, i, j).error)
    decreases j - c
  {
    if c < j {
      assert ColumnError(t, conv, c, c + 1).None?;
      TriangularErrorAt(t, conv, c + 1, j, i);
    } else {
      ColumnErrorAt(t, conv, j, j + 1, i);
    }
  }

  /** Pair (lo, hi), lo < hi, comes before (j, i) in combination order. */
  predicate PairDone(j: nat, i: nat, lo: nat, hi: nat) {
    lo < j || (lo == j && hi < i)
  }

  /** Entry (a, b) off the diagonal whose pair comes before (j, i) in combination order. */
  predicate Stored(j: nat, i: nat, a: nat, b: nat) {
    (a < b && PairDone(j, i, a, b)) || (b < a && PairDone(j, i, b, a))
  }

  /** from_triangular as written: walk the pairs (j, i), j < i < n, store the read value at (i, j) and (j, i). */
  method FromTriangular<T, U(==)>(t: seq<seq<T>>, conv: T -> Result<U>, zero: U) returns (r: Result<array2<U>>)
    ensures r.Err? <==> TriangularMatrix(t, conv, zero).Err?
    ensures r.Err? ==> r.error == TriangularMatrix(t, conv, zero).error
    ensures r.Ok? ==> r.value.Length0 == |t| + 1 && r.value.Length1 == |t| + 1
    ensures r.Ok? ==> forall a, b :: 0 <= a <= |t| && 0 <= b <= |t| ==> r.value[a, b] == TriangularMatrix(t, conv, zero).value[a][b]
  {
    var n := |t| + 1;
    var d := new U[n, n]((_, _) => zero);
    var j := 0;
    while j < n
      invariant 0 <= j <= n
      invariant forall lo, hi :: 0 <= lo < hi < n && PairDone(j, 0, lo, hi) ==> TriRead(t, conv, hi, lo).Ok?
      invariant forall a, b :: 0 <= a < n && 0 <= b < n ==>
        d[a, b] == if !Stored(j, 0, a, b) then zero
          else if a > b then TriRead(t, conv, a, b).value else TriRead(t, conv, b, a).value
    {
      var i := j + 1;
      while i < n
        invariant j + 1 <= i <= n
        invariant forall lo, hi :: 0 <= lo < hi < n && PairDone(j, i, lo, hi) ==> TriRead(t, conv, hi, lo).Ok?
        invariant forall a, b :: 0 <= a < n && 0 <= b < n ==>
          d[a, b] == if !Stored(j, i, a, b) then zero
            else if a > b then TriRead(t, conv, a, b).value else TriRead(t, conv, b, a).value
      {
        var v := TriRead(t, conv, i, j);
        if v.Err? {
          TriangularErrorAt(t, conv, 0, j, i);
          return Err(v.error);
        }
        d[i, j] := v.value;
        d[j, i] := v.value;
        i := i + 1;
      }
      j := j + 1;
    }
    assert TriReadable(t, conv);
    r := Ok(d);
  }

  // ----- from_flattened -----

  /** Tri(i) = i (i - 1) / 2: the number of pairs (a, b), b < a < i, and where the pairs of row i start. */
  function Tri(i: nat): nat {
    if i == 0 then 0 else Tri(i - 1) + (i - 1)
  }

  lemma {:induction false} TriMonotone(i: nat, k: nat)
    requires i <= k
    ensures Tri(i) <= Tri(k)
    decreases k - i
  {
    if i < k {
      TriMonotone(i, k - 1);
    }
  }

  lemma {:induction false} TriClosed(i: nat)
    ensures 2 * Tri(i) == i * (i - 1)
  {
    if i > 0 {
      TriClosed(i - 1);
    }
  }

  /** The position of pair (i, j), j < i, in the sorted list (1, 0), (2, 0), (2, 1), (3, 0), ... */
  function LowerIndex(i: nat, j: nat): (k: nat)
    requires j < i
    ensures Tri(i) <= k < Tri(i + 1)
  {
    Tri(i) + j
  }

  /** Distinct pairs have distinct positions: every value is read for at most one pair. */
  lemma LowerIndexInjective(i: nat, j: nat, i': nat, j': nat)
    requires j < i && j' < i' && LowerIndex(i, j) == LowerIndex(i', j')
    ensures i == i' && j == j'
  {
    if i < i' {
      TriMonotone(i + 1, i');
    } else if i' < i {
      TriMonotone(i' + 1, i);
    }
  }

  /** The order of the pairs: along row i, then from its end to the start of row i + 1. */
  lemma LowerIndexOrder(i: nat, j: nat)
    requires j < i
    ensures i == 1 && j == 0 ==> LowerIndex(i, j) == 0
    ensures j + 1 < i ==> LowerIndex(i, j + 1) == LowerIndex(i, j) + 1
    ensures j + 1 == i ==> LowerIndex(i + 1, 0) == LowerIndex(i, j) + 1
  {
  }

  /** `flattened[k]`, converted for storing; too few values raise IndexError. */
  function FlatRead<T, U>(flat: seq<T>, conv: T -> Result<U>, k: nat): Result<U> {
    if k < |flat| then conv(flat[k]) else Err(IndexError)
  }

  /** The first failing read among positions k, k + 1, ..., m - 1. */
  function FlatError<T, U>(flat: seq<T>, conv: T -> Result<U>, k: nat, m: nat): (r: Option<Error>)
    ensures r.None? <==> forall q :: k <= q < m ==> FlatRead(flat, conv, q).Ok?
    ensures r.Some? ==> exists q :: k <= q < m && FlatRead(flat, conv, q) == Err(r.value)
    decreases m - k
  {
    if k >= m then None
    else match FlatRead(flat, conv, k)
      case Err(e) => Some(e)
      case Ok(_) => FlatError(flat, conv, k + 1, m)
  }

  /** FlatError from k on is the error at position q when everything between succeeds. */
  lemma {:induction false} FlatErrorAt<T, U>(flat: seq<T>, conv: T -> Result<U>, k: nat, q: nat, m: nat)
    requires k <= q < m
    requires forall p :: k <= p < q ==> FlatRead(flat, conv, p).Ok?
    requires FlatRead(flat, conv, q).Err?
    ensures FlatError(flat, conv, k, m) == Some(FlatRead(flat, conv, q).error)
    decreases q - k
  {
    if k < q {
      FlatErrorAt(flat, conv, k + 1, q, m);
    }
  }

  /** Every pair below n can be read and stored. */
  predicate FlatReadable<T, U>(flat: seq<T>, conv: T -> Result<U>, n: nat) {
    forall q :: 0 <= q < Tri(n) ==> FlatRead(flat, conv, q).Ok?
  }

  /** Entry (a, b) of the rebuilt matrix: the value at the pair's position, mirrored, zero on the diagonal. */
  function FlatCell<T, U>(flat: seq<T>, conv: T -> Result<U>, zero: U, n: nat, a: nat, b: nat): U
    requires FlatReadable(flat, conv, n) && a < n && b < n
  {
    TriMonotone(a + 1, n);
    TriMonotone(b + 1, n);
    if a > b then FlatRead(flat, conv, LowerIndex(a, b)).value
    else if a < b then FlatRead(flat, conv, LowerIndex(b, a)).value
    else zero
  }

  /**
   * from_flattened: the concatenated rows fill the pairs (1, 0), (2, 0), (2, 1), ... of an n x n
   * matrix in order and are mirrored; the first read that fails (too few values, or a value that
   * cannot be stored) raises.
   */
  function FlattenedMatrix<T, U>(rows: seq<seq<T>>, n: nat, conv: T -> Result<U>, zero: U): Result<seq<seq<U>>> {
    var flat := Flatten(rows);
    match FlatError(flat, conv, 0, Tri(n))
    case Some(e) => Err(e)
    case None => Ok(seq(n, a requires 0 <= a < n => seq(n, b requires 0 <= b < n => FlatCell(flat, conv, zero, n, a, b))))
  }

  /**
   * The flattened reading succeeds exactly when the n (n - 1) / 2 pairs all have a value that can be
   * stored; it then gives an n-square mirrored matrix whose entry (i, j), j < i, is value i (i - 1) / 2 + j.
   */
  lemma FlattenedMatrixProperties<T, U>(rows: seq<seq<T>>, n: nat, conv: T -> Result<U>, zero: U)
    ensures FlattenedMatrix(rows, n, conv, zero).Ok? <==> FlatReadable(Flatten(rows), conv, n)
    ensures FlattenedMatrix(rows, n, conv, zero).Err? ==>
      exists q :: 0 <= q < Tri(n) && FlatRead(Flatten(rows), conv, q) == Err(FlattenedMatrix(rows, n, conv, zero).error)
    ensures FlattenedMatrix(rows, n, conv, zero).Ok? ==>
      var m := FlattenedMatrix(rows, n, conv, zero).value;
      |m| == n && Mirrored(m, zero)
      && forall i, j :: 0 <= j < i < n ==>
        2 * LowerIndex(i, j) == i * (i - 1) + 2 * j && LowerIndex(i, j) < |Flatten(rows)| && conv(Flatten(rows)[LowerIndex(i, j)]) == Ok(m[i][j])
  {
    var flat := Flatten(rows);
    if FlattenedMatrix(rows, n, conv, zero).Ok? {
      var m := FlattenedMatrix(rows, n, conv, zero).value;
      forall i, j | 0 <= j < i < n
        ensures 2 * LowerIndex(i, j) == i * (i - 1) + 2 * j
        ensures LowerIndex(i, j) < |flat| && conv(flat[LowerIndex(i, j)]) == Ok(m[i][j])
      {
        TriClosed(i);
        TriMonotone(i + 1, n);
        assert FlatRead(flat, conv, LowerIndex(i, j)).Ok?;
        assert m[i][j] == FlatCell(flat, conv, zero, n, i, j);
      }
      assert Mirrored(m, zero);
    }
  }

  /** The matrix from_flattened holds once the first q pairs are stored. */
  function FlatFilled<T, U>(flat: seq<T>, conv: T -> Result<U>, zero: U, q: nat, a: nat, b: nat): U
    requires forall p :: 0 <= p < q ==> FlatRead(flat, conv, p).Ok?
  {
    if a > b && LowerIndex(a, b) < q then FlatRead(flat, conv, LowerIndex(a, b)).value
    else if a < b && LowerIndex(b, a) < q then FlatRead(flat, conv, LowerIndex(b, a)).value
    else zero
  }

  /** Storing pair (i, j), the q-th, changes entries (i, j) and (j, i) and no other. */
  lemma FlatFilledStep<T, U>(flat: seq<T>, conv: T -> Result<U>, zero: U, i: nat, j: nat, a: nat, b: nat)
    requires j < i && forall p :: 0 <= p <= LowerIndex(i, j) ==> FlatRead(flat, conv, p).Ok?
    ensures var q := LowerIndex(i, j);
      FlatFilled(flat, conv, zero, q + 1, a, b)
      == if (a == i && b == j) || (a == j && b == i) then FlatRead(flat, conv, q).value else FlatFilled(flat, conv, zero, q, a, b)
  {
    var q := LowerIndex(i, j);
    if a > b && LowerIndex(a, b) == q {
      LowerIndexInjective(a, b, i, j);
    } else if a < b && LowerIndex(b, a) == q {
      LowerIndexInjective(b, a, i, j);
    }
  }

  /** from_flattened as written: enumerate the sorted pairs with a running index into the concatenated rows. */
  method FromFlattened<T, U(==)>(rows: seq<seq<T>>, n: nat, conv: T -> Result<U>, zero: U) returns (r: Result<array2<U>>)
    ensures r.Err? <==> FlattenedMatrix(rows, n, conv, zero).Err?
    ensures r.Err? ==> r.error == FlattenedMatrix(rows, n, conv, zero).error
    ensures r.Ok? ==> r.value.Length0 == n && r.value.Length1 == n
    ensures r.Ok? ==> forall a, b :: 0 <= a < n && 0 <= b < n ==> r.value[a, b] == FlattenedMatrix(rows, n, conv, zero).value[a][b]
  {
    var d := new U[n, n]((_, _) => zero);
    var flat := Flatten(rows);
    var idx := 0;
    var i := 1;
    while i < n
      invariant (n == 0 && i == 1) || 1 <= i <= n
      invariant idx == Tri(i) && forall p :: 0 <= p < idx ==> FlatRead(flat, conv, p).Ok?
      invariant forall a, b :: 0 <= a < n && 0 <= b < n ==> d[a, b] == FlatFilled(flat, conv, zero, idx, a, b)
    {
      var j := 0;
      while j < i
        invariant 0 <= j <= i
        invariant idx == Tri(i) + j && forall p :: 0 <= p < idx ==> FlatRead(flat, conv, p).Ok?
        invariant forall a, b :: 0 <= a < n && 0 <= b < n ==> d[a, b] == FlatFilled(flat, conv, zero, idx, a, b)
      {
        var v := FlatRead(flat, conv, idx);
        TriMonotone(i + 1, n);
        if v.Err? {
          FlatErrorAt(flat, conv, 0, idx, Tri(n));
          return Err(v.error);
        }
        forall a, b | 0 <= a < n && 0 <= b < n
          ensures FlatFilled(flat, conv, zero, idx + 1, a, b)
            == if (a == i && b == j) || (a == j && b == i) then v.value else FlatFilled(flat, conv, zero, idx, a, b)
        {
          FlatFilledStep(flat, conv, zero, i, j, a, b);
        }
        d[i, j] := v.value;
        d[j, i] := v.value;
        idx := idx + 1;
        j := j + 1;
      }
      i := i + 1;
    }
    assert idx == Tri(n) by {
      if n == 0 {
        assert Tri(1) == 0;
      }
    }
    FilledComplete(flat, conv, zero, n);
    r := Ok(d);
  }

  /** Once all Tri(n) values are placed, the filled matrix is the rebuilt one. */
  lemma FilledComplete<T, U>(flat: seq<T>, conv: T -> Result<U>, zero: U, n: nat)
    requires forall p :: 0 <= p < Tri(n) ==> FlatRead(flat, conv, p).Ok?
    ensures FlatReadable(flat, conv, n)
    ensures forall a, b :: 0 <= a < n && 0 <= b < n ==> FlatFilled(flat, conv, zero, Tri(n), a, b) == FlatCell(flat, conv, zero, n, a, b)
  {
    forall a, b | 0 <= a < n && 0 <= b < n
      ensures FlatFilled(flat, conv, zero, Tri(n), a, b) == FlatCell(flat, conv, zero, n, a, b)
    {
      TriMonotone(a + 1, n);
      TriMonotone(b + 1, n);
    }
  }
}
