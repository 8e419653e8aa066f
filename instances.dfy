/** The parsed data the readers return and the writers take. */
module Instances {
  import opened Wrappers
  import opened Tokens

  /**
   * One instance or solution entry: a single typed value, a one-dimensional array or list,
   * or a table (a two-dimensional array, or a list of rows of different lengths).
   */
  datatype Field = Scalar(v: Value) | Vector(items: seq<Value>) | Table(rows: seq<seq<Value>>)

  /** A parsed instance: lower-cased names to their data. */
  type Instance = map<string, Field>

  /** Rows that numpy turns into a two-dimensional array: all as long as the first. */
  predicate Rectangular<T>(rows: seq<seq<T>>) {
    forall i :: 0 <= i < |rows| ==> |rows[i]| == |rows[0]|
  }

  predicate Numeric(v: Value) {
    !v.S?
  }

  predicate AllNumeric(xs: seq<Value>) {
    forall i :: 0 <= i < |xs| ==> Numeric(xs[i])
  }

  /** The number a numeric value stands for in a float array. */
  function Real(v: Value): (r: real)
    requires Numeric(v)
    ensures ToReal(v) == Some(r)
  {
    match v
    case I(n) => n as real
    case F(x) => x
  }

  function Reals(xs: seq<Value>): (r: seq<real>)
    requires AllNumeric(xs)
    ensures |r| == |xs| && forall i :: 0 <= i < |xs| ==> r[i] == Real(xs[i])
  {
    seq(|xs|, i requires 0 <= i < |xs| => Real(xs[i]))
  }

  /** A float matrix as a table of float values. */
  function FloatTable(m: seq<seq<real>>): (t: Field)
    ensures t.Table? && |t.rows| == |m|
    ensures forall i :: 0 <= i < |m| ==> |t.rows[i]| == |m[i]|
    ensures forall i, j :: 0 <= i < |m| && 0 <= j < |m[i]| ==> t.rows[i][j] == F(m[i][j])
  {
    Table(seq(|m|, i requires 0 <= i < |m| => seq(|m[i]|, j requires 0 <= j < |m[i]| => F(m[i][j]))))
  }

  /** A square matrix with zero diagonal that equals its transpose. */
  predicate SymmetricZeroDiagonal(m: seq<seq<real>>) {
    && (forall i :: 0 <= i < |m| ==> |m[i]| == |m|)
    && (forall i :: 0 <= i < |m| ==> m[i][i] == 0.0)
    && (forall i, j :: 0 <= i < |m| && 0 <= j < |m| ==> m[i][j] == m[j][i])
  }
}
