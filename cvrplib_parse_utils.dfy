/**
 * Helpers of the earlier parser (cvrplib/parse/parse_utils.py): line stripping and the
 * pairwise Euclidean distances with a rounding function. Its infer_type is the same code as the
 * current parser's and is Tokens.InferType.
 */
module CvrplibParseUtils {
  import opened Text
  import opened Lists
  import opened Geometry
  import opened LowerTriangle

  predicate NonEmpty(t: string) {
    t != []
  }

  /** strip_lines: every line stripped, the empty ones dropped. */
  function StripLines(lines: seq<string>): (r: seq<string>)
    ensures |r| <= |lines|
    ensures forall k :: 0 <= k < |r| ==> r[k] != [] && IsStripped(r[k])
  {
    KeepMappedAll(lines, Strip, NonEmpty, IsStripped);
    KeepMapped(lines, Strip, NonEmpty)
  }

  /** strip_lines keeps exactly the lines that are not blank, stripped, in their original order. */
  lemma StripLinesSelects(lines: seq<string>) returns (idx: seq<nat>)
    ensures && |idx| == |StripLines(lines)| && StrictlyIncreasing(idx)
      && (forall m :: 0 <= m < |idx| ==> idx[m] < |lines| && StripLines(lines)[m] == Strip(lines[idx[m]]))
      && (forall i :: 0 <= i < |lines| && Strip(lines[i]) != [] ==> i in idx)
  {
    idx := KeepMappedSelects(lines, Strip, NonEmpty);
  }

  /** strip_lines is idempotent. */
  lemma StripLinesIdempotent(lines: seq<string>)
    ensures StripLines(StripLines(lines)) == StripLines(lines)
  {
    var r := StripLines(lines);
    forall k | 0 <= k < |r| ensures Strip(r[k]) == r[k] {
      StripStripped(r[k]);
    }
    KeepMappedFixed(r, Strip, NonEmpty);
  }

  /**
   * The text2lines the earlier parser imports, which cvrplib/parse/parse_utils.py does not define:
   * taken to be strip_lines over the lines of the text.
   */
  function Text2Lines(text: string): (r: seq<string>)
    ensures forall k :: 0 <= k < |r| ==> r[k] != [] && IsStripped(r[k])
  {
    StripLines(SplitLines(text))
  }

  /** Lines with no line break and not blank, written one per line, are read back stripped. */
  lemma Text2LinesOfUnlines(lines: seq<string>)
    requires forall k :: 0 <= k < |lines| ==> NoLineBreak(lines[k]) && Strip(lines[k]) != []
    ensures Text2Lines(Unlines(lines)) == seq(|lines|, k requires 0 <= k < |lines| => Strip(lines[k]))
  {
    SplitLinesOfUnlines(lines);
    KeepMappedEvery(lines, Strip, NonEmpty);
  }

  // ----- euclidean -----

  /**
   * Entry (a, b) of euclidean's matrix: round_func of the distance of the pair (min, max), which the
   * loop computes once and stores on both sides; the diagonal keeps the initial zero.
   */
  function EuclideanCell<U>(coords: seq<seq<real>>, round: real -> U, zero: U, sqrt: real -> real, a: nat, b: nat): U
    requires a < |coords| && b < |coords|
  {
    if a < b then round(Dist(coords[a], coords[b], sqrt))
    else if b < a then round(Dist(coords[b], coords[a], sqrt))
    else zero
  }

  function EuclideanMatrix<U>(coords: seq<seq<real>>, round: real -> U, zero: U, sqrt: real -> real): seq<seq<U>> {
    var n := |coords|;
    seq(n, a requires 0 <= a < n => seq(n, b requires 0 <= b < n => EuclideanCell(coords, round, zero, sqrt, a, b)))
  }

  /**
   * euclidean gives an n x n symmetric matrix with the zero on its diagonal, and every entry off the
   * diagonal is round_func of the distance between the two coordinate rows.
   */
  lemma EuclideanProperties<U>(coords: seq<seq<real>>, round: real -> U, zero: U, sqrt: real -> real)
    ensures var m := EuclideanMatrix(coords, round, zero, sqrt);
      |m| == |coords| && Mirrored(m, zero)
      && forall a, b :: 0 <= a < |coords| && 0 <= b < |coords| && a != b ==> m[a][b] == round(Dist(coords[a], coords[b], sqrt))
  {
    forall a, b | 0 <= a < |coords| && 0 <= b < |coords|
      ensures EuclideanCell(coords, round, zero, sqrt, a, b) == if a == b then zero else round(Dist(coords[a], coords[b], sqrt))
    {
      SqDistSymmetric(coords[a], coords[b]);
    }
  }

  /** euclidean as written: a zero matrix, then each pair i < j in combination order stored at (i, j) and (j, i). */
  method Euclidean<U>(coords: seq<seq<real>>, round: real -> U, zero: U, sqrt: real -> real) returns (d: array2<U>)
    ensures d.Length0 == |coords| && d.Length1 == |coords|
    ensures forall a, b :: 0 <= a < |coords| && 0 <= b < |coords| ==> d[a, b] == EuclideanMatrix(coords, round, zero, sqrt)[a][b]
  {
    var n := |coords|;
    d := new U[n, n]((_, _) => zero);
    var i := 0;
    while i < n
      invariant 0 <= i <= n
      invariant forall a, b :: 0 <= a < n && 0 <= b < n ==>
        d[a, b] == if Stored(i, 0, a, b) then EuclideanCell(coords, round, zero, sqrt, a, b) else zero
    {
      var j := i + 1;
      while j < n
        invariant i + 1 <= j <= n
        invariant forall a, b :: 0 <= a < n && 0 <= b < n ==>
          d[a, b] == if Stored(i, j, a, b) then EuclideanCell(coords, round, zero, sqrt, a, b) else zero
      {
        var dij := round(Dist(coords[i], coords[j], sqrt));
        d[i, j] := dij;
        d[j, i] := dij;
        j := j + 1;
      }
      i := i + 1;
    }
  }
}
