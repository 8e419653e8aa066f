/**
 * Euclidean distance between coordinate rows and the roundings applied to it. The square
 * root is a parameter of every matrix that uses it (numpy's and math's sqrt); the squared
 * distance, floor and round-half-to-even are exact.
 */
module Geometry {

  /** The squared Euclidean distance, over the coordinates the two rows share (Python's zip). */
  function SqDist(p: seq<real>, q: seq<real>): (d: real)
    ensures d >= 0.0
    decreases |p|
  {
    if p == [] || q == [] then 0.0 else (p[0] - q[0]) * (p[0] - q[0]) + SqDist(p[1..], q[1..])
  }

  lemma {:induction false} SqDistSymmetric(p: seq<real>, q: seq<real>)
    ensures SqDist(p, q) == SqDist(q, p)
    decreases |p|
  {
    if p != [] && q != [] {
      SqDistSymmetric(p[1..], q[1..]);
    }
  }

  lemma {:induction false} SqDistSelf(p: seq<real>)
    ensures SqDist(p, p) == 0.0
    decreases |p|
  {
    if p != [] {
      SqDistSelf(p[1..]);
    }
  }

  /** The distance sqrt computes from the squared distance. */
  function Dist(p: seq<real>, q: seq<real>, sqrt: real -> real): real {
    sqrt(SqDist(p, q))
  }

  /** Rounding to the nearest integer with ties to the even one (Python's round, numpy's round). */
  function RoundHalfEven(x: real): (r: int)
    ensures -1.0 / 2.0 <= (r as real) - x <= 1.0 / 2.0
    ensures (r as real) - x == 1.0 / 2.0 || x - (r as real) == 1.0 / 2.0 ==> r % 2 == 0
  {
    var f := x.Floor;
    var d := x - f as real;
    if d < 1.0 / 2.0 then f
    else if d > 1.0 / 2.0 then f + 1
    else if f % 2 == 0 then f
    else f + 1
  }

  /** math.floor and numpy's floor: the largest integer not above x. */
  function Floor(x: real): (r: int)
    ensures (r as real) <= x < (r as real) + 1.0
  {
    x.Floor
  }
}
