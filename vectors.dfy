/** Three-dimensional points and vectors over the reals.

    This module stands in for the numpy operations the voxelizer applies to
    rows of shape (3,): componentwise sums and differences, scalar products,
    division by a scalar, negation, dot and cross products, and the mean of
    a list of rows (`mean(axis=0)`). Coordinates are exact reals: rounding
    is not modelled. */
module Vectors {

  datatype Vec3 = Vec3(x: real, y: real, z: real)

  const Origin: Vec3 := Vec3(0.0, 0.0, 0.0)

  function Add(a: Vec3, b: Vec3): Vec3 {
    Vec3(a.x + b.x, a.y + b.y, a.z + b.z)
  }

  function Sub(a: Vec3, b: Vec3): Vec3 {
    Vec3(a.x - b.x, a.y - b.y, a.z - b.z)
  }

  function Neg(v: Vec3): Vec3 {
    Vec3(-v.x, -v.y, -v.z)
  }

  /** `s * v` */
  function Scale(s: real, v: Vec3): Vec3 {
    Vec3(s * v.x, s * v.y, s * v.z)
  }

  /** `v / s` */
  function Div(v: Vec3, s: real): Vec3
    requires s != 0.0
  {
    Vec3(v.x / s, v.y / s, v.z / s)
  }

  function Dot(a: Vec3, b: Vec3): real {
    a.x * b.x + a.y * b.y + a.z * b.z
  }

  function Cross(a: Vec3, b: Vec3): Vec3 {
    Vec3(a.y * b.z - a.z * b.y, a.z * b.x - a.x * b.z, a.x * b.y - a.y * b.x)
  }

  function Midpoint(a: Vec3, b: Vec3): Vec3 {
    Scale(0.5, Add(a, b))
  }

  /** The rows at the positions `idx` (numpy's `rows[idx]`). */
  function Gather(rows: seq<Vec3>, idx: seq<nat>): (r: seq<Vec3>)
    requires forall k :: 0 <= k < |idx| ==> idx[k] < |rows|
    ensures |r| == |idx|
  {
    seq(|idx|, k requires 0 <= k < |idx| => rows[idx[k]])
  }

  /** Componentwise sum of a list of rows. */
  function Sum(s: seq<Vec3>): Vec3 {
    if s == [] then Origin else Add(Sum(s[..|s| - 1]), s[|s| - 1])
  }

  /** `mean(axis=0)`: the sum divided by the number of rows. numpy yields
      NaN for an empty list; the model yields the origin there. */
  function Mean(s: seq<Vec3>): (m: Vec3)
    ensures |s| > 0 ==> Scale(|s| as real, m) == Sum(s)
  {
    if |s| == 0 then Origin else Div(Sum(s), |s| as real)
  }

  /** Every row of `s` translated by `-d`. */
  function Translate(s: seq<Vec3>, d: Vec3): (r: seq<Vec3>)
    ensures |r| == |s|
  {
    seq(|s|, k requires 0 <= k < |s| => Sub(s[k], d))
  }

  lemma DotNeg(n: Vec3, d: Vec3)
    ensures Dot(Neg(n), d) == -Dot(n, d)
  {
  }

  /** The cross product is perpendicular to both of its factors. */
  lemma CrossPerpendicular(a: Vec3, b: Vec3)
    ensures Dot(Cross(a, b), a) == 0.0 && Dot(Cross(a, b), b) == 0.0
  {
  }

  /** Dividing by a non-zero scalar, or negating, keeps a vector
      perpendicular to whatever it was perpendicular to. */
  lemma DivPerpendicular(v: Vec3, s: real, d: Vec3)
    requires s != 0.0 && Dot(v, d) == 0.0
    ensures Dot(Div(v, s), d) == 0.0 && Dot(Neg(Div(v, s)), d) == 0.0
  {
  }

  /** Dividing a vector by its Euclidean length gives a unit vector. */
  lemma DivByLengthIsUnit(v: Vec3, len: real)
    requires len > 0.0 && len * len == Dot(v, v)
    ensures Dot(Div(v, len), Div(v, len)) == 1.0
  {
    var u := Div(v, len);
    assert u.x * len == v.x && u.y * len == v.y && u.z * len == v.z;
    calc {
      Dot(u, u) * (len * len);
      (u.x * len) * (u.x * len) + (u.y * len) * (u.y * len) + (u.z * len) * (u.z * len);
      Dot(v, v);
      len * len;
    }
    assert len * len > 0.0;
  }

  /** Summing rows translated by `-d` subtracts `|s|` copies of `d`. */
  lemma {:induction false} SumTranslate(s: seq<Vec3>, d: Vec3)
    ensures Sum(Translate(s, d)) == Sub(Sum(s), Scale(|s| as real, d))
  {
    if s != [] {
      var n := |s|;
      assert Translate(s, d)[..n - 1] == Translate(s[..n - 1], d);
      SumTranslate(s[..n - 1], d);
    }
  }

  /** The mean of rows translated by `-d` is the mean translated by `-d`. */
  lemma MeanTranslate(s: seq<Vec3>, d: Vec3)
    requires |s| > 0
    ensures Mean(Translate(s, d)) == Sub(Mean(s), d)
  {
    SumTranslate(s, d);
    QuotientOfTranslate(Sum(s), d, |s| as real);
  }

  lemma QuotientOfTranslate(t: Vec3, d: Vec3, n: real)
    requires n != 0.0
    ensures Div(Sub(t, Scale(n, d)), n) == Sub(Div(t, n), d)
  {
  }

  /** The mean of four rows, as numpy computes it for a quad. */
  lemma MeanOfFour(s: seq<Vec3>)
    requires |s| == 4
    ensures Mean(s) == Div(Add(Add(Add(s[0], s[1]), s[2]), s[3]), 4.0)
  {
    assert s[..3][..2] == s[..2] && s[..2][..1] == s[..1] && s[..1][..0] == [];
    assert Sum(s[..1]) == Add(Origin, s[0]);
    assert Sum(s[..2]) == Add(Sum(s[..1]), s[1]);
    assert Sum(s[..3]) == Add(Sum(s[..2]), s[2]);
  }
}
