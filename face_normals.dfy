/** Per-face normals of a quad mesh (`compute_face_normals`).

    A face's normal is the cross product of its two diagonals, divided by
    its length when that length exceeds a tolerance, and negated when it
    points toward the centroid of all vertices. The Euclidean length
    (`np.linalg.norm`) is a parameter `norm`: the reals of the model have no
    square root, and nothing below depends on which function it is except
    the unit-length lemma, which assumes it is the Euclidean length. */
module FaceNormals {
  import opened Vectors
  import opened Meshes

  /** `1e-12`: at or below this length the cross product is left as it is. */
  const Tolerance: real := 0.000000000001

  /** `(p2 - p0) × (p3 - p1)`: perpendicular to both diagonals of the quad. */
  function DiagonalCross(pts: seq<Vec3>): (n: Vec3)
    requires |pts| == 4
    ensures Dot(n, Sub(pts[2], pts[0])) == 0.0 && Dot(n, Sub(pts[3], pts[1])) == 0.0
  {
    CrossPerpendicular(Sub(pts[2], pts[0]), Sub(pts[3], pts[1]));
    Cross(Sub(pts[2], pts[0]), Sub(pts[3], pts[1]))
  }

  /** `n / length` when `length > 1e-12`, otherwise `n` unchanged. */
  function Normalise(n: Vec3, length: real): (u: Vec3)
    ensures length > Tolerance ==> Scale(length, u) == n
    ensures length <= Tolerance ==> u == n
  {
    if length > Tolerance then Div(n, length) else n
  }

  /** `n` or `-n`, whichever does not point against `d`; `n` itself unless
      it points against `d`. */
  function Orient(n: Vec3, d: Vec3): (r: Vec3)
    ensures r == n || r == Neg(n)
    ensures Dot(r, d) >= 0.0
    ensures Dot(n, d) >= 0.0 ==> r == n
  {
    DotNeg(n, d);
    if Dot(n, d) < 0.0 then Neg(n) else n
  }

  /** The normal `compute_face_normals` produces for the quad `fv`, given the
      centroid of all vertices. */
  function FaceNormal(xyz: seq<Vec3>, fv: seq<nat>, centroid: Vec3, norm: Vec3 -> real): (n: Vec3)
    requires IsQuadOver(fv, |xyz|)
    ensures Dot(n, Sub(Mean(Gather(xyz, fv)), centroid)) >= 0.0
  {
    var pts := Gather(xyz, fv);
    var raw := DiagonalCross(pts);
    Orient(Normalise(raw, norm(raw)), Sub(Mean(pts), centroid))
  }

  /** What the normal is: the diagonal cross product, scaled by one over its
      length exactly when that length exceeds the tolerance, possibly
      negated; it does not point toward the centroid; it is perpendicular to
      both diagonals of the face. */
  lemma FaceNormalShape(xyz: seq<Vec3>, fv: seq<nat>, centroid: Vec3, norm: Vec3 -> real)
    requires IsQuadOver(fv, |xyz|)
    ensures var pts := Gather(xyz, fv);
            var raw := DiagonalCross(pts);
            var n := FaceNormal(xyz, fv, centroid, norm);
            && (norm(raw) > Tolerance ==> n == Div(raw, norm(raw)) || n == Neg(Div(raw, norm(raw))))
            && (norm(raw) <= Tolerance ==> n == raw || n == Neg(raw))
            && Dot(n, Sub(Mean(pts), centroid)) >= 0.0
            && Dot(n, Sub(pts[2], pts[0])) == 0.0
            && Dot(n, Sub(pts[3], pts[1])) == 0.0
  {
    var pts := Gather(xyz, fv);
    var raw := DiagonalCross(pts);
    if norm(raw) > Tolerance {
      DivPerpendicular(raw, norm(raw), Sub(pts[2], pts[0]));
      DivPerpendicular(raw, norm(raw), Sub(pts[3], pts[1]));
    }
  }

  /** When `norm` gives the Euclidean length of the diagonal cross product
      and that length exceeds the tolerance, the normal has unit length. */
  lemma FaceNormalIsUnit(xyz: seq<Vec3>, fv: seq<nat>, centroid: Vec3, norm: Vec3 -> real)
    requires IsQuadOver(fv, |xyz|)
    requires var raw := DiagonalCross(Gather(xyz, fv));
             norm(raw) > Tolerance && norm(raw) * norm(raw) == Dot(raw, raw)
    ensures var n := FaceNormal(xyz, fv, centroid, norm); Dot(n, n) == 1.0
  {
    var raw := DiagonalCross(Gather(xyz, fv));
    var u := Div(raw, norm(raw));
    DivByLengthIsUnit(raw, norm(raw));
    assert Dot(Neg(u), Neg(u)) == Dot(u, u);
  }

  /** A face lying in the plane z = 0 gets a vertical normal; with the
      Euclidean length and a non-degenerate face it is (0, 0, 1) or
      (0, 0, -1). */
  lemma FlatFaceNormal(xyz: seq<Vec3>, fv: seq<nat>, centroid: Vec3, norm: Vec3 -> real)
    requires IsQuadOver(fv, |xyz|)
    requires forall k :: 0 <= k < 4 ==> xyz[fv[k]].z == 0.0
    ensures var n := FaceNormal(xyz, fv, centroid, norm); n.x == 0.0 && n.y == 0.0
    ensures var raw := DiagonalCross(Gather(xyz, fv));
            norm(raw) > Tolerance && norm(raw) * norm(raw) == Dot(raw, raw) ==>
              FaceNormal(xyz, fv, centroid, norm) in {Vec3(0.0, 0.0, 1.0), Vec3(0.0, 0.0, -1.0)}
  {
    var pts := Gather(xyz, fv);
    var d0, d1 := Sub(pts[2], pts[0]), Sub(pts[3], pts[1]);
    assert d0.z == 0.0 && d1.z == 0.0;
    var raw := DiagonalCross(pts);
    assert raw == Cross(d0, d1);
    assert raw.x == 0.0 && raw.y == 0.0;
    var u := Normalise(raw, norm(raw));
    assert u.x == 0.0 && u.y == 0.0;
    var n := FaceNormal(xyz, fv, centroid, norm);
    assert n == u || n == Neg(u);
    if norm(raw) > Tolerance && norm(raw) * norm(raw) == Dot(raw, raw) {
      FaceNormalIsUnit(xyz, fv, centroid, norm);
      assert n.z * n.z == 1.0;
      UnitSquareRoot(n.z);
    }
  }

  /** The only reals whose square is 1 are 1 and -1. */
  lemma UnitSquareRoot(z: real)
    requires z * z == 1.0
    ensures z == 1.0 || z == -1.0
  {
  }

  /** `compute_face_normals`: one normal per face, in face order. */
  method ComputeFaceNormals(xyz: seq<Vec3>, mesh: Mesh, norm: Vec3 -> real) returns (normals: seq<Vec3>)
    requires QuadMesh(mesh, |xyz|)
    ensures |normals| == |mesh.faces|
    ensures forall i :: 0 <= i < |mesh.faces| ==>
      normals[i] == FaceNormal(xyz, mesh.faceVertices(mesh.faces[i]), Mean(xyz), norm)
    ensures forall i :: 0 <= i < |mesh.faces| ==>
      Dot(normals[i], Sub(Mean(Gather(xyz, mesh.faceVertices(mesh.faces[i]))), Mean(xyz))) >= 0.0
  {
    var centroid := Mean(xyz);
    normals := [];
    var i := 0;
    while i < |mesh.faces|
      invariant 0 <= i <= |mesh.faces|
      invariant |normals| == i
      invariant forall j :: 0 <= j < i ==>
        normals[j] == FaceNormal(xyz, mesh.faceVertices(mesh.faces[j]), centroid, norm)
    {
      var fv := mesh.faceVertices(mesh.faces[i]);
      var pts := Gather(xyz, fv);
      var d0 := Sub(pts[2], pts[0]);
      var d1 := Sub(pts[3], pts[1]);
      var n := Cross(d0, d1);
      var length := norm(n);
      if length > Tolerance {
        n := Div(n, length);
      }
      var faceCenter := Mean(pts);
      if Dot(n, Sub(faceCenter, centroid)) < 0.0 {
        n := Neg(n);
      }
      normals := normals + [n];
      i := i + 1;
    }
  }
}
