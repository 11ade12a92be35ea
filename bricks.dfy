/** Bricks: the extrusion of a face into a brick, the `BrickAssembly`
    record, `voxelize` and `brick_faces`. */
module Bricks {
  import opened Vectors
  import opened Meshes
  import opened FaceNormals
  import opened Adjacency

  /** The brick assembly: parallel lists indexed by brick. `corners[i]` holds
      eight points, the outer quad (0-3) then the inner quad (4-7). */
  datatype BrickAssembly = BrickAssembly(
    centers: seq<Vec3>,
    normals: seq<Vec3>,
    neighbors: seq<seq<nat>>,
    thickness: real,
    corners: seq<seq<Vec3>>,
    faceVertices: seq<seq<nat>>)
  {
    /** `len(assembly)`: the number of centers. */
    function Length(): nat {
      |centers|
    }
  }

  /** The inner quad: each outer point moved by `-thickness * normal`. */
  function InnerQuad(pts: seq<Vec3>, thickness: real, normal: Vec3): (inner: seq<Vec3>)
    ensures |inner| == |pts|
  {
    Translate(pts, Scale(thickness, normal))
  }

  /** The eight corners of the brick over the outer quad `pts`. */
  function BrickCorners(pts: seq<Vec3>, thickness: real, normal: Vec3): (c: seq<Vec3>)
    requires |pts| == 4
    ensures |c| == 8
    ensures c[..4] == pts && c[4..] == InnerQuad(pts, thickness, normal)
  {
    pts + InnerQuad(pts, thickness, normal)
  }

  /** `pts.mean(axis=0) - 0.5 * thickness * normal` */
  function BrickCenter(pts: seq<Vec3>, thickness: real, normal: Vec3): Vec3 {
    Sub(Mean(pts), Scale(0.5 * thickness, normal))
  }

  /** The center lies halfway between the centroids of the outer and the
      inner quad. */
  lemma CenterIsMidpoint(pts: seq<Vec3>, thickness: real, normal: Vec3)
    requires |pts| == 4
    ensures BrickCenter(pts, thickness, normal)
              == Midpoint(Mean(pts), Mean(InnerQuad(pts, thickness, normal)))
  {
    MeanTranslate(pts, Scale(thickness, normal));
  }

  /** The inner quad is the outer quad translated: corresponding edges are
      equal, so the two quads are congruent and parallel. */
  lemma InnerQuadParallel(pts: seq<Vec3>, thickness: real, normal: Vec3, k: nat, l: nat)
    requires |pts| == 4 && k < 4 && l < 4
    ensures var c := BrickCorners(pts, thickness, normal);
            Sub(c[l + 4], c[k + 4]) == Sub(c[l], c[k])
  {
  }

  /** With a unit normal, every inner corner lies exactly `thickness` behind
      its outer corner, measured along the normal. */
  lemma InnerOffsetAlongNormal(pts: seq<Vec3>, thickness: real, normal: Vec3, k: nat)
    requires |pts| == 4 && k < 4
    requires Dot(normal, normal) == 1.0
    ensures var c := BrickCorners(pts, thickness, normal);
            Dot(Sub(c[k], c[k + 4]), normal) == thickness
  {
  }

  /** A flat face in z = 0 whose normal is (0, 0, 1): outer corners at
      z = 0, inner corners at z = -thickness, center at z = -thickness / 2. */
  lemma FlatBrick(pts: seq<Vec3>, thickness: real)
    requires |pts| == 4
    requires forall k :: 0 <= k < 4 ==> pts[k].z == 0.0
    ensures var c := BrickCorners(pts, thickness, Vec3(0.0, 0.0, 1.0));
            && (forall k :: 0 <= k < 4 ==> c[k].z == 0.0)
            && (forall k :: 4 <= k < 8 ==> c[k].z == -thickness)
            && BrickCenter(pts, thickness, Vec3(0.0, 0.0, 1.0)).z == -0.5 * thickness
  {
    MeanOfFour(pts);
  }

  /** The extrusion loop of `voxelize`: fills the preallocated `centers`
      and `corners` rows, one brick per face, and records each face's
      vertex list. */
  method ExtrudeFaces(xyz: seq<Vec3>, mesh: Mesh, thickness: real, normals: seq<Vec3>)
    returns (centerRows: seq<Vec3>, cornerRows: seq<seq<Vec3>>, faceVertsList: seq<seq<nat>>)
    requires QuadMesh(mesh, |xyz|) && |normals| == |mesh.faces|
    ensures |centerRows| == |cornerRows| == |faceVertsList| == |mesh.faces|
    ensures forall i :: 0 <= i < |mesh.faces| ==> faceVertsList[i] == mesh.faceVertices(mesh.faces[i])
    ensures forall i :: 0 <= i < |mesh.faces| ==>
      cornerRows[i] == BrickCorners(Gather(xyz, faceVertsList[i]), thickness, normals[i])
    ensures forall i :: 0 <= i < |mesh.faces| ==>
      centerRows[i] == BrickCenter(Gather(xyz, faceVertsList[i]), thickness, normals[i])
  {
    var faces := mesh.faces;
    var nBricks := |faces|;
    var centers := new Vec3[nBricks];
    var corners := new seq<Vec3>[nBricks];
    faceVertsList := [];

    var i := 0;
    while i < nBricks
      invariant 0 <= i <= nBricks
      invariant |faceVertsList| == i
      invariant forall j :: 0 <= j < i ==> faceVertsList[j] == mesh.faceVertices(faces[j])
      invariant forall j :: 0 <= j < i ==>
        corners[j] == BrickCorners(Gather(xyz, faceVertsList[j]), thickness, normals[j])
      invariant forall j :: 0 <= j < i ==>
        centers[j] == BrickCenter(Gather(xyz, faceVertsList[j]), thickness, normals[j])
    {
      var fv := mesh.faceVertices(faces[i]);
      faceVertsList := faceVertsList + [fv];
      var pts := Gather(xyz, fv);
      corners[i] := pts + InnerQuad(pts, thickness, normals[i]);
      centers[i] := Sub(Mean(pts), Scale(0.5 * thickness, normals[i]));
      i := i + 1;
    }
    centerRows, cornerRows := centers[..], corners[..];
  }

  /** The inner adjacency loop of `voxelize`: appends to `neighbors[i]` the
      brick index of each face of `nbFaces` found in `faceToIdx`. */
  method AppendNeighbors(neighbors: array<seq<nat>>, i: nat, faceToIdx: map<FaceKey, nat>, nbFaces: seq<FaceKey>)
    requires i < neighbors.Length
    modifies neighbors
    ensures neighbors[i] == old(neighbors[i]) + BrickNeighbors(faceToIdx, nbFaces)
    ensures forall j :: 0 <= j < neighbors.Length && j != i ==> neighbors[j] == old(neighbors[j])
  {
    var k := 0;
    while k < |nbFaces|
      invariant 0 <= k <= |nbFaces|
      invariant neighbors[i] == old(neighbors[i]) + BrickNeighbors(faceToIdx, nbFaces[..k])
      invariant forall j :: 0 <= j < neighbors.Length && j != i ==> neighbors[j] == old(neighbors[j])
    {
      var nbFace := nbFaces[k];
      assert nbFaces[..k + 1][..k] == nbFaces[..k];
      if nbFace in faceToIdx {
        neighbors[i] := neighbors[i] + [faceToIdx[nbFace]];
      }
      k := k + 1;
    }
    assert nbFaces[..k] == nbFaces;
  }

  /** The adjacency loop of `voxelize`: for each face, the brick indices of
      its neighbour faces that are in `face_to_idx`, in query order. */
  method BuildNeighbors(mesh: Mesh) returns (neighborRows: seq<seq<nat>>)
    ensures neighborRows == BrickAdjacency(mesh)
  {
    var faces := mesh.faces;
    var nBricks := |faces|;
    var faceToIdx := IndexTable(faces);
    var neighbors := new seq<nat>[nBricks](_ => []);
    ghost var adjacency := BrickAdjacency(mesh);
    var i := 0;
    while i < nBricks
      invariant 0 <= i <= nBricks
      invariant forall j :: 0 <= j < nBricks ==> neighbors[j] == if j < i then adjacency[j] else []
    {
      AppendNeighbors(neighbors, i, faceToIdx, mesh.faceNeighbors(faces[i]));
      assert neighbors[i] == adjacency[i] by {
        assert [] + adjacency[i] == adjacency[i];
      }
      i := i + 1;
    }
    neighborRows := neighbors[..];
    assert forall j :: 0 <= j < nBricks ==> neighborRows[j] == adjacency[j];
  }

  /** `voxelize`: the face normals, one brick per face extruded inward along
      its normal, then the brick adjacency. The thickness defaults to 0.2
      and is not checked. */
  method Voxelize(xyz: seq<Vec3>, mesh: Mesh, norm: Vec3 -> real, thickness: real := 0.2)
    returns (asm: BrickAssembly)
    requires QuadMesh(mesh, |xyz|)
    ensures asm.Length() == |mesh.faces|
    ensures |asm.normals| == |asm.corners| == |asm.neighbors| == |asm.faceVertices| == asm.Length()
    ensures asm.thickness == thickness
    ensures forall i :: 0 <= i < |mesh.faces| ==>
      asm.faceVertices[i] == mesh.faceVertices(mesh.faces[i])
    ensures forall i :: 0 <= i < |mesh.faces| ==>
      asm.normals[i] == FaceNormal(xyz, asm.faceVertices[i], Mean(xyz), norm)
    ensures forall i :: 0 <= i < |mesh.faces| ==>
      && |asm.corners[i]| == 8
      && asm.corners[i][..4] == Gather(xyz, asm.faceVertices[i])
      && asm.corners[i][4..] == Translate(asm.corners[i][..4], Scale(thickness, asm.normals[i]))
    ensures forall i :: 0 <= i < |mesh.faces| ==>
      asm.centers[i] == Sub(Mean(asm.corners[i][..4]), Scale(0.5 * thickness, asm.normals[i]))
    ensures forall i :: 0 <= i < |mesh.faces| ==>
      Dot(asm.normals[i], Sub(Mean(asm.corners[i][..4]), Mean(xyz))) >= 0.0
    ensures asm.neighbors == BrickAdjacency(mesh)
  {
    var normals := ComputeFaceNormals(xyz, mesh, norm);
    var centers, corners, faceVerts := ExtrudeFaces(xyz, mesh, thickness, normals);
    var neighbors := BuildNeighbors(mesh);
    asm := BrickAssembly(centers, normals, neighbors, thickness, corners, faceVerts);
  }

  /** The corner positions of the six faces of a brick: outer, inner
      (reversed), then the sides over the outer edges 0-1, 1-2, 2-3, 3-0. */
  const BrickFaceIndices: seq<seq<nat>> :=
    [[0, 1, 2, 3], [7, 6, 5, 4], [0, 1, 5, 4], [1, 2, 6, 5], [2, 3, 7, 6], [3, 0, 4, 7]]

  /** `brick_faces`: six quads, each made of input corners. */
  function BrickFaces(c: seq<Vec3>): (quads: seq<seq<Vec3>>)
    requires |c| == 8
    ensures |quads| == 6
    ensures forall f :: 0 <= f < 6 ==> |quads[f]| == 4
    ensures forall f, k :: 0 <= f < 6 && 0 <= k < |quads[f]| ==> quads[f][k] in c
  {
    seq(6, f requires 0 <= f < 6 => Gather(c, BrickFaceIndices[f]))
  }

  /** The layout of the six quads: the outer quad in face order, the inner
      quad in reverse, and for each outer edge k -> k+1 (mod 4) the side
      quad through both of its ends and the inner corners beneath them. */
  lemma BrickFacesLayout(c: seq<Vec3>)
    requires |c| == 8
    ensures BrickFaces(c)[0] == c[..4]
    ensures BrickFaces(c)[1] == [c[7], c[6], c[5], c[4]]
    ensures forall k :: 0 <= k < 4 ==> BrickFaces(c)[2 + k] == SideQuad(c, k)
  {
  }

  /** The side quad over the outer edge k -> k+1 (mod 4): both ends, then
      the inner corners beneath them in reverse. */
  function SideQuad(c: seq<Vec3>, k: nat): seq<Vec3>
    requires |c| == 8 && k < 4
  {
    [c[k], c[(k + 1) % 4], c[(k + 1) % 4 + 4], c[k + 4]]
  }

  /** Whether the corners `a` and `b` are the two ends of the edge `p`-`q`. */
  predicate Joins(p: nat, q: nat, a: nat, b: nat) {
    (p == a && q == b) || (p == b && q == a)
  }

  /** Whether the quad `idx` has the undirected edge `a`-`b` on its boundary. */
  predicate HasEdge(idx: seq<nat>, a: nat, b: nat)
    requires |idx| == 4
  {
    Joins(idx[0], idx[1], a, b) || Joins(idx[1], idx[2], a, b)
    || Joins(idx[2], idx[3], a, b) || Joins(idx[3], idx[0], a, b)
  }

  /** The number of quads in `faces` that use corner `v`. */
  function CornerDegree(faces: seq<seq<nat>>, v: nat): nat {
    if faces == [] then 0
    else CornerDegree(faces[..|faces| - 1], v) + (if v in faces[|faces| - 1] then 1 else 0)
  }

  /** The number of quads in `faces` bounded by the edge `a`-`b`. */
  function EdgeDegree(faces: seq<seq<nat>>, a: nat, b: nat): nat
    requires forall f :: 0 <= f < |faces| ==> |faces[f]| == 4
  {
    if faces == [] then 0
    else EdgeDegree(faces[..|faces| - 1], a, b) + (if HasEdge(faces[|faces| - 1], a, b) then 1 else 0)
  }

  /** The twelve edges of a hexahedron over the corners 0-7: the outer ring,
      the inner ring and the four edges from an outer to its inner corner. */
  predicate IsBrickEdge(a: nat, b: nat) {
    var lo, hi := if a < b then a else b, if a < b then b else a;
    (hi < 4 && (hi == lo + 1 || (lo == 0 && hi == 3)))
    || (4 <= lo && hi < 8 && (hi == lo + 1 || (lo == 4 && hi == 7)))
    || (lo < 4 && hi == lo + 4)
  }

  /** Every corner belongs to exactly three of the six quads. */
  lemma CornerInThreeFaces(v: nat)
    requires v < 8
    ensures CornerDegree(BrickFaceIndices, v) == 3
  {
    var F := BrickFaceIndices;
    assert F[..1][..0] == F[..0] && F[..2][..1] == F[..1] && F[..3][..2] == F[..2];
    assert F[..4][..3] == F[..3] && F[..5][..4] == F[..4] && F[..6][..5] == F[..5] && F[..6] == F;
    assert CornerDegree(F[..1], v) == (if v in F[0] then 1 else 0);
    assert CornerDegree(F[..2], v) == CornerDegree(F[..1], v) + (if v in F[1] then 1 else 0);
    assert CornerDegree(F[..3], v) == CornerDegree(F[..2], v) + (if v in F[2] then 1 else 0);
    assert CornerDegree(F[..4], v) == CornerDegree(F[..3], v) + (if v in F[3] then 1 else 0);
    assert CornerDegree(F[..5], v) == CornerDegree(F[..4], v) + (if v in F[4] then 1 else 0);
    assert CornerDegree(F, v) == CornerDegree(F[..5], v) + (if v in F[5] then 1 else 0);
  }

  /** The edge degree over the six quads, written out face by face. */
  lemma EdgeDegreeOfBrick(a: nat, b: nat)
    ensures EdgeDegree(BrickFaceIndices, a, b)
      == (if HasEdge([0, 1, 2, 3], a, b) then 1 else 0) + (if HasEdge([7, 6, 5, 4], a, b) then 1 else 0)
       + (if HasEdge([0, 1, 5, 4], a, b) then 1 else 0) + (if HasEdge([1, 2, 6, 5], a, b) then 1 else 0)
       + (if HasEdge([2, 3, 7, 6], a, b) then 1 else 0) + (if HasEdge([3, 0, 4, 7], a, b) then 1 else 0)
  {
    var F := BrickFaceIndices;
    assert F[..1][..0] == F[..0] && F[..2][..1] == F[..1] && F[..3][..2] == F[..2];
    assert F[..4][..3] == F[..3] && F[..5][..4] == F[..4] && F[..6][..5] == F[..5] && F[..6] == F;
    assert EdgeDegree(F[..1], a, b) == (if HasEdge(F[0], a, b) then 1 else 0);
    assert EdgeDegree(F[..2], a, b) == EdgeDegree(F[..1], a, b) + (if HasEdge(F[1], a, b) then 1 else 0);
    assert EdgeDegree(F[..3], a, b) == EdgeDegree(F[..2], a, b) + (if HasEdge(F[2], a, b) then 1 else 0);
    assert EdgeDegree(F[..4], a, b) == EdgeDegree(F[..3], a, b) + (if HasEdge(F[3], a, b) then 1 else 0);
    assert EdgeDegree(F[..5], a, b) == EdgeDegree(F[..4], a, b) + (if HasEdge(F[4], a, b) then 1 else 0);
  }

  /** The six quads close up: each edge of the hexahedron bounds exactly two
      of them, and no other pair of corners is an edge of any of them. */
  lemma EdgesInTwoFaces(a: nat, b: nat)
    requires a < b < 8
    ensures EdgeDegree(BrickFaceIndices, a, b) == if IsBrickEdge(a, b) then 2 else 0
  {
    EdgeDegreeOfBrick(a, b);
  }
}
