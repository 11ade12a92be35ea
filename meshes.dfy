/** The quad mesh the voxelizer reads, seen only through the three queries
    it makes: `faces()` (the face keys, in iteration order),
    `face_vertices(face)` (a face's vertex indices, in face order) and
    `face_neighbors(face)` (the faces sharing an edge with it, in query
    order). Vertex coordinates are a separate list indexed by vertex. */
module Meshes {

  type FaceKey = int

  datatype Mesh = Mesh(
    faces: seq<FaceKey>,
    faceVertices: FaceKey -> seq<nat>,
    faceNeighbors: FaceKey -> seq<FaceKey>)

  /** A quad whose four vertex indices all lie in `[0, nVertices)`. */
  predicate IsQuadOver(fv: seq<nat>, nVertices: nat) {
    |fv| == 4 && forall k :: 0 <= k < |fv| ==> fv[k] < nVertices
  }

  /** Every face of the mesh is a quad over the first `nVertices` vertices:
      the shape the voxelizer assumes and does not check. */
  predicate QuadMesh(m: Mesh, nVertices: nat) {
    forall i :: 0 <= i < |m.faces| ==> IsQuadOver(m.faceVertices(m.faces[i]), nVertices)
  }

  /** No face key occurs twice in `faces`. */
  predicate Distinct(faces: seq<FaceKey>) {
    forall i, j :: 0 <= i < j < |faces| ==> faces[i] != faces[j]
  }

  /** No face key is listed twice by the mesh. */
  predicate DistinctFaces(m: Mesh) {
    Distinct(m.faces)
  }

  /** The neighbour query is symmetric on the listed faces. */
  predicate SymmetricNeighbors(m: Mesh) {
    forall i, j :: 0 <= i < |m.faces| && 0 <= j < |m.faces| ==>
      (m.faces[j] in m.faceNeighbors(m.faces[i]) <==> m.faces[i] in m.faceNeighbors(m.faces[j]))
  }
}
