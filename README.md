# Vault voxelizer: a Dafny model

This project models the brick discretisation of the vault designer
(`src/vault_designer/voxelize.py`). It turns a form-found quad mesh into an
assembly of hexahedral bricks, one per mesh face. The pipeline has four steps:

1. `compute_face_normals` builds one normal per face. It takes the cross
   product of the two diagonals and divides it by its length when the length
   is above `1e-12`. It then negates the normal when it points toward the
   centroid of all vertices.
2. `voxelize` extrudes each face inward along its normal. The outer corners
   are the face's points. The inner corners are those points minus
   `thickness * normal`. The center is the face mean minus
   `0.5 * thickness * normal`.
3. `voxelize` then numbers the faces (`face_to_idx`) and translates each
   face's neighbour query into brick indices. It drops neighbours that are
   not in the table.
4. `brick_faces` picks the six quads of a brick out of its eight corners.

Modules:

- `Vectors` (vectors.dfy): the numpy row arithmetic the voxelizer uses, on
  exact reals.
- `Meshes` (meshes.dfy): the mesh as the three queries the voxelizer makes:
  `faces()`, `face_vertices(face)` and `face_neighbors(face)`.
- `FaceNormals` (face_normals.dfy): `compute_face_normals`. It is a method
  with the source's loop, specified by the function `FaceNormal`.
- `Adjacency` (adjacency.dfy): the `face_to_idx` table and the neighbour
  translation.
- `Bricks` (bricks.dfy): `BrickAssembly`, the extrusion and adjacency loops,
  `voxelize` and `brick_faces`.

The source fills preallocated numpy arrays in place. The model does the same
with Dafny arrays and returns their contents in an immutable `BrickAssembly`
value. The source builds the dataclass once and never changes it afterwards.

Two behaviours of the code shape the contracts:

- The code does not reject `thickness <= 0`. `voxelize` has no check, so
  `Voxelize` takes any thickness. Its default is 0.2, as in
  the code.
- The code leaves a degenerate face's normal unnormalised and reports no error.
  The model does the same.

## Model

| member | source | states |
|---|---|---|
| `Vectors.Mean` | src/vault_designer/voxelize.py:68 | `mean(axis=0)`: for a non-empty list, the row count times the mean is the componentwise sum |
| `Vectors.CrossPerpendicular` | src/vault_designer/voxelize.py:77 | `np.cross(d0, d1)` is perpendicular to `d0` and to `d1` |
| `Vectors.DivByLengthIsUnit` | src/vault_designer/voxelize.py:78-80 | dividing a vector by its Euclidean length gives a vector whose dot product with itself is 1 |
| `Vectors.MeanTranslate` | src/vault_designer/voxelize.py:126-129 | the mean of points that are all moved by the same vector is the old mean moved by that vector |
| `FaceNormals.DiagonalCross` | src/vault_designer/voxelize.py:74-77 | the diagonal cross product `(p2-p0)×(p3-p1)` is perpendicular to both diagonals of the quad |
| `FaceNormals.Normalise` | src/vault_designer/voxelize.py:78-80 | above the `1e-12` tolerance, the result times the length gives back the input; at or below it, the input is returned unchanged |
| `FaceNormals.Orient` | src/vault_designer/voxelize.py:81-84 | the result is `n` or `-n`; its dot product with the face-center offset is never negative; `n` is returned unchanged unless it points against the offset |
| `FaceNormals.FaceNormal` | src/vault_designer/voxelize.py:72-84 | the normal one loop iteration computes for a quad; it never points toward the centroid: `dot(n, face_center - centroid) >= 0` |
| `FaceNormals.FaceNormalShape` | src/vault_designer/voxelize.py:71-85 | a face's final normal is the raw cross product divided by its length, or the raw cross product itself when the length is at most `1e-12`, in either case possibly negated; `dot(n, face_center - centroid) >= 0`; the normal is perpendicular to both diagonals |
| `FaceNormals.FaceNormalIsUnit` | src/vault_designer/voxelize.py:78-85 | when `norm` is the Euclidean length and the face is not degenerate, the normal has unit length |
| `FaceNormals.FlatFaceNormal` | src/vault_designer/voxelize.py:75-84 | a face in the plane z = 0 gets a normal with x = y = 0; with the Euclidean length and a non-degenerate face, the normal is (0,0,1) or (0,0,-1) |
| `FaceNormals.ComputeFaceNormals` | src/vault_designer/voxelize.py:50-87 | exactly one normal per face, in `mesh.faces()` order, each equal to `FaceNormal` for that face with the centroid of all vertices, each not pointing toward the centroid (`dot(n, face_center - centroid) >= 0`) |
| `Adjacency.IndexTable` | src/vault_designer/voxelize.py:132 | `face_to_idx`: its keys are exactly the listed faces; every value is a position in `[0, n_bricks)` of its own key; a repeated key keeps its last position |
| `Adjacency.IndexTableInverts` | src/vault_designer/voxelize.py:132 | with distinct face keys, `face_to_idx[faces[i]] == i` |
| `Adjacency.BrickNeighbors` | src/vault_designer/voxelize.py:135-137 | the inner loop's result for one face: the neighbours found in `face_to_idx`, translated, never more than were queried |
| `Adjacency.BrickNeighborsMembership` | src/vault_designer/voxelize.py:135-137 | a brick index is listed exactly when some neighbour face in the table maps to it (both directions) |
| `Adjacency.BrickNeighborsAppend` | src/vault_designer/voxelize.py:135-137 | translating neighbour lists keeps query order: translating a concatenation gives the concatenation of the translations |
| `Adjacency.BrickNeighborsOne` | src/vault_designer/voxelize.py:136-137 | one neighbour face becomes its index if it is in the table, and otherwise is dropped |
| `Adjacency.BrickAdjacency` | src/vault_designer/voxelize.py:132-137 | `neighbors`: one translated neighbour list per face, as many lists as faces |
| `Adjacency.AdjacencyInRange` | src/vault_designer/voxelize.py:132-137 | every entry of `neighbors[i]` is in `[0, n_bricks)` and names a face the mesh reports as a neighbour of face i |
| `Adjacency.AdjacencyMembership` | src/vault_designer/voxelize.py:132-137 | with distinct face keys, `j in neighbors[i]` exactly when face j is in `face_neighbors(face i)` |
| `Adjacency.AdjacencySymmetric` | src/vault_designer/voxelize.py:131-137 | with distinct face keys, a symmetric mesh neighbour relation gives a symmetric `neighbors` |
| `Adjacency.SingleFaceAdjacency` | src/vault_designer/voxelize.py:133-137 | a single-face mesh whose face is not its own neighbour gets exactly one empty neighbour list |
| `Bricks.BrickAssembly.Length` | src/vault_designer/voxelize.py:17-47 | `len(assembly)` is `len(centers)`; `Voxelize` ensures it is the face count and that every other field has that length |
| `Bricks.InnerQuad` | src/vault_designer/voxelize.py:126 | `pts - thickness * normal`: one inner point per outer point |
| `Bricks.BrickCorners` | src/vault_designer/voxelize.py:124-126 | the 8 corners of a brick: positions 0-3 are the outer quad, positions 4-7 the inner quad |
| `Bricks.BrickCenter` | src/vault_designer/voxelize.py:129 | the face mean minus `0.5 * thickness * normal`; `CenterIsMidpoint` proves it is the midpoint of the two quad means |
| `Bricks.CenterIsMidpoint` | src/vault_designer/voxelize.py:128-129 | the brick center is the midpoint of the outer-quad mean and the inner-quad mean |
| `Bricks.InnerQuadParallel` | src/vault_designer/voxelize.py:124-126 | every edge vector of the inner quad equals the matching edge vector of the outer quad, so the two quads are parallel and congruent |
| `Bricks.InnerOffsetAlongNormal` | src/vault_designer/voxelize.py:124-126 | with a unit normal, outer corner minus inner corner, measured along the normal, is exactly `thickness` |
| `Bricks.FlatBrick` | src/vault_designer/voxelize.py:123-129 | for a flat face in z = 0 with normal (0,0,1): outer corners are at z = 0, inner corners at z = -thickness, and the center at z = -thickness/2 |
| `Bricks.ExtrudeFaces` | src/vault_designer/voxelize.py:112-129 | the extrusion loop: one center row, one 8-corner row and one vertex list per face, in face order, each equal to the brick built over that face |
| `Bricks.AppendNeighbors` | src/vault_designer/voxelize.py:135-137 | the inner loop appends to `neighbors[i]` exactly the translated neighbour list and leaves every other row alone |
| `Bricks.BuildNeighbors` | src/vault_designer/voxelize.py:132-137 | the adjacency loops produce, for each face in order, its translated neighbour list |
| `Bricks.Voxelize` | src/vault_designer/voxelize.py:90-146 | `len(assembly)` (`len(centers)`, lines 46-47) and every field's length equal the face count; `thickness` (default 0.2) is stored unchanged; `face_vertices[i]` is face i's vertex list; `normals[i]` is that face's normal and does not point toward the centroid (dot ≥ 0); `corners[i][0..3]` are the face's points in order and `corners[i][4..7]` are those points minus `thickness·normals[i]`; `centers[i]` is the outer-corner mean minus `0.5·thickness·normals[i]`; `neighbors` is the translated mesh adjacency |
| `Bricks.BrickFaces` | src/vault_designer/voxelize.py:149-173 | exactly 6 quads of 4 points each; every point is one of the input corners |
| `Bricks.BrickFacesLayout` | src/vault_designer/voxelize.py:163-173 | the quads are, in order: the outer quad in face order, the inner quad reversed (7,6,5,4), then for k = 0..3 the side over outer edge k→k+1 (mod 4) through the inner corners beneath it |
| `Bricks.CornerInThreeFaces` | src/vault_designer/voxelize.py:166-173 | each of the 8 corner indices is used by exactly 3 of the 6 quads |
| `Bricks.EdgesInTwoFaces` | src/vault_designer/voxelize.py:166-173 | each of the 12 hexahedron edges bounds exactly 2 quads, and no other pair of corners is an edge of any quad |

## Left out

- Floating point: coordinates are exact reals. Rounding is not modelled, and
  neither is the IEEE meaning of `1e-12`.
- `np.linalg.norm` is a parameter `norm`, because Dafny's reals have no
  square root. Only `FaceNormalIsUnit` and `FlatFaceNormal` assume that it is
  the Euclidean length.
- `FaceNormals.ComputeFaceNormals`: unit length is not part of its contract,
  because it depends on `norm`. `FaceNormalIsUnit` states it under that
  hypothesis.
- Malformed meshes: the code raises a numpy indexing or broadcasting error for
  a face that is not a quad or that has an out-of-range vertex index. The
  model makes quads over valid indices a precondition (`QuadMesh`). This holds
  for `voxelize`: a triangle fails at `pts[3]` and a pentagon fails at the
  broadcast into `corners[i, :4]`. `compute_face_normals` on its own accepts a
  face with more than four vertices: it reads only points 0-3 for the
  diagonals and averages all of them for the face center. The model's
  `ComputeFaceNormals` excludes such faces through `QuadMesh`.
- The mean of an empty vertex list is NaN in numpy and the origin in the
  model. No face can read it then, because every face needs valid vertex
  indices.
- The compas `Mesh` is abstract. It is represented by its face-key list and
  the two query functions, and face keys are integers.
- `Adjacency.SingleFaceAdjacency`: requires that the face is not its own
  neighbour. compas never reports a face as its own neighbour, and the model
  does not know that.
- `Bricks.BrickFaces`: no claim of consistent outward winding. The outer quad
  and side 0-1 both traverse edge 0→1 in the same direction.
- The orientation heuristic is not claimed to give outward normals on
  surfaces that are not star-shaped about the centroid. Only the stated
  dot-product condition is proved.
- Corner storage: the code writes `corners[i, :4]` and `corners[i, 4:8]` as
  two slice assignments into an (n, 8, 3) array. The model writes one 8-point
  row per brick in a single assignment.
- src/vault_designer/visualize.py (matplotlib rendering) is not part of this
  model.
- Neither is src/vault_designer/boundaries.py, a wrapper around compas mesh
  construction.
- src/vault_designer/sequence.py and src/vault_designer/cost.py hold no code.
