/** Brick adjacency from mesh adjacency (`voxelize`, second half).

    The face keys are numbered by their position in the face list
    (`face_to_idx`), and each face's neighbour query is translated through
    that table, dropping the neighbours the table does not know. */
module Adjacency {
  import opened Meshes

  /** `{face: i for i, face in enumerate(faces)}`: later positions overwrite
      earlier ones, as a dict comprehension does for a repeated key. */
  function IndexTable(faces: seq<FaceKey>): (t: map<FaceKey, nat>)
    ensures forall f :: f in t <==> f in faces
    ensures forall f :: f in t ==> t[f] < |faces| && faces[t[f]] == f
    ensures forall i :: 0 <= i < |faces| ==> faces[i] in t && i <= t[faces[i]]
  {
    if faces == [] then map[]
    else
      var init := faces[..|faces| - 1];
      assert forall i :: 0 <= i < |init| ==> init[i] == faces[i];
      IndexTable(init)[faces[|faces| - 1] := |faces| - 1]
  }

  /** With distinct keys the table inverts the face list. */
  lemma IndexTableInverts(faces: seq<FaceKey>, i: nat)
    requires Distinct(faces)
    requires i < |faces|
    ensures faces[i] in IndexTable(faces) && IndexTable(faces)[faces[i]] == i
  {
  }

  /** The brick indices of the neighbour faces `nbs` that are in the table,
      in query order. */
  function BrickNeighbors(t: map<FaceKey, nat>, nbs: seq<FaceKey>): (r: seq<nat>)
    ensures |r| <= |nbs|
  {
    if nbs == [] then []
    else
      var f := nbs[|nbs| - 1];
      var rest := BrickNeighbors(t, nbs[..|nbs| - 1]);
      if f in t then rest + [t[f]] else rest
  }

  /** A brick index is listed exactly when some neighbour face in the
      table maps to it. */
  lemma {:induction false} BrickNeighborsMembership(t: map<FaceKey, nat>, nbs: seq<FaceKey>, v: nat)
    ensures v in BrickNeighbors(t, nbs) <==> exists f :: f in nbs && f in t && t[f] == v
  {
    if nbs != [] {
      var init := nbs[..|nbs| - 1];
      BrickNeighborsMembership(t, init, v);
      assert forall g :: g in nbs <==> g in init || g == nbs[|nbs| - 1];
    }
  }

  /** Translation keeps query order: the neighbours of a concatenation are
      the concatenated neighbours. */
  lemma {:induction false} BrickNeighborsAppend(t: map<FaceKey, nat>, a: seq<FaceKey>, b: seq<FaceKey>)
    ensures BrickNeighbors(t, a + b) == BrickNeighbors(t, a) + BrickNeighbors(t, b)
  {
    if b != [] {
      var n := |b|;
      assert (a + b)[..|a + b| - 1] == a + b[..n - 1];
      BrickNeighborsAppend(t, a, b[..n - 1]);
    } else {
      assert a + b == a;
    }
  }

  /** A single neighbour face translates to its index, or to nothing. */
  lemma BrickNeighborsOne(t: map<FaceKey, nat>, f: FaceKey)
    ensures BrickNeighbors(t, [f]) == if f in t then [t[f]] else []
  {
  }

  /** The brick adjacency lists the voxelizer builds, one per face. */
  function BrickAdjacency(m: Mesh): (nb: seq<seq<nat>>)
    ensures |nb| == |m.faces|
  {
    var t := IndexTable(m.faces);
    seq(|m.faces|, i requires 0 <= i < |m.faces| => BrickNeighbors(t, m.faceNeighbors(m.faces[i])))
  }

  /** Every listed brick index is in `[0, n_bricks)` and names a face the
      mesh reports as a neighbour. */
  lemma AdjacencyInRange(m: Mesh, i: nat, k: nat)
    requires i < |m.faces| && k < |BrickAdjacency(m)[i]|
    ensures BrickAdjacency(m)[i][k] < |m.faces|
    ensures m.faces[BrickAdjacency(m)[i][k]] in m.faceNeighbors(m.faces[i])
  {
    var t := IndexTable(m.faces);
    var v := BrickAdjacency(m)[i][k];
    assert v in BrickNeighbors(t, m.faceNeighbors(m.faces[i]));
    BrickNeighborsMembership(t, m.faceNeighbors(m.faces[i]), v);
    var f :| f in m.faceNeighbors(m.faces[i]) && f in t && t[f] == v;
  }

  /** With distinct face keys, brick j is listed for brick i exactly when the
      mesh reports face j as a neighbour of face i. */
  lemma AdjacencyMembership(m: Mesh, i: nat, j: nat)
    requires DistinctFaces(m)
    requires i < |m.faces| && j < |m.faces|
    ensures j in BrickAdjacency(m)[i] <==> m.faces[j] in m.faceNeighbors(m.faces[i])
  {
    var t := IndexTable(m.faces);
    var nbs := m.faceNeighbors(m.faces[i]);
    IndexTableInverts(m.faces, j);
    BrickNeighborsMembership(t, nbs, j);
    if j in BrickAdjacency(m)[i] {
      var f :| f in nbs && f in t && t[f] == j;
    }
  }

  /** A symmetric mesh neighbour relation with distinct face keys gives a
      symmetric brick adjacency. */
  lemma AdjacencySymmetric(m: Mesh)
    requires DistinctFaces(m) && SymmetricNeighbors(m)
    ensures forall i, j :: 0 <= i < |m.faces| && 0 <= j < |m.faces| ==>
      (j in BrickAdjacency(m)[i] <==> i in BrickAdjacency(m)[j])
  {
    forall i, j | 0 <= i < |m.faces| && 0 <= j < |m.faces|
      ensures j in BrickAdjacency(m)[i] <==> i in BrickAdjacency(m)[j]
    {
      AdjacencyMembership(m, i, j);
      AdjacencyMembership(m, j, i);
    }
  }

  /** A mesh of one face that is not its own neighbour has one empty
      adjacency list. */
  lemma SingleFaceAdjacency(m: Mesh)
    requires |m.faces| == 1
    requires m.faces[0] !in m.faceNeighbors(m.faces[0])
    ensures BrickAdjacency(m) == [[]]
  {
    var nb := BrickAdjacency(m)[0];
    if nb != [] {
      AdjacencyInRange(m, 0, 0);
      assert false;
    }
  }
}
