/** The stand-alone cube of `GenerateObj::Initialize`: a constant table of eight coloured
    corners and thirty-six 16-bit indices (twelve triangles, two per face), packed into a
    mesh geometry named "boxGeo" with a single "box" draw range. */
module GenerateObj {
  import opened Geometry

  /** The eight corners, in table order. */
  function BoxVertices(): (vs: seq<Vertex>)
    ensures |vs| == 8
  {
    [ Vertex(Float3(-0.5, -0.5, -0.5), White),
      Vertex(Float3(-0.5, 0.5, -0.5), Black),
      Vertex(Float3(0.5, 0.5, -0.5), Red),
      Vertex(Float3(0.5, -0.5, -0.5), Green),
      Vertex(Float3(-0.5, -0.5, 0.5), Blue),
      Vertex(Float3(-0.5, 0.5, 0.5), Yellow),
      Vertex(Float3(0.5, 0.5, 0.5), Cyan),
      Vertex(Float3(0.5, -0.5, 0.5), Magenta) ]
  }

  /** The six faces, named as the index table's comments name them. */
  datatype Face = Front | Back | Left | Right | Top | Bottom

  /** Position of a face's block of six indices in the table. */
  function FaceNumber(f: Face): (n: nat)
    ensures n < 6
  {
    match f
    case Front => 0
    case Back => 1
    case Left => 2
    case Right => 3
    case Top => 4
    case Bottom => 5
  }

  /** The six indices (two triangles) listed under a face. */
  function FaceIndices(f: Face): (ix: seq<Index16>)
    ensures |ix| == 6
  {
    match f
    case Front => [1, 3, 0, 2, 3, 1]
    case Back => [6, 4, 7, 5, 4, 6]
    case Left => [5, 0, 4, 1, 0, 5]
    case Right => [3, 6, 7, 2, 6, 3]
    case Top => [1, 6, 2, 5, 6, 1]
    case Bottom => [7, 0, 3, 4, 0, 7]
  }

  /** The index table: the six faces' blocks of two triangles, in the order front, back,
      left, right, top, bottom. */
  function BoxIndices(): (ix: seq<Index16>)
    ensures |ix| == 36 && |ix| % 3 == 0
  {
    FaceIndices(Front) + FaceIndices(Back) + FaceIndices(Left) +
    FaceIndices(Right) + FaceIndices(Top) + FaceIndices(Bottom)
  }

  /** Each face's block sits at its own position of the flat table: face n occupies
      indices 6n to 6n + 5. */
  lemma FacesInTable(f: Face)
    ensures BoxIndices()[6 * FaceNumber(f) .. 6 * FaceNumber(f) + 6] == FaceIndices(f)
  {
    var a := 6 * FaceNumber(f);
    var ix := BoxIndices();
    forall k | 0 <= k < 6
      ensures ix[a .. a + 6][k] == FaceIndices(f)[k]
    {
      assert ix[a .. a + 6][k] == ix[a + k];
    }
  }

  /** The name the single draw range is stored under. */
  const BoxDrawArg: string := "box"

  /** The geometry `Initialize` leaves in `mBoxGeo`, seen on its CPU-side content: the
      two tables as copied into the blobs, 28-byte vertices and 16-bit indices, and one
      draw range spanning the whole index buffer from vertex 0. */
  function Initialize(): (g: MeshGeometry)
    ensures g.name == "boxGeo" && g.vertices == BoxVertices() && g.indices == BoxIndices()
    ensures g.vertexByteStride == VertexByteSize && g.indexFormat == R16Uint
    ensures g.vertexBufferByteSize == |g.vertices| * VertexByteSize
    ensures g.indexBufferByteSize == |g.indices| * IndexByteSize
    ensures g.drawArgs.Keys == {BoxDrawArg}
    ensures DrawArg(g, BoxDrawArg) == Submesh(|g.indices|, 0, 0)
  {
    var vertices := BoxVertices();
    var indices := BoxIndices();
    MeshGeometry(
      "boxGeo", vertices, indices,
      VertexByteSize, |vertices| * VertexByteSize,
      R16Uint, |indices| * IndexByteSize,
      map[BoxDrawArg := Submesh(|indices|, 0, 0)])
  }

  /** The buffers hold 8 vertices of 28 bytes and 36 two-byte indices, that is 12
      triangles, and the single draw range covers every index of the buffer. */
  lemma InitializeSizes()
    ensures var g := Initialize();
            && |g.vertices| == 8 && |g.indices| == 36 && |g.indices| / 3 == 12
            && g.vertexBufferByteSize == 224 && g.indexBufferByteSize == 72
            && RangeInBuffer(g, DrawArg(g, BoxDrawArg))
            && DrawArg(g, BoxDrawArg).startIndexLocation == 0
            && DrawArg(g, BoxDrawArg).indexCount == |g.indices|
  {
  }

  /** Every index names one of the eight vertices. */
  lemma IndicesInRange()
    ensures forall j :: 0 <= j < |BoxIndices()| ==> BoxIndices()[j] < |BoxVertices()|
  {
    forall j | 0 <= j < |BoxIndices()|
      ensures BoxIndices()[j] < |BoxVertices()|
    {
      assert BoxIndices()[j] in BoxIndices();
    }
  }

  /** The three vertex indices of triangle t. */
  function Triangle(t: nat): (c: (Index16, Index16, Index16))
    requires t < |BoxIndices()| / 3
  {
    (BoxIndices()[3 * t], BoxIndices()[3 * t + 1], BoxIndices()[3 * t + 2])
  }

  /** Triangle t does not repeat a vertex. */
  predicate ProperTriangle(t: nat)
    requires t < |BoxIndices()| / 3
  {
    Triangle(t).0 != Triangle(t).1 && Triangle(t).1 != Triangle(t).2 && Triangle(t).0 != Triangle(t).2
  }

  /** No triangle repeats a vertex: none of the twelve is degenerate. */
  lemma TrianglesProper()
    ensures forall t :: 0 <= t < 12 ==> ProperTriangle(t)
  {
    forall t | 0 <= t < 12
      ensures ProperTriangle(t)
    {
      assert t in {0, 1, 2, 3, 4, 5, 6, 7, 8, 9, 10, 11};
    }
  }

  /** A corner of the cube of side 1 centred on the origin. */
  predicate IsCorner(p: Float3)
  {
    (p.x == -0.5 || p.x == 0.5) && (p.y == -0.5 || p.y == 0.5) && (p.z == -0.5 || p.z == 0.5)
  }

  /** The eight positions are eight different corners, so every corner of the cube
      appears exactly once. */
  lemma VerticesAreTheCorners()
    ensures forall v :: 0 <= v < 8 ==> IsCorner(BoxVertices()[v].pos)
    ensures forall a, b :: 0 <= a < 8 && 0 <= b < 8 && a != b ==> BoxVertices()[a].pos != BoxVertices()[b].pos
    ensures forall p :: IsCorner(p) ==> exists v :: 0 <= v < 8 && BoxVertices()[v].pos == p
  {
    var vs := BoxVertices();
    forall v | 0 <= v < 8
      ensures IsCorner(vs[v].pos)
    {
      assert v in {0, 1, 2, 3, 4, 5, 6, 7};
    }
    forall a, b | 0 <= a < 8 && 0 <= b < 8 && a != b
      ensures vs[a].pos != vs[b].pos
    {
      assert a in {0, 1, 2, 3, 4, 5, 6, 7};
      assert b in {0, 1, 2, 3, 4, 5, 6, 7};
    }
    forall p | IsCorner(p)
      ensures exists v :: 0 <= v < 8 && vs[v].pos == p
    {
      var v := (if p.x == 0.5 then 2 else 0) + (if p.z == 0.5 then 4 else 0);
      var w := if p.x == 0.5 then (if p.y == 0.5 then v else v + 1) else (if p.y == 0.5 then v + 1 else v);
      assert vs[w].pos == p;
    }
  }

  /** The plane a face lies in. */
  predicate OnFace(p: Float3, f: Face)
  {
    match f
    case Front => p.z == -0.5
    case Back => p.z == 0.5
    case Left => p.x == -0.5
    case Right => p.x == 0.5
    case Top => p.y == 0.5
    case Bottom => p.y == -0.5
  }

  /** One vertex against one face: named by the face's triangles exactly when it lies
      in the face's plane. */
  lemma FaceMembership(f: Face, v: nat)
    requires v < 8
    ensures v in FaceIndices(f) <==> OnFace(BoxVertices()[v].pos, f)
  {
    var ix := FaceIndices(f);
    assert v in ix <==> v == ix[0] || v == ix[1] || v == ix[2] || v == ix[3] || v == ix[4] || v == ix[5];
    assert v in {0, 1, 2, 3, 4, 5, 6, 7};
  }

  /** Each face's two triangles use exactly the four corners lying in that face: every
      vertex they name is on the face, and every corner on the face is named. */
  lemma FacesUseTheirCorners(f: Face)
    ensures forall v :: 0 <= v < 8 ==> (v in FaceIndices(f) <==> OnFace(BoxVertices()[v].pos, f))
  {
    forall v | 0 <= v < 8
      ensures v in FaceIndices(f) <==> OnFace(BoxVertices()[v].pos, f)
    {
      FaceMembership(f, v);
    }
  }
}
