/** The entity store `GameObject`: `Init` lays four generated meshes (box, sphere,
    pyramid, projectile) into one shared vertex/index buffer named "shapeGeo" with one
    draw range per mesh; the builders create render items over those ranges and keep
    `mAllRitems`, `mOpaqueRitems` and the `ObjIndex` counter in step. */
module GameObjects {
  import opened Geometry
  import opened Collision
  import opened RenderItems

  /** CreateGeometry::MeshData as `Init` uses it: the vertex positions, the 32-bit index
      list and its 16-bit copy (`GetIndices16`). The generators themselves are not part
      of this model; their output is an input here. */
  datatype MeshData = MeshData(positions: seq<Float3>, indices32: seq<nat>, indices16: seq<Index16>)

  /** The name the shared geometry is stored under in `mGeometries`. */
  const ShapeGeoName: string := "shapeGeo"

  /** The four meshes in buffer order. */
  function Meshes(box: MeshData, sphere: MeshData, pyramide: MeshData, projectile: MeshData): (ms: seq<MeshData>)
    ensures |ms| == 4
  {
    [box, sphere, pyramide, projectile]
  }

  /** The colour each mesh's vertices get, in buffer order. */
  const MeshColors: seq<Color> := [DarkGreen, Crimson, Yellow, Aquamarine]

  /** The draw-argument names, in buffer order. */
  const DrawArgNames: seq<string> := ["box", "sphere", "pyramide", "projectile"]

  /** Reference definition: the number of vertices of the first n meshes. */
  function VerticesBefore(ms: seq<MeshData>, n: nat): nat
    requires n <= |ms|
  {
    if n == 0 then 0 else VerticesBefore(ms, n - 1) + |ms[n - 1].positions|
  }

  /** Reference definition: the number of (32-bit) indices of the first n meshes. */
  function IndicesBefore(ms: seq<MeshData>, n: nat): nat
    requires n <= |ms|
  {
    if n == 0 then 0 else IndicesBefore(ms, n - 1) + |ms[n - 1].indices32|
  }

  /** The four prefix sums written out. */
  lemma PrefixSums(ms: seq<MeshData>)
    requires |ms| == 4
    ensures VerticesBefore(ms, 1) == |ms[0].positions|
    ensures VerticesBefore(ms, 2) == |ms[0].positions| + |ms[1].positions|
    ensures VerticesBefore(ms, 3) == |ms[0].positions| + |ms[1].positions| + |ms[2].positions|
    ensures VerticesBefore(ms, 4) == |ms[0].positions| + |ms[1].positions| + |ms[2].positions| + |ms[3].positions|
    ensures IndicesBefore(ms, 1) == |ms[0].indices32|
    ensures IndicesBefore(ms, 2) == |ms[0].indices32| + |ms[1].indices32|
    ensures IndicesBefore(ms, 3) == |ms[0].indices32| + |ms[1].indices32| + |ms[2].indices32|
    ensures IndicesBefore(ms, 4) == |ms[0].indices32| + |ms[1].indices32| + |ms[2].indices32| + |ms[3].indices32|
  {
    assert VerticesBefore(ms, 2) == VerticesBefore(ms, 1) + |ms[1].positions|;
    assert VerticesBefore(ms, 4) == VerticesBefore(ms, 3) + |ms[3].positions|;
    assert IndicesBefore(ms, 2) == IndicesBefore(ms, 1) + |ms[1].indices32|;
    assert IndicesBefore(ms, 4) == IndicesBefore(ms, 3) + |ms[3].indices32|;
  }

  /** The four submesh records `Init` computes from its eight offsets, in buffer order.
      Each index count is its mesh's index count and each base vertex the number of
      vertices before the mesh. The start index of box, sphere and pyramid is the number
      of indices before the mesh; the projectile's adds the pyramid's VERTEX count where
      its index count belongs, exactly as the source computes it. */
  function SubmeshTable(box: MeshData, sphere: MeshData, pyramide: MeshData, projectile: MeshData): (t: seq<Submesh>)
    ensures var ms := Meshes(box, sphere, pyramide, projectile);
            && |t| == 4
            && (forall n :: 0 <= n < 4 ==> t[n].indexCount == |ms[n].indices32|)
            && (forall n :: 0 <= n < 4 ==> t[n].baseVertexLocation == VerticesBefore(ms, n))
            && (forall n :: 0 <= n < 3 ==> t[n].startIndexLocation == IndicesBefore(ms, n))
            && t[3].startIndexLocation == IndicesBefore(ms, 2) + |pyramide.positions|
  {
    var boxVertexOffset := 0;
    var boxIndexOffset := 0;
    var sphereVertexOffset := |box.positions|;
    var sphereIndexOffset := |box.indices32|;
    var pyramideVertexOffset := |box.positions| + |sphere.positions|;
    var pyramideIndexOffset := |box.indices32| + |sphere.indices32|;
    var projectileVertexOffset := |box.positions| + |sphere.positions| + |pyramide.positions|;
    var projectileIndexOffset := |box.indices32| + |sphere.indices32| + |pyramide.positions|;
    PrefixSums(Meshes(box, sphere, pyramide, projectile));
    [ Submesh(|box.indices32|, boxIndexOffset, boxVertexOffset),
      Submesh(|sphere.indices32|, sphereIndexOffset, sphereVertexOffset),
      Submesh(|pyramide.indices32|, pyramideIndexOffset, pyramideVertexOffset),
      Submesh(|projectile.indices32|, projectileIndexOffset, projectileVertexOffset) ]
  }

  /** The projectile's start index is the true prefix sum of index counts exactly when
      the pyramid has as many vertices as indices; otherwise it is off by the
      difference. */
  lemma ProjectileStartIndex(box: MeshData, sphere: MeshData, pyramide: MeshData, projectile: MeshData)
    ensures var ms := Meshes(box, sphere, pyramide, projectile);
            var start := SubmeshTable(box, sphere, pyramide, projectile)[3].startIndexLocation;
            && start - IndicesBefore(ms, 3) == |pyramide.positions| - |pyramide.indices32|
            && (start == IndicesBefore(ms, 3) <==> |pyramide.positions| == |pyramide.indices32|)
  {
    var ms := Meshes(box, sphere, pyramide, projectile);
    assert IndicesBefore(ms, 3) == IndicesBefore(ms, 2) + |pyramide.indices32|;
  }

  /** The positions of one mesh, each with the mesh's colour. */
  function Colored(ps: seq<Float3>, c: Color): (vs: seq<Vertex>)
    ensures |vs| == |ps|
    ensures forall j :: 0 <= j < |ps| ==> vs[j] == Vertex(ps[j], c)
  {
    seq(|ps|, j requires 0 <= j < |ps| => Vertex(ps[j], c))
  }

  /** The combined vertex buffer up to (not including) mesh n: the meshes' coloured
      vertices laid end to end. */
  function VerticesUpTo(ms: seq<MeshData>, n: nat): (vs: seq<Vertex>)
    requires n <= |ms| == 4
    ensures |vs| == VerticesBefore(ms, n)
  {
    if n == 0 then [] else VerticesUpTo(ms, n - 1) + Colored(ms[n - 1].positions, MeshColors[n - 1])
  }

  /** Vertex `i` of mesh m sits at VerticesBefore(ms, m) + i of the combined buffer,
      with the mesh's position and colour. */
  lemma {:induction false} VertexOfMesh(ms: seq<MeshData>, n: nat, m: nat, i: nat)
    requires m < n <= |ms| == 4 && i < |ms[m].positions|
    ensures VerticesBefore(ms, m) + i < VerticesBefore(ms, n)
    ensures VerticesUpTo(ms, n)[VerticesBefore(ms, m) + i] == Vertex(ms[m].positions[i], MeshColors[m])
  {
    if m < n - 1 {
      VertexOfMesh(ms, n - 1, m, i);
    }
  }

  /** Vertex k of the combined buffer lies in mesh m's segment. */
  predicate InSegment(ms: seq<MeshData>, m: nat, k: nat)
    requires m < |ms|
  {
    VerticesBefore(ms, m) <= k < VerticesBefore(ms, m + 1)
  }

  /** The mesh segment a combined-buffer vertex falls in. */
  function SegmentOf(ms: seq<MeshData>, k: nat): (m: nat)
    requires |ms| == 4 && k < VerticesBefore(ms, 4)
    ensures m < 4 && InSegment(ms, m, k)
  {
    if k < VerticesBefore(ms, 1) then 0
    else if k < VerticesBefore(ms, 2) then 1
    else if k < VerticesBefore(ms, 3) then 2
    else 3
  }

  /** The prefix sums never decrease. */
  lemma {:induction false} VerticesBeforeMonotone(ms: seq<MeshData>, a: nat, b: nat)
    requires a <= b <= |ms|
    ensures VerticesBefore(ms, a) <= VerticesBefore(ms, b)
    decreases b - a
  {
    if a < b {
      VerticesBeforeMonotone(ms, a, b - 1);
    }
  }

  /** No vertex lies in two mesh segments: with `SegmentOf`, every vertex of the
      combined buffer lies in exactly one. */
  lemma SegmentUnique(ms: seq<MeshData>, k: nat, m': nat)
    requires |ms| == 4 && k < VerticesBefore(ms, 4)
    requires m' < 4 && InSegment(ms, m', k)
    ensures m' == SegmentOf(ms, k)
  {
    var m := SegmentOf(ms, k);
    if m' < m {
      VerticesBeforeMonotone(ms, m' + 1, m);
    } else if m < m' {
      VerticesBeforeMonotone(ms, m + 1, m');
    }
  }

  /** Every vertex of the combined buffer carries the position of its segment's mesh
      and that segment's colour. */
  lemma VertexSegment(ms: seq<MeshData>, m: nat, k: nat)
    requires |ms| == 4 && m < 4 && InSegment(ms, m, k)
    ensures k < |VerticesUpTo(ms, 4)|
    ensures VerticesUpTo(ms, 4)[k] == Vertex(ms[m].positions[k - VerticesBefore(ms, m)], MeshColors[m])
  {
    VerticesBeforeMonotone(ms, m + 1, 4);
    VertexOfMesh(ms, 4, m, k - VerticesBefore(ms, m));
  }

  /** The "shapeGeo" geometry `Init` stores, seen on its CPU-side content. */
  function ShapeGeometry(box: MeshData, sphere: MeshData, pyramide: MeshData, projectile: MeshData): (g: MeshGeometry)
    ensures var ms := Meshes(box, sphere, pyramide, projectile);
            && g.name == ShapeGeoName
            && g.vertices == VerticesUpTo(ms, 4) && |g.vertices| == VerticesBefore(ms, 4)
            && g.indices == box.indices16 + sphere.indices16 + pyramide.indices16 + projectile.indices16
            && g.vertexByteStride == VertexByteSize && g.indexFormat == R16Uint
            && g.vertexBufferByteSize == |g.vertices| * VertexByteSize
            && g.indexBufferByteSize == |g.indices| * IndexByteSize
            && g.drawArgs.Keys == {"box", "sphere", "pyramide", "projectile"}
            && forall n :: 0 <= n < 4 ==> DrawArg(g, DrawArgNames[n]) == SubmeshTable(box, sphere, pyramide, projectile)[n]
  {
    var ms := Meshes(box, sphere, pyramide, projectile);
    var t := SubmeshTable(box, sphere, pyramide, projectile);
    var vertices := VerticesUpTo(ms, 4);
    var indices := box.indices16 + sphere.indices16 + pyramide.indices16 + projectile.indices16;
    MeshGeometry(
      ShapeGeoName, vertices, indices,
      VertexByteSize, |vertices| * VertexByteSize,
      R16Uint, |indices| * IndexByteSize,
      map["box" := t[0], "sphere" := t[1], "pyramide" := t[2], "projectile" := t[3]])
  }

  /** A geometry with the parts `ShapeGeometry` describes is that geometry. */
  lemma IsShapeGeometry(box: MeshData, sphere: MeshData, pyramide: MeshData, projectile: MeshData, g: MeshGeometry)
    requires g.name == ShapeGeoName
    requires g.vertices == VerticesUpTo(Meshes(box, sphere, pyramide, projectile), 4)
    requires g.indices == box.indices16 + sphere.indices16 + pyramide.indices16 + projectile.indices16
    requires g.vertexByteStride == VertexByteSize && g.indexFormat == R16Uint
    requires g.vertexBufferByteSize == |g.vertices| * VertexByteSize
    requires g.indexBufferByteSize == |g.indices| * IndexByteSize
    requires var t := SubmeshTable(box, sphere, pyramide, projectile);
             g.drawArgs == map["box" := t[0], "sphere" := t[1], "pyramide" := t[2], "projectile" := t[3]]
    ensures g == ShapeGeometry(box, sphere, pyramide, projectile)
  {
  }

  /** When each mesh's 16-bit list is as long as its 32-bit list, every draw range lies
      inside the shared buffers: box, sphere and pyramid always, the projectile exactly
      when the pyramid has no more vertices than indices. Every base vertex plus its
      mesh's vertex count stays within the vertex buffer. */
  lemma DrawRangesInBuffers(box: MeshData, sphere: MeshData, pyramide: MeshData, projectile: MeshData)
    requires |box.indices16| == |box.indices32| && |sphere.indices16| == |sphere.indices32|
    requires |pyramide.indices16| == |pyramide.indices32| && |projectile.indices16| == |projectile.indices32|
    ensures var g := ShapeGeometry(box, sphere, pyramide, projectile);
            var ms := Meshes(box, sphere, pyramide, projectile);
            && (forall n :: 0 <= n < 3 ==> RangeInBuffer(g, DrawArg(g, DrawArgNames[n])))
            && (RangeInBuffer(g, DrawArg(g, DrawArgNames[3])) <==> |pyramide.positions| <= |pyramide.indices32|)
            && (forall n :: 0 <= n < 4 ==>
                  DrawArg(g, DrawArgNames[n]).baseVertexLocation + |ms[n].positions| <= |g.vertices|)
  {
    var ms := Meshes(box, sphere, pyramide, projectile);
    var g := ShapeGeometry(box, sphere, pyramide, projectile);
    assert |g.indices| == IndicesBefore(ms, 4);
    forall n | 0 <= n < 4
      ensures DrawArg(g, DrawArgNames[n]).baseVertexLocation + |ms[n].positions| <= |g.vertices|
    {
      VerticesBeforeMonotone(ms, n + 1, 4);
    }
  }

  /** One of `Init`'s four fill loops: copies mesh m's positions, with the mesh's colour,
      into the combined array from the shared counter k on, and returns k advanced past
      them. Everything before mesh m's segment is left as it was. */
  method FillMesh(vertices: array<Vertex>, ms: seq<MeshData>, m: nat, k0: nat) returns (k: nat)
    requires m < |ms| == 4 && vertices.Length == VerticesBefore(ms, 4)
    requires k0 == VerticesBefore(ms, m) && VerticesBefore(ms, m + 1) <= vertices.Length
    requires forall j :: 0 <= j < k0 ==> vertices[j] == VerticesUpTo(ms, 4)[j]
    modifies vertices
    ensures k == VerticesBefore(ms, m + 1)
    ensures forall j :: 0 <= j < k ==> vertices[j] == VerticesUpTo(ms, 4)[j]
  {
    ghost var target := VerticesUpTo(ms, 4);
    var positions := ms[m].positions;
    var color := MeshColors[m];
    k := k0;
    var i := 0;
    while i < |positions|
      invariant i <= |positions| && k == VerticesBefore(ms, m) + i
      invariant forall j :: 0 <= j < k ==> vertices[j] == target[j]
    {
      VertexOfMesh(ms, 4, m, i);
      vertices[k] := Vertex(positions[i], color);
      i, k := i + 1, k + 1;
    }
  }

  /** The store of render items. */
  class GameObject {
    /** `mGeometries`: geometries by name. */
    var geometries: map<string, MeshGeometry>
    /** `ObjIndex`: the object-constant-buffer index the next item gets. */
    var objIndex: nat
    /** `mAllRitems`, the owning list. */
    var allItems: seq<RenderItem>
    /** `mOpaqueRitems`, the items drawn and collided. */
    var opaqueItems: seq<RenderItem>

    constructor ()
      ensures geometries == map[] && objIndex == 0 && allItems == [] && opaqueItems == []
    {
      geometries := map[];
      objIndex := 0;
      allItems := [];
      opaqueItems := [];
    }

    /** While only the builders have run: the counter is the number of items, the
        opaque list is the owning list item for item, and item k has buffer index k. */
    predicate Registered()
      reads this, allItems
    {
      && objIndex == |allItems|
      && opaqueItems == allItems
      && forall k :: 0 <= k < |allItems| ==> allItems[k].objCBIndex == k
    }

    /** Lays out the four meshes into "shapeGeo": the eight offsets and four submeshes,
        the combined vertex array filled mesh after mesh through one counter k, the index
        lists appended in order, the byte sizes, and the draw ranges. */
    method Init(box: MeshData, sphere: MeshData, pyramide: MeshData, projectile: MeshData)
      modifies this`geometries
      ensures geometries == old(geometries)[ShapeGeoName := ShapeGeometry(box, sphere, pyramide, projectile)]
    {
      var submeshes := SubmeshTable(box, sphere, pyramide, projectile);
      var ms := Meshes(box, sphere, pyramide, projectile);

      var totalVertexCount := |box.positions| + |sphere.positions| + |pyramide.positions| + |projectile.positions|;
      PrefixSums(ms);
      var vertices := new Vertex[totalVertexCount];
      var k := 0;
      k := FillMesh(vertices, ms, 0, k);
      k := FillMesh(vertices, ms, 1, k);
      k := FillMesh(vertices, ms, 2, k);
      k := FillMesh(vertices, ms, 3, k);

      var indices: seq<Index16> := [];
      indices := indices + box.indices16;
      indices := indices + sphere.indices16;
      indices := indices + pyramide.indices16;
      indices := indices + projectile.indices16;

      var vbByteSize := vertices.Length * VertexByteSize;
      var ibByteSize := |indices| * IndexByteSize;
      var geo := MeshGeometry(
        ShapeGeoName, vertices[..], indices,
        VertexByteSize, vbByteSize, R16Uint, ibByteSize,
        map["box" := submeshes[0], "sphere" := submeshes[1],
            "pyramide" := submeshes[2], "projectile" := submeshes[3]]);
      assert vertices[..] == VerticesUpTo(ms, 4);
      assert indices == box.indices16 + sphere.indices16 + pyramide.indices16 + projectile.indices16;
      IsShapeGeometry(box, sphere, pyramide, projectile, geo);
      geometries := geometries[geo.name := geo];
    }

    /** What a builder leaves in a new item: its tag, the current counter as buffer
        index, the identity World, clear flags, and the draw range of the named submesh
        of "shapeGeo". */
    ghost predicate BuiltAs(item: RenderItem, kind: Kind, drawArg: string, index: nat)
      requires ShapeGeoName in geometries
      reads this, item
    {
      var s := DrawArg(geometries[ShapeGeoName], drawArg);
      && item.kind == kind && item.objCBIndex == index
      && item.world == Float3(0.0, 0.0, 0.0)
      && !item.gameOver && !item.removeAsteroid && !item.dontMove
      && item.indexCount == s.indexCount
      && item.startIndexLocation == s.startIndexLocation
      && item.baseVertexLocation == s.baseVertexLocation
    }

    /** The part every builder shares: make the item, give it the counter as its
        buffer index and the named submesh's draw range. */
    method NewItem(kind: Kind, drawArg: string) returns (item: RenderItem)
      requires ShapeGeoName in geometries
      ensures fresh(item) && BuiltAs(item, kind, drawArg, objIndex)
    {
      item := new RenderItem(kind);
      item.objCBIndex := objIndex;
      var s := DrawArg(geometries[ShapeGeoName], drawArg);
      item.indexCount := s.indexCount;
      item.startIndexLocation := s.startIndexLocation;
      item.baseVertexLocation := s.baseVertexLocation;
    }

    /** The push onto `mAllRitems`, the push of `mAllRitems[ObjIndex]` onto
        `mOpaqueRitems`, and the increment of `ObjIndex`. */
    method Store(item: RenderItem)
      requires objIndex <= |allItems|
      modifies this`allItems, this`opaqueItems, this`objIndex
      ensures allItems == old(allItems) + [item]
      ensures opaqueItems == old(opaqueItems) + [allItems[old(objIndex)]]
      ensures objIndex == old(objIndex) + 1
    {
      allItems := allItems + [item];
      opaqueItems := opaqueItems + [allItems[objIndex]];
      objIndex := objIndex + 1;
    }

    /** A builder appends one new item built as described to both lists, bumps the
        counter, and changes no item already stored; it keeps `Registered`. */
    twostate predicate Built(kind: Kind, drawArg: string)
      requires ShapeGeoName in geometries
      reads this, allItems
    {
      && |allItems| == |old(allItems)| + 1
      && allItems[..|old(allItems)|] == old(allItems)
      && old(objIndex) < |allItems|
      && fresh(allItems[|old(allItems)|])
      && BuiltAs(allItems[|old(allItems)|], kind, drawArg, old(objIndex))
      && opaqueItems == old(opaqueItems) + [allItems[old(objIndex)]]
      && objIndex == old(objIndex) + 1
      && (old(Registered()) ==> Registered() && opaqueItems[|opaqueItems| - 1] == allItems[|old(allItems)|])
    }

    /** `BuildRenderOpBox`: a "testBox" item over the "box" range. */
    method BuildRenderOpBox()
      requires ShapeGeoName in geometries && objIndex <= |allItems|
      modifies this`allItems, this`opaqueItems, this`objIndex
      ensures Built(TestBox, "box")
    {
      var item := NewItem(TestBox, "box");
      Store(item);
    }

    /** `BuildRenderOpPyramide`: a "player" item over the "pyramide" range. */
    method BuildRenderOpPyramide()
      requires ShapeGeoName in geometries && objIndex <= |allItems|
      modifies this`allItems, this`opaqueItems, this`objIndex
      ensures Built(Player, "pyramide")
    {
      var item := NewItem(Player, "pyramide");
      Store(item);
    }

    /** `BuildRenderOpProjectile`: a "projectile" item over the "projectile" range. */
    method BuildRenderOpProjectile()
      requires ShapeGeoName in geometries && objIndex <= |allItems|
      modifies this`allItems, this`opaqueItems, this`objIndex
      ensures Built(Projectile, "projectile")
    {
      var item := NewItem(Projectile, "projectile");
      Store(item);
    }

    /** `BuildRenderOpCircle`: an "asteroid" item over the "sphere" range, its World
        multiplied by a translation by zero. */
    method BuildRenderOpCircle()
      requires ShapeGeoName in geometries && objIndex <= |allItems|
      modifies this`allItems, this`opaqueItems, this`objIndex
      ensures Built(Asteroid, "sphere")
    {
      var item := NewItem(Asteroid, "sphere");
      item.world := Translated(item.world, 0.0);
      Store(item);
    }

    /** `GetOpaqueItems`: the stored opaque list, unchanged. */
    function GetOpaqueItems(): (r: seq<RenderItem>)
      reads this
      ensures r == opaqueItems
    {
      opaqueItems
    }

    /** `GetAllItems`: the stored owning list, unchanged. */
    function GetAllItems(): (r: seq<RenderItem>)
      reads this
      ensures r == allItems
    {
      allItems
    }

    /** `SetOpaqueItems`: replaces the opaque list wholesale. */
    method SetOpaqueItems(items: seq<RenderItem>)
      modifies this`opaqueItems
      ensures opaqueItems == items
    {
      opaqueItems := items;
    }
  }
}
