/** Value types shared by the mesh tables, the entity store and the renderer feed:
    positions, colours, vertices, 16-bit indices, submesh ranges and mesh geometry. */
module Geometry {

  /** An XMFLOAT3, with the float components taken as reals. */
  datatype Float3 = Float3(x: real, y: real, z: real)

  /** The DirectX named colours the core uses for vertex colours. */
  datatype Color =
    | White | Black | Red | Green | Blue | Yellow | Cyan | Magenta
    | DarkGreen | Crimson | Aquamarine

  /** The `Vertex` struct: a position and a colour. */
  datatype Vertex = Vertex(pos: Float3, color: Color)

  /** sizeof(Vertex): an XMFLOAT3 (12 bytes) followed by an XMFLOAT4 (16 bytes). */
  const VertexByteSize: nat := 28

  /** sizeof(std::uint16_t). */
  const IndexByteSize: nat := 2

  /** A std::uint16_t index value. */
  type Index16 = i: nat | i < 0x1_0000

  /** The index buffer formats the core uses (DXGI_FORMAT_R16_UINT only). */
  datatype IndexFormat = R16Uint

  /** SubmeshGeometry: a DrawIndexedInstanced range inside a shared buffer.
      A default-constructed one is all zeros. */
  datatype Submesh = Submesh(indexCount: nat, startIndexLocation: nat, baseVertexLocation: int)

  /** The CPU-side content and description of a MeshGeometry: the vertex and index
      buffers as copied into their blobs, their strides and byte sizes, and the named
      draw ranges. The GPU resources made from the same bytes are not modelled. */
  datatype MeshGeometry = MeshGeometry(
    name: string,
    vertices: seq<Vertex>,
    indices: seq<Index16>,
    vertexByteStride: nat,
    vertexBufferByteSize: nat,
    indexFormat: IndexFormat,
    indexBufferByteSize: nat,
    drawArgs: map<string, Submesh>)

  /** `DrawArgs[name]` read through std::unordered_map::operator[]: the stored range,
      or a default (all-zero) SubmeshGeometry when the name is absent. */
  function DrawArg(g: MeshGeometry, name: string): (s: Submesh)
    ensures name in g.drawArgs ==> s == g.drawArgs[name]
    ensures name !in g.drawArgs ==> s == Submesh(0, 0, 0)
  {
    if name in g.drawArgs then g.drawArgs[name] else Submesh(0, 0, 0)
  }

  /** True when the submesh's index range lies inside the geometry's index buffer. */
  predicate RangeInBuffer(g: MeshGeometry, s: Submesh)
  {
    s.startIndexLocation + s.indexCount <= |g.indices|
  }

  /** World * Translate(0, 0, dz) for an affine world matrix, seen on its translation
      row (_41, _42, _43): only the z component moves, by dz. */
  function Translated(p: Float3, dz: real): (q: Float3)
    ensures q.x == p.x && q.y == p.y && q.z - p.z == dz
  {
    Float3(p.x, p.y, p.z + dz)
  }
}
