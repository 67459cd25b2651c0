/**
 * The mesh asset shared by the loader and the mesh passes. Its shape follows what the
 * mesh passes use: a vertex has a tangent and the mesh has a bounding box.
 */
module Graphics {
  import opened ScopMath

  datatype Vertex = Vertex(position: Vec3, normal: Vec3, tangent: Vec4, texCoords: Vec2)

  /**
   * `Mesh`: a vertex buffer, an index buffer (`u32` in the C++, never negative here) and
   * an axis-aligned bounding box. `vertex_count` and `index_count` are the lengths of the
   * two buffers.
   */
  class Mesh {
    var vertices: array<Vertex>
    var indices: array<nat>
    var aabbMin: Vec3
    var aabbMax: Vec3

    /** `Mesh mesh = {}`: empty buffers and a zero box. */
    constructor ()
      ensures vertices.Length == 0 && indices.Length == 0
      ensures aabbMin == DefaultVec3 && aabbMax == DefaultVec3
    {
      vertices := new Vertex[0];
      indices := new nat[0];
      aabbMin := DefaultVec3;
      aabbMax := DefaultVec3;
    }
  }
}
