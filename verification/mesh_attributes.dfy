/**
 * The attribute passes over a triangle list: flat and smooth normals, tangents, the bounding
 * box and the basic texture coordinates. Arithmetic is over `real`. The helpers these passes
 * call whose definitions are not part of this model (`Normalized`, `Reject`, `InverseLerp`)
 * are parameters, so every result holds whatever they compute.
 *
 * Each pass works in place on the vertex buffer and is proved against a function of the old
 * buffer. Those functions say which field a pass writes and what goes into it; the lemmas
 * say what follows (shared triangle normals, the tangent sign, the box bounds).
 */
module MeshAttributes {
  import opened ScopMath
  import opened Graphics

  /** `FLT_MAX`, the largest finite single-precision value. */
  const FltMax: real := 340282346638528859811704183484516925440.0

  function Min(a: real, b: real): (r: real)
    ensures r <= a && r <= b && (r == a || r == b)
  {
    if a < b then a else b
  }

  function Max(a: real, b: real): (r: real)
    ensures r >= a && r >= b && (r == a || r == b)
  {
    if a < b then b else a
  }

  // ---------------------------------------------------------------- face normals

  /** The unnormalised normal of the triangle `a, b, c`: `(c - b) × (a - b)`. */
  function FaceCross(a: Vec3, b: Vec3, c: Vec3): Vec3 {
    c.Sub(b).Cross(a.Sub(b))
  }

  /** `Normalized (Cross (c - b, a - b))`: the normal the passes give the triangle `a, b, c`. */
  function FaceNormal(a: Vec3, b: Vec3, c: Vec3, normalized: Vec3 -> Vec3): Vec3 {
    normalized(FaceCross(a, b, c))
  }

  /** The face normal is orthogonal to the two edges it is built from. */
  lemma FaceCrossIsOrthogonal(a: Vec3, b: Vec3, c: Vec3)
    ensures c.Sub(b).Dot(FaceCross(a, b, c)) == 0.0
    ensures a.Sub(b).Dot(FaceCross(a, b, c)) == 0.0
  {
    CrossIsOrthogonal(c.Sub(b), a.Sub(b));
  }

  // ---------------------------------------------------------------- flat normals

  /** The normalised face normal of triangle `t`, the vertices `3t`, `3t + 1` and `3t + 2`. */
  function FlatNormalOf(vs: seq<Vertex>, t: nat, normalized: Vec3 -> Vec3): Vec3
    requires 3 * t + 2 < |vs|
  {
    FaceNormal(vs[3 * t].position, vs[3 * t + 1].position, vs[3 * t + 2].position, normalized)
  }

  /**
   * `CalculateNormalsFlat` as a function: every corner of triangle `t` (the vertices `3t`,
   * `3t + 1`, `3t + 2`) gets the normalised face normal of that triangle.
   */
  function FlatNormals(vs: seq<Vertex>, normalized: Vec3 -> Vec3): (r: seq<Vertex>)
    requires |vs| % 3 == 0
    ensures |r| == |vs|
  {
    seq(|vs|, k requires 0 <= k < |vs| => vs[k].(normal := FlatNormalOf(vs, k / 3, normalized)))
  }

  /** The three corners of a triangle share one normal, the normalised face normal. */
  lemma FlatNormalsShareTriangleNormal(vs: seq<Vertex>, normalized: Vec3 -> Vec3, t: nat)
    requires |vs| % 3 == 0 && 3 * t < |vs|
    ensures 3 * t + 2 < |vs|
    ensures FlatNormals(vs, normalized)[3 * t].normal == FlatNormals(vs, normalized)[3 * t + 1].normal
            == FlatNormals(vs, normalized)[3 * t + 2].normal == FlatNormalOf(vs, t, normalized)
  {
    TriangleOfCorner(|vs|, t);
  }

  /** The flat pass writes only normals. */
  lemma FlatNormalsKeepOtherFields(vs: seq<Vertex>, normalized: Vec3 -> Vec3)
    requires |vs| % 3 == 0
    ensures forall k | 0 <= k < |vs| :: FlatNormals(vs, normalized)[k] == vs[k].(normal := FlatNormals(vs, normalized)[k].normal)
  {
  }

  /** The corners of triangle `t` all lie in the buffer and belong to triangle `t`. */
  lemma TriangleOfCorner(n: nat, t: nat)
    requires n % 3 == 0 && 3 * t < n
    ensures 3 * t + 2 < n && (3 * t) / 3 == t && (3 * t + 1) / 3 == t && (3 * t + 2) / 3 == t
  {
  }

  /** A buffer whose every triangle has taken the flat normal is the flat pass's result. */
  lemma FlatNormalsByTriangle(vs: seq<Vertex>, ws: seq<Vertex>, normalized: Vec3 -> Vec3)
    requires |vs| % 3 == 0 && |ws| == |vs|
    requires forall t | 0 <= t < |vs| / 3 ::
               var n := FlatNormalOf(vs, t, normalized);
               && ws[3 * t] == vs[3 * t].(normal := n)
               && ws[3 * t + 1] == vs[3 * t + 1].(normal := n)
               && ws[3 * t + 2] == vs[3 * t + 2].(normal := n)
    ensures ws == FlatNormals(vs, normalized)
  {
    forall k | 0 <= k < |vs|
      ensures ws[k] == FlatNormals(vs, normalized)[k]
    {
      var t := k / 3;
      assert k == 3 * t || k == 3 * t + 1 || k == 3 * t + 2;
      assert t < |vs| / 3;
    }
  }

  /** Gives the three corners of the triangle starting at vertex `v` the normal `n`. */
  method SetTriangleNormal(vertices: array<Vertex>, v: nat, n: Vec3)
    requires v + 2 < vertices.Length
    modifies vertices
    ensures vertices[v] == old(vertices[v]).(normal := n)
    ensures vertices[v + 1] == old(vertices[v + 1]).(normal := n)
    ensures vertices[v + 2] == old(vertices[v + 2]).(normal := n)
    ensures forall k | 0 <= k < vertices.Length && (k < v || v + 2 < k) :: vertices[k] == old(vertices[k])
  {
    vertices[v] := vertices[v].(normal := n);
    vertices[v + 1] := vertices[v + 1].(normal := n);
    vertices[v + 2] := vertices[v + 2].(normal := n);
  }

  method CalculateNormalsFlat(vertices: array<Vertex>, normalized: Vec3 -> Vec3)
    requires vertices.Length % 3 == 0
    modifies vertices
    ensures vertices[..] == FlatNormals(old(vertices[..]), normalized)
  {
    ghost var vs := vertices[..];
    var triCount := vertices.Length / 3;
    for i := 0 to triCount
      invariant forall t | 0 <= t < i ::
                  var n := FlatNormalOf(vs, t, normalized);
                  && vertices[3 * t] == vs[3 * t].(normal := n)
                  && vertices[3 * t + 1] == vs[3 * t + 1].(normal := n)
                  && vertices[3 * t + 2] == vs[3 * t + 2].(normal := n)
      invariant forall k | 3 * i <= k < vertices.Length :: vertices[k] == vs[k]
    {
      var v := 3 * i;
      var delta12 := vertices[v + 2].position.Sub(vertices[v + 1].position);
      var delta10 := vertices[v].position.Sub(vertices[v + 1].position);
      var normal := normalized(delta12.Cross(delta10));
      assert normal == FlatNormalOf(vs, i, normalized);
      SetTriangleNormal(vertices, v, normal);
    }
    FlatNormalsByTriangle(vs, vertices[..], normalized);
  }

  // ---------------------------------------------------------------- per-corner sums

  /** `f` when `named` holds, zero otherwise. */
  function AddedIf(named: bool, f: Vec3): Vec3 {
    if named then f else DefaultVec3
  }

  /**
   * What the first `t` triangles of an index buffer add to vertex `k`: triangle `s` adds
   * `contributions[s]` once for each of its three corners that names `k`.
   */
  function TriangleSum(indices: seq<nat>, contributions: seq<Vec3>, k: nat, t: nat): Vec3
    requires 3 * t <= |indices| && t <= |contributions|
  {
    if t == 0 then DefaultVec3
    else
      var c, f := 3 * (t - 1), contributions[t - 1];
      TriangleSum(indices, contributions, k, t - 1)
        .Add(AddedIf(indices[c] == k, f)).Add(AddedIf(indices[c + 1] == k, f)).Add(AddedIf(indices[c + 2] == k, f))
  }

  /**
   * A vertex to which every triangle naming it contributes zero (in particular, one no
   * triangle names) sums to zero.
   */
  lemma {:induction false} TriangleSumOfSilentVertex(indices: seq<nat>, contributions: seq<Vec3>, k: nat, t: nat)
    requires 3 * t <= |indices| && t <= |contributions|
    requires forall s | 0 <= s < t && k in indices[3 * s..3 * s + 3] :: contributions[s] == DefaultVec3
    ensures TriangleSum(indices, contributions, k, t) == DefaultVec3
  {
    if t > 0 {
      assert DefaultVec3.Add(DefaultVec3) == DefaultVec3;
      TriangleSumOfSilentVertex(indices, contributions, k, t - 1);
      var c := 3 * (t - 1);
      if contributions[t - 1] != DefaultVec3 {
        assert k !in indices[c..c + 3];
        assert indices[c] == indices[c..c + 3][0] && indices[c + 1] == indices[c..c + 3][1]
            && indices[c + 2] == indices[c..c + 3][2];
      }
    }
  }

  /** Every index names a vertex and the buffer holds whole triangles. */
  predicate Triangles(vertexCount: nat, indices: seq<nat>) {
    |indices| % 3 == 0 && forall c | 0 <= c < |indices| :: indices[c] < vertexCount
  }

  // ---------------------------------------------------------------- smooth normals

  /** The normalised face normal of triangle `t` of the index buffer. */
  function FaceNormalAt(vs: seq<Vertex>, indices: seq<nat>, t: nat, normalized: Vec3 -> Vec3): Vec3
    requires Triangles(|vs|, indices) && 3 * t + 2 < |indices|
  {
    FaceNormal(vs[indices[3 * t]].position, vs[indices[3 * t + 1]].position,
               vs[indices[3 * t + 2]].position, normalized)
  }

  /** The normalised face normal of every triangle of the index buffer. */
  function FaceNormals(vs: seq<Vertex>, indices: seq<nat>, normalized: Vec3 -> Vec3): (r: seq<Vec3>)
    requires Triangles(|vs|, indices)
    ensures 3 * |r| == |indices|
    ensures forall t | 0 <= t < |r| :: r[t] == FaceNormalAt(vs, indices, t, normalized)
  {
    seq(|indices| / 3, t requires 0 <= t < |indices| / 3 => FaceNormalAt(vs, indices, t, normalized))
  }

  /**
   * `CalculateNormalsSmooth` as a function: the face normal of every triangle is added to the
   * normal its three corners already hold, then every normal is normalised.
   */
  function SmoothNormals(vs: seq<Vertex>, indices: seq<nat>, normalized: Vec3 -> Vec3): (r: seq<Vertex>)
    requires Triangles(|vs|, indices)
    ensures |r| == |vs|
    ensures forall k | 0 <= k < |vs| :: r[k] == vs[k].(normal := r[k].normal)
  {
    var faces := FaceNormals(vs, indices, normalized);
    seq(|vs|, k requires 0 <= k < |vs| =>
      vs[k].(normal := normalized(vs[k].normal.Add(TriangleSum(indices, faces, k, |faces|)))))
  }

  /**
   * The normal a vertex holds on entry is kept in the sum rather than reset: a vertex no
   * triangle names comes out with its own normal, normalised.
   */
  lemma UnreferencedVertexKeepsNormal(vs: seq<Vertex>, indices: seq<nat>, normalized: Vec3 -> Vec3, k: nat)
    requires Triangles(|vs|, indices) && k < |vs|
    requires forall c | 0 <= c < |indices| :: indices[c] != k
    ensures SmoothNormals(vs, indices, normalized)[k].normal == normalized(vs[k].normal)
  {
    var faces := FaceNormals(vs, indices, normalized);
    TriangleSumOfSilentVertex(indices, faces, k, |faces|);
    assert vs[k].normal.Add(DefaultVec3) == vs[k].normal;
  }

  /** Zero is neutral for vector addition, on either side. */
  lemma ZeroIsNeutral(v: Vec3)
    ensures v.Add(DefaultVec3) == v && DefaultVec3.Add(v) == v
  {
  }

  /**
   * With the identity index buffer, corner `j` of triangle `u` is the vertex `3u + j` and no
   * other triangle names it: the first `t` triangles give it the contribution of triangle `u`
   * once `u` is among them, and zero before.
   */
  lemma {:induction false} UnsharedCornerSum(indices: seq<nat>, contributions: seq<Vec3>, u: nat, j: nat, t: nat)
    requires 3 * t <= |indices| && t <= |contributions| && j < 3
    requires forall c | 0 <= c < |indices| :: indices[c] == c
    ensures TriangleSum(indices, contributions, 3 * u + j, t) == if u < t then contributions[u] else DefaultVec3
  {
    if t > 0 {
      assert DefaultVec3.Add(DefaultVec3) == DefaultVec3;
      UnsharedCornerSum(indices, contributions, u, j, t - 1);
      var c, f, k := 3 * (t - 1), contributions[t - 1], 3 * u + j;
      var sum := TriangleSum(indices, contributions, k, t - 1);
      assert indices[c] == c && indices[c + 1] == c + 1 && indices[c + 2] == c + 2;
      ZeroIsNeutral(f);
      ZeroIsNeutral(sum);
      if t - 1 == u {
        assert sum == DefaultVec3;
      } else {
        assert c + 2 < k || k < c;
      }
    }
  }

  /** With the identity index buffer, triangle `u` of the buffer is triangle `u` of the list. */
  lemma UnsharedFaceNormal(vs: seq<Vertex>, indices: seq<nat>, normalized: Vec3 -> Vec3, u: nat)
    requires |vs| % 3 == 0 && |indices| == |vs| && 3 * u < |vs|
    requires forall c | 0 <= c < |indices| :: indices[c] == c
    ensures Triangles(|vs|, indices) && 3 * u + 2 < |vs|
    ensures FaceNormalAt(vs, indices, u, normalized) == FlatNormalOf(vs, u, normalized)
  {
    TriangleOfCorner(|vs|, u);
  }

  /**
   * On an unindexed triangle list (the identity index buffer the loader builds) whose normals
   * start at zero, the smooth pass gives the same normals as the flat pass, as long as
   * normalising a normalised vector changes nothing (the smooth pass normalises twice).
   */
  lemma SmoothIsFlatWithoutSharing(vs: seq<Vertex>, indices: seq<nat>, normalized: Vec3 -> Vec3)
    requires |vs| % 3 == 0 && |indices| == |vs|
    requires forall c | 0 <= c < |indices| :: indices[c] == c
    requires forall k | 0 <= k < |vs| :: vs[k].normal == DefaultVec3
    requires forall v :: normalized(normalized(v)) == normalized(v)
    ensures Triangles(|vs|, indices)
    ensures SmoothNormals(vs, indices, normalized) == FlatNormals(vs, normalized)
  {
    assert Triangles(|vs|, indices);
    var faces := FaceNormals(vs, indices, normalized);
    var smooth, flat := SmoothNormals(vs, indices, normalized), FlatNormals(vs, normalized);
    forall k | 0 <= k < |vs|
      ensures smooth[k] == flat[k]
    {
      var u := k / 3;
      var j := k - 3 * u;
      UnsharedFaceNormal(vs, indices, normalized, u);
      UnsharedCornerSum(indices, faces, u, j, |faces|);
      ZeroIsNeutral(faces[u]);
      assert smooth[k].normal == flat[k].normal;
    }
  }

  /** The vertices after the first `t` triangles have added their face normal to their corners. */
  ghost function Accumulated(vs: seq<Vertex>, indices: seq<nat>, faces: seq<Vec3>, t: nat): (r: seq<Vertex>)
    requires 3 * t <= |indices| && t <= |faces|
    ensures |r| == |vs|
  {
    seq(|vs|, k requires 0 <= k < |vs| => vs[k].(normal := vs[k].normal.Add(TriangleSum(indices, faces, k, t))))
  }

  /** Adds `f` to the normal of vertex `k`. */
  function AddNormal(s: seq<Vertex>, k: nat, f: Vec3): (r: seq<Vertex>)
    requires k < |s|
    ensures |r| == |s| && r[k].normal == s[k].normal.Add(f)
    ensures forall j | 0 <= j < |s| && j != k :: r[j] == s[j]
  {
    s[k := s[k].(normal := s[k].normal.Add(f))]
  }

  /** One more triangle adds its face normal to each of its three corners in turn. */
  lemma AccumulateStep(vs: seq<Vertex>, indices: seq<nat>, faces: seq<Vec3>, t: nat)
    requires Triangles(|vs|, indices) && 3 * t + 2 < |indices| && t < |faces|
    ensures var c, f := 3 * t, faces[t];
            Accumulated(vs, indices, faces, t + 1)
              == AddNormal(AddNormal(AddNormal(Accumulated(vs, indices, faces, t), indices[c], f),
                                     indices[c + 1], f), indices[c + 2], f)
  {
    var c, f := 3 * t, faces[t];
    var before, after := Accumulated(vs, indices, faces, t), Accumulated(vs, indices, faces, t + 1);
    var stepped := AddNormal(AddNormal(AddNormal(before, indices[c], f), indices[c + 1], f), indices[c + 2], f);
    forall k | 0 <= k < |vs|
      ensures after[k] == stepped[k]
    {
      AccumulateStepAt(vs, indices, faces, t, k);
    }
  }

  /** `AccumulateStep` at one vertex. */
  lemma AccumulateStepAt(vs: seq<Vertex>, indices: seq<nat>, faces: seq<Vec3>, t: nat, k: nat)
    requires Triangles(|vs|, indices) && 3 * t + 2 < |indices| && t < |faces| && k < |vs|
    ensures var c, f := 3 * t, faces[t];
            Accumulated(vs, indices, faces, t + 1)[k]
              == AddNormal(AddNormal(AddNormal(Accumulated(vs, indices, faces, t), indices[c], f),
                                     indices[c + 1], f), indices[c + 2], f)[k]
  {
    var c, f := 3 * t, faces[t];
    var s0 := Accumulated(vs, indices, faces, t);
    var s1 := AddNormal(s0, indices[c], f);
    var s2 := AddNormal(s1, indices[c + 1], f);
    var a0, a1, a2 := AddedIf(indices[c] == k, f), AddedIf(indices[c + 1] == k, f), AddedIf(indices[c + 2] == k, f);
    AddNormalAt(s0, k, indices[c], f);
    AddNormalAt(s1, k, indices[c + 1], f);
    AddNormalAt(s2, k, indices[c + 2], f);
    var n, sum := vs[k].normal, TriangleSum(indices, faces, k, t);
    assert TriangleSum(indices, faces, k, t + 1) == sum.Add(a0).Add(a1).Add(a2);
    Regroup(n, sum, a0, a1, a2);
  }

  lemma Regroup(n: Vec3, sum: Vec3, a0: Vec3, a1: Vec3, a2: Vec3)
    ensures n.Add(sum).Add(a0).Add(a1).Add(a2) == n.Add(sum.Add(a0).Add(a1).Add(a2))
  {}

  /** `AddNormal` at one vertex adds `f` exactly when that vertex is the one named. */
  lemma AddNormalAt(s: seq<Vertex>, k: nat, j: nat, f: Vec3)
    requires k < |s| && j < |s|
    ensures AddNormal(s, j, f)[k] == s[k].(normal := s[k].normal.Add(AddedIf(j == k, f)))
  {
    if j != k {
      assert s[k].normal.Add(DefaultVec3) == s[k].normal;
    }
  }

  /** Positions are never touched, so triangle `t` reads its face normal off the running sums. */
  lemma AccumulatedFace(vs: seq<Vertex>, indices: seq<nat>, normalized: Vec3 -> Vec3, t: nat)
    requires Triangles(|vs|, indices) && 3 * t + 2 < |indices|
    ensures var faces := FaceNormals(vs, indices, normalized);
            var s, c := Accumulated(vs, indices, faces, t), 3 * t;
            FaceNormal(s[indices[c]].position, s[indices[c + 1]].position, s[indices[c + 2]].position, normalized)
              == faces[t]
  {
    var faces := FaceNormals(vs, indices, normalized);
    assert faces[t] == FaceNormalAt(vs, indices, t, normalized);
  }

  method CalculateNormalsSmooth(vertices: array<Vertex>, indices: array<nat>, normalized: Vec3 -> Vec3)
    requires Triangles(vertices.Length, indices[..])
    modifies vertices
    ensures vertices[..] == SmoothNormals(old(vertices[..]), indices[..], normalized)
  {
    ghost var vs, ix := vertices[..], indices[..];
    ghost var faces := FaceNormals(vs, ix, normalized);
    var i := 0;
    ghost var t := 0;
    while i < indices.Length
      invariant i == 3 * t && i <= indices.Length
      invariant vertices[..] == Accumulated(vs, ix, faces, t)
    {
      var i0, i1, i2 := indices[i], indices[i + 1], indices[i + 2];
      assert i0 == ix[3 * t] && i1 == ix[3 * t + 1] && i2 == ix[3 * t + 2];
      ghost var before := vertices[..];
      AccumulatedFace(vs, ix, normalized, t);
      var a, b, c := vertices[i0].position, vertices[i1].position, vertices[i2].position;
      var normal := FaceNormal(a, b, c, normalized);
      vertices[i0] := vertices[i0].(normal := vertices[i0].normal.Add(normal));
      vertices[i1] := vertices[i1].(normal := vertices[i1].normal.Add(normal));
      vertices[i2] := vertices[i2].(normal := vertices[i2].normal.Add(normal));
      assert vertices[..] == AddNormal(AddNormal(AddNormal(before, i0, normal), i1, normal), i2, normal);
      AccumulateStep(vs, ix, faces, t);
      i, t := i + 3, t + 1;
    }

    assert t == |faces|;
    NormalizeNormals(vertices, normalized);
  }

  /** The second pass of `CalculateNormalsSmooth`: every normal is replaced by its normalisation. */
  method NormalizeNormals(vertices: array<Vertex>, normalized: Vec3 -> Vec3)
    modifies vertices
    ensures forall k | 0 <= k < vertices.Length ::
              vertices[k] == old(vertices[k]).(normal := normalized(old(vertices[k]).normal))
  {
    for i := 0 to vertices.Length
      invariant forall k | 0 <= k < vertices.Length ::
                  vertices[k] == (if k < i then old(vertices[k]).(normal := normalized(old(vertices[k]).normal))
                                  else old(vertices[k]))
    {
      vertices[i] := vertices[i].(normal := normalized(vertices[i].normal));
    }
  }

  // ---------------------------------------------------------------- tangents

  /**
   * The tangent `t` and bitangent `b` of one triangle from its positions and texture
   * coordinates, or two zero vectors when the texture-space determinant `x1*y2 - x2*y1` is 0
   * (the triangle is skipped).
   */
  function TriangleFrame(p0: Vec3, p1: Vec3, p2: Vec3, u0: Vec2, u1: Vec2, u2: Vec2): (Vec3, Vec3) {
    EdgeFrame(p1.Sub(p0), p2.Sub(p0), u1.x - u0.x, u2.x - u0.x, u1.y - u0.y, u2.y - u0.y)
  }

  /**
   * `TriangleFrame` from the edges `e1 = p1 - p0`, `e2 = p2 - p0` and the texture-coordinate
   * differences `(x1, y1)`, `(x2, y2)` along them.
   */
  function EdgeFrame(e1: Vec3, e2: Vec3, x1: real, x2: real, y1: real, y2: real): (Vec3, Vec3) {
    var invR := x1 * y2 - x2 * y1;
    if invR == 0.0 then (DefaultVec3, DefaultVec3)
    else
      var r := 1.0 / invR;
      (e1.Mul(y2).Sub(e2.Mul(y1)).Mul(r), e2.Mul(x1).Sub(e1.Mul(x2)).Mul(r))
  }

  /** A zero texture-space determinant gives the zero frame; otherwise the frame is the solved pair. */
  lemma EdgeFrameCases(e1: Vec3, e2: Vec3, x1: real, x2: real, y1: real, y2: real, invR: real)
    requires invR == x1 * y2 - x2 * y1
    ensures invR == 0.0 ==> EdgeFrame(e1, e2, x1, x2, y1, y2) == (DefaultVec3, DefaultVec3)
    ensures invR != 0.0 ==> EdgeFrame(e1, e2, x1, x2, y1, y2)
                              == (e1.Mul(y2).Sub(e2.Mul(y1)).Mul(1.0 / invR), e2.Mul(x1).Sub(e1.Mul(x2)).Mul(1.0 / invR))
  {
  }

  /** The frame of triangle `t` of the index buffer. */
  function FrameAt(vs: seq<Vertex>, indices: seq<nat>, t: nat): (Vec3, Vec3)
    requires Triangles(|vs|, indices) && 3 * t + 2 < |indices|
  {
    var v0, v1, v2 := vs[indices[3 * t]], vs[indices[3 * t + 1]], vs[indices[3 * t + 2]];
    TriangleFrame(v0.position, v1.position, v2.position, v0.texCoords, v1.texCoords, v2.texCoords)
  }

  /** The frame of every triangle of the index buffer. */
  function Frames(vs: seq<Vertex>, indices: seq<nat>): (r: seq<(Vec3, Vec3)>)
    requires Triangles(|vs|, indices)
    ensures 3 * |r| == |indices|
    ensures forall t | 0 <= t < |r| :: r[t] == FrameAt(vs, indices, t)
  {
    seq(|indices| / 3, t requires 0 <= t < |indices| / 3 => FrameAt(vs, indices, t))
  }

  /** What each triangle adds to the tangent half of the scratch buffer as written: `t` and then `b`. */
  function MergedParts(frames: seq<(Vec3, Vec3)>): (r: seq<Vec3>)
    ensures |r| == |frames| && forall t | 0 <= t < |r| :: r[t] == frames[t].0.Add(frames[t].1)
  {
    seq(|frames|, t requires 0 <= t < |frames| => frames[t].0.Add(frames[t].1))
  }

  /** The tangent of every triangle. */
  function TangentParts(frames: seq<(Vec3, Vec3)>): (r: seq<Vec3>)
    ensures |r| == |frames| && forall t | 0 <= t < |r| :: r[t] == frames[t].0
  {
    seq(|frames|, t requires 0 <= t < |frames| => frames[t].0)
  }

  /** The bitangent of every triangle. */
  function BitangentParts(frames: seq<(Vec3, Vec3)>): (r: seq<Vec3>)
    ensures |r| == |frames| && forall t | 0 <= t < |r| :: r[t] == frames[t].1
  {
    seq(|frames|, t requires 0 <= t < |frames| => frames[t].1)
  }

  /** The handedness of a tangent frame: `+1` when `(t × b) · n > 0`, `-1` otherwise. */
  function TangentSign(t: Vec3, b: Vec3, n: Vec3): (r: real)
    ensures r == 1.0 || r == -1.0
    ensures r == 1.0 <==> t.Cross(b).Dot(n) > 0.0
  {
    if t.Cross(b).Dot(n) > 0.0 then 1.0 else -1.0
  }

  /** The tangent of a vertex from its accumulated `t` and `b` and its normal. */
  function VertexTangent(t: Vec3, b: Vec3, n: Vec3, normalized: Vec3 -> Vec3, reject: (Vec3, Vec3) -> Vec3): Vec4 {
    var tangent := normalized(reject(t, n));
    Vec4(tangent.x, tangent.y, tangent.z, TangentSign(t, b, n))
  }

  /**
   * `CalculateTangents` as written: both accumulations go into the tangent half of the
   * scratch buffer, so the bitangent half keeps its zeroes.
   */
  function Tangents(vs: seq<Vertex>, indices: seq<nat>, normalized: Vec3 -> Vec3,
                    reject: (Vec3, Vec3) -> Vec3): (r: seq<Vertex>)
    requires Triangles(|vs|, indices)
    ensures |r| == |vs|
    ensures forall k | 0 <= k < |vs| :: r[k] == vs[k].(tangent := r[k].tangent)
  {
    var merged := MergedParts(Frames(vs, indices));
    seq(|vs|, k requires 0 <= k < |vs| =>
      vs[k].(tangent := VertexTangent(TriangleSum(indices, merged, k, |merged|), DefaultVec3,
                                      vs[k].normal, normalized, reject)))
  }

  /** As written, every tangent sign is `-1`: the bitangent is zero, so `(t × b) · n` is 0. */
  lemma TangentSignIsAlwaysNegative(vs: seq<Vertex>, indices: seq<nat>, normalized: Vec3 -> Vec3,
                                    reject: (Vec3, Vec3) -> Vec3)
    requires Triangles(|vs|, indices)
    ensures forall k | 0 <= k < |vs| :: Tangents(vs, indices, normalized, reject)[k].tangent.w == -1.0
  {
    var merged := MergedParts(Frames(vs, indices));
    forall k | 0 <= k < |vs|
      ensures Tangents(vs, indices, normalized, reject)[k].tangent.w == -1.0
    {
      CrossWithZero(TriangleSum(indices, merged, k, |merged|));
    }
  }

  /**
   * A vertex all of whose triangles are skipped (zero texture-space determinant), or which no
   * triangle names, gets the tangent of a zero accumulation.
   */
  lemma SkippedTrianglesContributeNothing(vs: seq<Vertex>, indices: seq<nat>, normalized: Vec3 -> Vec3,
                                          reject: (Vec3, Vec3) -> Vec3, k: nat)
    requires Triangles(|vs|, indices) && k < |vs|
    requires forall t | 0 <= t < |indices| / 3 && k in indices[3 * t..3 * t + 3] ::
               FrameAt(vs, indices, t) == (DefaultVec3, DefaultVec3)
    ensures var n := normalized(reject(DefaultVec3, vs[k].normal));
            Tangents(vs, indices, normalized, reject)[k].tangent == Vec4(n.x, n.y, n.z, -1.0)
  {
    assert DefaultVec3.Add(DefaultVec3) == DefaultVec3;
    var frames := Frames(vs, indices);
    var merged := MergedParts(frames);
    forall t | 0 <= t < |merged| && k in indices[3 * t..3 * t + 3]
      ensures merged[t] == DefaultVec3
    {
      assert frames[t] == (DefaultVec3, DefaultVec3);
    }
    TriangleSumOfSilentVertex(indices, merged, k, |merged|);
    assert Tangents(vs, indices, normalized, reject)[k].tangent
        == VertexTangent(DefaultVec3, DefaultVec3, vs[k].normal, normalized, reject);
    CrossWithZero(DefaultVec3);
  }

  /** Adding `t` and then `b` at each named corner adds `t + b` at each named corner. */
  lemma SplitAccumulation(s: Vec3, t: Vec3, b: Vec3, n0: bool, n1: bool, n2: bool)
    ensures s.Add(AddedIf(n0, t)).Add(AddedIf(n1, t)).Add(AddedIf(n2, t))
             .Add(AddedIf(n0, b)).Add(AddedIf(n1, b)).Add(AddedIf(n2, b))
            == s.Add(AddedIf(n0, t.Add(b))).Add(AddedIf(n1, t.Add(b))).Add(AddedIf(n2, t.Add(b)))
  {
  }

  /**
   * The scratch buffer of `CalculateTangents` after the first `tri` triangles: the tangent half
   * holds each vertex's running sum, the bitangent half its initial zeroes.
   */
  ghost function Scratch(indices: seq<nat>, merged: seq<Vec3>, vertexCount: nat, tri: nat): (r: seq<Vec3>)
    requires 3 * tri <= |indices| && tri <= |merged|
    ensures |r| == 2 * vertexCount
  {
    seq(2 * vertexCount, k requires 0 <= k < 2 * vertexCount =>
      if k < vertexCount then TriangleSum(indices, merged, k, tri) else DefaultVec3)
  }

  /** Adds `f` to entry `k` of the scratch buffer. */
  function AddAt(s: seq<Vec3>, k: nat, f: Vec3): (r: seq<Vec3>)
    requires k < |s|
    ensures |r| == |s| && r[k] == s[k].Add(f)
    ensures forall j | 0 <= j < |s| && j != k :: r[j] == s[j]
  {
    s[k := s[k].Add(f)]
  }

  /** `AddAt` at one entry adds `f` exactly when that entry is the one named. */
  lemma AddAtAt(s: seq<Vec3>, k: nat, j: nat, f: Vec3)
    requires k < |s| && j < |s|
    ensures AddAt(s, j, f)[k] == s[k].Add(AddedIf(j == k, f))
  {
    if j != k {
      assert s[k].Add(DefaultVec3) == s[k];
    }
  }

  /** Adding `t` at the three corners and then `b` at the three corners adds `t + b` at each. */
  lemma ScratchStep(indices: seq<nat>, merged: seq<Vec3>, vertexCount: nat, tri: nat, t: Vec3, b: Vec3)
    requires Triangles(vertexCount, indices) && 3 * tri + 2 < |indices| && tri < |merged|
    requires merged[tri] == t.Add(b)
    ensures var s, c := Scratch(indices, merged, vertexCount, tri), 3 * tri;
            Scratch(indices, merged, vertexCount, tri + 1)
              == AddAt(AddAt(AddAt(AddAt(AddAt(AddAt(s, indices[c], t), indices[c + 1], t), indices[c + 2], t),
                                   indices[c], b), indices[c + 1], b), indices[c + 2], b)
  {
    var s, c := Scratch(indices, merged, vertexCount, tri), 3 * tri;
    var after := Scratch(indices, merged, vertexCount, tri + 1);
    var stepped := AddAt(AddAt(AddAt(AddAt(AddAt(AddAt(s, indices[c], t), indices[c + 1], t), indices[c + 2], t),
                                     indices[c], b), indices[c + 1], b), indices[c + 2], b);
    forall k | 0 <= k < 2 * vertexCount
      ensures after[k] == stepped[k]
    {
      ScratchStepAt(indices, merged, vertexCount, tri, t, b, k);
    }
  }

  /** `ScratchStep` at one entry. */
  lemma ScratchStepAt(indices: seq<nat>, merged: seq<Vec3>, vertexCount: nat, tri: nat, t: Vec3, b: Vec3, k: nat)
    requires Triangles(vertexCount, indices) && 3 * tri + 2 < |indices| && tri < |merged|
    requires merged[tri] == t.Add(b) && k < 2 * vertexCount
    ensures var s, c := Scratch(indices, merged, vertexCount, tri), 3 * tri;
            Scratch(indices, merged, vertexCount, tri + 1)[k]
              == AddAt(AddAt(AddAt(AddAt(AddAt(AddAt(s, indices[c], t), indices[c + 1], t), indices[c + 2], t),
                                   indices[c], b), indices[c + 1], b), indices[c + 2], b)[k]
  {
    var s0, c := Scratch(indices, merged, vertexCount, tri), 3 * tri;
    var s1 := AddAt(s0, indices[c], t);
    var s2 := AddAt(s1, indices[c + 1], t);
    var s3 := AddAt(s2, indices[c + 2], t);
    var s4 := AddAt(s3, indices[c], b);
    var s5 := AddAt(s4, indices[c + 1], b);
    AddAtAt(s0, k, indices[c], t);
    AddAtAt(s1, k, indices[c + 1], t);
    AddAtAt(s2, k, indices[c + 2], t);
    AddAtAt(s3, k, indices[c], b);
    AddAtAt(s4, k, indices[c + 1], b);
    AddAtAt(s5, k, indices[c + 2], b);
    if k < vertexCount {
      var sum := TriangleSum(indices, merged, k, tri);
      assert TriangleSum(indices, merged, k, tri + 1)
          == sum.Add(AddedIf(indices[c] == k, merged[tri])).Add(AddedIf(indices[c + 1] == k, merged[tri]))
                .Add(AddedIf(indices[c + 2] == k, merged[tri]));
      SplitAccumulation(sum, t, b, indices[c] == k, indices[c + 1] == k, indices[c + 2] == k);
    } else {
      assert indices[c] != k && indices[c + 1] != k && indices[c + 2] != k;
    }
  }

  /** A skipped triangle, whose part is zero, leaves the scratch buffer as it is. */
  lemma ScratchSkip(indices: seq<nat>, merged: seq<Vec3>, vertexCount: nat, tri: nat)
    requires Triangles(vertexCount, indices) && 3 * tri + 2 < |indices| && tri < |merged|
    requires merged[tri] == DefaultVec3
    ensures Scratch(indices, merged, vertexCount, tri + 1) == Scratch(indices, merged, vertexCount, tri)
  {
    forall k | 0 <= k < vertexCount
      ensures TriangleSum(indices, merged, k, tri + 1) == TriangleSum(indices, merged, k, tri)
    {
      var sum := TriangleSum(indices, merged, k, tri);
      assert sum.Add(DefaultVec3).Add(DefaultVec3).Add(DefaultVec3) == sum;
    }
  }

  /** What triangle `tri` adds, read off its corners. */
  lemma MergedAt(vs: seq<Vertex>, indices: seq<nat>, tri: nat, p0: Vec3, p1: Vec3, p2: Vec3, u0: Vec2, u1: Vec2, u2: Vec2)
    requires Triangles(|vs|, indices) && 3 * tri + 2 < |indices|
    requires p0 == vs[indices[3 * tri]].position && u0 == vs[indices[3 * tri]].texCoords
    requires p1 == vs[indices[3 * tri + 1]].position && u1 == vs[indices[3 * tri + 1]].texCoords
    requires p2 == vs[indices[3 * tri + 2]].position && u2 == vs[indices[3 * tri + 2]].texCoords
    ensures var merged, f := MergedParts(Frames(vs, indices)), TriangleFrame(p0, p1, p2, u0, u1, u2);
            tri < |merged| && merged[tri] == f.0.Add(f.1)
  {
    var frames := Frames(vs, indices);
    assert frames[tri] == FrameAt(vs, indices, tri);
  }

  method CalculateTangents(vertices: array<Vertex>, indices: array<nat>, normalized: Vec3 -> Vec3,
                           reject: (Vec3, Vec3) -> Vec3)
    requires Triangles(vertices.Length, indices[..])
    modifies vertices
    ensures vertices[..] == Tangents(old(vertices[..]), indices[..], normalized, reject)
  {
    ghost var vs, ix := vertices[..], indices[..];
    var vertexCount := vertices.Length;
    // The tangent half is `[0, vertexCount)`, the bitangent half `[vertexCount, 2 * vertexCount)`.
    var tempTangents := new Vec3[2 * vertexCount](_ => DefaultVec3);
    AccumulateFrames(vertices, indices, tempTangents);

    ghost var temps := tempTangents[..];
    TangentsFromScratch(vs, ix, normalized, reject, temps);
    WriteTangents(vertices, tempTangents, normalized, reject);
    assert tempTangents[..] == temps;
    forall k | 0 <= k < vertexCount
      ensures vertices[k] == Tangents(vs, ix, normalized, reject)[k]
    {
      assert temps[k] == tempTangents[k] && temps[vertexCount + k] == tempTangents[vertexCount + k];
    }
  }

  /**
   * The first pass of `CalculateTangents`: every triangle with a non-zero texture-space
   * determinant adds its tangent and then its bitangent to the tangent half of the zeroed
   * scratch buffer, at each of its corners.
   */
  method AccumulateFrames(vertices: array<Vertex>, indices: array<nat>, tempTangents: array<Vec3>)
    requires Triangles(vertices.Length, indices[..])
    requires tempTangents.Length == 2 * vertices.Length
    requires forall k | 0 <= k < tempTangents.Length :: tempTangents[k] == DefaultVec3
    modifies tempTangents
    ensures tempTangents[..] == Scratch(indices[..], MergedParts(Frames(vertices[..], indices[..])),
                                        vertices.Length, indices.Length / 3)
  {
    ghost var vs, ix := vertices[..], indices[..];
    ghost var merged := MergedParts(Frames(vs, ix));
    var vertexCount := vertices.Length;
    assert tempTangents[..] == Scratch(ix, merged, vertexCount, 0);

    var i := 0;
    ghost var tri := 0;
    while i < indices.Length
      invariant i == 3 * tri && i <= indices.Length
      invariant vertices[..] == vs
      invariant tempTangents[..] == Scratch(ix, merged, vertexCount, tri)
    {
      assert DefaultVec3.Add(DefaultVec3) == DefaultVec3;
      var i0, i1, i2 := indices[i], indices[i + 1], indices[i + 2];
      assert i0 == ix[3 * tri] && i1 == ix[3 * tri + 1] && i2 == ix[3 * tri + 2];
      var p0, p1, p2 := vertices[i0].position, vertices[i1].position, vertices[i2].position;
      var t0, t1, t2 := vertices[i0].texCoords, vertices[i1].texCoords, vertices[i2].texCoords;
      assert vertices[i0] == vs[i0] && vertices[i1] == vs[i1] && vertices[i2] == vs[i2];
      MergedAt(vs, ix, tri, p0, p1, p2, t0, t1, t2);
      var e1 := p1.Sub(p0);
      var e2 := p2.Sub(p0);
      var x1 := t1.x - t0.x;
      var x2 := t2.x - t0.x;
      var y1 := t1.y - t0.y;
      var y2 := t2.y - t0.y;

      var invR := x1 * y2 - x2 * y1;
      assert TriangleFrame(p0, p1, p2, t0, t1, t2) == EdgeFrame(e1, e2, x1, x2, y1, y2);
      EdgeFrameCases(e1, e2, x1, x2, y1, y2, invR);
      if invR == 0.0 {
        ScratchSkip(ix, merged, vertexCount, tri);
        i, tri := i + 3, tri + 1;
        continue;
      }

      var r := 1.0 / invR;
      var t := e1.Mul(y2).Sub(e2.Mul(y1)).Mul(r);
      var b := e2.Mul(x1).Sub(e1.Mul(x2)).Mul(r);

      AddFrame(tempTangents, i0, i1, i2, t, b);
      ScratchStep(ix, merged, vertexCount, tri, t, b);
      i, tri := i + 3, tri + 1;
    }
  }

  /** Adds tangent `t` and then bitangent `b` at the three corners of one triangle. */
  method AddFrame(tempTangents: array<Vec3>, i0: nat, i1: nat, i2: nat, t: Vec3, b: Vec3)
    requires i0 < tempTangents.Length && i1 < tempTangents.Length && i2 < tempTangents.Length
    modifies tempTangents
    ensures tempTangents[..] == AddAt(AddAt(AddAt(AddAt(AddAt(AddAt(old(tempTangents[..]), i0, t), i1, t), i2, t),
                                                  i0, b), i1, b), i2, b)
  {
    tempTangents[i0] := tempTangents[i0].Add(t);
    tempTangents[i1] := tempTangents[i1].Add(t);
    tempTangents[i2] := tempTangents[i2].Add(t);
    tempTangents[i0] := tempTangents[i0].Add(b);
    tempTangents[i1] := tempTangents[i1].Add(b);
    tempTangents[i2] := tempTangents[i2].Add(b);
  }

  /** The second pass over the final scratch buffer yields `Tangents`. */
  lemma TangentsFromScratch(vs: seq<Vertex>, indices: seq<nat>, normalized: Vec3 -> Vec3,
                            reject: (Vec3, Vec3) -> Vec3, temps: seq<Vec3>)
    requires Triangles(|vs|, indices)
    requires temps == Scratch(indices, MergedParts(Frames(vs, indices)), |vs|, |indices| / 3)
    ensures forall k | 0 <= k < |vs| ::
              Tangents(vs, indices, normalized, reject)[k]
                == vs[k].(tangent := VertexTangent(temps[k], temps[|vs| + k], vs[k].normal, normalized, reject))
  {
  }

  /**
   * The second pass of `CalculateTangents`: each vertex's tangent from the tangent and
   * bitangent halves of the scratch buffer and its normal.
   */
  method WriteTangents(vertices: array<Vertex>, tempTangents: array<Vec3>, normalized: Vec3 -> Vec3,
                       reject: (Vec3, Vec3) -> Vec3)
    requires tempTangents.Length == 2 * vertices.Length
    modifies vertices
    ensures forall k | 0 <= k < vertices.Length ::
              vertices[k] == old(vertices[k]).(tangent := VertexTangent(tempTangents[k],
                               tempTangents[vertices.Length + k], old(vertices[k]).normal, normalized, reject))
  {
    var vertexCount, bitangentsStart := vertices.Length, vertices.Length;
    ghost var temps := tempTangents[..];
    for i := 0 to vertexCount
      invariant tempTangents[..] == temps
      invariant forall k | 0 <= k < i ::
                  vertices[k] == old(vertices[k]).(tangent := VertexTangent(temps[k],
                                   temps[vertexCount + k], old(vertices[k]).normal, normalized, reject))
      invariant forall k | i <= k < vertexCount :: vertices[k] == old(vertices[k])
    {
      var t := tempTangents[i];
      var b := tempTangents[bitangentsStart + i];
      var n := vertices[i].normal;
      var tangent := normalized(reject(t, n));
      var tangentSign := if t.Cross(b).Dot(n) > 0.0 then 1.0 else -1.0;
      assert Vec4(tangent.x, tangent.y, tangent.z, tangentSign) == VertexTangent(t, b, n, normalized, reject);
      vertices[i] := vertices[i].(tangent := Vec4(tangent.x, tangent.y, tangent.z, tangentSign));
    }
  }

  /**
   * The evidently intended pass: `t` goes to the tangent half and `b` to the bitangent half,
   * so the sign records the handedness of the texture mapping.
   */
  function IntendedTangents(vs: seq<Vertex>, indices: seq<nat>, normalized: Vec3 -> Vec3,
                            reject: (Vec3, Vec3) -> Vec3): (r: seq<Vertex>)
    requires Triangles(|vs|, indices)
    ensures |r| == |vs|
    ensures forall k | 0 <= k < |vs| :: r[k] == vs[k].(tangent := r[k].tangent)
  {
    var frames := Frames(vs, indices);
    var ts, bs := TangentParts(frames), BitangentParts(frames);
    seq(|vs|, k requires 0 <= k < |vs| =>
      vs[k].(tangent := VertexTangent(TriangleSum(indices, ts, k, |ts|), TriangleSum(indices, bs, k, |bs|),
                                      vs[k].normal, normalized, reject)))
  }

  /** A vertex named once, by the first corner of the first triangle, sums that triangle's part. */
  lemma FirstCornerSum(indices: seq<nat>, contributions: seq<Vec3>)
    requires |indices| >= 3 && indices[0] == 0 && indices[1] != 0 && indices[2] != 0 && |contributions| >= 1
    ensures TriangleSum(indices, contributions, 0, 1) == contributions[0]
  {
    var f := contributions[0];
    assert TriangleSum(indices, contributions, 0, 1) == DefaultVec3.Add(f).Add(DefaultVec3).Add(DefaultVec3);
  }

  /**
   * In a mesh whose first triangle is `0, 1, 2` and whose vertex 0 no other triangle names, the
   * intended sign of vertex 0 is the handedness of that triangle's frame against its normal.
   */
  lemma SingleTriangleSign(vs: seq<Vertex>, indices: seq<nat>, normalized: Vec3 -> Vec3,
                           reject: (Vec3, Vec3) -> Vec3)
    requires |vs| == 3 && |indices| == 3 && indices[0] == 0 && indices[1] == 1 && indices[2] == 2
    ensures Triangles(|vs|, indices)
    ensures var f := FrameAt(vs, indices, 0);
            IntendedTangents(vs, indices, normalized, reject)[0].tangent.w == TangentSign(f.0, f.1, vs[0].normal)
  {
    assert Triangles(|vs|, indices);
    var frames := Frames(vs, indices);
    var ts, bs := TangentParts(frames), BitangentParts(frames);
    assert frames[0] == FrameAt(vs, indices, 0);
    FirstCornerSum(indices, ts);
    FirstCornerSum(indices, bs);
  }

  /**
   * A triangle `0, 1, 2` whose frame is right-handed against the normal of its first vertex
   * (`(t × b) · n > 0`, as for positions `(0,0,0)`, `(1,0,0)`, `(0,1,0)` with texture
   * coordinates `(0,0)`, `(1,0)`, `(0,1)` and normal `+z`): the intended pass gives that vertex
   * sign `+1`, the pass as written `-1`.
   */
  lemma RightHandedTriangleDisagrees(vs: seq<Vertex>, indices: seq<nat>, normalized: Vec3 -> Vec3,
                                     reject: (Vec3, Vec3) -> Vec3)
    requires |vs| == 3 && |indices| == 3 && indices[0] == 0 && indices[1] == 1 && indices[2] == 2
    requires var p0, p1, p2 := vs[0], vs[1], vs[2];
             var f := TriangleFrame(p0.position, p1.position, p2.position, p0.texCoords, p1.texCoords, p2.texCoords);
             f.0.Cross(f.1).Dot(p0.normal) > 0.0
    ensures Triangles(|vs|, indices)
    ensures IntendedTangents(vs, indices, normalized, reject)[0].tangent.w == 1.0
    ensures Tangents(vs, indices, normalized, reject)[0].tangent.w == -1.0
  {
    SingleTriangleSign(vs, indices, normalized, reject);
    TangentSignIsAlwaysNegative(vs, indices, normalized, reject);
  }

  // ---------------------------------------------------------------- bounding box

  /** Component `axis` (0, 1, 2 for x, y, z) of a position. */
  function Coord(p: Vec3, axis: nat): real
    requires axis < 3
  {
    if axis == 0 then p.x else if axis == 1 then p.y else p.z
  }

  /** The running minimum along `axis`, starting from `FLT_MAX`. */
  function Lowest(vs: seq<Vertex>, axis: nat): (r: real)
    requires axis < 3
    ensures r <= FltMax
    ensures forall k | 0 <= k < |vs| :: r <= Coord(vs[k].position, axis)
  {
    if |vs| == 0 then FltMax
    else Min(Lowest(vs[..|vs| - 1], axis), Coord(vs[|vs| - 1].position, axis))
  }

  /** The running maximum along `axis`, starting from `-FLT_MAX`. */
  function Highest(vs: seq<Vertex>, axis: nat): (r: real)
    requires axis < 3
    ensures r >= -FltMax
    ensures forall k | 0 <= k < |vs| :: Coord(vs[k].position, axis) <= r
  {
    if |vs| == 0 then -FltMax
    else Max(Highest(vs[..|vs| - 1], axis), Coord(vs[|vs| - 1].position, axis))
  }

  function LowerCorner(vs: seq<Vertex>): Vec3 {
    Vec3(Lowest(vs, 0), Lowest(vs, 1), Lowest(vs, 2))
  }

  function UpperCorner(vs: seq<Vertex>): Vec3 {
    Vec3(Highest(vs, 0), Highest(vs, 1), Highest(vs, 2))
  }

  /** A position whose components are finite single-precision values. */
  predicate InFloatRange(p: Vec3) {
    -FltMax <= p.x <= FltMax && -FltMax <= p.y <= FltMax && -FltMax <= p.z <= FltMax
  }

  /** With finite positions, the lower bound along each axis is some vertex's coordinate. */
  lemma {:induction false} LowestIsAttained(vs: seq<Vertex>, axis: nat)
    requires axis < 3 && |vs| > 0
    requires forall k | 0 <= k < |vs| :: InFloatRange(vs[k].position)
    ensures exists k | 0 <= k < |vs| :: Lowest(vs, axis) == Coord(vs[k].position, axis)
  {
    var last := |vs| - 1;
    var prefix := vs[..last];
    if last == 0 {
      assert prefix == [] && InFloatRange(vs[0].position);
      assert Lowest(vs, axis) == Coord(vs[0].position, axis);
    } else if Lowest(vs, axis) != Coord(vs[last].position, axis) {
      LowestIsAttained(prefix, axis);
      var k :| 0 <= k < |prefix| && Lowest(prefix, axis) == Coord(prefix[k].position, axis);
      assert prefix[k] == vs[k];
    }
  }

  /** With finite positions, the upper bound along each axis is some vertex's coordinate. */
  lemma {:induction false} HighestIsAttained(vs: seq<Vertex>, axis: nat)
    requires axis < 3 && |vs| > 0
    requires forall k | 0 <= k < |vs| :: InFloatRange(vs[k].position)
    ensures exists k | 0 <= k < |vs| :: Highest(vs, axis) == Coord(vs[k].position, axis)
  {
    var last := |vs| - 1;
    var prefix := vs[..last];
    if last == 0 {
      assert prefix == [] && InFloatRange(vs[0].position);
      assert Highest(vs, axis) == Coord(vs[0].position, axis);
    } else if Highest(vs, axis) != Coord(vs[last].position, axis) {
      HighestIsAttained(prefix, axis);
      var k :| 0 <= k < |prefix| && Highest(prefix, axis) == Coord(prefix[k].position, axis);
      assert prefix[k] == vs[k];
    }
  }

  /** Every position lies in the box, and an empty buffer gives the inverted `FLT_MAX` box. */
  lemma BoxContainsEveryVertex(vs: seq<Vertex>)
    ensures forall k | 0 <= k < |vs| ::
              && LowerCorner(vs).x <= vs[k].position.x <= UpperCorner(vs).x
              && LowerCorner(vs).y <= vs[k].position.y <= UpperCorner(vs).y
              && LowerCorner(vs).z <= vs[k].position.z <= UpperCorner(vs).z
    ensures |vs| == 0 ==>
              LowerCorner(vs) == Vec3(FltMax, FltMax, FltMax) && UpperCorner(vs) == Vec3(-FltMax, -FltMax, -FltMax)
  {
    forall k | 0 <= k < |vs|
      ensures && LowerCorner(vs).x <= vs[k].position.x <= UpperCorner(vs).x
              && LowerCorner(vs).y <= vs[k].position.y <= UpperCorner(vs).y
              && LowerCorner(vs).z <= vs[k].position.z <= UpperCorner(vs).z
    {
      assert Lowest(vs, 0) <= Coord(vs[k].position, 0) && Highest(vs, 0) >= Coord(vs[k].position, 0);
      assert Lowest(vs, 1) <= Coord(vs[k].position, 1) && Highest(vs, 1) >= Coord(vs[k].position, 1);
      assert Lowest(vs, 2) <= Coord(vs[k].position, 2) && Highest(vs, 2) >= Coord(vs[k].position, 2);
    }
  }

  method CalculateBoundingBox(mesh: Mesh)
    modifies mesh
    ensures mesh.vertices == old(mesh.vertices) && mesh.indices == old(mesh.indices)
    ensures mesh.aabbMin == LowerCorner(mesh.vertices[..]) && mesh.aabbMax == UpperCorner(mesh.vertices[..])
  {
    ghost var vs := mesh.vertices[..];
    mesh.aabbMin := Vec3(FltMax, FltMax, FltMax);
    mesh.aabbMax := Vec3(-FltMax, -FltMax, -FltMax);
    for i := 0 to mesh.vertices.Length
      invariant mesh.vertices == old(mesh.vertices) && mesh.indices == old(mesh.indices)
      invariant mesh.aabbMin == LowerCorner(vs[..i]) && mesh.aabbMax == UpperCorner(vs[..i])
    {
      assert vs[..i + 1][..i] == vs[..i];
      var p := mesh.vertices[i].position;
      mesh.aabbMin := mesh.aabbMin.(x := Min(mesh.aabbMin.x, p.x));
      mesh.aabbMin := mesh.aabbMin.(y := Min(mesh.aabbMin.y, p.y));
      mesh.aabbMin := mesh.aabbMin.(z := Min(mesh.aabbMin.z, p.z));

      mesh.aabbMax := mesh.aabbMax.(x := Max(mesh.aabbMax.x, p.x));
      mesh.aabbMax := mesh.aabbMax.(y := Max(mesh.aabbMax.y, p.y));
      mesh.aabbMax := mesh.aabbMax.(z := Max(mesh.aabbMax.z, p.z));
    }
    assert vs[..mesh.vertices.Length] == vs;
  }

  // ---------------------------------------------------------------- basic texture coordinates

  /**
   * `CalculateBasicTexCoords` as a function: the texture coordinates become the position's z
   * and y placed within the box by `InverseLerp`; nothing else changes.
   */
  function BasicTexCoords(vs: seq<Vertex>, lo: Vec3, hi: Vec3, inverseLerp: (real, real, real) -> real): (r: seq<Vertex>)
    ensures |r| == |vs|
    ensures forall k | 0 <= k < |vs| :: r[k] == vs[k].(texCoords := r[k].texCoords)
  {
    seq(|vs|, k requires 0 <= k < |vs| =>
      vs[k].(texCoords := Vec2(inverseLerp(lo.z, hi.z, vs[k].position.z), inverseLerp(lo.y, hi.y, vs[k].position.y))))
  }

  /** The pass reads only what it does not write, so running it twice is running it once. */
  lemma BasicTexCoordsIsIdempotent(vs: seq<Vertex>, lo: Vec3, hi: Vec3, inverseLerp: (real, real, real) -> real)
    ensures BasicTexCoords(BasicTexCoords(vs, lo, hi, inverseLerp), lo, hi, inverseLerp)
            == BasicTexCoords(vs, lo, hi, inverseLerp)
  {
    var once := BasicTexCoords(vs, lo, hi, inverseLerp);
    var twice := BasicTexCoords(once, lo, hi, inverseLerp);
    forall k | 0 <= k < |vs|
      ensures twice[k] == once[k]
    {
      assert once[k].position == vs[k].position;
    }
  }

  /**
   * After `CalculateBoundingBox`, an `InverseLerp` that maps `[a, b]` into `[0, 1]` puts every
   * texture coordinate in the unit square, provided the box has some extent in y and z.
   */
  lemma BasicTexCoordsInUnitSquare(vs: seq<Vertex>, inverseLerp: (real, real, real) -> real)
    requires forall a, b, v | a <= v <= b && a < b :: 0.0 <= inverseLerp(a, b, v) <= 1.0
    requires LowerCorner(vs).y < UpperCorner(vs).y && LowerCorner(vs).z < UpperCorner(vs).z
    ensures forall k | 0 <= k < |vs| ::
              var uv := BasicTexCoords(vs, LowerCorner(vs), UpperCorner(vs), inverseLerp)[k].texCoords;
              0.0 <= uv.x <= 1.0 && 0.0 <= uv.y <= 1.0
  {
    BoxContainsEveryVertex(vs);
  }

  method CalculateBasicTexCoords(mesh: Mesh, inverseLerp: (real, real, real) -> real)
    modifies mesh.vertices
    ensures mesh.vertices[..] == BasicTexCoords(old(mesh.vertices[..]), mesh.aabbMin, mesh.aabbMax, inverseLerp)
  {
    ghost var vs := mesh.vertices[..];
    for i := 0 to mesh.vertices.Length
      invariant forall k | 0 <= k < mesh.vertices.Length ::
                  mesh.vertices[k] == if k < i then BasicTexCoords(vs, mesh.aabbMin, mesh.aabbMax, inverseLerp)[k] else vs[k]
    {
      var v := mesh.vertices[i];
      mesh.vertices[i] := v.(texCoords := v.texCoords.(x := inverseLerp(mesh.aabbMin.z, mesh.aabbMax.z, v.position.z)));
      v := mesh.vertices[i];
      mesh.vertices[i] := v.(texCoords := v.texCoords.(y := inverseLerp(mesh.aabbMin.y, mesh.aabbMax.y, v.position.y)));
    }
    assert mesh.vertices[..] == BasicTexCoords(vs, mesh.aabbMin, mesh.aabbMax, inverseLerp);
  }
}
