# scop mesh core, in Dafny

This project models the mesh side of the `scop` OBJ viewer. Four parts are modelled:

- **The Wavefront OBJ loader** (`obj_file.dfy`). A `Parser` cursor walks the file text. `LoadMeshFromObjFile` reads the `v`, `vt`, `vn` and `f` directives into four arrays. It then expands every face corner into a vertex of its own, with the identity index buffer.
  - Every cursor method is proved equal to a function of the text and the old offset.
  - The directive loop is proved to follow `ParseObj`, a function that folds the directives of the whole text.
- **The earlier loader revision** kept in the graphics source file (`legacy_obj_file.dfy`). It shares the cursor. It differs in `SkipWhitespaceAndComments`, `EqualsString`, `MatchString`, the face-index handling and how unknown input is skipped. The model proves the consequence: this revision never reads a face.
- **The mesh passes** (`weld.dfy`, `mesh_attributes.dfy`):
  - vertex welding;
  - flat and smooth normals;
  - tangents;
  - the bounding box;
  - box-projected texture coordinates.

  Each pass is an imperative method over `array<Vertex>`, proved equal to a specification function of the old buffer. Separate lemmas state what those functions guarantee.
- **The support library**:
  - `Result` and the growable `Array<T>` (`core.dfy`);
  - the vector, quaternion and matrix types and their component-wise operations (`math.dfy`);
  - the `Vertex` and `Mesh` records (`graphics.dfy`).

Floats are exact `real`s. The C library calls and the math helpers that are not part of this model are parameters of the operations that use them:

| Helper | Parameter |
|---|---|
| `strtof` | `strtof` |
| `Normalized` | `normalized` |
| `Reject` | `reject` |
| `InverseLerp` | `inverseLerp` |

The loader stores a face corner's 1-based indices minus one, and looks a normal or texture index up only when the stored value is positive. So the first `vn` and the first `vt` of a file are never attached to a vertex, because their stored index 0 also means "not given". `ObjFile.ResolveCorner` states this behaviour as written.

## Model

| member | source | states |
|---|---|---|
| `ScopMath.Abs` | Source/Scop_Math.h:4 | the result is non-negative and is `x` or `-x` |
| `ScopMath.DefaultVectorsAreZero` | Source/Scop_Math.h:6-25 | a default-constructed vector is neutral for `Add` and orthogonal to every vector |
| `ScopMath.DefaultQuatIsIdentity` | Source/Scop_Math.h:27-33 | the default quaternion (`w = 1`) is the identity of the Hamilton product, on both sides |
| `ScopMath.DefaultMatricesAreIdentity` | Source/Scop_Math.h:35-66 | the default 3x3 and 4x4 matrices map every vector to itself |
| `ScopMath.SubIsAddNeg` | Source/math.cpp:41-76 | for every vector type, `Sub(a, b)` is `Add(a, Neg(b))` |
| `ScopMath.NegIsInvolution` | Source/math.cpp:78-113 | negating twice gives back the vector, for every vector type |
| `ScopMath.MulByOneIsIdentity` | Source/math.cpp:115-150 | scaling by 1 changes nothing, for every vector type |
| `ScopMath.DivUndoesMulVec2` | Source/math.cpp:152-158 | dividing by a non-zero `k` undoes scaling by `k` |
| `ScopMath.DivUndoesMulVec3` | Source/math.cpp:160-167 | dividing by a non-zero `k` undoes scaling by `k` |
| `ScopMath.DivUndoesMulVec4` | Source/math.cpp:169-177 | dividing by a non-zero `k` undoes scaling by `k` |
| `ScopMath.DivUndoesMulQuat` | Source/math.cpp:179-187 | dividing by a non-zero `k` undoes scaling by `k` |
| `ScopMath.EqualsIsIdentity` | Source/math.cpp:189-207 | component-wise `Equals` holds exactly when the two values are equal, for every vector type |
| `ScopMath.EqualsIsEquivalence` | Source/math.cpp:189-207 | `Equals` is reflexive, symmetric and transitive, for every vector type and for quaternions |
| `ScopMath.ApproxEqualsZeroIsEquals` | Source/math.cpp:209-241 | `ApproxEquals` with tolerance 0 is `Equals`, for every vector type |
| `ScopMath.ApproxEqualsIsApproxZeroOfDifference` | Source/math.cpp:209-259 | `ApproxEquals(a, b, e)` holds iff `ApproxZero(a - b, e)` holds, and it is symmetric, for every vector type and for quaternions |
| `ScopMath.ApproxZeroBounds` | Source/math.cpp:243-275 | `ApproxZero` holds iff every component lies in `[-e, e]` |
| `ScopMath.DotIsSymmetric` | Source/math.cpp:277-295 | `Dot(a, b) == Dot(b, a)` for every vector type |
| `ScopMath.CrossIsAntiCommutative` | Source/math.cpp:297-304 | `Cross(a, b) == -Cross(b, a)` |
| `ScopMath.CrossIsOrthogonal` | Source/math.cpp:297-304 | the cross product is orthogonal to both operands |
| `ScopMath.CrossWithZero` | Source/math.cpp:297-304 | the cross product with the zero vector is zero, on both sides |
| `Core.Result.Good` | Source/Scop_Core.h:41-48 | the result carries the given value and status |
| `Core.Result.Bad` | Source/Scop_Core.h:50-56 | the result carries the given status and the value-initialised `T` |
| `Core.Array.constructor` | Source/Scop_Core.h:85-91 | a new array has no elements, count 0 and capacity 0 |
| `Core.Array.At` | Source/Scop_Core.h:92-104 | within `0 <= index < count` (the bounds assertion), the element at that position |
| `Core.Array.Set` | Source/Scop_Core.h:92-97 | writing through `operator[]` replaces exactly that element; count and capacity are unchanged |
| `Core.Array.Reserve` | Source/Scop_Core.h:107-118 | a large-enough array is left alone; otherwise capacity becomes the request; the elements are preserved |
| `Core.Array.Free` | Source/Scop_Core.h:120-127 | afterwards there are no elements, count 0 and capacity 0 |
| `Core.Array.PushDefault` | Source/Scop_Core.h:129-141 | appends `T{}`; a full array first grows to `2 * capacity + 8` |
| `Core.Array.Push` | Source/Scop_Core.h:143-150 | appends `item`, with the same growth rule |
| `Core.Array.Pop` | Source/Scop_Core.h:152-158 | on a non-empty array, drops the last element; capacity is unchanged |
| `Core.Array.Clear` | Source/Scop_Core.h:160-164 | removes every element and keeps the capacity |
| `Graphics.Mesh.constructor` | Source/Scop_Graphics.h:16-22 | a zero-initialised mesh: empty vertex and index buffers |
| `ObjFile.StrncmpEqualIsPrefix` | Source/obj_file.cpp:89-98 | `strncmp(a, b, n) == 0` for a C string `b` iff `a` starts with `b` and, when more than `|b|` characters are compared, a NUL follows |
| `ObjFile.Strtol` | Source/obj_file.cpp:75-87 | the conversion consumes at most the rest of the text, and converts to 0 when it consumes nothing |
| `ObjFile.StrtolRejects` | Source/obj_file.cpp:75-87 | text that cannot begin a number (no space, sign or digit first) converts nothing |
| `ObjFile.DecimalValueAppend` | Source/obj_file.cpp:75-87 | one more digit multiplies the value read so far by ten and adds the digit's value |
| `ObjFile.StrtolReads` | Source/obj_file.cpp:75-87 | on white space, an optional sign and a run of digits that the end or a non-digit closes, the value is the digits' decimal value, negated after `-`, and the length consumed runs to the last digit |
| `ObjFile.AdvanceToNextLineAt` | Source/obj_file.cpp:32-40 | the cursor moves past the next newline, or to the end; it crosses no other newline |
| `ObjFile.SkipWhitespaceAndCommentsAt` | Source/obj_file.cpp:42-59 | the cursor stops at the end or on a character that is neither white space nor `#` |
| `ObjFile.EqualsStringIsPrefix` | Source/obj_file.cpp:89-98 | `EqualsString` holds iff the text at the cursor starts with `s` |
| `ObjFile.KeywordsAreExclusive` | Source/obj_file.cpp:112-131 | `vt` or `vn` matching excludes `v` matching; `f` excludes `v`; `vt` and `vn` exclude each other |
| `ObjFile.ParseIntAt` | Source/obj_file.cpp:75-87 | on failure the value is 0 and the cursor does not move; otherwise the cursor stays in the text |
| `ObjFile.ParseFloatAt` | Source/obj_file.cpp:61-73 | on failure the value is 0 and the cursor does not move; otherwise the cursor stays in the text |
| `ObjFile.Parser.constructor` | Source/obj_file.cpp:11-15 | the cursor is at offset 0 of the given text |
| `ObjFile.Parser.Advance` | Source/obj_file.cpp:22-30 | the new offset is `AdvanceAt` of the old: `count` characters on, capped at the end |
| `ObjFile.Parser.AdvanceToNextLine` | Source/obj_file.cpp:32-40 | the new offset is `AdvanceToNextLineAt` of the old |
| `ObjFile.Parser.SkipWhitespaceAndComments` | Source/obj_file.cpp:42-59 | the new offset is `SkipWhitespaceAndCommentsAt` of the old |
| `ObjFile.Parser.ParseFloat` | Source/obj_file.cpp:61-73 | the result and new offset are `ParseFloatAt` of the old offset |
| `ObjFile.Parser.ParseInt` | Source/obj_file.cpp:75-87 | the result and new offset are `ParseIntAt` of the old offset |
| `ObjFile.Parser.MatchString` | Source/obj_file.cpp:100-110 | the result and new offset are `MatchStringAt` of the old offset |
| `ObjFile.Parser.MatchAlphaNumeric` | Source/obj_file.cpp:112-131 | the result and new offset are `MatchAlphaNumericAt` of the old offset |
| `ObjFile.CornersAt` | Source/obj_file.cpp:254-288 | a successful read yields exactly `n` corners and moves the cursor forward |
| `ObjFile.DirectiveAt` | Source/obj_file.cpp:172-293 | a successful turn of the directive loop always moves the cursor forward, so the loop ends |
| `ObjFile.ParseVec3Directive` | Source/obj_file.cpp:176-199 | the three floats and the new offset are `Vec3DirectiveAt`; `None` when a float fails |
| `ObjFile.ParseVec2Directive` | Source/obj_file.cpp:203-219 | the two floats and the new offset are `Vec2DirectiveAt`; `None` when a float fails |
| `ObjFile.ParseCorner` | Source/obj_file.cpp:256-262 | the corner and new offset are `CornerAt` |
| `ObjFile.ParseTexCoordsPart` | Source/obj_file.cpp:267-276 | the `/t` part and new offset are `TexCoordsPartAt` |
| `ObjFile.ParseNormalPart` | Source/obj_file.cpp:277-286 | the `/n` part and new offset are `NormalPartAt` |
| `ObjFile.TexCoordsPartReads` | Source/obj_file.cpp:267-276 | after a `/` and an integer `t`, the corner's texture index becomes `t - 1` and reading goes on with the optional `/n` |
| `ObjFile.NormalPartReads` | Source/obj_file.cpp:277-286 | after a `/` and an integer `n`, the corner's normal index becomes `n - 1` and the cursor is past `n` |
| `ObjFile.CornerPositionIsIndexMinusOne` | Source/obj_file.cpp:256-262 | every corner that parses began with an integer, and stores that integer minus one as its position |
| `ObjFile.CornerOfPositionOnly` | Source/obj_file.cpp:256-266 | a corner `p` with no `/` after it stores position `p - 1` and leaves the normal and texture indices at 0 |
| `ObjFile.CornerOfPositionAndTexCoords` | Source/obj_file.cpp:256-276 | a corner `p/t` stores `p - 1` and `t - 1`; the normal index stays 0 |
| `ObjFile.CornerOfAllThree` | Source/obj_file.cpp:256-286 | a corner `p/t/n` stores each of the three file indices minus one, and the cursor ends past `n` |
| `ObjFile.CornerWithoutTexCoordsFails` | Source/obj_file.cpp:267-273 | a corner `p//n` fails: no integer follows the first `/` |
| `ObjFile.FaceWithoutTexCoordsFailsLoad` | Source/obj_file.cpp:248-273 | an `f` line whose first corner is `p//n` fails its turn, and the whole load fails whatever was read before |
| `ObjFile.OtherLineIsSkipped` | Source/obj_file.cpp:290-293 | a line that starts with anything but `v` or `f` is skipped up to the next newline, collecting nothing |
| `ObjFile.FourthCornerIsSkipped` | Source/obj_file.cpp:248-293 | after a face, a fourth corner left on the line is taken for an unknown directive: the next turn skips to the next newline and the load goes on from there with only the face added |
| `ObjFile.ParseFaceCorners` | Source/obj_file.cpp:250-288 | the three corners and new offset are `CornersAt(…, 3)` |
| `ObjFile.ReadDirective` | Source/obj_file.cpp:172-293 | one turn of the loop reads what `DirectiveAt` says, and leaves the cursor where it says |
| `ObjFile.ResolveCorner` | Source/obj_file.cpp:326-339 | the position is looked up; the normal and texture coordinates are looked up only for a positive index; otherwise the slot keeps what it held |
| `ObjFile.BuildVertexBuffers` | Source/obj_file.cpp:296-341 | `3 * faces` vertices and indices; index `k` is `k`; vertex `3f + j` is corner `j` of face `f` resolved |
| `ObjFile.LoadMeshFromObjFile` | Source/obj_file.cpp:145-348 | succeeds iff the whole text parses; on failure the mesh is untouched; on success the buffers are the expansion of the parsed faces, with identity indices |
| `LegacyObjFile.LineEndAt` | Source/Scop_Graphics.cpp:47-50 | the inner comment loop stops on the next newline or at the end, crossing no newline |
| `LegacyObjFile.AdvanceToNextLineIsPastLineEnd` | Source/obj_file.cpp:32-40 | the later `AdvanceToNextLine` lands one past where this revision's comment loop stops |
| `LegacyObjFile.SkipMatchesRevision` | Source/Scop_Graphics.cpp:37-57 | this revision's skipper ends where the later one's does |
| `LegacyObjFile.EqualsStringIsInverted` | Source/Scop_Graphics.cpp:87-96 | `EqualsString` holds iff enough characters remain and the text does NOT continue with `s` then the end or a NUL |
| `LegacyObjFile.MatchStringAt` | Source/Scop_Graphics.cpp:98-106 | never reports a match |
| `LegacyObjFile.MatchAlphaNumericAt` | Source/Scop_Graphics.cpp:108-127 | a match moves the cursor by exactly `|s|`; a miss leaves it |
| `LegacyObjFile.OtherWordMatchesV` | Source/Scop_Graphics.cpp:108-127 | any one-character word other than `v` matches the keyword `v` |
| `LegacyObjFile.SkipWhitespaceAndComments` | Source/Scop_Graphics.cpp:37-57 | the new offset is this revision's `SkipWhitespaceAndCommentsAt` |
| `LegacyObjFile.MatchString` | Source/Scop_Graphics.cpp:98-106 | the result and new offset are this revision's `MatchStringAt` |
| `LegacyObjFile.MatchAlphaNumeric` | Source/Scop_Graphics.cpp:108-127 | the result and new offset are this revision's `MatchAlphaNumericAt` |
| `LegacyObjFile.CornerAt` | Source/Scop_Graphics.cpp:233-258 | a corner never carries a texture or normal index |
| `LegacyObjFile.CornerIndexIsNotDecremented` | Source/Scop_Graphics.cpp:237 | where both revisions read a corner, this one's position index is one more than the later one's |
| `LegacyObjFile.FaceLineReadAsPosition` | Source/Scop_Graphics.cpp:167-187 | the line `f 1 2 3` is taken for a `v` directive |
| `LegacyObjFile.NeverReadsFace` | Source/Scop_Graphics.cpp:225-260 | no turn of the loop yields a face |
| `LegacyObjFile.DirectiveAt` | Source/Scop_Graphics.cpp:163-265 | a successful turn of this revision's loop always moves the cursor forward, so the loop ends |
| `LegacyObjFile.LongWordMatchesNoKeyword` | Source/Scop_Graphics.cpp:108-127 | at a word of three or more letters or digits, none of `v`, `vt`, `vn` and `f` matches |
| `LegacyObjFile.LongWordSkipsOneCharacter` | Source/Scop_Graphics.cpp:261-264 | such a word (`usemtl`, `mtllib`) is skipped one character at a time: the turn moves the cursor by one and collects nothing |
| `LegacyObjFile.LoadFromAddsNoFace` | Source/Scop_Graphics.cpp:163-265 | the directive loop leaves the collected faces as they were |
| `LegacyObjFile.ParseObjHasNoFaces` | Source/Scop_Graphics.cpp:163-265 | a successful parse of any text has no faces |
| `LegacyObjFile.ResolveCorner` | Source/Scop_Graphics.cpp:287-293 | the normal and texture coordinates are looked up for any non-negative index |
| `LegacyObjFile.BuildVertexBuffers` | Source/Scop_Graphics.cpp:267-295 | the same expansion as the later loader, with this revision's lookup rule |
| `LegacyObjFile.ParseCorner` | Source/Scop_Graphics.cpp:233-258 | the corner and new offset are this revision's `CornerAt` |
| `LegacyObjFile.ParseVec3Directive` | Source/Scop_Graphics.cpp:167-187 | the three floats and the new offset are `Vec3DirectiveAt`, with this revision's white-space skipper; `None` when a float fails |
| `LegacyObjFile.ParseVec2Directive` | Source/Scop_Graphics.cpp:188-203 | the two floats and the new offset are `Vec2DirectiveAt`, with this revision's white-space skipper; `None` when a float fails |
| `LegacyObjFile.ParseFaceCorners` | Source/Scop_Graphics.cpp:227-259 | the three corners and new offset are this revision's `CornersAt(…, 3)` |
| `LegacyObjFile.ReadDirective` | Source/Scop_Graphics.cpp:165-264 | one turn of this revision's loop reads what its `DirectiveAt` says |
| `LegacyObjFile.LoadMeshFromObjFile` | Source/Scop_Graphics.cpp:141-298 | succeeds iff the text parses; on success both buffers are empty |
| `Weld.SameAttributesIsEquality` | Source/mesh.cpp:23-25 | the weld comparison is equality of position, normal and texture coordinates |
| `Weld.First` | Source/mesh.cpp:15-31 | the earliest vertex with the same attributes: no earlier vertex matches |
| `Weld.FirstIsShared` | Source/mesh.cpp:15-31 | two vertices with the same attributes have the same representative |
| `Weld.SurvivorsAreDistinct` | Source/mesh.cpp:46-60 | no two kept vertices have the same attributes |
| `Weld.RankedSurvivorMatches` | Source/mesh.cpp:58 | every vertex's new index names a kept vertex with its attributes |
| `Weld.SurvivorsAndDuplicates` | Source/mesh.cpp:14-28 | kept plus merged vertices make up all of them (the running `unique_vertex_count`) |
| `Weld.SurvivorsCountTriples` | Source/mesh.cpp:14-31 | the number of kept vertices (the final `unique_vertex_count`) is the number of distinct position, normal and texture-coordinate triples |
| `Weld.NoDuplicatesSurvive` | Source/mesh.cpp:5-65 | a buffer without duplicates is kept as it is, with the identity indices |
| `Weld.BuildRemapTable` | Source/mesh.cpp:11-31 | every remap entry is the vertex's representative; the counter is the number of kept vertices |
| `Weld.CompactSurvivors` | Source/mesh.cpp:46-62 | the unique buffer is the kept vertices in order; every index is the vertex's rank |
| `Weld.WeldMesh` | Source/mesh.cpp:5-65 | both buffers are newly allocated; the unique buffer is the distinct vertices in first-seen order; every index names a vertex with the original's attributes |
| `MeshAttributes.FaceCrossIsOrthogonal` | Source/mesh.cpp:76-78 | the face normal is orthogonal to both edges it is built from |
| `MeshAttributes.FlatNormalsShareTriangleNormal` | Source/mesh.cpp:82-84 | the three corners of a triangle get the same normal, the normalised face normal |
| `MeshAttributes.FlatNormalsKeepOtherFields` | Source/mesh.cpp:67-85 | the flat pass writes only normals |
| `MeshAttributes.CalculateNormalsFlat` | Source/mesh.cpp:67-85 | the buffer becomes `FlatNormals` of the old buffer |
| `MeshAttributes.TriangleSumOfSilentVertex` | Source/mesh.cpp:89-106 | a vertex no triangle gives a non-zero normal accumulates zero |
| `MeshAttributes.UnreferencedVertexKeepsNormal` | Source/mesh.cpp:87-110 | a vertex no index names comes out with its own normal, normalised |
| `MeshAttributes.SmoothIsFlatWithoutSharing` | Source/mesh.cpp:67-110 | on an unindexed triangle list with zero normals, smooth normals equal flat normals (for an idempotent normalisation) |
| `MeshAttributes.CalculateNormalsSmooth` | Source/mesh.cpp:87-110 | the buffer becomes `SmoothNormals` of the old buffer: face normals summed per vertex onto the old normal, then normalised |
| `MeshAttributes.NormalizeNormals` | Source/mesh.cpp:108-109 | every normal is replaced by its normalisation; nothing else changes |
| `MeshAttributes.EdgeFrameCases` | Source/mesh.cpp:143-149 | a zero texture-space determinant gives no contribution; otherwise the frame is the solved tangent and bitangent |
| `MeshAttributes.TangentSign` | Source/mesh.cpp:166 | the sign is 1 iff `Dot(Cross(t, b), n) > 0`, and -1 otherwise |
| `MeshAttributes.Tangents` | Source/mesh.cpp:112-170 | the tangent pass writes only tangents |
| `MeshAttributes.TangentSignIsAlwaysNegative` | Source/mesh.cpp:154-166 | as written, every tangent gets handedness -1 |
| `MeshAttributes.SkippedTrianglesContributeNothing` | Source/mesh.cpp:143-145 | a vertex whose triangles all have a degenerate texture mapping gets the rejected zero vector and sign -1 |
| `MeshAttributes.CalculateTangents` | Source/mesh.cpp:112-170 | the buffer becomes `Tangents` of the old buffer |
| `MeshAttributes.AccumulateFrames` | Source/mesh.cpp:121-157 | the scratch buffer holds the per-vertex sums the accumulation loop builds |
| `MeshAttributes.WriteTangents` | Source/mesh.cpp:159-169 | every vertex gets the tangent built from its two scratch sums and its normal |
| `MeshAttributes.IntendedTangents` | Source/mesh.cpp:151-156 | the corrected pass, with bitangents accumulated apart, writes only tangents |
| `MeshAttributes.SingleTriangleSign` | Source/mesh.cpp:159-169 | for a single triangle, the corrected sign is the handedness of that triangle's frame |
| `MeshAttributes.RightHandedTriangleDisagrees` | Source/mesh.cpp:151-166 | for a right-handed triangle, the corrected pass gives sign 1 where the written pass gives -1 |
| `MeshAttributes.Lowest` | Source/mesh.cpp:174-180 | the lower bound along an axis is at most every vertex's coordinate and at most `FLT_MAX` |
| `MeshAttributes.Highest` | Source/mesh.cpp:175-184 | the upper bound along an axis is at least every vertex's coordinate and at least `-FLT_MAX` |
| `MeshAttributes.LowestIsAttained` | Source/mesh.cpp:174-180 | with finite positions and a non-empty mesh, the lower bound is some vertex's coordinate |
| `MeshAttributes.HighestIsAttained` | Source/mesh.cpp:175-184 | with finite positions and a non-empty mesh, the upper bound is some vertex's coordinate |
| `MeshAttributes.BoxContainsEveryVertex` | Source/mesh.cpp:172-186 | every position lies in the box; an empty mesh gets the inverted `FLT_MAX` box |
| `MeshAttributes.CalculateBoundingBox` | Source/mesh.cpp:172-186 | the box becomes the lower and upper corners of the positions; the buffers are unchanged |
| `MeshAttributes.BasicTexCoords` | Source/mesh.cpp:188-195 | the projection writes only texture coordinates |
| `MeshAttributes.BasicTexCoordsIsIdempotent` | Source/mesh.cpp:188-195 | projecting twice gives the same result as once |
| `MeshAttributes.BasicTexCoordsInUnitSquare` | Source/mesh.cpp:188-195 | with the mesh's own non-flat box, every coordinate lies in the unit square |
| `MeshAttributes.CalculateBasicTexCoords` | Source/mesh.cpp:188-195 | the buffer becomes `BasicTexCoords` of the old buffer over the mesh's box |

## Left out

- Reading the file, logging and uploading the mesh to the GPU (`ReadEntireFile`, `LogError`, `LogMessage`, `GfxCreateMeshObjects`) are left out. The loader takes the file's text as a parameter.
- The OpenGL and Vulkan back ends and `main.cpp` are not part of this model.
- The header that declares the mesh shape the passes use (a vertex with a tangent, a mesh with a bounding box) is not part of this model. `Graphics.Vertex` and `Graphics.Mesh` take that shape from `mesh.cpp`.
- `strtof` is a parameter returning the value and the length consumed. `Strtol` is modelled for base 10 without overflow: `long` saturation and the `(int)` truncation of the result are not modelled.
- `Normalized`, `Reject`, `InverseLerp`, `Min` and `Max` on floats are not part of this model. The first three are parameters; `Min` and `Max` are the exact ones. `Abs` is only declared in the header (Source/Scop_Math.h:4), with no definition among the modelled files; `ScopMath.Abs` gives it its usual meaning.
- The header's operator aliases (`+`, `-`, `*`, `/` and `==` at Source/Scop_Math.h:110-138) have no counterpart of their own: the model calls the member functions they forward to (`Add`, `Sub`, `Neg`, `Mul`, `Div`, `Equals`).
- Floating-point rounding, infinities and NaN are not modelled: components are exact reals.
- `Div` on reals requires a non-zero divisor, where float division would give an infinity.
- `malloc` and `realloc` failures are not modelled: allocation always succeeds. So the early `return false` or `return {}` after a failed allocation in the loader, `WeldMesh` and `CalculateTangents` is absent.
- `defer` and `free` of temporaries are not modelled. The scratch buffer of `CalculateTangents` is a fresh array that is dropped at the end.
- `Assert` calls become preconditions (`Array` bounds, `Pop` on a non-empty array, whole triangles in `CalculateNormalsFlat`). The assertion at the end of `WeldMesh` is proved instead.
- Integer widths (`s64`, `u32`, `int`) are unbounded integers.
- The loader's arrays are modelled as sequences in `ObjData` rather than `Core.Array` objects. Each push is the append that `Core.Array.Push` is proved to perform.
- The loader pushes a face before reading its corners. The model pushes it only once all three corners are read. Since a failed corner makes the whole load return `false`, the difference is invisible.
- Vertex fields that a fresh `malloc` leaves uninitialised are whatever the fresh array holds, which the model leaves unspecified. This applies to a normal or texture coordinate with no positive index, and to the tangent.
- `ObjFile.LoadMeshFromObjFile`: requires every stored index to fall inside its array, because the source reads out of bounds otherwise. `LegacyObjFile.LoadMeshFromObjFile` has the same requirement.
- `WeldMeshResult` is two out-parameters (`unique`, `indices`) rather than a struct.
- `CalculateNormalsSmooth` and `CalculateTangents` require `Triangles`: whole triangles, and indices that name vertices. The source relies on this without checking it.
- `Weld.WeldMesh`, `MeshAttributes.CalculateNormalsSmooth` and `MeshAttributes.CalculateTangents` are split into helper methods, one per loop of the source (`BuildRemapTable`, `CompactSurvivors`, `NormalizeNormals`, `AccumulateFrames`, `WriteTangents`).

## Findings

| source | as written | input that shows it | evidently intended | confidence | as-written member | corrected member |
|---|---|---|---|---|---|---|
| Source/Scop_Graphics.cpp:87-106 | `EqualsString` returns `res != 0`, true when the text differs, and `MatchString` always returns `false`. Any one-character word other than `v` matches the keyword `v`, and `f` lines are read as positions. | the line `f 1 2 3` | `EqualsString` reports equality, as in the later loader, so keywords match only themselves and faces are read | not executed | `LegacyObjFile.ParseObjHasNoFaces` (and `LegacyObjFile.FaceLineReadAsPosition`) | `ObjFile.KeywordsAreExclusive` (with `ObjFile.EqualsStringIsPrefix`) |
| Source/mesh.cpp:154-156 | the bitangent `b` is added to `temp_tangents`, so `temp_bitangents` stays zero and every handedness sign is -1 | one triangle with positions (0,0,0), (1,0,0), (0,1,0), texture coordinates (0,0), (1,0), (0,1) and normal +z | `b` is added to `temp_bitangents`, so the sign is the triangle's handedness | not executed | `MeshAttributes.TangentSignIsAlwaysNegative` | `MeshAttributes.RightHandedTriangleDisagrees` (with `MeshAttributes.SingleTriangleSign`) |
