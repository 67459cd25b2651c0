/**
 * The earlier revision of the OBJ loader, kept in the graphics source file. It shares the cursor
 * (`Parser`, `Advance`, `ParseInt`, `ParseFloat`) with the later loader and has the same
 * directive loop, but four helpers behave differently:
 *  - the comment skipper stops in front of the newline (same result, `SkipMatchesRevision`);
 *  - `EqualsString` reports a difference rather than a match (`EqualsStringIsInverted`);
 *  - `MatchString` never reports a match;
 *  - face indices are stored as read, and unknown input is skipped one character at a time.
 * The consequence proved here is that no face directive is ever read (`ParseObjHasNoFaces`).
 */
module LegacyObjFile {
  import opened Core
  import opened ScopMath
  import opened Graphics
  import ObjFile

  type Parser = ObjFile.Parser
  type Option<T> = ObjFile.Option<T>
  type Scanned<T> = ObjFile.Scanned<T>
  type Conversion<T> = ObjFile.Conversion<T>
  type ObjIndex = ObjFile.ObjIndex
  type ObjData = ObjFile.ObjData
  type Directive = ObjFile.Directive

  // ---------------------------------------------------------------------------
  // The helpers that differ, as functions of the text and the offset

  /** Where the inner comment loop stops: on the next newline, or at the end. */
  function LineEndAt(text: string, offset: int): (r: int)
    requires 0 <= offset <= |text|
    ensures offset <= r <= |text|
    ensures forall k | offset <= k < r :: text[k] != '\n'
    ensures r < |text| ==> text[r] == '\n'
    ensures offset < |text| && text[offset] != '\n' ==> offset < r
    decreases |text| - offset
  {
    if ObjFile.IsAtEnd(text, offset) || text[offset] == '\n' then offset else LineEndAt(text, offset + 1)
  }

  /**
   * What this revision's `SkipWhitespaceAndComments` does: white space one character at a time;
   * a `#` comment up to, not past, its newline, which the next turn skips as white space.
   */
  function SkipWhitespaceAndCommentsAt(text: string, offset: int): (r: int)
    requires 0 <= offset <= |text|
    ensures offset <= r <= |text|
    decreases |text| - offset
  {
    if ObjFile.IsAtEnd(text, offset) then offset
    else if ObjFile.IsSpace(text[offset]) then SkipWhitespaceAndCommentsAt(text, offset + 1)
    else if text[offset] == '#' then SkipWhitespaceAndCommentsAt(text, LineEndAt(text, offset))
    else offset
  }

  /** Advancing to the next line is stopping at the newline and stepping over it. */
  lemma {:induction false} AdvanceToNextLineIsPastLineEnd(text: string, offset: int)
    requires 0 <= offset <= |text|
    ensures ObjFile.AdvanceToNextLineAt(text, offset)
            == if LineEndAt(text, offset) < |text| then LineEndAt(text, offset) + 1 else |text|
    decreases |text| - offset
  {
    if offset < |text| && text[offset] != '\n' {
      AdvanceToNextLineIsPastLineEnd(text, offset + 1);
    }
  }

  /** The two revisions' white-space skippers stop at the same place. */
  lemma {:induction false} SkipMatchesRevision(text: string, offset: int)
    requires 0 <= offset <= |text|
    ensures SkipWhitespaceAndCommentsAt(text, offset) == ObjFile.SkipWhitespaceAndCommentsAt(text, offset)
    decreases |text| - offset
  {
    if offset < |text| {
      if ObjFile.IsSpace(text[offset]) {
        SkipMatchesRevision(text, offset + 1);
      } else if text[offset] == '#' {
        var e := LineEndAt(text, offset);
        AdvanceToNextLineIsPastLineEnd(text, offset);
        if e < |text| {
          assert ObjFile.IsSpace(text[e]);
          SkipMatchesRevision(text, e + 1);
        }
      }
    }
  }

  /**
   * This revision's `EqualsString`: refused when fewer than `|s|` characters remain, otherwise
   * the negation of `strncmp` over all the remaining characters.
   */
  predicate EqualsString(text: string, offset: int, s: string)
    requires 0 <= offset <= |text|
  {
    if |text| - offset < |s| then false else !ObjFile.StrncmpEqual(text[offset..], s, |text| - offset)
  }

  /**
   * For a C string `s`, `EqualsString` holds when `|s|` characters remain and the text does NOT
   * continue with `s` followed by the end of the text or a NUL.
   */
  lemma EqualsStringIsInverted(text: string, offset: int, s: string)
    requires 0 <= offset <= |text| && '\0' !in s
    ensures EqualsString(text, offset, s) <==>
              && offset + |s| <= |text|
              && !(text[offset..offset + |s|] == s && (offset + |s| == |text| || text[offset + |s|] == '\0'))
  {
    if offset + |s| <= |text| {
      ObjFile.StrncmpEqualIsPrefix(text[offset..], s, |text| - offset);
      assert text[offset..][..|s|] == text[offset..offset + |s|];
      if offset + |s| < |text| {
        assert text[offset..][|s|] == text[offset + |s|];
      }
    }
  }

  /** What this revision's `MatchString` does: moves past `s` when `EqualsString` holds, and never reports a match. */
  function MatchStringAt(text: string, offset: int, s: string): (r: Scanned<bool>)
    requires 0 <= offset <= |text|
    ensures !r.value
    ensures offset <= r.offset <= |text|
  {
    ObjFile.Scanned(false, if EqualsString(text, offset, s) then ObjFile.AdvanceAt(text, offset, |s|) else offset)
  }

  /**
   * What this revision's `MatchAlphaNumeric` does: `EqualsString`, then the end of the text or a
   * non-alphanumeric character after `|s|` characters. A match moves the cursor by exactly `|s|`,
   * whatever those characters are.
   */
  function MatchAlphaNumericAt(text: string, offset: int, s: string): (r: Scanned<bool>)
    requires 0 <= offset <= |text|
    ensures r.value ==> r.offset == offset + |s| <= |text|
    ensures !r.value ==> r.offset == offset
  {
    if !EqualsString(text, offset, s) then ObjFile.Scanned(false, offset)
    else if offset + |s| >= |text| then ObjFile.Scanned(true, ObjFile.AdvanceAt(text, offset, |s|))
    else if !ObjFile.IsAlnum(text[offset + |s|]) then ObjFile.Scanned(true, offset + |s|)
    else ObjFile.Scanned(false, offset)
  }

  /**
   * The keyword `v` matches any other one-character word: a character other than `v` followed by
   * one that is not alphanumeric.
   */
  lemma OtherWordMatchesV(text: string, offset: int)
    requires 0 <= offset && offset + 1 < |text|
    requires text[offset] != 'v' && !ObjFile.IsAlnum(text[offset + 1])
    ensures MatchAlphaNumericAt(text, offset, "v") == ObjFile.Scanned(true, offset + 1)
  {
    EqualsStringIsInverted(text, offset, "v");
    assert text[offset..offset + 1][0] == text[offset];
  }

  // ---------------------------------------------------------------------------
  // The helpers that differ, as methods on the shared cursor

  /** `SkipWhitespaceAndComments` of this revision. */
  method SkipWhitespaceAndComments(parser: Parser)
    requires parser.Valid()
    modifies parser
    ensures parser.Valid() && parser.offset == SkipWhitespaceAndCommentsAt(parser.text, old(parser.offset))
  {
    while !ObjFile.IsAtEnd(parser.text, parser.offset)
      invariant parser.Valid()
      invariant SkipWhitespaceAndCommentsAt(parser.text, parser.offset)
                == SkipWhitespaceAndCommentsAt(parser.text, old(parser.offset))
      decreases |parser.text| - parser.offset
    {
      if ObjFile.IsSpace(parser.text[parser.offset]) {
        parser.Advance(1);
      } else if parser.text[parser.offset] == '#' {
        ghost var start := parser.offset;
        while !ObjFile.IsAtEnd(parser.text, parser.offset) && parser.text[parser.offset] != '\n'
          invariant parser.Valid() && start <= parser.offset
          invariant LineEndAt(parser.text, parser.offset) == LineEndAt(parser.text, start)
          decreases |parser.text| - parser.offset
        {
          parser.Advance(1);
        }
      } else {
        break;
      }
    }
  }

  /** `MatchString` of this revision: always false. */
  method MatchString(parser: Parser, s: string) returns (matched: bool)
    requires parser.Valid()
    modifies parser
    ensures parser.Valid() && ObjFile.Scanned(matched, parser.offset) == MatchStringAt(parser.text, old(parser.offset), s)
  {
    if EqualsString(parser.text, parser.offset, s) {
      parser.Advance(|s|);
    }
    return false;
  }

  /** `MatchAlphaNumeric` of this revision. */
  method MatchAlphaNumeric(parser: Parser, s: string) returns (matched: bool)
    requires parser.Valid()
    modifies parser
    ensures parser.Valid() && ObjFile.Scanned(matched, parser.offset) == MatchAlphaNumericAt(parser.text, old(parser.offset), s)
  {
    if !EqualsString(parser.text, parser.offset, s) {
      return false;
    }
    if parser.offset + |s| >= |parser.text| {
      parser.Advance(|s|);
      return true;
    }
    if !ObjFile.IsAlnum(parser.text[parser.offset + |s|]) {
      parser.Advance(|s|);
      return true;
    }
    return false;
  }

  // ---------------------------------------------------------------------------
  // The directives

  /**
   * One face corner: an integer stored as read, then a `MatchString("/")` that may step over
   * one character and never leads to a texture or normal index.
   */
  function CornerAt(text: string, offset: int): (r: Option<Scanned<ObjIndex>>)
    requires 0 <= offset <= |text|
    ensures r.Some? ==> offset < r.value.offset <= |text|
    ensures r.Some? ==> r.value.value.normal == 0 && r.value.value.texCoords == 0
  {
    var p := ObjFile.ParseIntAt(text, offset);
    if !p.value.status then ObjFile.None
    else ObjFile.Some(ObjFile.Scanned(ObjFile.ObjIndex(p.value.value, 0, 0), MatchStringAt(text, p.offset, "/").offset))
  }

  /** Where both revisions read a corner, this one's position index is one more than the later one's. */
  lemma CornerIndexIsNotDecremented(text: string, offset: int)
    requires 0 <= offset <= |text|
    ensures CornerAt(text, offset).Some? ==> ObjFile.ParseIntAt(text, offset).value.status
    ensures CornerAt(text, offset).Some? && ObjFile.CornerAt(text, offset).Some? ==>
              CornerAt(text, offset).value.value.position == ObjFile.CornerAt(text, offset).value.value.position + 1
  {
    var p := ObjFile.ParseIntAt(text, offset);
    if p.value.status {
      var m := ObjFile.CornerAt(text, offset);
      if m.Some? {
        var c := ObjFile.ObjIndex(p.value.value - 1, 0, 0);
        assert m == ObjFile.TexCoordsPartAt(text, p.offset, c);
        var slash := ObjFile.MatchStringAt(text, p.offset, "/");
        if slash.value {
          var t := ObjFile.ParseIntAt(text, slash.offset);
          assert m == ObjFile.NormalPartAt(text, t.offset, c.(texCoords := t.value.value - 1));
        }
      }
    }
  }

  /** The first `n` corners from `offset`, read one after the other. */
  function CornersAt(text: string, offset: int, n: nat): (r: Option<Scanned<seq<ObjIndex>>>)
    requires 0 <= offset <= |text|
    ensures r.Some? ==> |r.value.value| == n && offset <= r.value.offset <= |text|
    ensures r.Some? && n > 0 ==> offset < r.value.offset
    decreases n
  {
    if n == 0 then ObjFile.Some(ObjFile.Scanned([], offset))
    else match CornerAt(text, offset)
      case None => ObjFile.None
      case Some(c) => ObjFile.Prepend([c.value], CornersAt(text, c.offset, n - 1))
  }

  /** `f`: white space, then three corners. */
  function FaceDirectiveAt(text: string, offset: int): (r: Option<Scanned<ObjFile.ObjTriangleFace>>)
    requires 0 <= offset <= |text|
    ensures r.Some? ==> offset < r.value.offset <= |text|
  {
    match CornersAt(text, SkipWhitespaceAndCommentsAt(text, offset), 3)
    case None => ObjFile.None
    case Some(corners) => ObjFile.Some(ObjFile.Scanned(ObjFile.ObjTriangleFace(corners.value), corners.offset))
  }

  /**
   * One turn of this revision's directive loop, from a cursor that is not at the end. The `v`,
   * `vt` and `vn` bodies read floats exactly as the later revision does; anything unrecognised
   * is skipped by one character.
   */
  function DirectiveAt(text: string, strtof: string -> Conversion<real>, offset: int): (r: Option<Scanned<Directive>>)
    requires 0 <= offset < |text|
    ensures r.Some? ==> offset < r.value.offset <= |text|
  {
    var s := SkipWhitespaceAndCommentsAt(text, offset);
    var v := MatchAlphaNumericAt(text, s, "v");
    if v.value then
      match ObjFile.Vec3DirectiveAt(text, v.offset, strtof)
      case None => ObjFile.None
      case Some(p) => ObjFile.Some(ObjFile.Scanned(ObjFile.Position(p.value), p.offset))
    else
    var vt := MatchAlphaNumericAt(text, s, "vt");
    if vt.value then
      match ObjFile.Vec2DirectiveAt(text, vt.offset, strtof)
      case None => ObjFile.None
      case Some(t) => ObjFile.Some(ObjFile.Scanned(ObjFile.TexCoords(t.value), t.offset))
    else
    var vn := MatchAlphaNumericAt(text, s, "vn");
    if vn.value then
      match ObjFile.Vec3DirectiveAt(text, vn.offset, strtof)
      case None => ObjFile.None
      case Some(n) => ObjFile.Some(ObjFile.Scanned(ObjFile.Normal(n.value), n.offset))
    else
    var f := MatchAlphaNumericAt(text, s, "f");
    if f.value then
      match FaceDirectiveAt(text, f.offset)
      case None => ObjFile.None
      case Some(face) => ObjFile.Some(ObjFile.Scanned(ObjFile.Face(face.value), face.offset))
    else
    ObjFile.Some(ObjFile.Scanned(ObjFile.Skipped, ObjFile.AdvanceAt(text, s, 1)))
  }

  /** A face line such as `f 1 2 3` is read as a position directive. */
  lemma FaceLineReadAsPosition(strtof: string -> Conversion<real>)
    ensures DirectiveAt("f 1 2 3\n", strtof, 0).Some? ==> DirectiveAt("f 1 2 3\n", strtof, 0).value.value.Position?
  {
    var text := "f 1 2 3\n";
    assert SkipWhitespaceAndCommentsAt(text, 0) == 0;
    OtherWordMatchesV(text, 0);
  }

  /**
   * No turn of the loop reads a face: `f` can only get past `v`, `vt` and `vn` on a `v` that ends
   * the text or precedes a NUL, and no corner integer starts there.
   */
  lemma NeverReadsFace(text: string, strtof: string -> Conversion<real>, offset: int)
    requires 0 <= offset < |text|
    ensures DirectiveAt(text, strtof, offset).Some? ==> !DirectiveAt(text, strtof, offset).value.value.Face?
  {
    var s := SkipWhitespaceAndCommentsAt(text, offset);
    if !MatchAlphaNumericAt(text, s, "v").value && MatchAlphaNumericAt(text, s, "f").value {
      EqualsStringIsInverted(text, s, "v");
      EqualsStringIsInverted(text, s, "f");
      assert text[s..s + 1][0] == text[s];
      assert text[s] == 'v' && (s + 1 == |text| || text[s + 1] == '\0');
      var start := SkipWhitespaceAndCommentsAt(text, s + 1);
      assert start == s + 1;
      if s + 1 < |text| {
        ObjFile.StrtolRejects(text[s + 1..]);
      }
      assert CornerAt(text, start).None?;
    }
  }

  /**
   * A word of three or more letters or digits (`usemtl`, `mtllib`) matches no
   * keyword: the turn skips its first character only, and the loop goes on one character later
   * with nothing collected.
   */
  lemma LongWordSkipsOneCharacter(text: string, strtof: string -> Conversion<real>, offset: int, data: ObjData)
    requires 0 <= offset < |text|
    requires var s := SkipWhitespaceAndCommentsAt(text, offset);
             s + 2 < |text| && ObjFile.IsAlnum(text[s + 1]) && ObjFile.IsAlnum(text[s + 2])
    ensures var s := SkipWhitespaceAndCommentsAt(text, offset);
            && DirectiveAt(text, strtof, offset) == ObjFile.Some(ObjFile.Scanned(ObjFile.Skipped, s + 1))
            && LoadFrom(text, strtof, offset, data) == LoadFrom(text, strtof, s + 1, data)
  {
    LongWordDirectiveIsSkipped(text, strtof, offset);
    LoadFromSkips(text, strtof, offset, data, SkipWhitespaceAndCommentsAt(text, offset) + 1);
  }

  /** The directive half of `LongWordSkipsOneCharacter`: the turn reads one character. */
  lemma LongWordDirectiveIsSkipped(text: string, strtof: string -> Conversion<real>, offset: int)
    requires 0 <= offset < |text|
    requires var s := SkipWhitespaceAndCommentsAt(text, offset);
             s + 2 < |text| && ObjFile.IsAlnum(text[s + 1]) && ObjFile.IsAlnum(text[s + 2])
    ensures var s := SkipWhitespaceAndCommentsAt(text, offset);
            DirectiveAt(text, strtof, offset) == ObjFile.Some(ObjFile.Scanned(ObjFile.Skipped, s + 1))
  {
    LongWordMatchesNoKeyword(text, SkipWhitespaceAndCommentsAt(text, offset));
  }

  /** At a word of three or more letters or digits, none of the four keywords matches. */
  lemma LongWordMatchesNoKeyword(text: string, s: int)
    requires 0 <= s && s + 2 < |text| && ObjFile.IsAlnum(text[s + 1]) && ObjFile.IsAlnum(text[s + 2])
    ensures !MatchAlphaNumericAt(text, s, "v").value && !MatchAlphaNumericAt(text, s, "f").value
    ensures !MatchAlphaNumericAt(text, s, "vt").value && !MatchAlphaNumericAt(text, s, "vn").value
  {
    EqualsStringIsInverted(text, s, "v");
    EqualsStringIsInverted(text, s, "vt");
    EqualsStringIsInverted(text, s, "vn");
    EqualsStringIsInverted(text, s, "f");
  }

  /** The directive loop from `offset` with `data` collected so far; `None` when the load fails. */
  function LoadFrom(text: string, strtof: string -> Conversion<real>, offset: int, data: ObjData): Option<ObjData>
    requires 0 <= offset <= |text|
    decreases |text| - offset
  {
    if ObjFile.IsAtEnd(text, offset) then ObjFile.Some(data)
    else match DirectiveAt(text, strtof, offset)
      case None => ObjFile.None
      case Some(d) => LoadFrom(text, strtof, d.offset, ObjFile.Collect(data, d.value))
  }

  /** One turn of the directive loop, unfolded. */
  lemma LoadFromUnfold(text: string, strtof: string -> Conversion<real>, offset: int, data: ObjData)
    requires 0 <= offset < |text|
    ensures DirectiveAt(text, strtof, offset).None? ==> LoadFrom(text, strtof, offset, data).None?
    ensures DirectiveAt(text, strtof, offset).Some? ==>
              var d := DirectiveAt(text, strtof, offset).value;
              LoadFrom(text, strtof, offset, data) == LoadFrom(text, strtof, d.offset, ObjFile.Collect(data, d.value))
  {
  }

  /** One turn of the directive loop that skips up to `next` collects nothing. */
  lemma LoadFromSkips(text: string, strtof: string -> Conversion<real>, offset: int, data: ObjData, next: int)
    requires 0 <= offset < |text| && DirectiveAt(text, strtof, offset) == ObjFile.Some(ObjFile.Scanned(ObjFile.Skipped, next))
    ensures 0 <= next <= |text|
    ensures LoadFrom(text, strtof, offset, data) == LoadFrom(text, strtof, next, data)
  {
    assert ObjFile.Collect(data, ObjFile.Skipped) == data;
    LoadFromUnfold(text, strtof, offset, data);
  }

  /** What this revision's directive loop collects from a whole file. */
  function ParseObj(text: string, strtof: string -> Conversion<real>): Option<ObjData> {
    LoadFrom(text, strtof, 0, ObjFile.EmptyData)
  }

  /** The loop never adds a face to those collected so far. */
  lemma {:induction false} LoadFromAddsNoFace(text: string, strtof: string -> Conversion<real>, offset: int, data: ObjData)
    requires 0 <= offset <= |text|
    ensures LoadFrom(text, strtof, offset, data).Some? ==> LoadFrom(text, strtof, offset, data).value.faces == data.faces
    decreases |text| - offset
  {
    if offset < |text| {
      var d := DirectiveAt(text, strtof, offset);
      if d.Some? {
        NeverReadsFace(text, strtof, offset);
        LoadFromAddsNoFace(text, strtof, d.value.offset, ObjFile.Collect(data, d.value.value));
      }
    }
  }

  /** A file this revision accepts yields no face. */
  lemma ParseObjHasNoFaces(text: string, strtof: string -> Conversion<real>)
    ensures ParseObj(text, strtof).Some? ==> ParseObj(text, strtof).value.faces == []
  {
    LoadFromAddsNoFace(text, strtof, 0, ObjFile.EmptyData);
  }

  // ---------------------------------------------------------------------------
  // Corner expansion

  /** The lookups of a corner stay inside the arrays; normal and texture indices are looked up when not negative. */
  predicate CornerInRange(c: ObjIndex, data: ObjData) {
    && 0 <= c.position < |data.positions|
    && (c.normal >= 0 ==> c.normal < |data.normals|)
    && (c.texCoords >= 0 ==> c.texCoords < |data.texCoords|)
  }

  predicate FacesInRange(data: ObjData) {
    forall f, i | 0 <= f < |data.faces| && 0 <= i < 3 :: CornerInRange(data.faces[f].indices[i], data)
  }

  /** A vertex built from a corner: the position always, a normal or texture coordinate when its index is not negative. */
  predicate CornerResolved(v: Vertex, c: ObjIndex, data: ObjData)
    requires CornerInRange(c, data)
  {
    && v.position == data.positions[c.position]
    && (c.normal >= 0 ==> v.normal == data.normals[c.normal])
    && (c.texCoords >= 0 ==> v.texCoords == data.texCoords[c.texCoords])
  }

  /** Vertex `3 * f + j` is built from corner `j` of face `f`. */
  ghost predicate Expands(vertices: seq<Vertex>, data: ObjData)
    requires FacesInRange(data)
  {
    && |vertices| == 3 * |data.faces|
    && forall f, j | 0 <= f < |data.faces| && 0 <= j < 3 ::
         CornerResolved(vertices[3 * f + j], data.faces[f].indices[j], data)
  }

  /** The attribute lookups for one corner, applied to the vertex slot `vertex`. */
  function ResolveCorner(vertex: Vertex, corner: ObjIndex, data: ObjData): (r: Vertex)
    requires CornerInRange(corner, data)
    ensures CornerResolved(r, corner, data)
    ensures corner.normal < 0 ==> r.normal == vertex.normal
    ensures corner.texCoords < 0 ==> r.texCoords == vertex.texCoords
    ensures r.tangent == vertex.tangent
  {
    var r := vertex.(position := data.positions[corner.position]);
    var r := if corner.normal >= 0 then r.(normal := data.normals[corner.normal]) else r;
    if corner.texCoords >= 0 then r.(texCoords := data.texCoords[corner.texCoords]) else r
  }

  /** The expansion at the end of this revision's loader: one vertex and one index per corner. */
  method BuildVertexBuffers(data: ObjData, mesh: Mesh)
    requires FacesInRange(data)
    modifies mesh
    ensures fresh(mesh.vertices) && fresh(mesh.indices)
    ensures mesh.vertices.Length == mesh.indices.Length == 3 * |data.faces|
    ensures forall k | 0 <= k < mesh.indices.Length :: mesh.indices[k] == k
    ensures Expands(mesh.vertices[..], data)
  {
    var vertices := new Vertex[|data.faces| * 3];
    var indices := new nat[|data.faces| * 3];
    var vi := 0;
    var ii := 0;
    for fi := 0 to |data.faces|
      invariant vi == ii == 3 * fi
      invariant forall k | 0 <= k < ii :: indices[k] == k
      invariant forall f, j | 0 <= f < fi && 0 <= j < 3 ::
                  CornerResolved(vertices[3 * f + j], data.faces[f].indices[j], data)
    {
      var face := data.faces[fi];
      for i := 0 to 3
        invariant vi == ii == 3 * fi + i
        invariant forall k | 0 <= k < ii :: indices[k] == k
        invariant forall f, j | 0 <= f < fi && 0 <= j < 3 ::
                    CornerResolved(vertices[3 * f + j], data.faces[f].indices[j], data)
        invariant forall j | 0 <= j < i :: CornerResolved(vertices[3 * fi + j], face.indices[j], data)
      {
        indices[ii] := vi;
        ii := ii + 1;

        vertices[vi] := ResolveCorner(vertices[vi], face.indices[i], data);
        vi := vi + 1;
      }
    }
    mesh.vertices := vertices;
    mesh.indices := indices;
  }

  // ---------------------------------------------------------------------------
  // The loader

  /** The `v` / `vn` branch after the keyword, with this revision's white-space skipper. */
  method ParseVec3Directive(parser: Parser, strtof: string -> Conversion<real>) returns (r: Option<Vec3>)
    requires parser.Valid()
    modifies parser
    ensures parser.Valid()
    ensures ObjFile.Vec3DirectiveAt(parser.text, old(parser.offset), strtof)
            == if r.Some? then ObjFile.Some(ObjFile.Scanned(r.value, parser.offset)) else ObjFile.None
  {
    SkipMatchesRevision(parser.text, parser.offset);
    SkipWhitespaceAndComments(parser);
    var p0 := parser.ParseFloat(strtof);
    if !p0.status {
      return ObjFile.None;
    }
    var p1 := parser.ParseFloat(strtof);
    if !p1.status {
      return ObjFile.None;
    }
    var p2 := parser.ParseFloat(strtof);
    if !p2.status {
      return ObjFile.None;
    }
    return ObjFile.Some(Vec3(p0.value, p1.value, p2.value));
  }

  /** The `vt` branch after the keyword, with this revision's white-space skipper. */
  method ParseVec2Directive(parser: Parser, strtof: string -> Conversion<real>) returns (r: Option<Vec2>)
    requires parser.Valid()
    modifies parser
    ensures parser.Valid()
    ensures ObjFile.Vec2DirectiveAt(parser.text, old(parser.offset), strtof)
            == if r.Some? then ObjFile.Some(ObjFile.Scanned(r.value, parser.offset)) else ObjFile.None
  {
    SkipMatchesRevision(parser.text, parser.offset);
    SkipWhitespaceAndComments(parser);
    var t0 := parser.ParseFloat(strtof);
    if !t0.status {
      return ObjFile.None;
    }
    var t1 := parser.ParseFloat(strtof);
    if !t1.status {
      return ObjFile.None;
    }
    return ObjFile.Some(Vec2(t0.value, t1.value));
  }

  /** One pass of the corner loop of the `f` branch. */
  method ParseCorner(parser: Parser) returns (r: Option<ObjIndex>)
    requires parser.Valid()
    modifies parser
    ensures parser.Valid()
    ensures CornerAt(parser.text, old(parser.offset))
            == if r.Some? then ObjFile.Some(ObjFile.Scanned(r.value, parser.offset)) else ObjFile.None
  {
    var p := parser.ParseInt();
    if !p.status {
      return ObjFile.None;
    }
    var slash := MatchString(parser, "/");
    if slash {
      // never taken: the texture and normal reads of the corner
      assert false;
    }
    return ObjFile.Some(ObjFile.ObjIndex(p.value, 0, 0));
  }

  /** The corner loop of the `f` branch: three corners, written into a blank face. */
  method ParseFaceCorners(parser: Parser) returns (r: Option<ObjFile.ObjTriangleFace>)
    requires parser.Valid()
    modifies parser
    ensures parser.Valid()
    ensures CornersAt(parser.text, old(parser.offset), 3)
            == if r.Some? then ObjFile.Some(ObjFile.Scanned(r.value.indices, parser.offset)) else ObjFile.None
  {
    ghost var start := parser.offset;
    var face := ObjFile.BlankFace;
    assert face.indices[..0] == [];
    assert ObjFile.Prepend([], CornersAt(parser.text, start, 3)) == CornersAt(parser.text, start, 3) by {
      var rest := CornersAt(parser.text, start, 3);
      if rest.Some? {
        assert [] + rest.value.value == rest.value.value;
      }
    }
    for i := 0 to 3
      invariant parser.Valid()
      invariant CornersAt(parser.text, start, 3) == ObjFile.Prepend(face.indices[..i], CornersAt(parser.text, parser.offset, 3 - i))
    {
      ghost var previous, before := face.indices[..i], parser.offset;
      var corner := ParseCorner(parser);
      if corner.None? {
        assert CornersAt(parser.text, before, 3 - i) == ObjFile.None;
        return ObjFile.None;
      }
      assert CornersAt(parser.text, before, 3 - i)
             == ObjFile.Prepend([corner.value], CornersAt(parser.text, parser.offset, 3 - (i + 1)));
      ObjFile.PrependTwice(previous, [corner.value], CornersAt(parser.text, parser.offset, 3 - (i + 1)));
      face := ObjFile.ObjTriangleFace(face.indices[i := corner.value]);
      assert face.indices[..i + 1] == previous + [corner.value];
    }
    assert face.indices[..3] + [] == face.indices;
    return ObjFile.Some(face);
  }

  /** One turn of this revision's directive loop, up to the push. */
  method ReadDirective(parser: Parser, strtof: string -> Conversion<real>) returns (r: Option<Directive>)
    requires parser.Valid() && !ObjFile.IsAtEnd(parser.text, parser.offset)
    modifies parser
    ensures parser.Valid()
    ensures DirectiveAt(parser.text, strtof, old(parser.offset))
            == if r.Some? then ObjFile.Some(ObjFile.Scanned(r.value, parser.offset)) else ObjFile.None
  {
    SkipWhitespaceAndComments(parser);
    var matched := MatchAlphaNumeric(parser, "v");
    if matched {
      var p := ParseVec3Directive(parser, strtof);
      return if p.Some? then ObjFile.Some(ObjFile.Position(p.value)) else ObjFile.None;
    }
    matched := MatchAlphaNumeric(parser, "vt");
    if matched {
      var t := ParseVec2Directive(parser, strtof);
      return if t.Some? then ObjFile.Some(ObjFile.TexCoords(t.value)) else ObjFile.None;
    }
    matched := MatchAlphaNumeric(parser, "vn");
    if matched {
      var n := ParseVec3Directive(parser, strtof);
      return if n.Some? then ObjFile.Some(ObjFile.Normal(n.value)) else ObjFile.None;
    }
    matched := MatchAlphaNumeric(parser, "f");
    if matched {
      SkipWhitespaceAndComments(parser);
      var face := ParseFaceCorners(parser);
      return if face.Some? then ObjFile.Some(ObjFile.Face(face.value)) else ObjFile.None;
    }
    parser.Advance(1);
    return ObjFile.Some(ObjFile.Skipped);
  }

  /**
   * This revision's `LoadMeshFromObjFile` on the contents of the file. It succeeds exactly when
   * its directive loop does, and then always builds empty buffers: no face is ever read.
   */
  method LoadMeshFromObjFile(text: string, strtof: string -> Conversion<real>, mesh: Mesh) returns (ok: bool)
    requires ParseObj(text, strtof).Some? ==> FacesInRange(ParseObj(text, strtof).value)
    modifies mesh
    ensures ok <==> ParseObj(text, strtof).Some?
    ensures !ok ==> unchanged(mesh)
    ensures ok ==> fresh(mesh.vertices) && fresh(mesh.indices)
    ensures ok ==>
      var data := ParseObj(text, strtof).value;
      && mesh.vertices.Length == mesh.indices.Length == 3 * |data.faces| == 0
      && FacesInRange(data) && Expands(mesh.vertices[..], data)
  {
    var parser := new ObjFile.Parser(text);
    var data := ObjFile.EmptyData;
    while !ObjFile.IsAtEnd(parser.text, parser.offset)
      invariant parser.Valid() && parser.text == text && unchanged(mesh)
      invariant LoadFrom(text, strtof, parser.offset, data) == ParseObj(text, strtof)
      decreases |text| - parser.offset
    {
      ghost var start, before := parser.offset, data;
      var directive := ReadDirective(parser, strtof);
      LoadFromUnfold(text, strtof, start, before);
      if directive.None? {
        assert LoadFrom(text, strtof, start, before).None?;
        return false;
      }
      data := ObjFile.Collect(data, directive.value);
    }
    assert ParseObj(text, strtof) == ObjFile.Some(data);
    ParseObjHasNoFaces(text, strtof);
    BuildVertexBuffers(data, mesh);
    return true;
  }
}
