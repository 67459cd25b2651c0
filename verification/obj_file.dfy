/**
 * The Wavefront OBJ loader: a cursor (`Parser`) over the bytes of the file, and
 * `LoadMeshFromObjFile`, which reads `v`, `vt`, `vn` and `f` directives and expands every
 * face corner into a vertex of its own.
 *
 * Each cursor operation is a method of `Parser` proved equal to a function of the text and
 * the old offset (the method name with `At` appended). The directive loop is specified by
 * `LoadFrom`, which applies `Step` until the end of the text; the loader method is proved to
 * follow it. `strtof` is not modelled: it is the parameter `strtof`, which returns the value
 * and the number of characters the C library would consume from the rest of the buffer.
 */
module ObjFile {
  import opened Core
  import opened ScopMath
  import opened Graphics

  datatype Option<T> = None | Some(value: T)

  /** A C numeric conversion: the value read and the number of characters consumed (0: none). */
  datatype Conversion<T> = Conversion(value: T, length: nat)

  /** A value read by the cursor, with the offset the cursor is left at. */
  datatype Scanned<T> = Scanned(value: T, offset: int)

  function Min(a: int, b: int): int { if a <= b then a else b }

  // ---------------------------------------------------------------------------
  // C character classes and string comparison (C locale)

  /** `isspace`: space, tab, newline, vertical tab, form feed, carriage return. */
  predicate IsSpace(c: char) { c == ' ' || '\t' <= c <= '\r' }

  predicate IsDigit(c: char) { '0' <= c <= '9' }

  /** `isalnum`: an ASCII letter or digit. */
  predicate IsAlnum(c: char) { IsDigit(c) || 'a' <= c <= 'z' || 'A' <= c <= 'Z' }

  /**
   * `strncmp(a, b, n) == 0`, where `b` holds the characters of a C string (its terminating
   * NUL is implicit) and the first `n` characters of `a` are readable. The comparison stops
   * at the first difference, or where both strings end.
   */
  predicate StrncmpEqual(a: string, b: string, n: nat)
    requires n <= |a|
  {
    if n == 0 then true
    else
      var bc := if |b| == 0 then '\0' else b[0];
      if a[0] != bc then false
      else if bc == '\0' then true
      else StrncmpEqual(a[1..], b[1..], n - 1)
  }

  /**
   * For a C string `b` (no NUL inside) and a bound `n` of at least its length, `strncmp`
   * reports equality exactly when `a` starts with `b` and, if more than `|b|` characters are
   * compared, a NUL follows.
   */
  lemma {:induction false} StrncmpEqualIsPrefix(a: string, b: string, n: nat)
    requires '\0' !in b && |b| <= n <= |a|
    ensures StrncmpEqual(a, b, n) <==> a[..|b|] == b && (n == |b| || a[|b|] == '\0')
  {
    if |b| > 0 {
      assert b[0] in b;
      if a[0] == b[0] {
        assert '\0' !in b[1..] by {
          forall k | 0 <= k < |b[1..]| ensures b[1..][k] != '\0' { assert b[1..][k] == b[k + 1]; }
        }
        StrncmpEqualIsPrefix(a[1..], b[1..], n - 1);
        assert a[..|b|] == [a[0]] + a[1..][..|b| - 1];
        assert b == [b[0]] + b[1..];
      }
    }
  }

  /** `strtol(s, &end, 10)`: optional leading white space, an optional sign, decimal digits. */
  function Strtol(s: string): (c: Conversion<int>)
    ensures c.length <= |s|
    ensures c.length == 0 ==> c.value == 0
  {
    var start := SpacesEnd(s, 0);
    var signed := start < |s| && (s[start] == '+' || s[start] == '-');
    var digits := if signed then start + 1 else start;
    var end := DigitsEnd(s, digits);
    if end == digits then Conversion(0, 0)
    else
      var magnitude: int := DecimalValue(s[digits..end]);
      Conversion(if signed && s[start] == '-' then -magnitude else magnitude, end)
  }

  /** The end of the run of white space that starts at `from`. */
  function SpacesEnd(s: string, from: nat): (r: nat)
    requires from <= |s|
    ensures from <= r <= |s|
    ensures r < |s| ==> !IsSpace(s[r])
    decreases |s| - from
  {
    if from == |s| || !IsSpace(s[from]) then from else SpacesEnd(s, from + 1)
  }

  /** The end of the run of decimal digits that starts at `from`. */
  function DigitsEnd(s: string, from: nat): (r: nat)
    requires from <= |s|
    ensures from <= r <= |s|
    ensures forall k | from <= k < r :: IsDigit(s[k])
    ensures r < |s| ==> !IsDigit(s[r])
    decreases |s| - from
  {
    if from == |s| || !IsDigit(s[from]) then from else DigitsEnd(s, from + 1)
  }

  /** The value of a string of decimal digits. */
  function DecimalValue(digits: string): nat {
    if |digits| == 0 then 0
    else
      var last := digits[|digits| - 1];
      var d := if IsDigit(last) then last as int - '0' as int else 0;
      DecimalValue(digits[..|digits| - 1]) * 10 + d
  }

  /** `strtol` converts nothing when the text starts with a character that cannot begin a number. */
  lemma StrtolRejects(s: string)
    requires |s| > 0 && !IsSpace(s[0]) && !IsDigit(s[0]) && s[0] != '+' && s[0] != '-'
    ensures Strtol(s).length == 0
  {
  }

  /** One more digit multiplies the value read so far by ten and adds the digit. */
  lemma DecimalValueAppend(digits: string, c: char)
    requires IsDigit(c)
    ensures DecimalValue(digits + [c]) == 10 * DecimalValue(digits) + (c as int - '0' as int)
  {
    assert (digits + [c])[..|digits|] == digits;
  }

  /** A run of white space from `from` up to `to`, where a non-space or the end follows, ends at `to`. */
  lemma {:induction false} SpacesEndAt(s: string, from: nat, to: nat)
    requires from <= to <= |s|
    requires forall k | from <= k < to :: IsSpace(s[k])
    requires to == |s| || !IsSpace(s[to])
    ensures SpacesEnd(s, from) == to
    decreases |s| - from
  {
    if from < to {
      SpacesEndAt(s, from + 1, to);
    }
  }

  /** A run of digits from `from` up to `to`, where a non-digit or the end follows, ends at `to`. */
  lemma {:induction false} DigitsEndAt(s: string, from: nat, to: nat)
    requires from <= to <= |s|
    requires forall k | from <= k < to :: IsDigit(s[k])
    requires to == |s| || !IsDigit(s[to])
    ensures DigitsEnd(s, from) == to
    decreases |s| - from
  {
    if from < to {
      DigitsEndAt(s, from + 1, to);
    }
  }

  /**
   * `strtol` on a text whose white space ends at `start`, whose digits `d` run from `digits` to
   * `end`, with a sign between the two when `digits == start + 1`; `negative` says it is `-`.
   */
  lemma StrtolReadsAt(s: string, start: nat, digits: nat, end: nat, d: string, negative: bool)
    requires start <= digits < end <= |s| && s[digits..end] == d
    requires SpacesEnd(s, 0) == start && DigitsEnd(s, digits) == end
    requires digits == start || (digits == start + 1 && (s[start] == '+' || s[start] == '-'))
    requires negative <==> digits == start + 1 && s[start] == '-'
    ensures Strtol(s) == Conversion(if negative then -(DecimalValue(d) as int) else DecimalValue(d) as int, end)
  {
    assert IsDigit(s[digits]);
  }

  /**
   * `strtol` on white space `w`, an optional sign `sign`, a non-empty run of digits `d` and
   * anything that does not continue the run: the value of the digits, negated after `-`, and
   * everything up to the end of the digits consumed.
   */
  lemma StrtolReads(w: string, sign: string, d: string, rest: string)
    requires forall k | 0 <= k < |w| :: IsSpace(w[k])
    requires sign == "" || sign == "+" || sign == "-"
    requires |d| > 0 && forall k | 0 <= k < |d| :: IsDigit(d[k])
    requires |rest| == 0 || !IsDigit(rest[0])
    ensures Strtol(w + sign + d + rest)
            == Conversion(if sign == "-" then -(DecimalValue(d) as int) else DecimalValue(d) as int, |w| + |sign| + |d|)
  {
    var s := w + sign + d + rest;
    var digits := |w| + |sign|;
    var end := digits + |d|;
    StrtolLayout(w, sign, d, rest);
    SpacesEndAt(s, 0, |w|);
    DigitsEndAt(s, digits, end);
    StrtolReadsAt(s, |w|, digits, end, d, sign == "-");
  }

  /** Where the white space, the sign and the digits of `w + sign + d + rest` lie. */
  lemma StrtolLayout(w: string, sign: string, d: string, rest: string)
    requires forall k | 0 <= k < |w| :: IsSpace(w[k])
    requires sign == "" || sign == "+" || sign == "-"
    requires |d| > 0 && forall k | 0 <= k < |d| :: IsDigit(d[k])
    requires |rest| == 0 || !IsDigit(rest[0])
    ensures var s, digits := w + sign + d + rest, |w| + |sign|;
      && |s| == digits + |d| + |rest|
      && (forall k | 0 <= k < |w| :: IsSpace(s[k]))
      && !IsSpace(s[|w|])
      && (sign == "" || s[|w|] == sign[0])
      && (sign == "-" <==> digits == |w| + 1 && s[|w|] == '-')
      && (forall k | digits <= k < digits + |d| :: IsDigit(s[k]))
      && (digits + |d| == |s| || !IsDigit(s[digits + |d|]))
      && s[digits..digits + |d|] == d
  {
    var s := w + sign + d + rest;
    var digits := |w| + |sign|;
    assert |s| == digits + |d| + |rest|;
    forall k | 0 <= k < |w| ensures IsSpace(s[k]) {
      assert s[k] == w[k];
    }
    forall k | digits <= k < digits + |d| ensures IsDigit(s[k]) {
      assert s[k] == d[k - digits];
    }
    assert digits + |d| < |s| ==> s[digits + |d|] == rest[0];
    assert s[|w|] == if sign == "" then d[0] else sign[0];
    assert s[digits..digits + |d|] == d;
  }

  // ---------------------------------------------------------------------------
  // The cursor as functions of the text and the offset

  predicate IsAtEnd(text: string, offset: int) { offset >= |text| }

  /** Where `Advance(parser, count)` leaves the cursor: `count` characters on, or the end. */
  function AdvanceAt(text: string, offset: int, count: int): (r: int)
    requires 0 <= offset <= |text|
    ensures offset <= r <= |text|
  {
    if count <= 0 then offset else Min(offset + count, |text|)
  }

  /** Where `AdvanceToNextLine` leaves the cursor: just past the next newline, or the end. */
  function AdvanceToNextLineAt(text: string, offset: int): (r: int)
    requires 0 <= offset <= |text|
    ensures offset <= r <= |text|
    ensures offset < |text| ==> offset < r
    ensures forall k | offset <= k < r - 1 :: text[k] != '\n'
    ensures r < |text| ==> text[r - 1] == '\n'
    decreases |text| - offset
  {
    if IsAtEnd(text, offset) then offset
    else if text[offset] == '\n' then offset + 1
    else AdvanceToNextLineAt(text, offset + 1)
  }

  /** Where `SkipWhitespaceAndComments` leaves the cursor: at the end or on a character that is neither. */
  function SkipWhitespaceAndCommentsAt(text: string, offset: int): (r: int)
    requires 0 <= offset <= |text|
    ensures offset <= r <= |text|
    ensures r == |text| || (!IsSpace(text[r]) && text[r] != '#')
    decreases |text| - offset
  {
    if IsAtEnd(text, offset) then offset
    else if IsSpace(text[offset]) then SkipWhitespaceAndCommentsAt(text, offset + 1)
    else if text[offset] == '#' then SkipWhitespaceAndCommentsAt(text, AdvanceToNextLineAt(text, offset))
    else offset
  }

  /** `EqualsString`: `strncmp` over `strlen(s)` characters, refused when fewer remain. */
  predicate EqualsString(text: string, offset: int, s: string)
    requires 0 <= offset <= |text|
  {
    if offset + |s| > |text| then false else StrncmpEqual(text[offset..], s, |s|)
  }

  /** For a C string `s`, `EqualsString` holds exactly when the next `|s|` characters are `s`. */
  lemma EqualsStringIsPrefix(text: string, offset: int, s: string)
    requires 0 <= offset <= |text| && '\0' !in s
    ensures EqualsString(text, offset, s) <==> offset + |s| <= |text| && text[offset..offset + |s|] == s
  {
    if offset + |s| <= |text| {
      StrncmpEqualIsPrefix(text[offset..], s, |s|);
      assert text[offset..][..|s|] == text[offset..offset + |s|];
    }
  }

  /** The next `|s|` characters are `s`. */
  predicate StartsWith(text: string, offset: int, s: string)
    requires 0 <= offset <= |text|
  {
    offset + |s| <= |text| && text[offset..offset + |s|] == s
  }

  /** What `MatchString` does: on a match, true and the cursor past `s`; otherwise false and no move. */
  function MatchStringAt(text: string, offset: int, s: string): (r: Scanned<bool>)
    requires 0 <= offset <= |text|
    ensures offset <= r.offset <= |text|
  {
    if StartsWith(text, offset, s) then Scanned(true, offset + |s|) else Scanned(false, offset)
  }

  /** What `MatchAlphaNumeric` does: a match must also end the text or precede a non-alphanumeric. */
  function MatchAlphaNumericAt(text: string, offset: int, s: string): (r: Scanned<bool>)
    requires 0 <= offset <= |text|
    ensures offset <= r.offset <= |text|
  {
    if StartsWith(text, offset, s) && (offset + |s| == |text| || !IsAlnum(text[offset + |s|]))
    then Scanned(true, offset + |s|)
    else Scanned(false, offset)
  }

  /**
   * The four directive keywords exclude each other: `v` is not matched at the start of a
   * `vt` or `vn` line, so the later branches of the directive loop are reachable.
   */
  lemma KeywordsAreExclusive(text: string, offset: int)
    requires 0 <= offset <= |text|
    ensures MatchAlphaNumericAt(text, offset, "vt").value || MatchAlphaNumericAt(text, offset, "vn").value
            ==> !MatchAlphaNumericAt(text, offset, "v").value
    ensures MatchAlphaNumericAt(text, offset, "f").value ==> !MatchAlphaNumericAt(text, offset, "v").value
    ensures !(MatchAlphaNumericAt(text, offset, "vt").value && MatchAlphaNumericAt(text, offset, "vn").value)
  {
    if MatchAlphaNumericAt(text, offset, "vt").value || MatchAlphaNumericAt(text, offset, "vn").value {
      assert text[offset..offset + 2][1] == text[offset + 1];
      assert IsAlnum(text[offset + 1]);
    }
    if MatchAlphaNumericAt(text, offset, "vt").value {
      assert text[offset..offset + 2][1] == 't';
    }
  }

  /** What `ParseInt` does: `strtol` on the rest of the text; the cursor moves past what it consumed. */
  function ParseIntAt(text: string, offset: int): (r: Scanned<Result<int, bool>>)
    requires 0 <= offset <= |text|
    ensures offset <= r.offset <= |text|
    ensures !r.value.status ==> r.value.value == 0 && r.offset == offset
  {
    var c := Strtol(text[offset..]);
    if c.length == 0 then Scanned(Result(0, false), offset)
    else Scanned(Result(c.value, true), offset + c.length)
  }

  /**
   * What `ParseFloat` does: `strtof` on the rest of the text. On success the cursor moves by
   * the length consumed, clamped at the end of the text (the C library may read past an
   * unterminated buffer; `Advance` never does).
   */
  function ParseFloatAt(text: string, offset: int, strtof: string -> Conversion<real>): (r: Scanned<Result<real, bool>>)
    requires 0 <= offset <= |text|
    ensures offset <= r.offset <= |text|
    ensures !r.value.status ==> r.value.value == 0.0 && r.offset == offset
  {
    var c := strtof(text[offset..]);
    if c.length == 0 then Scanned(Result(0.0, false), offset)
    else Scanned(Result(c.value, true), Min(offset + c.length, |text|))
  }

  // ---------------------------------------------------------------------------
  // The cursor

  class Parser {
    const text: string
    var offset: int

    ghost predicate Valid()
      reads this
    {
      0 <= offset <= |text|
    }

    /** `ParserInit`: the cursor at the start of the text. */
    constructor (text: string)
      ensures Valid() && this.text == text && offset == 0
    {
      this.text := text;
      offset := 0;
    }

    /** `Advance`: one character at a time, `count` times or until the end. */
    method Advance(count: int)
      requires Valid()
      modifies this
      ensures Valid() && offset == AdvanceAt(text, old(offset), count)
    {
      var i := 0;
      while !IsAtEnd(text, offset) && i < count
        invariant 0 <= i && offset == old(offset) + i <= |text|
        invariant AdvanceAt(text, offset, count - i) == AdvanceAt(text, old(offset), count)
        decreases |text| - offset
      {
        offset := offset + 1;
        i := i + 1;
      }
    }

    /** `AdvanceToNextLine`: up to the next newline, then one more character. */
    method AdvanceToNextLine()
      requires Valid()
      modifies this
      ensures Valid() && offset == AdvanceToNextLineAt(text, old(offset))
    {
      while !IsAtEnd(text, offset) && text[offset] != '\n'
        invariant Valid()
        invariant AdvanceToNextLineAt(text, offset) == AdvanceToNextLineAt(text, old(offset))
        decreases |text| - offset
      {
        Advance(1);
      }
      Advance(1);
    }

    /** `SkipWhitespaceAndComments`: white space one character at a time, a `#` comment to the next line. */
    method SkipWhitespaceAndComments()
      requires Valid()
      modifies this
      ensures Valid() && offset == SkipWhitespaceAndCommentsAt(text, old(offset))
    {
      while !IsAtEnd(text, offset)
        invariant Valid()
        invariant SkipWhitespaceAndCommentsAt(text, offset) == SkipWhitespaceAndCommentsAt(text, old(offset))
        decreases |text| - offset
      {
        if IsSpace(text[offset]) {
          Advance(1);
        } else if text[offset] == '#' {
          AdvanceToNextLine();
        } else {
          break;
        }
      }
    }

    /** `ParseFloat`: a failed conversion leaves the cursor where it was. */
    method ParseFloat(strtof: string -> Conversion<real>) returns (r: Result<real, bool>)
      requires Valid()
      modifies this
      ensures Valid() && Scanned(r, offset) == ParseFloatAt(text, old(offset), strtof)
    {
      var c := strtof(text[offset..]);
      if c.length == 0 {
        return Result.Bad(0.0, false);
      }
      Advance(c.length);
      return Result.Good(c.value, true);
    }

    /** `ParseInt`: a failed conversion leaves the cursor where it was. */
    method ParseInt() returns (r: Result<int, bool>)
      requires Valid()
      modifies this
      ensures Valid() && Scanned(r, offset) == ParseIntAt(text, old(offset))
    {
      var c := Strtol(text[offset..]);
      if c.length == 0 {
        return Result.Bad(0, false);
      }
      Advance(c.length);
      return Result.Good(c.value, true);
    }

    /** `MatchString`: `EqualsString`, then a move past `s` on success. */
    method MatchString(s: string) returns (matched: bool)
      requires Valid() && '\0' !in s
      modifies this
      ensures Valid() && Scanned(matched, offset) == MatchStringAt(text, old(offset), s)
    {
      EqualsStringIsPrefix(text, offset, s);
      if EqualsString(text, offset, s) {
        Advance(|s|);
        return true;
      }
      return false;
    }

    /** `MatchAlphaNumeric`: `EqualsString`, then a check of the character after `s`. */
    method MatchAlphaNumeric(s: string) returns (matched: bool)
      requires Valid() && '\0' !in s
      modifies this
      ensures Valid() && Scanned(matched, offset) == MatchAlphaNumericAt(text, old(offset), s)
    {
      EqualsStringIsPrefix(text, offset, s);
      if !EqualsString(text, offset, s) {
        return false;
      }
      if offset + |s| >= |text| {
        Advance(|s|);
        return true;
      }
      if !IsAlnum(text[offset + |s|]) {
        Advance(|s|);
        return true;
      }
      return false;
    }
  }

  // ---------------------------------------------------------------------------
  // What the loader collects

  /** `OBJIndex`: 0-based indices as stored by the loader; 0 also stands for "not given". */
  datatype ObjIndex = ObjIndex(position: int, normal: int, texCoords: int)

  type Corners = s: seq<ObjIndex> | |s| == 3
    witness [ObjIndex(0, 0, 0), ObjIndex(0, 0, 0), ObjIndex(0, 0, 0)]

  datatype ObjTriangleFace = ObjTriangleFace(indices: Corners)

  /** The value-initialised face `OBJTriangleFace{}` that `ArrayPush` stores. */
  const BlankFace: ObjTriangleFace :=
    ObjTriangleFace([ObjIndex(0, 0, 0), ObjIndex(0, 0, 0), ObjIndex(0, 0, 0)])

  /** The contents of the four arrays the loader fills. */
  datatype ObjData = ObjData(
    positions: seq<Vec3>, normals: seq<Vec3>, texCoords: seq<Vec2>, faces: seq<ObjTriangleFace>)

  const EmptyData: ObjData := ObjData([], [], [], [])

  // ---------------------------------------------------------------------------
  // The directives as functions of the text and the offset after the keyword

  /** `v` and `vn`: white space, then three floats; `None` when one fails. */
  function Vec3DirectiveAt(text: string, offset: int, strtof: string -> Conversion<real>): (r: Option<Scanned<Vec3>>)
    requires 0 <= offset <= |text|
    ensures r.Some? ==> offset <= r.value.offset <= |text|
  {
    var s := SkipWhitespaceAndCommentsAt(text, offset);
    var p0 := ParseFloatAt(text, s, strtof);
    if !p0.value.status then None else
    var p1 := ParseFloatAt(text, p0.offset, strtof);
    if !p1.value.status then None else
    var p2 := ParseFloatAt(text, p1.offset, strtof);
    if !p2.value.status then None else
    Some(Scanned(Vec3(p0.value.value, p1.value.value, p2.value.value), p2.offset))
  }

  /** `vt`: white space, then two floats. */
  function Vec2DirectiveAt(text: string, offset: int, strtof: string -> Conversion<real>): (r: Option<Scanned<Vec2>>)
    requires 0 <= offset <= |text|
    ensures r.Some? ==> offset <= r.value.offset <= |text|
  {
    var s := SkipWhitespaceAndCommentsAt(text, offset);
    var t0 := ParseFloatAt(text, s, strtof);
    if !t0.value.status then None else
    var t1 := ParseFloatAt(text, t0.offset, strtof);
    if !t1.value.status then None else
    Some(Scanned(Vec2(t0.value.value, t1.value.value), t1.offset))
  }

  /**
   * One face corner `p`, `p/t` or `p/t/n`, each index stored minus one; a part that is not
   * given keeps the 0 of the blank face. A `/` must be followed by an integer.
   */
  function CornerAt(text: string, offset: int): (r: Option<Scanned<ObjIndex>>)
    requires 0 <= offset <= |text|
    ensures r.Some? ==> offset < r.value.offset <= |text|
  {
    var p := ParseIntAt(text, offset);
    if !p.value.status then None
    else TexCoordsPartAt(text, p.offset, ObjIndex(p.value.value - 1, 0, 0))
  }

  /** The optional `/t` of a corner, then the optional `/n`. */
  function TexCoordsPartAt(text: string, offset: int, corner: ObjIndex): (r: Option<Scanned<ObjIndex>>)
    requires 0 <= offset <= |text|
    ensures r.Some? ==> offset <= r.value.offset <= |text|
  {
    var slash := MatchStringAt(text, offset, "/");
    if !slash.value then Some(Scanned(corner, offset))
    else
      var t := ParseIntAt(text, slash.offset);
      if !t.value.status then None
      else NormalPartAt(text, t.offset, corner.(texCoords := t.value.value - 1))
  }

  /** The optional `/n` of a corner. */
  function NormalPartAt(text: string, offset: int, corner: ObjIndex): (r: Option<Scanned<ObjIndex>>)
    requires 0 <= offset <= |text|
    ensures r.Some? ==> offset <= r.value.offset <= |text|
  {
    var slash := MatchStringAt(text, offset, "/");
    if !slash.value then Some(Scanned(corner, offset))
    else
      var n := ParseIntAt(text, slash.offset);
      if !n.value.status then None
      else Some(Scanned(corner.(normal := n.value.value - 1), n.offset))
  }

  /** The first `n` corners from `offset`, read one after the other. */
  function CornersAt(text: string, offset: int, n: nat): (r: Option<Scanned<seq<ObjIndex>>>)
    requires 0 <= offset <= |text|
    ensures r.Some? ==> |r.value.value| == n && offset <= r.value.offset <= |text|
    ensures r.Some? && n > 0 ==> offset < r.value.offset
    decreases n
  {
    if n == 0 then Some(Scanned([], offset))
    else match CornerAt(text, offset)
      case None => None
      case Some(c) => Prepend([c.value], CornersAt(text, c.offset, n - 1))
  }

  /** The first of `n > 0` corners, then the other `n - 1` from where it ends. */
  lemma CornersAtStep(text: string, offset: int, n: nat)
    requires 0 <= offset <= |text| && n > 0
    ensures CornerAt(text, offset).None? ==> CornersAt(text, offset, n).None?
    ensures CornerAt(text, offset).Some? ==>
              var c := CornerAt(text, offset).value;
              CornersAt(text, offset, n) == Prepend([c.value], CornersAt(text, c.offset, n - 1))
  {
  }

  /** One more corner read: it joins those read before, and the rest starts where it ends. */
  lemma CornersLoopStep(text: string, start: int, before: int, left: nat, previous: seq<ObjIndex>, c: ObjIndex, after: int)
    requires 0 <= start <= |text| && 0 <= before <= |text| && left > 0
    requires CornersAt(text, start, 3) == Prepend(previous, CornersAt(text, before, left))
    requires CornerAt(text, before) == Some(Scanned(c, after))
    ensures 0 <= after <= |text|
    ensures CornersAt(text, start, 3) == Prepend(previous + [c], CornersAt(text, after, left - 1))
  {
    CornersAtStep(text, before, left);
    PrependTwice(previous, [c], CornersAt(text, after, left - 1));
  }

  /** The corners `prefix` read before a run of corners that may have failed. */
  function Prepend(prefix: seq<ObjIndex>, rest: Option<Scanned<seq<ObjIndex>>>): Option<Scanned<seq<ObjIndex>>> {
    match rest
    case None => None
    case Some(r) => Some(Scanned(prefix + r.value, r.offset))
  }

  lemma PrependNothing(rest: Option<Scanned<seq<ObjIndex>>>)
    ensures Prepend([], rest) == rest
  {
    if rest.Some? {
      assert [] + rest.value.value == rest.value.value;
    }
  }

  lemma PrependOntoNothing(prefix: seq<ObjIndex>, offset: int)
    ensures Prepend(prefix, Some(Scanned([], offset))) == Some(Scanned(prefix, offset))
  {
    assert prefix + [] == prefix;
  }

  lemma PrependTwice(a: seq<ObjIndex>, b: seq<ObjIndex>, rest: Option<Scanned<seq<ObjIndex>>>)
    ensures Prepend(a, Prepend(b, rest)) == Prepend(a + b, rest)
  {
    if rest.Some? {
      assert a + (b + rest.value.value) == (a + b) + rest.value.value;
    }
  }

  /** `f`: white space, then exactly three corners. */
  function FaceDirectiveAt(text: string, offset: int): (r: Option<Scanned<ObjTriangleFace>>)
    requires 0 <= offset <= |text|
    ensures r.Some? ==> offset < r.value.offset <= |text|
  {
    match CornersAt(text, SkipWhitespaceAndCommentsAt(text, offset), 3)
    case None => None
    case Some(corners) => Some(Scanned(ObjTriangleFace(corners.value), corners.offset))
  }

  /** What one turn of the directive loop read. */
  datatype Directive =
    | Position(position: Vec3)
    | TexCoords(texCoords: Vec2)
    | Normal(normal: Vec3)
    | Face(face: ObjTriangleFace)
    | Skipped

  /**
   * One turn of the directive loop, from a cursor that is not at the end: white space, then
   * `v`, `vt`, `vn` or `f` in that order, anything else skipped to the next line. `None` when
   * a directive is malformed, which makes the load fail.
   */
  function DirectiveAt(text: string, strtof: string -> Conversion<real>, offset: int): (r: Option<Scanned<Directive>>)
    requires 0 <= offset < |text|
    ensures r.Some? ==> offset < r.value.offset <= |text|
  {
    var s := SkipWhitespaceAndCommentsAt(text, offset);
    var v := MatchAlphaNumericAt(text, s, "v");
    if v.value then
      match Vec3DirectiveAt(text, v.offset, strtof)
      case None => None
      case Some(p) => Some(Scanned(Position(p.value), p.offset))
    else
    var vt := MatchAlphaNumericAt(text, s, "vt");
    if vt.value then
      match Vec2DirectiveAt(text, vt.offset, strtof)
      case None => None
      case Some(t) => Some(Scanned(TexCoords(t.value), t.offset))
    else
    var vn := MatchAlphaNumericAt(text, s, "vn");
    if vn.value then
      match Vec3DirectiveAt(text, vn.offset, strtof)
      case None => None
      case Some(n) => Some(Scanned(Normal(n.value), n.offset))
    else
    var f := MatchAlphaNumericAt(text, s, "f");
    if f.value then
      match FaceDirectiveAt(text, f.offset)
      case None => None
      case Some(face) => Some(Scanned(Face(face.value), face.offset))
    else
    Some(Scanned(Skipped, AdvanceToNextLineAt(text, s)))
  }

  /** The array push a directive leads to. */
  function Collect(data: ObjData, d: Directive): ObjData {
    match d
    case Position(p) => data.(positions := data.positions + [p])
    case TexCoords(t) => data.(texCoords := data.texCoords + [t])
    case Normal(n) => data.(normals := data.normals + [n])
    case Face(f) => data.(faces := data.faces + [f])
    case Skipped => data
  }

  /** The directive loop from `offset` with `data` collected so far; `None` when the load fails. */
  function LoadFrom(text: string, strtof: string -> Conversion<real>, offset: int, data: ObjData): Option<ObjData>
    requires 0 <= offset <= |text|
    decreases |text| - offset
  {
    if IsAtEnd(text, offset) then Some(data)
    else match DirectiveAt(text, strtof, offset)
      case None => None
      case Some(d) => LoadFrom(text, strtof, d.offset, Collect(data, d.value))
  }

  /** One turn of the directive loop, unfolded. */
  lemma LoadFromUnfold(text: string, strtof: string -> Conversion<real>, offset: int, data: ObjData)
    requires 0 <= offset < |text|
    ensures DirectiveAt(text, strtof, offset).None? ==> LoadFrom(text, strtof, offset, data).None?
    ensures DirectiveAt(text, strtof, offset).Some? ==>
              var d := DirectiveAt(text, strtof, offset).value;
              LoadFrom(text, strtof, offset, data) == LoadFrom(text, strtof, d.offset, Collect(data, d.value))
  {
  }

  /** What the directive loop collects from a whole file. */
  function ParseObj(text: string, strtof: string -> Conversion<real>): Option<ObjData> {
    LoadFrom(text, strtof, 0, EmptyData)
  }

  // ---------------------------------------------------------------------------
  // What the face and directive branches read

  /** Every corner that parses stores the integer read first, minus one, as its position. */
  lemma CornerPositionIsIndexMinusOne(text: string, offset: int)
    requires 0 <= offset <= |text| && CornerAt(text, offset).Some?
    ensures ParseIntAt(text, offset).value.status
    ensures CornerAt(text, offset).value.value.position == ParseIntAt(text, offset).value.value - 1
  {
    var p := ParseIntAt(text, offset);
    PartsKeepPosition(text, p.offset, ObjIndex(p.value.value - 1, 0, 0));
  }

  /** The optional `/t` and `/n` parts never change the position of the corner. */
  lemma PartsKeepPosition(text: string, offset: int, corner: ObjIndex)
    requires 0 <= offset <= |text|
    ensures TexCoordsPartAt(text, offset, corner).Some? ==>
              TexCoordsPartAt(text, offset, corner).value.value.position == corner.position
  {
    var slash := MatchStringAt(text, offset, "/");
    if slash.value {
      var t := ParseIntAt(text, slash.offset);
      if t.value.status {
        assert NormalPartAt(text, t.offset, corner.(texCoords := t.value.value - 1)).Some? ==>
                 NormalPartAt(text, t.offset, corner.(texCoords := t.value.value - 1)).value.value.position
                   == corner.position;
      }
    }
  }

  /** A corner `p` with no `/` after it: the position index minus one, the other two left at 0. */
  lemma CornerOfPositionOnly(text: string, offset: int)
    requires 0 <= offset <= |text|
    requires var p := ParseIntAt(text, offset); p.value.status && !StartsWith(text, p.offset, "/")
    ensures var p := ParseIntAt(text, offset);
            CornerAt(text, offset) == Some(Scanned(ObjIndex(p.value.value - 1, 0, 0), p.offset))
  {
  }

  /**
   * A corner `p/t` with no second `/`: position and texture indices minus one; the normal
   * index keeps the 0 of the blank face.
   */
  lemma CornerOfPositionAndTexCoords(text: string, offset: int, slash: int)
    requires 0 <= offset <= |text|
    requires ParseIntAt(text, offset).value.status && ParseIntAt(text, offset).offset == slash
    requires 0 <= slash < |text| && text[slash] == '/'
    requires ParseIntAt(text, slash + 1).value.status && !StartsWith(text, ParseIntAt(text, slash + 1).offset, "/")
    ensures CornerAt(text, offset)
            == Some(Scanned(ObjIndex(ParseIntAt(text, offset).value.value - 1, 0,
                                     ParseIntAt(text, slash + 1).value.value - 1),
                            ParseIntAt(text, slash + 1).offset))
  {
    var c := ObjIndex(ParseIntAt(text, offset).value.value - 1, 0, 0);
    TexCoordsPartReads(text, slash, c);
  }

  /** A corner `p/t/n`: each of the three file indices minus one. */
  lemma CornerOfAllThree(text: string, offset: int, slash1: int, slash2: int)
    requires 0 <= offset <= |text|
    requires ParseIntAt(text, offset).value.status && ParseIntAt(text, offset).offset == slash1
    requires 0 <= slash1 < |text| && text[slash1] == '/'
    requires ParseIntAt(text, slash1 + 1).value.status && ParseIntAt(text, slash1 + 1).offset == slash2
    requires 0 <= slash2 < |text| && text[slash2] == '/'
    requires ParseIntAt(text, slash2 + 1).value.status
    ensures CornerAt(text, offset)
            == Some(Scanned(ObjIndex(ParseIntAt(text, offset).value.value - 1,
                                     ParseIntAt(text, slash2 + 1).value.value - 1,
                                     ParseIntAt(text, slash1 + 1).value.value - 1),
                            ParseIntAt(text, slash2 + 1).offset))
  {
    var c := ObjIndex(ParseIntAt(text, offset).value.value - 1, 0, 0);
    var t := ParseIntAt(text, slash1 + 1);
    TexCoordsPartReads(text, slash1, c);
    NormalPartReads(text, slash2, c.(texCoords := t.value.value - 1));
  }

  /** The `/t` of a corner: the texture index minus one, then the optional `/n` after it. */
  lemma TexCoordsPartReads(text: string, offset: int, corner: ObjIndex)
    requires 0 <= offset < |text| && text[offset] == '/' && ParseIntAt(text, offset + 1).value.status
    ensures var t := ParseIntAt(text, offset + 1);
            TexCoordsPartAt(text, offset, corner) == NormalPartAt(text, t.offset, corner.(texCoords := t.value.value - 1))
  {
    assert StartsWith(text, offset, "/");
  }

  /** The `/n` of a corner: the normal index minus one, and the cursor past it. */
  lemma NormalPartReads(text: string, offset: int, corner: ObjIndex)
    requires 0 <= offset < |text| && text[offset] == '/' && ParseIntAt(text, offset + 1).value.status
    ensures NormalPartAt(text, offset, corner)
            == Some(Scanned(corner.(normal := ParseIntAt(text, offset + 1).value.value - 1), ParseIntAt(text, offset + 1).offset))
  {
    assert StartsWith(text, offset, "/");
  }

  /** A corner `p//n`: the texture index after the first `/` is missing, so the corner fails. */
  lemma CornerWithoutTexCoordsFails(text: string, offset: int)
    requires 0 <= offset <= |text|
    requires var p := ParseIntAt(text, offset); p.value.status && StartsWith(text, p.offset, "//")
    ensures CornerAt(text, offset).None?
  {
    var p := ParseIntAt(text, offset);
    assert text[p.offset..p.offset + 2][0] == text[p.offset] == '/';
    assert text[p.offset + 1..][0] == text[p.offset..p.offset + 2][1] == '/';
    StrtolRejects(text[p.offset + 1..]);
  }

  /** At an `f`, the `v`, `vt` and `vn` branches are not taken. */
  lemma FaceKeywordIsNotVertex(text: string, s: int)
    requires 0 <= s <= |text|
    requires MatchAlphaNumericAt(text, s, "f").value
    ensures !MatchAlphaNumericAt(text, s, "v").value
    ensures !MatchAlphaNumericAt(text, s, "vt").value && !MatchAlphaNumericAt(text, s, "vn").value
  {
    KeywordsAreExclusive(text, s);
    assert text[s..s + 1][0] == text[s] == 'f';
  }

  /**
   * An `f` line whose first corner is written `p//n` makes the whole load fail, whatever
   * was collected before it.
   */
  lemma FaceWithoutTexCoordsFailsLoad(text: string, strtof: string -> Conversion<real>, offset: int, data: ObjData)
    requires 0 <= offset < |text|
    requires var s := SkipWhitespaceAndCommentsAt(text, offset);
             && MatchAlphaNumericAt(text, s, "f").value
             && var p := ParseIntAt(text, SkipWhitespaceAndCommentsAt(text, s + 1));
             p.value.status && StartsWith(text, p.offset, "//")
    ensures DirectiveAt(text, strtof, offset).None?
    ensures LoadFrom(text, strtof, offset, data).None?
  {
    var s := SkipWhitespaceAndCommentsAt(text, offset);
    var first := SkipWhitespaceAndCommentsAt(text, s + 1);
    CornerWithoutTexCoordsFails(text, first);
    CornersAtStep(text, first, 3);
    FailedFaceFailsDirective(text, strtof, offset);
    LoadFromUnfold(text, strtof, offset, data);
  }

  /** A face whose corners do not parse makes its directive fail. */
  lemma FailedFaceFailsDirective(text: string, strtof: string -> Conversion<real>, offset: int)
    requires 0 <= offset < |text|
    requires var s := SkipWhitespaceAndCommentsAt(text, offset);
             MatchAlphaNumericAt(text, s, "f").value && FaceDirectiveAt(text, s + 1).None?
    ensures DirectiveAt(text, strtof, offset).None?
  {
    var s := SkipWhitespaceAndCommentsAt(text, offset);
    FaceKeywordIsNotVertex(text, s);
    assert MatchAlphaNumericAt(text, s, "f") == Scanned(true, s + 1);
  }

  /**
   * A line that starts with anything but `v` or `f` (after white space and comments) is
   * skipped up to the next newline.
   */
  lemma OtherLineIsSkipped(text: string, strtof: string -> Conversion<real>, offset: int)
    requires 0 <= offset < |text|
    requires var s := SkipWhitespaceAndCommentsAt(text, offset);
             s < |text| && text[s] != 'v' && text[s] != 'f'
    ensures var s := SkipWhitespaceAndCommentsAt(text, offset);
            DirectiveAt(text, strtof, offset) == Some(Scanned(Skipped, AdvanceToNextLineAt(text, s)))
  {
    OtherWordMatchesNoKeyword(text, SkipWhitespaceAndCommentsAt(text, offset));
  }

  /** At a character other than `v` and `f`, none of the four keywords matches. */
  lemma OtherWordMatchesNoKeyword(text: string, s: int)
    requires 0 <= s < |text| && text[s] != 'v' && text[s] != 'f'
    ensures !MatchAlphaNumericAt(text, s, "v").value && !MatchAlphaNumericAt(text, s, "f").value
    ensures !MatchAlphaNumericAt(text, s, "vt").value && !MatchAlphaNumericAt(text, s, "vn").value
  {
    assert s + 1 <= |text| ==> text[s..s + 1][0] == text[s];
    assert s + 2 <= |text| ==> text[s..s + 2][0] == text[s];
  }

  /**
   * A face reads three corners only: a fourth corner (a number) stays on the line, where the
   * next turn of the loop takes it for an unknown directive and skips the rest of the line.
   */
  lemma FourthCornerIsSkipped(text: string, strtof: string -> Conversion<real>, offset: int, data: ObjData)
    requires 0 <= offset < |text|
    requires var r := DirectiveAt(text, strtof, offset);
             && r.Some? && r.value.value.Face? && r.value.offset < |text|
             && var s := SkipWhitespaceAndCommentsAt(text, r.value.offset);
             s < |text| && (IsDigit(text[s]) || text[s] == '-' || text[s] == '+')
    ensures var r := DirectiveAt(text, strtof, offset).value;
            var s := SkipWhitespaceAndCommentsAt(text, r.offset);
            && DirectiveAt(text, strtof, r.offset) == Some(Scanned(Skipped, AdvanceToNextLineAt(text, s)))
            && LoadFrom(text, strtof, offset, data)
               == LoadFrom(text, strtof, AdvanceToNextLineAt(text, s), Collect(data, r.value))
  {
    var r := DirectiveAt(text, strtof, offset).value;
    var collected := Collect(data, r.value);
    assert Collect(collected, Skipped) == collected;
    OtherLineIsSkipped(text, strtof, r.offset);
    LoadFromUnfold(text, strtof, offset, data);
    LoadFromUnfold(text, strtof, r.offset, collected);
  }

  // ---------------------------------------------------------------------------
  // Corner expansion

  /**
   * The lookups of a corner stay inside the arrays (the `Array` bounds check). Normal and
   * texture indices are only looked up when they are positive.
   */
  predicate CornerInRange(c: ObjIndex, data: ObjData) {
    && 0 <= c.position < |data.positions|
    && (c.normal > 0 ==> c.normal < |data.normals|)
    && (c.texCoords > 0 ==> c.texCoords < |data.texCoords|)
  }

  predicate FacesInRange(data: ObjData) {
    forall f, i | 0 <= f < |data.faces| && 0 <= i < 3 :: CornerInRange(data.faces[f].indices[i], data)
  }

  /**
   * A vertex built from a corner: the position is always copied; a normal or texture
   * coordinate only when its stored index is positive, and otherwise the field is whatever
   * the fresh buffer held.
   */
  predicate CornerResolved(v: Vertex, c: ObjIndex, data: ObjData)
    requires CornerInRange(c, data)
  {
    && v.position == data.positions[c.position]
    && (c.normal > 0 ==> v.normal == data.normals[c.normal])
    && (c.texCoords > 0 ==> v.texCoords == data.texCoords[c.texCoords])
  }

  /**
   * `vertices` is the expansion of the faces of `data`: vertex `3 * f + j` is built from
   * corner `j` of face `f`.
   */
  ghost predicate Expands(vertices: seq<Vertex>, data: ObjData)
    requires FacesInRange(data)
  {
    && |vertices| == 3 * |data.faces|
    && forall f, j | 0 <= f < |data.faces| && 0 <= j < 3 ::
         CornerResolved(vertices[3 * f + j], data.faces[f].indices[j], data)
  }

  // ---------------------------------------------------------------------------
  // The loader

  /** The `v` / `vn` branch after the keyword. */
  method ParseVec3Directive(parser: Parser, strtof: string -> Conversion<real>) returns (r: Option<Vec3>)
    requires parser.Valid()
    modifies parser
    ensures parser.Valid()
    ensures Vec3DirectiveAt(parser.text, old(parser.offset), strtof)
            == if r.Some? then Some(Scanned(r.value, parser.offset)) else None
  {
    parser.SkipWhitespaceAndComments();
    var p0 := parser.ParseFloat(strtof);
    if !p0.status {
      return None;
    }
    var p1 := parser.ParseFloat(strtof);
    if !p1.status {
      return None;
    }
    var p2 := parser.ParseFloat(strtof);
    if !p2.status {
      return None;
    }
    return Some(Vec3(p0.value, p1.value, p2.value));
  }

  /** The `vt` branch after the keyword. */
  method ParseVec2Directive(parser: Parser, strtof: string -> Conversion<real>) returns (r: Option<Vec2>)
    requires parser.Valid()
    modifies parser
    ensures parser.Valid()
    ensures Vec2DirectiveAt(parser.text, old(parser.offset), strtof)
            == if r.Some? then Some(Scanned(r.value, parser.offset)) else None
  {
    parser.SkipWhitespaceAndComments();
    var t0 := parser.ParseFloat(strtof);
    if !t0.status {
      return None;
    }
    var t1 := parser.ParseFloat(strtof);
    if !t1.status {
      return None;
    }
    return Some(Vec2(t0.value, t1.value));
  }

  /** One pass of the corner loop of the `f` branch. */
  method ParseCorner(parser: Parser) returns (r: Option<ObjIndex>)
    requires parser.Valid()
    modifies parser
    ensures parser.Valid()
    ensures CornerAt(parser.text, old(parser.offset))
            == if r.Some? then Some(Scanned(r.value, parser.offset)) else None
  {
    var p := parser.ParseInt();
    if !p.status {
      return None;
    }
    r := ParseTexCoordsPart(parser, ObjIndex(p.value - 1, 0, 0));
  }

  /** The `/t` part of a corner, then the `/n` part. */
  method ParseTexCoordsPart(parser: Parser, corner: ObjIndex) returns (r: Option<ObjIndex>)
    requires parser.Valid()
    modifies parser
    ensures parser.Valid()
    ensures TexCoordsPartAt(parser.text, old(parser.offset), corner)
            == if r.Some? then Some(Scanned(r.value, parser.offset)) else None
  {
    var slash := parser.MatchString("/");
    if !slash {
      return Some(corner);
    }
    var t := parser.ParseInt();
    if !t.status {
      return None;
    }
    r := ParseNormalPart(parser, corner.(texCoords := t.value - 1));
  }

  /** The `/n` part of a corner. */
  method ParseNormalPart(parser: Parser, corner: ObjIndex) returns (r: Option<ObjIndex>)
    requires parser.Valid()
    modifies parser
    ensures parser.Valid()
    ensures NormalPartAt(parser.text, old(parser.offset), corner)
            == if r.Some? then Some(Scanned(r.value, parser.offset)) else None
  {
    var slash := parser.MatchString("/");
    if !slash {
      return Some(corner);
    }
    var n := parser.ParseInt();
    if !n.status {
      return None;
    }
    return Some(corner.(normal := n.value - 1));
  }

  /** The corner loop of the `f` branch: three corners, read one after the other. */
  method ParseFaceCorners(parser: Parser) returns (r: Option<ObjTriangleFace>)
    requires parser.Valid()
    modifies parser
    ensures parser.Valid()
    ensures CornersAt(parser.text, old(parser.offset), 3)
            == if r.Some? then Some(Scanned(r.value.indices, parser.offset)) else None
  {
    ghost var start := parser.offset;
    var corners: seq<ObjIndex> := [];
    ghost var left: nat := 3;
    PrependNothing(CornersAt(parser.text, start, 3));
    for i := 0 to 3
      invariant parser.Valid() && |corners| == i && left == 3 - i
      invariant CornersAt(parser.text, start, 3) == Prepend(corners, CornersAt(parser.text, parser.offset, left))
    {
      var corner := ReadNextCorner(parser, start, corners, left);
      if corner.None? {
        return None;
      }
      corners := corners + [corner.value];
      left := left - 1;
    }
    PrependOntoNothing(corners, parser.offset);
    return Some(ObjTriangleFace(corners));
  }

  /** One pass of the corner loop, with what it adds to the corners read so far. */
  method ReadNextCorner(parser: Parser, ghost start: int, ghost corners: seq<ObjIndex>, ghost left: nat) returns (corner: Option<ObjIndex>)
    requires parser.Valid() && 0 <= start <= |parser.text| && left > 0
    requires CornersAt(parser.text, start, 3) == Prepend(corners, CornersAt(parser.text, parser.offset, left))
    modifies parser
    ensures parser.Valid()
    ensures corner.None? ==> CornersAt(parser.text, start, 3).None?
    ensures corner.Some? ==>
              CornersAt(parser.text, start, 3) == Prepend(corners + [corner.value], CornersAt(parser.text, parser.offset, left - 1))
  {
    ghost var before := parser.offset;
    corner := ParseCorner(parser);
    CornersAtStep(parser.text, before, left);
    if corner.Some? {
      CornersLoopStep(parser.text, start, before, left, corners, corner.value, parser.offset);
    }
  }

  /**
   * One turn of the directive loop of `LoadMeshFromObjFile`, up to the push: what was read,
   * or `None` when the load fails.
   */
  method ReadDirective(parser: Parser, strtof: string -> Conversion<real>) returns (r: Option<Directive>)
    requires parser.Valid() && !IsAtEnd(parser.text, parser.offset)
    modifies parser
    ensures parser.Valid()
    ensures DirectiveAt(parser.text, strtof, old(parser.offset))
            == if r.Some? then Some(Scanned(r.value, parser.offset)) else None
  {
    parser.SkipWhitespaceAndComments();
    var matched := parser.MatchAlphaNumeric("v");
    if matched {
      var p := ParseVec3Directive(parser, strtof);
      return if p.Some? then Some(Position(p.value)) else None;
    }
    matched := parser.MatchAlphaNumeric("vt");
    if matched {
      var t := ParseVec2Directive(parser, strtof);
      return if t.Some? then Some(TexCoords(t.value)) else None;
    }
    matched := parser.MatchAlphaNumeric("vn");
    if matched {
      var n := ParseVec3Directive(parser, strtof);
      return if n.Some? then Some(Normal(n.value)) else None;
    }
    matched := parser.MatchAlphaNumeric("f");
    if matched {
      parser.SkipWhitespaceAndComments();
      var face := ParseFaceCorners(parser);
      return if face.Some? then Some(Face(face.value)) else None;
    }
    parser.AdvanceToNextLine();
    return Some(Skipped);
  }

  /**
   * `LoadMeshFromObjFile` on the contents of the file. It succeeds exactly when the directive
   * loop does; the mesh then holds one vertex per face corner and the identity index buffer.
   */
  method LoadMeshFromObjFile(text: string, strtof: string -> Conversion<real>, mesh: Mesh) returns (ok: bool)
    requires ParseObj(text, strtof).Some? ==> FacesInRange(ParseObj(text, strtof).value)
    modifies mesh
    ensures ok <==> ParseObj(text, strtof).Some?
    ensures !ok ==> unchanged(mesh)
    ensures ok ==> fresh(mesh.vertices) && fresh(mesh.indices)
    ensures ok ==>
      var data := ParseObj(text, strtof).value;
      && mesh.vertices.Length == mesh.indices.Length == 3 * |data.faces|
      && FacesInRange(data) && Expands(mesh.vertices[..], data)
      && (forall k | 0 <= k < mesh.indices.Length :: mesh.indices[k] == k)
  {
    var parser := new Parser(text);
    var data := EmptyData;
    while !IsAtEnd(parser.text, parser.offset)
      invariant parser.Valid() && parser.text == text && unchanged(mesh)
      invariant LoadFrom(text, strtof, parser.offset, data) == ParseObj(text, strtof)
      decreases |text| - parser.offset
    {
      ghost var start, before := parser.offset, data;
      var directive := ReadDirective(parser, strtof);
      LoadFromUnfold(text, strtof, start, before);
      if directive.None? {
        assert LoadFrom(text, strtof, start, before).None?;
        return false;
      }
      data := Collect(data, directive.value);
    }
    assert ParseObj(text, strtof) == Some(data);
    BuildVertexBuffers(data, mesh);
    return true;
  }

  /**
   * The attribute lookups for one corner, applied to the vertex slot `vertex`: the position
   * always, a normal or texture coordinate only when its stored index is positive.
   */
  function ResolveCorner(vertex: Vertex, corner: ObjIndex, data: ObjData): (r: Vertex)
    requires CornerInRange(corner, data)
    ensures CornerResolved(r, corner, data)
    ensures corner.normal <= 0 ==> r.normal == vertex.normal
    ensures corner.texCoords <= 0 ==> r.texCoords == vertex.texCoords
    ensures r.tangent == vertex.tangent
  {
    var r := vertex.(position := data.positions[corner.position]);
    var r := if corner.normal > 0 then r.(normal := data.normals[corner.normal]) else r;
    if corner.texCoords > 0 then r.(texCoords := data.texCoords[corner.texCoords]) else r
  }

  /** The expansion at the end of `LoadMeshFromObjFile`: one vertex and one index per corner. */
  method BuildVertexBuffers(data: ObjData, mesh: Mesh)
    requires FacesInRange(data)
    modifies mesh
    ensures fresh(mesh.vertices) && fresh(mesh.indices)
    ensures mesh.vertices.Length == mesh.indices.Length == 3 * |data.faces|
    ensures forall k | 0 <= k < mesh.indices.Length :: mesh.indices[k] == k
    ensures Expands(mesh.vertices[..], data)
  {
    var vertices := new Vertex[|data.faces| * 3];
    var indices := new nat[|data.faces| * 3];
    var vi := 0;
    var ii := 0;
    for fi := 0 to |data.faces|
      invariant vi == ii == 3 * fi
      invariant forall k | 0 <= k < ii :: indices[k] == k
      invariant forall f, j | 0 <= f < fi && 0 <= j < 3 ::
                  CornerResolved(vertices[3 * f + j], data.faces[f].indices[j], data)
    {
      var face := data.faces[fi];
      for i := 0 to 3
        invariant vi == ii == 3 * fi + i
        invariant forall k | 0 <= k < ii :: indices[k] == k
        invariant forall f, j | 0 <= f < fi && 0 <= j < 3 ::
                    CornerResolved(vertices[3 * f + j], data.faces[f].indices[j], data)
        invariant forall j | 0 <= j < i :: CornerResolved(vertices[3 * fi + j], face.indices[j], data)
      {
        indices[ii] := vi;
        ii := ii + 1;

        vertices[vi] := ResolveCorner(vertices[vi], face.indices[i], data);
        vi := vi + 1;
      }
    }
    mesh.vertices := vertices;
    mesh.indices := indices;
  }
}
