/**
 * Vertex welding: `WeldMesh` merges the vertices of a triangle list that agree on position,
 * normal and texture coordinates (the tangent is not compared), keeping the first occurrence of
 * each, and returns the surviving vertices with one index per input vertex.
 *
 * The result is specified by `Survivors` (the first occurrences, in input order) and `Rank` (the
 * position of a vertex's first occurrence among them). The lemmas show that the survivors are
 * pairwise different, that there are as many as distinct attribute triples, and that an input
 * without duplicates comes back unchanged with the identity index buffer.
 */
module Weld {
  import opened ScopMath
  import opened Graphics

  /** The weld comparison: `==` (that is, `Equals`) on position, normal and texture coordinates. */
  predicate SameAttributes(a: Vertex, b: Vertex) {
    a.position.Equals(b.position) && a.normal.Equals(b.normal) && a.texCoords.Equals(b.texCoords)
  }

  /** The attributes the weld compares. */
  function Attributes(v: Vertex): (Vec3, Vec3, Vec2) {
    (v.position, v.normal, v.texCoords)
  }

  /** Over exact reals the weld comparison is equality of the compared attributes. */
  lemma SameAttributesIsEquality(a: Vertex, b: Vertex)
    ensures SameAttributes(a, b) <==> Attributes(a) == Attributes(b)
  {
    EqualsIsIdentity(a.texCoords, b.texCoords, a.position, b.position,
                     DefaultVec4, DefaultVec4, DefaultQuat, DefaultQuat);
    EqualsIsIdentity(DefaultVec2, DefaultVec2, a.normal, b.normal,
                     DefaultVec4, DefaultVec4, DefaultQuat, DefaultQuat);
  }

  /** The first index from `from` on whose vertex has the same attributes as vertex `j`. */
  function FirstFrom(vs: seq<Vertex>, j: nat, from: nat): (r: nat)
    requires from <= j < |vs|
    ensures from <= r <= j && SameAttributes(vs[r], vs[j])
    ensures forall k | from <= k < r :: !SameAttributes(vs[k], vs[j])
    decreases j - from
  {
    if SameAttributes(vs[from], vs[j]) then from else FirstFrom(vs, j, from + 1)
  }

  /** The first occurrence of vertex `j`: the least index whose vertex has the same attributes. */
  function First(vs: seq<Vertex>, j: nat): (r: nat)
    requires j < |vs|
    ensures r <= j && SameAttributes(vs[r], vs[j])
    ensures forall k | 0 <= k < r :: !SameAttributes(vs[k], vs[j])
  {
    FirstFrom(vs, j, 0)
  }

  /** Vertices with the same attributes have the same first occurrence. */
  lemma FirstIsShared(vs: seq<Vertex>, a: nat, b: nat)
    requires a < |vs| && b < |vs| && SameAttributes(vs[a], vs[b])
    ensures First(vs, a) == First(vs, b)
  {
    var fa, fb := First(vs, a), First(vs, b);
    if fa < fb {
      assert SameAttributes(vs[fa], vs[b]);
    } else if fb < fa {
      assert SameAttributes(vs[fb], vs[a]);
    }
  }

  /** The first occurrences among the first `i` vertices, in input order. */
  function Survivors(vs: seq<Vertex>, i: nat): (r: seq<Vertex>)
    requires i <= |vs|
    ensures |r| <= i
  {
    if i == 0 then []
    else Survivors(vs, i - 1) + (if First(vs, i - 1) == i - 1 then [vs[i - 1]] else [])
  }

  /** Where vertex `j`'s first occurrence sits among the survivors. */
  function Rank(vs: seq<Vertex>, j: nat): nat
    requires j < |vs|
  {
    |Survivors(vs, First(vs, j))|
  }

  /** The survivors of a prefix are a prefix of the survivors. */
  lemma {:induction false} SurvivorsGrow(vs: seq<Vertex>, i: nat, m: nat)
    requires i <= m <= |vs|
    ensures |Survivors(vs, i)| <= |Survivors(vs, m)|
    ensures Survivors(vs, m)[..|Survivors(vs, i)|] == Survivors(vs, i)
    decreases m - i
  {
    if i < m {
      SurvivorsGrow(vs, i, m - 1);
      assert Survivors(vs, m)[..|Survivors(vs, m - 1)|] == Survivors(vs, m - 1);
    }
  }

  /** A first occurrence is among the survivors, at its rank. */
  lemma SurvivorAtRank(vs: seq<Vertex>, j: nat)
    requires j < |vs| && First(vs, j) == j
    ensures Rank(vs, j) < |Survivors(vs, |vs|)|
    ensures Survivors(vs, |vs|)[Rank(vs, j)] == vs[j]
  {
    SurvivorsGrow(vs, j + 1, |vs|);
    assert Survivors(vs, j + 1) == Survivors(vs, j) + [vs[j]];
    assert Survivors(vs, |vs|)[|Survivors(vs, j)|] == Survivors(vs, j + 1)[|Survivors(vs, j)|];
  }

  /** Every vertex has the attributes of the survivor at its rank. */
  lemma RankedSurvivorMatches(vs: seq<Vertex>, j: nat)
    requires j < |vs|
    ensures Rank(vs, j) < |Survivors(vs, |vs|)|
    ensures SameAttributes(Survivors(vs, |vs|)[Rank(vs, j)], vs[j])
  {
    var f := First(vs, j);
    FirstIsShared(vs, f, j);
    SurvivorAtRank(vs, f);
  }

  /** The vertices whose first occurrence is earlier, among the first `i`. */
  ghost function Duplicates(vs: seq<Vertex>, i: nat): set<nat>
    requires i <= |vs|
  {
    set k: nat | k < i && First(vs, k) != k
  }

  /** Each of the first `i` vertices is either a survivor or a duplicate. */
  lemma {:induction false} SurvivorsAndDuplicates(vs: seq<Vertex>, i: nat)
    requires i <= |vs|
    ensures |Survivors(vs, i)| + |Duplicates(vs, i)| == i
  {
    if i > 0 {
      SurvivorsAndDuplicates(vs, i - 1);
      DuplicatesStep(vs, i);
    }
  }

  /** Vertex `i - 1` adds either to the survivors or to the duplicates, never to both. */
  lemma DuplicatesStep(vs: seq<Vertex>, i: nat)
    requires 0 < i <= |vs|
    ensures |Survivors(vs, i)| + |Duplicates(vs, i)| == |Survivors(vs, i - 1)| + |Duplicates(vs, i - 1)| + 1
  {
    var d, e := Duplicates(vs, i), Duplicates(vs, i - 1);
    assert i - 1 !in e;
    if First(vs, i - 1) == i - 1 {
      assert d == e;
    } else {
      assert d == e + {i - 1};
    }
  }

  /** The survivors of a prefix come from that prefix and are pairwise different. */
  lemma {:induction false} SurvivorsOfPrefixAreDistinct(vs: seq<Vertex>, i: nat)
    requires i <= |vs|
    ensures forall e | e in Survivors(vs, i) :: e in vs[..i]
    ensures forall a, b | 0 <= a < b < |Survivors(vs, i)| ::
              !SameAttributes(Survivors(vs, i)[a], Survivors(vs, i)[b])
  {
    if i > 0 {
      SurvivorsOfPrefixAreDistinct(vs, i - 1);
      var p := Survivors(vs, i - 1);
      var s := Survivors(vs, i);
      assert vs[..i] == vs[..i - 1] + [vs[i - 1]];
      if First(vs, i - 1) == i - 1 {
        assert s == p + [vs[i - 1]];
        forall a, b | 0 <= a < b < |s|
          ensures !SameAttributes(s[a], s[b])
        {
          if b == |p| {
            assert s[a] == p[a] && p[a] in p && s[b] == vs[i - 1];
            assert p[a] in vs[..i - 1];
            var k :| 0 <= k < i - 1 && vs[..i - 1][k] == p[a];
            assert vs[k] == p[a] && !SameAttributes(vs[k], vs[i - 1]);
          } else {
            assert s[a] == p[a] && s[b] == p[b];
          }
        }
      } else {
        assert s == p;
      }
      forall e | e in s
        ensures e in vs[..i]
      {
        if e in p {
          assert e in vs[..i - 1];
          var k :| 0 <= k < i - 1 && vs[..i - 1][k] == e;
          assert vs[..i][k] == e;
        } else {
          assert e == vs[i - 1] == vs[..i][i - 1];
        }
      }
    }
  }

  /** The survivors are pairwise different under the weld comparison. */
  lemma SurvivorsAreDistinct(vs: seq<Vertex>)
    ensures var s := Survivors(vs, |vs|);
            forall a, b | 0 <= a < b < |s| :: !SameAttributes(s[a], s[b])
  {
    SurvivorsOfPrefixAreDistinct(vs, |vs|);
  }

  /** The distinct attribute triples of the first `i` vertices. */
  ghost function Triples(vs: seq<Vertex>, i: nat): set<(Vec3, Vec3, Vec2)>
    requires i <= |vs|
  {
    set k | 0 <= k < i :: Attributes(vs[k])
  }

  /** There are as many survivors as distinct attribute triples. */
  lemma {:induction false} SurvivorsCountTriples(vs: seq<Vertex>, i: nat)
    requires i <= |vs|
    ensures |Survivors(vs, i)| == |Triples(vs, i)|
  {
    if i > 0 {
      SurvivorsCountTriples(vs, i - 1);
      TriplesStep(vs, i);
    }
  }

  /** Vertex `i - 1` brings a new triple exactly when it is a first occurrence, and then it survives. */
  lemma TriplesStep(vs: seq<Vertex>, i: nat)
    requires 0 < i <= |vs|
    ensures |Triples(vs, i)| - |Triples(vs, i - 1)| == |Survivors(vs, i)| - |Survivors(vs, i - 1)|
  {
    var t := Attributes(vs[i - 1]);
    assert Triples(vs, i) == Triples(vs, i - 1) + {t};
    var f := First(vs, i - 1);
    SameAttributesIsEquality(vs[f], vs[i - 1]);
    if f == i - 1 {
      forall k | 0 <= k < i - 1
        ensures Attributes(vs[k]) != t
      {
        SameAttributesIsEquality(vs[k], vs[i - 1]);
      }
      assert t !in Triples(vs, i - 1);
    } else {
      assert Attributes(vs[f]) == t && f < i - 1;
      assert t in Triples(vs, i - 1);
    }
  }

  /** Without duplicate triples every vertex survives, at its own index. */
  lemma {:induction false} NoDuplicatesSurvive(vs: seq<Vertex>, i: nat)
    requires i <= |vs|
    requires forall a, b | 0 <= a < b < |vs| :: !SameAttributes(vs[a], vs[b])
    ensures Survivors(vs, i) == vs[..i]
    ensures forall j | 0 <= j < i :: Rank(vs, j) == j
  {
    if i > 0 {
      NoDuplicatesSurvive(vs, i - 1);
      var f := First(vs, i - 1);
      assert f == i - 1;
      assert vs[..i] == vs[..i - 1] + [vs[i - 1]];
    }
  }

  /**
   * `WeldMesh`. A remap table first sends every vertex to its first occurrence (a vertex
   * already sent elsewhere is not compared again); the survivors are then copied out in order
   * and each table entry is replaced by the survivor's new position.
   */
  method WeldMesh(vertices: array<Vertex>) returns (unique: array<Vertex>, indices: array<nat>)
    ensures fresh(unique) && fresh(indices)
    ensures indices.Length == vertices.Length
    ensures unique[..] == Survivors(vertices[..], vertices.Length)
    ensures forall k | 0 <= k < indices.Length :: indices[k] == Rank(vertices[..], k) < unique.Length
    ensures forall k | 0 <= k < indices.Length :: SameAttributes(unique[indices[k]], vertices[k])
  {
    ghost var vs := vertices[..];
    var n := vertices.Length;
    ghost var first, rank, counts, survivors := FirstTable(vs), RankTable(vs), CountTable(vs), Survivors(vs, n);
    CompactionTables(vs, first, rank, counts);
    RanksMatch(vs, rank, survivors);
    var uniqueCount;
    indices, uniqueCount := BuildRemapTable(vertices);
    unique := new Vertex[uniqueCount];
    CompactSurvivors(vertices, indices, unique, first, rank, counts, survivors);
  }

  /** The rank of every vertex names a survivor with its attributes. */
  lemma RanksMatch(vs: seq<Vertex>, rank: seq<nat>, survivors: seq<Vertex>)
    requires rank == RankTable(vs) && survivors == Survivors(vs, |vs|)
    ensures forall k | 0 <= k < |vs| :: rank[k] < |survivors| && SameAttributes(survivors[rank[k]], vs[k])
  {
    forall k | 0 <= k < |vs|
      ensures rank[k] < |survivors| && SameAttributes(survivors[rank[k]], vs[k])
    {
      RankedSurvivorMatches(vs, k);
    }
  }

  /**
   * The second half of `WeldMesh`, over the table left by the first half: a vertex that is its
   * own first occurrence is copied to the next free slot and its entry becomes that slot; a
   * duplicate's entry becomes the slot given to its first occurrence, which comes earlier.
   * `counts[i]` is the number of first occurrences below `i`.
   */
  method CompactSurvivors(vertices: array<Vertex>, indices: array<nat>, unique: array<Vertex>,
                          ghost first: seq<nat>, ghost rank: seq<nat>, ghost counts: seq<nat>,
                          ghost survivors: seq<Vertex>)
    requires unique != vertices
    requires indices.Length == |first| == |rank| == vertices.Length && |counts| == vertices.Length + 1
    requires counts[0] == 0 && unique.Length == counts[vertices.Length] == |survivors|
    requires forall i | 0 <= i < |counts| :: counts[i] <= |survivors|
    requires forall k | 0 <= k < indices.Length :: indices[k] == first[k]
    requires forall i {:trigger first[i]} | 0 <= i < |first| && first[i] == i ::
               rank[i] == counts[i] && counts[i + 1] == counts[i] + 1
               && counts[i] < |survivors| && survivors[counts[i]] == vertices[i]
    requires forall i {:trigger first[i]} | 0 <= i < |first| && first[i] != i ::
               first[i] < i && rank[i] == rank[first[i]] && counts[i + 1] == counts[i]
    modifies indices, unique
    ensures unique[..] == survivors
    ensures forall k | 0 <= k < indices.Length :: indices[k] == rank[k]
  {
    var vertexIndex := 0;
    for i := 0 to vertices.Length
      invariant vertexIndex == counts[i] <= unique.Length
      invariant forall k | 0 <= k < vertexIndex :: unique[k] == survivors[k]
      invariant forall k | 0 <= k < i :: indices[k] == rank[k]
      invariant forall k | i <= k < indices.Length :: indices[k] == first[k]
    {
      if indices[i] == i {
        unique[vertexIndex] := vertices[i];
        indices[i] := vertexIndex;
        vertexIndex := vertexIndex + 1;
      } else {
        indices[i] := indices[indices[i]];
      }
    }
    // `Assert (vertex_index == result.unique_vertex_count)`
    assert vertexIndex == unique.Length;
    assert unique[..] == survivors;
  }

  /** The first occurrence of every vertex. */
  function FirstTable(vs: seq<Vertex>): (t: seq<nat>)
    ensures |t| == |vs| && forall k | 0 <= k < |vs| :: t[k] == First(vs, k)
  {
    seq(|vs|, k requires 0 <= k < |vs| => First(vs, k))
  }

  /** The rank of every vertex. */
  function RankTable(vs: seq<Vertex>): (t: seq<nat>)
    ensures |t| == |vs| && forall k | 0 <= k < |vs| :: t[k] == Rank(vs, k)
  {
    seq(|vs|, k requires 0 <= k < |vs| => Rank(vs, k))
  }

  /** The number of survivors among the first `k` vertices, for every `k` up to `|vs|`. */
  function CountTable(vs: seq<Vertex>): (t: seq<nat>)
    ensures |t| == |vs| + 1 && forall k | 0 <= k <= |vs| :: t[k] == |Survivors(vs, k)|
  {
    seq(|vs| + 1, k requires 0 <= k <= |vs| => |Survivors(vs, k)|)
  }

  /** The tables meet what the compaction loop needs. */
  lemma CompactionTables(vs: seq<Vertex>, first: seq<nat>, rank: seq<nat>, counts: seq<nat>)
    requires first == FirstTable(vs) && rank == RankTable(vs) && counts == CountTable(vs)
    ensures counts[0] == 0 && counts[|vs|] == |Survivors(vs, |vs|)|
    ensures forall i | 0 <= i < |counts| :: counts[i] <= |Survivors(vs, |vs|)|
    ensures forall i {:trigger first[i]} | 0 <= i < |first| && first[i] == i ::
              rank[i] == counts[i] && counts[i + 1] == counts[i] + 1
              && counts[i] < |Survivors(vs, |vs|)| && Survivors(vs, |vs|)[counts[i]] == vs[i]
    ensures forall i {:trigger first[i]} | 0 <= i < |first| && first[i] != i ::
              first[i] < i && rank[i] == rank[first[i]] && counts[i + 1] == counts[i]
  {
    forall i | 0 <= i < |counts|
      ensures counts[i] <= |Survivors(vs, |vs|)|
    {
      SurvivorsGrow(vs, i, |vs|);
    }
    forall i {:trigger first[i]} | 0 <= i < |first| && first[i] == i
      ensures rank[i] == counts[i] && counts[i + 1] == counts[i] + 1
              && counts[i] < |Survivors(vs, |vs|)| && Survivors(vs, |vs|)[counts[i]] == vs[i]
    {
      CompactionStep(vs, i);
    }
    forall i {:trigger first[i]} | 0 <= i < |first| && first[i] != i
      ensures first[i] < i && rank[i] == rank[first[i]] && counts[i + 1] == counts[i]
    {
      CompactionStep(vs, i);
    }
  }

  /** What one turn of the compaction loop relies on, for a first occurrence and for a duplicate. */
  lemma CompactionStep(vs: seq<Vertex>, i: nat)
    requires i < |vs|
    ensures First(vs, i) == i ==>
              && Rank(vs, i) == |Survivors(vs, i)| < |Survivors(vs, |vs|)|
              && |Survivors(vs, i + 1)| == |Survivors(vs, i)| + 1
              && Survivors(vs, |vs|)[|Survivors(vs, i)|] == vs[i]
    ensures First(vs, i) != i ==>
              && First(vs, i) < i && Rank(vs, i) == Rank(vs, First(vs, i))
              && |Survivors(vs, i + 1)| == |Survivors(vs, i)|
  {
    if First(vs, i) == i {
      SurvivorAtRank(vs, i);
    } else {
      FirstIsShared(vs, First(vs, i), i);
    }
  }

  /**
   * The first half of `WeldMesh`: the identity table, then every vertex that has not been sent
   * elsewhere sends the later vertices equal to it to itself; `uniqueCount` starts at the
   * vertex count and drops by one per vertex sent.
   */
  method BuildRemapTable(vertices: array<Vertex>) returns (remap: array<nat>, uniqueCount: nat)
    ensures fresh(remap) && remap.Length == vertices.Length
    ensures forall k | 0 <= k < remap.Length :: remap[k] == First(vertices[..], k)
    ensures uniqueCount == |Survivors(vertices[..], vertices.Length)|
  {
    ghost var vs := vertices[..];
    ghost var first := FirstTable(vs);
    FirstTableFacts(vs, first);
    var n := vertices.Length;
    remap := new nat[n];
    for i := 0 to n
      invariant forall k | 0 <= k < i :: remap[k] == k
    {
      remap[i] := i;
    }

    var count := n;
    ghost var merged: set<nat> := {};
    for i := 0 to n
      invariant forall k | 0 <= k < n :: remap[k] == if first[k] < i then first[k] else k
      invariant forall k: nat :: k in merged <==> k < n && first[k] != k && first[k] < i
      invariant count == n - |merged|
    {
      if remap[i] != i {
        continue;
      }
      count, merged := MergeDuplicatesOf(vertices, remap, i, count, first, merged);
    }
    assert merged == Duplicates(vs, n);
    SurvivorsAndDuplicates(vs, n);
    uniqueCount := count;
  }

  /** What the first half relies on about first occurrences. */
  lemma FirstTableFacts(vs: seq<Vertex>, first: seq<nat>)
    requires first == FirstTable(vs)
    ensures forall k | 0 <= k < |vs| :: first[k] <= k
    ensures forall i, j | 0 <= i < j < |vs| && first[i] == i :: SameAttributes(vs[i], vs[j]) <==> first[j] == i
    ensures forall i, k | 0 <= i < |vs| && 0 <= k < |vs| && first[i] != i :: first[k] != i
  {
    forall i, j | 0 <= i < j < |vs| && first[i] == i
      ensures SameAttributes(vs[i], vs[j]) <==> first[j] == i
    {
      if SameAttributes(vs[i], vs[j]) {
        FirstIsShared(vs, i, j);
      }
    }
    forall i, k | 0 <= i < |vs| && 0 <= k < |vs| && first[i] != i
      ensures first[k] != i
    {
      if first[k] == i {
        FirstIsShared(vs, i, k);
      }
    }
  }

  /**
   * The inner loop of the first half: survivor `i` claims every later vertex equal to it.
   * `first` is the table of first occurrences; `merged` holds the vertices sent elsewhere so far.
   */
  method MergeDuplicatesOf(vertices: array<Vertex>, remap: array<nat>, i: nat, count: int,
                           ghost first: seq<nat>, ghost merged: set<nat>)
    returns (newCount: int, ghost newMerged: set<nat>)
    requires remap.Length == vertices.Length == |first| && i < vertices.Length && first[i] == i
    requires forall a, b | 0 <= a < b < |first| && first[a] == a ::
               SameAttributes(vertices[a], vertices[b]) <==> first[b] == a
    requires forall k | 0 <= k < |first| :: first[k] <= k
    requires forall k | 0 <= k < remap.Length :: remap[k] == if first[k] < i then first[k] else k
    requires forall k: nat :: k in merged <==> k < |first| && first[k] != k && first[k] < i
    requires count == |first| - |merged|
    modifies remap
    ensures forall k | 0 <= k < remap.Length :: remap[k] == if first[k] < i + 1 then first[k] else k
    ensures forall k: nat :: k in newMerged <==> k < |first| && first[k] != k && first[k] < i + 1
    ensures newCount == |first| - |newMerged|
  {
    var n := vertices.Length;
    newCount, newMerged := count, merged;
    for j := i + 1 to n
      invariant forall k | 0 <= k < n ::
                  remap[k] == if first[k] < i || (first[k] == i && k < j) then first[k] else k
      invariant forall k: nat :: k in newMerged <==>
                  k < n && first[k] != k && (first[k] < i || (first[k] == i && k < j))
      invariant newCount == n - |newMerged|
    {
      if SameAttributes(vertices[i], vertices[j]) {
        remap[j] := i;
        newMerged := newMerged + {j};
        newCount := newCount - 1;
      }
    }
  }
}
