/** Mesh composition and the manifold test of `backend/src/lib/glb.ts`.  A
    `Float32Array` is a sequence of reals; a `Uint16Array` is a sequence of naturals
    whose writes wrap at 65536. */
module Glb {
  import opened Wrappers

  const UINT16 := 65536

  datatype MeshData = MeshData(positions: seq<real>, indices: seq<nat>)

  function Vertices(m: MeshData): nat {
    |m.positions| / 3
  }

  /** Vertices are triples, indices come in triangles and point at the mesh's own vertices. */
  ghost predicate TriangleMesh(m: MeshData) {
    && |m.positions| % 3 == 0
    && |m.indices| % 3 == 0
    && forall i :: 0 <= i < |m.indices| ==> m.indices[i] < Vertices(m)
  }

  // ---- translateMesh ----------------------------------------------------------

  function Translated(p: seq<real>, d: (real, real, real)): seq<real> {
    seq(|p|, i requires 0 <= i < |p| => p[i] + if i % 3 == 0 then d.0 else if i % 3 == 1 then d.1 else d.2)
  }

  /** Reads past the end are undefined and writes past the end of a typed array do nothing. */
  method TranslateMesh(mesh: MeshData, dx: real, dy: real, dz: real) returns (moved: MeshData)
    ensures moved == MeshData(Translated(mesh.positions, (dx, dy, dz)), mesh.indices)
  {
    var n := |mesh.positions|;
    var out := new real[n];
    ghost var all := Translated(mesh.positions, (dx, dy, dz));
    var i := 0;
    while i < n
      invariant i % 3 == 0
      invariant forall k | 0 <= k < n && k < i :: out[k] == all[k]
    {
      out[i] := mesh.positions[i] + dx;
      if i + 1 < n {
        out[i + 1] := mesh.positions[i + 1] + dy;
      }
      if i + 2 < n {
        out[i + 2] := mesh.positions[i + 2] + dz;
      }
      i := i + 3;
    }
    assert out[..] == all;
    moved := MeshData(out[..], mesh.indices);
  }

  /** Vertex `v` moves by `d`. */
  lemma TranslatedAt(p: seq<real>, d: (real, real, real), v: nat)
    requires 3 * v + 2 < |p|
    ensures |Translated(p, d)| == |p|
    ensures Translated(p, d)[3 * v..3 * v + 3] == [p[3 * v] + d.0, p[3 * v + 1] + d.1, p[3 * v + 2] + d.2]
  {
  }

  // ---- mergeMeshes --------------------------------------------------------------

  function TotalVertices(ms: seq<MeshData>): nat {
    if ms == [] then 0 else TotalVertices(ms[..|ms| - 1]) + Vertices(ms[|ms| - 1])
  }

  function TotalFloats(ms: seq<MeshData>): nat {
    if ms == [] then 0 else TotalFloats(ms[..|ms| - 1]) + |ms[|ms| - 1].positions|
  }

  function TotalIndices(ms: seq<MeshData>): nat {
    if ms == [] then 0 else TotalIndices(ms[..|ms| - 1]) + |ms[|ms| - 1].indices|
  }

  function MergedPositions(ms: seq<MeshData>): seq<real> {
    if ms == [] then [] else MergedPositions(ms[..|ms| - 1]) + ms[|ms| - 1].positions
  }

  /** `ix` moved up by `k` vertices, as a `Uint16Array` stores it. */
  function Wrapped(ix: seq<nat>, k: nat): seq<nat> {
    seq(|ix|, i requires 0 <= i < |ix| => (ix[i] + k) % UINT16)
  }

  function MergedIndices(ms: seq<MeshData>): seq<nat> {
    if ms == [] then []
    else MergedIndices(ms[..|ms| - 1]) + Wrapped(ms[|ms| - 1].indices, TotalFloats(ms[..|ms| - 1]) / 3)
  }

  lemma {:induction false} MergedSizes(ms: seq<MeshData>)
    ensures |MergedPositions(ms)| == TotalFloats(ms) && |MergedIndices(ms)| == TotalIndices(ms)
  {
    if ms != [] { MergedSizes(ms[..|ms| - 1]); }
  }

  /** Of whole vertices there are a third as many as coordinates. */
  lemma {:induction false} WholeVertices(ms: seq<MeshData>)
    requires forall m :: m in ms ==> |m.positions| % 3 == 0
    ensures TotalFloats(ms) == 3 * TotalVertices(ms)
  {
    if ms != [] {
      WholeVertices(ms[..|ms| - 1]);
      assert ms[|ms| - 1] in ms;
    }
  }

  lemma {:induction false} FloatsGrow(ms: seq<MeshData>, k: nat)
    requires k <= |ms|
    ensures TotalFloats(ms[..k]) <= TotalFloats(ms) && TotalIndices(ms[..k]) <= TotalIndices(ms)
  {
    if k < |ms| {
      FloatsGrow(ms[..|ms| - 1], k);
      assert ms[..|ms| - 1][..k] == ms[..k];
    } else {
      assert ms[..k] == ms;
    }
  }

  lemma {:induction false} TotalsGrow(ms: seq<MeshData>, k: nat)
    requires k <= |ms|
    ensures TotalVertices(ms[..k]) <= TotalVertices(ms)
  {
    if k < |ms| {
      TotalsGrow(ms[..|ms| - 1], k);
      assert ms[..|ms| - 1][..k] == ms[..k];
    } else {
      assert ms[..k] == ms;
    }
  }

  /** `TypedArray.prototype.set`: overwrite `dst` from `at` on. */
  method SetFrom(dst: array<real>, src: seq<real>, at: nat)
    requires at + |src| <= dst.Length
    modifies dst
    ensures dst[..] == old(dst[..at]) + src + old(dst[at + |src|..])
  {
    forall i | 0 <= i < |src| { dst[at + i] := src[i]; }
  }

  /** `n` coordinates, as a count of vertices that need not be whole. */
  function VerticesOf(n: nat): real {
    n as real / 3.0
  }

  lemma WholePart(k: nat, n: nat)
    ensures (k as real + VerticesOf(n)).Floor == k + n / 3
    ensures (VerticesOf(n) * 3.0).Floor == n
  {
    assert n == 3 * (n / 3) + n % 3;
    assert VerticesOf(n) == (n / 3) as real + (n % 3) as real / 3.0;
  }

  /** The inner loop of the merge: `src`, moved up by `vOff`, goes to `dst` from `at` on; a
      `Uint16Array` drops the fraction and wraps. */
  method OffsetInto(dst: array<nat>, src: seq<nat>, at: nat, vOff: real, ghost floats: nat)
    requires at + |src| <= dst.Length && vOff == VerticesOf(floats)
    modifies dst
    ensures dst[..] == old(dst[..at]) + Wrapped(src, floats / 3) + old(dst[at + |src|..])
  {
    for i := 0 to |src|
      invariant forall k | 0 <= k < dst.Length ::
          dst[k] == if at <= k < at + i then Wrapped(src, floats / 3)[k - at] else old(dst[k])
    {
      WholePart(src[i], floats);
      dst[at + i] := (src[i] as real + vOff).Floor % UINT16;
    }
  }

  /** The first loop of the merge: the sizes of the merged arrays. */
  method TotalSizes(meshes: seq<MeshData>) returns (totalVerts: real, totalIndices: nat)
    ensures totalVerts == VerticesOf(TotalFloats(meshes)) && totalIndices == TotalIndices(meshes)
  {
    totalVerts, totalIndices := 0.0, 0;
    for k := 0 to |meshes|
      invariant totalVerts == VerticesOf(TotalFloats(meshes[..k])) && totalIndices == TotalIndices(meshes[..k])
    {
      assert meshes[..k + 1][..k] == meshes[..k];
      totalVerts := totalVerts + |meshes[k].positions| as real / 3.0;
      totalIndices := totalIndices + |meshes[k].indices|;
    }
    assert meshes[..|meshes|] == meshes;
  }

  /** One part goes behind those already merged. */
  method AppendPart(positions: array<real>, indices: array<nat>, m: MeshData, vOff: real, iOff: nat, ghost floats: nat)
    requires vOff == VerticesOf(floats)
    requires floats + |m.positions| <= positions.Length && iOff + |m.indices| <= indices.Length
    modifies positions, indices
    ensures positions[..floats + |m.positions|] == old(positions[..floats]) + m.positions
    ensures indices[..iOff + |m.indices|] == old(indices[..iOff]) + Wrapped(m.indices, floats / 3)
  {
    WholePart(0, floats);
    SetFrom(positions, m.positions, (vOff * 3.0).Floor);
    OffsetInto(indices, m.indices, iOff, vOff, floats);
  }

  method MergeMeshes(meshes: seq<MeshData>) returns (merged: MeshData)
    ensures merged == MeshData(MergedPositions(meshes), MergedIndices(meshes))
  {
    var totalVerts, totalIndices := TotalSizes(meshes);
    WholePart(0, TotalFloats(meshes));
    var positions := new real[(totalVerts * 3.0).Floor];
    var indices := new nat[totalIndices];
    var vOff, iOff := 0.0, 0;
    for k := 0 to |meshes|
      invariant vOff == VerticesOf(TotalFloats(meshes[..k])) && TotalFloats(meshes[..k]) <= positions.Length
      invariant iOff == TotalIndices(meshes[..k]) <= totalIndices
      invariant positions[..TotalFloats(meshes[..k])] == MergedPositions(meshes[..k])
      invariant indices[..iOff] == MergedIndices(meshes[..k])
    {
      var m := meshes[k];
      assert meshes[..k + 1][..k] == meshes[..k];
      FloatsGrow(meshes, k + 1);
      AppendPart(positions, indices, m, vOff, iOff, TotalFloats(meshes[..k]));
      vOff := vOff + |m.positions| as real / 3.0;
      iOff := iOff + |m.indices|;
    }
    assert meshes[..|meshes|] == meshes;
    MergedSizes(meshes);
    merged := MeshData(positions[..], indices[..]);
  }

  // ---- isManifold -----------------------------------------------------------------

  type Edge = (nat, nat)

  function EdgeKey(a: nat, b: nat): Edge {
    if a < b then (a, b) else (b, a)
  }

  function Corners(i0: nat, i1: nat, i2: nat): seq<Edge> {
    [EdgeKey(i0, i1), EdgeKey(i1, i2), EdgeKey(i2, i0)]
  }

  /** The sides of the triangles, three a triangle. */
  function Edges(ix: seq<nat>): (es: seq<Edge>)
    requires |ix| % 3 == 0
    ensures |es| == |ix|
  {
    var n := |ix| - 3;
    if ix == [] then []
    else Edges(ix[..n]) + Corners(ix[n], ix[n + 1], ix[n + 2])
  }

  /** How often `e` occurs in `es`. */
  function CountOf<T(==)>(es: seq<T>, e: T): nat {
    if es == [] then 0 else CountOf(es[..|es| - 1], e) + if es[|es| - 1] == e then 1 else 0
  }

  /** The number of triangle sides of `ix` that are the edge `e`. */
  function Sides(ix: seq<nat>, e: Edge): nat
    requires |ix| % 3 == 0
  {
    CountOf(Edges(ix), e)
  }

  /** Every edge is on exactly two triangle sides. */
  ghost predicate Manifold(ix: seq<nat>)
    requires |ix| % 3 == 0
  {
    forall e :: Sides(ix, e) > 0 ==> Sides(ix, e) == 2
  }

  lemma {:induction false} CountConcat<T>(a: seq<T>, b: seq<T>, e: T)
    ensures CountOf(a + b, e) == CountOf(a, e) + CountOf(b, e)
  {
    if b == [] {
      assert a + b == a;
    } else {
      var n := |b| - 1;
      CountConcat(a, b[..n], e);
      assert (a + b)[..|a| + n] == a + b[..n];
    }
  }

  /** An edge as the counting map names it; an index past the end is undefined. */
  datatype EdgeName = EdgeName(a: Option<nat>, b: Option<nat>)

  function NameOf(a: Option<nat>, b: Option<nat>): EdgeName {
    if a.Some? && b.Some? && a.value < b.value then EdgeName(a, b) else EdgeName(b, a)
  }

  function IndexAt(ix: seq<nat>, i: nat): Option<nat> {
    if i < |ix| then Some(ix[i]) else None
  }

  function NamesAt(ix: seq<nat>, t: nat): seq<EdgeName> {
    var i0, i1, i2 := IndexAt(ix, t), IndexAt(ix, t + 1), IndexAt(ix, t + 2);
    [NameOf(i0, i1), NameOf(i1, i2), NameOf(i2, i0)]
  }

  /** The names of the first `n` triangles' sides. */
  function Names(ix: seq<nat>, n: nat): seq<EdgeName> {
    if n == 0 then [] else Names(ix, n - 1) + NamesAt(ix, 3 * n - 3)
  }

  /** The triangles the loop visits, the last one perhaps cut short. */
  function Visited(ix: seq<nat>): nat {
    (|ix| + 2) / 3
  }

  /** The counting map of `isManifold`, for the sides `es`. */
  ghost predicate Counts(count: map<EdgeName, nat>, es: seq<EdgeName>) {
    forall e :: CountOf(es, e) == if e in count then count[e] else 0
  }

  ghost predicate NoZero(count: map<EdgeName, nat>) {
    forall e :: e in count ==> count[e] > 0
  }

  lemma {:induction false} CountsStep(count: map<EdgeName, nat>, es: seq<EdgeName>, e: EdgeName)
    requires Counts(count, es)
    ensures Counts(count[e := (if e in count then count[e] else 0) + 1], es + [e])
  {
    forall x ensures CountOf(es + [e], x) == CountOf(es, x) + if e == x then 1 else 0 {
      assert (es + [e])[..|es|] == es;
    }
  }

  /** The first loop of the test: count every side of every triangle. */
  method CountSides(indices: seq<nat>) returns (edgeCount: map<EdgeName, nat>)
    ensures Counts(edgeCount, Names(indices, Visited(indices))) && NoZero(edgeCount)
  {
    edgeCount := map[];
    var t, n := 0, 0;
    while t < |indices|
      invariant t == 3 * n && n <= Visited(indices)
      invariant Counts(edgeCount, Names(indices, n)) && NoZero(edgeCount)
      decreases Visited(indices) - n
    {
      edgeCount := CountTriangle(edgeCount, indices, t, Names(indices, n));
      t, n := t + 3, n + 1;
    }
  }

  /** The inner loop: the three sides of one triangle. */
  method CountTriangle(count: map<EdgeName, nat>, indices: seq<nat>, t: nat, ghost before: seq<EdgeName>)
    returns (edgeCount: map<EdgeName, nat>)
    requires Counts(count, before) && NoZero(count)
    ensures Counts(edgeCount, before + NamesAt(indices, t)) && NoZero(edgeCount)
  {
    edgeCount := count;
    var i0, i1, i2 := IndexAt(indices, t), IndexAt(indices, t + 1), IndexAt(indices, t + 2);
    var pairs := [(i0, i1), (i1, i2), (i2, i0)];
    ghost var sides := NamesAt(indices, t);
    assert before + sides[..0] == before;
    for c := 0 to 3
      invariant Counts(edgeCount, before + sides[..c]) && NoZero(edgeCount)
    {
      var (a, b) := pairs[c];
      var key := if a.Some? && b.Some? && a.value < b.value then EdgeName(a, b) else EdgeName(b, a);
      CountsStep(edgeCount, before + sides[..c], key);
      assert before + sides[..c + 1] == before + sides[..c] + [key];
      edgeCount := edgeCount[key := (if key in edgeCount then edgeCount[key] else 0) + 1];
    }
    assert sides[..3] == sides;
  }

  /** Every name that occurs occurs twice. */
  ghost predicate Paired(es: seq<EdgeName>) {
    forall e :: CountOf(es, e) > 0 ==> CountOf(es, e) == 2
  }

  /** True exactly for whole triangles that put every edge on two sides. */
  method IsManifold(indices: seq<nat>) returns (manifold: bool)
    ensures manifold <==> |indices| % 3 == 0 && Manifold(indices)
  {
    var edgeCount := CountSides(indices);
    PairedIff(indices);
    var todo := edgeCount.Keys;
    while todo != {}
      invariant todo <= edgeCount.Keys
      invariant forall e :: e in edgeCount && e !in todo ==> edgeCount[e] == 2
    {
      var e :| e in todo;
      if edgeCount[e] != 2 {
        assert CountOf(Names(indices, Visited(indices)), e) == edgeCount[e];
        return false;
      }
      todo := todo - {e};
    }
    return true;
  }

  // ---- names are edges, and a triangle cut short is on its own -----------------------------------

  function Named(e: Edge): EdgeName {
    EdgeName(Some(e.0), Some(e.1))
  }

  function NamedAll(es: seq<Edge>): (r: seq<EdgeName>)
    ensures |r| == |es|
  {
    if es == [] then [] else NamedAll(es[..|es| - 1]) + [Named(es[|es| - 1])]
  }

  lemma {:induction false} NamedConcat(a: seq<Edge>, b: seq<Edge>)
    ensures NamedAll(a + b) == NamedAll(a) + NamedAll(b)
  {
    if b == [] {
      assert a + b == a;
    } else {
      var n := |b| - 1;
      NamedConcat(a, b[..n]);
      assert (a + b)[..|a| + n] == a + b[..n];
    }
  }

  lemma {:induction false} NamedCount(es: seq<Edge>, e: Edge)
    ensures CountOf(NamedAll(es), Named(e)) == CountOf(es, e)
  {
    if es != [] {
      NamedCount(es[..|es| - 1], e);
      assert NamedAll(es)[..|es| - 1] == NamedAll(es[..|es| - 1]);
    }
  }

  lemma {:induction false} OnlyEdgesNamed(es: seq<Edge>, e: EdgeName)
    requires CountOf(NamedAll(es), e) > 0
    ensures e.a.Some? && e.b.Some?
  {
    if es != [] {
      assert NamedAll(es)[..|es| - 1] == NamedAll(es[..|es| - 1]);
      if NamedAll(es)[|es| - 1] != e {
        OnlyEdgesNamed(es[..|es| - 1], e);
      }
    }
  }

  lemma NamedCorners(i0: nat, i1: nat, i2: nat)
    ensures NamedAll(Corners(i0, i1, i2))
         == [NameOf(Some(i0), Some(i1)), NameOf(Some(i1), Some(i2)), NameOf(Some(i2), Some(i0))]
  {
    var es := Corners(i0, i1, i2);
    assert es[..2] == [es[0], es[1]] && es[..2][..1] == [es[0]];
    assert NamedAll([es[0]]) == [Named(es[0])];
    assert NamedAll([es[0], es[1]]) == [Named(es[0]), Named(es[1])];
  }

  /** Whole triangles are named as their edges. */
  lemma {:induction false} WholeNames(ix: seq<nat>, n: nat)
    requires 3 * n <= |ix|
    ensures Names(ix, n) == NamedAll(Edges(ix[..3 * n]))
  {
    if n > 0 {
      var t := 3 * n - 3;
      WholeNames(ix, n - 1);
      assert ix[..3 * n][..t] == ix[..t];
      NamedConcat(Edges(ix[..t]), Corners(ix[t], ix[t + 1], ix[t + 2]));
      NamedCorners(ix[t], ix[t + 1], ix[t + 2]);
    }
  }

  /** A triangle cut short has one side from its first index to nowhere. */
  lemma CutShort(x: nat, y: Option<nat>, e: EdgeName)
    requires e == EdgeName(Some(x), None)
    ensures CountOf([NameOf(Some(x), y), NameOf(y, None), NameOf(None, Some(x))], e) == 1
  {
    CountThree(NameOf(Some(x), y), NameOf(y, None), NameOf(None, Some(x)), e);
  }

  lemma NoneToNowhere(es: seq<Edge>, e: EdgeName)
    requires e.b.None?
    ensures CountOf(NamedAll(es), e) == 0
  {
    if CountOf(NamedAll(es), e) > 0 {
      OnlyEdgesNamed(es, e);
    }
  }

  /** An index list that is not whole triangles has a side that is counted once. */
  lemma RaggedIsUnpaired(ix: seq<nat>, n: nat)
    requires |ix| % 3 != 0 && n == |ix| / 3
    ensures Visited(ix) == n + 1 && !Paired(Names(ix, n + 1))
  {
    var x, y := ix[3 * n], IndexAt(ix, 3 * n + 1);
    var e := EdgeName(Some(x), None);
    WholeNames(ix, n);
    NoneToNowhere(Edges(ix[..3 * n]), e);
    CutShort(x, y, e);
    CountConcat(Names(ix, n), NamesAt(ix, 3 * n), e);
    assert CountOf(Names(ix, n + 1), e) == 1;
  }

  lemma NamesPaired(ix: seq<nat>)
    requires |ix| % 3 == 0 && Manifold(ix)
    ensures Paired(NamedAll(Edges(ix)))
  {
    var es := Edges(ix);
    forall e | CountOf(NamedAll(es), e) > 0 ensures CountOf(NamedAll(es), e) == 2 {
      OnlyEdgesNamed(es, e);
      var edge := (e.a.value, e.b.value);
      NamedCount(es, edge);
      assert Sides(ix, edge) > 0;
    }
  }

  lemma PairedEdge(es: seq<Edge>, names: seq<EdgeName>, e: Edge)
    requires names == NamedAll(es) && Paired(names) && CountOf(es, e) > 0
    ensures CountOf(es, e) == 2
  {
    NamedCount(es, e);
  }

  lemma PairedIff(ix: seq<nat>)
    ensures Paired(Names(ix, Visited(ix))) <==> |ix| % 3 == 0 && Manifold(ix)
  {
    if |ix| % 3 != 0 {
      RaggedIsUnpaired(ix, |ix| / 3);
    } else {
      WholeNames(ix, Visited(ix));
      assert ix[..3 * Visited(ix)] == ix;
      if Manifold(ix) {
        NamesPaired(ix);
      }
      if Paired(NamedAll(Edges(ix))) {
        forall e | Sides(ix, e) > 0 ensures Sides(ix, e) == 2 {
          PairedEdge(Edges(ix), NamedAll(Edges(ix)), e);
        }
      }
    }
  }

  /** The corner after `i` in its triangle. */
  function NextCorner(i: nat): nat {
    if i % 3 == 2 then i - 2 else i + 1
  }

  predicate Joins(ix: seq<nat>, i: nat, a: nat, b: nat)
    requires |ix| % 3 == 0 && i < |ix|
  {
    (ix[i] == a && ix[NextCorner(i)] == b) || (ix[i] == b && ix[NextCorner(i)] == a)
  }

  /** The corners whose triangle side to the next corner joins `a` and `b`, in either direction. */
  function SidesBetween(ix: seq<nat>, a: nat, b: nat): set<nat>
    requires |ix| % 3 == 0
  {
    set i: nat | i < |ix| && Joins(ix, i, a, b)
  }

  lemma {:induction false} SidesAre(ix: seq<nat>, a: nat, b: nat)
    requires |ix| % 3 == 0 && a <= b
    ensures Sides(ix, (a, b)) == |SidesBetween(ix, a, b)|
  {
    if ix != [] {
      var n := |ix| - 3;
      var init, x, y, z := ix[..n], ix[n], ix[n + 1], ix[n + 2];
      SidesAre(init, a, b);
      CountConcat(Edges(init), Corners(x, y, z), (a, b));
      OneTriangle(x, y, z, (a, b));
      LastSides(ix, a, b);
    } else {
      assert SidesBetween(ix, a, b) == {};
    }
  }

  lemma JoinsIff(ix: seq<nat>, i: nat, a: nat, b: nat)
    requires |ix| % 3 == 0 && i < |ix| && a <= b
    ensures Joins(ix, i, a, b) <==> EdgeKey(ix[i], ix[NextCorner(i)]) == (a, b)
  {
  }

  lemma CardWith<T>(s: set<T>, x: T, there: bool)
    requires x !in s
    ensures |s + (if there then {x} else {})| == |s| + if there then 1 else 0
  {
  }

  lemma CardWithThree(s: set<nat>, n: nat, p: bool, q: bool, r: bool)
    requires n !in s && n + 1 !in s && n + 2 !in s
    ensures |s + (if p then {n} else {}) + (if q then {n + 1} else {}) + (if r then {n + 2} else {})|
         == |s| + (if p then 1 else 0) + (if q then 1 else 0) + (if r then 1 else 0)
  {
    var s1 := s + if p then {n} else {};
    var s2 := s1 + if q then {n + 1} else {};
    CardWith(s, n, p);
    CardWith(s1, n + 1, q);
    CardWith(s2, n + 2, r);
  }

  lemma NextCorners(n: nat)
    requires n % 3 == 0
    ensures NextCorner(n) == n + 1 && NextCorner(n + 1) == n + 2 && NextCorner(n + 2) == n
  {
  }

  lemma {:induction false} SidesSplit(ix: seq<nat>, a: nat, b: nat)
    requires |ix| % 3 == 0 && ix != []
    ensures var n := |ix| - 3;
            SidesBetween(ix, a, b)
            == SidesBetween(ix[..n], a, b) + (if Joins(ix, n, a, b) then {n} else {})
               + (if Joins(ix, n + 1, a, b) then {n + 1} else {}) + (if Joins(ix, n + 2, a, b) then {n + 2} else {})
  {
    var n := |ix| - 3;
    forall i: nat | i < n ensures Joins(ix, i, a, b) <==> Joins(ix[..n], i, a, b) {
    }
  }

  lemma {:induction false} LastSides(ix: seq<nat>, a: nat, b: nat)
    requires |ix| % 3 == 0 && ix != [] && a <= b
    ensures var n := |ix| - 3;
            |SidesBetween(ix, a, b)| == |SidesBetween(ix[..n], a, b)|
              + (if EdgeKey(ix[n], ix[n + 1]) == (a, b) then 1 else 0)
              + (if EdgeKey(ix[n + 1], ix[n + 2]) == (a, b) then 1 else 0)
              + (if EdgeKey(ix[n + 2], ix[n]) == (a, b) then 1 else 0)
  {
    var n := |ix| - 3;
    SidesSplit(ix, a, b);
    CardWithThree(SidesBetween(ix[..n], a, b), n, Joins(ix, n, a, b), Joins(ix, n + 1, a, b), Joins(ix, n + 2, a, b));
    NextCorners(n);
    JoinsIff(ix, n, a, b);
    JoinsIff(ix, n + 1, a, b);
    JoinsIff(ix, n + 2, a, b);
  }

  /** In terms of the triangles alone: a mesh is manifold exactly if between the two ends of each side
      of a triangle there are two sides of triangles in all. */
  lemma ManifoldIff(ix: seq<nat>)
    requires |ix| % 3 == 0
    ensures Manifold(ix) <==> forall i: nat | i < |ix| :: |SidesBetween(ix, ix[i], ix[NextCorner(i)])| == 2
  {
    if Manifold(ix) {
      forall i: nat | i < |ix| ensures |SidesBetween(ix, ix[i], ix[NextCorner(i)])| == 2 {
        var a, b := ix[i], ix[NextCorner(i)];
        var lo, hi := if a < b then a else b, if a < b then b else a;
        SidesAre(ix, lo, hi);
        assert Joins(ix, i, a, b) && i in SidesBetween(ix, lo, hi);
        assert SidesBetween(ix, a, b) == SidesBetween(ix, lo, hi);
      }
    }
    if forall i: nat | i < |ix| :: |SidesBetween(ix, ix[i], ix[NextCorner(i)])| == 2 {
      forall e | Sides(ix, e) > 0 ensures Sides(ix, e) == 2 {
        SidesInOrder(ix, e);
        SidesAre(ix, e.0, e.1);
        assert SidesBetween(ix, e.0, e.1) != {};
        var i :| i in SidesBetween(ix, e.0, e.1);
        assert SidesBetween(ix, ix[i], ix[NextCorner(i)]) == SidesBetween(ix, e.0, e.1);
      }
    }
  }

  lemma {:induction false} SidesInOrder(ix: seq<nat>, e: Edge)
    requires |ix| % 3 == 0
    ensures Sides(ix, e) > 0 ==> e.0 <= e.1
  {
    if ix != [] {
      var n := |ix| - 3;
      SidesInOrder(ix[..n], e);
      CountConcat(Edges(ix[..n]), Corners(ix[n], ix[n + 1], ix[n + 2]), e);
      OneTriangle(ix[n], ix[n + 1], ix[n + 2], e);
    }
  }

  // ---- an accepted mesh has three edges for every two triangles ---------------------

  lemma {:induction false} PairsCard<T>(bag: multiset<T>, keys: set<T>)
    requires forall x :: x in bag <==> x in keys
    requires forall x :: x in bag ==> bag[x] == 2
    ensures |bag| == 2 * |keys|
    decreases keys
  {
    if keys == {} {
      assert bag == multiset{};
    } else {
      var x :| x in keys;
      PairsCard(bag[x := 0], keys - {x});
      assert bag == bag[x := 0] + multiset{x, x};
    }
  }

  lemma {:induction false} CountIsMultiplicity(es: seq<Edge>, e: Edge)
    ensures multiset(es)[e] == CountOf(es, e)
  {
    if es != [] {
      CountIsMultiplicity(es[..|es| - 1], e);
      assert es == es[..|es| - 1] + [es[|es| - 1]];
    }
  }

  /** Three times the triangles is twice the distinct edges. */
  lemma {:induction false} ManifoldEdgeCount(ix: seq<nat>)
    requires |ix| % 3 == 0 && Manifold(ix)
    ensures 3 * (|ix| / 3) == 2 * |set e | e in Edges(ix)|
  {
    forall e ensures multiset(Edges(ix))[e] == Sides(ix, e) { CountIsMultiplicity(Edges(ix), e); }
    PairsCard(multiset(Edges(ix)), set e | e in Edges(ix));
  }

  // ---- merging keeps the parts apart ---------------------------------------------------

  /** All the vertices of the parts have 16-bit numbers. */
  ghost predicate Fits(ms: seq<MeshData>) {
    && (forall k :: 0 <= k < |ms| ==> TriangleMesh(ms[k]))
    && TotalVertices(ms) <= UINT16
  }

  /** The vertices of part `k` start here in the merged mesh. */
  function Offset(ms: seq<MeshData>, k: nat): nat
    requires k <= |ms|
  {
    TotalVertices(ms[..k])
  }

  function Shift(e: Edge, k: nat): Edge {
    (e.0 + k, e.1 + k)
  }

  function ShiftAll(es: seq<Edge>, k: nat): seq<Edge> {
    if es == [] then [] else ShiftAll(es[..|es| - 1], k) + [Shift(es[|es| - 1], k)]
  }

  lemma Regroup<T>(a: seq<T>, b: seq<T>, c: seq<T>)
    ensures a + (b + c) == (a + b) + c
  {
  }

  lemma {:induction false} EdgesConcat(a: seq<nat>, b: seq<nat>)
    requires |a| % 3 == 0 && |b| % 3 == 0
    ensures Edges(a + b) == Edges(a) + Edges(b)
  {
    if b == [] {
      assert a + b == a;
    } else {
      var n := |b| - 3;
      var last := Corners(b[n], b[n + 1], b[n + 2]);
      EdgesConcat(a, b[..n]);
      assert (a + b)[..|a| + n] == a + b[..n];
      assert Edges(a + b) == Edges(a + b[..n]) + last;
      Regroup(Edges(a), Edges(b[..n]), last);
    }
  }

  lemma {:induction false} ShiftConcat(a: seq<Edge>, b: seq<Edge>, k: nat)
    ensures ShiftAll(a + b, k) == ShiftAll(a, k) + ShiftAll(b, k)
  {
    if b == [] {
      assert a + b == a;
    } else {
      var init, last := b[..|b| - 1], b[|b| - 1];
      ShiftConcat(a, init, k);
      assert b == init + [last] && a + b == a + init + [last];
    }
  }

  function Moved(ix: seq<nat>, k: nat): seq<nat> {
    if ix == [] then [] else Moved(ix[..|ix| - 1], k) + [ix[|ix| - 1] + k]
  }

  lemma {:induction false} WrappedIsMoved(ix: seq<nat>, k: nat)
    requires forall i :: 0 <= i < |ix| ==> ix[i] + k < UINT16
    ensures Wrapped(ix, k) == Moved(ix, k)
  {
    if ix != [] {
      var n := |ix| - 1;
      WrappedIsMoved(ix[..n], k);
      assert Wrapped(ix, k) == Wrapped(ix[..n], k) + [ix[n] + k];
    }
  }

  lemma {:induction false} MovedTriangle(ix: seq<nat>, k: nat)
    requires |ix| >= 3
    ensures var n := |ix| - 3; Moved(ix, k) == Moved(ix[..n], k) + [ix[n] + k, ix[n + 1] + k, ix[n + 2] + k]
  {
    var n := |ix| - 3;
    assert ix[..n + 2][..n + 1] == ix[..n + 1] && ix[..n + 1][..n] == ix[..n];
    assert Moved(ix[..n + 2], k) == Moved(ix[..n + 1], k) + [ix[n + 1] + k];
  }

  lemma {:induction false} EdgesMoved(ix: seq<nat>, k: nat)
    requires |ix| % 3 == 0
    ensures |Moved(ix, k)| == |ix| && Edges(Moved(ix, k)) == ShiftAll(Edges(ix), k)
  {
    if ix != [] {
      var n := |ix| - 3;
      EdgesMoved(ix[..n], k);
      MovedTriangle(ix, k);
      assert Moved(ix, k)[..n] == Moved(ix[..n], k);
      ShiftConcat(Edges(ix[..n]), Corners(ix[n], ix[n + 1], ix[n + 2]), k);
      ShiftCorners(ix[n], ix[n + 1], ix[n + 2], k);
    }
  }

  lemma {:induction false} ShiftCorners(a: nat, b: nat, c: nat, k: nat)
    ensures ShiftAll(Corners(a, b, c), k) == Corners(a + k, b + k, c + k)
  {
    var es := Corners(a, b, c);
    assert es[..2] == [es[0], es[1]] && es[..2][..1] == [es[0]];
    assert ShiftAll([es[0]], k) == [Shift(es[0], k)];
  }

  /** Shifting keeps every count. */
  lemma {:induction false} ShiftCount(es: seq<Edge>, k: nat, e: Edge)
    ensures CountOf(ShiftAll(es, k), e) == if e.0 >= k && e.1 >= k then CountOf(es, (e.0 - k, e.1 - k)) else 0
  {
    if es != [] { ShiftCount(es[..|es| - 1], k, e); }
  }

  /** The edges of a mesh join its own vertices, lower number first. */
  lemma {:induction false} SidesBounded(ix: seq<nat>, v: nat, e: Edge)
    requires |ix| % 3 == 0 && forall i :: 0 <= i < |ix| ==> ix[i] < v
    ensures Sides(ix, e) > 0 ==> e.0 <= e.1 < v
  {
    if ix != [] {
      var n := |ix| - 3;
      SidesBounded(ix[..n], v, e);
      CountConcat(Edges(ix[..n]), Corners(ix[n], ix[n + 1], ix[n + 2]), e);
      OneTriangle(ix[n], ix[n + 1], ix[n + 2], e);
    }
  }

  lemma {:induction false} OneTriangle(a: nat, b: nat, c: nat, e: Edge)
    ensures Edges([a, b, c]) == Corners(a, b, c)
    ensures CountOf(Corners(a, b, c), e)
         == (if EdgeKey(a, b) == e then 1 else 0) + (if EdgeKey(b, c) == e then 1 else 0)
            + (if EdgeKey(c, a) == e then 1 else 0)
  {
    assert [a, b, c][..0] == [];
    CountThree(EdgeKey(a, b), EdgeKey(b, c), EdgeKey(c, a), e);
  }

  lemma {:induction false} CountThree<T>(x: T, y: T, z: T, e: T)
    ensures CountOf([x, y, z], e) == (if x == e then 1 else 0) + (if y == e then 1 else 0) + (if z == e then 1 else 0)
  {
    assert [x, y, z] == [x] + [y] + [z];
    CountConcat([x] + [y], [z], e);
    CountConcat([x], [y], e);
    CountOne(x, e);
    CountOne(y, e);
    CountOne(z, e);
  }

  lemma {:induction false} CountOne<T>(x: T, e: T)
    ensures CountOf([x], e) == if x == e then 1 else 0
  {
    assert CountOf([x][..0], e) == 0;
  }

  lemma FitsWhole(ms: seq<MeshData>)
    requires Fits(ms)
    ensures TotalFloats(ms) / 3 == TotalVertices(ms)
  {
    forall m | m in ms ensures |m.positions| % 3 == 0 {
      var k :| 0 <= k < |ms| && ms[k] == m;
      assert TriangleMesh(ms[k]);
    }
    WholeVertices(ms);
  }

  /** Merged indices are whole triangles over the merged vertices. */
  lemma {:induction false} MergedBounded(ms: seq<MeshData>)
    requires Fits(ms)
    ensures var ix := MergedIndices(ms);
            |ix| % 3 == 0 && forall i :: 0 <= i < |ix| ==> ix[i] < TotalVertices(ms)
  {
    if ms != [] {
      MergedBounded(ms[..|ms| - 1]);
      FitsWhole(ms[..|ms| - 1]);
    }
  }

  /** The sides of `ix`, moved up by `k`, that are the edge `e`. */
  function SidesAbove(ix: seq<nat>, k: nat, e: Edge): nat
    requires |ix| % 3 == 0
  {
    if e.0 >= k && e.1 >= k then Sides(ix, (e.0 - k, e.1 - k)) else 0
  }

  lemma {:induction false} SidesMoved(b: seq<nat>, k: nat, e: Edge)
    requires |b| % 3 == 0
    ensures |Moved(b, k)| % 3 == 0 && Sides(Moved(b, k), e) == SidesAbove(b, k, e)
  {
    EdgesMoved(b, k);
    ShiftCount(Edges(b), k, e);
  }

  lemma {:induction false} SidesConcat(a: seq<nat>, b: seq<nat>, e: Edge)
    requires |a| % 3 == 0 && |b| % 3 == 0
    ensures Sides(a + b, e) == Sides(a, e) + Sides(b, e)
  {
    EdgesConcat(a, b);
    CountConcat(Edges(a), Edges(b), e);
  }

  lemma {:induction false} SidesAppend(a: seq<nat>, b: seq<nat>, k: nat, e: Edge)
    requires |a| % 3 == 0 && |b| % 3 == 0 && forall i :: 0 <= i < |b| ==> b[i] + k < UINT16
    ensures Sides(a + Wrapped(b, k), e) == Sides(a, e) + SidesAbove(b, k, e)
  {
    WrappedIsMoved(b, k);
    SidesMoved(b, k, e);
    SidesConcat(a, Moved(b, k), e);
  }

  lemma {:induction false} FitsPrefix(ms: seq<MeshData>, n: nat)
    requires Fits(ms) && n < |ms|
    ensures Fits(ms[..n]) && Offset(ms, n) + Vertices(ms[n]) <= TotalVertices(ms)
    ensures forall i :: 0 <= i < |ms[n].indices| ==> ms[n].indices[i] + Offset(ms, n) < UINT16
  {
    TotalsGrow(ms, n);
    TotalsGrow(ms, n + 1);
    assert ms[..n + 1][..n] == ms[..n];
    assert TriangleMesh(ms[n]);
  }

  /** The count of an edge in the merged mesh: that among the earlier parts, plus that in the
      last part moved up. */
  lemma {:induction false} CountLast(ms: seq<MeshData>, n: nat, e: Edge)
    requires Fits(ms) && |ms| == n + 1
    ensures |MergedIndices(ms)| % 3 == 0 && |MergedIndices(ms[..n])| % 3 == 0
    ensures Sides(MergedIndices(ms), e)
         == Sides(MergedIndices(ms[..n]), e) + SidesAbove(ms[n].indices, Offset(ms, n), e)
  {
    FitsPrefix(ms, n);
    FitsWhole(ms[..n]);
    MergedBounded(ms);
    MergedBounded(ms[..n]);
    SidesAppend(MergedIndices(ms[..n]), ms[n].indices, Offset(ms, n), e);
  }

  lemma LastPartCount(ms: seq<MeshData>, n: nat, e: Edge)
    requires Fits(ms) && |ms| == n + 1 && e.0 <= e.1 < Vertices(ms[n])
    ensures |MergedIndices(ms)| % 3 == 0
    ensures Sides(MergedIndices(ms), Shift(e, Offset(ms, n))) == Sides(ms[n].indices, e)
  {
    var up := Shift(e, Offset(ms, n));
    CountLast(ms, n, up);
    FitsPrefix(ms, n);
    MergedBounded(ms[..n]);
    SidesBounded(MergedIndices(ms[..n]), Offset(ms, n), up);
  }

  /** The last part adds nothing to the edges of an earlier one. */
  lemma EarlierPartCount(ms: seq<MeshData>, n: nat, k: nat, e: Edge)
    requires Fits(ms) && |ms| == n + 1 && k < n && e.0 <= e.1 < Vertices(ms[k])
    ensures |MergedIndices(ms)| % 3 == 0 && |MergedIndices(ms[..n])| % 3 == 0
    ensures Sides(MergedIndices(ms), Shift(e, Offset(ms, k))) == Sides(MergedIndices(ms[..n]), Shift(e, Offset(ms, k)))
  {
    CountLast(ms, n, Shift(e, Offset(ms, k)));
    PartsInOrder(ms, k, n);
  }

  /** Part `k` keeps its own edge counts, moved up to its own vertices. */
  lemma {:induction false} PartCount(ms: seq<MeshData>, k: nat, e: Edge)
    requires Fits(ms) && k < |ms| && e.0 <= e.1 < Vertices(ms[k])
    ensures |MergedIndices(ms)| % 3 == 0
    ensures Sides(MergedIndices(ms), Shift(e, Offset(ms, k))) == Sides(ms[k].indices, e)
  {
    var n := |ms| - 1;
    if k == n {
      LastPartCount(ms, n, e);
    } else {
      EarlierPartCount(ms, n, k, e);
      FitsPrefix(ms, n);
      PartCount(ms[..n], k, e);
      assert ms[..n][..k] == ms[..k];
    }
  }

  /** An edge of the merged mesh joins vertices of part `k`, and is an edge of that part. */
  ghost predicate FromPart(ms: seq<MeshData>, k: nat, e: Edge)
    requires Fits(ms)
  {
    && k < |ms|
    && Offset(ms, k) <= e.0 <= e.1 < Offset(ms, k) + Vertices(ms[k])
    && Sides(ms[k].indices, (e.0 - Offset(ms, k), e.1 - Offset(ms, k))) > 0
  }

  lemma FromPrefix(ms: seq<MeshData>, n: nat, k: nat, e: Edge)
    requires Fits(ms) && n < |ms| && Fits(ms[..n]) && FromPart(ms[..n], k, e)
    ensures FromPart(ms, k, e)
  {
    assert ms[..n][..k] == ms[..k];
  }

  lemma {:induction false} EdgeHasPart(ms: seq<MeshData>, e: Edge) returns (k: nat)
    requires Fits(ms) && |MergedIndices(ms)| % 3 == 0 && Sides(MergedIndices(ms), e) > 0
    ensures FromPart(ms, k, e)
  {
    var n := |ms| - 1;
    CountLast(ms, n, e);
    FitsPrefix(ms, n);
    if Sides(MergedIndices(ms[..n]), e) > 0 {
      k := EdgeHasPart(ms[..n], e);
      FromPrefix(ms, n, k, e);
    } else {
      k := n;
      var off := Offset(ms, n);
      SidesBounded(ms[n].indices, Vertices(ms[n]), (e.0 - off, e.1 - off));
    }
  }

  /** The parts are disjoint: no edge of the merged mesh comes from two of them. */
  lemma {:induction false} PartIsUnique(ms: seq<MeshData>, j: nat, k: nat, e: Edge)
    requires Fits(ms) && FromPart(ms, j, e) && FromPart(ms, k, e)
    ensures j == k
  {
    if j < k { PartsInOrder(ms, j, k); }
    if k < j { PartsInOrder(ms, k, j); }
  }

  lemma {:induction false} PartsInOrder(ms: seq<MeshData>, j: nat, k: nat)
    requires j < k <= |ms|
    ensures Offset(ms, j) + Vertices(ms[j]) <= Offset(ms, k)
  {
    TotalsGrow(ms[..k], j + 1);
    assert ms[..k][..j + 1] == ms[..j + 1] && ms[..j + 1][..j] == ms[..j];
  }

  /** A merged mesh is manifold exactly when every part is. */
  lemma {:induction false} MergeManifold(ms: seq<MeshData>)
    requires Fits(ms)
    ensures |MergedIndices(ms)| % 3 == 0
    ensures Manifold(MergedIndices(ms)) <==> forall k :: 0 <= k < |ms| ==> Manifold(ms[k].indices)
  {
    MergedBounded(ms);
    var ix := MergedIndices(ms);
    if Manifold(ix) {
      forall k, e | 0 <= k < |ms| && Sides(ms[k].indices, e) > 0 ensures Sides(ms[k].indices, e) == 2 {
        SidesBounded(ms[k].indices, Vertices(ms[k]), e);
        PartCount(ms, k, e);
        assert Sides(ix, Shift(e, Offset(ms, k))) > 0;
      }
    }
    if forall k :: 0 <= k < |ms| ==> Manifold(ms[k].indices) {
      forall e | Sides(ix, e) > 0 ensures Sides(ix, e) == 2 {
        var k := EdgeHasPart(ms, e);
        var off := Offset(ms, k);
        PartCount(ms, k, (e.0 - off, e.1 - off));
      }
    }
  }

  lemma {:induction false} PositionsAt(ms: seq<MeshData>, k: nat, j: nat)
    requires k < |ms| && j < |ms[k].positions|
    ensures TotalFloats(ms[..k]) + j < |MergedPositions(ms)|
    ensures MergedPositions(ms)[TotalFloats(ms[..k]) + j] == ms[k].positions[j]
  {
    var n := |ms| - 1;
    MergedSizes(ms[..n]);
    if k < n {
      PositionsAt(ms[..n], k, j);
      assert ms[..n][..k] == ms[..k];
    }
  }

  lemma {:induction false} IndicesAt(ms: seq<MeshData>, k: nat, i: nat)
    requires k < |ms| && i < |ms[k].indices|
    ensures TotalIndices(ms[..k]) + i < |MergedIndices(ms)|
    ensures MergedIndices(ms)[TotalIndices(ms[..k]) + i] == (ms[k].indices[i] + TotalFloats(ms[..k]) / 3) % UINT16
  {
    var n := |ms| - 1;
    MergedSizes(ms[..n]);
    if k < n {
      IndicesAt(ms[..n], k, i);
      assert ms[..n][..k] == ms[..k];
    }
  }

  /** An index of the merged mesh points at the very coordinates its part's index points at. */
  lemma {:induction false} MergePointsAtTheSame(ms: seq<MeshData>, k: nat, i: nat, d: nat)
    requires Fits(ms) && k < |ms| && i < |ms[k].indices| && d < 3
    ensures var p, ix, at := MergedPositions(ms), MergedIndices(ms), TotalIndices(ms[..k]) + i;
            && at < |ix| && 3 * ix[at] + d < |p|
            && 3 * ms[k].indices[i] + d < |ms[k].positions|
            && p[3 * ix[at] + d] == ms[k].positions[3 * ms[k].indices[i] + d]
  {
    assert TriangleMesh(ms[k]);
    var x, off := ms[k].indices[i], Offset(ms, k);
    IndicesAt(ms, k, i);
    OffsetInFloats(ms, k);
    FitsPrefix(ms, k);
    assert MergedIndices(ms)[TotalIndices(ms[..k]) + i] == x + off;
    PositionsAt(ms, k, 3 * x + d);
    assert TotalFloats(ms[..k]) + (3 * x + d) == 3 * (x + off) + d;
  }

  lemma OffsetInFloats(ms: seq<MeshData>, k: nat)
    requires Fits(ms) && k < |ms|
    ensures TotalFloats(ms[..k]) == 3 * Offset(ms, k)
  {
    forall m | m in ms[..k] ensures |m.positions| % 3 == 0 {
      var j :| 0 <= j < k && ms[..k][j] == m;
      assert TriangleMesh(ms[j]);
    }
    WholeVertices(ms[..k]);
  }

  lemma TranslatedConcat(p: seq<real>, q: seq<real>, d: (real, real, real))
    requires |p| % 3 == 0
    ensures Translated(p + q, d) == Translated(p, d) + Translated(q, d)
  {
    forall i | |p| <= i < |p + q| ensures i % 3 == (i - |p|) % 3 {
    }
  }

  lemma {:induction false} WholePositions(ms: seq<MeshData>)
    requires forall m :: m in ms ==> |m.positions| % 3 == 0
    ensures |MergedPositions(ms)| % 3 == 0
  {
    MergedSizes(ms);
    WholeVertices(ms);
  }

  lemma {:induction false} MoveAllKeeps(ms: seq<MeshData>, d: (real, real, real))
    ensures TotalFloats(MoveAll(ms, d)) == TotalFloats(ms) && TotalVertices(MoveAll(ms, d)) == TotalVertices(ms)
    ensures MergedIndices(MoveAll(ms, d)) == MergedIndices(ms)
  {
    if ms != [] {
      MoveAllKeeps(ms[..|ms| - 1], d);
      assert MoveAll(ms, d)[..|ms| - 1] == MoveAll(ms[..|ms| - 1], d);
    }
  }

  /** Moving every part by `d` and merging is merging and moving by `d`. */
  lemma {:induction false} MergeTranslated(ms: seq<MeshData>, d: (real, real, real))
    requires forall m :: m in ms ==> |m.positions| % 3 == 0
    ensures MergedPositions(MoveAll(ms, d)) == Translated(MergedPositions(ms), d)
    ensures MergedIndices(MoveAll(ms, d)) == MergedIndices(ms) && TotalVertices(MoveAll(ms, d)) == TotalVertices(ms)
  {
    MoveAllKeeps(ms, d);
    if ms != [] {
      var n := |ms| - 1;
      MergeTranslated(ms[..n], d);
      WholePositions(ms[..n]);
      assert MoveAll(ms, d)[..n] == MoveAll(ms[..n], d);
      TranslatedConcat(MergedPositions(ms[..n]), ms[n].positions, d);
    }
  }

  function MoveAll(ms: seq<MeshData>, d: (real, real, real)): (r: seq<MeshData>)
    ensures |r| == |ms|
  {
    if ms == [] then []
    else MoveAll(ms[..|ms| - 1], d) + [ms[|ms| - 1].(positions := Translated(ms[|ms| - 1].positions, d))]
  }

  // ---- 65536 vertices is the exact bound ----------------------------------------------------------

  /** Triangle meshes with `n` vertices in all. */
  ghost predicate Meshes(ms: seq<MeshData>, n: nat) {
    (forall k :: 0 <= k < |ms| ==> TriangleMesh(ms[k])) && TotalVertices(ms) == n
  }

  ghost predicate MergesTrue(ms: seq<MeshData>)
    requires forall k :: 0 <= k < |ms| ==> |ms[k].indices| % 3 == 0
  {
    && |MergedIndices(ms)| % 3 == 0
    && (Manifold(MergedIndices(ms)) <==> forall k :: 0 <= k < |ms| ==> Manifold(ms[k].indices))
  }

  /** Two flat triangles that share all their sides. */
  const LOW: seq<nat> := [0, 0, 1, 0, 0, 2]
  const HIGH: seq<nat> := [2, 2, 0, 2, 2, 1]

  function Mesh(vertices: nat, indices: seq<nat>): MeshData {
    MeshData(seq(3 * vertices, _ => 0.0), indices)
  }

  /** `LOW` on the first vertices, `HIGH` on the 65535th to 65537th, unused vertices between and
      after. */
  function Straddling(n: nat): seq<MeshData>
    requires n > UINT16
  {
    [Mesh(3, LOW)] + [Mesh(UINT16 - 5, [])] + [Mesh(3, HIGH)] + [Mesh(n - UINT16 - 1, [])]
  }

  lemma {:induction false} TwoTriangles(a: nat, b: nat, c: nat, d: nat, x: nat, y: nat, e: Edge)
    ensures var ix := [a, b, c, d, x, y];
            Sides(ix, e) == CountOf(Corners(a, b, c), e) + CountOf(Corners(d, x, y), e)
  {
    assert [a, b, c, d, x, y] == [a, b, c] + [d, x, y];
    SidesConcat([a, b, c], [d, x, y], e);
    OneTriangle(a, b, c, e);
    OneTriangle(d, x, y, e);
  }

  /** Triangles (x, x, y) and (x, x, z) have the sides (x, x), {x, y} and {x, z}, each twice. */
  lemma {:induction false} FanSides(x: nat, y: nat, z: nat, e: Edge)
    requires x != y && x != z && y != z
    ensures Sides([x, x, y, x, x, z], e) == if e in {(x, x), EdgeKey(x, y), EdgeKey(x, z)} then 2 else 0
  {
    TwoTriangles(x, x, y, x, x, z, e);
    OneTriangle(x, x, y, e);
    OneTriangle(x, x, z, e);
  }

  lemma MergedSnoc(ms: seq<MeshData>, m: MeshData)
    ensures TotalVertices(ms + [m]) == TotalVertices(ms) + Vertices(m)
    ensures TotalFloats(ms + [m]) == TotalFloats(ms) + |m.positions|
    ensures MergedIndices(ms + [m]) == MergedIndices(ms) + Wrapped(m.indices, TotalFloats(ms) / 3)
  {
    assert (ms + [m])[..|ms|] == ms;
  }

  lemma WrappedFans()
    ensures Wrapped(LOW, 0) == LOW && Wrapped(HIGH, UINT16 - 2) == [0, 0, UINT16 - 2, 0, 0, UINT16 - 1]
  {
  }

  lemma NothingWrapped(k: nat)
    ensures Wrapped([], k) == []
  {
  }

  lemma OneMerged(a: MeshData)
    ensures TotalVertices([a]) == Vertices(a) && TotalFloats([a]) == |a.positions|
    ensures MergedIndices([a]) == Wrapped(a.indices, 0)
  {
    MergedSnoc([], a);
    assert [] + [a] == [a];
  }

  lemma FourMerged(a: MeshData, b: MeshData, c: MeshData, d: MeshData)
    ensures var ms, na, nb, nc := [a] + [b] + [c] + [d], |a.positions|, |b.positions|, |c.positions|;
            && TotalVertices(ms) == Vertices(a) + Vertices(b) + Vertices(c) + Vertices(d)
            && MergedIndices(ms)
               == Wrapped(a.indices, 0) + Wrapped(b.indices, na / 3) + Wrapped(c.indices, (na + nb) / 3)
                  + Wrapped(d.indices, (na + nb + nc) / 3)
  {
    OneMerged(a);
    MergedSnoc([a], b);
    MergedSnoc([a] + [b], c);
    MergedSnoc([a] + [b] + [c], d);
  }

  lemma StraddlingMerged(n: nat)
    requires n > UINT16
    ensures TotalVertices(Straddling(n)) == n
    ensures MergedIndices(Straddling(n)) == LOW + [0, 0, UINT16 - 2, 0, 0, UINT16 - 1]
  {
    FourMerged(Mesh(3, LOW), Mesh(UINT16 - 5, []), Mesh(3, HIGH), Mesh(n - UINT16 - 1, []));
    WrappedFans();
    NothingWrapped(3);
    NothingWrapped(UINT16 + 1);
    assert LOW + [] == LOW;
    var merged := LOW + [0, 0, UINT16 - 2, 0, 0, UINT16 - 1];
    assert merged + [] == merged;
  }

  lemma StraddlingParts(n: nat)
    requires n > UINT16
    ensures Meshes(Straddling(n), n)
    ensures forall k :: 0 <= k < |Straddling(n)| ==> Manifold(Straddling(n)[k].indices)
  {
    StraddlingMerged(n);
    forall e ensures Sides(LOW, e) > 0 ==> Sides(LOW, e) == 2 {
      FanSides(0, 1, 2, e);
    }
    forall e ensures Sides(HIGH, e) > 0 ==> Sides(HIGH, e) == 2 {
      FanSides(2, 0, 1, e);
    }
  }

  lemma FourSides()
    ensures Sides(LOW + [0, 0, UINT16 - 2, 0, 0, UINT16 - 1], (0, 0)) == 4
  {
    SidesConcat(LOW, [0, 0, UINT16 - 2, 0, 0, UINT16 - 1], (0, 0));
    FanSides(0, 1, 2, (0, 0));
    FanSides(0, UINT16 - 2, UINT16 - 1, (0, 0));
  }

  /** However many vertices past 65536: these parts are manifold, `HIGH` wraps onto `LOW`, and the
      merged mesh is not. */
  lemma {:induction false} WrapBreaksManifold(n: nat)
    requires n > UINT16
    ensures var ms := Straddling(n);
            && Meshes(ms, n) && (forall k :: 0 <= k < |ms| ==> Manifold(ms[k].indices))
            && |MergedIndices(ms)| % 3 == 0 && !Manifold(MergedIndices(ms))
  {
    StraddlingParts(n);
    StraddlingMerged(n);
    FourSides();
  }

  /** Merging any parts with `n` vertices in all tells a manifold exactly if each part is one, if and
      only if `n` is at most 65536. */
  lemma MergeBoundIsExact(n: nat)
    ensures (forall ms | Meshes(ms, n) :: MergesTrue(ms)) <==> n <= UINT16
  {
    if n <= UINT16 {
      forall ms | Meshes(ms, n) ensures MergesTrue(ms) {
        MergeManifold(ms);
      }
    } else {
      WrapBreaksManifold(n);
      assert !MergesTrue(Straddling(n));
    }
  }
}
