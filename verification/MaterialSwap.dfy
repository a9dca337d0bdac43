/** The recolouring of `backend/src/lib/gltf-material-swap.ts`, by material name or by position, and
    the gate of `frontend/src/babylon/partMaterials.ts` that lets an upload use names. */
module MaterialSwap {
  import opened Wrappers

  datatype Rgb = Rgb(r: real, g: real, b: real)

  type Image = seq<nat>

  /** A texture created for the part at `index`. */
  datatype Texture = Baked(image: Image) | Variant(index: nat, id: string, image: Image)

  datatype Look = Look(name: string, color: Rgb, texture: Option<Texture>)

  datatype PartSpec = PartSpec(color: Rgb, textureId: Option<string>, materialName: Option<string>)

  datatype Error =
    | NoMaterial
    | PartCountMismatch(materials: nat, parts: nat)
    | NameNotFound(name: string)
    | AmbiguousName(name: string)
    | TextureLoad(id: string)

  /** What a swap leaves in the materials, and what it throws. */
  datatype Outcome = Outcome(looks: seq<Look>, error: Option<Error>)

  /** The texture library: the image of an id, unless loading it throws. */
  type Loader = string -> Option<Image>

  // ---- the swap on values ------------------------------------------------------------------

  predicate WantsTexture(p: PartSpec) {
    p.textureId.Some? && p.textureId.value != ""
  }

  predicate Loads(p: PartSpec, load: Loader) {
    WantsTexture(p) ==> load(p.textureId.value).Some?
  }

  /** A material after the part at `i` is applied; its texture only changes when one loads. */
  function Painted(l: Look, p: PartSpec, i: nat, load: Loader): Look {
    if WantsTexture(p) && load(p.textureId.value).Some?
    then Look(l.name, p.color, Some(Variant(i, p.textureId.value, load(p.textureId.value).value)))
    else l.(color := p.color)
  }

  function ApplyPart(ls: seq<Look>, k: nat, p: PartSpec, i: nat, load: Loader): Outcome
    requires k < |ls|
  {
    Outcome(ls[k := Painted(ls[k], p, i, load)], if Loads(p, load) then None else Some(TextureLoad(p.textureId.value)))
  }

  predicate Twice(ls: seq<Look>, name: string) {
    exists i, j | 0 <= i < j < |ls| :: ls[i].name == name && ls[j].name == name
  }

  predicate Named(ls: seq<Look>, name: string) {
    exists i | 0 <= i < |ls| :: ls[i].name == name
  }

  /** The first material of that name, or the length. */
  function Find(ls: seq<Look>, name: string): (k: nat)
    ensures k <= |ls| && (k < |ls| <==> Named(ls, name)) && (k < |ls| ==> ls[k].name == name)
  {
    if ls == [] then 0
    else if ls[0].name == name then 0
    else
      assert Named(ls, name) ==> Named(ls[1..], name) by {
        if i :| 0 <= i < |ls| && ls[i].name == name {
          assert ls[1..][i - 1].name == name;
        }
      }
      1 + Find(ls[1..], name)
  }

  predicate NameKeyed(parts: seq<PartSpec>) {
    parts != [] && forall p | p in parts :: p.materialName.Some?
  }

  /** Apply the parts from `i` on, each to the only material of its name. */
  function ByName(ls: seq<Look>, parts: seq<PartSpec>, i: nat, load: Loader): Outcome
    requires i <= |parts| && NameKeyed(parts)
    decreases |parts| - i
  {
    if i == |parts| then Outcome(ls, None)
    else
      var name := parts[i].materialName.value;
      if Twice(ls, name) then Outcome(ls, Some(AmbiguousName(name)))
      else if Find(ls, name) == |ls| then Outcome(ls, Some(NameNotFound(name)))
      else
        var o := ApplyPart(ls, Find(ls, name), parts[i], i, load);
        if o.error.Some? then o else ByName(o.looks, parts, i + 1, load)
  }

  /** Apply the parts from `i` on, each to the material at its own position. */
  function ByPosition(ls: seq<Look>, parts: seq<PartSpec>, i: nat, load: Loader): Outcome
    requires i <= |parts| == |ls|
    decreases |parts| - i
  {
    if i == |parts| then Outcome(ls, None)
    else
      var o := ApplyPart(ls, i, parts[i], i, load);
      if o.error.Some? then o else ByPosition(o.looks, parts, i + 1, load)
  }

  function Swap(ls: seq<Look>, parts: seq<PartSpec>, load: Loader): Outcome {
    if ls == [] then Outcome(ls, Some(NoMaterial))
    else if NameKeyed(parts) then ByName(ls, parts, 0, load)
    else if |parts| != |ls| then Outcome(ls, Some(PartCountMismatch(|ls|, |parts|)))
    else ByPosition(ls, parts, 0, load)
  }

  // ---- the swap on material objects ----------------------------------------------------------

  class Material {
    const name: string
    var color: Rgb
    var texture: Option<Texture>

    constructor (name: string, color: Rgb, texture: Option<Texture>)
      ensures State() == Look(name, color, texture)
    {
      this.name, this.color, this.texture := name, color, texture;
    }

    function State(): Look
      reads this
    {
      Look(name, color, texture)
    }
  }

  predicate Distinct(ms: seq<Material>) {
    forall i, j | 0 <= i < j < |ms| :: ms[i] != ms[j]
  }

  function Looks(ms: seq<Material>): seq<Look>
    reads ms
  {
    seq(|ms|, i requires 0 <= i < |ms| reads ms => ms[i].State())
  }

  method Paint(target: Material, p: PartSpec, i: nat, load: Loader) returns (error: Option<Error>)
    modifies target
    ensures target.State() == Painted(old(target.State()), p, i, load)
    ensures error == if Loads(p, load) then None else Some(TextureLoad(p.textureId.value))
  {
    target.color := p.color;
    if WantsTexture(p) {
      var image := load(p.textureId.value);
      if image.None? {
        return Some(TextureLoad(p.textureId.value));
      }
      target.texture := Some(Variant(i, p.textureId.value, image.value));
    }
    return None;
  }

  method PaintAt(ms: seq<Material>, ghost k: nat, target: Material, p: PartSpec, i: nat, load: Loader)
    returns (error: Option<Error>)
    requires Distinct(ms) && k < |ms| && ms[k] == target
    modifies target
    ensures Outcome(Looks(ms), error) == ApplyPart(old(Looks(ms)), k, p, i, load)
  {
    ghost var before := Looks(ms);
    error := Paint(target, p, i, load);
    assert Looks(ms) == before[k := Painted(before[k], p, i, load)];
  }

  /** What the index says of `n`, after the first `i` materials. */
  ghost predicate Entry(byName: map<string, Material>, ambiguous: set<string>, ms: seq<Material>, ls: seq<Look>,
                        i: nat, n: string)
    requires i <= |ls| == |ms|
  {
    && (n in byName <==> Named(ls[..i], n))
    && (n in byName ==> Find(ls, n) < i && byName[n] == ms[Find(ls, n)])
    && (n in ambiguous <==> Twice(ls[..i], n))
  }

  ghost predicate Indexed(byName: map<string, Material>, ambiguous: set<string>,
                          ms: seq<Material>, ls: seq<Look>, i: nat)
    requires i <= |ls| == |ms|
  {
    forall n :: Entry(byName, ambiguous, ms, ls, i, n)
  }

  lemma IndexNext(byName: map<string, Material>, ambiguous: set<string>, ms: seq<Material>, ls: seq<Look>, i: nat)
    requires i < |ls| == |ms| && Indexed(byName, ambiguous, ms, ls, i)
    ensures ls[i].name in byName ==> Indexed(byName, ambiguous + {ls[i].name}, ms, ls, i + 1)
    ensures ls[i].name !in byName ==> Indexed(byName[ls[i].name := ms[i]], ambiguous, ms, ls, i + 1)
  {
    var name := ls[i].name;
    var b := if name in byName then byName else byName[name := ms[i]];
    var a := if name in byName then ambiguous + {name} else ambiguous;
    assert Entry(byName, ambiguous, ms, ls, i, name);
    var next := i + 1;
    forall n ensures Entry(b, a, ms, ls, next, n) {
      assert Entry(byName, ambiguous, ms, ls, i, n);
      OneMore(ls, i, n);
      if n == name && name !in byName {
        FindsNew(ls, n, i);
      }
    }
  }

  /** The materials by name, the first of each, and the names met again. */
  method IndexNames(ms: seq<Material>) returns (byName: map<string, Material>, ambiguous: set<string>)
    ensures Indexed(byName, ambiguous, ms, Looks(ms), |ms|)
  {
    byName, ambiguous := map[], {};
    ghost var ls := Looks(ms);
    forall n ensures Entry(byName, ambiguous, ms, ls, 0, n) {
      assert !Named(ls[..0], n) && !Twice(ls[..0], n);
    }
    for i := 0 to |ms|
      invariant Indexed(byName, ambiguous, ms, ls, i)
    {
      var n := ms[i].name;
      assert ls[i].name == n;
      IndexNext(byName, ambiguous, ms, ls, i);
      if n in byName {
        ambiguous := ambiguous + {n};
      } else {
        byName := byName[n := ms[i]];
      }
    }
  }

  lemma OneMore(ls: seq<Look>, i: nat, name: string)
    requires i < |ls|
    ensures Named(ls[..i + 1], name) <==> Named(ls[..i], name) || ls[i].name == name
    ensures Twice(ls[..i + 1], name) <==> Twice(ls[..i], name) || (Named(ls[..i], name) && ls[i].name == name)
  {
    var a, b := ls[..i], ls[..i + 1];
    assert b == a + [ls[i]];
    if ls[i].name == name {
      assert b[i].name == name;
    }
    if k :| 0 <= k < i && a[k].name == name {
      assert b[k].name == name;
    }
    if j, k :| 0 <= j < k < |a| && a[j].name == name && a[k].name == name {
      assert b[j].name == name && b[k].name == name;
    }
    if j, k :| 0 <= j < k < |b| && b[j].name == name && b[k].name == name {
      assert a[j].name == name;
      if k < i {
        assert a[k].name == name;
      }
    }
  }

  lemma {:induction false} FindsNew(ls: seq<Look>, name: string, i: nat)
    requires i < |ls| && ls[i].name == name && !Named(ls[..i], name)
    ensures Find(ls, name) == i
  {
    if i > 0 {
      assert ls[..i][0].name != name;
      var rest := ls[1..][..i - 1];
      forall k | 0 <= k < |rest| ensures rest[k].name != name {
        assert ls[..i][k + 1].name != name;
      }
      FindsNew(ls[1..], name, i - 1);
    }
  }

  /** Swap the materials in place; the looks left behind and the error are those of `Swap`. */
  method SwapMaterial(ms: seq<Material>, parts: seq<PartSpec>, load: Loader) returns (error: Option<Error>)
    requires Distinct(ms)
    modifies ms
    ensures Outcome(Looks(ms), error) == Swap(old(Looks(ms)), parts, load)
  {
    if |ms| == 0 {
      return Some(NoMaterial);
    }
    if NameKeyed(parts) {
      error := SwapByName(ms, parts, load);
    } else if |parts| != |ms| {
      error := Some(PartCountMismatch(|ms|, |parts|));
    } else {
      error := SwapByPosition(ms, parts, load);
    }
  }

  method SwapByName(ms: seq<Material>, parts: seq<PartSpec>, load: Loader) returns (error: Option<Error>)
    requires Distinct(ms) && NameKeyed(parts)
    modifies ms
    ensures Outcome(Looks(ms), error) == ByName(old(Looks(ms)), parts, 0, load)
  {
    ghost var before := Looks(ms);
    var byName, ambiguous := IndexNames(ms);
    for i := 0 to |parts|
      invariant SameNames(before, Looks(ms))
      invariant ByName(Looks(ms), parts, i, load) == ByName(before, parts, 0, load)
    {
      var name := parts[i].materialName.value;
      NamesDecide(before, Looks(ms), name);
      assert Entry(byName, ambiguous, ms, before, |ms|, name);
      assert before[..|ms|] == before;
      if name in ambiguous {
        return Some(AmbiguousName(name));
      }
      if name !in byName {
        return Some(NameNotFound(name));
      }
      error := PaintAt(ms, Find(Looks(ms), name), byName[name], parts[i], i, load);
      if error.Some? {
        return;
      }
    }
    return None;
  }

  method SwapByPosition(ms: seq<Material>, parts: seq<PartSpec>, load: Loader) returns (error: Option<Error>)
    requires Distinct(ms) && |parts| == |ms|
    modifies ms
    ensures Outcome(Looks(ms), error) == ByPosition(old(Looks(ms)), parts, 0, load)
  {
    ghost var before := Looks(ms);
    for i := 0 to |ms|
      invariant ByPosition(Looks(ms), parts, i, load) == ByPosition(before, parts, 0, load)
    {
      error := PaintAt(ms, i, ms[i], parts[i], i, load);
      if error.Some? {
        return;
      }
    }
    return None;
  }

  // ---- names alone decide the targets ---------------------------------------------------------

  ghost predicate SameNames(a: seq<Look>, b: seq<Look>) {
    |a| == |b| && forall i | 0 <= i < |a| :: a[i].name == b[i].name
  }

  lemma {:induction false} NamesDecide(a: seq<Look>, b: seq<Look>, name: string)
    requires SameNames(a, b)
    ensures Twice(a, name) == Twice(b, name) && Find(a, name) == Find(b, name)
  {
    SameFind(a, b, name);
  }

  lemma {:induction false} SameFind(a: seq<Look>, b: seq<Look>, name: string)
    requires SameNames(a, b)
    ensures Find(a, name) == Find(b, name)
  {
    if a != [] && a[0].name != name {
      SameFind(a[1..], b[1..], name);
    }
  }

  // ---- the order of the materials does not matter by name -----------------------------------

  /** `b` lists the materials of `a` in another order: `b[i]` is `a[p[i]]`, and `q` undoes `p`. */
  ghost predicate Reordered(a: seq<Look>, b: seq<Look>, p: seq<nat>, q: seq<nat>) {
    && |a| == |b| == |p| == |q|
    && (forall i | 0 <= i < |p| :: p[i] < |p| && q[p[i]] == i)
    && (forall i | 0 <= i < |q| :: q[i] < |q| && p[q[i]] == i)
    && (forall i | 0 <= i < |b| :: b[i] == a[p[i]])
  }

  lemma ReorderedTwice(a: seq<Look>, b: seq<Look>, p: seq<nat>, q: seq<nat>, name: string)
    requires Reordered(a, b, p, q) && Twice(b, name)
    ensures Twice(a, name)
  {
    var i, j :| 0 <= i < j < |b| && b[i].name == name && b[j].name == name;
    assert p[i] != p[j];
    assert a[p[i]].name == name && a[p[j]].name == name;
  }

  lemma ReorderedFind(a: seq<Look>, b: seq<Look>, p: seq<nat>, q: seq<nat>, name: string)
    requires Reordered(a, b, p, q) && !Twice(a, name)
    ensures Find(b, name) < |b| <==> Find(a, name) < |a|
    ensures Find(b, name) < |b| ==> p[Find(b, name)] == Find(a, name)
  {
    var k, m := Find(a, name), Find(b, name);
    if k < |a| {
      assert b[q[k]].name == name;
    }
    if m < |b| {
      assert a[p[m]].name == name && a[k].name == name;
    }
  }

  lemma {:induction false} ByNameReordered(a: seq<Look>, b: seq<Look>, p: seq<nat>, q: seq<nat>, parts: seq<PartSpec>,
                                           i: nat, load: Loader)
    requires Reordered(a, b, p, q) && i <= |parts| && NameKeyed(parts)
    ensures ByName(b, parts, i, load).error == ByName(a, parts, i, load).error
    ensures Reordered(ByName(a, parts, i, load).looks, ByName(b, parts, i, load).looks, p, q)
    decreases |parts| - i
  {
    if i < |parts| {
      var name := parts[i].materialName.value;
      if Twice(a, name) {
        ReorderedTwice(b, a, q, p, name);
      } else {
        if Twice(b, name) {
          ReorderedTwice(a, b, p, q, name);
        }
        ReorderedFind(a, b, p, q, name);
        if Find(b, name) < |b| {
          var m := Find(b, name);
          if Loads(parts[i], load) {
            ByNameReordered(ApplyPart(a, p[m], parts[i], i, load).looks, ApplyPart(b, m, parts[i], i, load).looks,
                            p, q, parts, i + 1, load);
          }
        }
      }
    }
  }

  /** With names, every order of the base's materials gives the same error, and the same look to
      every material. */
  lemma OrderDoesNotMatter(a: seq<Look>, b: seq<Look>, p: seq<nat>, q: seq<nat>, parts: seq<PartSpec>, load: Loader)
    requires Reordered(a, b, p, q) && NameKeyed(parts)
    ensures Swap(b, parts, load).error == Swap(a, parts, load).error
    ensures Reordered(Swap(a, parts, load).looks, Swap(b, parts, load).looks, p, q)
  {
    ByNameReordered(a, b, p, q, parts, 0, load);
  }

  // ---- when the order matters by position ----------------------------------------------------

  /** How many parts are applied: all, or up to and with the first whose texture does not load. */
  function Applied(parts: seq<PartSpec>, i: nat, load: Loader): (n: nat)
    requires i <= |parts|
    ensures i <= n <= |parts|
    decreases |parts| - i
  {
    if i == |parts| then i else if Loads(parts[i], load) then Applied(parts, i + 1, load) else i + 1
  }

  /** The look of the material at `k` after a swap by position. */
  function AtPosition(l: Look, parts: seq<PartSpec>, k: nat, load: Loader): Look
    requires k < |parts|
  {
    if k < Applied(parts, 0, load) then Painted(l, parts[k], k, load) else l
  }

  lemma {:induction false} ByPositionPaints(ls: seq<Look>, parts: seq<PartSpec>, i: nat, load: Loader, k: nat)
    requires i <= |parts| == |ls| && k < |ls|
    ensures |ByPosition(ls, parts, i, load).looks| == |ls|
    ensures ByPosition(ls, parts, i, load).looks[k]
         == if i <= k < Applied(parts, i, load) then Painted(ls[k], parts[k], k, load) else ls[k]
    ensures ByPosition(ls, parts, i, load).error == None <==> forall m | i <= m < |parts| :: Loads(parts[m], load)
    decreases |parts| - i
  {
    if i < |parts| && Loads(parts[i], load) {
      ByPositionPaints(ApplyPart(ls, i, parts[i], i, load).looks, parts, i + 1, load, k);
    }
  }

  lemma PositionalSwapPaints(ls: seq<Look>, parts: seq<PartSpec>, load: Loader, k: nat)
    requires !NameKeyed(parts) && |parts| == |ls| && k < |ls|
    ensures |Swap(ls, parts, load).looks| == |ls|
    ensures Swap(ls, parts, load).looks[k] == AtPosition(ls[k], parts, k, load)
    ensures Swap(ls, parts, load).error == None <==> forall m | 0 <= m < |parts| :: Loads(parts[m], load)
  {
    ByPositionPaints(ls, parts, 0, load, k);
  }

  /** The part at `m` asks for a texture that does not load, and none before it does. */
  predicate FirstUnloaded(parts: seq<PartSpec>, load: Loader, m: nat) {
    && m < |parts|
    && parts[m].textureId.Some? && parts[m].textureId.value != "" && load(parts[m].textureId.value) == None
    && forall i | 0 <= i < m :: Loads(parts[i], load)
  }

  lemma {:induction false} AppliedIs(parts: seq<PartSpec>, i: nat, load: Loader, m: nat)
    requires i <= m && FirstUnloaded(parts, load, m)
    ensures Applied(parts, i, load) == m + 1
    decreases m - i
  {
    if i < m {
      AppliedIs(parts, i + 1, load, m);
    }
  }

  /** A swap by position: the material at each place takes the colour of the part at that place, and its
      texture if it asks for one, up to and with the colour of the first part whose texture does not
      load; the swap throws exactly then, for that texture. */
  lemma SwapByPositionIs(ls: seq<Look>, parts: seq<PartSpec>, load: Loader, k: nat, m: nat)
    requires !NameKeyed(parts) && |parts| == |ls| && k < |ls|
    ensures |Swap(ls, parts, load).looks| == |ls| && Swap(ls, parts, load).looks[k].name == ls[k].name
    ensures var l, failed := Swap(ls, parts, load).looks[k], FirstUnloaded(parts, load, m);
            && (failed ==> Swap(ls, parts, load).error == Some(TextureLoad(parts[m].textureId.value)))
            && (failed && k > m ==> l == ls[k])
            && (failed && k <= m ==> l.color == parts[k].color)
            && (failed && k < m ==> Textured(l, ls[k], parts[k], k, load))
            && (failed && k == m ==> l.texture == ls[k].texture)
    ensures (forall i: nat :: !FirstUnloaded(parts, load, i)) ==>
              && Swap(ls, parts, load).error == None
              && Swap(ls, parts, load).looks[k].color == parts[k].color
              && Textured(Swap(ls, parts, load).looks[k], ls[k], parts[k], k, load)
  {
    PositionalSwapPaints(ls, parts, load, k);
    if FirstUnloaded(parts, load, m) {
      AppliedIs(parts, 0, load, m);
      ByPositionThrows(ls, parts, 0, load, m);
    }
    if forall i: nat :: !FirstUnloaded(parts, load, i) {
      AllLoad(parts, load, |parts|);
      AllApplied(parts, 0, load);
    }
  }

  /** The texture of `l`: the one the part asks for, or else the one that was there. */
  predicate Textured(l: Look, before: Look, p: PartSpec, i: nat, load: Loader) {
    && (p.textureId == None || p.textureId == Some("") ==> l.texture == before.texture)
    && (p.textureId.Some? && p.textureId.value != "" ==>
          load(p.textureId.value).Some?
          && l.texture == Some(Variant(i, p.textureId.value, load(p.textureId.value).value)))
  }

  lemma {:induction false} AllLoad(parts: seq<PartSpec>, load: Loader, n: nat)
    requires n <= |parts| && forall i: nat :: !FirstUnloaded(parts, load, i)
    ensures forall i | 0 <= i < n :: Loads(parts[i], load)
  {
    if n > 0 {
      AllLoad(parts, load, n - 1);
      assert !FirstUnloaded(parts, load, n - 1);
    }
  }

  lemma {:induction false} ByPositionThrows(ls: seq<Look>, parts: seq<PartSpec>, i: nat, load: Loader, m: nat)
    requires i <= m && |parts| == |ls| && FirstUnloaded(parts, load, m)
    ensures ByPosition(ls, parts, i, load).error == Some(TextureLoad(parts[m].textureId.value))
    decreases m - i
  {
    if i < m {
      ByPositionThrows(ApplyPart(ls, i, parts[i], i, load).looks, parts, i + 1, load, m);
    }
  }

  lemma {:induction false} ErrorByPosition(a: seq<Look>, b: seq<Look>, parts: seq<PartSpec>, i: nat, load: Loader)
    requires i <= |parts| == |a| == |b|
    ensures ByPosition(b, parts, i, load).error == ByPosition(a, parts, i, load).error
    decreases |parts| - i
  {
    if i < |parts| && Loads(parts[i], load) {
      ErrorByPosition(ApplyPart(a, i, parts[i], i, load).looks, ApplyPart(b, i, parts[i], i, load).looks, parts, i + 1,
                      load);
    }
  }

  /** By position another order of the base's materials gives the same error, and gives every
      material the same look exactly when the part at its new place does to it what the part at its
      old place does. */
  lemma PositionalOrderIff(a: seq<Look>, b: seq<Look>, p: seq<nat>, q: seq<nat>, parts: seq<PartSpec>, load: Loader)
    requires Reordered(a, b, p, q) && !NameKeyed(parts) && |parts| == |a|
    ensures Swap(b, parts, load).error == Swap(a, parts, load).error
    ensures Reordered(Swap(a, parts, load).looks, Swap(b, parts, load).looks, p, q)
       <==> forall i | 0 <= i < |p| ::
              AtPosition(a[p[i]], parts, i, load) == AtPosition(a[p[i]], parts, p[i], load)
  {
    ErrorByPosition(a, b, parts, 0, load);
    var ra, rb := Swap(a, parts, load).looks, Swap(b, parts, load).looks;
    forall i | 0 <= i < |p|
      ensures |ra| == |rb| == |a|
      ensures rb[i] == AtPosition(a[p[i]], parts, i, load) && ra[p[i]] == AtPosition(a[p[i]], parts, p[i], load)
    {
      PositionalSwapPaints(a, parts, load, p[i]);
      PositionalSwapPaints(b, parts, load, i);
    }
  }

  /** With colours alone: exactly when each material keeps its colour under the new order. */
  lemma PlainOrderIff(a: seq<Look>, b: seq<Look>, p: seq<nat>, q: seq<nat>, parts: seq<PartSpec>, load: Loader)
    requires Reordered(a, b, p, q) && !NameKeyed(parts) && |parts| == |a|
    requires forall part | part in parts :: !WantsTexture(part)
    ensures Reordered(Swap(a, parts, load).looks, Swap(b, parts, load).looks, p, q)
       <==> forall i | 0 <= i < |p| :: parts[i].color == parts[p[i]].color
  {
    PositionalOrderIff(a, b, p, q, parts, load);
    AllApplied(parts, 0, load);
    forall i | 0 <= i < |p|
      ensures AtPosition(a[p[i]], parts, i, load).color == parts[i].color
      ensures AtPosition(a[p[i]], parts, p[i], load) == a[p[i]].(color := parts[p[i]].color)
      ensures AtPosition(a[p[i]], parts, i, load) == a[p[i]].(color := parts[i].color)
    {
      assert parts[i] in parts && parts[p[i]] in parts;
    }
  }

  lemma {:induction false} AllApplied(parts: seq<PartSpec>, i: nat, load: Loader)
    requires i <= |parts| && forall part | part in parts :: Loads(part, load)
    ensures Applied(parts, i, load) == |parts|
    decreases |parts| - i
  {
    if i < |parts| {
      assert parts[i] in parts;
      AllApplied(parts, i + 1, load);
    }
  }

  function ImageOf(l: Look): Option<Image> {
    if l.texture.Some? then Some(l.texture.value.image) else None
  }

  /** What a part leaves to be seen of a material's texture. */
  function ImageAfter(l: Look, p: PartSpec, load: Loader): Option<Image> {
    if WantsTexture(p) && load(p.textureId.value).Some? then load(p.textureId.value) else ImageOf(l)
  }

  /** Alike but for the number in a created texture's name. */
  predicate SameFace(x: Look, y: Look) {
    x.name == y.name && x.color == y.color && ImageOf(x) == ImageOf(y)
  }

  /** The material now at `i` is seen as it was from its old place. */
  predicate SeenAlike(ra: seq<Look>, rb: seq<Look>, p: seq<nat>, i: nat) {
    i < |p| == |ra| == |rb| && p[i] < |p| ==> SameFace(rb[i], ra[p[i]])
  }

  /** The parts at both places of that material have one colour, and leave it one image. */
  predicate PartsAgree(a: seq<Look>, p: seq<nat>, parts: seq<PartSpec>, load: Loader, i: nat) {
    i < |p| == |a| == |parts| && p[i] < |p| ==>
      parts[i].color == parts[p[i]].color
      && ImageAfter(a[p[i]], parts[i], load) == ImageAfter(a[p[i]], parts[p[i]], load)
  }

  lemma SwapKeepsLength(ls: seq<Look>, parts: seq<PartSpec>, load: Loader)
    requires !NameKeyed(parts) && |parts| == |ls|
    ensures |Swap(ls, parts, load).looks| == |ls|
  {
    if ls != [] {
      PositionalSwapPaints(ls, parts, load, 0);
    }
  }

  lemma SeenIff(a: seq<Look>, b: seq<Look>, p: seq<nat>, q: seq<nat>, parts: seq<PartSpec>, load: Loader, i: nat)
    requires Reordered(a, b, p, q) && !NameKeyed(parts) && |parts| == |a| && Applied(parts, 0, load) == |parts|
    ensures SeenAlike(Swap(a, parts, load).looks, Swap(b, parts, load).looks, p, i)
       <==> PartsAgree(a, p, parts, load, i)
  {
    SwapKeepsLength(a, parts, load);
    SwapKeepsLength(b, parts, load);
    if i < |p| {
      PositionalSwapPaints(a, parts, load, p[i]);
      PositionalSwapPaints(b, parts, load, i);
    }
  }

  /** With textures that load: every material is seen the same exactly when the part at its new place
      has the colour, and leaves the image, of the part at its old place. */
  lemma TexturedOrderIff(a: seq<Look>, b: seq<Look>, p: seq<nat>, q: seq<nat>, parts: seq<PartSpec>, load: Loader)
    requires Reordered(a, b, p, q) && !NameKeyed(parts) && |parts| == |a|
    requires forall part | part in parts :: Loads(part, load)
    ensures |Swap(a, parts, load).looks| == |Swap(b, parts, load).looks| == |p|
    ensures (forall i: nat :: SeenAlike(Swap(a, parts, load).looks, Swap(b, parts, load).looks, p, i))
       <==> forall i: nat :: PartsAgree(a, p, parts, load, i)
  {
    AllApplied(parts, 0, load);
    SwapKeepsLength(a, parts, load);
    SwapKeepsLength(b, parts, load);
    var ra, rb := Swap(a, parts, load).looks, Swap(b, parts, load).looks;
    forall i: nat ensures SeenAlike(ra, rb, p, i) <==> PartsAgree(a, p, parts, load, i) {
      SeenIff(a, b, p, q, parts, load, i);
    }
  }

  /** By position the order matters: two materials, two colours, listed the other way round. */
  lemma OrderMattersByPosition(load: Loader)
    ensures exists a: seq<Look>, b: seq<Look>, parts: seq<PartSpec> ::
              Reordered(a, b, [1, 0], [1, 0])
              && !Reordered(Swap(a, parts, load).looks, Swap(b, parts, load).looks, [1, 0], [1, 0])
  {
    var black, white := Rgb(0.0, 0.0, 0.0), Rgb(1.0, 1.0, 1.0);
    var x, y := Look("x", black, None), Look("y", black, None);
    var parts := [PartSpec(black, None, None), PartSpec(white, None, None)];
    assert Reordered([x, y], [y, x], [1, 0], [1, 0]);
    assert !NameKeyed(parts) by { assert parts[0] in parts; }
    PlainOrderIff([x, y], [y, x], [1, 0], [1, 0], parts, load);
    assert parts[0].color != parts[1].color;
  }

  // ---- names in step with the positions ----------------------------------------------------------

  /** The same parts without their names. */
  function Unnamed(parts: seq<PartSpec>): seq<PartSpec> {
    seq(|parts|, i requires 0 <= i < |parts| => parts[i].(materialName := None))
  }

  ghost predicate InStep(ls: seq<Look>, parts: seq<PartSpec>) {
    && |parts| == |ls|
    && (forall i | 0 <= i < |ls| :: parts[i].materialName == Some(ls[i].name))
    && (forall i, j | 0 <= i < j < |ls| :: ls[i].name != ls[j].name)
  }

  lemma {:induction false} ByNameIsByPosition(ls: seq<Look>, parts: seq<PartSpec>, i: nat, load: Loader)
    requires InStep(ls, parts) && i <= |parts| && NameKeyed(parts)
    ensures ByName(ls, parts, i, load) == ByPosition(ls, Unnamed(parts), i, load)
    decreases |parts| - i
  {
    if i < |parts| {
      var name := parts[i].materialName.value;
      assert ls[i].name == name;
      assert Find(ls, name) == i && !Twice(ls, name);
      ByNameIsByPosition(ls[i := Painted(ls[i], parts[i], i, load)], parts, i + 1, load);
    }
  }

  /** Unique names that line up with the positions: named and positional swap are one. */
  lemma NamesInStep(ls: seq<Look>, parts: seq<PartSpec>, load: Loader)
    requires InStep(ls, parts)
    ensures Swap(ls, parts, load) == Swap(ls, Unnamed(parts), load)
  {
    if ls != [] {
      assert Unnamed(parts)[0] in Unnamed(parts);
      ByNameIsByPosition(ls, parts, 0, load);
    }
  }

  // ---- when a named swap succeeds, and what it does -----------------------------------------------

  ghost predicate Resolves(ls: seq<Look>, p: PartSpec, load: Loader)
    requires p.materialName.Some?
  {
    Named(ls, p.materialName.value) && !Twice(ls, p.materialName.value) && Loads(p, load)
  }

  ghost predicate AllResolve(ls: seq<Look>, parts: seq<PartSpec>, i: nat, load: Loader)
    requires NameKeyed(parts)
  {
    forall k | i <= k < |parts| :: Resolves(ls, parts[k], load)
  }

  lemma {:induction false} ByNameKeepsNames(ls: seq<Look>, parts: seq<PartSpec>, i: nat, load: Loader)
    requires i <= |parts| && NameKeyed(parts)
    ensures SameNames(ls, ByName(ls, parts, i, load).looks)
    decreases |parts| - i
  {
    if i < |parts| {
      var at := Find(ls, parts[i].materialName.value);
      if at < |ls| {
        ByNameKeepsNames(ApplyPart(ls, at, parts[i], i, load).looks, parts, i + 1, load);
      }
    }
  }

  lemma {:induction false} ByNameSucceeds(ls: seq<Look>, parts: seq<PartSpec>, i: nat, load: Loader)
    requires i <= |parts| && NameKeyed(parts)
    ensures ByName(ls, parts, i, load).error == None <==> AllResolve(ls, parts, i, load)
    decreases |parts| - i
  {
    if i < |parts| {
      if Resolves(ls, parts[i], load) {
        var next := ApplyPart(ls, Find(ls, parts[i].materialName.value), parts[i], i, load).looks;
        assert SameNames(ls, next) && SameNames(next, ls);
        ByNameSucceeds(next, parts, i + 1, load);
      }
    }
  }

  /** A named swap throws unless every part names exactly one material and its texture loads. */
  lemma NamedSwapSucceeds(ls: seq<Look>, parts: seq<PartSpec>, load: Loader)
    requires NameKeyed(parts)
    ensures Swap(ls, parts, load).error == None <==> AllResolve(ls, parts, 0, load)
  {
    ByNameSucceeds(ls, parts, 0, load);
    if ls == [] {
      assert !Resolves(ls, parts[0], load);
    }
  }

  ghost predicate DistinctNames(parts: seq<PartSpec>) {
    forall i, j | 0 <= i < j < |parts| :: parts[i].materialName != parts[j].materialName
  }

  ghost predicate Targeted(parts: seq<PartSpec>, name: string, i: nat) {
    exists k | i <= k < |parts| :: parts[k].materialName == Some(name)
  }

  lemma {:induction false} ByNameKeepsRest(ls: seq<Look>, parts: seq<PartSpec>, i: nat, load: Loader, j: nat)
    requires i <= |parts| && NameKeyed(parts) && j < |ls| && !Targeted(parts, ls[j].name, i)
    ensures |ByName(ls, parts, i, load).looks| == |ls| && ByName(ls, parts, i, load).looks[j] == ls[j]
    decreases |parts| - i
  {
    if i < |parts| {
      var name := parts[i].materialName.value;
      assert name != ls[j].name;
      if !Twice(ls, name) && Find(ls, name) < |ls| && Loads(parts[i], load) {
        var next := ApplyPart(ls, Find(ls, name), parts[i], i, load).looks;
        assert next[j] == ls[j];
        ByNameKeepsRest(next, parts, i + 1, load, j);
      }
    }
  }

  lemma {:induction false} ByNamePaints(ls: seq<Look>, parts: seq<PartSpec>, i: nat, load: Loader, k: nat, j: nat)
    requires i <= k < |parts| && NameKeyed(parts) && DistinctNames(parts)
    requires j < |ls| && parts[k].materialName == Some(ls[j].name)
    requires ByName(ls, parts, i, load).error == None
    ensures |ByName(ls, parts, i, load).looks| == |ls|
    ensures ByName(ls, parts, i, load).looks[j] == Painted(ls[j], parts[k], k, load)
    decreases |parts| - i
  {
    var name := parts[i].materialName.value;
    var at := Find(ls, name);
    var next := ApplyPart(ls, at, parts[i], i, load).looks;
    if i == k {
      assert at == j by {
        assert !Twice(ls, name);
      }
      assert !Targeted(parts, ls[j].name, i + 1);
      ByNameKeepsRest(next, parts, i + 1, load, j);
    } else {
      assert parts[i].materialName != parts[k].materialName;
      assert next[j] == ls[j];
      ByNamePaints(next, parts, i + 1, load, k, j);
    }
  }

  lemma NamedSwapLooks(ls: seq<Look>, parts: seq<PartSpec>, load: Loader, j: nat)
    requires NameKeyed(parts) && DistinctNames(parts) && j < |ls| && Swap(ls, parts, load).error == None
    ensures |Swap(ls, parts, load).looks| == |ls|
    ensures forall k | 0 <= k < |parts| && parts[k].materialName == Some(ls[j].name) ::
        Swap(ls, parts, load).looks[j] == Painted(ls[j], parts[k], k, load)
    ensures !Targeted(parts, ls[j].name, 0) ==> Swap(ls, parts, load).looks[j] == ls[j]
  {
    ByNameKeepsNames(ls, parts, 0, load);
    forall k | 0 <= k < |parts| && parts[k].materialName == Some(ls[j].name)
      ensures Swap(ls, parts, load).looks[j] == Painted(ls[j], parts[k], k, load)
    {
      ByNamePaints(ls, parts, 0, load, k, j);
    }
    if !Targeted(parts, ls[j].name, 0) {
      ByNameKeepsRest(ls, parts, 0, load, j);
    }
  }

  /** After a swap by distinct names that does not throw, the material a part names wears that
      part's colour, and its texture if it asks for one; the materials no part names are as they were. */
  lemma NamedSwapPaints(ls: seq<Look>, parts: seq<PartSpec>, load: Loader, j: nat)
    requires NameKeyed(parts) && DistinctNames(parts) && j < |ls| && Swap(ls, parts, load).error == None
    ensures |Swap(ls, parts, load).looks| == |ls| && Swap(ls, parts, load).looks[j].name == ls[j].name
    ensures forall k | 0 <= k < |parts| && parts[k].materialName == Some(ls[j].name) ::
              Swap(ls, parts, load).looks[j].color == parts[k].color
              && Textured(Swap(ls, parts, load).looks[j], ls[j], parts[k], k, load)
    ensures (forall k | 0 <= k < |parts| :: parts[k].materialName != Some(ls[j].name)) ==>
              Swap(ls, parts, load).looks[j] == ls[j]
  {
    NamedSwapLooks(ls, parts, load, j);
    ByNameKeepsNames(ls, parts, 0, load);
    NamedSwapSucceeds(ls, parts, load);
    forall k | 0 <= k < |parts| && parts[k].materialName == Some(ls[j].name)
      ensures Swap(ls, parts, load).looks[j].color == parts[k].color
      ensures Textured(Swap(ls, parts, load).looks[j], ls[j], parts[k], k, load)
    {
      assert Resolves(ls, parts[k], load);
    }
  }

  /** Part `k` cannot be applied by its name, for the reason given. */
  predicate Fails(ls: seq<Look>, p: PartSpec, load: Loader, e: Error)
    requires p.materialName.Some?
  {
    var name := p.materialName.value;
    var many := exists i, j | 0 <= i < j < |ls| :: ls[i].name == name && ls[j].name == name;
    var one := exists i | 0 <= i < |ls| :: ls[i].name == name;
    || (many && e == AmbiguousName(name))
    || (!one && e == NameNotFound(name))
    || (one && !many && p.textureId.Some? && p.textureId.value != "" && load(p.textureId.value) == None
        && e == TextureLoad(p.textureId.value))
  }

  lemma FailsNow(ls: seq<Look>, parts: seq<PartSpec>, load: Loader, k: nat, e: Error)
    requires k < |parts| && NameKeyed(parts) && Fails(ls, parts[k], load, e)
    ensures ByName(ls, parts, k, load).error == Some(e)
  {
  }

  lemma {:induction false} ByNameThrows(ls: seq<Look>, parts: seq<PartSpec>, i: nat, load: Loader, k: nat, e: Error)
    requires i <= k < |parts| && NameKeyed(parts) && Fails(ls, parts[k], load, e)
    requires forall m | i <= m < k :: Resolves(ls, parts[m], load)
    ensures ByName(ls, parts, i, load).error == Some(e)
    decreases k - i
  {
    if i < k {
      assert Resolves(ls, parts[i], load);
      var next := ApplyPart(ls, Find(ls, parts[i].materialName.value), parts[i], i, load).looks;
      SameFailures(ls, next, parts[k], load, e);
      SameResolves(ls, next, parts, i + 1, k, load);
      ByNameThrows(next, parts, i + 1, load, k, e);
    } else {
      FailsNow(ls, parts, load, k, e);
    }
  }

  lemma SameResolves(ls: seq<Look>, next: seq<Look>, parts: seq<PartSpec>, i: nat, k: nat, load: Loader)
    requires SameNames(ls, next) && i <= k <= |parts| && NameKeyed(parts)
    requires forall m | i <= m < k :: Resolves(ls, parts[m], load)
    ensures forall m | i <= m < k :: Resolves(next, parts[m], load)
  {
    forall m | i <= m < k ensures Resolves(next, parts[m], load) {
      assert Resolves(ls, parts[m], load);
      NamesDecide(ls, next, parts[m].materialName.value);
    }
  }

  lemma SameFailures(ls: seq<Look>, next: seq<Look>, p: PartSpec, load: Loader, e: Error)
    requires SameNames(ls, next) && p.materialName.Some? && Fails(ls, p, load, e)
    ensures Fails(next, p, load, e)
  {
  }

  /** A named swap throws for the first part that names two materials, or none, or asks for a texture
      that does not load, and says which. */
  lemma NamedSwapThrows(ls: seq<Look>, parts: seq<PartSpec>, load: Loader, k: nat, e: Error)
    requires ls != [] && NameKeyed(parts) && k < |parts| && Fails(ls, parts[k], load, e)
    requires forall m, e' | 0 <= m < k :: !Fails(ls, parts[m], load, e')
    ensures Swap(ls, parts, load).error == Some(e)
  {
    forall m | 0 <= m < k ensures Resolves(ls, parts[m], load) {
      var name := parts[m].materialName.value;
      assert !Fails(ls, parts[m], load, AmbiguousName(name)) && !Fails(ls, parts[m], load, NameNotFound(name));
      assert WantsTexture(parts[m]) ==> !Fails(ls, parts[m], load, TextureLoad(parts[m].textureId.value));
    }
    ByNameThrows(ls, parts, 0, load, k, e);
  }

  /** A base without materials, and unnamed parts of another number, throw before anything is changed. */
  lemma MismatchThrows(ls: seq<Look>, parts: seq<PartSpec>, load: Loader)
    requires ls == [] || (|parts| != |ls| && (parts == [] || exists p | p in parts :: p.materialName == None))
    ensures Swap(ls, parts, load).looks == ls
    ensures Swap(ls, parts, load).error == Some(if ls == [] then NoMaterial else PartCountMismatch(|ls|, |parts|))
  {
  }

  // ---- the gate for uploads ------------------------------------------------------------------------

  /** A mesh as the browser sees it: a vertex count, if it can be asked, and a material's name. */
  datatype MeshLike = MeshLike(totalVertices: Option<int>, material: Option<Option<string>>)

  const MAX_PARTS := 64

  predicate IsRenderable(m: MeshLike) {
    m.totalVertices.Some? && m.totalVertices.value > 0
  }

  function RenderableMaterialNames(meshes: seq<MeshLike>): (names: seq<Option<string>>)
    ensures |names| <= |meshes|
  {
    if meshes == [] then []
    else
      var rest := RenderableMaterialNames(meshes[1..]);
      if !IsRenderable(meshes[0]) then rest
      else [if meshes[0].material.Some? then meshes[0].material.value else None] + rest
  }

  /** The names are those of the meshes with vertices, in their order; a missing material or name is
      `None`. */
  lemma {:induction false} NamesAre(meshes: seq<MeshLike>, last: MeshLike)
    ensures RenderableMaterialNames([]) == []
    ensures RenderableMaterialNames(meshes + [last])
         == RenderableMaterialNames(meshes) +
            (if last.totalVertices.None? || last.totalVertices.value <= 0 then []
             else [if last.material.Some? then last.material.value else None])
  {
    if meshes == [] {
      assert meshes + [last] == [last] && [last][1..] == [];
    } else {
      assert (meshes + [last])[1..] == meshes[1..] + [last];
      NamesAre(meshes[1..], last);
    }
  }

  predicate AllNamesUniqueNonEmpty(names: seq<Option<string>>) {
    if exists n | n in names :: n.None? || n.value == "" then false
    else |(set n | n in names)| == |names|
  }

  predicate IsUploadTaggable(names: seq<Option<string>>) {
    2 <= |names| <= MAX_PARTS && AllNamesUniqueNonEmpty(names)
  }

  ghost predicate AllDifferent(names: seq<Option<string>>) {
    forall i, j | 0 <= i < j < |names| :: names[i] != names[j]
  }

  lemma AllDifferentSnoc(init: seq<Option<string>>, last: Option<string>)
    ensures AllDifferent(init + [last]) <==> AllDifferent(init) && last !in init
  {
    var names := init + [last];
    if last in init {
      var i :| 0 <= i < |init| && init[i] == last;
      assert names[i] == names[|init|];
    }
    assert forall i | 0 <= i < |init| :: names[i] == init[i];
    if i, j :| 0 <= i < j < |init| && init[i] == init[j] {
      assert names[i] == names[j];
    }
  }

  lemma {:induction false} SetSize(names: seq<Option<string>>)
    ensures |(set n | n in names)| <= |names|
    ensures |(set n | n in names)| == |names| <==> AllDifferent(names)
  {
    if names != [] {
      var init, last := names[..|names| - 1], names[|names| - 1];
      assert names == init + [last];
      SetSize(init);
      AllDifferentSnoc(init, last);
      var fewer := set n | n in init;
      assert (set n | n in names) == fewer + {last};
    }
  }

  /** Comparing sizes tells whether the names are non-empty and pairwise different. */
  lemma UniqueNonEmptyIff(names: seq<Option<string>>)
    ensures AllNamesUniqueNonEmpty(names) <==>
      (forall i | 0 <= i < |names| :: names[i].Some? && names[i].value != "")
      && AllDifferent(names)
  {
    SetSize(names);
    if forall i | 0 <= i < |names| :: names[i].Some? && names[i].value != "" {
      assert forall n | n in names :: n.Some? && n.value != "";
    } else {
      var i :| 0 <= i < |names| && !(names[i].Some? && names[i].value != "");
      assert names[i] in names;
    }
  }

  /** An upload is taggable exactly with two to sixty-four parts whose materials have names, all different. */
  lemma TaggableIff(names: seq<Option<string>>)
    ensures IsUploadTaggable(names) <==>
              && 2 <= |names| <= 64
              && (forall i | 0 <= i < |names| :: names[i].Some? && names[i].value != "")
              && forall i, j | 0 <= i < j < |names| :: names[i] != names[j]
  {
    UniqueNonEmptyIff(names);
  }

  /** The parts of a taggable upload, each named as the browser saw it, recolour a base that has
      each name exactly once: nothing is thrown, and every named material wears its part's colour. */
  lemma TaggableUploadsSwap(ls: seq<Look>, meshes: seq<MeshLike>, parts: seq<PartSpec>, load: Loader, j: nat)
    requires IsUploadTaggable(RenderableMaterialNames(meshes))
    requires |parts| == |RenderableMaterialNames(meshes)|
    requires forall k | 0 <= k < |parts| :: parts[k].materialName == RenderableMaterialNames(meshes)[k]
    requires forall k | 0 <= k < |parts| && parts[k].materialName.Some? ::
        Named(ls, parts[k].materialName.value) && !Twice(ls, parts[k].materialName.value) && Loads(parts[k], load)
    requires j < |ls|
    ensures Swap(ls, parts, load).error == None && |Swap(ls, parts, load).looks| == |ls|
    ensures forall k | 0 <= k < |parts| && parts[k].materialName == Some(ls[j].name) ::
              Swap(ls, parts, load).looks[j].color == parts[k].color
              && Textured(Swap(ls, parts, load).looks[j], ls[j], parts[k], k, load)
  {
    UniqueNonEmptyIff(RenderableMaterialNames(meshes));
    assert NameKeyed(parts) && DistinctNames(parts);
    NamedSwapSucceeds(ls, parts, load);
    NamedSwapPaints(ls, parts, load, j);
  }
}
