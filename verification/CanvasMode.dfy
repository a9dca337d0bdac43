/** The canvas modes of `frontend/src/babylon/applyCanvasMode.ts`: meshes that may share
    materials are snapshotted once, then restored and overlaid by every call. */
module CanvasMode {
  import opened JsString
  import opened Wrappers

  datatype Color = Color(r: real, g: real, b: real)

  datatype Mode = Pbr | Parts | Solo | Wireframe

  /** The fields of a material the modes read or write; `None` is an absent field. */
  datatype Look = Look(alpha: Option<real>, wireframe: Option<bool>, albedo: Option<Color>, diffuse: Option<Color>)

  datatype Snapshot = Snapshot(alpha: real, wireframe: bool, albedo: Option<Color>, diffuse: Option<Color>)

  /** The arguments of one call besides the meshes. */
  datatype Call = Call(mode: Mode, highlighted: seq<int>, partColors: Option<seq<string>>)

  // ---- colours ---------------------------------------------------------------------------

  predicate IsHex(c: char) {
    '0' <= c <= '9' || 'a' <= c <= 'f' || 'A' <= c <= 'F'
  }

  function Digit(c: char): (d: nat)
    ensures d < 16
  {
    if '0' <= c <= '9' then c as int - '0' as int
    else if 'a' <= c <= 'f' then c as int - 'a' as int + 10
    else if 'A' <= c <= 'F' then c as int - 'A' as int + 10
    else 0
  }

  function ParseHex(s: string): nat {
    if s == "" then 0 else 16 * ParseHex(s[..|s| - 1]) + Digit(s[|s| - 1])
  }

  predicate SixDigits(s: string) {
    |s| == 6 && forall k | 0 <= k < 6 :: IsHex(s[k])
  }

  /** The digits matched after trimming: at most one leading `#`, then exactly six. */
  function Digits(hex: string): string {
    var t := Trim(hex);
    if t != "" && t[0] == '#' then t[1..] else t
  }

  /** `n >> 16`, `n >> 8` and the masks, on a number that fits in 24 bits. */
  function HexToColor(hex: string): Option<Color> {
    var m := Digits(hex);
    if !SixDigits(m) then None
    else
      var n := ParseHex(m);
      Some(Color((n / 0x1_0000 % 0x100) as real / 255.0, (n / 0x100 % 0x100) as real / 255.0,
                 (n % 0x100) as real / 255.0))
  }

  /** The value 0..255 of two digits. */
  function Channel(hi: char, lo: char): (v: nat)
    ensures v < 0x100
  {
    16 * Digit(hi) + Digit(lo)
  }

  lemma ParseSix(s: string)
    requires |s| == 6
    ensures ParseHex(s) == 0x1_0000 * Channel(s[0], s[1]) + 0x100 * Channel(s[2], s[3]) + Channel(s[4], s[5])
  {
    assert s[..5][..4] == s[..4] && s[..4][..3] == s[..3] && s[..3][..2] == s[..2] && s[..2][..1] == s[..1];
    assert s[..1][..0] == "";
    assert ParseHex(s[..1]) == Digit(s[0]);
    assert ParseHex(s[..2]) == 16 * ParseHex(s[..1]) + Digit(s[1]);
    assert ParseHex(s[..3]) == 16 * ParseHex(s[..2]) + Digit(s[2]);
    assert ParseHex(s[..4]) == 16 * ParseHex(s[..3]) + Digit(s[3]);
    assert ParseHex(s[..5]) == 16 * ParseHex(s[..4]) + Digit(s[4]);
  }

  lemma Bytes(n: nat, r: nat, g: nat, b: nat)
    requires n == 0x1_0000 * r + 0x100 * g + b && r < 0x100 && g < 0x100 && b < 0x100
    ensures n / 0x1_0000 % 0x100 == r && n / 0x100 % 0x100 == g && n % 0x100 == b
  {
    assert n / 0x100 == 0x100 * r + g;
    assert n / 0x1_0000 == r;
  }

  /** The shifts and masks pick out the three pairs of digits; anything else is refused. */
  lemma HexChannels(hex: string)
    ensures HexToColor(hex).Some? <==> SixDigits(Digits(hex))
    ensures SixDigits(Digits(hex)) ==>
      var m := Digits(hex);
      HexToColor(hex).value == Color(Channel(m[0], m[1]) as real / 255.0, Channel(m[2], m[3]) as real / 255.0,
                                     Channel(m[4], m[5]) as real / 255.0)
  {
    var m := Digits(hex);
    if SixDigits(m) {
      ParseSix(m);
      var n, r, g, b := ParseHex(m), Channel(m[0], m[1]), Channel(m[2], m[3]), Channel(m[4], m[5]);
      Bytes(n, r, g, b);
    }
  }

  const LOWER_DIGITS := "0123456789abcdef"
  const UPPER_DIGITS := "0123456789ABCDEF"

  /** `s` writes the six digits `ds`, in letters of either case. */
  predicate Writes(s: string, ds: seq<nat>) {
    |s| == |ds| == 6
    && forall k | 0 <= k < 6 :: ds[k] < 16 && (s[k] == LOWER_DIGITS[ds[k]] || s[k] == UPPER_DIGITS[ds[k]])
  }

  lemma DigitIs(c: char, d: nat)
    requires d < 16
    ensures (c == LOWER_DIGITS[d] || c == UPPER_DIGITS[d]) <==> IsHex(c) && Digit(c) == d
    ensures IsHex(c) ==> c != '#' && !Blank(c)
  {
  }

  lemma WrittenDigits(s: string, ds: seq<nat>)
    requires Writes(s, ds)
    ensures SixDigits(s) && s[0] != '#' && !Blank(s[0]) && !Blank(s[5])
    ensures forall k | 0 <= k < 6 :: Digit(s[k]) == ds[k]
  {
    forall k | 0 <= k < 6 ensures IsHex(s[k]) && Digit(s[k]) == ds[k] && s[k] != '#' && !Blank(s[k]) {
      DigitIs(s[k], ds[k]);
    }
  }

  lemma DigitsAre(before: string, hash: bool, s: string, after: string)
    requires AllBlank(before) && AllBlank(after) && |s| == 6 && s[0] != '#' && !Blank(s[0]) && !Blank(s[5])
    ensures Digits(before + ((if hash then "#" else "") + s) + after) == s
  {
    var core := (if hash then "#" else "") + s;
    assert core[|core| - 1] == s[5] && core[0] == if hash then '#' else s[0];
    TrimDrops(before, core, after);
    assert hash ==> core[1..] == s;
    assert !hash ==> core == s;
  }

  lemma DigitsMean(hex: string, s: string, ds: seq<nat>)
    requires Digits(hex) == s && Writes(s, ds)
    ensures HexToColor(hex)
         == Some(Color((16 * ds[0] + ds[1]) as real / 255.0, (16 * ds[2] + ds[3]) as real / 255.0,
                       (16 * ds[4] + ds[5]) as real / 255.0))
  {
    WrittenDigits(s, ds);
    HexChannels(hex);
  }

  /** Six digits, with or without a `#` before and with any blanks around, are read as three numbers up
      to 255, as parts of 255... */
  lemma HexReadsBack(before: string, hash: bool, s: string, after: string, ds: seq<nat>)
    requires AllBlank(before) && AllBlank(after) && Writes(s, ds)
    ensures HexToColor(before + ((if hash then "#" else "") + s) + after)
         == Some(Color((16 * ds[0] + ds[1]) as real / 255.0, (16 * ds[2] + ds[3]) as real / 255.0,
                       (16 * ds[4] + ds[5]) as real / 255.0))
  {
    WrittenDigits(s, ds);
    DigitsAre(before, hash, s, after);
    DigitsMean(before + ((if hash then "#" else "") + s) + after, s, ds);
  }

  /** ...and nothing else is read. */
  lemma OnlyHexIsRead(hex: string) returns (before: string, hash: bool, s: string, after: string, ds: seq<nat>)
    requires HexToColor(hex).Some?
    ensures hex == before + ((if hash then "#" else "") + s) + after
    ensures AllBlank(before) && AllBlank(after) && Writes(s, ds)
  {
    before, after := TrimCuts(hex);
    HexChannels(hex);
    s := Digits(hex);
    hash := |Trim(hex)| == 7;
    ds := seq(6, k requires 0 <= k < 6 => Digit(s[k]));
    forall k | 0 <= k < 6 ensures s[k] == LOWER_DIGITS[ds[k]] || s[k] == UPPER_DIGITS[ds[k]] {
      DigitIs(s[k], ds[k]);
    }
    assert Trim(hex) == (if hash then "#" else "") + s;
  }

  function Hue(p: real, q: real, t: real): real {
    var u := if t < 0.0 then t + 1.0 else t;
    var v := if u > 1.0 then u - 1.0 else u;
    if v < 1.0 / 6.0 then p + (q - p) * 6.0 * v
    else if v < 1.0 / 2.0 then q
    else if v < 2.0 / 3.0 then p + (q - p) * (2.0 / 3.0 - v) * 6.0
    else p
  }

  const HUES := 16

  function PartsColor(i: int): Color {
    var h := (i % HUES) as real / HUES as real;
    var p, q := 0.15, 0.85;
    Color(Hue(p, q, h + 1.0 / 3.0), Hue(p, q, h), Hue(p, q, h - 1.0 / 3.0))
  }

  /** The colour of part `a` of sixteen, segment by segment around the wheel. */
  lemma Segments(a: int)
    requires 0 <= a < HUES
    ensures var c, x := PartsColor(a), 4.2 * (a as real / 16.0);
            if a <= 2 then c == Color(0.85, 0.15 + x, 0.15)
            else if a <= 5 then c == Color(1.55 - x, 0.85, 0.15)
            else if a < 8 then c == Color(0.15, 0.85, x - 1.25)
            else if a <= 10 then c == Color(0.15, 2.95 - x, 0.85)
            else if a <= 13 then c == Color(x - 2.65, 0.15, 0.85)
            else c == Color(0.85, 0.15, 4.35 - x)
  {
  }

  /** The rainbow tells sixteen parts apart, and repeats after that. */
  lemma PartsApart(i: int, j: int)
    ensures PartsColor(i) == PartsColor(j) <==> i % HUES == j % HUES
  {
    var a, b := i % HUES, j % HUES;
    Segments(a);
    Segments(b);
    assert PartsColor(i) == PartsColor(a) && PartsColor(j) == PartsColor(b);
  }

  // ---- one material's look -----------------------------------------------------------------

  function Capture(m: Option<Look>): Snapshot {
    match m
    case None => Snapshot(1.0, false, None, None)
    case Some(l) =>
      Snapshot(if l.alpha.Some? then l.alpha.value else 1.0, l.wireframe == Some(true), l.albedo, l.diffuse)
  }

  function Restored(l: Look, s: Snapshot): Look {
    Look(Some(s.alpha), Some(s.wireframe),
         if s.albedo.Some? && l.albedo.Some? then s.albedo else l.albedo,
         if s.diffuse.Some? && l.diffuse.Some? then s.diffuse else l.diffuse)
  }

  function Tinted(l: Look, c: Color): Look {
    if l.albedo.Some? then l.(albedo := Some(c)) else if l.diffuse.Some? then l.(diffuse := Some(c)) else l
  }

  /** The look with the defaults written out: opaque, and not in wireframe. */
  function Baseline(l: Look): Look {
    Restored(l, Capture(Some(l)))
  }

  // ---- what a call leaves in a material, from its original look and the call alone -----------

  /** The colour the call gives the mesh at `i`, if any. */
  function TintAt(c: Call, i: nat): Option<Color> {
    if c.mode == Parts then Some(PartsColor(i))
    else if c.partColors.Some? && i < |c.partColors.value| then HexToColor(c.partColors.value[i])
    else None
  }

  function Owners(meshes: seq<Mesh>): seq<Material?> {
    seq(|meshes|, i requires 0 <= i < |meshes| => meshes[i].material)
  }

  /** The colour from the last mesh of `x` among the first `n` that has one. */
  function LastTint(owners: seq<Material?>, x: Material, c: Call, n: nat): Option<Color>
    requires n <= |owners|
  {
    if n == 0 then None
    else if owners[n - 1] == x && TintAt(c, n - 1).Some? then TintAt(c, n - 1)
    else LastTint(owners, x, c, n - 1)
  }

  function Painted(l: Look, t: Option<Color>): Look {
    if t.Some? then Tinted(l, t.value) else l
  }

  /** Some mesh of `x` among the first `n` is not highlighted. */
  predicate Dims(owners: seq<Material?>, x: Material, c: Call, n: nat)
    requires n <= |owners|
  {
    exists i | 0 <= i < n :: owners[i] == x && i !in c.highlighted
  }

  predicate Owns(owners: seq<Material?>, x: Material, n: nat)
    requires n <= |owners|
  {
    x in owners[..n]
  }

  function Overlaid(owners: seq<Material?>, x: Material, l: Look, c: Call, n: nat): Look
    requires n <= |owners|
  {
    match c.mode
    case Solo => if Dims(owners, x, c, n) then l.(alpha := Some(0.2)) else l
    case Wireframe => if Owns(owners, x, n) then l.(wireframe := Some(true)) else l
    case _ => l
  }

  /** What a call lays over a look of `x`. */
  function Dressed(owners: seq<Material?>, x: Material, l: Look, c: Call): Look {
    var n := |owners|;
    Overlaid(owners, x, Painted(l, LastTint(owners, x, c, n)), c, n)
  }

  /** The look a call leaves `x` with, from its original look and the call alone. */
  function After(owners: seq<Material?>, x: Material, original: Look, c: Call): Look {
    Dressed(owners, x, Baseline(original), c)
  }

  // ---- the objects ---------------------------------------------------------------------------

  class Material {
    var alpha: Option<real>
    var wireframe: Option<bool>
    var albedo: Option<Color>
    var diffuse: Option<Color>

    function State(): Look
      reads this
    {
      Look(alpha, wireframe, albedo, diffuse)
    }
  }

  class Mesh {
    const material: Material?
    var snapshot: Option<Snapshot>

    constructor (x: Material?)
      ensures material == x && snapshot == None
    {
      material := x;
      snapshot := None;
    }
  }

  /** The materials of the meshes. */
  ghost function Materials(meshes: seq<Mesh>): set<Material> {
    set m | m in meshes && m.material != null :: m.material
  }

  function MeshSet(meshes: seq<Mesh>): set<Mesh> {
    set m | m in meshes
  }

  // ---- scenes: the snapshots taken so far and the present looks ------------------------------------

  datatype Scene = Scene(snaps: map<Mesh, Snapshot>, looks: map<Material, Look>)

  ghost function SceneOf(all: seq<Mesh>): Scene
    reads all, Materials(all)
  {
    Scene(map m | m in all && m.snapshot.Some? :: m.snapshot.value, map x | x in Materials(all) :: x.State())
  }

  function LookIn(s: Scene, x: Material?): Option<Look> {
    if x != null && x in s.looks then Some(s.looks[x]) else None
  }

  /** The snapshot of the mesh: the one it has, or else one of the present look. */
  function Held(s: Scene, m: Mesh): Snapshot {
    if m in s.snaps then s.snaps[m] else Capture(LookIn(s, m.material))
  }

  function RestoreOne(s: Scene, m: Mesh): Scene {
    Scene(s.snaps[m := Held(s, m)],
          if m.material != null && m.material in s.looks then
            s.looks[m.material := Restored(s.looks[m.material], Held(s, m))]
          else s.looks)
  }

  function RestoreEach(s: Scene, meshes: seq<Mesh>): Scene {
    if meshes == [] then s else RestoreOne(RestoreEach(s, meshes[..|meshes| - 1]), meshes[|meshes| - 1])
  }

  /** One call: every mesh is restored in turn, then the call is laid over the materials shown. */
  function CallOn(s: Scene, meshes: seq<Mesh>, c: Call): Scene {
    DressEach(RestoreEach(s, meshes), Owners(meshes), c)
  }

  function DressEach(r: Scene, owners: seq<Material?>, c: Call): Scene {
    Scene(r.snaps, map x | x in r.looks :: if x in owners then Dressed(owners, x, r.looks[x], c) else r.looks[x])
  }

  function CallsOn(s: Scene, meshes: seq<Mesh>, calls: seq<Call>): Scene {
    if calls == [] then s
    else CallOn(CallsOn(s, meshes, calls[..|calls| - 1]), meshes, calls[|calls| - 1])
  }

  // ---- the operations ------------------------------------------------------------------------

  method RestoreMesh(mesh: Mesh)
    modifies mesh, mesh.material
    ensures mesh.snapshot == if old(mesh.snapshot).Some? then old(mesh.snapshot)
                             else if mesh.material == null then Some(Capture(None))
                             else Some(Capture(Some(old(mesh.material.State()))))
    ensures mesh.material != null ==>
              mesh.material.State() == Restored(old(mesh.material.State()), mesh.snapshot.value)
  {
    if mesh.snapshot == None {
      mesh.snapshot := Some(Capture(if mesh.material == null then None else Some(mesh.material.State())));
    }
    var snap := mesh.snapshot.value;
    var mat := mesh.material;
    if mat != null {
      mat.alpha := Some(snap.alpha);
      mat.wireframe := Some(snap.wireframe);
      if snap.albedo.Some? && mat.albedo.Some? {
        mat.albedo := snap.albedo;
      }
      if snap.diffuse.Some? && mat.diffuse.Some? {
        mat.diffuse := snap.diffuse;
      }
    }
  }

  method SetMeshTint(mesh: Mesh, color: Color)
    modifies mesh.material
    ensures mesh.material != null ==> mesh.material.State() == Tinted(old(mesh.material.State()), color)
    ensures mesh.material != null && old(mesh.material.albedo).Some? ==>
              mesh.material.albedo == Some(color) && mesh.material.diffuse == old(mesh.material.diffuse)
    ensures mesh.material != null && old(mesh.material.albedo).None? && old(mesh.material.diffuse).Some? ==>
              mesh.material.diffuse == Some(color) && mesh.material.albedo == None
  {
    var mat := mesh.material;
    if mat != null {
      if mat.albedo.Some? {
        mat.albedo := Some(color);
      } else if mat.diffuse.Some? {
        mat.diffuse := Some(color);
      }
    }
  }

  method RestoreMeshIn(mesh: Mesh, ghost all: seq<Mesh>)
    requires mesh in all
    modifies mesh, mesh.material
    ensures SceneOf(all) == RestoreOne(old(SceneOf(all)), mesh)
  {
    RestoreMesh(mesh);
    ghost var s := old(SceneOf(all));
    assert mesh.snapshot == Some(Held(s, mesh));
    assert SceneOf(all).snaps == RestoreOne(s, mesh).snaps;
    assert SceneOf(all).looks == RestoreOne(s, mesh).looks;
  }

  method RestoreAll(meshes: seq<Mesh>, ghost all: seq<Mesh>)
    requires forall m | m in meshes :: m in all
    modifies meshes, Materials(meshes)
    ensures SceneOf(all) == RestoreEach(old(SceneOf(all)), meshes)
  {
    ghost var start := SceneOf(all);
    for i := 0 to |meshes|
      invariant SceneOf(all) == RestoreEach(start, meshes[..i])
    {
      RestoreMeshIn(meshes[i], all);
      assert meshes[..i + 1][..i] == meshes[..i];
    }
    assert meshes[..|meshes|] == meshes;
  }

  /** Tint the meshes in turn with the colours the call gives them. */
  method TintAll(meshes: seq<Mesh>, c: Call)
    requires c.mode == Parts || c.partColors.Some?
    modifies Materials(meshes)
    ensures forall x | x in Materials(meshes) ::
        x.State() == Painted(old(x.State()), LastTint(Owners(meshes), x, c, |meshes|))
  {
    ghost var owners := Owners(meshes);
    for i := 0 to |meshes|
      invariant forall x | x in Materials(meshes) :: x.State() == Painted(old(x.State()), LastTint(owners, x, c, i))
    {
      assert owners[i] == meshes[i].material;
      if c.mode == Parts {
        SetMeshTint(meshes[i], PartsColor(i));
      } else if i < |c.partColors.value| && c.partColors.value[i] != "" {
        var color := HexToColor(c.partColors.value[i]);
        if color.Some? {
          SetMeshTint(meshes[i], color.value);
        }
      }
    }
  }

  method Dim(meshes: seq<Mesh>, c: Call)
    requires c.mode == Solo
    modifies Materials(meshes)
    ensures forall x | x in Materials(meshes) :: x.State() == Overlaid(Owners(meshes), x, old(x.State()), c, |meshes|)
  {
    ghost var owners := Owners(meshes);
    for i := 0 to |meshes|
      invariant forall x | x in Materials(meshes) :: x.State() == Overlaid(owners, x, old(x.State()), c, i)
    {
      assert owners[i] == meshes[i].material;
      if i !in c.highlighted && meshes[i].material != null {
        meshes[i].material.alpha := Some(0.2);
      }
    }
  }

  method DrawWires(meshes: seq<Mesh>, c: Call)
    requires c.mode == Wireframe
    modifies Materials(meshes)
    ensures forall x | x in Materials(meshes) :: x.State() == Overlaid(Owners(meshes), x, old(x.State()), c, |meshes|)
  {
    ghost var owners := Owners(meshes);
    for i := 0 to |meshes|
      invariant forall x | x in Materials(meshes) :: x.State() == Overlaid(owners, x, old(x.State()), c, i)
    {
      assert owners[..i + 1] == owners[..i] + [meshes[i].material];
      if meshes[i].material != null {
        meshes[i].material.wireframe := Some(true);
      }
    }
  }

  lemma OwnedIff(meshes: seq<Mesh>, x: Material)
    ensures x in Owners(meshes) <==> x in Materials(meshes)
  {
    if x in Materials(meshes) {
      var i :| 0 <= i < |meshes| && meshes[i].material == x;
      assert Owners(meshes)[i] == x;
    }
  }

  /** The colours of the call, then what its mode lays over them. */
  method Dress(meshes: seq<Mesh>, c: Call)
    modifies Materials(meshes)
    ensures forall x | x in Materials(meshes) :: x.State() == Dressed(Owners(meshes), x, old(x.State()), c)
  {
    if c.mode == Parts || c.partColors.Some? {
      TintAll(meshes, c);
    } else {
      NoTint(Owners(meshes), c, |meshes|);
    }
    if c.mode == Solo {
      Dim(meshes, c);
    } else if c.mode == Wireframe {
      DrawWires(meshes, c);
    }
  }

  /** The call does to the snapshots and looks of all meshes there are what `CallOn` says. */
  method ApplyCanvasMode(meshes: seq<Mesh>, c: Call, ghost all: seq<Mesh>)
    requires forall m | m in meshes :: m in all
    modifies meshes, Materials(meshes)
    ensures SceneOf(all) == CallOn(old(SceneOf(all)), meshes, c)
  {
    RestoreAll(meshes, all);
    DressIn(meshes, c, all);
  }

  method DressIn(meshes: seq<Mesh>, c: Call, ghost all: seq<Mesh>)
    requires forall m | m in meshes :: m in all
    modifies Materials(meshes)
    ensures SceneOf(all) == DressEach(old(SceneOf(all)), Owners(meshes), c)
  {
    ghost var r, owners := SceneOf(all), Owners(meshes);
    Dress(meshes, c);
    forall x | x in r.looks
      ensures x.State() == if x in owners then Dressed(owners, x, r.looks[x], c) else r.looks[x]
    {
      OwnedIff(meshes, x);
    }
    assert SceneOf(all).snaps == r.snaps;
    assert SceneOf(all).looks == DressEach(r, owners, c).looks;
  }

  lemma {:induction false} NoTint(owners: seq<Material?>, c: Call, n: nat)
    requires n <= |owners| && c.mode != Parts && c.partColors.None?
    ensures forall x: Material :: LastTint(owners, x, c, n) == None
  {
    if n > 0 {
      NoTint(owners, c, n - 1);
    }
  }

  // ---- any run of calls ------------------------------------------------------------------------

  /** The look that a snapshot holds. */
  function Worn(s: Snapshot): Look {
    Look(Some(s.alpha), Some(s.wireframe), s.albedo, s.diffuse)
  }

  predicate Fits(l: Look, s: Snapshot) {
    l.albedo.Some? == s.albedo.Some? && l.diffuse.Some? == s.diffuse.Some?
  }

  /** No material gains or loses a colour field after its snapshot was taken. */
  ghost predicate Sound(s: Scene) {
    forall m | m in s.snaps && m.material != null && m.material in s.looks ::
      Fits(s.looks[m.material], s.snaps[m])
  }

  lemma CaptureWorn(l: Look, s: Snapshot)
    ensures Worn(Capture(Some(l))) == Baseline(l)
    ensures Capture(Some(Worn(s))) == s
    ensures Fits(l, s) ==> Restored(l, s) == Worn(s)
    ensures Baseline(Worn(s)) == Worn(s)
  {
  }

  lemma RestoreOneFacts(s: Scene, m: Mesh)
    requires Sound(s)
    ensures var r := RestoreOne(s, m);
            && Sound(r) && r.looks.Keys == s.looks.Keys && r.snaps.Keys == s.snaps.Keys + {m}
            && (forall k | k in s.snaps :: r.snaps[k] == s.snaps[k])
            && (m.material != null && m.material in s.looks ==> r.looks[m.material] == Worn(r.snaps[m]))
  {
  }

  lemma {:induction false} RestoreKeeps(s: Scene, meshes: seq<Mesh>)
    requires Sound(s)
    ensures var r := RestoreEach(s, meshes);
            && Sound(r) && r.looks.Keys == s.looks.Keys && r.snaps.Keys == s.snaps.Keys + MeshSet(meshes)
            && forall k | k in s.snaps :: r.snaps[k] == s.snaps[k]
  {
    if meshes != [] {
      var init, m := meshes[..|meshes| - 1], meshes[|meshes| - 1];
      RestoreKeeps(s, init);
      RestoreOneFacts(RestoreEach(s, init), m);
      assert meshes == init + [m];
    }
  }

  /** A snapshot, once taken, stays. */
  lemma {:induction false} SnapshotStays(s: Scene, meshes: seq<Mesh>, n: nat, m: Mesh)
    requires n <= |meshes| && m in RestoreEach(s, meshes[..n]).snaps
    ensures m in RestoreEach(s, meshes).snaps
    ensures RestoreEach(s, meshes).snaps[m] == RestoreEach(s, meshes[..n]).snaps[m]
  {
    if n < |meshes| {
      var init := meshes[..|meshes| - 1];
      assert init[..n] == meshes[..n];
      SnapshotStays(s, init, n, m);
    } else {
      assert meshes[..n] == meshes;
    }
  }

  /** The last place of the mesh. */
  function PlaceOf(meshes: seq<Mesh>, m: Mesh): (n: nat)
    requires m in meshes
    ensures n < |meshes| && meshes[n] == m
  {
    if meshes[|meshes| - 1] == m then |meshes| - 1 else PlaceOf(meshes[..|meshes| - 1], m)
  }

  /** The list brings `x` back to what the `known` meshes, those shown before, hold of it: its last
      mesh is known, or took its snapshot when the list had brought `x` back already. */
  predicate Regains(known: set<Mesh>, meshes: seq<Mesh>, x: Material)
    decreases |meshes|
  {
    meshes != []
    && var init, m := meshes[..|meshes| - 1], meshes[|meshes| - 1];
       if m.material == x && m in known then true
       else if m.material == x && m in init then Regains(known, init[..PlaceOf(init, m) + 1], x)
       else Regains(known, init, x)
  }

  ghost predicate NoRepeats(meshes: seq<Mesh>) {
    forall i, j | 0 <= i < j < |meshes| :: meshes[i] != meshes[j]
  }

  /** In a list without repetitions: exactly if some known mesh of `x` is there. */
  lemma {:induction false} RegainsIff(known: set<Mesh>, meshes: seq<Mesh>, x: Material)
    requires NoRepeats(meshes)
    ensures Regains(known, meshes, x) <==> exists m | m in meshes :: m in known && m.material == x
  {
    if meshes != [] {
      var init, m := meshes[..|meshes| - 1], meshes[|meshes| - 1];
      RegainsIff(known, init, x);
      assert meshes == init + [m];
    }
  }

  /** Every snapshot of `x` shows it as `original`. */
  ghost predicate Remembers(s: Scene, x: Material, original: Look) {
    forall m | m in s.snaps && m.material == x :: s.snaps[m] == Capture(Some(original))
  }

  lemma {:induction false} OwnersInit(meshes: seq<Mesh>)
    requires meshes != []
    ensures Owners(meshes) == Owners(meshes[..|meshes| - 1]) + [meshes[|meshes| - 1].material]
  {
  }

  /** What restoring the meshes in turn makes of a material, by whatever meshes: its remembered look
      if the list regains it, and else its present one. */
  lemma {:induction false} RestoreDecides(s: Scene, meshes: seq<Mesh>, x: Material, original: Look)
    requires Sound(s) && x in s.looks && Remembers(s, x, original)
    ensures x in RestoreEach(s, meshes).looks
    ensures RestoreEach(s, meshes).looks[x]
         == if x in Owners(meshes) then Baseline(if Regains(s.snaps.Keys, meshes, x) then original else s.looks[x])
            else s.looks[x]
    ensures Regains(s.snaps.Keys, meshes, x) ==> x in Owners(meshes)
    decreases |meshes|, 0
  {
    if meshes != [] {
      var init, m := meshes[..|meshes| - 1], meshes[|meshes| - 1];
      OwnersInit(meshes);
      RestoreDecides(s, init, x, original);
      if m.material == x {
        LastIsWorn(s, meshes, x);
        if m in s.snaps {
          RestoreKeeps(s, meshes);
          CaptureWorn(original, s.snaps[m]);
        } else if m in init {
          var n := PlaceOf(init, m) + 1;
          SnapshotAt(s, init, n, x, original);
          assert meshes[..|init|] == init;
          SnapshotStays(s, meshes, |init|, m);
        } else {
          RestoreKeeps(s, init);
          CaptureWorn(RestoreEach(s, init).looks[x], Capture(None));
          CaptureWorn(original, Capture(Some(original)));
          CaptureWorn(s.looks[x], Capture(Some(s.looks[x])));
        }
      }
    }
  }

  lemma {:induction false} LastIsWorn(s: Scene, meshes: seq<Mesh>, x: Material)
    requires Sound(s) && x in s.looks && meshes != [] && meshes[|meshes| - 1].material == x
    ensures var r, m := RestoreEach(s, meshes), meshes[|meshes| - 1];
            m in r.snaps && x in r.looks && r.looks[x] == Worn(r.snaps[m])
  {
    RestoreKeeps(s, meshes[..|meshes| - 1]);
    RestoreOneFacts(RestoreEach(s, meshes[..|meshes| - 1]), meshes[|meshes| - 1]);
  }

  /** The snapshot of the mesh at `n - 1`. */
  lemma {:induction false} SnapshotAt(s: Scene, meshes: seq<Mesh>, n: nat, x: Material, original: Look)
    requires Sound(s) && x in s.looks && Remembers(s, x, original)
    requires 0 < n <= |meshes| && meshes[n - 1].material == x
    ensures meshes[n - 1] in RestoreEach(s, meshes).snaps
    ensures Worn(RestoreEach(s, meshes).snaps[meshes[n - 1]])
         == Baseline(if Regains(s.snaps.Keys, meshes[..n], x) then original else s.looks[x])
    decreases |meshes|, 1
  {
    var part, m := meshes[..n], meshes[n - 1];
    LastIsWorn(s, part, x);
    RestoreDecides(s, part, x, original);
    OwnersInit(part);
    SnapshotStays(s, meshes, n, m);
  }

  lemma DressedFacts(owners: seq<Material?>, x: Material, l: Look, c: Call, s: Snapshot)
    ensures Fits(Dressed(owners, x, l, c), s) <==> Fits(l, s)
  {
  }

  lemma CallKeepsSound(s: Scene, meshes: seq<Mesh>, c: Call)
    requires Sound(s)
    ensures Sound(CallOn(s, meshes, c)) && CallOn(s, meshes, c).looks.Keys == s.looks.Keys
    ensures CallOn(s, meshes, c).snaps == RestoreEach(s, meshes).snaps
  {
    RestoreKeeps(s, meshes);
    var r, t, owners := RestoreEach(s, meshes), CallOn(s, meshes, c), Owners(meshes);
    forall m | m in t.snaps && m.material != null && m.material in t.looks
      ensures Fits(t.looks[m.material], t.snaps[m])
    {
      DressedFacts(owners, m.material, r.looks[m.material], c, r.snaps[m]);
    }
  }

  /** The last mesh of `x`. */
  function LastOf(meshes: seq<Mesh>, x: Material): Option<Mesh> {
    if meshes == [] then None
    else if meshes[|meshes| - 1].material == x then Some(meshes[|meshes| - 1])
    else LastOf(meshes[..|meshes| - 1], x)
  }

  /** In any sound scene: a material ends as the snapshot of its last mesh in the list. */
  lemma {:induction false} LastMeshDecides(s: Scene, meshes: seq<Mesh>, x: Material)
    requires Sound(s) && x in s.looks && x in Owners(meshes)
    ensures LastOf(meshes, x).Some? && LastOf(meshes, x).value in meshes
    ensures LastOf(meshes, x).value in RestoreEach(s, meshes).snaps && x in RestoreEach(s, meshes).looks
    ensures RestoreEach(s, meshes).looks[x] == Worn(RestoreEach(s, meshes).snaps[LastOf(meshes, x).value])
  {
    var init, m := meshes[..|meshes| - 1], meshes[|meshes| - 1];
    OwnersInit(meshes);
    RestoreKeeps(s, init);
    RestoreOneFacts(RestoreEach(s, init), m);
    if m.material != x {
      LastMeshDecides(s, init, x);
    }
  }

  /** Calls on one list: the last one decides, with what the first one restored. */
  lemma {:induction false} LastCallDecides(s: Scene, meshes: seq<Mesh>, calls: seq<Call>, x: Material)
    requires Sound(s) && x in s.looks && calls != []
    ensures var r, t := RestoreEach(s, meshes), CallsOn(s, meshes, calls);
            && Sound(t) && t.snaps == r.snaps && t.looks.Keys == s.looks.Keys == r.looks.Keys
            && (x in Owners(meshes) ==>
                  t.looks[x] == Dressed(Owners(meshes), x, r.looks[x], calls[|calls| - 1]))
            && (x !in Owners(meshes) ==> t.looks[x] == r.looks[x])
  {
    var init, c := calls[..|calls| - 1], calls[|calls| - 1];
    var r, u := RestoreEach(s, meshes), CallsOn(s, meshes, init);
    RestoreKeeps(s, meshes);
    if init != [] {
      LastCallDecides(s, meshes, init, x);
      NothingNew(u, meshes);
      if x in Owners(meshes) {
        LastMeshDecides(s, meshes, x);
        LastMeshDecides(u, meshes, x);
      } else {
        Untouched(u, meshes, x);
      }
    }
    CallKeepsSound(u, meshes, c);
  }

  lemma {:induction false} NothingNew(s: Scene, meshes: seq<Mesh>)
    requires Sound(s) && forall m | m in meshes :: m in s.snaps
    ensures RestoreEach(s, meshes).snaps == s.snaps && RestoreEach(s, meshes).looks.Keys == s.looks.Keys
  {
    RestoreKeeps(s, meshes);
    assert s.snaps.Keys + MeshSet(meshes) == s.snaps.Keys;
    assert RestoreEach(s, meshes).snaps.Keys == s.snaps.Keys;
  }

  lemma {:induction false} Untouched(s: Scene, meshes: seq<Mesh>, x: Material)
    requires x in s.looks && x !in Owners(meshes)
    ensures x in RestoreEach(s, meshes).looks && RestoreEach(s, meshes).looks[x] == s.looks[x]
  {
    if meshes != [] {
      OwnersInit(meshes);
      Untouched(s, meshes[..|meshes| - 1], x);
    }
  }

  /** One list from a sound scene: what its last call and the remembered look decide. */
  lemma {:induction false} ListDecides(s: Scene, meshes: seq<Mesh>, calls: seq<Call>, x: Material, original: Look)
    requires Sound(s) && x in s.looks && Remembers(s, x, original) && calls != []
    ensures x in CallsOn(s, meshes, calls).looks
    ensures CallsOn(s, meshes, calls).looks[x]
         == if x in Owners(meshes) then
              After(Owners(meshes), x, if Regains(s.snaps.Keys, meshes, x) then original else s.looks[x],
                    calls[|calls| - 1])
            else s.looks[x]
  {
    LastCallDecides(s, meshes, calls, x);
    RestoreDecides(s, meshes, x, original);
  }

  /** Meshes never shown before, shown by any number of calls: the last call alone decides how
      every material looks, relative to how it looked at first. */
  method ShowAll(meshes: seq<Mesh>, calls: seq<Call>)
    requires forall m | m in meshes :: m.snapshot == None
    modifies meshes, Materials(meshes)
    ensures calls != [] ==> forall x | x in Materials(meshes) ::
        x.State() == After(Owners(meshes), x, old(x.State()), calls[|calls| - 1])
  {
    ghost var start := SceneOf(meshes);
    Show(meshes, calls, meshes);
    if calls != [] {
      forall x | x in Materials(meshes)
        ensures x.State() == After(Owners(meshes), x, start.looks[x], calls[|calls| - 1])
      {
        OwnedIff(meshes, x);
        ListDecides(start, meshes, calls, x, start.looks[x]);
        assert SceneOf(meshes).looks[x] == x.State();
      }
    }
  }

  method Show(meshes: seq<Mesh>, calls: seq<Call>, ghost all: seq<Mesh>)
    requires forall m | m in meshes :: m in all
    modifies meshes, Materials(meshes)
    ensures SceneOf(all) == CallsOn(old(SceneOf(all)), meshes, calls)
  {
    ghost var start := SceneOf(all);
    for k := 0 to |calls|
      invariant SceneOf(all) == CallsOn(start, meshes, calls[..k])
    {
      ApplyCanvasMode(meshes, calls[k], all);
      assert calls[..k + 1][..k] == calls[..k];
    }
    assert calls[..|calls|] == calls;
  }

  /** Mesh `i` is the last of `x` with a readable colour among the first `n`. */
  predicate Decides(owners: seq<Material?>, x: Material, c: Call, n: nat, i: nat)
    requires n <= |owners|
  {
    && i < n && owners[i] == x && TintAt(c, i).Some?
    && forall j | i < j < n :: owners[j] == x ==> TintAt(c, j) == None
  }

  /** The colour a material ends with is that of its last mesh with a readable colour. */
  lemma {:induction false} LastTintIs(owners: seq<Material?>, x: Material, c: Call, n: nat, i: nat)
    requires n <= |owners|
    ensures LastTint(owners, x, c, n) == None <==> forall k | 0 <= k < n :: owners[k] == x ==> TintAt(c, k) == None
    ensures Decides(owners, x, c, n, i) ==> LastTint(owners, x, c, n) == TintAt(c, i)
  {
    if n > 0 {
      LastTintIs(owners, x, c, n - 1, i);
    }
  }

  /** Opacity and wireframe after a call: in solo mode a material is dimmed exactly if some mesh of it is
      not highlighted; in wireframe mode every material is drawn in wires. */
  lemma FlagsAfter(meshes: seq<Mesh>, x: Material, original: Look, c: Call)
    requires x in Owners(meshes)
    ensures var l := After(Owners(meshes), x, original, c);
            var hidden := exists i | 0 <= i < |meshes| :: meshes[i].material == x && i !in c.highlighted;
            && l.alpha == (if c.mode == Solo && hidden then Some(0.2)
                           else if original.alpha.Some? then original.alpha else Some(1.0))
            && l.wireframe == Some(c.mode == Wireframe || original.wireframe == Some(true))
  {
    var owners := Owners(meshes);
    assert owners[..|owners|] == owners;
    if i :| 0 <= i < |meshes| && meshes[i].material == x && i !in c.highlighted {
      assert owners[i] == x;
    }
    if c.mode == Solo && Dims(owners, x, c, |owners|) {
      var i :| 0 <= i < |owners| && owners[i] == x && i !in c.highlighted;
      assert meshes[i].material == x;
    }
  }

  /** Mesh `i` is the last one of `x`... */
  predicate IsLast(meshes: seq<Mesh>, x: Material, i: nat) {
    i < |meshes| && meshes[i].material == x && forall j | i < j < |meshes| :: meshes[j].material != x
  }

  /** ...and this one the last among the first `n` whose own colour in the list can be read. */
  predicate IsLastReadable(meshes: seq<Mesh>, x: Material, colors: seq<string>, n: nat, i: nat)
    requires n <= |meshes|
  {
    && i < n && i < |colors| && meshes[i].material == x && HexToColor(colors[i]).Some?
    && forall j | i < j < n && j < |colors| :: meshes[j].material == x ==> HexToColor(colors[j]) == None
  }

  /** Colours after a call: those of the parts in parts mode, whatever else was given; the ones given
      otherwise; and the original ones where no colour can be read.  The albedo takes the colour if
      there is one, and else the diffuse colour. */
  lemma ColorAfter(meshes: seq<Mesh>, x: Material, original: Look, c: Call, i: nat)
    ensures var l := After(Owners(meshes), x, original, c);
            && (c.mode == Parts && IsLast(meshes, x, i) ==> Wears(l, original, Some(PartsColor(i))))
            && (c.mode != Parts && c.partColors.Some?
                && IsLastReadable(meshes, x, c.partColors.value, |meshes|, i) ==>
                  Wears(l, original, HexToColor(c.partColors.value[i])))
            && (c.mode != Parts && !AnyReadable(meshes, x, c) ==> Wears(l, original, None))
  {
    var owners, n := Owners(meshes), |meshes|;
    LastTintIs(owners, x, c, n, i);
    if c.mode != Parts && c.partColors.Some? && LastTint(owners, x, c, n).Some? {
      SomeReadable(meshes, x, c);
    }
  }

  predicate AnyReadable(meshes: seq<Mesh>, x: Material, c: Call) {
    c.partColors.Some?
    && exists i :: 0 <= i < |meshes| && i < |c.partColors.value|
                   && meshes[i].material == x && HexToColor(c.partColors.value[i]).Some?
  }

  lemma {:induction false} LastDecides(owners: seq<Material?>, x: Material, c: Call, n: nat) returns (i: nat)
    requires n <= |owners| && LastTint(owners, x, c, n).Some?
    ensures Decides(owners, x, c, n, i)
  {
    if owners[n - 1] == x && TintAt(c, n - 1).Some? {
      i := n - 1;
    } else {
      i := LastDecides(owners, x, c, n - 1);
    }
  }

  lemma SomeReadable(meshes: seq<Mesh>, x: Material, c: Call)
    requires c.mode != Parts && c.partColors.Some? && LastTint(Owners(meshes), x, c, |meshes|).Some?
    ensures AnyReadable(meshes, x, c)
  {
    var i := LastDecides(Owners(meshes), x, c, |meshes|);
    assert meshes[i].material == x;
  }

  /** The colours of `l` are the original ones, but for `t` in the place that takes a tint. */
  predicate Wears(l: Look, original: Look, t: Option<Color>) {
    && l.albedo == (if t.Some? && original.albedo.Some? then t else original.albedo)
    && l.diffuse == (if t.Some? && original.albedo.None? && original.diffuse.Some? then t else original.diffuse)
  }

  /** Plain mode without colours is the original look, with its defaults written out: the very
      same look exactly when both flags were there. */
  lemma PlainRestores(owners: seq<Material?>, x: Material, original: Look, c: Call)
    requires c.mode == Pbr && c.partColors == None
    ensures After(owners, x, original, c) == Baseline(original)
    ensures Baseline(original) == original <==> original.alpha.Some? && original.wireframe.Some?
  {
    NoTint(owners, c, |owners|);
    var b := Baseline(original);
    assert b.albedo == original.albedo && b.diffuse == original.diffuse;
    if original.alpha.Some? && original.wireframe.Some? {
      assert b.alpha == original.alpha;
      assert b.wireframe.value == original.wireframe.value;
    }
  }

  // ---- meshes shown later ------------------------------------------------------------------------

  /** A look as plain as its original: no colour painted over it that it did not have, and not
      dimmed or drawn in wires unless the original was. */
  predicate LeftPlain(owners: seq<Material?>, x: Material, original: Look, c: Call) {
    var b, n := Baseline(original), |owners|;
    && Painted(b, LastTint(owners, x, c, n)) == b
    && (c.mode == Solo && Dims(owners, x, c, n) ==> b.alpha == Some(0.2))
    && (c.mode == Wireframe && Owns(owners, x, n) ==> b.wireframe == Some(true))
  }

  /** One list shown by `calls`, then another by `later`: what each material ends as.  `original` is
      how it looked at first. */
  lemma {:induction false} TwoLists(looks: map<Material, Look>, early: seq<Mesh>, calls: seq<Call>,
                                    late: seq<Mesh>, later: seq<Call>, x: Material)
    requires x in looks && calls != [] && later != []
    ensures var s := CallsOn(CallsOn(Scene(map[], looks), early, calls), late, later);
            var tinted :=
              if x in Owners(early) then After(Owners(early), x, looks[x], calls[|calls| - 1]) else looks[x];
            && x in s.looks
            && s.looks[x] ==
               if x in Owners(late) then
                 After(Owners(late), x, if Regains(MeshSet(early), late, x) then looks[x] else tinted,
                       later[|later| - 1])
               else tinted
  {
    var s0 := Scene(map[], looks);
    var s1 := CallsOn(s0, early, calls);
    ListDecides(s0, early, calls, x, looks[x]);
    LastCallDecides(s0, early, calls, x);
    RestoreKeeps(s0, early);
    assert s1.snaps.Keys == MeshSet(early);
    forall m | m in s1.snaps && m.material == x ensures s1.snaps[m] == Capture(Some(looks[x])) {
      SnapshotAt(s0, early, PlaceOf(early, m) + 1, x, looks[x]);
      CaptureWorn(looks[x], s1.snaps[m]);
      CaptureWorn(looks[x], Capture(Some(looks[x])));
    }
    ListDecides(s1, late, later, x, looks[x]);
  }

  /** A material shown by two lists, the second time plainly, gets its original look back exactly when
      the second list regains it or the first had left it plain. */
  lemma {:induction false} LateMeshIff(looks: map<Material, Look>, early: seq<Mesh>, calls: seq<Call>,
                                       late: seq<Mesh>, later: seq<Call>, x: Material)
    requires x in looks && calls != [] && later != [] && x in Owners(early) && x in Owners(late)
    requires later[|later| - 1].mode == Pbr && later[|later| - 1].partColors == None
    ensures var s := CallsOn(CallsOn(Scene(map[], looks), early, calls), late, later);
            && x in s.looks
            && (s.looks[x] == Baseline(looks[x])
                <==> Regains(MeshSet(early), late, x)
                     || LeftPlain(Owners(early), x, looks[x], calls[|calls| - 1]))
    ensures NoRepeats(late) ==>
              (Regains(MeshSet(early), late, x) <==> exists m | m in late :: m in early && m.material == x)
  {
    if NoRepeats(late) {
      RegainsIff(MeshSet(early), late, x);
    }
    TwoLists(looks, early, calls, late, later, x);
    var plain, tinted := later[|later| - 1], After(Owners(early), x, looks[x], calls[|calls| - 1]);
    PlainRestores(Owners(late), x, looks[x], plain);
    PlainRestores(Owners(late), x, tinted, plain);
    CaptureWorn(looks[x], Capture(Some(looks[x])));
  }

  /** On the objects: one list is shown, then another that may share meshes and materials with it.
      Replacing the list keeps the first one's look of a shared material as its original; a list that
      grew still regains it. */
  method LateMeshKeepsTint(early: seq<Mesh>, calls: seq<Call>, late: seq<Mesh>, later: seq<Call>)
    requires forall m | m in early + late :: m.snapshot == None
    requires calls != [] && later != []
    modifies early, late, Materials(early), Materials(late)
    ensures forall x | x in Materials(late) ::
              var o := old(x.State());
              var tinted := if x in Materials(early) then After(Owners(early), x, o, calls[|calls| - 1]) else o;
              x.State() == After(Owners(late), x, if Regains(MeshSet(early), late, x) then o else tinted,
                                 later[|later| - 1])
  {
    ghost var all, start := early + late, SceneOf(early + late);
    Show(early, calls, all);
    Show(late, later, all);
    forall x | x in Materials(late)
      ensures var tinted := if x in Materials(early) then After(Owners(early), x, start.looks[x], calls[|calls| - 1])
                            else start.looks[x];
              x.State() == After(Owners(late), x,
                                 if Regains(MeshSet(early), late, x) then start.looks[x] else tinted,
                                 later[|later| - 1])
    {
      OwnedIff(early, x);
      OwnedIff(late, x);
      assert start.snaps == map[];
      TwoLists(start.looks, early, calls, late, later, x);
      assert SceneOf(all).looks[x] == x.State();
    }
  }

  /** A black material shown as a part by mesh `a`, then plainly: mesh `b` alone keeps the rainbow's
      first colour, both meshes together do not. */
  lemma TintStays(a: Mesh, b: Mesh, x: Material, original: Look)
    requires a != b && a.material == x && b.material == x
    requires original.albedo == Some(Color(0.0, 0.0, 0.0))
    ensures var tinted := CallsOn(Scene(map[], map[x := original]), [a], [Call(Parts, [], None)]);
            var alone := CallsOn(tinted, [b], [Call(Pbr, [], None)]);
            var grown := CallsOn(tinted, [b, a], [Call(Pbr, [], None)]);
            && x in alone.looks && alone.looks[x] != Baseline(original)
            && x in grown.looks && grown.looks[x] == Baseline(original)
  {
    var looks, c, plain := map[x := original], Call(Parts, [], None), Call(Pbr, [], None);
    assert Owners([a])[0] == x && Owners([b])[0] == x && Owners([b, a])[0] == x;
    LateMeshIff(looks, [a], [c], [b], [plain], x);
    LateMeshIff(looks, [a], [c], [b, a], [plain], x);
    assert LastTint(Owners([a]), x, c, 1) == Some(PartsColor(0));
    assert PartsColor(0).r == 0.85;
    assert Painted(Baseline(original), Some(PartsColor(0))).albedo.value.r != Baseline(original).albedo.value.r;
    assert a in [b, a];
  }
}
