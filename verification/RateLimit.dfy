/** The fixed-window rate limiter of `backend/src/mcp/auth.ts`.  The same code serves the
    per-address and the per-IP window; each is an instance of the class below. */
module RateLimit {
  import opened BoundedMap
  import opened OrderedMap

  datatype Window = Window(count: nat, resetAt: int)

  datatype Settings = Settings(windowMs: nat, maxPerWindow: nat, maxKeys: nat)

  type Hits = OMap<Window>

  function ExpiredAt(now: int): Window -> bool {
    (w: Window) => now >= w.resetAt
  }

  predicate Live(m: Hits, k: Key, now: int) {
    k in m.vals && now < m.vals[k].resetAt
  }

  /** The map that a call finds once it has made room for a key it does not hold. */
  function Room(s: Settings, m: Hits, key: Key, now: int): Hits
    requires s.maxKeys >= 1
  {
    if !m.Has(key) && m.Size() >= s.maxKeys then m.Sweep(ExpiredAt(now)).Evict(s.maxKeys) else m
  }

  /** One call: the new map, and whether the caller is refused. */
  function Call(s: Settings, m: Hits, key: Key, now: int): (Hits, bool)
    requires s.maxKeys >= 1
  {
    if Live(m, key, now) then
      var w := m.vals[key].(count := m.vals[key].count + 1);
      (m.Set(key, w), w.count > s.maxPerWindow)
    else
      (Room(s, m, key, now).Delete(key).Set(key, Window(1, now + s.windowMs)), false)
  }

  class Limiter {
    const settings: Settings
    var hits: Hits

    ghost predicate Valid()
      reads this
    {
      settings.maxKeys >= 1 && hits.Valid() && hits.Size() <= settings.maxKeys
    }

    constructor (settings: Settings)
      requires settings.maxKeys >= 1
      ensures Valid() && hits == Empty() && this.settings == settings
    {
      this.settings := settings;
      hits := Empty();
    }

    method RateLimited(key: Key, now: int) returns (limited: bool)
      requires Valid()
      modifies this`hits
      ensures Valid()
      ensures (hits, limited) == Call(settings, old(hits), key, now)
    {
      CallKeepsSize(settings, hits, key, now);
      if !hits.Has(key) || now >= hits.vals[key].resetAt {
        if !hits.Has(key) && hits.Size() >= settings.maxKeys {
          SweepExpired(now);
          hits := EvictLoop(hits, settings.maxKeys);
        }
        hits := hits.Delete(key);
        hits := hits.Set(key, Window(1, now + settings.windowMs));
        return false;
      }
      var entry := hits.vals[key];
      hits := hits.Set(key, entry.(count := entry.count + 1));
      return entry.count + 1 > settings.maxPerWindow;
    }

    method SweepExpired(now: int)
      requires Valid()
      modifies this`hits
      ensures Valid()
      ensures hits == old(hits).Sweep(ExpiredAt(now))
    {
      SweepFacts(hits, ExpiredAt(now));
      hits := SweepLoop(hits, ExpiredAt(now));
    }
  }

  lemma {:induction false} RoomFacts(s: Settings, m: Hits, key: Key, now: int)
    requires s.maxKeys >= 1 && m.Valid() && m.Size() <= s.maxKeys
    ensures var r := Room(s, m, key, now);
            && r.Valid() && r.Size() <= s.maxKeys && (!m.Has(key) ==> !r.Has(key) && r.Size() < s.maxKeys)
            && (forall k :: k in r.vals ==> k in m.vals && r.vals[k] == m.vals[k])
  {
    MakeRoomFacts(m, ExpiredAt(now), s.maxKeys);
  }

  lemma {:induction false} CallKeepsSize(s: Settings, m: Hits, key: Key, now: int)
    requires s.maxKeys >= 1 && m.Valid() && m.Size() <= s.maxKeys
    ensures Call(s, m, key, now).0.Valid() && Call(s, m, key, now).0.Size() <= s.maxKeys
  {
    if Live(m, key, now) {
      SetValid(m, key, m.vals[key].(count := m.vals[key].count + 1));
    } else {
      var r := Room(s, m, key, now);
      RoomFacts(s, m, key, now);
      DeleteValid(r, key);
      SetValid(r.Delete(key), key, Window(1, now + s.windowMs));
    }
  }

  // ---- insertion order is the order in which windows end ---------------------

  ghost predicate EndsBy(m: Hits, i: int, j: int)
    requires 0 <= i < j < |m.keys|
  {
    m.keys[i] in m.vals && m.keys[j] in m.vals && m.vals[m.keys[i]].resetAt <= m.vals[m.keys[j]].resetAt
  }

  ghost predicate Ordered(m: Hits) {
    forall i, j :: 0 <= i < j < |m.keys| ==> EndsBy(m, i, j)
  }

  /** What every reachable map satisfies at time `now`. */
  ghost predicate Inv(s: Settings, m: Hits, now: int) {
    && m.Valid() && m.Size() <= s.maxKeys && Ordered(m)
    && forall k :: k in m.vals ==> m.vals[k].resetAt <= now + s.windowMs
  }

  function EndOf(m: Hits): Key -> int {
    (k: Key) => if k in m.vals then m.vals[k].resetAt else 0
  }

  lemma {:induction false} RestrictOrdered(m: Hits, keep: set<Key>)
    requires m.Valid() && Ordered(m)
    ensures Ordered(m.Restrict(keep))
  {
    SelectMembers(m.keys, keep);
    var r := m.Restrict(keep);
    forall p, q | 0 <= p < q < |m.keys| ensures EndOf(m)(m.keys[p]) <= EndOf(m)(m.keys[q]) {
      assert EndsBy(m, p, q);
    }
    forall i, j | 0 <= i < j < |r.keys| ensures EndsBy(r, i, j) {
      SelectOrder(m.keys, keep, EndOf(m), i, j);
      assert m.Listed(r.keys[i]) && m.Listed(r.keys[j]);
    }
  }

  lemma {:induction false} NewestOrdered(m: Hits, n: nat)
    requires m.Valid() && Ordered(m) && n <= |m.keys|
    ensures Ordered(m.Newest(n))
  {
    var r := m.Newest(n);
    forall i, j | 0 <= i < j < |r.keys| ensures EndsBy(r, i, j) {
      assert EndsBy(m, i + n, j + n);
      assert r.keys[i] in m.keys[n..] && r.keys[j] in m.keys[n..];
    }
  }

  lemma {:induction false} SweepKeepsInv(s: Settings, m: Hits, t: int, now: int)
    requires Inv(s, m, t) && t <= now
    ensures Inv(s, m.Sweep(ExpiredAt(now)), now)
  {
    RestrictOrdered(m, m.Unexpired(ExpiredAt(now)));
    SweepFacts(m, ExpiredAt(now));
  }

  lemma {:induction false} RoomOrdered(s: Settings, m: Hits, key: Key, now: int)
    requires s.maxKeys >= 1 && m.Valid() && Ordered(m)
    ensures Ordered(Room(s, m, key, now))
  {
    RestrictOrdered(m, m.Unexpired(ExpiredAt(now)));
    SweepFacts(m, ExpiredAt(now));
    var w := m.Sweep(ExpiredAt(now));
    if |w.keys| >= s.maxKeys { NewestOrdered(w, |w.keys| - s.maxKeys + 1); }
  }

  lemma {:induction false} AppendOrdered(m: Hits, key: Key, w: Window)
    requires m.Valid() && Ordered(m) && !m.Has(key)
    requires forall k :: k in m.vals ==> m.vals[k].resetAt <= w.resetAt
    ensures Ordered(m.Set(key, w))
  {
    var r := m.Set(key, w);
    forall i, j | 0 <= i < j < |r.keys| ensures EndsBy(r, i, j) {
      assert m.Listed(r.keys[i]) && m.Listed(key);
      if j < |m.keys| { assert EndsBy(m, i, j); }
    }
  }

  lemma {:induction false} RenewOrdered(m: Hits, key: Key, w: Window)
    requires m.Valid() && Ordered(m) && m.Has(key) && w.resetAt == m.vals[key].resetAt
    ensures Ordered(m.Set(key, w))
  {
    var r := m.Set(key, w);
    forall i, j | 0 <= i < j < |r.keys| ensures EndsBy(r, i, j) { assert EndsBy(m, i, j); }
  }

  lemma {:induction false} OpenOrdered(s: Settings, m: Hits, key: Key, now: int)
    requires s.maxKeys >= 1 && m.Valid() && m.Size() <= s.maxKeys && Ordered(m)
    requires forall k :: k in m.vals ==> m.vals[k].resetAt <= now + s.windowMs
    ensures Ordered(Room(s, m, key, now).Delete(key).Set(key, Window(1, now + s.windowMs)))
  {
    RoomFacts(s, m, key, now);
    RoomOrdered(s, m, key, now);
    var room := Room(s, m, key, now);
    RestrictOrdered(room, set x | x in room.vals && x != key);
    DeleteValid(room, key);
    AppendOrdered(room.Delete(key), key, Window(1, now + s.windowMs));
  }

  /** A call keeps the invariant: the map stays within `maxKeys`, and its insertion order
      is the order in which the windows end. */
  lemma {:induction false} CallKeepsInv(s: Settings, m: Hits, key: Key, t: int, now: int)
    requires s.maxKeys >= 1 && Inv(s, m, t) && t <= now
    ensures Inv(s, Call(s, m, key, now).0, now)
  {
    CallKeepsSize(s, m, key, now);
    if Live(m, key, now) {
      RenewOrdered(m, key, m.vals[key].(count := m.vals[key].count + 1));
    } else {
      OpenOrdered(s, m, key, now);
    }
  }

  // ---- what an eviction costs -------------------------------------------------

  /** The keys whose window is open at `now`. */
  ghost function LiveKeys(m: Hits, now: int): set<Key> {
    m.Unexpired(ExpiredAt(now))
  }

  /** A call drops a live window exactly when its key is absent and `maxKeys` windows are
      live... */
  lemma {:induction false} EvictsWhenFull(s: Settings, m: Hits, key: Key, t: int, now: int)
    requires s.maxKeys >= 1 && Inv(s, m, t) && t <= now
    ensures (exists k :: Live(m, k, now) && k !in Call(s, m, key, now).0.vals)
       <==> !m.Has(key) && |LiveKeys(m, now)| == s.maxKeys
  {
    SweepFacts(m, ExpiredAt(now));
    if Live(m, key, now) {
    } else if m.Has(key) || |LiveKeys(m, now)| < s.maxKeys {
      KeepsLive(s, m, key, now);
    } else {
      var k := VictimIsOldest(s, m, key, now);
    }
  }

  lemma {:induction false} VictimIsOldest(s: Settings, m: Hits, key: Key, now: int) returns (k: Key)
    requires s.maxKeys >= 1 && m.Valid() && m.Size() <= s.maxKeys
    requires !m.Has(key) && |LiveKeys(m, now)| == s.maxKeys
    ensures var w := m.Sweep(ExpiredAt(now)); |w.keys| > 0 && k == w.keys[0]
    ensures Live(m, k, now) && k !in Call(s, m, key, now).0.vals
    ensures forall x :: Live(m, x, now) && x != k ==> x in Call(s, m, key, now).0.vals
  {
    var w := m.Sweep(ExpiredAt(now));
    SweepFacts(m, ExpiredAt(now));
    k := w.keys[0];
    assert w.keys[0..] == w.keys;
    assert w.Listed(k);
    assert Room(s, m, key, now) == w.Newest(1);
    forall x ensures x in w.keys[1..] <==> x in w.vals && x != k { SuffixMember(w.keys, 0, x); assert w.Listed(x); }
  }

  /** ...and the window dropped ends no later than any other live one. */
  lemma {:induction false} DropEndsFirst(s: Settings, m: Hits, key: Key, t: int, now: int, k: Key, x: Key)
    requires s.maxKeys >= 1 && Inv(s, m, t) && t <= now
    requires Live(m, k, now) && k !in Call(s, m, key, now).0.vals && Live(m, x, now)
    ensures m.vals[k].resetAt <= m.vals[x].resetAt
  {
    EvictsWhenFull(s, m, key, t, now);
    var first := VictimIsOldest(s, m, key, now);
    var w := m.Sweep(ExpiredAt(now));
    RestrictOrdered(m, m.Unexpired(ExpiredAt(now)));
    SweepFacts(m, ExpiredAt(now));
    assert w.Listed(x);
    var j :| 0 <= j < |w.keys| && w.keys[j] == x;
    if j > 0 { assert EndsBy(w, 0, j); }
  }

  // ---- runs -------------------------------------------------------------------

  datatype Op = CallAt(key: Key, at: int) | SweepAt(at: int)

  /** Time never runs backwards, starting at `t`. */
  predicate Timely(ops: seq<Op>, t: int) {
    ops == [] || (t <= ops[0].at && Timely(ops[1..], ops[0].at))
  }

  function Step(s: Settings, m: Hits, op: Op): (Hits, bool)
    requires s.maxKeys >= 1
  {
    match op
    case CallAt(key, at) => Call(s, m, key, at)
    case SweepAt(at) => (m.Sweep(ExpiredAt(at)), false)
  }

  lemma {:induction false} StepKeepsInv(s: Settings, m: Hits, op: Op, t: int)
    requires s.maxKeys >= 1 && Inv(s, m, t) && t <= op.at
    ensures Inv(s, Step(s, m, op).0, op.at)
  {
    match op
    case CallAt(key, at) => CallKeepsInv(s, m, key, t, at);
    case SweepAt(at) => SweepKeepsInv(s, m, t, at);
  }

  function LastAt(ops: seq<Op>, t: int): int
    decreases ops
  {
    if ops == [] then t else LastAt(ops[1..], ops[0].at)
  }

  /** The map after a run. */
  function Run(s: Settings, m: Hits, ops: seq<Op>): Hits
    requires s.maxKeys >= 1
    decreases ops
  {
    if ops == [] then m else Run(s, Step(s, m, ops[0]).0, ops[1..])
  }

  /** Every run of calls and sweeps stays within `maxKeys` and in the order of window ends. */
  lemma {:induction false} RunInv(s: Settings, m: Hits, ops: seq<Op>, t: int)
    requires s.maxKeys >= 1 && Inv(s, m, t) && Timely(ops, t)
    ensures Inv(s, Run(s, m, ops), LastAt(ops, t))
    decreases ops
  {
    if ops != [] {
      StepKeepsInv(s, m, ops[0], t);
      RunInv(s, Step(s, m, ops[0]).0, ops[1..], ops[0].at);
    }
  }

  /** After any run, a live window that a call drops ends no later than any other live one. */
  lemma VictimEndsFirst(s: Settings, ops: seq<Op>, t: int, key: Key, now: int, k: Key, x: Key)
    requires s.maxKeys >= 1 && Timely(ops, t) && LastAt(ops, t) <= now
    requires var m := Run(s, Empty(), ops);
             Live(m, k, now) && k !in Call(s, m, key, now).0.vals && Live(m, x, now)
    ensures var m := Run(s, Empty(), ops); m.vals[k].resetAt <= m.vals[x].resetAt
  {
    assert Distinct([]);
    RunInv(s, Empty(), ops, t);
    DropEndsFirst(s, Run(s, Empty(), ops), key, LastAt(ops, t), now, k, x);
  }

  /** The answers of a run: refused or not, call by call. */
  function Answers(s: Settings, m: Hits, ops: seq<Op>): seq<bool>
    requires s.maxKeys >= 1
    decreases ops
  {
    if ops == [] then [] else [Step(s, m, ops[0]).1] + Answers(s, Step(s, m, ops[0]).0, ops[1..])
  }

  // ---- the limiter refines one that never forgets ------------------------------

  type Windows = map<Key, Window>

  predicate Open(u: Windows, k: Key, now: int) {
    k in u && now < u[k].resetAt
  }

  /** The unbounded limiter: every key keeps its last window for ever. */
  function FreeStep(s: Settings, u: Windows, op: Op): (Windows, bool) {
    match op
    case SweepAt(_) => (u, false)
    case CallAt(key, at) =>
      if Open(u, key, at) then (u[key := u[key].(count := u[key].count + 1)], u[key].count + 1 > s.maxPerWindow)
      else (u[key := Window(1, at + s.windowMs)], false)
  }

  function FreeAnswers(s: Settings, u: Windows, ops: seq<Op>): seq<bool>
    decreases ops
  {
    if ops == [] then [] else [FreeStep(s, u, ops[0]).1] + FreeAnswers(s, FreeStep(s, u, ops[0]).0, ops[1..])
  }

  function OpenKeys(u: Windows, now: int): set<Key> {
    set k | k in u && now < u[k].resetAt
  }

  /** After each operation of the run, at most `maxKeys` keys have an open window. */
  predicate Uncrowded(s: Settings, u: Windows, ops: seq<Op>)
    decreases ops
  {
    ops == [] ||
    (var u' := FreeStep(s, u, ops[0]).0;
     |OpenKeys(u', ops[0].at)| <= s.maxKeys && Uncrowded(s, u', ops[1..]))
  }

  /** The bounded map holds a part of the unbounded one, with every open window. */
  ghost predicate Refines(m: Hits, u: Windows, now: int) {
    && (forall k :: k in m.vals ==> k in u && u[k] == m.vals[k])
    && (forall k :: Open(u, k, now) ==> k in m.vals)
  }

  lemma {:induction false} StepRefines(s: Settings, m: Hits, u: Windows, op: Op, t: int)
    requires s.maxKeys >= 1 && Inv(s, m, t) && t <= op.at && Refines(m, u, t)
    requires |OpenKeys(FreeStep(s, u, op).0, op.at)| <= s.maxKeys
    ensures Step(s, m, op).1 == FreeStep(s, u, op).1
    ensures Refines(Step(s, m, op).0, FreeStep(s, u, op).0, op.at)
  {
    if op.CallAt? && !Live(m, op.key, op.at) {
      FewAreLive(s, m, u, op.key, op.at, t);
      KeepsLive(s, m, op.key, op.at);
      RoomFacts(s, m, op.key, op.at);
    }
  }

  lemma {:induction false} FewAreLive(s: Settings, m: Hits, u: Windows, key: Key, now: int, t: int)
    requires s.maxKeys >= 1 && Inv(s, m, t) && t <= now && Refines(m, u, t) && !Live(m, key, now)
    requires |OpenKeys(u[key := Window(1, now + s.windowMs)], now)| <= s.maxKeys
    ensures |LiveKeys(m, now)| < s.maxKeys
  {
    var live := LiveKeys(m, now);
    if s.windowMs == 0 {
      assert live == {};
    } else {
      assert OpenKeys(u[key := Window(1, now + s.windowMs)], now) == live + {key};
    }
  }

  lemma {:induction false} KeepsLive(s: Settings, m: Hits, key: Key, now: int)
    requires s.maxKeys >= 1 && m.Valid() && !Live(m, key, now) && (m.Has(key) || |LiveKeys(m, now)| < s.maxKeys)
    ensures forall k :: Live(m, k, now) ==> k in Call(s, m, key, now).0.vals
  {
    MakeRoomFacts(m, ExpiredAt(now), s.maxKeys);
  }

  /** While at most `maxKeys` keys have open windows, every answer is the answer of the
      unbounded limiter. */
  lemma {:induction false} AnswersRefine(s: Settings, m: Hits, u: Windows, ops: seq<Op>, t: int)
    requires s.maxKeys >= 1 && Inv(s, m, t) && Timely(ops, t) && Refines(m, u, t) && Uncrowded(s, u, ops)
    ensures Answers(s, m, ops) == FreeAnswers(s, u, ops)
    decreases ops
  {
    if ops != [] {
      StepRefines(s, m, u, ops[0], t);
      StepKeepsInv(s, m, ops[0], t);
      AnswersRefine(s, Step(s, m, ops[0]).0, FreeStep(s, u, ops[0]).0, ops[1..], ops[0].at);
    }
  }

  lemma {:induction false} RefinesUnbounded(s: Settings, ops: seq<Op>, t: int)
    requires s.maxKeys >= 1 && Timely(ops, t) && Uncrowded(s, map[], ops)
    ensures Answers(s, Empty(), ops) == FreeAnswers(s, map[], ops)
  {
    assert Distinct([]);
    AnswersRefine(s, Empty(), map[], ops, t);
  }

  // ---- at most two full windows in any interval of one window's length ----------

  /** Calls by `x` that the run admits in [lo, hi). */
  function Admitted(s: Settings, m: Hits, ops: seq<Op>, x: Key, lo: int, hi: int): nat
    requires s.maxKeys >= 1
    decreases ops
  {
    if ops == [] then 0
    else
      var (m', limited) := Step(s, m, ops[0]);
      (if ops[0].CallAt? && ops[0].key == x && lo <= ops[0].at < hi && !limited then 1 else 0)
      + Admitted(s, m', ops[1..], x, lo, hi)
  }

  /** The run never evicts the open window of `x`. */
  predicate KeepsWindow(s: Settings, m: Hits, ops: seq<Op>, x: Key)
    requires s.maxKeys >= 1
    decreases ops
  {
    ops == [] ||
    (var m' := Step(s, m, ops[0]).0;
     (Live(m, x, ops[0].at) ==> x in m'.vals) && KeepsWindow(s, m', ops[1..], x))
  }

  /** A window admits at most this many calls: its first call is never refused. */
  function PerWindow(s: Settings): nat {
    if s.maxPerWindow >= 1 then s.maxPerWindow else 1
  }

  function Charged(s: Settings, w: Window): nat {
    if w.count <= PerWindow(s) then w.count else PerWindow(s)
  }

  /** `n` calls by `x` were admitted since `lo`, at time `t`: those of a window begun before
      `lo`, plus those of at most one window begun since. */
  predicate Paid(s: Settings, m: Hits, x: Key, lo: int, t: int, n: nat) {
    if t < lo then n == 0
    else if t >= lo + s.windowMs then n <= 2 * PerWindow(s)
    else if x !in m.vals then n <= PerWindow(s)
    else if m.vals[x].resetAt - s.windowMs < lo then n <= Charged(s, m.vals[x])
    else n <= PerWindow(s) + Charged(s, m.vals[x])
  }

  lemma {:induction false} StepPaid(s: Settings, m: Hits, op: Op, x: Key, lo: int, t: int, n: nat)
    requires s.maxKeys >= 1 && Inv(s, m, t) && t <= op.at && Paid(s, m, x, lo, t, n)
    requires Live(m, x, op.at) ==> x in Step(s, m, op).0.vals
    ensures var (m', limited) := Step(s, m, op);
            Paid(s, m', x, lo, op.at,
              n + if op.CallAt? && op.key == x && lo <= op.at < lo + s.windowMs && !limited then 1 else 0)
  {
    match op
    case SweepAt(at) => SweepFacts(m, ExpiredAt(at));
    case CallAt(key, at) => RoomFacts(s, m, key, at);
  }

  /** In any half-open interval of length `windowMs`, at most twice the window's allowance
      is admitted for a key whose open window is never evicted. */
  lemma {:induction false} AdmittedBound(s: Settings, m: Hits, ops: seq<Op>, x: Key, lo: int, t: int, n: nat)
    requires s.maxKeys >= 1 && Inv(s, m, t) && Timely(ops, t) && KeepsWindow(s, m, ops, x) && Paid(s, m, x, lo, t, n)
    ensures n + Admitted(s, m, ops, x, lo, lo + s.windowMs) <= 2 * PerWindow(s)
    decreases ops
  {
    if ops != [] {
      var op := ops[0];
      var (m', limited) := Step(s, m, op);
      StepPaid(s, m, op, x, lo, t, n);
      StepKeepsInv(s, m, op, t);
      var one := if op.CallAt? && op.key == x && lo <= op.at < lo + s.windowMs && !limited then 1 else 0;
      AdmittedBound(s, m', ops[1..], x, lo, op.at, n + one);
    }
  }

  lemma {:induction false} AtMostTwoWindows(s: Settings, ops: seq<Op>, x: Key, lo: int, t: int)
    requires s.maxKeys >= 1 && Timely(ops, t) && KeepsWindow(s, Empty(), ops, x)
    ensures Admitted(s, Empty(), ops, x, lo, lo + s.windowMs) <= 2 * PerWindow(s)
  {
    AdmittedBound(s, Empty(), ops, x, lo, t, 0);
  }

  /** An uncrowded run evicts no open window, so the bound holds of every key. */
  lemma {:induction false} UncrowdedKeepsWindow(s: Settings, m: Hits, u: Windows, ops: seq<Op>, t: int, x: Key)
    requires s.maxKeys >= 1 && Inv(s, m, t) && Timely(ops, t) && Refines(m, u, t) && Uncrowded(s, u, ops)
    ensures KeepsWindow(s, m, ops, x)
    decreases ops
  {
    if ops != [] {
      StepRefines(s, m, u, ops[0], t);
      StepKeepsInv(s, m, ops[0], t);
      UncrowdedKeepsWindow(s, Step(s, m, ops[0]).0, FreeStep(s, u, ops[0]).0, ops[1..], ops[0].at, x);
    }
  }

  /** In an uncrowded run every key gets at most two full windows in any interval of one window. */
  lemma UncrowdedAtMostTwoWindows(s: Settings, ops: seq<Op>, x: Key, lo: int, t: int)
    requires s.maxKeys >= 1 && Timely(ops, t) && Uncrowded(s, map[], ops)
    ensures Admitted(s, Empty(), ops, x, lo, lo + s.windowMs) <= 2 * PerWindow(s)
  {
    assert Distinct([]);
    UncrowdedKeepsWindow(s, Empty(), map[], ops, t, x);
    AtMostTwoWindows(s, ops, x, lo, t);
  }

  // ---- which calls are refused ---------------------------------------------------------------

  function CallsOf(ops: seq<Op>, x: Key): nat {
    if ops == [] then 0
    else CallsOf(ops[..|ops| - 1], x) + if ops[|ops| - 1].CallAt? && ops[|ops| - 1].key == x then 1 else 0
  }

  lemma {:induction false} CallsFirst(ops: seq<Op>, x: Key)
    requires ops != []
    ensures CallsOf(ops, x) == (if ops[0].CallAt? && ops[0].key == x then 1 else 0) + CallsOf(ops[1..], x)
  {
    if |ops| > 1 {
      var n := |ops| - 1;
      CallsFirst(ops[..n], x);
      assert ops[1..][..n - 1] == ops[..n][1..] && ops[1..][n - 1] == ops[n];
    } else {
      assert ops[1..] == [] && ops[..0] == [];
    }
  }

  lemma {:induction false} CountedInWindow(s: Settings, u: Windows, ops: seq<Op>, x: Key, i: nat)
    requires i < |ops| && ops[i].CallAt? && ops[i].key == x
    requires x in u && forall op | op in ops :: op.at < u[x].resetAt
    ensures |FreeAnswers(s, u, ops)| == |ops|
    ensures FreeAnswers(s, u, ops)[i] <==> u[x].count + CallsOf(ops[..i + 1], x) > s.maxPerWindow
    decreases ops
  {
    AnswersMatch(s, u, ops);
    var u' := FreeStep(s, u, ops[0]).0;
    CallsFirst(ops[..i + 1], x);
    assert ops[..i + 1][1..] == ops[1..][..i];
    assert ops[0] in ops;
    if i > 0 {
      CountedInWindow(s, u', ops[1..], x, i - 1);
    } else {
      assert ops[..1][1..] == [];
    }
  }

  lemma {:induction false} AnswersMatch(s: Settings, u: Windows, ops: seq<Op>)
    ensures |FreeAnswers(s, u, ops)| == |ops|
    decreases ops
  {
    if ops != [] {
      AnswersMatch(s, FreeStep(s, u, ops[0]).0, ops[1..]);
    }
  }

  /** The calls of a window, for the limiter that never forgets, and so for this one in uncrowded runs: a
      first call with no window open is let in, and opens one; and of the calls of that key until the
      window ends exactly those from number `maxPerWindow + 1` on are refused. */
  lemma {:induction false} RefusedFromTheLimitOn(s: Settings, u: Windows, ops: seq<Op>, x: Key, i: nat)
    requires |ops| > 0 && ops[0].CallAt? && ops[0].key == x && (x !in u || u[x].resetAt <= ops[0].at)
    requires i < |ops| && ops[i].CallAt? && ops[i].key == x
    requires forall op | op in ops :: op.at < ops[0].at + s.windowMs
    ensures |FreeAnswers(s, u, ops)| == |ops|
    ensures FreeAnswers(s, u, ops)[i] <==> i > 0 && CallsOf(ops[..i + 1], x) > s.maxPerWindow
  {
    AnswersMatch(s, u, ops);
    var u' := FreeStep(s, u, ops[0]).0;
    assert u'[x] == Window(1, ops[0].at + s.windowMs);
    if i > 0 {
      CountedInWindow(s, u', ops[1..], x, i - 1);
      CallsFirst(ops[..i + 1], x);
      assert ops[..i + 1][1..] == ops[1..][..i];
    }
  }
}
