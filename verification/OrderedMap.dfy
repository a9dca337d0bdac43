/** The JavaScript `Map` (section 24.1 of ECMA-262) as a value: the keys in insertion
    order, and the value of each key.  Setting a key that is present keeps its place;
    a new key goes last.

    The bounded stores of the backend sweep and evict; `Sweep` and `Evict` say in closed form what
    those loops leave. */
module OrderedMap {

  /** A key: an opaque string. */
  datatype Key = Key(text: string)

  ghost predicate Apart(s: seq<Key>, i: int, j: int)
    requires 0 <= i < j < |s|
  {
    s[i] != s[j]
  }

  /** No key occurs twice.  This and `OMap.Valid` are stated through named predicates, so
      that the solver looks at a pair of positions, or at a key, only where a proof does. */
  ghost predicate Distinct(s: seq<Key>) {
    forall i, j :: 0 <= i < j < |s| ==> Apart(s, i, j)
  }

  /** The elements of `s` that are in `keep`, in their order. */
  function Select(s: seq<Key>, keep: set<Key>): (r: seq<Key>) {
    if s == [] then []
    else if s[|s| - 1] in keep then Select(s[..|s| - 1], keep) + [s[|s| - 1]]
    else Select(s[..|s| - 1], keep)
  }

  datatype OMap<V> = OMap(keys: seq<Key>, vals: map<Key, V>) {

    ghost predicate Listed(k: Key) {
      k in keys <==> k in vals
    }

    ghost predicate Valid() {
      Distinct(keys) && forall k :: Listed(k)
    }

    function Size(): nat { |keys| }

    predicate Has(k: Key) { k in vals }

    function Set(k: Key, v: V): OMap<V> {
      OMap(if k in vals then keys else keys + [k], vals[k := v])
    }

    /** Keep exactly the keys in `keep`. */
    function Restrict(keep: set<Key>): OMap<V> {
      OMap(Select(keys, keep), map k | k in vals && k in keep :: vals[k])
    }

    function Delete(k: Key): OMap<V> {
      Restrict(set x | x in vals && x != k)
    }

    function Unexpired(expired: V -> bool): set<Key> {
      set k | k in vals && !expired(vals[k])
    }

    function Sweep(expired: V -> bool): OMap<V> {
      Restrict(Unexpired(expired))
    }

    /** The map without its oldest `n` keys. */
    function Newest(n: nat): OMap<V>
      requires n <= |keys|
    {
      OMap(keys[n..], map k | k in vals && k in keys[n..] :: vals[k])
    }

    /** Drop oldest keys until fewer than `cap` are left. */
    function Evict(cap: nat): OMap<V>
      requires cap >= 1
    {
      if |keys| < cap then this else Newest(|keys| - cap + 1)
    }
  }

  function Empty<V>(): OMap<V> { OMap([], map[]) }

  lemma {:induction false} DistinctSnoc(s: seq<Key>, k: Key)
    ensures Distinct(s + [k]) <==> Distinct(s) && k !in s
  {
    var t := s + [k];
    if Distinct(t) {
      forall i, j | 0 <= i < j < |s| ensures Apart(s, i, j) { assert Apart(t, i, j); }
      forall i | 0 <= i < |s| ensures s[i] != k { assert Apart(t, i, |s|); }
    }
    if Distinct(s) && k !in s {
      forall i, j | 0 <= i < j < |t| ensures Apart(t, i, j) { if j < |s| { assert Apart(s, i, j); } }
    }
  }

  lemma {:induction false} DistinctLast(s: seq<Key>)
    requires Distinct(s) && s != []
    ensures Distinct(s[..|s| - 1]) && s[|s| - 1] !in s[..|s| - 1]
  {
    assert s == s[..|s| - 1] + [s[|s| - 1]];
    DistinctSnoc(s[..|s| - 1], s[|s| - 1]);
  }

  lemma {:induction false} DistinctSuffix(s: seq<Key>, n: nat)
    requires Distinct(s) && n <= |s|
    ensures Distinct(s[n..])
  {
    forall i, j | 0 <= i < j < |s| - n ensures Apart(s[n..], i, j) { assert Apart(s, n + i, n + j); }
  }

  // ---- Select --------------------------------------------------------------

  lemma {:induction false} SelectMembers(s: seq<Key>, keep: set<Key>)
    ensures forall k :: k in Select(s, keep) <==> k in s && k in keep
  {
    if s != [] {
      var n := |s| - 1;
      assert s == s[..n] + [s[n]];
      SelectMembers(s[..n], keep);
    }
  }

  lemma {:induction false} SelectDistinct(s: seq<Key>, keep: set<Key>)
    requires Distinct(s)
    ensures Distinct(Select(s, keep)) && |Select(s, keep)| <= |s|
  {
    if s != [] {
      var n := |s| - 1;
      DistinctLast(s);
      SelectDistinct(s[..n], keep);
      SelectMembers(s[..n], keep);
      DistinctSnoc(Select(s[..n], keep), s[n]);
    }
  }

  lemma {:induction false} SelectAll(s: seq<Key>, keep: set<Key>)
    requires forall k :: k in s ==> k in keep
    ensures Select(s, keep) == s
  {
    if s != [] {
      var n := |s| - 1;
      assert s == s[..n] + [s[n]];
      SelectAll(s[..n], keep);
    }
  }

  lemma {:induction false} SelectSame(s: seq<Key>, x: set<Key>, y: set<Key>)
    requires forall k :: k in s ==> (k in x <==> k in y)
    ensures Select(s, x) == Select(s, y)
  {
    if s != [] { SelectSame(s[..|s| - 1], x, y); }
  }

  lemma {:induction false} SelectSelect(s: seq<Key>, x: set<Key>, y: set<Key>, z: set<Key>)
    requires forall k :: k in s ==> (k in z <==> k in x && k in y)
    ensures Select(Select(s, x), y) == Select(s, z)
  {
    if s != [] {
      var n := |s| - 1;
      SelectSelect(s[..n], x, y, z);
      var pre := Select(s[..n], x);
      if s[n] in x { assert (pre + [s[n]])[..|pre|] == pre; }
    }
  }

  /** Dropping the one key `s[i]` from a sequence of distinct keys. */
  lemma {:induction false} SelectBut(s: seq<Key>, i: nat, keep: set<Key>)
    requires Distinct(s) && i < |s|
    requires forall k :: k in s ==> (k in keep <==> k != s[i])
    ensures Select(s, keep) == s[..i] + s[i + 1..]
  {
    var n := |s| - 1;
    DistinctLast(s);
    assert s[n] in s;
    if i == n {
      SelectAll(s[..n], keep);
    } else {
      assert Apart(s, i, n);
      SelectBut(s[..n], i, keep);
      assert s[..n][..i] == s[..i];
      assert s[..n][i + 1..] + [s[n]] == s[i + 1..];
    }
  }

  /** Select keeps the order of `s`: what holds of the ranks of any two keys in order
      holds of the keys selected. */
  lemma {:induction false} SelectOrder(s: seq<Key>, keep: set<Key>, rank: Key -> int, i: nat, j: nat)
    requires forall p, q :: 0 <= p < q < |s| ==> rank(s[p]) <= rank(s[q])
    requires i < j < |Select(s, keep)|
    ensures rank(Select(s, keep)[i]) <= rank(Select(s, keep)[j])
  {
    var n := |s| - 1;
    var pre := Select(s[..n], keep);
    if j < |pre| {
      SelectOrder(s[..n], keep, rank, i, j);
    } else {
      SelectMembers(s[..n], keep);
      assert pre[i] in s[..n];
    }
  }

  /** As many keys follow `s[p]` in a selection as in `s`, at most. */
  lemma {:induction false} SelectTail(s: seq<Key>, keep: set<Key>, p: nat, q: nat)
    requires Distinct(s) && p < |s| && q < |Select(s, keep)| && Select(s, keep)[q] == s[p]
    ensures |Select(s, keep)| - q <= |s| - p
  {
    var n := |s| - 1;
    var pre := Select(s[..n], keep);
    DistinctLast(s);
    if p < n {
      if q < |pre| { SelectTail(s[..n], keep, p, q); }
    } else {
      SelectMembers(s[..n], keep);
      forall i | 0 <= i < |pre| ensures pre[i] != s[n] { assert pre[i] in s[..n]; }
    }
  }

  /** A suffix of a selection is a selection. */
  lemma {:induction false} SelectSuffix(s: seq<Key>, keep: set<Key>, n: nat)
    requires Distinct(s) && n <= |Select(s, keep)|
    ensures Select(s, set k | k in keep && k in Select(s, keep)[n..]) == Select(s, keep)[n..]
  {
    var sel := Select(s, keep);
    var late := set k | k in keep && k in sel[n..];
    SelectMembers(s, keep);
    SelectDistinct(s, keep);
    SelectSelect(s, keep, late, late);
    SelectOwnSuffix(sel, n, late);
  }

  lemma {:induction false} SelectOwnSuffix(s: seq<Key>, n: nat, late: set<Key>)
    requires Distinct(s) && n <= |s| && forall k :: k in s ==> (k in late <==> k in s[n..])
    ensures Select(s, late) == s[n..]
  {
    if n == |s| {
      SelectNone(s, late);
    } else {
      var m := |s| - 1;
      assert s[n..] == s[..m][n..] + [s[m]];
      DistinctLast(s);
      forall k | k in s[..m] ensures k in late <==> k in s[..m][n..] {}
      SelectOwnSuffix(s[..m], n, late);
      assert s[m] in s && s[n..][m - n] == s[m];
    }
  }

  lemma {:induction false} SelectNone(s: seq<Key>, keep: set<Key>)
    requires forall k :: k in s ==> k !in keep
    ensures Select(s, keep) == []
  {
    if s != [] { SelectNone(s[..|s| - 1], keep); }
  }

  // ---- what each operation keeps -------------------------------------------

  lemma {:induction false} SetValid<V>(m: OMap<V>, k: Key, v: V)
    requires m.Valid()
    ensures m.Set(k, v).Valid()
  {
    assert m.Listed(k);
    if k !in m.vals { DistinctSnoc(m.keys, k); }
    forall x ensures m.Set(k, v).Listed(x) { assert m.Listed(x); }
  }

  lemma {:induction false} RestrictValid<V>(m: OMap<V>, keep: set<Key>)
    requires m.Valid()
    ensures m.Restrict(keep).Valid() && m.Restrict(keep).Size() <= m.Size()
  {
    SelectMembers(m.keys, keep);
    SelectDistinct(m.keys, keep);
    forall x ensures m.Restrict(keep).Listed(x) { assert m.Listed(x); }
  }

  lemma {:induction false} DeleteValid<V>(m: OMap<V>, k: Key)
    requires m.Valid()
    ensures m.Delete(k).Valid()
    ensures m.Delete(k).Size() == m.Size() - (if m.Has(k) then 1 else 0)
  {
    var keep := set x | x in m.vals && x != k;
    RestrictValid(m, keep);
    assert m.Listed(k);
    forall x | x in m.keys ensures x in keep <==> x != k { assert m.Listed(x); }
    if k in m.keys {
      var i :| 0 <= i < |m.keys| && m.keys[i] == k;
      SelectBut(m.keys, i, keep);
    } else {
      SelectAll(m.keys, keep);
    }
  }

  lemma {:induction false} RestrictRestrict<V>(m: OMap<V>, x: set<Key>, y: set<Key>, z: set<Key>)
    requires m.Valid() && forall k :: k in m.vals ==> (k in z <==> k in x && k in y)
    ensures m.Restrict(x).Restrict(y) == m.Restrict(z)
  {
    forall k | k in m.keys ensures k in z <==> k in x && k in y { assert m.Listed(k); }
    SelectSelect(m.keys, x, y, z);
  }

  lemma {:induction false} RestrictDelete<V>(m: OMap<V>, keep: set<Key>, k: Key)
    requires m.Valid()
    ensures m.Restrict(keep).Delete(k) == m.Restrict(keep - {k})
  {
    var r := m.Restrict(keep);
    RestrictRestrict(m, keep, (set x | x in r.vals && x != k), keep - {k});
  }

  lemma {:induction false} RestrictAll<V>(m: OMap<V>, keep: set<Key>)
    requires m.Valid() && forall k :: k in m.vals ==> k in keep
    ensures m.Restrict(keep) == m
  {
    forall k | k in m.keys ensures k in keep { assert m.Listed(k); }
    SelectAll(m.keys, keep);
  }

  /** A valid map has as many keys as its key set. */
  lemma {:induction false} SizeIsCard(s: seq<Key>, keys: set<Key>)
    requires Distinct(s) && forall k :: k in s <==> k in keys
    ensures |keys| == |s|
  {
    if s != [] {
      var n := |s| - 1;
      assert s == s[..n] + [s[n]];
      DistinctLast(s);
      SizeIsCard(s[..n], keys - {s[n]});
    } else {
      assert forall k :: k in keys ==> k in s;
      assert keys == {};
    }
  }

  // ---- sweep, then evict oldest first ---------------------------------------

  lemma {:induction false} SweepFacts<V>(m: OMap<V>, expired: V -> bool)
    requires m.Valid()
    ensures var s := m.Sweep(expired); s.Valid() && s.Size() == |m.Unexpired(expired)| <= m.Size()
  {
    RestrictValid(m, m.Unexpired(expired));
    forall k ensures k in m.Sweep(expired).keys <==> k in m.Unexpired(expired) { assert m.Sweep(expired).Listed(k); }
    SizeIsCard(m.Sweep(expired).keys, m.Unexpired(expired));
  }

  lemma {:induction false} NewestValid<V>(m: OMap<V>, n: nat)
    requires m.Valid() && n <= m.Size()
    ensures m.Newest(n).Valid()
  {
    DistinctSuffix(m.keys, n);
    forall k ensures m.Newest(n).Listed(k) { assert m.Listed(k); }
  }

  lemma {:induction false} MakeRoomSize<V>(m: OMap<V>, expired: V -> bool, cap: nat)
    requires m.Valid() && cap >= 1
    ensures m.Sweep(expired).Evict(cap).Valid() && m.Sweep(expired).Evict(cap).Size() < cap
  {
    MakeRoomFacts(m, expired, cap);
  }

  lemma {:induction false} SetWithin<V>(m: OMap<V>, k: Key, v: V, cap: nat)
    requires m.Valid() && m.Size() < cap
    ensures m.Set(k, v).Valid() && m.Set(k, v).Size() <= cap
  {
    SetValid(m, k, v);
  }

  /** What is left after a sweep and an eviction to make room below `cap`: fewer than
      `cap` entries, each unexpired and unchanged, and all the unexpired ones when these
      are fewer than `cap`. */
  lemma {:induction false} MakeRoomFacts<V>(m: OMap<V>, expired: V -> bool, cap: nat)
    requires m.Valid() && cap >= 1
    ensures var r := m.Sweep(expired).Evict(cap);
            && r.Valid() && r.Size() < cap && r.Size() <= m.Size()
            && (forall k :: k in r.vals ==> k in m.vals && !expired(m.vals[k]) && r.vals[k] == m.vals[k])
            && (|m.Unexpired(expired)| < cap ==> r == m.Sweep(expired))
            && (|m.Unexpired(expired)| >= cap ==> r.Size() == cap - 1)
  {
    SweepFacts(m, expired);
    var s := m.Sweep(expired);
    if |s.keys| >= cap { NewestValid(s, |s.keys| - cap + 1); }
  }
}
