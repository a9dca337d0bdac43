/** The two loops the bounded stores of the backend share: a sweep of expired entries and an
    oldest-first eviction down to a ceiling, proved against closed forms. */
module BoundedMap {
  import opened OrderedMap

  /** The keys still there when a sweep has looked at the first `i`. */
  ghost function Left<V>(m: OMap<V>, expired: V -> bool, i: nat): set<Key>
    requires i <= |m.keys|
  {
    set k | k in m.vals && (k in m.keys[i..] || !expired(m.vals[k]))
  }

  lemma {:induction false} LeftStep<V>(m: OMap<V>, expired: V -> bool, i: nat)
    requires m.Valid() && i < |m.keys|
    ensures m.keys[i] in m.vals && m.keys[i] in Left(m, expired, i)
    ensures Left(m, expired, i + 1)
         == if expired(m.vals[m.keys[i]]) then Left(m, expired, i) - {m.keys[i]} else Left(m, expired, i)
  {
    var k := m.keys[i];
    assert m.Listed(k);
    assert m.keys[i..] == [k] + m.keys[i + 1..];
    forall x ensures x in Left(m, expired, i + 1) <==> x in Left(m, expired, i) && !(x == k && expired(m.vals[k])) {
      SuffixMember(m.keys, i, x);
    }
  }

  /** The sweep loop of the stores: delete each expired entry while iterating. */
  method SweepLoop<V>(m: OMap<V>, expired: V -> bool) returns (r: OMap<V>)
    requires m.Valid()
    ensures r == m.Sweep(expired)
  {
    r := m;
    assert m.keys[0..] == m.keys;
    forall k ensures k in m.vals ==> k in Left(m, expired, 0) { assert m.Listed(k); }
    RestrictAll(m, Left(m, expired, 0));
    for i := 0 to |m.keys|
      invariant r == m.Restrict(Left(m, expired, i))
    {
      var k := m.keys[i];
      LeftStep(m, expired, i);
      if expired(m.vals[k]) {
        RestrictDelete(m, Left(m, expired, i), k);
        r := r.Delete(k);
      }
    }
    assert Left(m, expired, |m.keys|) == m.Unexpired(expired);
  }

  /** The eviction loop of the stores: delete the first key while at the ceiling. */
  method EvictLoop<V>(m: OMap<V>, cap: nat) returns (r: OMap<V>)
    requires m.Valid() && cap >= 1
    ensures r == m.Evict(cap)
  {
    r := m;
    ghost var n := 0;
    forall k | k in m.vals ensures k in m.keys { assert m.Listed(k); }
    assert m.Newest(0) == m;
    while r.Size() >= cap
      invariant 0 <= n <= |m.keys| && r == m.Newest(n)
      invariant n == 0 || r.Size() >= cap - 1
      decreases r.Size()
    {
      NewestStep(m, n);
      var oldest := r.keys[0];
      r := r.Delete(oldest);
      n := n + 1;
    }
  }

  lemma {:induction false} NewestStep<V>(m: OMap<V>, n: nat)
    requires m.Valid() && n < |m.keys|
    ensures m.Newest(n).Delete(m.keys[n]) == m.Newest(n + 1)
  {
    NewestStepKeys(m, n);
    var l, r := m.Newest(n).Delete(m.keys[n]).vals, m.Newest(n + 1).vals;
    forall x ensures x in l <==> x in r { SuffixMember(m.keys, n, x); assert m.Listed(x); }
    assert l == r;
  }

  lemma {:induction false} NewestStepKeys<V>(m: OMap<V>, n: nat)
    requires m.Valid() && n < |m.keys|
    ensures m.Newest(n).Delete(m.keys[n]).keys == m.keys[n + 1..]
  {
    var r := m.Newest(n);
    NewestValid(m, n);
    forall x | x in r.keys ensures x in r.vals { assert r.Listed(x); }
    SelectBut(r.keys, 0, set x | x in r.vals && x != m.keys[n]);
  }

  lemma {:induction false} SuffixMember(s: seq<Key>, n: nat, x: Key)
    requires Distinct(s) && n < |s|
    ensures x in s[n + 1..] <==> x in s[n..] && x != s[n]
  {
    assert s[n..] == [s[n]] + s[n + 1..];
    forall j | n < j < |s| ensures s[j] != s[n] { assert Apart(s, n, j); }
  }
}
