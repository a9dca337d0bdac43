/** Sorting as `Array.prototype.sort` does it with a numeric comparator: stable (section 23.1.3.30 of
    ECMA-262).  Any stable sort gives this result. */
module StableSort {
  function Insert<T>(s: seq<T>, x: T, rank: T -> real): (r: seq<T>)
    ensures |r| == |s| + 1
  {
    if s == [] || rank(s[|s| - 1]) <= rank(x) then s + [x]
    else Insert(s[..|s| - 1], x, rank) + [s[|s| - 1]]
  }

  function Sort<T>(s: seq<T>, rank: T -> real): (r: seq<T>)
    ensures |r| == |s|
  {
    if s == [] then [] else Insert(Sort(s[..|s| - 1], rank), s[|s| - 1], rank)
  }

  /** `Array.prototype.filter`. */
  function Keep<T>(s: seq<T>, p: T -> bool): (r: seq<T>)
    ensures |r| <= |s|
  {
    if s == [] then []
    else Keep(s[..|s| - 1], p) + if p(s[|s| - 1]) then [s[|s| - 1]] else []
  }

  ghost predicate InOrder<T>(s: seq<T>, rank: T -> real, i: int, j: int) {
    0 <= i <= j < |s| ==> rank(s[i]) <= rank(s[j])
  }

  ghost predicate Ascending<T>(s: seq<T>, rank: T -> real) {
    forall i, j :: InOrder(s, rank, i, j)
  }

  lemma {:induction false} KeepSnoc<T>(s: seq<T>, x: T, p: T -> bool)
    ensures Keep(s + [x], p) == Keep(s, p) + if p(x) then [x] else []
  {
    assert (s + [x])[..|s|] == s;
  }

  lemma {:induction false} KeepMembers<T>(s: seq<T>, p: T -> bool, x: T)
    ensures x in Keep(s, p) <==> x in s && p(x)
  {
    if s != [] {
      KeepMembers(s[..|s| - 1], p, x);
      assert s == s[..|s| - 1] + [s[|s| - 1]];
    }
  }

  lemma {:induction false} KeepAll<T>(s: seq<T>, p: T -> bool)
    requires forall x | x in s :: p(x)
    ensures Keep(s, p) == s
  {
    if s != [] {
      var init, last := s[..|s| - 1], s[|s| - 1];
      assert forall x | x in init :: x in s;
      assert last in s && s == init + [last];
      KeepAll(init, p);
    }
  }

  lemma {:induction false} KeepNone<T>(s: seq<T>, p: T -> bool)
    requires forall x | x in s :: !p(x)
    ensures Keep(s, p) == []
  {
    if s != [] {
      var init, last := s[..|s| - 1], s[|s| - 1];
      assert forall x | x in init :: x in s;
      assert last in s;
      KeepNone(init, p);
    }
  }

  lemma {:induction false} KeepSame<T>(s: seq<T>, p: T -> bool, q: T -> bool)
    requires forall x | x in s :: p(x) == q(x)
    ensures Keep(s, p) == Keep(s, q)
  {
    if s != [] {
      var init, last := s[..|s| - 1], s[|s| - 1];
      assert forall x | x in init :: x in s;
      assert last in s;
      KeepSame(init, p, q);
    }
  }

  lemma CountSnoc<T>(s: seq<T>, last: T, x: T)
    ensures multiset(s + [last])[x] == multiset(s)[x] + if x == last then 1 else 0
  {
  }

  lemma KeepCount<T>(s: seq<T>, last: T, p: T -> bool, x: T)
    ensures multiset(Keep(s + [last], p))[x] == multiset(Keep(s, p))[x] + if p(last) && x == last then 1 else 0
  {
    KeepSnoc(s, last, p);
    if p(last) {
      CountSnoc(Keep(s, p), last, x);
    } else {
      assert Keep(s, p) + [] == Keep(s, p);
    }
  }

  /** Each element is kept by one of two opposite filters. */
  lemma {:induction false} KeepSplitsAt<T>(s: seq<T>, p: T -> bool, q: T -> bool, x: T)
    requires forall y | y in s :: q(y) == !p(y)
    ensures multiset(s)[x] == multiset(Keep(s, p))[x] + multiset(Keep(s, q))[x]
  {
    if s != [] {
      var init, last := s[..|s| - 1], s[|s| - 1];
      assert init + [last] == s && last in s;
      assert forall y | y in init :: y in s;
      KeepSplitsAt(init, p, q, x);
      CountSnoc(init, last, x);
      KeepCount(init, last, p, x);
      KeepCount(init, last, q, x);
    }
  }

  /** The two halves of a filter hold every element once. */
  lemma KeepSplits<T(!new)>(s: seq<T>, p: T -> bool, q: T -> bool)
    requires forall x | x in s :: q(x) == !p(x)
    ensures multiset(Keep(s, p)) + multiset(Keep(s, q)) == multiset(s)
  {
    var halves := multiset(Keep(s, p)) + multiset(Keep(s, q));
    forall x: T ensures halves[x] == multiset(s)[x] {
      KeepSplitsAt(s, p, q, x);
      assert halves[x] == multiset(Keep(s, p))[x] + multiset(Keep(s, q))[x];
    }
  }

  lemma {:induction false} InsertPermutes<T>(s: seq<T>, x: T, rank: T -> real)
    ensures multiset(Insert(s, x, rank)) == multiset(s) + multiset{x}
  {
    if s != [] && rank(s[|s| - 1]) > rank(x) {
      InsertPermutes(s[..|s| - 1], x, rank);
      assert s == s[..|s| - 1] + [s[|s| - 1]];
    }
  }

  /** Sorting loses nothing and adds nothing. */
  lemma {:induction false} SortPermutes<T>(s: seq<T>, rank: T -> real)
    ensures multiset(Sort(s, rank)) == multiset(s)
  {
    if s != [] {
      var init, last := s[..|s| - 1], s[|s| - 1];
      SortPermutes(init, rank);
      InsertPermutes(Sort(init, rank), last, rank);
      assert s == init + [last];
    }
  }

  lemma AscendingInit<T>(s: seq<T>, rank: T -> real)
    requires Ascending(s, rank) && s != []
    ensures Ascending(s[..|s| - 1], rank)
  {
    var init := s[..|s| - 1];
    forall i, j ensures InOrder(init, rank, i, j) {
      assert InOrder(s, rank, i, j);
    }
  }

  lemma AscendingSnoc<T>(s: seq<T>, x: T, rank: T -> real)
    requires Ascending(s, rank) && (s != [] ==> rank(s[|s| - 1]) <= rank(x))
    ensures Ascending(s + [x], rank)
  {
    var all := s + [x];
    forall i, j ensures InOrder(all, rank, i, j) {
      assert InOrder(s, rank, i, j) && InOrder(s, rank, i, |s| - 1);
    }
  }

  lemma {:induction false} InsertAscends<T>(s: seq<T>, x: T, rank: T -> real)
    requires Ascending(s, rank)
    ensures Ascending(Insert(s, x, rank), rank)
    ensures var r := Insert(s, x, rank);
            rank(r[|r| - 1]) == rank(x) || (s != [] && rank(r[|r| - 1]) == rank(s[|s| - 1]))
  {
    if s != [] && rank(s[|s| - 1]) > rank(x) {
      var init, last := s[..|s| - 1], s[|s| - 1];
      AscendingInit(s, rank);
      InsertAscends(init, x, rank);
      assert InOrder(s, rank, |s| - 2, |s| - 1);
      AscendingSnoc(Insert(init, x, rank), last, rank);
    } else {
      AscendingSnoc(s, x, rank);
    }
  }

  lemma {:induction false} SortAscends<T>(s: seq<T>, rank: T -> real)
    ensures Ascending(Sort(s, rank), rank)
  {
    if s != [] {
      SortAscends(s[..|s| - 1], rank);
      InsertAscends(Sort(s[..|s| - 1], rank), s[|s| - 1], rank);
    }
  }

  lemma {:induction false} InsertIsStable<T>(s: seq<T>, x: T, rank: T -> real, p: T -> bool, d: real)
    requires forall y | p(y) :: rank(y) == d
    ensures Keep(Insert(s, x, rank), p) == Keep(s + [x], p)
  {
    KeepSnoc(s, x, p);
    if s != [] && rank(s[|s| - 1]) > rank(x) {
      var init, last := s[..|s| - 1], s[|s| - 1];
      InsertIsStable(init, x, rank, p, d);
      KeepSnoc(init, x, p);
      KeepSnoc(Insert(init, x, rank), last, p);
    }
  }

  /** Elements of one rank keep their order. */
  lemma {:induction false} SortIsStable<T>(s: seq<T>, rank: T -> real, p: T -> bool, d: real)
    requires forall y | p(y) :: rank(y) == d
    ensures Keep(Sort(s, rank), p) == Keep(s, p)
  {
    if s != [] {
      var init, last := s[..|s| - 1], s[|s| - 1];
      SortIsStable(init, rank, p, d);
      InsertIsStable(Sort(init, rank), last, rank, p, d);
      KeepSnoc(Sort(init, rank), last, p);
    }
  }

  lemma {:induction false} KeepAscends<T>(s: seq<T>, rank: T -> real, p: T -> bool)
    requires Ascending(s, rank)
    ensures Ascending(Keep(s, p), rank)
  {
    if s != [] {
      var init, last := s[..|s| - 1], s[|s| - 1];
      AscendingInit(s, rank);
      KeepAscends(init, rank, p);
      var kept := Keep(init, p);
      if p(last) {
        if kept != [] {
          KeepMembers(init, p, kept[|kept| - 1]);
          var i :| 0 <= i < |init| && init[i] == kept[|kept| - 1];
          assert InOrder(s, rank, i, |s| - 1);
        }
        AscendingSnoc(kept, last, rank);
      } else {
        assert kept + [] == kept;
      }
    }
  }
}
