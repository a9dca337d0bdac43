/** The event indexer of `backend/src/events/integrationIndexer.ts`: a cursor over an
    append-only log, pages, a reentrancy guard, and failures at any await. */
module IntegrationIndexer {
  import opened OrderedMap
  import opened Wrappers

  datatype Metadata = Metadata(name: string, url: string)

  datatype UsedByRecord = UsedByRecord(meta: Metadata, integrator: Key, registeredAtMs: int)

  /** The fields of an event's payload, each possibly missing. */
  datatype ChainEvent = ChainEvent(collection: Option<Key>, integrator: Option<Key>, registeredAtMs: Option<int>)

  /** What the chain answers when it does not fail: the table of a collection, and the valid
      metadata filed in a table under an integrator. */
  datatype World = World(tableOf: Key -> Option<Table>, metaOf: (Table, Key) -> Option<Metadata>)

  datatype Table = Table(uid: string)

  type Inner = OMap<UsedByRecord>
  type Index = OMap<Inner>

  predicate Filled(k: Option<Key>) {
    k.Some? && k.value.text != ""
  }

  predicate Usable(e: ChainEvent) {
    Filled(e.collection) && Filled(e.integrator) && e.registeredAtMs.Some?
  }

  function Resolve(w: World, table: Option<Table>, integrator: Key): Option<Metadata> {
    if table.Some? && table.value.uid != "" then w.metaOf(table.value, integrator) else None
  }

  function InnerOf(t: Index, c: Key): Inner {
    if t.Has(c) then t.vals[c] else Empty()
  }

  function Put(t: Index, c: Key, i: Key, r: UsedByRecord): Index {
    t.Set(c, InnerOf(t, c).Set(i, r))
  }

  /** Ingest an event whose table is `table`. */
  function IngestWith(w: World, t: Index, e: ChainEvent, table: Option<Table>): Index {
    if !Usable(e) then t
    else match Resolve(w, table, e.integrator.value)
      case None => t
      case Some(m) =>
        Put(t, e.collection.value, e.integrator.value, UsedByRecord(m, e.integrator.value, e.registeredAtMs.value))
  }

  function Ingest(w: World, t: Index, e: ChainEvent): Index {
    if Usable(e) then IngestWith(w, t, e, w.tableOf(e.collection.value)) else t
  }

  /** One clean pass over `es`. */
  function Fold(w: World, t: Index, es: seq<ChainEvent>): Index
    decreases es
  {
    if es == [] then t else Fold(w, Ingest(w, t, es[0]), es[1..])
  }

  // ---- replaying events changes nothing ------------------------------------------------

  predicate Files(w: World, e: ChainEvent) {
    Usable(e) && Resolve(w, w.tableOf(e.collection.value), e.integrator.value).Some?
  }

  function RecordOf(w: World, e: ChainEvent): UsedByRecord
    requires Files(w, e)
  {
    UsedByRecord(Resolve(w, w.tableOf(e.collection.value), e.integrator.value).value, e.integrator.value,
                 e.registeredAtMs.value)
  }

  predicate Present(t: Index, c: Key, i: Key) {
    t.Has(c) && t.vals[c].Has(i)
  }

  predicate SameSlot(e: ChainEvent, c: Key, i: Key) {
    e.collection == Some(c) && e.integrator == Some(i)
  }

  lemma PutPut(t: Index, c: Key, i: Key, x: UsedByRecord, y: UsedByRecord)
    ensures Put(Put(t, c, i, x), c, i, y) == Put(t, c, i, y)
  {
    var n := InnerOf(t, c);
    assert n.Set(i, x).Set(i, y) == n.Set(i, y) by { assert n.vals[i := x][i := y] == n.vals[i := y]; }
    assert t.vals[c := n.Set(i, x)][c := n.Set(i, y)] == t.vals[c := n.Set(i, y)];
  }

  lemma PutSame(t: Index, c: Key, i: Key)
    requires Present(t, c, i)
    ensures Put(t, c, i, t.vals[c].vals[i]) == t
  {
    var n := t.vals[c];
    assert n.vals[i := n.vals[i]] == n.vals;
    assert t.vals[c := n] == t.vals;
  }

  lemma PutSwap(t: Index, c: Key, i: Key, x: UsedByRecord, d: Key, j: Key, y: UsedByRecord)
    requires Present(t, c, i) && (c != d || i != j)
    ensures Put(Put(t, c, i, x), d, j, y) == Put(Put(t, d, j, y), c, i, x)
  {
    if c == d {
      var n := t.vals[c];
      assert n.vals[i := x][j := y] == n.vals[j := y][i := x];
      assert n.Set(i, x).Set(j, y) == n.Set(j, y).Set(i, x);
      assert t.vals[c := n.Set(i, x)][c := n.Set(i, x).Set(j, y)]
          == t.vals[c := n.Set(j, y)][c := n.Set(j, y).Set(i, x)];
    } else {
      var n, m := t.vals[c], InnerOf(t, d);
      assert t.vals[c := n.Set(i, x)][d := m.Set(j, y)] == t.vals[d := m.Set(j, y)][c := n.Set(i, x)];
    }
  }

  /** A value under a key already present does not outlive an event of the same key. */
  lemma {:induction false} Overwritten(w: World, t: Index, c: Key, i: Key, x: UsedByRecord, es: seq<ChainEvent>, k: nat)
    requires Present(t, c, i) && k < |es| && Files(w, es[k]) && SameSlot(es[k], c, i)
    ensures Fold(w, Put(t, c, i, x), es) == Fold(w, t, es)
    decreases es
  {
    var e := es[0];
    if Files(w, e) {
      var d, j, y := e.collection.value, e.integrator.value, RecordOf(w, e);
      if d == c && j == i {
        PutPut(t, c, i, x, y);
      } else {
        PutSwap(t, c, i, x, d, j, y);
        Overwritten(w, Put(t, d, j, y), c, i, x, es[1..], k - 1);
      }
    } else {
      Overwritten(w, t, c, i, x, es[1..], k - 1);
    }
  }

  lemma {:induction false} FoldConcat(w: World, t: Index, a: seq<ChainEvent>, b: seq<ChainEvent>)
    ensures Fold(w, t, a + b) == Fold(w, Fold(w, t, a), b)
    decreases a
  {
    if a == [] {
      assert a + b == b;
    } else {
      assert (a + b)[1..] == a[1..] + b;
      FoldConcat(w, Ingest(w, t, a[0]), a[1..], b);
    }
  }

  lemma {:induction false} FoldKeeps(w: World, t: Index, es: seq<ChainEvent>, c: Key, i: Key)
    requires Present(t, c, i)
    ensures Present(Fold(w, t, es), c, i)
    ensures (forall k :: 0 <= k < |es| && Files(w, es[k]) ==> !SameSlot(es[k], c, i))
            ==> Fold(w, t, es).vals[c].vals[i] == t.vals[c].vals[i]
    decreases es
  {
    if es != [] {
      FoldKeeps(w, Ingest(w, t, es[0]), es[1..], c, i);
      if forall k :: 0 <= k < |es| && Files(w, es[k]) ==> !SameSlot(es[k], c, i) {
        forall k | 0 <= k < |es[1..]| && Files(w, es[1..][k]) ensures !SameSlot(es[1..][k], c, i) {
          assert es[1..][k] == es[k + 1];
        }
      }
    }
  }

  /** Folding the same events again changes nothing. */
  lemma {:induction false} FoldTwice(w: World, t: Index, es: seq<ChainEvent>)
    ensures Fold(w, Fold(w, t, es), es) == Fold(w, t, es)
    decreases es
  {
    if es != [] {
      var e, rest := es[0], es[1..];
      var t1 := Ingest(w, t, e);
      var done := Fold(w, t1, rest);
      FoldTwice(w, t1, rest);
      if Files(w, e) {
        var c, i, x := e.collection.value, e.integrator.value, RecordOf(w, e);
        FoldKeeps(w, t1, rest, c, i);
        if k :| 0 <= k < |rest| && Files(w, rest[k]) && SameSlot(rest[k], c, i) {
          Overwritten(w, done, c, i, x, rest, k);
        } else {
          PutSame(done, c, i);
        }
      }
    }
  }

  lemma Splits(log: seq<ChainEvent>, c: nat, p: nat, q: nat)
    requires c <= p <= q <= |log|
    ensures log[c..q] == log[c..p] + log[p..q]
  {
    var whole, parts := log[c..q], log[c..p] + log[p..q];
    assert |whole| == |parts|;
    assert forall i | 0 <= i < |whole| :: whole[i] == log[c + i] && parts[i] == log[c + i];
  }

  /** Replaying from `c` on, after all up to `p`: the same as one clean pass up to `q`. */
  lemma {:induction false} Replay(w: World, log: seq<ChainEvent>, c: nat, p: nat, q: nat)
    requires c <= p <= q <= |log|
    ensures Fold(w, Fold(w, Empty(), log[..p]), log[c..q]) == Fold(w, Empty(), log[..q])
  {
    var t := Fold(w, Empty(), log[..c]);
    assert log[..p] == log[..c] + log[c..p];
    FoldConcat(w, Empty(), log[..c], log[c..p]);
    Splits(log, c, p, q);
    FoldConcat(w, Fold(w, Empty(), log[..p]), log[c..p], log[p..q]);
    FoldTwice(w, t, log[c..p]);
    assert log[..q] == log[..p] + log[p..q];
    FoldConcat(w, Empty(), log[..p], log[p..q]);
  }

  // ---- what a half-done page leaves behind ------------------------------------------------

  function Clean(w: World, log: seq<ChainEvent>, q: nat): Index
    requires q <= |log|
  {
    Fold(w, Empty(), log[..q])
  }

  /** The event registers integrator `i` with collection `c`: both are named, the time is there, and
      the table of the collection holds valid metadata under the integrator. */
  predicate Registers(w: World, e: ChainEvent, c: Key, i: Key) {
    && e.collection == Some(c) && c.text != "" && e.integrator == Some(i) && i.text != "" && e.registeredAtMs.Some?
    && w.tableOf(c).Some? && w.tableOf(c).value.uid != "" && w.metaOf(w.tableOf(c).value, i).Some?
  }

  /** `k` is the last of the first `n` events that registers `i` with `c`. */
  predicate LastRegisters(w: World, log: seq<ChainEvent>, n: nat, c: Key, i: Key, k: nat)
    requires n <= |log|
  {
    && k < n && Registers(w, log[k], c, i)
    && forall j | k < j < n :: !Registers(w, log[j], c, i)
  }

  /** One event files its record under its pair, and touches no other pair. */
  lemma {:induction false} IngestIs(w: World, t: Index, e: ChainEvent, c: Key, i: Key)
    ensures Present(Ingest(w, t, e), c, i) <==> Present(t, c, i) || Registers(w, e, c, i)
    ensures Registers(w, e, c, i) ==>
              Ingest(w, t, e).vals[c].vals[i]
              == UsedByRecord(w.metaOf(w.tableOf(c).value, i).value, i, e.registeredAtMs.value)
    ensures Present(t, c, i) && !Registers(w, e, c, i) ==> Ingest(w, t, e).vals[c].vals[i] == t.vals[c].vals[i]
  {
  }

  /** The clean pass holds a record exactly for the pairs that some event registers... */
  lemma {:induction false} CleanHasPair(w: World, log: seq<ChainEvent>, n: nat, c: Key, i: Key)
    requires n <= |log|
    ensures Present(Clean(w, log, n), c, i) <==> exists k | 0 <= k < n :: Registers(w, log[k], c, i)
  {
    if n == 0 {
      assert Clean(w, log, 0) == Empty();
    } else {
      CleanHasPair(w, log, n - 1, c, i);
      CleanStep(w, log, n - 1);
      IngestIs(w, Clean(w, log, n - 1), log[n - 1], c, i);
    }
  }

  /** ...with the metadata and the time of the last such event. */
  lemma {:induction false} CleanHasLast(w: World, log: seq<ChainEvent>, n: nat, c: Key, i: Key, k: nat)
    requires n <= |log| && LastRegisters(w, log, n, c, i, k)
    ensures Present(Clean(w, log, n), c, i)
    ensures Clean(w, log, n).vals[c].vals[i]
         == UsedByRecord(w.metaOf(w.tableOf(c).value, i).value, i, log[k].registeredAtMs.value)
  {
    CleanStep(w, log, n - 1);
    IngestIs(w, Clean(w, log, n - 1), log[n - 1], c, i);
    if k < n - 1 {
      CleanHasLast(w, log, n - 1, c, i, k);
    }
  }

  lemma {:induction false} CleanStep(w: World, log: seq<ChainEvent>, n: nat)
    requires n < |log|
    ensures Clean(w, log, n + 1) == Ingest(w, Clean(w, log, n), log[n])
  {
    assert log[..n + 1] == log[..n] + [log[n]];
    FoldSnoc(w, Empty(), log[..n], log[n]);
  }

  /** From `t`, replaying the log from `c` on gives the clean pass, once it gets as far as `h`. */
  ghost predicate Catches(w: World, log: seq<ChainEvent>, t: Index, c: nat, q: nat)
    requires c <= q <= |log|
  {
    Fold(w, t, log[c..q]) == Clean(w, log, q)
  }

  ghost predicate Holds(w: World, t: Index, e: ChainEvent) {
    Files(w, e) ==> Present(t, e.collection.value, e.integrator.value)
  }

  /** Events up to `h` were ingested at some time, and `t` is as good as the clean pass for
      all that replays from `c` past `h`. */
  ghost predicate Absorbed(w: World, log: seq<ChainEvent>, t: Index, c: nat, h: nat) {
    && c <= h <= |log|
    && (forall q :: h <= q <= |log| ==> Catches(w, log, t, c, q))
    && (forall p :: 0 <= p < h ==> Holds(w, t, log[p]))
  }

  lemma {:induction false} FoldSnoc(w: World, t: Index, es: seq<ChainEvent>, e: ChainEvent)
    ensures Fold(w, t, es + [e]) == Ingest(w, Fold(w, t, es), e)
  {
    FoldConcat(w, t, es, [e]);
    assert [e][1..] == [];
  }

  lemma {:induction false} CleanHolds(w: World, log: seq<ChainEvent>, q: nat, p: nat)
    requires p < q <= |log|
    ensures Holds(w, Clean(w, log, q), log[p])
  {
    if Files(w, log[p]) {
      assert log[..q] == log[..p] + [log[p]] + log[p + 1..q];
      FoldConcat(w, Empty(), log[..p] + [log[p]], log[p + 1..q]);
      FoldSnoc(w, Empty(), log[..p], log[p]);
      FoldKeeps(w, Fold(w, Empty(), log[..p] + [log[p]]), log[p + 1..q],
                log[p].collection.value, log[p].integrator.value);
    }
  }

  lemma {:induction false} CleanAbsorbed(w: World, log: seq<ChainEvent>, c: nat, p: nat)
    requires c <= p <= |log|
    ensures Absorbed(w, log, Clean(w, log, p), c, p)
  {
    forall q | p <= q <= |log| ensures Catches(w, log, Clean(w, log, p), c, q) { Replay(w, log, c, p, q); }
    forall k | 0 <= k < p ensures Holds(w, Clean(w, log, p), log[k]) { CleanHolds(w, log, p, k); }
  }

  /** Ingesting once more an event already ingested. */
  lemma {:induction false} AgainAbsorbed(w: World, log: seq<ChainEvent>, t: Index, c: nat, h: nat, i: nat)
    requires Absorbed(w, log, t, c, h) && c <= i < h
    ensures Absorbed(w, log, Ingest(w, t, log[i]), c, h)
  {
    var e := log[i];
    if Files(w, e) {
      assert Holds(w, t, e);
      forall q | h <= q <= |log| ensures Catches(w, log, Ingest(w, t, e), c, q) {
        assert Catches(w, log, t, c, q);
        assert log[c..q][i - c] == e;
        Overwritten(w, t, e.collection.value, e.integrator.value, RecordOf(w, e), log[c..q], i - c);
      }
      forall p | 0 <= p < h ensures Holds(w, Ingest(w, t, e), log[p]) { assert Holds(w, t, log[p]); }
    }
  }

  /** Part of a page, from a store that has absorbed the log up to `h`. */
  lemma {:induction false} PartAbsorbed(w: World, log: seq<ChainEvent>, t: Index, c: nat, h: nat, i: nat)
    requires Absorbed(w, log, t, c, h) && c <= i <= |log|
    ensures Absorbed(w, log, Fold(w, t, log[c..i]), c, if i <= h then h else i)
    ensures i >= h ==> Fold(w, t, log[c..i]) == Clean(w, log, i)
    decreases i
  {
    if i >= h {
      assert Catches(w, log, t, c, i);
      CleanAbsorbed(w, log, c, i);
    } else if i > c {
      PartAbsorbed(w, log, t, c, h, i - 1);
      assert log[c..i] == log[c..i - 1] + [log[i - 1]];
      FoldSnoc(w, t, log[c..i - 1], log[i - 1]);
      AgainAbsorbed(w, log, Fold(w, t, log[c..i - 1]), c, h, i - 1);
    } else {
      assert log[c..i] == [];
    }
  }

  // ---- the program, cut at its awaits, with any number of polls started ---------------------

  /** A running poll: it waits for a page, or works through log[from..to] and stands at `i`. */
  datatype Poll =
    | Querying
    | Working(from: nat, to: nat, i: nat, table: Option<Option<Table>>, advance: bool, more: bool)

  /** `seen`, `high` and `base` are history: how much of the log was ever served, how much of
      it was ever ingested, and the store at the start of the page. */
  datatype State = State(
    store: Index,
    tables: map<Key, Table>,
    cursor: nat,
    polling: bool,
    polls: map<nat, Poll>,
    seen: nat,
    high: nat,
    base: Index)

  datatype Step =
    | PollOnce(id: nat)
    | Page(id: nat, seen: nat, advance: bool, more: bool)
    | TableResolved(id: nat)
    | Ingested(id: nat)
    | Threw(id: nat)
    | PageDone(id: nat)

  /** Where the page that starts at `cursor` ends, when `seen` events are there. */
  function PageEnd(cursor: nat, limit: nat, seen: nat): nat {
    if cursor + limit <= seen then cursor + limit else if cursor <= seen then seen else cursor
  }

  /** A page holds the next `limit` events, or all there are. */
  lemma PageEndIs(cursor: nat, limit: nat, seen: nat)
    requires cursor <= seen
    ensures cursor <= PageEnd(cursor, limit, seen) <= seen
    ensures PageEnd(cursor, limit, seen) < seen ==> PageEnd(cursor, limit, seen) == cursor + limit
    ensures PageEnd(cursor, limit, seen) - cursor <= limit
  {
  }

  predicate Enabled(log: seq<ChainEvent>, s: State, step: Step) {
    match step
    case PollOnce(id) => id !in s.polls
    case Page(id, seen, _, _) => id in s.polls && s.polls[id].Querying? && s.seen <= seen <= |log|
    case TableResolved(id) =>
      id in s.polls && s.polls[id].Working? && s.polls[id].i < s.polls[id].to <= |log|
      && s.polls[id].table.None? && Usable(log[s.polls[id].i])
    case Ingested(id) =>
      id in s.polls && s.polls[id].Working? && s.polls[id].i < s.polls[id].to <= |log|
      && (Usable(log[s.polls[id].i]) ==> s.polls[id].table.Some?)
    case Threw(id) => id in s.polls
    case PageDone(id) => id in s.polls && s.polls[id].Working? && s.polls[id].i == s.polls[id].to
  }

  /** A cached table is used unless it is the empty string. */
  function TableFor(w: World, tables: map<Key, Table>, c: Key): Option<Table> {
    if c in tables && tables[c].uid != "" then Some(tables[c]) else w.tableOf(c)
  }

  function Apply(w: World, log: seq<ChainEvent>, limit: nat, s: State, step: Step): State
    requires Enabled(log, s, step)
  {
    match step
    case PollOnce(id) =>
      if s.polling then s else s.(polling := true, polls := s.polls[id := Querying])
    case Page(id, seen, advance, more) =>
      s.(polls := s.polls[id := Working(s.cursor, PageEnd(s.cursor, limit, seen), s.cursor, None, advance, more)],
         seen := seen, base := s.store)
    case TableResolved(id) =>
      var c := log[s.polls[id].i].collection.value;
      var table := TableFor(w, s.tables, c);
      s.(tables := if table.Some? then s.tables[c := table.value] else s.tables,
         polls := s.polls[id := s.polls[id].(table := Some(table))])
    case Ingested(id) =>
      var p := s.polls[id];
      s.(store := IngestWith(w, s.store, log[p.i], if p.table.Some? then p.table.value else None),
         polls := s.polls[id := p.(i := p.i + 1, table := None)])
    case Threw(id) =>
      s.(polling := false, polls := s.polls - {id},
         high := if s.polls[id].Working? && s.polls[id].i > s.high then s.polls[id].i else s.high)
    case PageDone(id) =>
      var p := s.polls[id];
      var again := p.more && p.to > p.from;
      s.(cursor := if p.advance then p.to else s.cursor,
         high := if p.to > s.high then p.to else s.high,
         polling := again,
         polls := if again then s.polls[id := Querying] else s.polls - {id})
  }

  ghost predicate PollInv(w: World, log: seq<ChainEvent>, limit: nat, s: State, p: Poll) {
    match p
    case Querying => Absorbed(w, log, s.store, s.cursor, s.high)
    case Working(from, to, i, table, _, _) =>
      && from == s.cursor <= i <= to <= |log|
      && s.high <= to && to <= s.cursor + limit && to <= s.seen
      && Absorbed(w, log, s.base, s.cursor, s.high)
      && s.store == Fold(w, s.base, log[s.cursor..i])
      && (table.Some? ==> i < to && Usable(log[i]) && table.value == w.tableOf(log[i].collection.value))
  }

  ghost predicate Inv(w: World, log: seq<ChainEvent>, limit: nat, s: State) {
    && s.cursor <= s.high <= s.seen <= |log| && s.high <= s.cursor + limit
    && (forall c :: c in s.tables ==> w.tableOf(c) == Some(s.tables[c]))
    && (forall a, b :: a in s.polls && b in s.polls ==> a == b)
    && (s.polling <==> s.polls != map[])
    && (s.polls == map[] ==> Absorbed(w, log, s.store, s.cursor, s.high))
    && (forall id :: id in s.polls ==> PollInv(w, log, limit, s, s.polls[id]))
  }

  lemma {:induction false} IngestedKeepsInv(w: World, log: seq<ChainEvent>, limit: nat, s: State, step: Step)
    requires Inv(w, log, limit, s) && Enabled(log, s, step) && step.Ingested?
    ensures Inv(w, log, limit, Apply(w, log, limit, s, step))
  {
    var p := s.polls[step.id];
    assert PollInv(w, log, limit, s, p);
    assert log[s.cursor..p.i + 1] == log[s.cursor..p.i] + [log[p.i]];
    FoldSnoc(w, s.base, log[s.cursor..p.i], log[p.i]);
  }

  lemma {:induction false} ThrewKeepsInv(w: World, log: seq<ChainEvent>, limit: nat, s: State, step: Step)
    requires Inv(w, log, limit, s) && Enabled(log, s, step) && step.Threw?
    ensures Inv(w, log, limit, Apply(w, log, limit, s, step))
  {
    var p := s.polls[step.id];
    assert PollInv(w, log, limit, s, p);
    if p.Working? { PartAbsorbed(w, log, s.base, s.cursor, s.high, p.i); }
    assert s.polls - {step.id} == map[];
  }

  /** At every page commit, the store, with its insertion order, is the clean pass over the
      log up to the end of that page. */
  lemma {:induction false} CommitIsClean(w: World, log: seq<ChainEvent>, limit: nat, s: State, step: Step)
    requires Inv(w, log, limit, s) && Enabled(log, s, step) && step.PageDone?
    ensures s.polls[step.id].to <= |log|
    ensures Apply(w, log, limit, s, step).store == Clean(w, log, s.polls[step.id].to)
  {
    var p := s.polls[step.id];
    assert PollInv(w, log, limit, s, p);
    PartAbsorbed(w, log, s.base, s.cursor, s.high, p.to);
  }

  /** A poll asks for another page exactly after a page with events that says there are more; a failure
      ends it where the last whole page left the cursor. */
  lemma PollEnds(w: World, log: seq<ChainEvent>, limit: nat, s: State, step: Step)
    requires Inv(w, log, limit, s) && Enabled(log, s, step)
    ensures var s' := Apply(w, log, limit, s, step);
            && (step.PageDone? ==>
                  var p := s.polls[step.id];
                  && s'.cursor == (if p.advance then p.to else s.cursor)
                  && (s'.polling <==> p.more && p.to > p.from)
                  && (s'.polling ==> step.id in s'.polls && s'.polls[step.id].Querying?))
            && (step.Threw? ==> s'.cursor == s.cursor && s'.store == s.store && !s'.polling && s'.polls == map[])
  {
    if step.PageDone? || step.Threw? {
      assert PollInv(w, log, limit, s, s.polls[step.id]);
      assert s.polls - {step.id} == map[];
    }
  }

  lemma {:induction false} PageDoneKeepsInv(w: World, log: seq<ChainEvent>, limit: nat, s: State, step: Step)
    requires Inv(w, log, limit, s) && Enabled(log, s, step) && step.PageDone?
    ensures Inv(w, log, limit, Apply(w, log, limit, s, step))
  {
    var p := s.polls[step.id];
    assert PollInv(w, log, limit, s, p);
    CommitIsClean(w, log, limit, s, step);
    CleanAbsorbed(w, log, if p.advance then p.to else s.cursor, p.to);
    assert s.polls - {step.id} == map[];
  }

  lemma {:induction false} ApplyKeepsInv(w: World, log: seq<ChainEvent>, limit: nat, s: State, step: Step)
    requires Inv(w, log, limit, s) && Enabled(log, s, step)
    ensures Inv(w, log, limit, Apply(w, log, limit, s, step))
  {
    match step
    case PollOnce(_) =>
    case Page(id, _, _, _) =>
      assert PollInv(w, log, limit, s, s.polls[id]);
      assert log[s.cursor..s.cursor] == [];
    case TableResolved(id) => assert PollInv(w, log, limit, s, s.polls[id]);
    case Ingested(_) => IngestedKeepsInv(w, log, limit, s, step);
    case Threw(_) => ThrewKeepsInv(w, log, limit, s, step);
    case PageDone(_) => PageDoneKeepsInv(w, log, limit, s, step);
  }

  predicate Possible(w: World, log: seq<ChainEvent>, limit: nat, s: State, steps: seq<Step>)
    decreases steps
  {
    steps == []
    || (Enabled(log, s, steps[0]) && Possible(w, log, limit, Apply(w, log, limit, s, steps[0]), steps[1..]))
  }

  function Run(w: World, log: seq<ChainEvent>, limit: nat, s: State, steps: seq<Step>): State
    requires Possible(w, log, limit, s, steps)
    decreases steps
  {
    if steps == [] then s else Run(w, log, limit, Apply(w, log, limit, s, steps[0]), steps[1..])
  }

  lemma {:induction false} RunKeepsInv(w: World, log: seq<ChainEvent>, limit: nat, s: State, steps: seq<Step>)
    requires Inv(w, log, limit, s) && Possible(w, log, limit, s, steps)
    ensures Inv(w, log, limit, Run(w, log, limit, s, steps))
    decreases steps
  {
    if steps != [] {
      ApplyKeepsInv(w, log, limit, s, steps[0]);
      RunKeepsInv(w, log, limit, Apply(w, log, limit, s, steps[0]), steps[1..]);
    }
  }

  const START := State(Empty(), map[], 0, false, map[], 0, 0, Empty())

  /** In every run, with any failures and any overlapping calls of `pollOnce`: at most one poll
      runs, and every page commit leaves the clean pass over the log up to the page's end. */
  lemma {:induction false} EveryRun(w: World, log: seq<ChainEvent>, limit: nat, steps: seq<Step>, id: nat)
    requires Possible(w, log, limit, START, steps)
    ensures var s := Run(w, log, limit, START, steps);
            && |s.polls| <= 1
            && (Enabled(log, s, PageDone(id)) ==>
                  && s.polls[id].to <= |log|
                  && Apply(w, log, limit, s, PageDone(id)).store == Clean(w, log, s.polls[id].to))
  {
    assert Fold(w, Empty(), log[..0]) == Empty();
    CleanAbsorbed(w, log, 0, 0);
    RunKeepsInv(w, log, limit, START, steps);
    var s := Run(w, log, limit, START, steps);
    if s.polls != map[] {
      var a :| a in s.polls;
      assert s.polls.Keys == {a};
    }
    if Enabled(log, s, PageDone(id)) { CommitIsClean(w, log, limit, s, PageDone(id)); }
  }

  // ---- after any failures, an undisturbed poll catches up ----------------------------------------

  /** The step is no failure, and a page comes with its cursor and says exactly whether events remain. */
  predicate Undisturbed(limit: nat, s: State, step: Step) {
    match step
    case Threw(_) => false
    case Page(_, seen, advance, more) => advance && (more <==> PageEnd(s.cursor, limit, seen) < seen)
    case _ => true
  }

  predicate Calm(w: World, log: seq<ChainEvent>, limit: nat, s: State, steps: seq<Step>)
    requires Possible(w, log, limit, s, steps)
    decreases steps
  {
    steps != [] ==>
      Undisturbed(limit, s, steps[0]) && Calm(w, log, limit, Apply(w, log, limit, s, steps[0]), steps[1..])
  }

  /** Either a poll runs, on a page of the kind a calm run gets, or all that was served is indexed. */
  ghost predicate CatchesUp(w: World, log: seq<ChainEvent>, limit: nat, s: State) {
    && (s.polls == map[] ==> s.cursor == s.seen <= |log| && s.store == Clean(w, log, s.seen))
    && forall id :: id in s.polls && s.polls[id].Working? ==> CalmPage(limit, s, s.polls[id])
  }

  predicate CalmPage(limit: nat, s: State, p: Poll)
    requires p.Working?
  {
    p.advance && p.to == PageEnd(s.cursor, limit, s.seen) && (p.more <==> p.to < s.seen)
  }

  lemma {:induction false} StepCatchesUp(w: World, log: seq<ChainEvent>, limit: nat, s: State, step: Step)
    requires limit > 0 && Inv(w, log, limit, s) && Enabled(log, s, step) && Undisturbed(limit, s, step)
    requires CatchesUp(w, log, limit, s) || (step.PollOnce? && s.polls == map[])
    ensures CatchesUp(w, log, limit, Apply(w, log, limit, s, step))
  {
    match step
    case PollOnce(_) =>
    case PageDone(id) =>
      var p := s.polls[id];
      assert PollInv(w, log, limit, s, p) && CalmPage(limit, s, p);
      PageEndIs(s.cursor, limit, s.seen);
      CommitIsClean(w, log, limit, s, step);
      assert s.polls - {id} == map[];
    case Page(id, _, _, _) =>
    case TableResolved(id) => assert CalmPage(limit, s, s.polls[id]);
    case Ingested(id) => assert CalmPage(limit, s, s.polls[id]);
  }

  lemma {:induction false} RunCatchesUp(w: World, log: seq<ChainEvent>, limit: nat, s: State, steps: seq<Step>)
    requires limit > 0 && Inv(w, log, limit, s) && Possible(w, log, limit, s, steps) && Calm(w, log, limit, s, steps)
    requires CatchesUp(w, log, limit, s) || (steps != [] && steps[0].PollOnce? && s.polls == map[])
    ensures CatchesUp(w, log, limit, Run(w, log, limit, s, steps))
    decreases steps
  {
    if steps != [] {
      StepCatchesUp(w, log, limit, s, steps[0]);
      ApplyKeepsInv(w, log, limit, s, steps[0]);
      RunCatchesUp(w, log, limit, Apply(w, log, limit, s, steps[0]), steps[1..]);
    }
  }

  /** However many polls failed before: once a poll has run without a failure, the index is one clean
      pass over all the events that were served, up to the whole log, and so is the cursor. */
  lemma {:induction false} FailuresHeal(w: World, log: seq<ChainEvent>, limit: nat, before: seq<Step>, steps: seq<Step>)
    requires limit > 0 && Possible(w, log, limit, START, before)
    requires var s := Run(w, log, limit, START, before);
             s.polls == map[] && Possible(w, log, limit, s, steps) && Calm(w, log, limit, s, steps)
    requires steps != [] && steps[0].PollOnce?
    ensures var s := Run(w, log, limit, START, before);
            var end := Run(w, log, limit, s, steps);
            end.polls == map[] ==>
              end.cursor == end.seen <= |log| && end.store == Clean(w, log, end.seen)
  {
    assert Fold(w, Empty(), log[..0]) == Empty();
    CleanAbsorbed(w, log, 0, 0);
    RunKeepsInv(w, log, limit, START, before);
    RunCatchesUp(w, log, limit, Run(w, log, limit, START, before), steps);
  }

  /** What a running poll does next when nothing fails and the whole log is there. */
  function NextStep(log: seq<ChainEvent>, limit: nat, s: State, id: nat): Step
    requires id in s.polls && s.cursor <= |log|
  {
    match s.polls[id]
    case Querying => Page(id, |log|, true, PageEnd(s.cursor, limit, |log|) < |log|)
    case Working(_, to, i, table, _, _) =>
      if i >= to || i >= |log| then PageDone(id)
      else if Usable(log[i]) && table.None? then TableResolved(id)
      else Ingested(id)
  }

  /** Steps left on the page. */
  function Left(p: Poll): nat {
    match p
    case Querying => 0
    case Working(_, to, i, table, _, _) =>
      if i >= to then 0 else 2 * (to - i) + if table.None? then 1 else 0
  }

  lemma {:induction false} NextStepFacts(w: World, log: seq<ChainEvent>, limit: nat, s: State, id: nat, s': State)
    requires limit > 0 && Inv(w, log, limit, s) && CatchesUp(w, log, limit, s) && id in s.polls
    requires s.polls[id].Working? ==> s.seen == |log|
    requires Enabled(log, s, NextStep(log, limit, s, id)) ==> s' == Apply(w, log, limit, s, NextStep(log, limit, s, id))
    ensures Enabled(log, s, NextStep(log, limit, s, id)) && Undisturbed(limit, s, NextStep(log, limit, s, id))
    ensures id in s'.polls || (s'.polls == map[] && s'.seen == |log|)
    ensures id in s'.polls ==> (s'.polls[id].Working? ==> s'.seen == |log|) && s'.cursor <= |log|
    ensures id in s'.polls ==>
              if s.polls[id].Querying? then s'.cursor == s.cursor && s'.polls[id].Working?
              else s'.cursor > s.cursor
                   || (s'.cursor == s.cursor && s'.polls[id].Working? && Left(s'.polls[id]) < Left(s.polls[id]))
  {
    assert PollInv(w, log, limit, s, s.polls[id]);
    PageEndIs(s.cursor, limit, s.seen);
    if s.polls[id].Working? {
      assert CalmPage(limit, s, s.polls[id]);
      assert s.polls - {id} == map[];
    }
  }

  /** A poll that is not disturbed always can go on, and comes to an end with all of the log indexed. */
  lemma {:induction false} PollGoesOn(w: World, log: seq<ChainEvent>, limit: nat, s: State, id: nat)
    returns (steps: seq<Step>)
    requires limit > 0 && Inv(w, log, limit, s) && CatchesUp(w, log, limit, s) && id in s.polls
    requires s.polls[id].Working? ==> s.seen == |log|
    ensures Possible(w, log, limit, s, steps) && Calm(w, log, limit, s, steps)
    ensures var end := Run(w, log, limit, s, steps); end.polls == map[] && end.seen == |log|
    decreases |log| - s.cursor, s.polls[id].Querying?, Left(s.polls[id])
  {
    var step := NextStep(log, limit, s, id);
    assert PollInv(w, log, limit, s, s.polls[id]);
    var s' := if Enabled(log, s, step) then Apply(w, log, limit, s, step) else s;
    NextStepFacts(w, log, limit, s, id, s');
    StepCatchesUp(w, log, limit, s, step);
    ApplyKeepsInv(w, log, limit, s, step);
    if id in s'.polls {
      var rest := PollGoesOn(w, log, limit, s', id);
      steps := [step] + rest;
    } else {
      steps := [step];
      assert steps[1..] == [];
    }
    assert steps[0] == step;
  }

  /** So after any run that left no poll running there is a poll that indexes the whole log. */
  lemma {:induction false} CatchUpExists(w: World, log: seq<ChainEvent>, limit: nat, before: seq<Step>, id: nat)
    returns (steps: seq<Step>)
    requires limit > 0 && Possible(w, log, limit, START, before) && Run(w, log, limit, START, before).polls == map[]
    ensures var s := Run(w, log, limit, START, before);
            && Possible(w, log, limit, s, steps)
            && var end := Run(w, log, limit, s, steps);
               end.polls == map[] && end.cursor == |log| && end.store == Clean(w, log, |log|)
  {
    assert Fold(w, Empty(), log[..0]) == Empty();
    CleanAbsorbed(w, log, 0, 0);
    RunKeepsInv(w, log, limit, START, before);
    var s := Run(w, log, limit, START, before);
    var s' := Apply(w, log, limit, s, PollOnce(id));
    ApplyKeepsInv(w, log, limit, s, PollOnce(id));
    var rest := PollGoesOn(w, log, limit, s', id);
    RunCatchesUp(w, log, limit, s', rest);
    steps := [PollOnce(id)] + rest;
    assert steps[0] == PollOnce(id) && steps[1..] == rest;
  }

  /** A table once found is kept. */
  lemma TableIsKept(w: World, log: seq<ChainEvent>, limit: nat, s: State, id: nat)
    requires Inv(w, log, limit, s) && Enabled(log, s, TableResolved(id))
    ensures var c := log[s.polls[id].i].collection.value;
            w.tableOf(c).Some? ==>
              var tables := Apply(w, log, limit, s, TableResolved(id)).tables;
              c in tables && tables[c] == w.tableOf(c).value
  {
  }

  // ---- the indexer object: one poll from start to end, and the two readers -------------------

  /** Every collection listed has at least one registration. */
  ghost predicate ValidIndex(t: Index) {
    t.Valid() && forall c :: c in t.vals ==> t.vals[c].Valid() && t.vals[c].Size() >= 1
  }

  lemma {:induction false} IngestValid(w: World, t: Index, e: ChainEvent)
    requires ValidIndex(t)
    ensures ValidIndex(Ingest(w, t, e))
  {
    if Files(w, e) {
      var c, i, r := e.collection.value, e.integrator.value, RecordOf(w, e);
      assert Empty<UsedByRecord>().Valid() by { forall k ensures Empty<UsedByRecord>().Listed(k) {} }
      SetValid(InnerOf(t, c), i, r);
      SetValid(t, c, InnerOf(t, c).Set(i, r));
    }
  }

  datatype Failure = NoFailure | TableFetch | FieldFetch

  /** What the client meets on one `queryEvents`, and the event at which a fetch throws. */
  datatype Reply =
    | QueryThrows
    | PageReply(seen: nat, advance: bool, more: bool, failAt: nat, failure: Failure)

  /** The log only grows between replies. */
  predicate Growing(replies: seq<Reply>, seen: nat, size: nat)
    decreases replies
  {
    replies == [] ||
    (match replies[0]
     case QueryThrows => Growing(replies[1..], seen, size)
     case PageReply(now, _, _, _, _) => seen <= now <= size && Growing(replies[1..], now, size))
  }

  /** Where the cursor stands after the pages of the replies were committed. */
  function CursorAfter(limit: nat, cursor: nat, replies: seq<Reply>): nat {
    if replies == [] then cursor
    else
      var from, last := CursorAfter(limit, cursor, replies[..|replies| - 1]), replies[|replies| - 1];
      if last.PageReply? && last.advance then PageEnd(from, limit, last.seen) else from
  }

  /** The pages from `cursor` on, up to the end of a log of `total` events: none fails, each comes
      with its cursor, and each says exactly whether events remain. */
  predicate Served(limit: nat, cursor: nat, replies: seq<Reply>, total: nat)
    decreases replies
  {
    replies != []
    && var r := replies[0];
       && r.PageReply? && r.failure == NoFailure && r.advance
       && (r.more <==> PageEnd(cursor, limit, r.seen) < r.seen)
       && if r.more then Served(limit, PageEnd(cursor, limit, r.seen), replies[1..], total) else r.seen == total
  }

  predicate Cached(tables: map<Key, Table>, c: Key) {
    c in tables && tables[c].uid != ""
  }

  /** A fetch that would throw is made only for a collection without a cached table, or with a table. */
  predicate Throws(w: World, tables: map<Key, Table>, c: Key, failure: Failure) {
    match failure
    case NoFailure => false
    case TableFetch => !Cached(tables, c)
    case FieldFetch => w.tableOf(c).Some? && w.tableOf(c).value.uid != ""
  }

  function CacheAfter(w: World, tables: map<Key, Table>, c: Key, failure: Failure): map<Key, Table> {
    if Cached(tables, c) || failure == TableFetch || w.tableOf(c).None? then tables
    else tables[c := w.tableOf(c).value]
  }

  /** Where the last of the pages ended. */
  function LastEnd(limit: nat, cursor: nat, replies: seq<Reply>): nat
    requires replies != [] && replies[|replies| - 1].PageReply?
  {
    PageEnd(CursorAfter(limit, cursor, replies[..|replies| - 1]), limit, replies[|replies| - 1].seen)
  }

  /** What the next replies or the end of the tick owe to replies that serve the whole log. */
  ghost predicate OnTrack(limit: nat, start: nat, replies: seq<Reply>, pages: nat, cursor: nat, more: bool, end: nat)
    requires pages <= |replies|
  {
    limit > 0 ==>
      forall total: nat :: Served(limit, start, replies, total) ==>
        if more then Served(limit, cursor, replies[pages..], total) else end == cursor == total
  }

  lemma {:induction false} StaysOnTrack(limit: nat, start: nat, replies: seq<Reply>, pages: nat, cursor: nat)
    requires pages < |replies| && replies[pages].PageReply? && cursor <= replies[pages].seen
    requires OnTrack(limit, start, replies, pages, cursor, true, 0)
    ensures var r := replies[pages];
            var to := PageEnd(cursor, limit, r.seen);
            OnTrack(limit, start, replies, pages + 1, if r.advance then to else cursor, r.more && to > cursor, to)
  {
    var r := replies[pages];
    PageEndIs(cursor, limit, r.seen);
    assert replies[pages..][0] == r && replies[pages..][1..] == replies[pages + 1..];
  }

  lemma OffTrack(limit: nat, start: nat, replies: seq<Reply>, pages: nat, cursor: nat)
    requires pages <= |replies| && OnTrack(limit, start, replies, pages, cursor, true, 0)
    ensures limit > 0 && (pages == |replies| || replies[pages].QueryThrows? || replies[pages].failure != NoFailure) ==>
              forall total: nat :: !Served(limit, start, replies, total)
  {
  }

  lemma CursorStep(limit: nat, start: nat, replies: seq<Reply>, pages: nat)
    requires pages < |replies| && replies[pages].PageReply?
    ensures var from, r := CursorAfter(limit, start, replies[..pages]), replies[pages];
            var to := PageEnd(from, limit, r.seen);
            && CursorAfter(limit, start, replies[..pages + 1]) == (if r.advance then to else from)
            && LastEnd(limit, start, replies[..pages + 1]) == to
  {
    assert replies[..pages + 1][..pages] == replies[..pages];
  }

  datatype LeaderboardEntry = LeaderboardEntry(collection: Key, count: nat, latestRegisteredAtMs: int)

  class Indexer {
    const pageLimit: nat
    var store: Index
    var tableUidCache: map<Key, Table>
    var cursor: nat
    var polling: bool
    ghost var seen: nat
    ghost var high: nat

    constructor (pageLimit: nat, ghost w: World, ghost log: seq<ChainEvent>)
      ensures Good(w, log) && !polling && store == Empty() && cursor == 0 && seen == 0
      ensures this.pageLimit == pageLimit
    {
      this.pageLimit := pageLimit;
      store, tableUidCache, cursor, polling, seen, high := Empty(), map[], 0, false, 0, 0;
      new;
      assert Fold(w, Empty(), log[..0]) == Empty();
      CleanAbsorbed(w, log, 0, 0);
      forall k ensures store.Listed(k) {}
    }

    /** Between polls: the store has absorbed the log up to `high`. */
    ghost predicate Good(w: World, log: seq<ChainEvent>)
      reads this
    {
      && cursor <= high <= seen <= |log| && high <= cursor + pageLimit
      && (forall c :: c in tableUidCache ==> w.tableOf(c) == Some(tableUidCache[c]))
      && ValidIndex(store)
      && Absorbed(w, log, store, cursor, high)
    }

    method IngestEvent(w: World, e: ChainEvent, failure: Failure) returns (threw: bool)
      requires forall c :: c in tableUidCache ==> w.tableOf(c) == Some(tableUidCache[c])
      modifies this`store, this`tableUidCache
      ensures forall c :: c in tableUidCache ==> w.tableOf(c) == Some(tableUidCache[c])
      ensures store == if threw then old(store) else Ingest(w, old(store), e)
      ensures threw <==> Usable(e) && Throws(w, old(tableUidCache), e.collection.value, failure)
      ensures tableUidCache == if Usable(e) then CacheAfter(w, old(tableUidCache), e.collection.value, failure)
                               else old(tableUidCache)
      ensures Usable(e) && failure == NoFailure && w.tableOf(e.collection.value).Some? ==>
                e.collection.value in tableUidCache
    {
      if !Usable(e) {
        return false;
      }
      var collection, integrator := e.collection.value, e.integrator.value;
      var table := None;
      if collection in tableUidCache && tableUidCache[collection].uid != "" {
        table := Some(tableUidCache[collection]);
      } else {
        if failure == TableFetch {
          return true;
        }
        table := w.tableOf(collection);
        if table.Some? {
          tableUidCache := tableUidCache[collection := table.value];
        }
      }
      if table.None? || table.value.uid == "" {
        return false;
      }
      if failure == FieldFetch {
        return true;
      }
      var meta := w.metaOf(table.value, integrator);
      if meta.None? {
        return false;
      }
      if !store.Has(collection) {
        store := store.Set(collection, Empty());
      }
      var inner := store.vals[collection];
      var record := UsedByRecord(meta.value, integrator, e.registeredAtMs.value);
      store := store.Set(collection, inner.Set(integrator, record));
      assert old(store).vals[collection := Empty()][collection := inner.Set(integrator, RecordOf(w, e))]
          == old(store).vals[collection := inner.Set(integrator, RecordOf(w, e))];
      return false;
    }

    /** One tick.  A tick during another returns at once; a failure leaves the cursor where the
        last whole page left it; a tick that ends without one leaves a clean index.  A tick that is
        served every page up to the end of the log ends there. */
    method PollOnce(w: World, log: seq<ChainEvent>, replies: seq<Reply>)
      returns (finished: bool, end: nat, pages: nat)
      requires Good(w, log) && Growing(replies, seen, |log|)
      modifies this
      ensures old(polling) ==> !finished && polling && store == old(store) && cursor == old(cursor)
      ensures Good(w, log) && polling == old(polling) && cursor >= old(cursor)
      ensures finished ==> end <= |log| && store == Clean(w, log, end)
      ensures pages <= |replies| && cursor == CursorAfter(pageLimit, old(cursor), replies[..pages])
      ensures finished ==> pages > 0 && replies[pages - 1].PageReply?
      ensures finished ==> end == LastEnd(pageLimit, old(cursor), replies[..pages])
      ensures !old(polling) && !finished && pages < |replies| ==>
                replies[pages].QueryThrows? || replies[pages].failure != NoFailure
      ensures !old(polling) && pageLimit > 0 ==>
                forall total: nat :: Served(pageLimit, old(cursor), replies, total) ==>
                  finished && end == cursor == total
    {
      finished, end, pages := false, 0, 0;
      if polling {
        return;
      }
      polling := true;
      var hasNext := true;
      while hasNext
        invariant polling && Good(w, log) && cursor >= old(cursor)
        invariant 0 <= pages <= |replies| && Growing(replies[pages..], seen, |log|)
        invariant cursor == CursorAfter(pageLimit, old(cursor), replies[..pages])
        invariant !hasNext ==> end <= |log| && store == Clean(w, log, end)
        invariant !hasNext ==> pages > 0 && replies[pages - 1].PageReply?
        invariant !hasNext ==> end == LastEnd(pageLimit, old(cursor), replies[..pages])
        invariant OnTrack(pageLimit, old(cursor), replies, pages, cursor, hasNext, end)
        decreases |replies| - pages, hasNext
      {
        OffTrack(pageLimit, old(cursor), replies, pages, cursor);
        if pages == |replies| || replies[pages].QueryThrows? {
          polling := false;
          return;
        }
        CursorStep(pageLimit, old(cursor), replies, pages);
        StaysOnTrack(pageLimit, old(cursor), replies, pages, cursor);
        assert replies[pages..][0] == replies[pages] && replies[pages..][1..] == replies[pages + 1..];
        var threw, to, more := IngestPage(w, log, replies[pages]);
        if threw {
          polling := false;
          return;
        }
        pages, end, hasNext := pages + 1, to, more;
      }
      polling := false;
      finished := true;
    }

    /** One page: its events, and then the cursor; a failure leaves the cursor. */
    method IngestPage(w: World, log: seq<ChainEvent>, reply: Reply) returns (threw: bool, to: nat, more: bool)
      requires Good(w, log) && reply.PageReply? && seen <= reply.seen <= |log|
      modifies this`store, this`tableUidCache, this`high, this`seen, this`cursor
      ensures Good(w, log) && seen == reply.seen
      ensures threw ==> reply.failure != NoFailure && cursor == old(cursor)
      ensures !threw ==> to == PageEnd(old(cursor), pageLimit, reply.seen) <= |log| && store == Clean(w, log, to)
      ensures !threw ==> cursor == if reply.advance then to else old(cursor)
      ensures !threw ==> (more <==> reply.more && to > old(cursor))
    {
      seen := reply.seen;
      threw, to := WorkThrough(w, log, reply);
      more := false;
      if threw {
        return;
      }
      var from := cursor;
      CleanAbsorbed(w, log, if reply.advance then to else from, to);
      high := to;
      if reply.advance {
        cursor := to;
      }
      more := reply.more && to > from;
    }

    /** The events of one page. */
    method WorkThrough(w: World, log: seq<ChainEvent>, reply: Reply) returns (threw: bool, to: nat)
      requires Good(w, log) && reply.PageReply? && seen == reply.seen
      modifies this`store, this`tableUidCache, this`high
      ensures to == PageEnd(cursor, pageLimit, reply.seen) && high <= to <= |log| && old(high) <= to <= seen
      ensures Good(w, log)
      ensures !threw ==> store == Clean(w, log, to)
      ensures threw ==> reply.failure != NoFailure
    {
      var from := cursor;
      to := PageEnd(from, pageLimit, reply.seen);
      ghost var base, h := store, high;
      var i := from;
      threw := false;
      while i < to && !threw
        invariant from <= i <= to
        invariant forall c :: c in tableUidCache ==> w.tableOf(c) == Some(tableUidCache[c])
        invariant ValidIndex(store) && store == Fold(w, base, log[from..i])
        invariant threw ==> reply.failure != NoFailure
        decreases |log| - i, !threw
      {
        IngestValid(w, store, log[i]);
        threw := IngestEvent(w, log[i], if i - from == reply.failAt then reply.failure else NoFailure);
        if !threw {
          assert log[from..i + 1] == log[from..i] + [log[i]];
          FoldSnoc(w, base, log[from..i], log[i]);
          i := i + 1;
        }
      }
      PartAbsorbed(w, log, base, from, h, i);
      high := if i <= h then h else i;
    }

    /** The records of a collection, in insertion order. */
    method GetIntegrations(collection: Key) returns (records: seq<UsedByRecord>)
      requires ValidIndex(store)
      ensures |records| == InnerOf(store, collection).Size()
      ensures forall k :: 0 <= k < |records| ==>
                InnerOf(store, collection).keys[k] in InnerOf(store, collection).vals
                && records[k] == InnerOf(store, collection).vals[InnerOf(store, collection).keys[k]]
    {
      records := [];
      if !store.Has(collection) {
        return;
      }
      var inner := store.vals[collection];
      for k := 0 to |inner.keys|
        invariant |records| == k
        invariant forall j :: 0 <= j < k ==> inner.keys[j] in inner.vals && records[j] == inner.vals[inner.keys[j]]
      {
        assert inner.Listed(inner.keys[k]);
        records := records + [inner.vals[inner.keys[k]]];
      }
    }

    /** A row per collection, in insertion order: how many integrators it has, and its latest
        registration. */
    method GetLeaderboard() returns (rows: seq<LeaderboardEntry>)
      requires ValidIndex(store)
      ensures |rows| == store.Size()
      ensures forall k :: 0 <= k < |rows| ==> store.keys[k] in store.vals && IsRow(store, store.keys[k], rows[k])
    {
      rows := [];
      for k := 0 to |store.keys|
        invariant |rows| == k
        invariant forall j :: 0 <= j < k ==> store.keys[j] in store.vals && IsRow(store, store.keys[j], rows[j])
      {
        var c := store.keys[k];
        assert store.Listed(c);
        var latest := LatestOf(store.vals[c]);
        rows := rows + [LeaderboardEntry(c, store.vals[c].Size(), latest)];
      }
    }
  }

  ghost predicate Latest(inner: Inner, latest: int) {
    && (forall i :: i in inner.vals ==> inner.vals[i].registeredAtMs <= latest)
    && latest >= 0
    && (latest > 0 ==> exists i :: i in inner.vals && inner.vals[i].registeredAtMs == latest)
  }

  ghost predicate IsRow(t: Index, c: Key, row: LeaderboardEntry)
    requires c in t.vals
  {
    row.collection == c && row.count == t.vals[c].Size() >= 1 && Latest(t.vals[c], row.latestRegisteredAtMs)
  }

  method LatestOf(inner: Inner) returns (latest: int)
    requires inner.Valid()
    ensures Latest(inner, latest)
  {
    latest := 0;
    for k := 0 to |inner.keys|
      invariant forall j :: 0 <= j < k ==>
                  inner.keys[j] in inner.vals && inner.vals[inner.keys[j]].registeredAtMs <= latest
      invariant latest >= 0
      invariant latest > 0 ==> exists i :: i in inner.vals && inner.vals[i].registeredAtMs == latest
    {
      var i := inner.keys[k];
      assert inner.Listed(i);
      if inner.vals[i].registeredAtMs > latest {
        latest := inner.vals[i].registeredAtMs;
      }
    }
    forall i | i in inner.vals ensures inner.vals[i].registeredAtMs <= latest { assert inner.Listed(i); }
  }
}
