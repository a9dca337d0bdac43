/** The asynchronous generation jobs of `backend/src/lib/generate-jobs.ts`. */
module GenerateJobs {
  import opened BoundedMap
  import opened OrderedMap

  datatype JobState = Pending | Done(result: string) | Failed(code: string, httpStatus: nat, refundable: bool)

  datatype JobRecord = JobRecord(owner: string, createdAt: int, state: JobState)

  datatype JobLookup = Found(state: JobState) | NotFound | Forbidden

  datatype Settings = Settings(ttlMs: nat, maxEntries: nat)

  type Jobs = OMap<JobRecord>

  function Stale(cutoff: int): JobRecord -> bool {
    (r: JobRecord) => r.createdAt < cutoff
  }

  /** `create` reads the clock twice: for its sweep, and for the new record. */
  function Create(s: Settings, m: Jobs, id: Key, owner: string, sweptAt: int, now: int): Jobs
    requires s.maxEntries >= 1
  {
    m.Sweep(Stale(sweptAt - s.ttlMs)).Evict(s.maxEntries).Set(id, JobRecord(owner, now, Pending))
  }

  function SetState(m: Jobs, id: Key, state: JobState): Jobs {
    if m.Has(id) then m.Set(id, m.vals[id].(state := state)) else m
  }

  /** A terminal state is delivered once: the read that returns it deletes the record. */
  function Take(m: Jobs, id: Key, owner: string): (Jobs, JobLookup) {
    if !m.Has(id) then (m, NotFound)
    else if m.vals[id].owner != owner then (m, Forbidden)
    else (if m.vals[id].state.Pending? then m else m.Delete(id), Found(m.vals[id].state))
  }

  class JobStore {
    const settings: Settings
    var jobs: Jobs

    ghost predicate Valid()
      reads this
    {
      settings.maxEntries >= 1 && jobs.Valid() && jobs.Size() <= settings.maxEntries
    }

    constructor (settings: Settings)
      requires settings.maxEntries >= 1
      ensures Valid() && jobs == Empty() && this.settings == settings
    {
      this.settings := settings;
      jobs := Empty();
    }

    method SweepStale(now: int)
      requires Valid()
      modifies this`jobs
      ensures Valid()
      ensures jobs == old(jobs).Sweep(Stale(now - settings.ttlMs))
    {
      SweepFacts(jobs, Stale(now - settings.ttlMs));
      jobs := SweepLoop(jobs, Stale(now - settings.ttlMs));
    }

    method CreateJob(id: Key, owner: string, sweptAt: int, now: int)
      requires Valid()
      modifies this`jobs
      ensures Valid()
      ensures jobs == Create(settings, old(jobs), id, owner, sweptAt, now)
    {
      CreateValid(settings, jobs, id, owner, sweptAt, now);
      SweepStale(sweptAt);
      jobs := EvictLoop(jobs, settings.maxEntries);
      jobs := jobs.Set(id, JobRecord(owner, now, Pending));
    }

    method SetDone(id: Key, result: string)
      requires Valid()
      modifies this`jobs
      ensures Valid()
      ensures jobs == SetState(old(jobs), id, Done(result))
    {
      if jobs.Has(id) {
        SetValid(jobs, id, jobs.vals[id].(state := Done(result)));
        jobs := jobs.Set(id, jobs.vals[id].(state := Done(result)));
      }
    }

    method SetError(id: Key, code: string, httpStatus: nat, refundable: bool)
      requires Valid()
      modifies this`jobs
      ensures Valid()
      ensures jobs == SetState(old(jobs), id, Failed(code, httpStatus, refundable))
    {
      if jobs.Has(id) {
        SetValid(jobs, id, jobs.vals[id].(state := Failed(code, httpStatus, refundable)));
        jobs := jobs.Set(id, jobs.vals[id].(state := Failed(code, httpStatus, refundable)));
      }
    }

    method TakeJob(id: Key, owner: string) returns (lookup: JobLookup)
      requires Valid()
      modifies this`jobs
      ensures Valid()
      ensures (jobs, lookup) == Take(old(jobs), id, owner)
    {
      if !jobs.Has(id) {
        return NotFound;
      }
      var rec := jobs.vals[id];
      if rec.owner != owner {
        return Forbidden;
      }
      DeleteValid(jobs, id);
      if !rec.state.Pending? {
        jobs := jobs.Delete(id);
      }
      return Found(rec.state);
    }
  }

  lemma {:induction false} CreateValid(s: Settings, m: Jobs, id: Key, owner: string, sweptAt: int, now: int)
    requires s.maxEntries >= 1 && m.Valid()
    ensures Create(s, m, id, owner, sweptAt, now).Valid()
    ensures Create(s, m, id, owner, sweptAt, now).Size() <= s.maxEntries
  {
    var expired := Stale(sweptAt - s.ttlMs);
    MakeRoomSize(m, expired, s.maxEntries);
    SetCreates(m.Sweep(expired).Evict(s.maxEntries), s, id, JobRecord(owner, now, Pending));
  }

  lemma SetCreates(room: Jobs, s: Settings, id: Key, r: JobRecord)
    requires room.Valid() && room.Size() < s.maxEntries
    ensures room.Set(id, r).Valid() && room.Set(id, r).Size() <= s.maxEntries
  {
    SetWithin(room, id, r, s.maxEntries);
  }

  // ---- runs, with their history --------------------------------------------------------

  /** What a job is to an observer: whose it is, when it was created, the state last set. */
  datatype Shop = Shop(
    jobs: Jobs,
    created: seq<Key>,
    book: map<Key, JobRecord>,
    delivered: set<Key>)

  datatype Event =
    | CreateAt(id: Key, owner: string, sweptAt: int, at: int)
    | Set(id: Key, state: JobState, at: int)
    | TakeAt(id: Key, owner: string, at: int)
    | Tick(at: int)

  /** Job ids are fresh, and a run sets only terminal states. */
  predicate Enabled(shop: Shop, e: Event, t: int) {
    && t <= e.at
    && (e.CreateAt? ==> e.id !in shop.book && t <= e.sweptAt <= e.at)
    && (e.Set? ==> !e.state.Pending?)
  }

  function Apply(s: Settings, shop: Shop, e: Event): (Shop, JobLookup)
    requires s.maxEntries >= 1
  {
    match e
    case CreateAt(id, owner, sweptAt, at) =>
      (Shop(Create(s, shop.jobs, id, owner, sweptAt, at), shop.created + [id],
            shop.book[id := JobRecord(owner, at, Pending)], shop.delivered), NotFound)
    case Set(id, state, _) =>
      (shop.(jobs := SetState(shop.jobs, id, state),
             book := if id in shop.book then shop.book[id := shop.book[id].(state := state)] else shop.book), NotFound)
    case TakeAt(id, owner, _) =>
      var (jobs, lookup) := Take(shop.jobs, id, owner);
      (shop.(jobs := jobs,
             delivered := if lookup.Found? && !lookup.state.Pending? then shop.delivered + {id} else shop.delivered),
       lookup)
    case Tick(at) =>
      (shop.(jobs := shop.jobs.Sweep(Stale(at - s.ttlMs))), NotFound)
  }

  /** The store holds jobs of the book, in creation order, none of them delivered. */
  ghost predicate Kept(s: Settings, shop: Shop) {
    && shop.jobs.Valid() && shop.jobs.Size() <= s.maxEntries
    && Distinct(shop.created)
    && (forall k :: k in shop.created <==> k in shop.book)
    && shop.jobs.keys == Select(shop.created, shop.jobs.vals.Keys)
    && (forall k :: k in shop.jobs.vals ==> k in shop.book && shop.jobs.vals[k] == shop.book[k] && k !in shop.delivered)
  }

  /** Job number `p` is still there unless it was taken, is past its TTL, or `maxEntries`
      jobs were created after it. */
  ghost predicate Survives(s: Settings, shop: Shop, now: int, p: int)
    requires 0 <= p < |shop.created|
  {
    var id := shop.created[p];
    (&& id in shop.book && id !in shop.delivered && shop.book[id].createdAt >= now - s.ttlMs
     && |shop.created| - p - 1 < s.maxEntries)
    ==> id in shop.jobs.vals
  }

  ghost predicate Inv(s: Settings, shop: Shop, now: int) {
    Kept(s, shop) && forall p :: 0 <= p < |shop.created| ==> Survives(s, shop, now, p)
  }

  lemma {:induction false} RestrictKept(s: Settings, shop: Shop, keep: set<Key>)
    requires Kept(s, shop)
    ensures Kept(s, shop.(jobs := shop.jobs.Restrict(keep)))
  {
    RestrictValid(shop.jobs, keep);
    var r := shop.jobs.Restrict(keep);
    SelectSelect(shop.created, shop.jobs.vals.Keys, keep, r.vals.Keys);
  }

  lemma {:induction false} NewestKept(s: Settings, shop: Shop, n: nat)
    requires Kept(s, shop) && n <= shop.jobs.Size()
    ensures Kept(s, shop.(jobs := shop.jobs.Newest(n)))
  {
    NewestValid(shop.jobs, n);
    var r := shop.jobs.Newest(n);
    SelectSuffix(shop.created, shop.jobs.vals.Keys, n);
    SelectSame(shop.created, (set k | k in shop.jobs.vals.Keys && k in shop.jobs.keys[n..]), r.vals.Keys);
  }

  lemma {:induction false} SweepKept(s: Settings, shop: Shop, t: int, now: int)
    requires Inv(s, shop, t) && t <= now
    ensures Inv(s, shop.(jobs := shop.jobs.Sweep(Stale(now - s.ttlMs))), now)
  {
    RestrictKept(s, shop, shop.jobs.Unexpired(Stale(now - s.ttlMs)));
    var r := shop.(jobs := shop.jobs.Sweep(Stale(now - s.ttlMs)));
    forall p | 0 <= p < |r.created| ensures Survives(s, r, now, p) { assert Survives(s, shop, t, p); }
  }

  /** An eviction drops only jobs with at least `maxEntries - 1` younger ones. */
  lemma {:induction false} EvictKept(s: Settings, shop: Shop)
    requires s.maxEntries >= 1 && Kept(s, shop)
    ensures Kept(s, shop.(jobs := shop.jobs.Evict(s.maxEntries)))
    ensures forall p | 0 <= p < |shop.created| && |shop.created| - p < s.maxEntries
              && shop.created[p] in shop.jobs.vals ::
              shop.created[p] in shop.jobs.Evict(s.maxEntries).vals
  {
    var m := shop.jobs;
    if m.Size() >= s.maxEntries {
      var n := m.Size() - s.maxEntries + 1;
      NewestKept(s, shop, n);
      forall p | 0 <= p < |shop.created| && shop.created[p] in m.vals && |shop.created| - p < s.maxEntries
        ensures shop.created[p] in m.keys[n..]
      {
        assert m.Listed(shop.created[p]);
        var q :| 0 <= q < |m.keys| && m.keys[q] == shop.created[p];
        SelectTail(shop.created, m.vals.Keys, p, q);
        assert m.keys[n..][q - n] == shop.created[p];
      }
    }
  }

  lemma {:induction false} InsertKept(s: Settings, shop: Shop, id: Key, rec: JobRecord, r: Shop)
    requires Kept(s, shop) && id !in shop.book && shop.jobs.Size() < s.maxEntries && id !in shop.delivered
    requires r == Shop(shop.jobs.Set(id, rec), shop.created + [id], shop.book[id := rec], shop.delivered)
    ensures Kept(s, r)
  {
    SetValid(shop.jobs, id, rec);
    DistinctSnoc(shop.created, id);
    assert shop.jobs.Listed(id);
    var created, keys := shop.created + [id], shop.jobs.Set(id, rec).vals.Keys;
    assert created[..|shop.created|] == shop.created;
    SelectSame(shop.created, shop.jobs.vals.Keys, keys);
  }

  lemma {:induction false} CreateKept(s: Settings, shop: Shop, swept: Shop, e: Event)
    requires s.maxEntries >= 1 && Kept(s, swept) && e.CreateAt? && e.id !in shop.book && e.id !in shop.delivered
    requires shop.jobs.Valid() && swept == shop.(jobs := shop.jobs.Sweep(Stale(e.sweptAt - s.ttlMs)))
    ensures Kept(s, Apply(s, shop, e).0)
  {
    RoomKept(s, shop, swept, e);
    var room := swept.(jobs := swept.jobs.Evict(s.maxEntries));
    var rec := JobRecord(e.owner, e.at, Pending);
    InsertKept(s, room, e.id, rec, Apply(s, shop, e).0);
  }

  lemma {:induction false} RoomKept(s: Settings, shop: Shop, swept: Shop, e: Event)
    requires s.maxEntries >= 1 && Kept(s, swept) && e.CreateAt?
    requires shop.jobs.Valid() && swept == shop.(jobs := shop.jobs.Sweep(Stale(e.sweptAt - s.ttlMs)))
    ensures Kept(s, swept.(jobs := swept.jobs.Evict(s.maxEntries)))
    ensures swept.jobs.Evict(s.maxEntries).Size() < s.maxEntries
  {
    EvictKept(s, swept);
    MakeRoomSize(shop.jobs, Stale(e.sweptAt - s.ttlMs), s.maxEntries);
  }

  lemma {:induction false} CreateKeepsInv(s: Settings, shop: Shop, e: Event, t: int)
    requires s.maxEntries >= 1 && Inv(s, shop, t) && Enabled(shop, e, t) && e.CreateAt? && e.id !in shop.delivered
    ensures Inv(s, Apply(s, shop, e).0, e.at)
  {
    var swept := shop.(jobs := shop.jobs.Sweep(Stale(e.sweptAt - s.ttlMs)));
    SweepKept(s, shop, t, e.sweptAt);
    CreateKept(s, shop, swept, e);
    EvictKept(s, swept);
    forall p | 0 <= p < |shop.created| + 1 ensures Survives(s, Apply(s, shop, e).0, e.at, p) {
      if p < |shop.created| {
        CreateSurvives(s, shop, swept, e, p);
      } else {
        assert e.id in Apply(s, shop, e).0.jobs.vals;
      }
    }
  }

  lemma {:induction false} CreateSurvives(s: Settings, shop: Shop, swept: Shop, e: Event, p: int)
    requires s.maxEntries >= 1 && Kept(s, shop) && e.CreateAt? && e.id !in shop.book && e.sweptAt <= e.at
    requires swept == shop.(jobs := shop.jobs.Sweep(Stale(e.sweptAt - s.ttlMs)))
    requires 0 <= p < |shop.created| && Survives(s, swept, e.sweptAt, p)
    requires shop.created[p] in swept.jobs.vals && |shop.created| - p < s.maxEntries
             ==> shop.created[p] in swept.jobs.Evict(s.maxEntries).vals
    ensures Survives(s, Apply(s, shop, e).0, e.at, p)
  {
    assert shop.created[p] in shop.created;
  }

  lemma {:induction false} SetKeepsInv(s: Settings, shop: Shop, e: Event, t: int)
    requires s.maxEntries >= 1 && Inv(s, shop, t) && Enabled(shop, e, t) && e.Set?
    ensures Inv(s, Apply(s, shop, e).0, e.at)
  {
    var r := Apply(s, shop, e).0;
    if shop.jobs.Has(e.id) { SetValid(shop.jobs, e.id, shop.jobs.vals[e.id].(state := e.state)); }
    SelectSame(shop.created, shop.jobs.vals.Keys, r.jobs.vals.Keys);
    forall p | 0 <= p < |r.created| ensures Survives(s, r, e.at, p) { assert Survives(s, shop, t, p); }
  }

  lemma {:induction false} TakeKeepsInv(s: Settings, shop: Shop, e: Event, t: int)
    requires s.maxEntries >= 1 && Inv(s, shop, t) && Enabled(shop, e, t) && e.TakeAt?
    ensures Inv(s, Apply(s, shop, e).0, e.at)
  {
    RestrictKept(s, shop, set x | x in shop.jobs.vals && x != e.id);
    var r := Apply(s, shop, e).0;
    forall p | 0 <= p < |r.created| ensures Survives(s, r, e.at, p) { assert Survives(s, shop, t, p); }
  }

  /** Delivered jobs are in the book. */
  ghost predicate DeliveredKnown(shop: Shop) {
    forall k :: k in shop.delivered ==> k in shop.book
  }

  lemma {:induction false} ApplyKeepsInv(s: Settings, shop: Shop, e: Event, t: int)
    requires s.maxEntries >= 1 && Inv(s, shop, t) && DeliveredKnown(shop) && Enabled(shop, e, t)
    ensures Inv(s, Apply(s, shop, e).0, e.at) && DeliveredKnown(Apply(s, shop, e).0)
    ensures shop.delivered <= Apply(s, shop, e).0.delivered
  {
    match e
    case CreateAt(id, _, _, _) => CreateKeepsInv(s, shop, e, t);
    case Set(_, _, _) => SetKeepsInv(s, shop, e, t);
    case TakeAt(_, _, _) => TakeKeepsInv(s, shop, e, t);
    case Tick(at) => SweepKept(s, shop, t, at);
  }

  predicate Possible(s: Settings, shop: Shop, es: seq<Event>, t: int)
    requires s.maxEntries >= 1
    decreases es
  {
    es == [] || (Enabled(shop, es[0], t) && Possible(s, Apply(s, shop, es[0]).0, es[1..], es[0].at))
  }

  function Run(s: Settings, shop: Shop, es: seq<Event>): Shop
    requires s.maxEntries >= 1
    decreases es
  {
    if es == [] then shop else Run(s, Apply(s, shop, es[0]).0, es[1..])
  }

  function LastAt(es: seq<Event>, t: int): int
    decreases es
  {
    if es == [] then t else LastAt(es[1..], es[0].at)
  }

  lemma {:induction false} RunKeepsInv(s: Settings, shop: Shop, es: seq<Event>, t: int)
    requires s.maxEntries >= 1 && Inv(s, shop, t) && DeliveredKnown(shop) && Possible(s, shop, es, t)
    ensures Inv(s, Run(s, shop, es), LastAt(es, t)) && DeliveredKnown(Run(s, shop, es))
    ensures shop.delivered <= Run(s, shop, es).delivered
    decreases es
  {
    if es != [] {
      ApplyKeepsInv(s, shop, es[0], t);
      RunKeepsInv(s, Apply(s, shop, es[0]).0, es[1..], es[0].at);
    }
  }

  // ---- what a caller sees -----------------------------------------------------------------

  /** The answer of a store that forgets nothing but what it delivered. */
  function FreeLookup(shop: Shop, id: Key, owner: string): JobLookup {
    if id !in shop.book || id in shop.delivered then NotFound
    else if shop.book[id].owner != owner then Forbidden
    else Found(shop.book[id].state)
  }

  /** In every reachable state a read answers as the unbounded store, or "not found": it gives
      a state only to the owner, the one last set; and it finds every undelivered job that is
      within its TTL and has fewer than `maxEntries` younger ones. */
  lemma {:induction false} TakeAnswers(s: Settings, shop: Shop, now: int, id: Key, owner: string)
    requires s.maxEntries >= 1 && Inv(s, shop, now)
    ensures Take(shop.jobs, id, owner).1 in {FreeLookup(shop, id, owner), NotFound}
    ensures forall p | 0 <= p < |shop.created| && shop.created[p] == id && id in shop.book
                    && shop.book[id].createdAt >= now - s.ttlMs && |shop.created| - p - 1 < s.maxEntries ::
              Take(shop.jobs, id, owner).1 == FreeLookup(shop, id, owner)
  {
    forall p | 0 <= p < |shop.created| && shop.created[p] == id && id in shop.book
              && shop.book[id].createdAt >= now - s.ttlMs && |shop.created| - p - 1 < s.maxEntries
      ensures Take(shop.jobs, id, owner).1 == FreeLookup(shop, id, owner)
    {
      assert Survives(s, shop, now, p);
    }
  }

  /** A terminal state is delivered at most once: after the read that gives it, no run finds
      the job again. */
  lemma {:induction false} DeliveredOnce(s: Settings, shop: Shop, id: Key, owner: string, at: int, t: int,
                                       es: seq<Event>, who: string)
    requires s.maxEntries >= 1 && Inv(s, shop, t) && DeliveredKnown(shop) && t <= at
    requires var found := Take(shop.jobs, id, owner).1; found.Found? && !found.state.Pending?
    requires Possible(s, Apply(s, shop, TakeAt(id, owner, at)).0, es, at)
    ensures Take(Run(s, Apply(s, shop, TakeAt(id, owner, at)).0, es).jobs, id, who).1 == NotFound
  {
    ApplyKeepsInv(s, shop, TakeAt(id, owner, at), t);
    RunKeepsInv(s, Apply(s, shop, TakeAt(id, owner, at)).0, es, at);
  }

  /** Only a `Set` of its own alters the entry of a job in the book. */
  lemma {:induction false} BookStays(s: Settings, shop: Shop, es: seq<Event>, id: Key, t: int)
    requires s.maxEntries >= 1 && Possible(s, shop, es, t) && id in shop.book
    requires forall e | e in es :: e.Set? ==> e.id != id
    ensures id in Run(s, shop, es).book && Run(s, shop, es).book[id] == shop.book[id]
    decreases es
  {
    if es != [] {
      assert es[0] in es;
      BookStays(s, Apply(s, shop, es[0]).0, es[1..], id, es[0].at);
    }
  }

  lemma InvLater(s: Settings, shop: Shop, t: int, now: int)
    requires Inv(s, shop, t) && t <= now
    ensures Inv(s, shop, now)
  {
    forall p | 0 <= p < |shop.created| ensures Survives(s, shop, now, p) {
      assert Survives(s, shop, t, p);
    }
  }

  // ---- the life of a job, from event to event -------------------------------------------------

  function CreatesIn(es: seq<Event>): nat {
    if es == [] then 0 else CreatesIn(es[..|es| - 1]) + if es[|es| - 1].CreateAt? then 1 else 0
  }

  predicate Sets(e: Event, id: Key) {
    e.Set? && e.id == id
  }

  predicate TakenBy(e: Event, id: Key, owner: string) {
    e.TakeAt? && e.id == id && e.owner == owner
  }

  lemma {:induction false} CreatesFirst(es: seq<Event>)
    requires es != []
    ensures CreatesIn(es) == (if es[0].CreateAt? then 1 else 0) + CreatesIn(es[1..])
  {
    if |es| > 1 {
      var n := |es| - 1;
      CreatesFirst(es[..n]);
      assert es[1..][..n - 1] == es[..n][1..] && es[1..][n - 1] == es[n];
    } else {
      assert es[1..] == [] && es[..0] == [];
    }
  }

  lemma {:induction false} CreatedGrows(s: Settings, shop: Shop, es: seq<Event>)
    requires s.maxEntries >= 1
    ensures shop.created <= Run(s, shop, es).created
    ensures |Run(s, shop, es).created| == |shop.created| + CreatesIn(es)
    decreases es
  {
    if es != [] {
      CreatesFirst(es);
      CreatedGrows(s, Apply(s, shop, es[0]).0, es[1..]);
    }
  }

  /** A job that no read has delivered stays undelivered while its owner does not read it, or while it
      is pending. */
  lemma {:induction false} StaysUndelivered(s: Settings, shop: Shop, es: seq<Event>, id: Key, t: int)
    requires s.maxEntries >= 1 && Inv(s, shop, t) && DeliveredKnown(shop) && Possible(s, shop, es, t)
    requires id in shop.book && id !in shop.delivered && forall e | e in es :: !Sets(e, id)
    requires shop.book[id].state.Pending? || forall e | e in es :: !TakenBy(e, id, shop.book[id].owner)
    ensures id !in Run(s, shop, es).delivered
    decreases es
  {
    if es != [] {
      assert es[0] in es;
      ApplyKeepsInv(s, shop, es[0], t);
      StaysUndelivered(s, Apply(s, shop, es[0]).0, es[1..], id, es[0].at);
    }
  }

  /** What a job undelivered and in time is found with. */
  lemma {:induction false} YoungIsFound(s: Settings, shop: Shop, es: seq<Event>, end: Shop, id: Key, t: int, p: nat,
                                        now: int)
    requires s.maxEntries >= 1 && Inv(s, shop, t) && DeliveredKnown(shop) && Possible(s, shop, es, t)
    requires end == Run(s, shop, es) && LastAt(es, t) <= now
    requires id in shop.book && id !in end.delivered && forall e | e in es :: !Sets(e, id)
    requires p < |shop.created| && shop.created[p] == id && |shop.created| - p - 1 + CreatesIn(es) < s.maxEntries
    requires shop.book[id].createdAt >= now - s.ttlMs
    ensures Take(end.jobs, id, shop.book[id].owner).1 == Found(shop.book[id].state)
    ensures !shop.book[id].state.Pending? ==> !Take(end.jobs, id, shop.book[id].owner).0.Has(id)
    ensures forall who: string | who != shop.book[id].owner :: Take(end.jobs, id, who) == (end.jobs, Forbidden)
  {
    RunKeepsInv(s, shop, es, t);
    InvLater(s, end, LastAt(es, t), now);
    BookStays(s, shop, es, id, t);
    CreatedGrows(s, shop, es);
    assert Survives(s, end, now, p);
  }

  /** While its work runs, a job is found pending by its owner, however often it is read, and refused to
      anyone else, if it is within its TTL and fewer than `maxEntries` jobs were created since. */
  lemma {:induction false} PendingIsFound(s: Settings, shop: Shop, t: int, id: Key, owner: string, sweptAt: int,
                                          at: int, made: Shop, es: seq<Event>, end: Shop, now: int)
    requires s.maxEntries >= 1 && Inv(s, shop, t) && DeliveredKnown(shop)
    requires Enabled(shop, CreateAt(id, owner, sweptAt, at), t)
    requires made == Apply(s, shop, CreateAt(id, owner, sweptAt, at)).0
    requires Possible(s, made, es, at) && end == Run(s, made, es) && forall e | e in es :: !Sets(e, id)
    requires LastAt(es, at) <= now <= at + s.ttlMs && CreatesIn(es) < s.maxEntries
    ensures Take(end.jobs, id, owner) == (end.jobs, Found(Pending))
    ensures forall who: string | who != owner :: Take(end.jobs, id, who) == (end.jobs, Forbidden)
    ensures Inv(s, end, LastAt(es, at)) && DeliveredKnown(end) && id !in end.delivered
    ensures id in end.book && end.book[id] == JobRecord(owner, at, Pending)
    ensures |shop.created| < |end.created| && end.created[|shop.created|] == id
    ensures |end.created| == |shop.created| + 1 + CreatesIn(es)
  {
    ApplyKeepsInv(s, shop, CreateAt(id, owner, sweptAt, at), t);
    StaysUndelivered(s, made, es, id, at);
    YoungIsFound(s, made, es, end, id, at, |shop.created|, now);
    RunKeepsInv(s, made, es, at);
    BookStays(s, made, es, id, at);
    CreatedGrows(s, made, es);
  }

  lemma {:induction false} SetJob(s: Settings, ran: Shop, t: int, id: Key, state: JobState, at: int, done: Shop)
    requires s.maxEntries >= 1 && Inv(s, ran, t) && DeliveredKnown(ran) && id in ran.book
    requires Enabled(ran, Set(id, state, at), t) && done == Apply(s, ran, Set(id, state, at)).0
    ensures Inv(s, done, at) && DeliveredKnown(done)
    ensures done.created == ran.created && done.delivered == ran.delivered
    ensures id in done.book && done.book[id] == ran.book[id].(state := state)
  {
    ApplyKeepsInv(s, ran, Set(id, state, at), t);
  }

  /** Once its work has set `state`, a job waits through any run of other jobs, sweeps, evictions and
      readers for the first read by its owner: within its TTL, and with fewer than `maxEntries` jobs
      created since it was, the owner finds that state, and anyone else is refused. */
  lemma {:induction false} FinishedIsFound(s: Settings, shop: Shop, t: int, id: Key, owner: string, sweptAt: int,
                                           at: int, made: Shop, running: seq<Event>, ran: Shop, state: JobState,
                                           setAt: int, done: Shop, waiting: seq<Event>, end: Shop, now: int)
    requires s.maxEntries >= 1 && Inv(s, shop, t) && DeliveredKnown(shop)
    requires Enabled(shop, CreateAt(id, owner, sweptAt, at), t)
    requires made == Apply(s, shop, CreateAt(id, owner, sweptAt, at)).0
    requires Possible(s, made, running, at) && ran == Run(s, made, running)
    requires Enabled(ran, Set(id, state, setAt), LastAt(running, at))
    requires done == Apply(s, ran, Set(id, state, setAt)).0
    requires Possible(s, done, waiting, setAt) && end == Run(s, done, waiting)
    requires (forall e | e in running :: !Sets(e, id)) && forall e | e in waiting :: !Sets(e, id)
    requires forall e | e in waiting :: !TakenBy(e, id, owner)
    requires LastAt(waiting, setAt) <= now <= at + s.ttlMs && CreatesIn(running) + CreatesIn(waiting) < s.maxEntries
    ensures Take(end.jobs, id, owner).1 == Found(state) && !Take(end.jobs, id, owner).0.Has(id)
    ensures forall who: string | who != owner :: Take(end.jobs, id, who) == (end.jobs, Forbidden)
  {
    LastAtLater(s, done, waiting, setAt);
    PendingIsFound(s, shop, t, id, owner, sweptAt, at, made, running, ran, setAt);
    assert ran.book[id] == JobRecord(owner, at, Pending);
    SetJob(s, ran, LastAt(running, at), id, state, setAt, done);
    StaysUndelivered(s, done, waiting, id, setAt);
    YoungIsFound(s, done, waiting, end, id, setAt, |shop.created|, now);
  }

  lemma {:induction false} LastAtLater(s: Settings, shop: Shop, es: seq<Event>, t: int)
    requires s.maxEntries >= 1 && Possible(s, shop, es, t)
    ensures t <= LastAt(es, t)
    decreases es
  {
    if es != [] {
      LastAtLater(s, Apply(s, shop, es[0]).0, es[1..], es[0].at);
    }
  }

  /** A job that is not in the store any more never comes back. */
  lemma {:induction false} GoneStaysGone(s: Settings, shop: Shop, es: seq<Event>, id: Key, t: int)
    requires s.maxEntries >= 1 && shop.jobs.Valid() && Possible(s, shop, es, t)
    requires id in shop.book && !shop.jobs.Has(id)
    ensures !Run(s, shop, es).jobs.Has(id)
    decreases es
  {
    if es != [] {
      StepKeepsGone(s, shop, es[0], id, t);
      GoneStaysGone(s, Apply(s, shop, es[0]).0, es[1..], id, es[0].at);
    }
  }

  lemma {:induction false} StepKeepsGone(s: Settings, shop: Shop, e: Event, id: Key, t: int)
    requires s.maxEntries >= 1 && shop.jobs.Valid() && Enabled(shop, e, t) && id in shop.book && !shop.jobs.Has(id)
    ensures var r := Apply(s, shop, e).0; r.jobs.Valid() && !r.jobs.Has(id) && id in r.book
  {
    match e
    case CreateAt(other, owner, sweptAt, at) => CreateValid(s, shop.jobs, other, owner, sweptAt, at);
    case Set(other, state, _) =>
      if shop.jobs.Has(other) {
        SetValid(shop.jobs, other, shop.jobs.vals[other].(state := state));
      }
    case TakeAt(other, _, _) => DeleteValid(shop.jobs, other);
    case Tick(at) => SweepFacts(shop.jobs, Stale(at - s.ttlMs));
  }

  lemma {:induction false} BookKeepsBirth(s: Settings, shop: Shop, es: seq<Event>, id: Key, t: int)
    requires s.maxEntries >= 1 && Possible(s, shop, es, t) && id in shop.book
    ensures id in Run(s, shop, es).book && Run(s, shop, es).book[id].createdAt == shop.book[id].createdAt
    decreases es
  {
    if es != [] {
      BookKeepsBirth(s, Apply(s, shop, es[0]).0, es[1..], id, es[0].at);
    }
  }

  lemma {:induction false} SweepEnds(s: Settings, ran: Shop, id: Key, tick: int, swept: Shop)
    requires s.maxEntries >= 1 && Kept(s, ran) && id in ran.book && ran.book[id].createdAt < tick - s.ttlMs
    requires swept == Apply(s, ran, Tick(tick)).0
    ensures swept.jobs.Valid() && !swept.jobs.Has(id) && id in swept.book
  {
    SweepFacts(ran.jobs, Stale(tick - s.ttlMs));
  }

  /** A sweep past the TTL of a job ends it for good, finished or not: nobody finds it afterwards. */
  lemma {:induction false} SweptIsGone(s: Settings, shop: Shop, t: int, id: Key, owner: string, sweptAt: int, at: int,
                                       es: seq<Event>, ran: Shop, tick: int, swept: Shop, later: seq<Event>,
                                       who: string)
    requires s.maxEntries >= 1 && Inv(s, shop, t) && DeliveredKnown(shop)
    requires Enabled(shop, CreateAt(id, owner, sweptAt, at), t)
    requires var made := Apply(s, shop, CreateAt(id, owner, sweptAt, at)).0;
             Possible(s, made, es, at) && ran == Run(s, made, es)
    requires LastAt(es, at) <= tick && at + s.ttlMs < tick
    requires swept == Apply(s, ran, Tick(tick)).0 && Possible(s, swept, later, tick)
    ensures Take(Run(s, swept, later).jobs, id, who).1 == NotFound
  {
    var made := Apply(s, shop, CreateAt(id, owner, sweptAt, at)).0;
    ApplyKeepsInv(s, shop, CreateAt(id, owner, sweptAt, at), t);
    RunKeepsInv(s, made, es, at);
    BookKeepsBirth(s, made, es, id, at);
    SweepEnds(s, ran, id, tick, swept);
    GoneStaysGone(s, swept, later, id, tick);
  }

  /** Every run from the empty store keeps at most `maxEntries` jobs, in creation order, and
      loses none that `Survives` promises. */
  lemma {:induction false} EveryRun(s: Settings, es: seq<Event>, t: int)
    requires s.maxEntries >= 1 && Possible(s, NEW_SHOP, es, t)
    ensures Inv(s, Run(s, NEW_SHOP, es), LastAt(es, t)) && DeliveredKnown(Run(s, NEW_SHOP, es))
  {
    RunKeepsInv(s, NEW_SHOP, es, t);
  }

  const NEW_SHOP := Shop(Empty(), [], map[], {})
}
