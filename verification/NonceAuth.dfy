/** The sign-in nonce store and the challenge/verify handlers of
    `backend/src/routes/auth.ts`. */
module NonceAuth {
  import opened BoundedMap
  import opened OrderedMap
  import opened Wrappers

  datatype NonceEntry = NonceEntry(address: string, expiresAt: int)

  type Nonces = OMap<NonceEntry>

  const NONCE_TTL_MS := 5 * 60 * 1000

  function ExpiredBefore(now: int): NonceEntry -> bool {
    (e: NonceEntry) => e.expiresAt < now
  }

  /** `put`: make room at the ceiling, then insert. */
  function Put(m: Nonces, maxEntries: nat, nonce: Key, entry: NonceEntry, now: int): Nonces
    requires maxEntries >= 1
  {
    (if m.Size() >= maxEntries then m.Sweep(ExpiredBefore(now)).Evict(maxEntries) else m).Set(nonce, entry)
  }

  /** `take`: a nonce is used up by being looked up, expired or not. */
  function Take(m: Nonces, nonce: Key, now: int): (Nonces, Option<NonceEntry>) {
    if !m.Has(nonce) then (m, None)
    else (m.Delete(nonce), if m.vals[nonce].expiresAt < now then None else Some(m.vals[nonce]))
  }

  class NonceStore {
    const maxEntries: nat
    var nonces: Nonces

    ghost predicate Valid()
      reads this
    {
      maxEntries >= 1 && nonces.Valid() && nonces.Size() <= maxEntries
    }

    constructor (maxEntries: nat)
      requires maxEntries >= 1
      ensures Valid() && nonces == Empty() && this.maxEntries == maxEntries
    {
      this.maxEntries := maxEntries;
      nonces := Empty();
    }

    method PutNonce(nonce: Key, entry: NonceEntry, now: int)
      requires Valid()
      modifies this`nonces
      ensures Valid()
      ensures nonces == Put(old(nonces), maxEntries, nonce, entry, now)
    {
      PutFacts(nonces, maxEntries, nonce, entry, now);
      if nonces.Size() >= maxEntries {
        SweepExpired(now);
        nonces := EvictLoop(nonces, maxEntries);
      }
      nonces := nonces.Set(nonce, entry);
    }

    method TakeNonce(nonce: Key, now: int) returns (entry: Option<NonceEntry>)
      requires Valid()
      modifies this`nonces
      ensures Valid()
      ensures (nonces, entry) == Take(old(nonces), nonce, now)
    {
      if !nonces.Has(nonce) {
        return None;
      }
      var found := nonces.vals[nonce];
      DeleteValid(nonces, nonce);
      nonces := nonces.Delete(nonce);
      if found.expiresAt < now {
        return None;
      }
      return Some(found);
    }

    method SweepExpired(now: int)
      requires Valid()
      modifies this`nonces
      ensures Valid()
      ensures nonces == old(nonces).Sweep(ExpiredBefore(now))
    {
      SweepFacts(nonces, ExpiredBefore(now));
      nonces := SweepLoop(nonces, ExpiredBefore(now));
    }
  }

  lemma {:induction false} PutFacts(m: Nonces, maxEntries: nat, nonce: Key, entry: NonceEntry, now: int)
    requires maxEntries >= 1 && m.Valid() && m.Size() <= maxEntries
    ensures var r := Put(m, maxEntries, nonce, entry, now);
            && r.Valid() && r.Size() <= maxEntries && r.Has(nonce) && r.vals[nonce] == entry
            && (forall k :: k in r.vals && k != nonce ==> k in m.vals && r.vals[k] == m.vals[k])
            && (m.Size() < maxEntries ==> forall k :: k in m.vals ==> k in r.vals)
  {
    MakeRoomFacts(m, ExpiredBefore(now), maxEntries);
    SetValid(m, nonce, entry);
    SetValid(m.Sweep(ExpiredBefore(now)).Evict(maxEntries), nonce, entry);
  }

  // ---- the store refines one that is never swept and never full ----------------------

  datatype Op = PutAt(nonce: Key, entry: NonceEntry, at: int) | TakeAt(nonce: Key, at: int) | SweepAt(at: int)

  predicate Timely(ops: seq<Op>, t: int)
    decreases ops
  {
    ops == [] || (t <= ops[0].at && Timely(ops[1..], ops[0].at))
  }

  function Step(m: Nonces, maxEntries: nat, op: Op): (Nonces, Option<NonceEntry>)
    requires maxEntries >= 1
  {
    match op
    case PutAt(nonce, entry, at) => (Put(m, maxEntries, nonce, entry, at), None)
    case TakeAt(nonce, at) => Take(m, nonce, at)
    case SweepAt(at) => (m.Sweep(ExpiredBefore(at)), None)
  }

  function Answers(m: Nonces, maxEntries: nat, ops: seq<Op>): seq<Option<NonceEntry>>
    requires maxEntries >= 1
    decreases ops
  {
    if ops == [] then []
    else [Step(m, maxEntries, ops[0]).1] + Answers(Step(m, maxEntries, ops[0]).0, maxEntries, ops[1..])
  }

  type Ledger = map<Key, NonceEntry>

  function FreeStep(u: Ledger, op: Op): (Ledger, Option<NonceEntry>) {
    match op
    case PutAt(nonce, entry, _) => (u[nonce := entry], None)
    case TakeAt(nonce, at) => (u - {nonce}, if nonce in u && u[nonce].expiresAt >= at then Some(u[nonce]) else None)
    case SweepAt(_) => (u, None)
  }

  function FreeAnswers(u: Ledger, ops: seq<Op>): seq<Option<NonceEntry>>
    decreases ops
  {
    if ops == [] then [] else [FreeStep(u, ops[0]).1] + FreeAnswers(FreeStep(u, ops[0]).0, ops[1..])
  }

  function LiveNonces(u: Ledger, now: int): set<Key> {
    set k | k in u && u[k].expiresAt >= now
  }

  /** Whenever a nonce is put, fewer than `maxEntries` nonces are live. */
  predicate Uncrowded(u: Ledger, maxEntries: nat, ops: seq<Op>)
    decreases ops
  {
    ops == [] ||
    ((ops[0].PutAt? ==> |LiveNonces(u, ops[0].at)| < maxEntries)
     && Uncrowded(FreeStep(u, ops[0]).0, maxEntries, ops[1..]))
  }

  ghost predicate Refines(m: Nonces, u: Ledger, now: int) {
    && (forall k :: k in m.vals ==> k in u && u[k] == m.vals[k])
    && (forall k :: k in u && u[k].expiresAt >= now ==> k in m.vals)
  }

  lemma {:induction false} PutRefines(m: Nonces, u: Ledger, maxEntries: nat, op: Op, t: int)
    requires maxEntries >= 1 && m.Valid() && m.Size() <= maxEntries && t <= op.at && Refines(m, u, t)
    requires op.PutAt? && |LiveNonces(u, op.at)| < maxEntries
    ensures Refines(Step(m, maxEntries, op).0, FreeStep(u, op).0, op.at)
  {
    PutFacts(m, maxEntries, op.nonce, op.entry, op.at);
    SameLive(m, u, op.at, t);
    PutKeepsLive(m, maxEntries, op.nonce, op.entry, op.at);
  }

  lemma {:induction false} SameLive(m: Nonces, u: Ledger, now: int, t: int)
    requires Refines(m, u, t) && t <= now
    ensures m.Unexpired(ExpiredBefore(now)) == LiveNonces(u, now)
  {}

  lemma {:induction false} PutKeepsLive(m: Nonces, maxEntries: nat, nonce: Key, entry: NonceEntry, now: int)
    requires maxEntries >= 1 && m.Valid() && |m.Unexpired(ExpiredBefore(now))| < maxEntries
    ensures forall k :: k in m.vals && m.vals[k].expiresAt >= now ==> k in Put(m, maxEntries, nonce, entry, now).vals
  {
    MakeRoomFacts(m, ExpiredBefore(now), maxEntries);
  }

  lemma {:induction false} StepRefines(m: Nonces, u: Ledger, maxEntries: nat, op: Op, t: int)
    requires maxEntries >= 1 && m.Valid() && m.Size() <= maxEntries && t <= op.at && Refines(m, u, t)
    requires op.PutAt? ==> |LiveNonces(u, op.at)| < maxEntries
    ensures Step(m, maxEntries, op).0.Valid() && Step(m, maxEntries, op).0.Size() <= maxEntries
    ensures Step(m, maxEntries, op).1 == FreeStep(u, op).1
    ensures Refines(Step(m, maxEntries, op).0, FreeStep(u, op).0, op.at)
  {
    match op
    case PutAt(nonce, entry, at) =>
      PutFacts(m, maxEntries, nonce, entry, at);
      PutRefines(m, u, maxEntries, op, t);
    case TakeAt(nonce, at) =>
      DeleteValid(m, nonce);
    case SweepAt(at) =>
      SweepFacts(m, ExpiredBefore(at));
  }

  /** While the live nonces stay below the cap, every `take` is answered as by the store that
      forgets nothing. */
  lemma {:induction false} AnswersRefine(m: Nonces, u: Ledger, maxEntries: nat, ops: seq<Op>, t: int)
    requires maxEntries >= 1 && m.Valid() && m.Size() <= maxEntries && Timely(ops, t)
    requires Refines(m, u, t) && Uncrowded(u, maxEntries, ops)
    ensures Answers(m, maxEntries, ops) == FreeAnswers(u, ops)
    decreases ops
  {
    if ops != [] {
      StepRefines(m, u, maxEntries, ops[0], t);
      AnswersRefine(Step(m, maxEntries, ops[0]).0, FreeStep(u, ops[0]).0, maxEntries, ops[1..], ops[0].at);
    }
  }

  // ---- the handlers: a JWT for every nonce signed, and no second one --------------------

  /** A verification whose nonce is taken and whose signature is being checked. */
  datatype Pending = Pending(nonce: Key, address: string, takenAt: int)

  /** `issued` remembers every challenge, `jwts` every session; neither is in the program. */
  datatype Auth = Auth(store: Nonces, pending: map<nat, Pending>, issued: map<Key, NonceEntry>, jwts: seq<Pending>)

  /** The handlers cut at their awaits.  `putAt` is the store's own reading of the clock. */
  datatype Event =
    | Challenge(address: string, nonce: Key, at: int, putAt: int)
    | Verify(request: nat, address: string, nonce: Key, at: int)
    | SignatureChecked(request: nat, good: bool)
    | Tick(at: int)

  /** Fresh random nonces, fresh request numbers, and only running checks finish. */
  predicate Enabled(s: Auth, e: Event) {
    match e
    case Challenge(_, nonce, _, _) => nonce !in s.issued
    case Verify(request, _, _, _) => request !in s.pending
    case SignatureChecked(request, _) => request in s.pending
    case Tick(_) => true
  }

  function Apply(s: Auth, maxEntries: nat, e: Event): Auth
    requires maxEntries >= 1 && Enabled(s, e)
  {
    match e
    case Challenge(address, nonce, at, putAt) =>
      var entry := NonceEntry(address, at + NONCE_TTL_MS);
      s.(store := Put(s.store, maxEntries, nonce, entry, putAt), issued := s.issued[nonce := entry])
    case Verify(request, address, nonce, at) =>
      var (store, entry) := Take(s.store, nonce, at);
      if entry.Some? && entry.value.address == address
      then s.(store := store, pending := s.pending[request := Pending(nonce, address, at)])
      else s.(store := store)
    case SignatureChecked(request, good) =>
      s.(pending := s.pending - {request}, jwts := if good then s.jwts + [s.pending[request]] else s.jwts)
    case Tick(at) =>
      s.(store := s.store.Sweep(ExpiredBefore(at)))
  }

  /** A nonce was issued to this address and had not expired when it was taken. */
  ghost predicate Entitled(s: Auth, p: Pending) {
    p.nonce in s.issued && s.issued[p.nonce].address == p.address && p.takenAt <= s.issued[p.nonce].expiresAt
  }

  ghost function NoncesOf(ps: seq<Pending>): set<Key> {
    if ps == [] then {} else NoncesOf(ps[..|ps| - 1]) + {ps[|ps| - 1].nonce}
  }

  ghost predicate AllDistinct(ps: seq<Pending>) {
    ps == [] || (ps[|ps| - 1].nonce !in NoncesOf(ps[..|ps| - 1]) && AllDistinct(ps[..|ps| - 1]))
  }

  ghost predicate AuthInv(s: Auth, maxEntries: nat) {
    && s.store.Valid() && s.store.Size() <= maxEntries
    && (forall k :: k in s.store.vals ==> k in s.issued && s.issued[k] == s.store.vals[k])
    && (forall r :: r in s.pending ==> Entitled(s, s.pending[r]) && s.pending[r].nonce !in s.store.vals)
    && (forall q, r :: q in s.pending && r in s.pending && q != r ==> s.pending[q].nonce != s.pending[r].nonce)
    && (forall p :: p in s.jwts ==> Entitled(s, p))
    && (forall n :: n in NoncesOf(s.jwts) ==> n in s.issued && n !in s.store.vals)
    && (forall r :: r in s.pending ==> s.pending[r].nonce !in NoncesOf(s.jwts))
    && AllDistinct(s.jwts)
  }

  lemma {:induction false} ChallengeKeepsInv(s: Auth, maxEntries: nat, e: Event)
    requires maxEntries >= 1 && Enabled(s, e) && AuthInv(s, maxEntries) && e.Challenge?
    ensures AuthInv(Apply(s, maxEntries, e), maxEntries)
  {
    PutFacts(s.store, maxEntries, e.nonce, NonceEntry(e.address, e.at + NONCE_TTL_MS), e.putAt);
    var s' := Apply(s, maxEntries, e);
    forall p | Entitled(s, p) ensures Entitled(s', p) {}
  }

  lemma {:induction false} VerifyKeepsInv(s: Auth, maxEntries: nat, e: Event)
    requires maxEntries >= 1 && Enabled(s, e) && AuthInv(s, maxEntries) && e.Verify?
    ensures AuthInv(Apply(s, maxEntries, e), maxEntries)
  {
    DeleteValid(s.store, e.nonce);
    var s' := Apply(s, maxEntries, e);
    forall p | Entitled(s, p) ensures Entitled(s', p) {}
  }

  lemma {:induction false} CheckedKeepsInv(s: Auth, maxEntries: nat, e: Event)
    requires maxEntries >= 1 && Enabled(s, e) && AuthInv(s, maxEntries) && e.SignatureChecked?
    ensures AuthInv(Apply(s, maxEntries, e), maxEntries)
  {
    var s' := Apply(s, maxEntries, e);
    forall p | Entitled(s, p) ensures Entitled(s', p) {}
    var jwts := s.jwts + [s.pending[e.request]];
    assert jwts[..|s.jwts|] == s.jwts;
  }

  lemma {:induction false} ApplyKeepsInv(s: Auth, maxEntries: nat, e: Event)
    requires maxEntries >= 1 && Enabled(s, e) && AuthInv(s, maxEntries)
    ensures AuthInv(Apply(s, maxEntries, e), maxEntries)
  {
    match e
    case Challenge(_, _, _, _) => ChallengeKeepsInv(s, maxEntries, e);
    case Verify(_, _, _, _) => VerifyKeepsInv(s, maxEntries, e);
    case SignatureChecked(_, _) => CheckedKeepsInv(s, maxEntries, e);
    case Tick(at) =>
      SweepFacts(s.store, ExpiredBefore(at));
      var s' := Apply(s, maxEntries, e);
      forall p | Entitled(s, p) ensures Entitled(s', p) {}
  }

  predicate Possible(s: Auth, maxEntries: nat, es: seq<Event>)
    requires maxEntries >= 1
    decreases es
  {
    es == [] || (Enabled(s, es[0]) && Possible(Apply(s, maxEntries, es[0]), maxEntries, es[1..]))
  }

  function Run(s: Auth, maxEntries: nat, es: seq<Event>): Auth
    requires maxEntries >= 1 && Possible(s, maxEntries, es)
    decreases es
  {
    if es == [] then s else Run(Apply(s, maxEntries, es[0]), maxEntries, es[1..])
  }

  lemma {:induction false} RunKeepsInv(s: Auth, maxEntries: nat, es: seq<Event>)
    requires maxEntries >= 1 && Possible(s, maxEntries, es) && AuthInv(s, maxEntries)
    ensures AuthInv(Run(s, maxEntries, es), maxEntries)
    decreases es
  {
    if es != [] {
      ApplyKeepsInv(s, maxEntries, es[0]);
      RunKeepsInv(Apply(s, maxEntries, es[0]), maxEntries, es[1..]);
    }
  }

  lemma {:induction false} DistinctAtIndices(ps: seq<Pending>, i: nat, j: nat)
    requires AllDistinct(ps) && i < j < |ps|
    ensures ps[i].nonce != ps[j].nonce
  {
    var n := |ps| - 1;
    if j < n { DistinctAtIndices(ps[..n], i, j); } else { NonceAt(ps[..n], i); }
  }

  lemma {:induction false} NonceAt(ps: seq<Pending>, i: nat)
    requires i < |ps|
    ensures ps[i].nonce in NoncesOf(ps)
  {
    if i < |ps| - 1 { NonceAt(ps[..|ps| - 1], i); }
  }

  /** Every JWT of every run used up a nonce that was issued to its address and had not
      expired, and no two JWTs used the same one. */
  lemma {:induction false} EveryJwtHasItsNonce(maxEntries: nat, es: seq<Event>, i: nat, j: nat)
    requires maxEntries >= 1 && Possible(Auth(Empty(), map[], map[], []), maxEntries, es)
    requires var s := Run(Auth(Empty(), map[], map[], []), maxEntries, es); i < |s.jwts| && j < |s.jwts|
    ensures var s := Run(Auth(Empty(), map[], map[], []), maxEntries, es);
            Entitled(s, s.jwts[i]) && (i != j ==> s.jwts[i].nonce != s.jwts[j].nonce)
  {
    var s0 := Auth(Empty(), map[], map[], []);
    RunKeepsInv(s0, maxEntries, es);
    var s := Run(s0, maxEntries, es);
    if i < j { DistinctAtIndices(s.jwts, i, j); }
    if j < i { DistinctAtIndices(s.jwts, j, i); }
  }

  // ---- the same in terms of the events alone ---------------------------------------------

  const START := Auth(Empty(), map[], map[], [])

  predicate Touches(e: Event, request: nat) {
    (e.Verify? || e.SignatureChecked?) && e.request == request
  }

  /** The address asked for this nonce, at most five minutes before `at`. */
  predicate Asked(e: Event, address: string, nonce: Key, at: int) {
    e.Challenge? && e.address == address && e.nonce == nonce && at <= e.at + 5 * 60 * 1000
  }

  /** The last event of `request` is the verification that became `p`, and the challenge it answers
      came before it. */
  ghost predicate TakenIn(es: seq<Event>, request: nat, p: Pending) {
    exists c, j ::
      && 0 <= c < j < |es|
      && Asked(es[c], p.address, p.nonce, p.takenAt)
      && es[j] == Verify(request, p.address, p.nonce, p.takenAt)
      && forall k | j < k < |es| :: !Touches(es[k], request)
  }

  /** A good signature was found for the verification that became `p`. */
  ghost predicate SignedIn(es: seq<Event>, p: Pending) {
    exists k | 0 <= k < |es| :: es[k].SignatureChecked? && es[k].good && TakenIn(es[..k], es[k].request, p)
  }

  ghost predicate IssuedIn(es: seq<Event>, nonce: Key, entry: NonceEntry) {
    exists c :: 0 <= c < |es| && es[c].Challenge? && es[c].nonce == nonce
                && entry == NonceEntry(es[c].address, es[c].at + NONCE_TTL_MS)
  }

  ghost predicate Remembered(es: seq<Event>, s: Auth, c: nat)
    requires c < |es|
  {
    es[c].Challenge? ==>
      es[c].nonce in s.issued && s.issued[es[c].nonce] == NonceEntry(es[c].address, es[c].at + NONCE_TTL_MS)
  }

  /** `s` is what the events `es` say. */
  ghost predicate Told(es: seq<Event>, s: Auth) {
    && (forall n | n in s.issued :: IssuedIn(es, n, s.issued[n]))
    && (forall r | r in s.pending :: TakenIn(es, r, s.pending[r]))
    && (forall p | p in s.jwts :: SignedIn(es, p))
    && (forall c: nat | c < |es| :: Remembered(es, s, c))
  }

  lemma {:induction false} IssuedStays(es: seq<Event>, e: Event, nonce: Key, entry: NonceEntry)
    requires IssuedIn(es, nonce, entry)
    ensures IssuedIn(es + [e], nonce, entry)
  {
    var c :| 0 <= c < |es| && es[c].Challenge? && es[c].nonce == nonce
             && entry == NonceEntry(es[c].address, es[c].at + NONCE_TTL_MS);
    assert (es + [e])[c] == es[c];
  }

  lemma {:induction false} TakenStays(es: seq<Event>, e: Event, request: nat, p: Pending)
    requires TakenIn(es, request, p) && !Touches(e, request)
    ensures TakenIn(es + [e], request, p)
  {
    var c, j :| 0 <= c < j < |es| && Asked(es[c], p.address, p.nonce, p.takenAt)
                && es[j] == Verify(request, p.address, p.nonce, p.takenAt)
                && forall k | j < k < |es| :: !Touches(es[k], request);
    var more := es + [e];
    assert more[c] == es[c] && more[j] == es[j];
    assert forall k | j < k < |more| :: !Touches(more[k], request);
  }

  lemma {:induction false} SignedStays(es: seq<Event>, e: Event, p: Pending)
    requires SignedIn(es, p)
    ensures SignedIn(es + [e], p)
  {
    var k :| 0 <= k < |es| && es[k].SignatureChecked? && es[k].good && TakenIn(es[..k], es[k].request, p);
    assert (es + [e])[k] == es[k] && (es + [e])[..k] == es[..k];
  }

  lemma {:induction false} VerifyIsTold(es: seq<Event>, s: Auth, maxEntries: nat, e: Event)
    requires maxEntries >= 1 && Enabled(s, e) && AuthInv(s, maxEntries) && Told(es, s) && e.Verify?
    requires e.request in Apply(s, maxEntries, e).pending
    ensures TakenIn(es + [e], e.request, Apply(s, maxEntries, e).pending[e.request])
  {
    var entry := s.store.vals[e.nonce];
    assert IssuedIn(es, e.nonce, entry);
    var c :| 0 <= c < |es| && es[c].Challenge? && es[c].nonce == e.nonce
             && entry == NonceEntry(es[c].address, es[c].at + NONCE_TTL_MS);
    var more := es + [e];
    assert more[c] == es[c] && more[|es|] == e;
    assert Asked(more[c], e.address, e.nonce, e.at);
  }

  lemma {:induction false} IssuedIsTold(es: seq<Event>, s: Auth, maxEntries: nat, e: Event)
    requires maxEntries >= 1 && Enabled(s, e) && Told(es, s)
    ensures var s' := Apply(s, maxEntries, e);
            && (forall n | n in s'.issued :: IssuedIn(es + [e], n, s'.issued[n]))
            && (forall c: nat | c < |es + [e]| :: Remembered(es + [e], s', c))
  {
    var s', more := Apply(s, maxEntries, e), es + [e];
    assert more[|es|] == e;
    forall n | n in s'.issued ensures IssuedIn(more, n, s'.issued[n]) {
      if n in s.issued && s'.issued[n] == s.issued[n] {
        IssuedStays(es, e, n, s.issued[n]);
      }
    }
    forall c: nat | c < |more| ensures Remembered(more, s', c) {
      if c < |es| {
        assert more[c] == es[c] && Remembered(es, s, c);
      }
    }
  }

  lemma {:induction false} PendingIsTold(es: seq<Event>, s: Auth, maxEntries: nat, e: Event, r: nat)
    requires maxEntries >= 1 && Enabled(s, e) && AuthInv(s, maxEntries) && Told(es, s)
    requires r in Apply(s, maxEntries, e).pending
    ensures TakenIn(es + [e], r, Apply(s, maxEntries, e).pending[r])
  {
    if e.Verify? && r == e.request {
      VerifyIsTold(es, s, maxEntries, e);
    } else {
      TakenStays(es, e, r, s.pending[r]);
    }
  }

  lemma {:induction false} JwtIsTold(es: seq<Event>, s: Auth, maxEntries: nat, e: Event, p: Pending)
    requires maxEntries >= 1 && Enabled(s, e) && Told(es, s) && p in Apply(s, maxEntries, e).jwts
    ensures SignedIn(es + [e], p)
  {
    if p in s.jwts {
      SignedStays(es, e, p);
    } else {
      assert (es + [e])[|es|] == e && (es + [e])[..|es|] == es;
      assert TakenIn(es, e.request, s.pending[e.request]);
    }
  }

  lemma {:induction false} StepIsTold(es: seq<Event>, s: Auth, maxEntries: nat, e: Event, s': Auth)
    requires maxEntries >= 1 && Enabled(s, e) && AuthInv(s, maxEntries) && Told(es, s) && s' == Apply(s, maxEntries, e)
    ensures Told(es + [e], s')
  {
    IssuedIsTold(es, s, maxEntries, e);
    forall r | r in s'.pending ensures TakenIn(es + [e], r, s'.pending[r]) {
      PendingIsTold(es, s, maxEntries, e, r);
    }
    forall p | p in s'.jwts ensures SignedIn(es + [e], p) {
      JwtIsTold(es, s, maxEntries, e, p);
    }
  }

  lemma {:induction false} RunIsTold(past: seq<Event>, s: Auth, maxEntries: nat, es: seq<Event>)
    requires maxEntries >= 1 && Possible(s, maxEntries, es) && AuthInv(s, maxEntries) && Told(past, s)
    ensures Told(past + es, Run(s, maxEntries, es)) && AuthInv(Run(s, maxEntries, es), maxEntries)
    decreases es
  {
    if es == [] {
      assert past + es == past;
    } else {
      StepIsTold(past, s, maxEntries, es[0], Apply(s, maxEntries, es[0]));
      ApplyKeepsInv(s, maxEntries, es[0]);
      RunIsTold(past + [es[0]], Apply(s, maxEntries, es[0]), maxEntries, es[1..]);
      assert past + es == past + [es[0]] + es[1..];
    }
  }

  /** Every JWT of every run comes from a challenge for its address, a verification by that address
      with the nonce of the challenge within five minutes, and a good signature for that very
      verification. */
  lemma {:induction false} EveryJwtIsSigned(maxEntries: nat, es: seq<Event>, i: nat)
    requires maxEntries >= 1 && Possible(START, maxEntries, es) && i < |Run(START, maxEntries, es).jwts|
    ensures SignedIn(es, Run(START, maxEntries, es).jwts[i])
  {
    RunIsTold([], START, maxEntries, es);
    assert [] + es == es;
  }

  lemma {:induction false} PendingStays(s: Auth, maxEntries: nat, es: seq<Event>, request: nat)
    requires maxEntries >= 1 && Possible(s, maxEntries, es) && request in s.pending
    requires forall e | e in es :: !Touches(e, request)
    ensures request in Run(s, maxEntries, es).pending
    ensures Run(s, maxEntries, es).pending[request] == s.pending[request]
    decreases es
  {
    if es != [] {
      assert es[0] in es;
      PendingStays(Apply(s, maxEntries, es[0]), maxEntries, es[1..], request);
    }
  }

  /** A nonce still stored was issued by its challenge, and is good for five minutes. */
  lemma {:induction false} StoredIsIssued(maxEntries: nat, es: seq<Event>, c: nat, s: Auth)
    requires maxEntries >= 1 && Possible(START, maxEntries, es) && s == Run(START, maxEntries, es)
    requires c < |es| && es[c].Challenge? && es[c].nonce in s.store.vals
    ensures AuthInv(s, maxEntries)
    ensures s.store.vals[es[c].nonce] == NonceEntry(es[c].address, es[c].at + 5 * 60 * 1000)
  {
    RunIsTold([], START, maxEntries, es);
    assert [] + es == es;
    assert Remembered(es, s, c);
  }

  /** Nobody else uses up a nonce that is being checked. */
  lemma {:induction false} CheckedGivesOne(s: Auth, maxEntries: nat, request: nat, p: Pending, between: seq<Event>,
                                         waiting: Auth, good: bool)
    requires maxEntries >= 1 && AuthInv(s, maxEntries) && request in s.pending && s.pending[request] == p
    requires Possible(s, maxEntries, between) && waiting == Run(s, maxEntries, between)
    requires forall e | e in between :: !Touches(e, request)
    ensures Enabled(waiting, SignatureChecked(request, good))
    ensures Apply(waiting, maxEntries, SignatureChecked(request, good)).jwts
         == waiting.jwts + if good then [p] else []
    ensures forall i | 0 <= i < |waiting.jwts| :: waiting.jwts[i].nonce != p.nonce
  {
    RunKeepsInv(s, maxEntries, between);
    PendingStays(s, maxEntries, between, request);
    forall i | 0 <= i < |waiting.jwts| ensures waiting.jwts[i].nonce != p.nonce {
      NonceAt(waiting.jwts, i);
      assert waiting.pending[request] == p;
    }
  }

  /** And a nonce still stored signs its address in: verified by the address it was issued to within
      five minutes, and then found well signed, whatever happens between, it gives exactly one JWT,
      for that address; a bad signature gives none. */
  lemma {:induction false} SignInSucceeds(maxEntries: nat, es: seq<Event>, c: nat, s: Auth, request: nat, now: int,
                                        between: seq<Event>, waiting: Auth, good: bool)
    requires maxEntries >= 1 && Possible(START, maxEntries, es) && s == Run(START, maxEntries, es)
    requires c < |es| && es[c].Challenge? && es[c].nonce in s.store.vals && now <= es[c].at + 5 * 60 * 1000
    requires request !in s.pending
    requires var taken := Apply(s, maxEntries, Verify(request, es[c].address, es[c].nonce, now));
             Possible(taken, maxEntries, between) && waiting == Run(taken, maxEntries, between)
    requires forall e | e in between :: !Touches(e, request)
    ensures Enabled(waiting, SignatureChecked(request, good))
    ensures Apply(waiting, maxEntries, SignatureChecked(request, good)).jwts
         == waiting.jwts + if good then [Pending(es[c].nonce, es[c].address, now)] else []
    ensures forall i | 0 <= i < |waiting.jwts| :: waiting.jwts[i].nonce != es[c].nonce
  {
    StoredIsIssued(maxEntries, es, c, s);
    var e := Verify(request, es[c].address, es[c].nonce, now);
    ApplyKeepsInv(s, maxEntries, e);
    CheckedGivesOne(Apply(s, maxEntries, e), maxEntries, request, Pending(e.nonce, e.address, now), between, waiting,
                    good);
  }

  /** A verification by another address uses the nonce up, and gives nothing. */
  lemma {:induction false} ForeignVerifyGivesNothing(maxEntries: nat, es: seq<Event>, c: nat, s: Auth, request: nat,
                                                   address: string, now: int)
    requires maxEntries >= 1 && Possible(START, maxEntries, es) && s == Run(START, maxEntries, es)
    requires c < |es| && es[c].Challenge? && es[c].nonce in s.store.vals && address != es[c].address
    requires request !in s.pending
    ensures var s' := Apply(s, maxEntries, Verify(request, address, es[c].nonce, now));
            s'.pending == s.pending && s'.jwts == s.jwts && !s'.store.Has(es[c].nonce)
  {
    StoredIsIssued(maxEntries, es, c, s);
  }

  // ---- a nonce waits for its signature ------------------------------------------------------

  /** How many keys stand behind the last `x`. */
  function Behind(s: seq<Key>, x: Key): nat {
    if s == [] || s[|s| - 1] == x then 0 else 1 + Behind(s[..|s| - 1], x)
  }

  lemma {:induction false} BehindSelect(s: seq<Key>, keep: set<Key>, x: Key)
    requires x in keep
    ensures Behind(Select(s, keep), x) <= Behind(s, x)
  {
    if s != [] {
      var n := |s| - 1;
      BehindSelect(s[..n], keep, x);
      var more := Select(s[..n], keep) + [s[n]];
      assert more[..|more| - 1] == Select(s[..n], keep);
    }
  }

  lemma {:induction false} BehindSuffix(s: seq<Key>, n: nat, x: Key)
    requires n <= |s| && x in s && Behind(s, x) < |s| - n
    ensures x in s[n..] && Behind(s[n..], x) == Behind(s, x)
  {
    var last := |s| - 1;
    if s[last] == x {
      assert s[n..][last - n] == x;
    } else {
      assert s == s[..last] + [s[last]];
      BehindSuffix(s[..last], n, x);
      assert s[n..] == s[..last][n..] + [s[last]];
    }
  }

  lemma BehindSnoc(s: seq<Key>, y: Key, x: Key)
    ensures Behind(s + [y], x) == if y == x then 0 else 1 + Behind(s, x)
  {
    assert (s + [y])[..|s|] == s;
  }

  /** The nonce is stored, with at most `n` younger ones behind it. */
  predicate Waits(m: Nonces, nonce: Key, entry: NonceEntry, n: nat) {
    nonce in m.vals && m.vals[nonce] == entry && Behind(m.keys, nonce) <= n
  }

  lemma {:induction false} RestrictWaits(m: Nonces, keep: set<Key>, nonce: Key, entry: NonceEntry, n: nat)
    requires m.Valid() && Waits(m, nonce, entry, n) && nonce in keep
    ensures m.Restrict(keep).Valid() && Waits(m.Restrict(keep), nonce, entry, n)
  {
    RestrictValid(m, keep);
    BehindSelect(m.keys, keep, nonce);
  }

  lemma {:induction false} EvictWaits(m: Nonces, maxEntries: nat, nonce: Key, entry: NonceEntry, n: nat)
    requires maxEntries >= 1 && m.Valid() && Waits(m, nonce, entry, n) && n + 1 < maxEntries
    ensures Waits(m.Evict(maxEntries), nonce, entry, n)
  {
    assert m.Listed(nonce);
    if m.Size() >= maxEntries {
      BehindSuffix(m.keys, m.Size() - maxEntries + 1, nonce);
    }
  }

  lemma {:induction false} PutWaits(m: Nonces, maxEntries: nat, other: Key, added: NonceEntry, now: int, nonce: Key,
                                  entry: NonceEntry, n: nat)
    requires maxEntries >= 1 && m.Valid() && Waits(m, nonce, entry, n) && n + 1 < maxEntries
    requires other != nonce && now <= entry.expiresAt
    ensures Waits(Put(m, maxEntries, other, added, now), nonce, entry, n + 1)
  {
    var swept := m.Sweep(ExpiredBefore(now));
    RestrictWaits(m, m.Unexpired(ExpiredBefore(now)), nonce, entry, n);
    EvictWaits(swept, maxEntries, nonce, entry, n);
    var room := if m.Size() >= maxEntries then swept.Evict(maxEntries) else m;
    BehindSnoc(room.keys, other, nonce);
  }

  /** The event neither looks the nonce up nor runs a sweep after the instant. */
  predicate Spares(e: Event, nonce: Key, until: int) {
    match e
    case Challenge(_, other, _, putAt) => other != nonce && putAt <= until
    case Verify(_, _, other, _) => other != nonce
    case SignatureChecked(_, _) => true
    case Tick(at) => at <= until
  }

  function ChallengesIn(es: seq<Event>): nat
    decreases es
  {
    if es == [] then 0 else (if es[0].Challenge? then 1 else 0) + ChallengesIn(es[1..])
  }

  lemma {:induction false} StepWaits(s: Auth, maxEntries: nat, e: Event, nonce: Key, entry: NonceEntry, n: nat)
    requires maxEntries >= 1 && Enabled(s, e) && AuthInv(s, maxEntries) && Waits(s.store, nonce, entry, n)
    requires Spares(e, nonce, entry.expiresAt) && n + (if e.Challenge? then 1 else 0) < maxEntries
    ensures Waits(Apply(s, maxEntries, e).store, nonce, entry, n + if e.Challenge? then 1 else 0)
  {
    match e
    case Challenge(address, other, at, putAt) =>
      PutWaits(s.store, maxEntries, other, NonceEntry(address, at + NONCE_TTL_MS), putAt, nonce, entry, n);
    case Verify(_, _, other, _) =>
      var keep := set x | x in s.store.vals && x != other;
      RestrictWaits(s.store, keep, nonce, entry, n);
    case SignatureChecked(_, _) =>
    case Tick(at) => RestrictWaits(s.store, s.store.Unexpired(ExpiredBefore(at)), nonce, entry, n);
  }

  lemma {:induction false} RunWaits(s: Auth, maxEntries: nat, es: seq<Event>, nonce: Key, entry: NonceEntry, n: nat)
    requires maxEntries >= 1 && Possible(s, maxEntries, es) && AuthInv(s, maxEntries)
    requires Waits(s.store, nonce, entry, n) && n + ChallengesIn(es) < maxEntries
    requires forall e | e in es :: Spares(e, nonce, entry.expiresAt)
    ensures Waits(Run(s, maxEntries, es).store, nonce, entry, n + ChallengesIn(es))
    decreases es
  {
    if es != [] {
      assert es[0] in es;
      StepWaits(s, maxEntries, es[0], nonce, entry, n);
      ApplyKeepsInv(s, maxEntries, es[0]);
      RunWaits(Apply(s, maxEntries, es[0]), maxEntries, es[1..], nonce, entry,
               n + if es[0].Challenge? then 1 else 0);
    }
  }

  /** Sign-in works, from the challenge on: in any run a nonce issued at `at` is still stored after any
      further events that do not look it up, if they sweep no later than five minutes after `at` and
      issue fewer than `maxEntries` others. */
  lemma {:induction false} ChallengeWaits(maxEntries: nat, before: seq<Event>, address: string, nonce: Key, at: int,
                                        putAt: int, issued: Auth, es: seq<Event>)
    requires maxEntries >= 1 && Possible(START, maxEntries, before)
    requires var s := Run(START, maxEntries, before);
             && Enabled(s, Challenge(address, nonce, at, putAt))
             && issued == Apply(s, maxEntries, Challenge(address, nonce, at, putAt))
    requires Possible(issued, maxEntries, es) && ChallengesIn(es) < maxEntries
    requires forall e | e in es :: Spares(e, nonce, at + 5 * 60 * 1000)
    ensures var store := Run(issued, maxEntries, es).store;
            nonce in store.vals && store.vals[nonce] == NonceEntry(address, at + 5 * 60 * 1000)
  {
    RunKeepsInv(START, maxEntries, before);
    var s, e := Run(START, maxEntries, before), Challenge(address, nonce, at, putAt);
    ApplyKeepsInv(s, maxEntries, e);
    var room := if s.store.Size() >= maxEntries then s.store.Sweep(ExpiredBefore(putAt)).Evict(maxEntries) else s.store;
    MakeRoomFacts(s.store, ExpiredBefore(putAt), maxEntries);
    BehindSnoc(room.keys, nonce, nonce);
    RunWaits(issued, maxEntries, es, nonce, NonceEntry(address, at + NONCE_TTL_MS), 0);
  }

  /** A sweep leaves no expired nonce, and each that is not. */
  lemma TickClears(s: Auth, maxEntries: nat, at: int, nonce: Key)
    requires maxEntries >= 1
    ensures var store := Apply(s, maxEntries, Tick(at)).store;
            && (nonce in store.vals <==> nonce in s.store.vals && at <= s.store.vals[nonce].expiresAt)
            && (nonce in store.vals ==> store.vals[nonce] == s.store.vals[nonce])
  {
  }
}
