/** The check / count / await / record protocol of `backend/src/routes/copilot.ts` with the
    recording wrapper of `backend/src/lib/copilot-client.ts`, under any interleaving of
    requests.  The caption route follows the same protocol with its own capability. */
module QuotaProtocol {
  import opened QuotaStore
  import opened GeminiQuota
  import opened Wrappers

  /** The gate of a request, up to its first await: check, then count the attempt.  The two
      steps read the clock one after the other. */
  method Gate(store: Store, c: Capability, limits: Limits, scope: string, checkedAt: int, countedAt: int)
    returns (r: BudgetResult)
    modifies store
    ensures r == CheckBudget(old(store.Contents()), c, limits, scope, checkedAt)
    ensures store.Contents()
         == if r.Ok? then WithUsage(old(store.Contents()), c, scope, countedAt) else old(store.Contents())
  {
    r := CheckBudget(store.Contents(), c, limits, scope, checkedAt);
    if r.Ok? {
      store.RecordGeminiUsage(c, scope, countedAt);
    }
  }

  /** An admitted call whose model request has not settled. */
  datatype Call = Call(capability: Capability, scope: string)

  datatype Outcome = Success(headers: RateHeaders) | RateLimited(headers: RateHeaders) | OtherError

  datatype State = State(tables: Tables, calls: map<nat, Call>, clock: int)

  datatype Event =
    | Request(id: nat, c: Capability, scope: string, checkedAt: int, countedAt: int)
    | Timeout(id: nat)
    | Settle(id: nat, outcome: Outcome, at: int)

  /** Addresses are never the word "global"; the clock never runs backwards. */
  predicate Enabled(s: State, e: Event) {
    match e
    case Request(id, _, scope, checkedAt, countedAt) =>
      id !in s.calls && scope != GLOBAL_SCOPE && scope != "" && s.clock <= checkedAt <= countedAt
    case Timeout(id) => id in s.calls
    case Settle(id, _, at) => id in s.calls && s.clock <= at
  }

  function Apply(s: State, limits: Limits, e: Event): State
    requires Enabled(s, e)
  {
    match e
    case Request(id, c, scope, checkedAt, countedAt) =>
      if CheckBudget(s.tables, c, limits, scope, checkedAt).Ok?
      then State(WithUsage(s.tables, c, scope, countedAt), s.calls[id := Call(c, scope)], countedAt)
      else s.(clock := countedAt)
    // The request is answered; its call stays unsettled, and is recorded when it settles.
    case Timeout(_) => s
    case Settle(id, outcome, at) =>
      var c := s.calls[id].capability;
      var tables := match outcome
        case Success(h) => AfterSuccess(s.tables, c, "", at, h)
        case RateLimited(h) => AfterRateLimited(s.tables, c, at, h)
        case OtherError => s.tables;
      State(tables, s.calls - {id}, at)
  }

  // ---- sums over rows --------------------------------------------------------------------

  ghost function Sum(daily: map<Bucket, nat>, rows: set<Bucket>): nat
    requires rows <= daily.Keys
  {
    if rows == {} then 0 else var b :| b in rows; daily[b] + Sum(daily, rows - {b})
  }

  lemma {:induction false} SumPick(daily: map<Bucket, nat>, rows: set<Bucket>, b: Bucket)
    requires rows <= daily.Keys && b in rows
    ensures Sum(daily, rows) == daily[b] + Sum(daily, rows - {b})
    decreases rows
  {
    var x :| x in rows && Sum(daily, rows) == daily[x] + Sum(daily, rows - {x});
    if x != b {
      SumPick(daily, rows - {x}, b);
      SumPick(daily, rows - {b}, x);
      assert rows - {x} - {b} == rows - {b} - {x};
    }
  }

  lemma {:induction false} SumSame(x: map<Bucket, nat>, y: map<Bucket, nat>, rows: set<Bucket>)
    requires rows <= x.Keys && rows <= y.Keys && forall b :: b in rows ==> x[b] == y[b]
    ensures Sum(x, rows) == Sum(y, rows)
    decreases rows
  {
    if rows != {} {
      var b :| b in rows;
      SumPick(x, rows, b);
      SumPick(y, rows, b);
      SumSame(x, y, rows - {b});
    }
  }

  /** The rows of the operator-wide count, and those of the addresses. */
  ghost function Rows(daily: map<Bucket, nat>, c: Capability, global: bool): set<Bucket> {
    set b | b in daily && b.capability == c && (b.scope == GLOBAL_SCOPE) == global
  }

  ghost function Total(daily: map<Bucket, nat>, c: Capability, global: bool): nat {
    Sum(daily, Rows(daily, c, global))
  }

  lemma {:induction false} TotalStep(daily: map<Bucket, nat>, b: Bucket, c: Capability, global: bool)
    ensures Total(daily[b := CountIn(daily, b) + 1], c, global)
         == Total(daily, c, global) + if b.capability == c && (b.scope == GLOBAL_SCOPE) == global then 1 else 0
  {
    var next := daily[b := CountIn(daily, b) + 1];
    var rows, rows' := Rows(daily, c, global), Rows(next, c, global);
    if b in rows' {
      assert rows' - {b} == rows - {b};
      SumPick(next, rows', b);
      if b in rows { SumPick(daily, rows, b); } else { assert rows - {b} == rows; }
      SumSame(daily, next, rows - {b});
    } else {
      assert rows' == rows;
      SumSame(daily, next, rows);
    }
  }

  // ---- the bounds --------------------------------------------------------------------------

  ghost function Unsettled(calls: map<nat, Call>, c: Capability): set<nat> {
    set id | id in calls && calls[id].capability == c
  }

  /** Each address's count of each day is below its cap plus one: within an integer cap. */
  ghost predicate AddressesWithin(t: Tables, limits: Limits) {
    limits.perAddressCap.Some? ==>
      forall b :: b in t.daily && b.scope != GLOBAL_SCOPE ==> t.daily[b] as real < limits.perAddressCap.value + 1.0
  }

  /** The operator-wide count of any day is below budget + K: from today on, even with all
      that may still settle. */
  ghost predicate BudgetWithin(s: State, limits: Limits, k: nat) {
    limits.budget.Some? ==>
      forall c, day :: WithinOn(s, limits.budget.value, k, c, day)
  }

  ghost predicate WithinOn(s: State, budget: real, k: nat, c: Capability, day: int) {
    var open := if day >= DayKey(s.clock) then |Unsettled(s.calls, c)| else 0;
    (CountIn(s.tables.daily, Bucket(c, GLOBAL_SCOPE, day)) + open) as real < budget + k as real
  }

  /** Successful calls, counted globally, with the unsettled ones never outnumber attempts. */
  ghost predicate Covered(s: State, c: Capability) {
    Total(s.tables.daily, c, true) + |Unsettled(s.calls, c)| <= Total(s.tables.daily, c, false)
  }

  /** Cooldowns end within the hour. */
  ghost predicate CooldownsWithin(t: Tables, now: int) {
    forall c :: c in t.meta && t.meta[c].cooldownUntil.Some?
      ==> t.meta[c].cooldownUntil.value <= (now + MAX_COOLDOWN_MS) as real
  }

  ghost predicate Inv(s: State, limits: Limits, k: nat) {
    && Positive(limits)
    && NoFutureRows(s.tables, s.clock)
    && AddressesWithin(s.tables, limits)
    && BudgetWithin(s, limits, k)
    && (forall c :: Covered(s, c))
    && CooldownsWithin(s.tables, s.clock)
    && (forall id :: id in s.calls ==> s.calls[id].scope != GLOBAL_SCOPE)
  }

  /** At most `k` admitted calls of a capability are unsettled at a time. */
  ghost predicate AtMost(s: State, k: nat) {
    forall c :: |Unsettled(s.calls, c)| <= k
  }

  lemma {:induction false} UnsettledAdd(calls: map<nat, Call>, id: nat, call: Call, c: Capability)
    requires id !in calls
    ensures |Unsettled(calls[id := call], c)| == |Unsettled(calls, c)| + if call.capability == c then 1 else 0
  {
    if call.capability == c {
      assert Unsettled(calls[id := call], c) == Unsettled(calls, c) + {id};
    } else {
      assert Unsettled(calls[id := call], c) == Unsettled(calls, c);
    }
  }

  lemma {:induction false} UnsettledRemove(calls: map<nat, Call>, id: nat, c: Capability)
    requires id in calls
    ensures |Unsettled(calls - {id}, c)| == |Unsettled(calls, c)| - if calls[id].capability == c then 1 else 0
  {
    if calls[id].capability == c {
      assert Unsettled(calls, c) == Unsettled(calls - {id}, c) + {id};
    } else {
      assert Unsettled(calls, c) == Unsettled(calls - {id}, c);
    }
  }

  lemma {:induction false} RequestKeepsInv(s: State, limits: Limits, k: nat, e: Event)
    requires Inv(s, limits, k) && Enabled(s, e) && e.Request? && AtMost(Apply(s, limits, e), k)
    ensures Inv(Apply(s, limits, e), limits, k)
  {
    DayArithmetic(s.clock, e.checkedAt);
    DayArithmetic(e.checkedAt, e.countedAt);
    var s' := Apply(s, limits, e);
    if CheckBudget(s.tables, e.c, limits, e.scope, e.checkedAt).Ok? {
      var call := Call(e.c, e.scope);
      var b := Bucket(e.c, e.scope, DayKey(e.countedAt));
      forall c ensures Covered(s', c) {
        assert Covered(s, c);
        TotalStep(s.tables.daily, b, c, true);
        TotalStep(s.tables.daily, b, c, false);
        UnsettledAdd(s.calls, e.id, call, c);
      }
      if limits.budget.Some? {
        forall c, day ensures WithinOn(s', limits.budget.value, k, c, day) {
          assert WithinOn(s, limits.budget.value, k, c, day);
          UnsettledAdd(s.calls, e.id, call, c);
        }
      }
    } else {
      forall c ensures Covered(s', c) { assert Covered(s, c); }
      if limits.budget.Some? {
        forall c, day ensures WithinOn(s', limits.budget.value, k, c, day) {
          assert WithinOn(s, limits.budget.value, k, c, day);
        }
      }
    }
  }

  lemma {:induction false} OutcomeTables(t: Tables, c: Capability, outcome: Outcome, at: int)
    requires outcome.Success? || outcome.RateLimited?
    ensures outcome.Success? ==>
              AfterSuccess(t, c, "", at, outcome.headers).daily == WithUsage(t, c, GLOBAL_SCOPE, at).daily
    ensures outcome.RateLimited? ==> AfterRateLimited(t, c, at, outcome.headers).daily == t.daily
  {}

  lemma {:induction false} SettleKeepsCover(s: State, limits: Limits, k: nat, e: Event, s': State)
    requires Inv(s, limits, k) && Enabled(s, e) && e.Settle? && s' == Apply(s, limits, e)
    ensures forall c :: Covered(s', c)
  {
    var cap := s.calls[e.id].capability;
    if !e.outcome.OtherError? { OutcomeTables(s.tables, cap, e.outcome, e.at); }
    var b := Bucket(cap, GLOBAL_SCOPE, DayKey(e.at));
    forall c ensures Covered(s', c) {
      assert Covered(s, c);
      TotalStep(s.tables.daily, b, c, true);
      TotalStep(s.tables.daily, b, c, false);
      UnsettledRemove(s.calls, e.id, c);
    }
  }

  lemma {:induction false} SettleKeepsInv(s: State, limits: Limits, k: nat, e: Event)
    requires Inv(s, limits, k) && Enabled(s, e) && e.Settle?
    ensures Inv(Apply(s, limits, e), limits, k)
  {
    DayArithmetic(s.clock, e.at);
    var s' := Apply(s, limits, e);
    var cap := s.calls[e.id].capability;
    SettleKeepsCover(s, limits, k, e, s');
    if !e.outcome.OtherError? { OutcomeTables(s.tables, cap, e.outcome, e.at); }
    if limits.budget.Some? {
      forall c, day ensures WithinOn(s', limits.budget.value, k, c, day) {
        assert WithinOn(s, limits.budget.value, k, c, day);
        UnsettledRemove(s.calls, e.id, c);
      }
    }
  }

  lemma {:induction false} ApplyKeepsInv(s: State, limits: Limits, k: nat, e: Event)
    requires Inv(s, limits, k) && Enabled(s, e) && AtMost(Apply(s, limits, e), k)
    ensures Inv(Apply(s, limits, e), limits, k)
  {
    match e
    case Request(_, _, _, _, _) => RequestKeepsInv(s, limits, k, e);
    case Timeout(_) =>
    case Settle(_, _, _) => SettleKeepsInv(s, limits, k, e);
  }

  /** A run whose steps are possible, with at most `k` calls of a capability unsettled. */
  ghost predicate Possible(s: State, limits: Limits, k: nat, es: seq<Event>)
    decreases es
  {
    es == [] ||
    (Enabled(s, es[0]) && AtMost(Apply(s, limits, es[0]), k) && Possible(Apply(s, limits, es[0]), limits, k, es[1..]))
  }

  ghost function Run(s: State, limits: Limits, k: nat, es: seq<Event>): State
    requires Possible(s, limits, k, es)
    decreases es
  {
    if es == [] then s else Run(Apply(s, limits, es[0]), limits, k, es[1..])
  }

  lemma {:induction false} RunKeepsInv(s: State, limits: Limits, k: nat, es: seq<Event>)
    requires Inv(s, limits, k) && Possible(s, limits, k, es)
    ensures Inv(Run(s, limits, k, es), limits, k)
    decreases es
  {
    if es != [] {
      ApplyKeepsInv(s, limits, k, es[0]);
      RunKeepsInv(Apply(s, limits, es[0]), limits, k, es[1..]);
    }
  }

  const START := Tables(None, map[], map[], map[])

  /** Under every interleaving: with an integer cap `n` each address stays within `n` a day,
      with an integer budget `n` the operator-wide count within n − 1 + K, and successful
      calls never outnumber counted attempts. */
  lemma {:induction false} EveryRun(limits: Limits, k: nat, es: seq<Event>, clock: int, n: nat)
    requires Positive(limits) && Possible(State(START, map[], clock), limits, k, es)
    ensures var t := Run(State(START, map[], clock), limits, k, es).tables;
            && (limits.perAddressCap == Some(n as real) ==>
                  forall b :: b in t.daily && b.scope != GLOBAL_SCOPE ==> t.daily[b] <= n)
            && (limits.budget == Some(n as real) ==>
                  forall b :: b in t.daily && b.scope == GLOBAL_SCOPE ==> t.daily[b] <= n - 1 + k)
            && (forall c :: Total(t.daily, c, true) <= Total(t.daily, c, false))
  {
    var s0 := State(START, map[], clock);
    forall c ensures Unsettled(s0.calls, c) == {} {}
    forall c ensures Covered(s0, c) { assert Rows(s0.tables.daily, c, true) == {}; }
    if limits.budget.Some? {
      forall c, day ensures WithinOn(s0, limits.budget.value, k, c, day) {}
    }
    RunKeepsInv(s0, limits, k, es);
    var s := Run(s0, limits, k, es);
    var t := s.tables;
    if limits.budget == Some(n as real) {
      forall b | b in t.daily && b.scope == GLOBAL_SCOPE ensures t.daily[b] <= n - 1 + k {
        assert WithinOn(s, limits.budget.value, k, b.capability, b.day);
        assert b == Bucket(b.capability, GLOBAL_SCOPE, b.day);
      }
    }
    forall c ensures Total(t.daily, c, true) <= Total(t.daily, c, false) { assert Covered(s, c); }
  }

  // ---- what is counted, exactly --------------------------------------------------------------

  /** The request was let in: none of the three causes refused it. */
  ghost predicate LetIn(s: State, limits: Limits, e: Event) {
    e.Request? && forall cause: Cause :: !Refuses(cause, s.tables, e.c, limits, e.scope, e.checkedAt)
  }

  /** The step adds to the row: an attempt let in for an address, or a success of any of the calls. */
  ghost predicate Adds(s: State, limits: Limits, e: Event, b: Bucket)
    requires Enabled(s, e)
  {
    || (LetIn(s, limits, e) && b == Bucket(e.c, e.scope, DayKey(e.countedAt)))
    || (e.Settle? && e.outcome.Success? && b == Bucket(s.calls[e.id].capability, GLOBAL_SCOPE, DayKey(e.at)))
  }

  ghost function AddedIn(s: State, limits: Limits, k: nat, es: seq<Event>, b: Bucket): nat
    requires Possible(s, limits, k, es)
    decreases es
  {
    if es == [] then 0
    else (if Adds(s, limits, es[0], b) then 1 else 0) + AddedIn(Apply(s, limits, es[0]), limits, k, es[1..], b)
  }

  /** A request that is let in waits for its call; one that is not leaves all as it was, but for the
      clock; and a call that settles is over. */
  lemma {:induction false} StepDoes(s: State, limits: Limits, e: Event)
    requires Enabled(s, e)
    ensures var s' := Apply(s, limits, e);
            && (LetIn(s, limits, e) ==> s'.calls == s.calls[e.id := Call(e.c, e.scope)])
            && (e.Request? && !LetIn(s, limits, e) ==> s' == s.(clock := e.countedAt))
            && (e.Timeout? ==> s' == s)
            && (e.Settle? ==> s'.calls == s.calls - {e.id})
            && (e.Settle? && e.outcome.OtherError? ==> s'.tables == s.tables)
  {
    if e.Request? {
      RefusedIffCause(s.tables, e.c, limits, e.scope, e.checkedAt);
    }
  }

  lemma {:induction false} StepAdds(s: State, limits: Limits, e: Event, b: Bucket)
    requires Enabled(s, e)
    ensures CountIn(Apply(s, limits, e).tables.daily, b)
         == CountIn(s.tables.daily, b) + if Adds(s, limits, e, b) then 1 else 0
  {
    match e
    case Request(_, c, scope, checkedAt, countedAt) =>
      RefusedIffCause(s.tables, c, limits, scope, checkedAt);
      UsageCounts(s.tables, c, scope, countedAt, b);
    case Timeout(_) =>
    case Settle(id, outcome, at) =>
      match outcome {
        case Success(h) => SuccessCounts(s.tables, s.calls[id].capability, "", at, h, b);
        case RateLimited(h) => RateLimitedWrites(s.tables, s.calls[id].capability, at, h);
        case OtherError =>
      }
  }

  /** In every run each row counts exactly what it is for: the day's attempts of the address that were
      let in, or the day's successes, those of timed-out calls included. */
  lemma {:induction false} RowsAreExact(s: State, limits: Limits, k: nat, es: seq<Event>, b: Bucket)
    requires Possible(s, limits, k, es)
    ensures CountIn(Run(s, limits, k, es).tables.daily, b)
         == CountIn(s.tables.daily, b) + AddedIn(s, limits, k, es, b)
    decreases es
  {
    if es != [] {
      StepAdds(s, limits, es[0], b);
      RowsAreExact(Apply(s, limits, es[0]), limits, k, es[1..], b);
    }
  }

  /** From the empty tables on, the rows are the counts. */
  lemma RowsCount(limits: Limits, k: nat, es: seq<Event>, clock: int, b: Bucket)
    requires Possible(State(START, map[], clock), limits, k, es)
    ensures CountIn(Run(State(START, map[], clock), limits, k, es).tables.daily, b)
         == AddedIn(State(START, map[], clock), limits, k, es, b)
  {
    RowsAreExact(State(START, map[], clock), limits, k, es, b);
    assert CountIn(START.daily, b) == 0;
  }

  /** The event writes no cooldown for the capability. */
  ghost predicate KeepsCooldown(s: State, e: Event, c: Capability)
    requires Enabled(s, e)
  {
    e.Settle? && s.calls[e.id].capability == c ==> e.outcome.OtherError?
  }

  ghost predicate CooldownKept(s: State, limits: Limits, k: nat, es: seq<Event>, c: Capability)
    requires Possible(s, limits, k, es)
    decreases es
  {
    es != [] ==> KeepsCooldown(s, es[0], c) && CooldownKept(Apply(s, limits, es[0]), limits, k, es[1..], c)
  }

  lemma {:induction false} CooldownStays(s: State, limits: Limits, k: nat, es: seq<Event>, c: Capability)
    requires Possible(s, limits, k, es) && CooldownKept(s, limits, k, es, c)
    ensures MetaOf(Run(s, limits, k, es).tables, c) == MetaOf(s.tables, c)
    decreases es
  {
    if es != [] {
      var e := es[0];
      if e.Settle? {
        match e.outcome {
          case Success(h) => SuccessLearns(s.tables, s.calls[e.id].capability, "", e.at, h);
          case RateLimited(h) => RateLimitedWrites(s.tables, s.calls[e.id].capability, e.at, h);
          case OtherError =>
        }
      }
      CooldownStays(Apply(s, limits, e), limits, k, es[1..], c);
    }
  }

  /** After a 429, or a success that announces that nothing remains, no request for that capability is
      let in before the instant its headers call for, whatever else runs, until another call settles. */
  lemma {:induction false} CooldownBlocks(s: State, limits: Limits, k: nat, e: Event, h: RateHeaders, settled: State,
                                        es: seq<Event>, later: Event, until: real)
    requires Enabled(s, e) && e.Settle? && settled == Apply(s, limits, e)
    requires e.outcome == RateLimited(h) || (e.outcome == Success(h) && h.remaining.Num? && h.remaining.n <= 0.0)
    requires Possible(settled, limits, k, es) && CooldownKept(settled, limits, k, es, s.calls[e.id].capability)
    requires later.Request? && later.c == s.calls[e.id].capability
    requires Enabled(Run(settled, limits, k, es), later)
    requires CallsFor(h, e.at, until) && later.checkedAt as real < until
    ensures !LetIn(Run(settled, limits, k, es), limits, later)
  {
    var c := s.calls[e.id].capability;
    var end := Run(settled, limits, k, es);
    CooldownIs(h, e.at, until);
    CooldownStays(settled, limits, k, es, c);
    assert MetaOf(settled.tables, c).cooldownUntil == Some(until);
    assert Refuses(Cooldown, end.tables, c, limits, later.scope, later.checkedAt);
  }
}
