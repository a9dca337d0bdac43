/** The budget decisions of `backend/src/lib/gemini-quota.ts` and
    `backend/src/routes/geminiQuotaGate.ts`.  Times in headers are reals; the clock is an
    integer. */
module GeminiQuota {
  import opened QuotaStore
  import opened Wrappers

  const DEFAULT_RATE_LIMIT_COOLDOWN_MS: int := 60_000
  const MAX_COOLDOWN_MS: int := 60 * 60_000

  /** A header or environment value as `Number` reads it. */
  datatype Raw = Absent | NotFinite | Num(n: real)

  datatype RateHeaders = RateHeaders(remaining: Raw, retryAfter: Raw, reset: Raw)

  /** A positive setting; zero or less turns it off, a value that is not a number falls back. */
  function PosEnv(raw: Raw, fallback: Option<real>): Option<real> {
    match raw
    case Absent => fallback
    case NotFinite => fallback
    case Num(n) => if n > 0.0 then Some(n) else None
  }

  function SafeCooldown(resetAt: Option<real>, now: int): (until: real)
    ensures now as real < until <= (now + MAX_COOLDOWN_MS) as real
  {
    if resetAt.Some? && now as real < resetAt.value <= (now + MAX_COOLDOWN_MS) as real then resetAt.value
    else (now + DEFAULT_RATE_LIMIT_COOLDOWN_MS) as real
  }

  function ParseRemaining(h: RateHeaders): Option<real> {
    if h.remaining.Num? then Some(h.remaining.n) else None
  }

  /** `retry-after` in seconds from now, else `x-ratelimit-reset` in epoch seconds or, from
      1e12 on, milliseconds. */
  function ParseReset(h: RateHeaders, now: int): Option<real> {
    if h.retryAfter.Num? then Some(now as real + h.retryAfter.n * 1000.0)
    else if h.reset.Num? then Some(if h.reset.n < 1_000_000_000_000.0 then h.reset.n * 1000.0 else h.reset.n)
    else None
  }

  datatype Limits = Limits(budget: Option<real>, perAddressCap: Option<real>)

  datatype BudgetResult = Ok | Exhausted(retryAfterMs: real)

  function MsUntilUtcMidnight(now: int): int {
    MS_PER_DAY - now % MS_PER_DAY
  }

  predicate Spent(count: nat, limit: Option<real>) {
    limit.Some? && count as real >= limit.value
  }

  /** May a call proceed?  An active cooldown comes first, then the global budget, then the
      cap of the address. */
  function CheckBudget(t: Tables, c: Capability, limits: Limits, scope: string, now: int): BudgetResult {
    var global := GeminiStateOf(t, c, GLOBAL_SCOPE, now);
    if global.cooldownUntil.Some? then
      Exhausted(if global.cooldownUntil.value - now as real > 0.0 then global.cooldownUntil.value - now as real
                else 0.0)
    else if Spent(global.dailyCount, limits.budget) then Exhausted(MsUntilUtcMidnight(now) as real)
    else if scope != "" && Spent(GeminiStateOf(t, c, scope, now).dailyCount, limits.perAddressCap) then
      Exhausted(MsUntilUtcMidnight(now) as real)
    else Ok
  }

  /** After a failed call: was it a 429, and how long does its cooldown last? */
  function QuotaStateAfterFailure(t: Tables, c: Capability, now: int): Option<real> {
    var s := GeminiStateOf(t, c, GLOBAL_SCOPE, now);
    if s.cooldownUntil.Some? then
      Some(if s.cooldownUntil.value - now as real > 0.0 then s.cooldownUntil.value - now as real else 0.0)
    else None
  }

  /** A scope that is not empty is counted beside the global one. */
  function AfterSuccess(t: Tables, c: Capability, scope: string, now: int, h: RateHeaders): Tables {
    var t0 := WithUsage(t, c, GLOBAL_SCOPE, now);
    var t1 := if scope != "" then WithUsage(t0, c, scope, now) else t0;
    match ParseRemaining(h)
    case None => t1
    case Some(remaining) =>
      var t2 := WithRemaining(t1, c, remaining, ParseReset(h, now));
      if remaining <= 0.0 then WithCooldown(t2, c, SafeCooldown(ParseReset(h, now), now)) else t2
  }

  function AfterRateLimited(t: Tables, c: Capability, now: int, h: RateHeaders): Tables {
    WithCooldown(t, c, SafeCooldown(ParseReset(h, now), now))
  }

  method RecordSuccess(store: Store, c: Capability, scope: string, now: int, h: RateHeaders)
    modifies store
    ensures store.Contents() == AfterSuccess(old(store.Contents()), c, scope, now, h)
  {
    store.RecordGeminiUsage(c, GLOBAL_SCOPE, now);
    if scope != "" {
      store.RecordGeminiUsage(c, scope, now);
    }
    var remaining, resetAt := ParseRemaining(h), ParseReset(h, now);
    if remaining.Some? {
      store.SetGeminiRemaining(c, remaining.value, resetAt);
      if remaining.value <= 0.0 {
        store.SetGeminiCooldown(c, SafeCooldown(resetAt, now));
      }
    }
  }

  method RecordRateLimited(store: Store, c: Capability, now: int, h: RateHeaders)
    modifies store
    ensures store.Contents() == AfterRateLimited(old(store.Contents()), c, now, h)
  {
    store.SetGeminiCooldown(c, SafeCooldown(ParseReset(h, now), now));
  }

  // ---- every refusal carries an exact wait ---------------------------------------------

  datatype Cause = Cooldown | Budget | AddressCap

  predicate Refuses(cause: Cause, t: Tables, c: Capability, limits: Limits, scope: string, now: int) {
    match cause
    case Cooldown => MetaOf(t, c).cooldownUntil.Some? && MetaOf(t, c).cooldownUntil.value > now as real
    case Budget => Spent(CountIn(t.daily, Bucket(c, GLOBAL_SCOPE, DayKey(now))), limits.budget)
    case AddressCap => scope != "" && Spent(CountIn(t.daily, Bucket(c, scope, DayKey(now))), limits.perAddressCap)
  }

  predicate Positive(limits: Limits) {
    && (limits.budget.Some? ==> limits.budget.value > 0.0)
    && (limits.perAddressCap.Some? ==> limits.perAddressCap.value > 0.0)
  }

  /** No usage is recorded for a day that has not begun. */
  ghost predicate NoFutureRows(t: Tables, now: int) {
    forall b :: b in t.daily ==> b.day <= DayKey(now)
  }

  /** The settings of the environment are positive or off. */
  lemma EnvLimitsPositive(budget: Raw, perAddress: Raw)
    ensures Positive(Limits(PosEnv(budget, None), PosEnv(perAddress, Some(50.0))))
  {}

  lemma {:induction false} DayArithmetic(now: int, later: int)
    requires now <= later
    ensures 0 < MsUntilUtcMidnight(now) <= MS_PER_DAY
    ensures later < now + MsUntilUtcMidnight(now) <==> DayKey(later) == DayKey(now)
    ensures DayKey(now) <= DayKey(later)
  {
    assert now == MS_PER_DAY * (now / MS_PER_DAY) + now % MS_PER_DAY;
    assert later == MS_PER_DAY * (later / MS_PER_DAY) + later % MS_PER_DAY;
  }

  /** With nothing more recorded, a refused caller is refused until the announced wait is
      over and from then on never again for the same cause; the wait is positive. */
  lemma {:induction false} RefusalIsExact(t: Tables, c: Capability, limits: Limits, scope: string, now: int,
                                        cause: Cause, later: int)
    requires Positive(limits) && NoFutureRows(t, now) && now <= later
    requires CheckBudget(t, c, limits, scope, now).Exhausted?
    requires Refuses(cause, t, c, limits, scope, now)
    requires cause != Cooldown ==> !Refuses(Cooldown, t, c, limits, scope, now)
    ensures var wait := CheckBudget(t, c, limits, scope, now).retryAfterMs;
            && wait > 0.0
            && (later as real < now as real + wait ==> CheckBudget(t, c, limits, scope, later).Exhausted?)
            && (later as real < now as real + wait <==> Refuses(cause, t, c, limits, scope, later))
  {
    DayArithmetic(now, later);
    if cause != Cooldown && DayKey(later) > DayKey(now) {
      assert Bucket(c, GLOBAL_SCOPE, DayKey(later)) !in t.daily && Bucket(c, scope, DayKey(later)) !in t.daily;
    }
  }

  /** A check refuses exactly when one of the three causes holds. */
  lemma RefusedIffCause(t: Tables, c: Capability, limits: Limits, scope: string, now: int)
    ensures CheckBudget(t, c, limits, scope, now).Exhausted?
       <==> exists cause :: Refuses(cause, t, c, limits, scope, now)
  {
    if CheckBudget(t, c, limits, scope, now).Exhausted? {
      var cause := if Refuses(Cooldown, t, c, limits, scope, now) then Cooldown
                   else if Refuses(Budget, t, c, limits, scope, now) then Budget else AddressCap;
      assert Refuses(cause, t, c, limits, scope, now);
    }
  }

  /** The three causes: a cooldown that has not run out, a global count of the day that has reached the
      budget, or a count of the address that has reached its cap. */
  lemma CausesAre(t: Tables, c: Capability, limits: Limits, scope: string, now: int)
    ensures Refuses(Cooldown, t, c, limits, scope, now) <==>
              c in t.meta && t.meta[c].cooldownUntil.Some? && t.meta[c].cooldownUntil.value > now as real
    ensures Refuses(Budget, t, c, limits, scope, now) <==>
              limits.budget.Some?
              && CountIn(t.daily, Bucket(c, GLOBAL_SCOPE, DayKey(now))) as real >= limits.budget.value
    ensures Refuses(AddressCap, t, c, limits, scope, now) <==>
              scope != "" && limits.perAddressCap.Some?
              && CountIn(t.daily, Bucket(c, scope, DayKey(now))) as real >= limits.perAddressCap.value
  {
  }

  /** A cooldown written at `now` is over within the hour: whatever the headers said, a check
      an hour later is not refused for it, and one right away is. */
  lemma CooldownBounded(t: Tables, c: Capability, limits: Limits, scope: string, now: int, h: RateHeaders, later: int)
    requires later >= now + MAX_COOLDOWN_MS
    ensures var t' := AfterRateLimited(t, c, now, h);
            && Refuses(Cooldown, t', c, limits, scope, now) && !Refuses(Cooldown, t', c, limits, scope, later)
            && QuotaStateAfterFailure(t', c, now).Some? && QuotaStateAfterFailure(t', c, now).value > 0.0
  {}

  // ---- what a record leaves in the tables ------------------------------------------------

  /** The headers announce the instant `at`: as seconds from now, or else as an epoch time, which is in
      seconds below 1e12 and in milliseconds from there on. */
  predicate Announces(h: RateHeaders, now: int, at: real) {
    || (h.retryAfter.Num? && at == now as real + 1000.0 * h.retryAfter.n)
    || (!h.retryAfter.Num? && h.reset.Num? && h.reset.n < 1000000000000.0 && at == 1000.0 * h.reset.n)
    || (!h.retryAfter.Num? && h.reset.Num? && h.reset.n >= 1000000000000.0 && at == h.reset.n)
  }

  /** The cooldown that headers read at `now` call for: the announced instant if it lies within the next
      hour, and else one minute. */
  ghost predicate CallsFor(h: RateHeaders, now: int, until: real) {
    || (Announces(h, now, until) && now as real < until <= now as real + 3600000.0)
    || ((forall at: real :: Announces(h, now, at) ==> at <= now as real || at > now as real + 3600000.0)
        && until == now as real + 60000.0)
  }

  lemma CooldownIs(h: RateHeaders, now: int, until: real)
    ensures SafeCooldown(ParseReset(h, now), now) == until <==> CallsFor(h, now, until)
  {
    var reset := ParseReset(h, now);
    if reset.Some? {
      assert Announces(h, now, reset.value);
    }
    assert forall at: real :: Announces(h, now, at) ==> reset == Some(at);
  }

  /** A 429 writes the cooldown its headers call for, and nothing else. */
  lemma RateLimitedWrites(t: Tables, c: Capability, now: int, h: RateHeaders)
    ensures var t' := AfterRateLimited(t, c, now, h);
            && MetaOf(t', c).cooldownUntil.Some? && CallsFor(h, now, MetaOf(t', c).cooldownUntil.value)
            && MetaOf(t', c).remaining == MetaOf(t, c).remaining && MetaOf(t', c).resetAt == MetaOf(t, c).resetAt
            && t'.daily == t.daily && t'.spent == t.spent && t'.balance == t.balance
            && forall d | d != c :: MetaOf(t', d) == MetaOf(t, d)
  {
    CooldownIs(h, now, SafeCooldown(ParseReset(h, now), now));
  }

  lemma UsageCounts(t: Tables, c: Capability, scope: string, now: int, b: Bucket)
    ensures CountIn(WithUsage(t, c, scope, now).daily, b)
         == CountIn(t.daily, b) + if b == Bucket(c, scope, DayKey(now)) then 1 else 0
    ensures WithUsage(t, c, scope, now) == t.(daily := WithUsage(t, c, scope, now).daily)
  {
  }

  /** A success counts once globally and once for its address... */
  lemma SuccessCounts(t: Tables, c: Capability, scope: string, now: int, h: RateHeaders, b: Bucket)
    requires scope != GLOBAL_SCOPE
    ensures var t' := AfterSuccess(t, c, scope, now, h);
            && CountIn(t'.daily, b) == CountIn(t.daily, b)
               + (if b == Bucket(c, GLOBAL_SCOPE, DayKey(now)) || (scope != "" && b == Bucket(c, scope, DayKey(now)))
                  then 1 else 0)
            && t'.spent == t.spent && t'.balance == t.balance
  {
    var once := WithUsage(t, c, GLOBAL_SCOPE, now);
    UsageCounts(t, c, GLOBAL_SCOPE, now, b);
    UsageCounts(once, c, scope, now, b);
    assert AfterSuccess(t, c, scope, now, h).daily
        == if scope != "" then WithUsage(once, c, scope, now).daily else once.daily;
  }

  /** ...keeps the remaining calls when they were announced, and when none remain, has the next calls
      refused until the instant the headers call for. */
  lemma SuccessLearns(t: Tables, c: Capability, scope: string, now: int, h: RateHeaders)
    ensures var m, m' := MetaOf(t, c), MetaOf(AfterSuccess(t, c, scope, now, h), c);
            && (!h.remaining.Num? ==> m' == m)
            && (h.remaining.Num? ==> m'.remaining == Some(h.remaining.n))
            && (h.remaining.Num? ==> forall at: real :: Announces(h, now, at) <==> m'.resetAt == Some(at))
            && (h.remaining.Num? && h.remaining.n > 0.0 ==> m'.cooldownUntil == m.cooldownUntil)
            && (h.remaining.Num? && h.remaining.n <= 0.0 ==>
                  m'.cooldownUntil.Some? && CallsFor(h, now, m'.cooldownUntil.value))
    ensures forall d | d != c :: MetaOf(AfterSuccess(t, c, scope, now, h), d) == MetaOf(t, d)
  {
    CooldownIs(h, now, SafeCooldown(ParseReset(h, now), now));
  }

  /** The limits of the environment: a positive number counts, any other number turns the limit off,
      and without a number there is no budget, and fifty calls a day for an address. */
  lemma EnvLimitsAre(budget: Raw, perAddress: Raw)
    ensures var l := Limits(PosEnv(budget, None), PosEnv(perAddress, Some(50.0)));
            && (l.budget.Some? <==> budget.Num? && budget.n > 0.0)
            && (l.budget.Some? ==> l.budget.value == budget.n)
            && (l.perAddressCap == None <==> perAddress.Num? && perAddress.n <= 0.0)
            && (l.perAddressCap.Some? ==> l.perAddressCap.value == if perAddress.Num? then perAddress.n else 50.0)
  {
  }
}
