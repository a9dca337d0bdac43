/** The durable quota store of `backend/src/lib/quota-store.ts`: four tables, each prepared
    statement one step.  A day's bucket key is the number of the UTC day. */
module QuotaStore {
  import opened Wrappers

  datatype Capability = Copilot | Caption

  const GLOBAL_SCOPE := "global"
  const MS_PER_DAY: nat := 24 * 60 * 60 * 1000

  datatype TripoBalance = TripoBalance(spendable: real, syncedAt: int)

  datatype Bucket = Bucket(capability: Capability, scope: string, day: int)

  datatype Meta = Meta(cooldownUntil: Option<real>, remaining: Option<real>, resetAt: Option<real>)

  datatype Tables = Tables(
    balance: Option<TripoBalance>,
    daily: map<Bucket, nat>,
    meta: map<Capability, Meta>,
    spent: map<string, int>)

  datatype GeminiState = GeminiState(
    dailyCount: nat,
    cooldownUntil: Option<real>,
    remaining: Option<real>,
    resetAt: Option<real>)

  function DayKey(now: int): int {
    now / MS_PER_DAY
  }

  function CountIn(daily: map<Bucket, nat>, b: Bucket): nat {
    if b in daily then daily[b] else 0
  }

  function MetaOf(t: Tables, c: Capability): Meta {
    if c in t.meta then t.meta[c] else Meta(None, None, None)
  }

  /** A cooldown that has run out reads as none. */
  function GeminiStateOf(t: Tables, c: Capability, scope: string, now: int): GeminiState {
    var m := MetaOf(t, c);
    GeminiState(
      CountIn(t.daily, Bucket(c, scope, DayKey(now))),
      if m.cooldownUntil.Some? && m.cooldownUntil.value > now as real then m.cooldownUntil else None,
      m.remaining,
      m.resetAt)
  }

  function WithUsage(t: Tables, c: Capability, scope: string, now: int): Tables {
    var b := Bucket(c, scope, DayKey(now));
    t.(daily := t.daily[b := CountIn(t.daily, b) + 1])
  }

  function WithCooldown(t: Tables, c: Capability, until: real): Tables {
    t.(meta := t.meta[c := MetaOf(t, c).(cooldownUntil := Some(until))])
  }

  function WithRemaining(t: Tables, c: Capability, remaining: real, resetAt: Option<real>): Tables {
    t.(meta := t.meta[c := MetaOf(t, c).(remaining := Some(remaining), resetAt := resetAt)])
  }

  /** What is written is read back: a cooldown until it has run out, remaining and reset as they are, and
      each use of the day. */
  lemma WritesAreRead(t: Tables, c: Capability, scope: string, now: int, until: real, remaining: real,
                      resetAt: Option<real>)
    ensures GeminiStateOf(WithCooldown(t, c, until), c, scope, now)
         == GeminiStateOf(t, c, scope, now).(cooldownUntil := if until > now as real then Some(until) else None)
    ensures GeminiStateOf(WithRemaining(t, c, remaining, resetAt), c, scope, now)
         == GeminiStateOf(t, c, scope, now).(remaining := Some(remaining), resetAt := resetAt)
    ensures GeminiStateOf(WithUsage(t, c, scope, now), c, scope, now)
         == GeminiStateOf(t, c, scope, now).(dailyCount := GeminiStateOf(t, c, scope, now).dailyCount + 1)
    ensures GeminiStateOf(Tables(None, map[], map[], map[]), c, scope, now) == GeminiState(0, None, None, None)
  {
  }

  class Store {
    var balance: Option<TripoBalance>
    var daily: map<Bucket, nat>
    var meta: map<Capability, Meta>
    var spent: map<string, int>

    constructor ()
      ensures Contents() == Tables(None, map[], map[], map[])
    {
      balance, daily, meta, spent := None, map[], map[], map[];
    }

    function Contents(): Tables
      reads this
    {
      Tables(balance, daily, meta, spent)
    }

    method SetTripoBalance(spendable: real, syncedAt: int)
      modifies this`balance
      ensures balance == Some(TripoBalance(spendable, syncedAt))
    {
      balance := Some(TripoBalance(spendable, syncedAt));
    }

    method GetGeminiState(c: Capability, scope: string, now: int) returns (s: GeminiState)
      ensures s == GeminiStateOf(Contents(), c, scope, now)
    {
      var count := if Bucket(c, scope, DayKey(now)) in daily then daily[Bucket(c, scope, DayKey(now))] else 0;
      if c !in meta {
        return GeminiState(count, None, None, None);
      }
      var row := meta[c];
      var cooldown :=
        if row.cooldownUntil.Some? && row.cooldownUntil.value > now as real then row.cooldownUntil else None;
      return GeminiState(count, cooldown, row.remaining, row.resetAt);
    }

    method RecordGeminiUsage(c: Capability, scope: string, now: int)
      modifies this`daily
      ensures Contents() == WithUsage(old(Contents()), c, scope, now)
    {
      var b := Bucket(c, scope, DayKey(now));
      daily := daily[b := if b in daily then daily[b] + 1 else 1];
    }

    method SetGeminiCooldown(c: Capability, until: real)
      modifies this`meta
      ensures Contents() == WithCooldown(old(Contents()), c, until)
    {
      meta := meta[c := if c in meta then meta[c].(cooldownUntil := Some(until)) else Meta(Some(until), None, None)];
    }

    method SetGeminiRemaining(c: Capability, remaining: real, resetAt: Option<real>)
      modifies this`meta
      ensures Contents() == WithRemaining(old(Contents()), c, remaining, resetAt)
    {
      meta := meta[c := if c in meta then meta[c].(remaining := Some(remaining), resetAt := resetAt)
                        else Meta(None, Some(remaining), resetAt)];
    }

    method IsPaymentSpent(digest: string) returns (was: bool)
      ensures was <==> digest in spent
    {
      return digest in spent;
    }

    /** Insert or ignore: true exactly when this call inserted the digest. */
    method MarkPaymentSpent(digest: string, spentAt: int) returns (inserted: bool)
      modifies this`spent
      ensures inserted <==> digest !in old(spent)
      ensures spent == if inserted then old(spent)[digest := spentAt] else old(spent)
    {
      if digest in spent {
        return false;
      }
      spent := spent[digest := spentAt];
      return true;
    }
  }
}
