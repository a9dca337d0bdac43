/** The credit check before payment, `backend/src/routes/preflight.ts`, interleaved with the balance
    poller of `backend/src/events/tripoBalancePoller.ts`: a cache of one balance row, one shared live
    fetch, and a guarded poll, cut at every await. */
module Preflight {
  import opened QuotaStore
  import opened Wrappers

  /** `lag` bounds the time from a provider's result to the last continuation that uses it. */
  datatype Config = Config(threshold: real, stale: int, wired: bool, lag: nat)

  datatype Reply = Available | Insufficient | Unknown

  /** A provider call: on its way, settled, and settled with the guard lifted. */
  datatype Fetch = Flying | Landed(result: Option<real>, at: int) | Done(result: Option<real>, at: int)

  /** A request that read the cache at `readAt` and awaits a fetch. */
  datatype Waiter = Waiter(readAt: int, fetch: nat)

  datatype Answer = Answer(readAt: int, reply: Reply)

  /** What the provider reported, and when. */
  datatype Report = Report(spendable: real, at: int)

  datatype State = State(
    clock: int,
    cache: Option<TripoBalance>,
    fetches: map<nat, Fetch>,
    nextFetch: nat,
    inFlight: Option<nat>,
    waiters: map<nat, Waiter>,
    polls: map<nat, Fetch>,
    nextPoll: nat,
    polling: bool,
    reports: seq<Report>,
    answers: seq<Answer>)

  datatype Event =
    | Arrive(id: nat, now: int)
    | Land(fetch: nat, result: Option<real>, now: int)
    | Clear(fetch: nat, now: int)
    | Resume(id: nat, now: int)
    | Tick(now: int)
    | PollLand(poll: nat, result: Option<real>, now: int)
    | PollResume(poll: nat, now: int)
    | Restart(now: int)

  predicate Fresh(b: TripoBalance, stale: int, now: int) {
    now - b.syncedAt < stale
  }

  function Judge(spendable: real, threshold: real): Reply {
    if spendable >= threshold then Available else Insufficient
  }

  function Reported(s: State, result: Option<real>, at: int): State {
    if result.Some? then s.(reports := s.reports + [Report(result.value, at)]) else s
  }

  function Answered(s: State, readAt: int, reply: Reply): State {
    s.(answers := s.answers + [Answer(readAt, reply)])
  }

  /** A request reads the cache: a fresh balance answers it, otherwise it joins the live fetch or
      starts one. */
  function DoArrive(s: State, c: Config, id: nat, now: int): State {
    if s.cache.Some? && Fresh(s.cache.value, c.stale, now) then
      Answered(s, now, Judge(s.cache.value.spendable, c.threshold))
    else if !c.wired then Answered(s, now, Unknown)
    else if s.inFlight.Some? then s.(waiters := s.waiters[id := Waiter(now, s.inFlight.value)])
    else
      s.(fetches := s.fetches[s.nextFetch := Flying], inFlight := Some(s.nextFetch), nextFetch := s.nextFetch + 1,
         waiters := s.waiters[id := Waiter(now, s.nextFetch)])
  }

  /** A waiter goes on: it writes the row with its own clock, or fails closed. */
  function DoResume(s: State, c: Config, id: nat, now: int): State
    requires id in s.waiters && s.waiters[id].fetch in s.fetches && s.fetches[s.waiters[id].fetch].Done?
  {
    var w := s.waiters[id];
    var s1 := s.(waiters := s.waiters - {id});
    match s.fetches[w.fetch].result
    case None => Answered(s1, w.readAt, Unknown)
    case Some(v) => Answered(s1.(cache := Some(TripoBalance(v, now))), w.readAt, Judge(v, c.threshold))
  }

  function DoTick(s: State): State {
    if s.polling then s
    else s.(polling := true, polls := s.polls[s.nextPoll := Flying], nextPoll := s.nextPoll + 1)
  }

  function DoPollResume(s: State, poll: nat, now: int): State
    requires poll in s.polls && s.polls[poll].Landed?
  {
    var f := s.polls[poll];
    var s1 := s.(polls := s.polls[poll := Done(f.result, f.at)], polling := false);
    if f.result.Some? then s1.(cache := Some(TripoBalance(f.result.value, now))) else s1
  }

  /** The clock never runs backwards; continuations run within the lag. */
  predicate Enabled(s: State, c: Config, e: Event) {
    s.clock <= e.now &&
    match e
    case Arrive(id, _) => id !in s.waiters
    case Land(f, _, _) => f in s.fetches && s.fetches[f].Flying?
    case Clear(f, now) => f in s.fetches && s.fetches[f].Landed? && now <= s.fetches[f].at + c.lag
    case Resume(id, now) =>
      && id in s.waiters && s.waiters[id].fetch in s.fetches && s.fetches[s.waiters[id].fetch].Done?
      && now <= s.fetches[s.waiters[id].fetch].at + c.lag
    case Tick(_) => true
    case PollLand(p, _, _) => p in s.polls && s.polls[p].Flying?
    case PollResume(p, now) => p in s.polls && s.polls[p].Landed? && now <= s.polls[p].at + c.lag
    case Restart(_) => true
  }

  function Apply(s: State, c: Config, e: Event): State
    requires Enabled(s, c, e)
  {
    var t := s.(clock := e.now);
    match e
    case Arrive(id, now) => DoArrive(t, c, id, now)
    case Land(f, result, now) => Reported(t.(fetches := t.fetches[f := Landed(result, now)]), result, now)
    case Clear(f, now) =>
      t.(fetches := t.fetches[f := Done(t.fetches[f].result, t.fetches[f].at)], inFlight := None)
    case Resume(id, now) => DoResume(t, c, id, now)
    case Tick(_) => DoTick(t)
    case PollLand(p, result, now) => Reported(t.(polls := t.polls[p := Landed(result, now)]), result, now)
    case PollResume(p, now) => DoPollResume(t, p, now)
    case Restart(_) =>
      t.(fetches := map[], inFlight := None, waiters := map[], polls := map[], polling := false)
  }

  predicate CanRun(s: State, c: Config, es: seq<Event>)
    decreases es
  {
    es != [] ==> Enabled(s, c, es[0]) && CanRun(Apply(s, c, es[0]), c, es[1..])
  }

  function Run(s: State, c: Config, es: seq<Event>): State
    requires CanRun(s, c, es)
    decreases es
  {
    if es == [] then s else Run(Apply(s, c, es[0]), c, es[1..])
  }

  /** Nothing cached, nothing under way. */
  function Init(now: int): State {
    State(now, None, map[], 0, None, map[], map[], 0, false, [], [])
  }

  // ---- one fetch of each kind ------------------------------------------------------------------------

  predicate FetchGuarded(s: State, f: nat) {
    f in s.fetches ==> f < s.nextFetch && (s.fetches[f].Done? || s.inFlight == Some(f))
  }

  predicate PollGuarded(s: State, p: nat) {
    p in s.polls ==> p < s.nextPoll && (s.polls[p].Done? || (s.polling && p == s.nextPoll - 1))
  }

  /** A guard is up only while the call it guards is under way. */
  predicate GuardsDrop(s: State) {
    && (s.inFlight.Some? ==> s.inFlight.value in s.fetches && !s.fetches[s.inFlight.value].Done?)
    && (s.polling ==> s.nextPoll > 0 && s.nextPoll - 1 in s.polls && !s.polls[s.nextPoll - 1].Done?)
  }

  ghost predicate Guarded(s: State) {
    (forall f: nat :: FetchGuarded(s, f)) && (forall p: nat :: PollGuarded(s, p)) && GuardsDrop(s)
  }

  // ---- where a balance comes from ---------------------------------------------------------------------

  /** The provider reported `v`, and at `w` that report was no older than the lag. */
  ghost predicate Backed(reports: seq<Report>, v: real, w: int, lag: nat) {
    exists r | r in reports :: r.spendable == v && r.at <= w <= r.at + lag
  }

  function Max(a: int, b: int): int {
    if a >= b then a else b
  }

  /** A report that settled after the read, or not too long before it, and calls for the answer. */
  predicate Recent(r: Report, c: Config, a: Answer) {
    Judge(r.spendable, c.threshold) == a.reply && (r.at >= a.readAt || a.readAt - r.at < Max(c.stale, 1) + c.lag)
  }

  ghost predicate Justified(a: Answer, c: Config, reports: seq<Report>) {
    a.reply != Unknown ==> exists r | r in reports :: Recent(r, c, a)
  }

  predicate Sourced(f: Fetch, reports: seq<Report>, clock: int) {
    f.Flying? || (f.at <= clock && (f.result.Some? ==> Report(f.result.value, f.at) in reports))
  }

  predicate WaiterInTime(s: State, id: nat) {
    id in s.waiters ==> s.waiters[id].readAt <= s.clock
  }

  predicate FetchSourced(s: State, f: nat) {
    f in s.fetches ==> Sourced(s.fetches[f], s.reports, s.clock)
  }

  predicate PollSourced(s: State, p: nat) {
    p in s.polls ==> Sourced(s.polls[p], s.reports, s.clock)
  }

  ghost predicate Sources(s: State, c: Config) {
    && (s.cache.Some? ==> Backed(s.reports, s.cache.value.spendable, s.cache.value.syncedAt, c.lag))
    && (forall f: nat :: FetchSourced(s, f))
    && (forall p: nat :: PollSourced(s, p))
    && (forall id: nat :: WaiterInTime(s, id))
    && (forall a | a in s.answers :: Justified(a, c, s.reports))
  }

  ghost predicate Inv(s: State, c: Config) {
    Guarded(s) && Sources(s, c)
  }

  lemma FetchesGuarded(s: State, c: Config, e: Event, s': State)
    requires Guarded(s) && Enabled(s, c, e) && s' == Apply(s, c, e)
    ensures forall f: nat :: FetchGuarded(s', f)
  {
    forall f: nat ensures FetchGuarded(s', f) {
      assert FetchGuarded(s, f);
      if e.Clear? {
        assert FetchGuarded(s, e.fetch);
      }
    }
  }

  lemma PollsGuarded(s: State, c: Config, e: Event, s': State)
    requires Guarded(s) && Enabled(s, c, e) && s' == Apply(s, c, e)
    ensures forall p: nat :: PollGuarded(s', p)
  {
    forall p: nat ensures PollGuarded(s', p) {
      assert PollGuarded(s, p);
      if e.PollResume? {
        assert PollGuarded(s, e.poll);
      }
    }
  }

  lemma GuardsStillDrop(s: State, c: Config, e: Event, s': State)
    requires Guarded(s) && Enabled(s, c, e) && s' == Apply(s, c, e)
    ensures GuardsDrop(s')
  {
    if e.Clear? {
      assert FetchGuarded(s, e.fetch);
    }
    if e.PollResume? {
      assert PollGuarded(s, e.poll);
    }
  }

  /** More reports keep everything backed. */
  lemma MoreReports(s: State, c: Config, s': State, more: seq<Report>)
    requires Sources(s, c) && s' == s.(reports := s.reports + more)
    ensures Sources(s', c)
  {
    assert forall r | r in s.reports :: r in s'.reports;
    forall f: nat ensures FetchSourced(s', f) {
      assert FetchSourced(s, f);
    }
    forall p: nat ensures PollSourced(s', p) {
      assert PollSourced(s, p);
    }
    forall id: nat ensures WaiterInTime(s', id) {
      assert WaiterInTime(s, id);
    }
    forall a | a in s'.answers ensures Justified(a, c, s'.reports) {
      assert Justified(a, c, s.reports);
      if a.reply != Unknown {
        var r :| r in s.reports && Recent(r, c, a);
        assert r in s'.reports;
      }
    }
  }

  /** An answer from a balance that was backed when it was stamped. */
  lemma JustifiedByBacking(a: Answer, c: Config, reports: seq<Report>, v: real, w: int)
    requires Backed(reports, v, w, c.lag) && a.reply == Judge(v, c.threshold)
    requires a.readAt <= w || a.readAt - w < c.stale
    ensures Justified(a, c, reports)
  {
    var r :| r in reports && r.spendable == v && r.at <= w <= r.at + c.lag;
    assert Recent(r, c, a);
  }

  lemma AnsweredSourced(s: State, c: Config, readAt: int, reply: Reply, s': State)
    requires Sources(s, c) && s' == Answered(s, readAt, reply) && Justified(Answer(readAt, reply), c, s.reports)
    ensures Sources(s', c)
  {
    forall f: nat ensures FetchSourced(s', f) {
      assert FetchSourced(s, f);
    }
    forall p: nat ensures PollSourced(s', p) {
      assert PollSourced(s, p);
    }
    forall id: nat ensures WaiterInTime(s', id) {
      assert WaiterInTime(s, id);
    }
    forall a | a in s'.answers ensures Justified(a, c, s'.reports) {
      assert a in s.answers ==> Justified(a, c, s.reports);
    }
  }

  /** A step that touches neither the cache, nor the reports, nor the answers. */
  lemma QuietSourced(s: State, c: Config, s': State)
    requires Sources(s, c)
    requires s'.cache == s.cache && s'.reports == s.reports && s'.answers == s.answers
    requires forall f: nat :: FetchSourced(s', f)
    requires forall p: nat :: PollSourced(s', p)
    requires forall id: nat :: WaiterInTime(s', id)
    ensures Sources(s', c)
  {
    assert forall a | a in s.answers :: Justified(a, c, s.reports);
  }

  lemma ClockSourced(s: State, c: Config, now: int, s': State)
    requires Sources(s, c) && s.clock <= now && s' == s.(clock := now)
    ensures Sources(s', c)
  {
    forall f: nat ensures FetchSourced(s', f) {
      assert FetchSourced(s, f);
    }
    forall p: nat ensures PollSourced(s', p) {
      assert PollSourced(s, p);
    }
    forall id: nat ensures WaiterInTime(s', id) {
      assert WaiterInTime(s, id);
    }
    QuietSourced(s, c, s');
  }

  lemma ArriveSourced(s: State, c: Config, id: nat, s': State)
    requires Sources(s, c) && s' == DoArrive(s, c, id, s.clock)
    ensures Sources(s', c)
  {
    if s.cache.Some? && Fresh(s.cache.value, c.stale, s.clock) {
      var a := Answer(s.clock, Judge(s.cache.value.spendable, c.threshold));
      JustifiedByBacking(a, c, s.reports, s.cache.value.spendable, s.cache.value.syncedAt);
      AnsweredSourced(s, c, a.readAt, a.reply, s');
    } else if !c.wired {
      AnsweredSourced(s, c, s.clock, Unknown, s');
    } else {
      forall f: nat ensures FetchSourced(s', f) {
        assert FetchSourced(s, f);
      }
      forall p: nat ensures PollSourced(s', p) {
        assert PollSourced(s, p);
      }
      forall other: nat ensures WaiterInTime(s', other) {
        assert WaiterInTime(s, other);
      }
      QuietSourced(s, c, s');
    }
  }

  lemma CachedSourced(s: State, c: Config, v: real, at: int, s': State)
    requires Sources(s, c) && s' == s.(cache := Some(TripoBalance(v, s.clock)))
    requires Report(v, at) in s.reports && at <= s.clock <= at + c.lag
    ensures Sources(s', c) && Backed(s'.reports, v, s.clock, c.lag)
  {
    forall f: nat ensures FetchSourced(s', f) {
      assert FetchSourced(s, f);
    }
    forall p: nat ensures PollSourced(s', p) {
      assert PollSourced(s, p);
    }
    forall id: nat ensures WaiterInTime(s', id) {
      assert WaiterInTime(s, id);
    }
    assert forall a | a in s.answers :: Justified(a, c, s.reports);
  }

  lemma ReportedSourced(s: State, c: Config, result: Option<real>, s': State)
    requires Sources(s, c) && s' == Reported(s, result, s.clock)
    ensures Sources(s', c) && (result.Some? ==> Report(result.value, s.clock) in s'.reports)
  {
    if result.Some? {
      MoreReports(s, c, s', [Report(result.value, s.clock)]);
    }
  }

  /** The fetches and polls after one of them moved on. */
  lemma MovedSourced(s: State, c: Config, s': State)
    requires Sources(s, c) && s'.clock == s.clock
    requires s'.cache == s.cache && s'.reports == s.reports && s'.answers == s.answers
    requires forall f | f in s'.fetches ::
        Sourced(s'.fetches[f], s.reports, s.clock) || (f in s.fetches && s'.fetches[f] == s.fetches[f])
    requires forall p | p in s'.polls ::
        Sourced(s'.polls[p], s.reports, s.clock) || (p in s.polls && s'.polls[p] == s.polls[p])
    requires forall id | id in s'.waiters :: id in s.waiters && s'.waiters[id] == s.waiters[id]
    ensures Sources(s', c)
  {
    forall f: nat ensures FetchSourced(s', f) {
      assert FetchSourced(s, f);
    }
    forall p: nat ensures PollSourced(s', p) {
      assert PollSourced(s, p);
    }
    forall id: nat ensures WaiterInTime(s', id) {
      assert WaiterInTime(s, id);
    }
    QuietSourced(s, c, s');
  }

  lemma ResumeSourced(s: State, c: Config, id: nat, s': State)
    requires Sources(s, c) && Enabled(s, c, Resume(id, s.clock)) && s' == DoResume(s, c, id, s.clock)
    ensures Sources(s', c)
  {
    var w := s.waiters[id];
    var f := s.fetches[w.fetch];
    var s1 := s.(waiters := s.waiters - {id});
    assert FetchSourced(s, w.fetch) && WaiterInTime(s, id);
    MovedSourced(s, c, s1);
    match f.result
    case None => AnsweredSourced(s1, c, w.readAt, Unknown, s');
    case Some(v) =>
      var s2 := s1.(cache := Some(TripoBalance(v, s.clock)));
      CachedSourced(s1, c, v, f.at, s2);
      JustifiedByBacking(Answer(w.readAt, Judge(v, c.threshold)), c, s2.reports, v, s.clock);
      AnsweredSourced(s2, c, w.readAt, Judge(v, c.threshold), s');
  }

  lemma PollResumeSourced(s: State, c: Config, poll: nat, s': State)
    requires Sources(s, c) && Enabled(s, c, PollResume(poll, s.clock)) && s' == DoPollResume(s, poll, s.clock)
    ensures Sources(s', c)
  {
    var f := s.polls[poll];
    var s1 := s.(polls := s.polls[poll := Done(f.result, f.at)], polling := false);
    assert PollSourced(s, poll);
    MovedSourced(s, c, s1);
    if f.result.Some? {
      CachedSourced(s1, c, f.result.value, f.at, s');
    }
  }

  lemma SourcedApply(s: State, c: Config, e: Event, s': State)
    requires Sources(s, c) && Enabled(s, c, e) && s' == Apply(s, c, e)
    ensures Sources(s', c)
  {
    var t := s.(clock := e.now);
    ClockSourced(s, c, e.now, t);
    match e
    case Arrive(id, _) => ArriveSourced(t, c, id, s');
    case Land(f, result, now) => LandSourced(t, c, f, result, s');
    case Clear(f, _) =>
      assert FetchSourced(t, f);
      MovedSourced(t, c, s');
    case Resume(id, _) => ResumeSourced(t, c, id, s');
    case Tick(_) => MovedSourced(t, c, s');
    case PollLand(p, result, now) => PollLandSourced(t, c, p, result, s');
    case PollResume(p, _) => PollResumeSourced(t, c, p, s');
    case Restart(_) => MovedSourced(t, c, s');
  }

  lemma LandSourced(s: State, c: Config, f: nat, result: Option<real>, s': State)
    requires Sources(s, c) && f in s.fetches
    requires s' == Reported(s.(fetches := s.fetches[f := Landed(result, s.clock)]), result, s.clock)
    ensures Sources(s', c)
  {
    var r := Reported(s, result, s.clock);
    ReportedSourced(s, c, result, r);
    MovedSourced(r, c, s');
  }

  lemma PollLandSourced(s: State, c: Config, p: nat, result: Option<real>, s': State)
    requires Sources(s, c) && p in s.polls
    requires s' == Reported(s.(polls := s.polls[p := Landed(result, s.clock)]), result, s.clock)
    ensures Sources(s', c)
  {
    var r := Reported(s, result, s.clock);
    ReportedSourced(s, c, result, r);
    MovedSourced(r, c, s');
  }

  lemma StepKeepsInv(s: State, c: Config, e: Event, s': State)
    requires Inv(s, c) && Enabled(s, c, e) && s' == Apply(s, c, e)
    ensures Inv(s', c)
  {
    FetchesGuarded(s, c, e, s');
    PollsGuarded(s, c, e, s');
    GuardsStillDrop(s, c, e, s');
    SourcedApply(s, c, e, s');
  }

  lemma {:induction false} RunKeepsInv(s: State, c: Config, es: seq<Event>)
    requires Inv(s, c) && CanRun(s, c, es)
    ensures Inv(Run(s, c, es), c)
    decreases es
  {
    if es != [] {
      StepKeepsInv(s, c, es[0], Apply(s, c, es[0]));
      RunKeepsInv(Apply(s, c, es[0]), c, es[1..]);
    }
  }

  lemma InitInv(now: int, c: Config)
    ensures Inv(Init(now), c)
  {
    var s := Init(now);
    assert forall f: nat :: FetchGuarded(s, f) && FetchSourced(s, f);
    assert forall p: nat :: PollGuarded(s, p) && PollSourced(s, p);
    assert forall id: nat :: WaiterInTime(s, id);
  }

  // ---- the guarantees -------------------------------------------------------------------------------

  /** Under every interleaving of requests, ticks, settlements, continuations and restarts, at most
      one live fetch and one poll are outstanding; and no guard outlasts the call it guards, so no
      request ever joins a finished fetch. */
  lemma OneFetchEach(now: int, c: Config, es: seq<Event>, a: nat, b: nat)
    requires CanRun(Init(now), c, es)
    ensures var s := Run(Init(now), c, es);
            && (a in s.fetches && b in s.fetches && s.fetches[a].Flying? && s.fetches[b].Flying? ==> a == b)
            && (a in s.polls && b in s.polls && s.polls[a].Flying? && s.polls[b].Flying? ==> a == b)
            && (s.inFlight.Some? ==> s.inFlight.value in s.fetches && !s.fetches[s.inFlight.value].Done?)
            && (s.polling ==> exists p :: p in s.polls && !s.polls[p].Done?)
  {
    var s := Run(Init(now), c, es);
    InitInv(now, c);
    RunKeepsInv(Init(now), c, es);
    assert FetchGuarded(s, a) && FetchGuarded(s, b) && PollGuarded(s, a) && PollGuarded(s, b);
    assert s.polling ==> s.nextPoll - 1 in s.polls;
  }

  /** A request is told there is credit, or too little, only on a report that says so and settled
      after the request read the cache, or less than the staleness window plus the lag before. */
  lemma AnswersAreBacked(now: int, c: Config, es: seq<Event>, a: Answer)
    requires CanRun(Init(now), c, es) && a in Run(Init(now), c, es).answers && a.reply != Unknown
    ensures exists r | r in Run(Init(now), c, es).reports ::
              && (a.reply == Available <==> r.spendable >= c.threshold)
              && (r.at >= a.readAt || a.readAt - r.at < Max(c.stale, 1) + c.lag)
  {
    InitInv(now, c);
    RunKeepsInv(Init(now), c, es);
    assert Justified(a, c, Run(Init(now), c, es).reports);
    var r :| r in Run(Init(now), c, es).reports && Recent(r, c, a);
  }

  /** Every `available` rests on a report of enough credit within the staleness window alone. */
  ghost predicate WithinWindow(s: State, c: Config) {
    forall a | a in s.answers && a.reply == Available ::
      exists r | r in s.reports :: r.spendable >= c.threshold && (r.at >= a.readAt || a.readAt - r.at < c.stale)
  }

  /** A poll settles at 0 and is written `lag` later; a request reads the row just before it is
      stale. */
  function LateRun(c: Config): seq<Event> {
    [Tick(0), PollLand(0, Some(c.threshold), 0), PollResume(0, c.lag), Arrive(0, c.lag + c.stale - 1)]
  }

  lemma LateRunAnswers(c: Config)
    requires c.stale >= 1
    ensures CanRun(Init(0), c, LateRun(c))
    ensures Run(Init(0), c, LateRun(c)).answers == [Answer(c.lag + c.stale - 1, Available)]
    ensures Run(Init(0), c, LateRun(c)).reports == [Report(c.threshold, 0)]
  {
    var es := LateRun(c);
    var s1 := Apply(Init(0), c, es[0]);
    var s2 := Apply(s1, c, es[1]);
    var s3 := Apply(s2, c, es[2]);
    assert s3.cache == Some(TripoBalance(c.threshold, c.lag));
    var s4 := Apply(s3, c, es[3]);
    assert CanRun(s4, c, []) && Run(s4, c, []) == s4;
    assert CanRun(s3, c, [es[3]]) && Run(s3, c, [es[3]]) == s4;
    assert [es[2], es[3]][1..] == [es[3]];
    assert CanRun(s2, c, [es[2], es[3]]) && Run(s2, c, [es[2], es[3]]) == s4;
    assert es[1..][1..] == [es[2], es[3]];
    assert CanRun(s1, c, es[1..]) && Run(s1, c, es[1..]) == s4;
  }

  /** The row is stamped when it is written, not when the balance was reported: the staleness window
      is kept in every run exactly when continuations are immediate. */
  lemma WindowHoldsIff(c: Config)
    requires c.stale >= 1
    ensures (forall now: int, es: seq<Event> | CanRun(Init(now), c, es) :: WithinWindow(Run(Init(now), c, es), c))
       <==> c.lag == 0
  {
    if c.lag == 0 {
      forall now: int, es: seq<Event> | CanRun(Init(now), c, es) ensures WithinWindow(Run(Init(now), c, es), c) {
        var s := Run(Init(now), c, es);
        forall a | a in s.answers && a.reply == Available
          ensures exists r | r in s.reports ::
                    r.spendable >= c.threshold && (r.at >= a.readAt || a.readAt - r.at < c.stale)
        {
          AnswersAreBacked(now, c, es, a);
        }
      }
    } else {
      LateRunAnswers(c);
      var s := Run(Init(0), c, LateRun(c));
      assert s.answers[0] in s.answers;
      assert !WithinWindow(s, c);
    }
  }

  // ---- every request is answered by what it found ------------------------------------------------------

  /** A row younger than the staleness window answers at once; without one, an unwired service does not
      know, and a wired one makes the request wait for a fetch that is not over. */
  lemma ArrivalReads(s: State, c: Config, id: nat, now: int)
    requires Inv(s, c) && Enabled(s, c, Arrive(id, now))
    ensures var s' := Apply(s, c, Arrive(id, now));
            var young := s.cache.Some? && now - s.cache.value.syncedAt < c.stale;
            && (young && s.cache.value.spendable >= c.threshold ==> s'.answers == s.answers + [Answer(now, Available)])
            && (young && s.cache.value.spendable < c.threshold ==>
                  s'.answers == s.answers + [Answer(now, Insufficient)])
            && (!young && !c.wired ==> s'.answers == s.answers + [Answer(now, Unknown)])
            && (young || !c.wired ==> s'.waiters == s.waiters && s'.fetches == s.fetches)
            && (!young && c.wired ==>
                  && s'.answers == s.answers
                  && id in s'.waiters && s'.waiters[id].readAt == now
                  && s'.waiters[id].fetch in s'.fetches && !s'.fetches[s'.waiters[id].fetch].Done?)
            && s'.cache == s.cache && s'.polls == s.polls
  {
  }

  /** The run neither restarts nor takes request `id` on. */
  predicate Leaves(es: seq<Event>, id: nat) {
    forall e | e in es :: !e.Restart? && (e.Resume? ==> e.id != id)
  }

  predicate LandedWith(s: State, f: nat, result: Option<real>) {
    f in s.fetches && !s.fetches[f].Flying? && s.fetches[f].result == result
  }

  lemma LandedStep(s: State, c: Config, e: Event, f: nat, result: Option<real>, id: nat, s': State)
    requires Inv(s, c) && Enabled(s, c, e) && s' == Apply(s, c, e) && LandedWith(s, f, result) && id in s.waiters
    requires !e.Restart? && (e.Resume? ==> e.id != id)
    ensures LandedWith(s', f, result) && id in s'.waiters && s'.waiters[id] == s.waiters[id]
  {
    assert FetchGuarded(s, f);
  }

  lemma {:induction false} LandedStays(s: State, c: Config, es: seq<Event>, f: nat, result: Option<real>, id: nat)
    requires Inv(s, c) && CanRun(s, c, es) && Leaves(es, id) && LandedWith(s, f, result) && id in s.waiters
    ensures var end := Run(s, c, es);
            LandedWith(end, f, result) && id in end.waiters && end.waiters[id] == s.waiters[id]
    decreases es
  {
    if es != [] {
      assert es[0] in es;
      LandedStep(s, c, es[0], f, result, id, Apply(s, c, es[0]));
      StepKeepsInv(s, c, es[0], Apply(s, c, es[0]));
      LandedStays(Apply(s, c, es[0]), c, es[1..], f, result, id);
    }
  }

  /** A request that waits is answered by the result of its fetch, whatever else runs before it goes on:
      enough credit, too little, or, when the fetch failed, unknown; and a result goes into the row. */
  lemma {:induction false} LandedIsAnswered(s: State, c: Config, id: nat, result: Option<real>, at: int, landed: State,
                                          es: seq<Event>, end: State, now: int)
    requires Inv(s, c) && id in s.waiters && Enabled(s, c, Land(s.waiters[id].fetch, result, at))
    requires landed == Apply(s, c, Land(s.waiters[id].fetch, result, at))
    requires CanRun(landed, c, es) && Leaves(es, id) && end == Run(landed, c, es)
    requires Enabled(end, c, Resume(id, now))
    ensures var s', readAt := Apply(end, c, Resume(id, now)), s.waiters[id].readAt;
            && (result.Some? && result.value >= c.threshold ==> s'.answers == end.answers + [Answer(readAt, Available)])
            && (result.Some? && result.value < c.threshold ==>
                  s'.answers == end.answers + [Answer(readAt, Insufficient)])
            && (result == None ==> s'.answers == end.answers + [Answer(readAt, Unknown)])
            && s'.cache == (if result.Some? then Some(TripoBalance(result.value, now)) else end.cache)
            && id !in s'.waiters
  {
    var land := Land(s.waiters[id].fetch, result, at);
    StepKeepsInv(s, c, land, landed);
    LandedStays(landed, c, es, land.fetch, result, id);
  }

  /** The same for the poller: the row takes a result with the clock of the write, and stays after a
      failure. */
  lemma PolledIsWritten(s: State, c: Config, poll: nat, now: int)
    requires Enabled(s, c, PollResume(poll, now))
    ensures var s', result := Apply(s, c, PollResume(poll, now)), s.polls[poll].result;
            && s'.cache == (if result.Some? then Some(TripoBalance(result.value, now)) else s.cache)
            && !s'.polling && s'.answers == s.answers && s'.waiters == s.waiters && s'.fetches == s.fetches
  {
  }

  /** A tick starts a poll exactly if none is under way; what a call brings waits for its continuation; and
      the end of a live fetch lifts the guard and lets its requests go on. */
  lemma StepsDo(s: State, c: Config, e: Event)
    requires Inv(s, c) && Enabled(s, c, e)
    ensures var s' := Apply(s, c, e);
            && s'.clock == e.now
            && (e.Tick? && s.polling ==> s' == s.(clock := e.now))
            && (e.Tick? && !s.polling ==>
                  s'.polling && s'.nextPoll == s.nextPoll + 1 && s'.polls == s.polls[s.nextPoll := Flying])
            && (e.Land? ==> s'.fetches == s.fetches[e.fetch := Landed(e.result, e.now)])
            && (e.PollLand? ==> s'.polls == s.polls[e.poll := Landed(e.result, e.now)])
            && ((e.Land? || e.PollLand?) && e.result.Some? ==>
                  s'.reports == s.reports + [Report(e.result.value, e.now)])
            && (e.Clear? ==>
                  && s'.inFlight == None && s'.waiters == s.waiters && s'.cache == s.cache
                  && s'.fetches == s.fetches[e.fetch := Done(s.fetches[e.fetch].result, s.fetches[e.fetch].at)])
  {
  }

  /** A restart forgets the requests, the fetch and the poll under way, but not the row. */
  lemma RestartForgets(s: State, c: Config, now: int)
    requires Enabled(s, c, Restart(now))
    ensures Apply(s, c, Restart(now))
         == Init(now).(cache := s.cache, nextFetch := s.nextFetch, nextPoll := s.nextPoll, reports := s.reports,
                       answers := s.answers)
  {
  }

  // ---- the service --------------------------------------------------------------------------------------

  /** The route and the poller over one store. */
  class Service {
    const config: Config
    const store: Store
    var clock: int
    var fetches: map<nat, Fetch>
    var nextFetch: nat
    var inFlight: Option<nat>
    var waiters: map<nat, Waiter>
    var polls: map<nat, Fetch>
    var nextPoll: nat
    var polling: bool
    var reports: seq<Report>
    var answers: seq<Answer>

    function Contents(): State
      reads this, store
    {
      State(clock, store.balance, fetches, nextFetch, inFlight, waiters, polls, nextPoll, polling, reports, answers)
    }

    constructor (config: Config, store: Store, now: int)
      ensures Contents() == Init(now).(cache := store.balance) && this.config == config && this.store == store
    {
      this.config, this.store, clock, fetches, nextFetch, inFlight := config, store, now, map[], 0, None;
      waiters, polls, nextPoll, polling, reports, answers := map[], map[], 0, false, [], [];
    }

    /** The request handler up to its first await. */
    method HandleRequest(id: nat, now: int)
      requires Enabled(Contents(), config, Arrive(id, now))
      modifies this
      ensures Contents() == Apply(old(Contents()), config, Arrive(id, now))
    {
      clock := now;
      var cached := store.balance;
      if cached.Some? && now - cached.value.syncedAt < config.stale {
        answers := answers + [Answer(now, Judge(cached.value.spendable, config.threshold))];
        return;
      }
      if !config.wired {
        answers := answers + [Answer(now, Unknown)];
        return;
      }
      var fetch := LiveFetch();
      waiters := waiters[id := Waiter(now, fetch)];
    }

    /** Join the fetch in flight, or start one. */
    method LiveFetch() returns (fetch: nat)
      modifies this`fetches, this`inFlight, this`nextFetch
      ensures fetch == if old(inFlight).Some? then old(inFlight).value else old(nextFetch)
      ensures inFlight == Some(fetch)
      ensures fetches == if old(inFlight).Some? then old(fetches) else old(fetches)[fetch := Flying]
      ensures nextFetch == if old(inFlight).Some? then old(nextFetch) else old(nextFetch) + 1
    {
      if inFlight.Some? {
        return inFlight.value;
      }
      fetch := nextFetch;
      fetches := fetches[fetch := Flying];
      inFlight := Some(fetch);
      nextFetch := nextFetch + 1;
    }

    /** The handler after its await. */
    method FinishRequest(id: nat, now: int)
      requires Enabled(Contents(), config, Resume(id, now))
      modifies this, store`balance
      ensures Contents() == Apply(old(Contents()), config, Resume(id, now))
    {
      clock := now;
      var w := waiters[id];
      var result := fetches[w.fetch].result;
      waiters := waiters - {id};
      if result.None? {
        answers := answers + [Answer(w.readAt, Unknown)];
        return;
      }
      store.SetTripoBalance(result.value, now);
      answers := answers + [Answer(w.readAt, Judge(result.value, config.threshold))];
    }

    /** The `finally` of the live fetch. */
    method LiftGuard(fetch: nat, now: int)
      requires Enabled(Contents(), config, Clear(fetch, now))
      modifies this
      ensures Contents() == Apply(old(Contents()), config, Clear(fetch, now))
    {
      clock := now;
      fetches := fetches[fetch := Done(fetches[fetch].result, fetches[fetch].at)];
      inFlight := None;
    }

    /** `pollOnce` up to its await. */
    method PollOnce(now: int)
      requires Enabled(Contents(), config, Tick(now))
      modifies this
      ensures Contents() == Apply(old(Contents()), config, Tick(now))
    {
      clock := now;
      if polling {
        return;
      }
      polling := true;
      polls := polls[nextPoll := Flying];
      nextPoll := nextPoll + 1;
    }

    /** `pollOnce` after its await. */
    method FinishPoll(poll: nat, now: int)
      requires Enabled(Contents(), config, PollResume(poll, now))
      modifies this, store`balance
      ensures Contents() == Apply(old(Contents()), config, PollResume(poll, now))
    {
      clock := now;
      var f := polls[poll];
      if f.result.Some? {
        store.SetTripoBalance(f.result.value, now);
      }
      polls := polls[poll := Done(f.result, f.at)];
      polling := false;
    }
  }
}
