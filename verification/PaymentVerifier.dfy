/** Payment verification of `backend/src/sui/paymentVerifier.ts`, the spent-digest table it
    shares with other instances and restarts, and the pay-gate of
    `backend/src/routes/generate.ts`. */
module PaymentVerifier {
  import opened QuotaStore
  import opened GenerateJobs
  import opened OrderedMap
  import opened Wrappers

  const SUI_COIN_TYPE := "0x2::sui::SUI"

  datatype BalanceChange = BalanceChange(owner: string, coinType: string, amount: int)

  datatype Timestamp = NoTimestamp | NotANumber | At(ms: real)

  /** What a fetched transaction says; absent strings are empty, an absent amount is zero. */
  datatype Tx = Tx(status: string, sender: string, timestamp: Timestamp, changes: seq<BalanceChange>)

  /** An unset operator is None, and an empty one counts as unset. */
  datatype Config = Config(treasury: string, operator: Option<string>, feeMist: nat, maxAgeMs: nat)

  datatype Reason =
    | Replayed | NotFoundOnChain | NotSuccessful | SenderMismatch | StalePayment | InsufficientOrWrongDestination

  datatype Verdict = Verified | Rejected(reason: Reason)

  function Lower(s: string): string {
    seq(|s|, i requires 0 <= i < |s| => if 'A' <= s[i] <= 'Z' then s[i] - 'A' + 'a' else s[i])
  }

  predicate Credits(cfg: Config, bc: BalanceChange) {
    bc.coinType == SUI_COIN_TYPE && Lower(bc.owner) == Lower(cfg.treasury) && bc.amount >= cfg.feeMist
  }

  predicate PaysFee(cfg: Config, tx: Tx) {
    exists i :: 0 <= i < |tx.changes| && Credits(cfg, tx.changes[i])
  }

  predicate TooOld(cfg: Config, tx: Tx, now: int) {
    tx.timestamp.At? && now as real - tx.timestamp.ms > cfg.maxAgeMs as real
  }

  predicate ByOperator(cfg: Config, tx: Tx) {
    cfg.operator.Some? && cfg.operator.value != "" && Lower(tx.sender) == Lower(cfg.operator.value)
  }

  /** What a fetched transaction is worth to `payer`: nothing wrong, or the first thing wrong. */
  function Fault(cfg: Config, tx: Tx, payer: string, now: int): Option<Reason> {
    if tx.status != "success" then Some(NotSuccessful)
    else if Lower(tx.sender) != Lower(payer) then Some(SenderMismatch)
    else if TooOld(cfg, tx, now) then Some(StalePayment)
    else if ByOperator(cfg, tx) then None
    else if !PaysFee(cfg, tx) then Some(InsufficientOrWrongDestination)
    else None
  }

  function Conclusion(cfg: Config, spent: set<string>, digest: string, tx: Tx, payer: string, now: int): Verdict {
    match Fault(cfg, tx, payer, now)
    case Some(reason) => Rejected(reason)
    case None => if digest in spent then Rejected(Replayed) else Verified
  }

  class Verifier {
    const config: Config
    const store: Store?
    var memSpent: set<string>

    constructor (config: Config, store: Store?)
      ensures this.config == config && this.store == store && memSpent == {}
    {
      this.config := config;
      this.store := store;
      memSpent := {};
    }

    /** The durable table when there is one, this instance's own set otherwise. */
    function Spent(): set<string>
      reads this, store
    {
      if store != null then store.spent.Keys else memSpent
    }

    method MarkSpent(digest: string, now: int) returns (inserted: bool)
      modifies this, store
      ensures inserted <==> digest !in old(Spent())
      ensures Spent() == old(Spent()) + {digest}
      ensures store != null ==> store.spent.Keys == old(store.spent.Keys) + {digest} && memSpent == old(memSpent)
      ensures store == null ==> memSpent == old(memSpent) + {digest}
    {
      if store != null {
        inserted := store.MarkPaymentSpent(digest, now);
        return;
      }
      if digest in memSpent {
        return false;
      }
      memSpent := memSpent + {digest};
      return true;
    }

    /** The check before the fetch. */
    method Begin(digest: string) returns (replayed: bool)
      ensures replayed <==> if store != null then digest in store.spent else digest in memSpent
    {
      if store != null {
        replayed := store.IsPaymentSpent(digest);
      } else {
        replayed := digest in memSpent;
      }
    }

    /** All that follows the fetch; it runs without an await, and marks last. */
    method Conclude(digest: string, payer: string, tx: Tx, now: int) returns (v: Verdict)
      modifies this, store
      ensures v == Conclusion(config, old(Spent()), digest, tx, payer, now)
      ensures Spent() == old(Spent()) + if v.Verified? then {digest} else {}
      ensures store != null ==> memSpent == old(memSpent) && Spent() == store.spent.Keys
      ensures store == null ==> Spent() == memSpent
    {
      if tx.status != "success" {
        return Rejected(NotSuccessful);
      }
      var sender := Lower(tx.sender);
      if sender != Lower(payer) {
        return Rejected(SenderMismatch);
      }
      if tx.timestamp.At? && now as real - tx.timestamp.ms > config.maxAgeMs as real {
        return Rejected(StalePayment);
      }
      if config.operator.Some? && config.operator.value != "" && sender == Lower(config.operator.value) {
        var first := MarkSpent(digest, now);
        return if first then Verified else Rejected(Replayed);
      }
      var i := 0;
      while i < |tx.changes| && !Credits(config, tx.changes[i])
        invariant 0 <= i <= |tx.changes|
        invariant forall j :: 0 <= j < i ==> !Credits(config, tx.changes[j])
      {
        i := i + 1;
      }
      if i == |tx.changes| {
        return Rejected(InsufficientOrWrongDestination);
      }
      var first := MarkSpent(digest, now);
      return if first then Verified else Rejected(Replayed);
    }
  }

  // ---- many verifications at once ---------------------------------------------------------

  datatype Request = Request(digest: string, payer: string)

  /** A verification that succeeded; `seq` of these is history, not program state. */
  datatype Grant = Grant(digest: string, payer: string, operator: bool)

  /** `waiting` requests await their fetch, `granted` ones are about to create their job. */
  datatype State = State(
    spent: set<string>,
    waiting: map<nat, Request>,
    granted: map<nat, Grant>,
    grants: seq<Grant>,
    jobs: seq<Grant>)

  datatype Event =
    | Start(id: nat, digest: string, payer: string)
    | FetchFailed(id: nat)
    | Fetched(id: nat, now: int)
    | CreateJobFor(id: nat)
    | Restart

  /** The chain never changes: a digest has one transaction. */
  type Chain = map<string, Tx>

  predicate Enabled(chain: Chain, s: State, e: Event) {
    match e
    case Start(id, _, _) => id !in s.waiting && id !in s.granted
    case FetchFailed(id) => id in s.waiting
    case Fetched(id, _) => id in s.waiting && s.waiting[id].digest in chain
    case CreateJobFor(id) => id in s.granted
    case Restart => true
  }

  function VerdictOf(cfg: Config, chain: Chain, s: State, e: Event): Verdict
    requires Enabled(chain, s, e) && e.Fetched?
  {
    var r := s.waiting[e.id];
    Conclusion(cfg, s.spent, r.digest, chain[r.digest], r.payer, e.now)
  }

  /** Every instance shares the table; a restart loses the requests under way. */
  function Apply(cfg: Config, chain: Chain, s: State, e: Event): State
    requires Enabled(chain, s, e)
  {
    match e
    case Start(id, digest, payer) =>
      if digest in s.spent then s else s.(waiting := s.waiting[id := Request(digest, payer)])
    case FetchFailed(id) => s.(waiting := s.waiting - {id})
    case Fetched(id, now) =>
      var r := s.waiting[id];
      if VerdictOf(cfg, chain, s, e).Verified? then
        var g := Grant(r.digest, r.payer, ByOperator(cfg, chain[r.digest]));
        State(s.spent + {r.digest}, s.waiting - {id}, s.granted[id := g], s.grants + [g], s.jobs)
      else s.(waiting := s.waiting - {id})
    case CreateJobFor(id) => s.(granted := s.granted - {id}, jobs := s.jobs + [s.granted[id]])
    case Restart => s.(waiting := map[], granted := map[])
  }

  /** A paid grant stands for a successful transaction of its payer that credits the treasury
      with at least the fee. */
  ghost predicate Honest(cfg: Config, chain: Chain, g: Grant) {
    && g.digest in chain
    && chain[g.digest].status == "success" && Lower(chain[g.digest].sender) == Lower(g.payer)
    && (g.operator == ByOperator(cfg, chain[g.digest]))
    && (!g.operator ==> PaysFee(cfg, chain[g.digest]))
  }

  function Digests(gs: seq<Grant>): set<string> {
    if gs == [] then {} else Digests(gs[..|gs| - 1]) + {gs[|gs| - 1].digest}
  }

  predicate DistinctDigests(gs: seq<Grant>) {
    gs == [] || (gs[|gs| - 1].digest !in Digests(gs[..|gs| - 1]) && DistinctDigests(gs[..|gs| - 1]))
  }

  function Paid(gs: seq<Grant>): seq<Grant> {
    if gs == [] then []
    else Paid(gs[..|gs| - 1]) + if gs[|gs| - 1].operator then [] else [gs[|gs| - 1]]
  }

  ghost predicate AllHonest(cfg: Config, chain: Chain, gs: seq<Grant>) {
    gs == [] || (Honest(cfg, chain, gs[|gs| - 1]) && AllHonest(cfg, chain, gs[..|gs| - 1]))
  }

  ghost predicate Inv(cfg: Config, chain: Chain, s: State) {
    && DistinctDigests(s.grants) && Digests(s.grants) <= s.spent && AllHonest(cfg, chain, s.grants)
    && DistinctDigests(s.jobs) && Digests(s.jobs) <= s.spent && AllHonest(cfg, chain, s.jobs)
    && (forall id :: id in s.granted ==> Ready(cfg, chain, s, id))
    && (forall i, j :: i in s.granted && j in s.granted && i != j ==> s.granted[i].digest != s.granted[j].digest)
  }

  ghost predicate Ready(cfg: Config, chain: Chain, s: State, id: nat)
    requires id in s.granted
  {
    var g := s.granted[id];
    Honest(cfg, chain, g) && g.digest in s.spent && g.digest !in Digests(s.jobs)
  }

  lemma {:induction false} SnocFacts(cfg: Config, chain: Chain, gs: seq<Grant>, g: Grant)
    ensures Digests(gs + [g]) == Digests(gs) + {g.digest}
    ensures DistinctDigests(gs + [g]) <==> DistinctDigests(gs) && g.digest !in Digests(gs)
    ensures AllHonest(cfg, chain, gs + [g]) <==> AllHonest(cfg, chain, gs) && Honest(cfg, chain, g)
  {
    assert (gs + [g])[..|gs|] == gs;
  }

  lemma {:induction false} FetchedKeepsInv(cfg: Config, chain: Chain, s: State, e: Event)
    requires Inv(cfg, chain, s) && Enabled(chain, s, e) && e.Fetched?
    ensures Inv(cfg, chain, Apply(cfg, chain, s, e))
  {
    var s' := Apply(cfg, chain, s, e);
    if VerdictOf(cfg, chain, s, e).Verified? {
      SnocFacts(cfg, chain, s.grants, s'.granted[e.id]);
      forall id | id in s'.granted ensures Ready(cfg, chain, s', id) {
        if id != e.id { assert Ready(cfg, chain, s, id); }
      }
      forall id | id in s.granted ensures s.granted[id].digest in s.spent { assert Ready(cfg, chain, s, id); }
    } else {
      forall id | id in s'.granted ensures Ready(cfg, chain, s', id) { assert Ready(cfg, chain, s, id); }
    }
  }

  lemma {:induction false} JobKeepsInv(cfg: Config, chain: Chain, s: State, e: Event)
    requires Inv(cfg, chain, s) && Enabled(chain, s, e) && e.CreateJobFor?
    ensures Inv(cfg, chain, Apply(cfg, chain, s, e))
  {
    var s' := Apply(cfg, chain, s, e);
    assert Ready(cfg, chain, s, e.id);
    SnocFacts(cfg, chain, s.jobs, s.granted[e.id]);
    forall id | id in s'.granted ensures Ready(cfg, chain, s', id) { assert Ready(cfg, chain, s, id); }
  }

  lemma {:induction false} ApplyKeepsInv(cfg: Config, chain: Chain, s: State, e: Event)
    requires Inv(cfg, chain, s) && Enabled(chain, s, e)
    ensures Inv(cfg, chain, Apply(cfg, chain, s, e)) && s.spent <= Apply(cfg, chain, s, e).spent
  {
    match e
    case Fetched(_, _) => FetchedKeepsInv(cfg, chain, s, e);
    case CreateJobFor(_) => JobKeepsInv(cfg, chain, s, e);
    case Start(_, _, _) => SameGranted(cfg, chain, s, Apply(cfg, chain, s, e));
    case FetchFailed(_) => SameGranted(cfg, chain, s, Apply(cfg, chain, s, e));
    case Restart =>
  }

  lemma {:induction false} SameGranted(cfg: Config, chain: Chain, s: State, s': State)
    requires Inv(cfg, chain, s) && s' == s.(waiting := s'.waiting)
    ensures Inv(cfg, chain, s')
  {
    forall id | id in s'.granted ensures Ready(cfg, chain, s', id) { assert Ready(cfg, chain, s, id); }
  }

  predicate Possible(cfg: Config, chain: Chain, s: State, es: seq<Event>)
    decreases es
  {
    es == [] || (Enabled(chain, s, es[0]) && Possible(cfg, chain, Apply(cfg, chain, s, es[0]), es[1..]))
  }

  function Run(cfg: Config, chain: Chain, s: State, es: seq<Event>): State
    requires Possible(cfg, chain, s, es)
    decreases es
  {
    if es == [] then s else Run(cfg, chain, Apply(cfg, chain, s, es[0]), es[1..])
  }

  lemma {:induction false} RunKeepsInv(cfg: Config, chain: Chain, s: State, es: seq<Event>)
    requires Inv(cfg, chain, s) && Possible(cfg, chain, s, es)
    ensures Inv(cfg, chain, Run(cfg, chain, s, es)) && s.spent <= Run(cfg, chain, s, es).spent
    decreases es
  {
    if es != [] {
      ApplyKeepsInv(cfg, chain, s, es[0]);
      RunKeepsInv(cfg, chain, Apply(cfg, chain, s, es[0]), es[1..]);
    }
  }

  // ---- what the store guarantees ------------------------------------------------------------

  /** The same letter, or the same letter of the other case. */
  predicate SameLetter(a: char, b: char) {
    || a == b
    || ('A' <= a <= 'Z' && b as int == a as int + 32)
    || ('A' <= b <= 'Z' && a as int == b as int + 32)
  }

  predicate SameAddress(a: string, b: string) {
    |a| == |b| && forall i | 0 <= i < |a| :: SameLetter(a[i], b[i])
  }

  /** Addresses are compared without regard to case. */
  lemma LowerIff(a: string, b: string)
    ensures Lower(a) == Lower(b) <==> SameAddress(a, b)
  {
    if Lower(a) == Lower(b) {
      forall i | 0 <= i < |a| ensures SameLetter(a[i], b[i]) {
        assert Lower(a)[i] == Lower(b)[i];
      }
    }
  }

  /** The transaction credits the treasury with the fee, in SUI. */
  predicate Pays(cfg: Config, tx: Tx) {
    exists i | 0 <= i < |tx.changes| ::
      && tx.changes[i].coinType == "0x2::sui::SUI"
      && SameAddress(tx.changes[i].owner, cfg.treasury)
      && tx.changes[i].amount >= cfg.feeMist
  }

  predicate SentByOperator(cfg: Config, tx: Tx) {
    cfg.operator.Some? && cfg.operator.value != "" && SameAddress(tx.sender, cfg.operator.value)
  }

  lemma PaysIff(cfg: Config, tx: Tx)
    ensures PaysFee(cfg, tx) <==> Pays(cfg, tx)
    ensures ByOperator(cfg, tx) <==> SentByOperator(cfg, tx)
  {
    forall i | 0 <= i < |tx.changes|
      ensures Credits(cfg, tx.changes[i]) <==>
              && tx.changes[i].coinType == "0x2::sui::SUI"
              && SameAddress(tx.changes[i].owner, cfg.treasury)
              && tx.changes[i].amount >= cfg.feeMist
    {
      LowerIff(tx.changes[i].owner, cfg.treasury);
    }
    LowerIff(tx.sender, if cfg.operator.Some? then cfg.operator.value else "");
  }

  /** A verification of a fetched transaction succeeds exactly when the transaction succeeded, was sent
      by the payer, is not older than the window if it has a time, was sent by the operator or credits
      the treasury with the fee, and its digest is not marked. */
  lemma VerifiedIff(cfg: Config, chain: Chain, s: State, e: Event)
    requires Enabled(chain, s, e) && e.Fetched?
    ensures var r := s.waiting[e.id];
            var tx := chain[r.digest];
            VerdictOf(cfg, chain, s, e).Verified?
            <==> && r.digest !in s.spent
                 && tx.status == "success"
                 && SameAddress(tx.sender, r.payer)
                 && (tx.timestamp.At? ==> e.now as real <= tx.timestamp.ms + cfg.maxAgeMs as real)
                 && (SentByOperator(cfg, tx)
                     || exists i | 0 <= i < |tx.changes| ::
                          && tx.changes[i].coinType == "0x2::sui::SUI"
                          && SameAddress(tx.changes[i].owner, cfg.treasury)
                          && tx.changes[i].amount >= cfg.feeMist)
  {
    var r := s.waiting[e.id];
    LowerIff(chain[r.digest].sender, r.payer);
    PaysIff(cfg, chain[r.digest]);
  }

  /** The reasons of a refusal come in this order: each is given exactly when it holds and none of
      those before it does. */
  lemma RefusedWith(cfg: Config, spent: set<string>, digest: string, tx: Tx, payer: string, now: int)
    ensures var v := Conclusion(cfg, spent, digest, tx, payer, now);
            var failed, foreign := tx.status != "success", !SameAddress(tx.sender, payer);
            var stale := tx.timestamp.At? && now as real > tx.timestamp.ms + cfg.maxAgeMs as real;
            var unpaid := !SentByOperator(cfg, tx) && !Pays(cfg, tx);
            && (v == Rejected(NotSuccessful) <==> failed)
            && (v == Rejected(SenderMismatch) <==> !failed && foreign)
            && (v == Rejected(StalePayment) <==> !failed && !foreign && stale)
            && (v == Rejected(InsufficientOrWrongDestination) <==> !failed && !foreign && !stale && unpaid)
            && (v == Rejected(Replayed) <==> !failed && !foreign && !stale && !unpaid && digest in spent)
            && v != Rejected(NotFoundOnChain)
  {
    LowerIff(tx.sender, payer);
    PaysIff(cfg, tx);
  }

  lemma VerifiedMarks(cfg: Config, chain: Chain, s: State, e: Event)
    requires Enabled(chain, s, e) && e.Fetched? && VerdictOf(cfg, chain, s, e).Verified?
    ensures s.waiting[e.id].digest in Apply(cfg, chain, s, e).spent
  {}

  lemma MarkedIsRejected(cfg: Config, chain: Chain, s: State, e: Event)
    requires Enabled(chain, s, e) && e.Fetched? && s.waiting[e.id].digest in s.spent
    ensures VerdictOf(cfg, chain, s, e).Rejected?
  {}

  lemma SpentGrows(cfg: Config, chain: Chain, s: State, e: Event)
    requires Enabled(chain, s, e)
    ensures s.spent <= Apply(cfg, chain, s, e).spent
  {}

  lemma {:induction false} SpentStays(cfg: Config, chain: Chain, s: State, es: seq<Event>, digest: string)
    requires Possible(cfg, chain, s, es) && digest in s.spent
    ensures digest in Run(cfg, chain, s, es).spent
    decreases es
  {
    if es != [] {
      SpentGrows(cfg, chain, s, es[0]);
      SpentStays(cfg, chain, Apply(cfg, chain, s, es[0]), es[1..], digest);
    }
  }

  /** The first verification to reach the mark wins: whatever happens after it succeeded, no
      other verification of the same digest succeeds. */
  lemma {:induction false} FirstMarkWins(cfg: Config, chain: Chain, s: State, e: Event, es: seq<Event>, end: State,
                                       later: Event)
    requires Enabled(chain, s, e) && e.Fetched? && VerdictOf(cfg, chain, s, e).Verified?
    requires Possible(cfg, chain, Apply(cfg, chain, s, e), es) && end == Run(cfg, chain, Apply(cfg, chain, s, e), es)
    requires Enabled(chain, end, later) && later.Fetched? && end.waiting[later.id].digest == s.waiting[e.id].digest
    ensures VerdictOf(cfg, chain, end, later).Rejected?
  {
    VerifiedMarks(cfg, chain, s, e);
    SpentStays(cfg, chain, Apply(cfg, chain, s, e), es, s.waiting[e.id].digest);
    MarkedIsRejected(cfg, chain, end, later);
  }

  lemma {:induction false} StepSpends(cfg: Config, chain: Chain, s: State, e: Event)
    requires Enabled(chain, s, e) && s.spent == Digests(s.grants)
    ensures Apply(cfg, chain, s, e).spent == Digests(Apply(cfg, chain, s, e).grants)
  {
    if e.Fetched? {
      var r := s.waiting[e.id];
      SnocFacts(cfg, chain, s.grants, Grant(r.digest, r.payer, ByOperator(cfg, chain[r.digest])));
    }
  }

  lemma {:induction false} RunSpends(cfg: Config, chain: Chain, s: State, es: seq<Event>)
    requires Possible(cfg, chain, s, es) && s.spent == Digests(s.grants)
    ensures Run(cfg, chain, s, es).spent == Digests(Run(cfg, chain, s, es).grants)
    decreases es
  {
    if es != [] {
      StepSpends(cfg, chain, s, es[0]);
      RunSpends(cfg, chain, Apply(cfg, chain, s, es[0]), es[1..]);
    }
  }

  /** In every run a digest is marked exactly when a verification of it succeeded: a refusal never
      uses a payment up, so the payer can try again. */
  lemma OnlySuccessSpends(cfg: Config, chain: Chain, es: seq<Event>, digest: string)
    requires Possible(cfg, chain, START, es)
    ensures var s := Run(cfg, chain, START, es);
            digest in s.spent <==> exists i :: 0 <= i < |s.grants| && s.grants[i].digest == digest
  {
    RunSpends(cfg, chain, START, es);
    DigestsAre(Run(cfg, chain, START, es).grants, digest);
  }

  lemma {:induction false} DigestsAre(gs: seq<Grant>, digest: string)
    ensures digest in Digests(gs) <==> exists i :: 0 <= i < |gs| && gs[i].digest == digest
  {
    if gs != [] {
      DigestsAre(gs[..|gs| - 1], digest);
    }
  }

  ghost function FeeTransactions(cfg: Config, chain: Chain, spent: set<string>): set<string> {
    set d | d in chain && d in spent && chain[d].status == "success" && Pays(cfg, chain[d])
  }

  lemma FeeTransactionsAre(cfg: Config, chain: Chain, spent: set<string>)
    ensures FeeTransactions(cfg, chain, spent)
         == set d | d in chain && d in spent && chain[d].status == "success" && PaysFee(cfg, chain[d])
  {
    forall d | d in chain ensures PaysFee(cfg, chain[d]) <==> Pays(cfg, chain[d]) {
      PaysIff(cfg, chain[d]);
    }
  }

  lemma {:induction false} PaidCard(cfg: Config, chain: Chain, gs: seq<Grant>)
    requires DistinctDigests(gs) && AllHonest(cfg, chain, gs)
    ensures |Digests(Paid(gs))| == |Paid(gs)| && Digests(Paid(gs)) <= Digests(gs)
    ensures forall d :: d in Digests(Paid(gs)) ==> d in chain && chain[d].status == "success" && PaysFee(cfg, chain[d])
  {
    if gs != [] {
      var n := |gs| - 1;
      PaidCard(cfg, chain, gs[..n]);
      if gs[n].operator {
        assert Paid(gs) == Paid(gs[..n]);
      } else {
        assert Paid(gs)[..|Paid(gs[..n])|] == Paid(gs[..n]);
      }
    }
  }

  lemma {:induction false} SubsetCard<T>(a: set<T>, b: set<T>)
    requires a <= b
    ensures |a| <= |b|
  {
    assert b == a + (b - a);
  }

  const START := State({}, map[], map[], [], [])

  /** In every run, with any number of instances and restarts: no digest is granted twice, and
      neither the grants nor the jobs of non-operators outnumber the distinct transactions
      that credited the treasury with at least the fee. */
  lemma {:induction false} FeesCoverJobs(cfg: Config, chain: Chain, es: seq<Event>)
    requires Possible(cfg, chain, START, es)
    ensures var s := Run(cfg, chain, START, es);
            && DistinctDigests(s.grants) && DistinctDigests(s.jobs)
            && |Paid(s.grants)| <= |FeeTransactions(cfg, chain, s.spent)|
            && |Paid(s.jobs)| <= |FeeTransactions(cfg, chain, s.spent)|
  {
    RunKeepsInv(cfg, chain, START, es);
    var s := Run(cfg, chain, START, es);
    PaidCard(cfg, chain, s.grants);
    PaidCard(cfg, chain, s.jobs);
    FeeTransactionsAre(cfg, chain, s.spent);
    SubsetCard(Digests(Paid(s.grants)), FeeTransactions(cfg, chain, s.spent));
    SubsetCard(Digests(Paid(s.jobs)), FeeTransactions(cfg, chain, s.spent));
  }

  lemma {:induction false} HonestAt(cfg: Config, chain: Chain, gs: seq<Grant>, i: nat)
    requires AllHonest(cfg, chain, gs) && i < |gs|
    ensures Honest(cfg, chain, gs[i])
  {
    if i < |gs| - 1 {
      HonestAt(cfg, chain, gs[..|gs| - 1], i);
    }
  }

  /** In every run each job stands for a successful transaction of its owner, sent by the operator or
      crediting the treasury with the fee. */
  lemma {:induction false} EveryJobIsPaid(cfg: Config, chain: Chain, es: seq<Event>, i: nat)
    requires Possible(cfg, chain, START, es) && i < |Run(cfg, chain, START, es).jobs|
    ensures var g := Run(cfg, chain, START, es).jobs[i];
            && g.digest in chain && chain[g.digest].status == "success"
            && SameAddress(chain[g.digest].sender, g.payer)
            && (g.operator <==> SentByOperator(cfg, chain[g.digest]))
            && (g.operator || Pays(cfg, chain[g.digest]))
  {
    RunKeepsInv(cfg, chain, START, es);
    var jobs := Run(cfg, chain, START, es).jobs;
    HonestAt(cfg, chain, jobs, i);
    LowerIff(chain[jobs[i].digest].sender, jobs[i].payer);
    PaysIff(cfg, chain[jobs[i].digest]);
  }

  /** The run does nothing to request `id`: no restart, and no event of that number. */
  predicate Elsewhere(es: seq<Event>, id: nat) {
    forall e | e in es :: !e.Restart? && e.id != id
  }

  lemma {:induction false} ElsewhereKeeps(cfg: Config, chain: Chain, s: State, es: seq<Event>, id: nat)
    requires Possible(cfg, chain, s, es) && Elsewhere(es, id)
    ensures var end := Run(cfg, chain, s, es);
            && (id in s.waiting ==> id in end.waiting && end.waiting[id] == s.waiting[id])
            && (id in s.granted ==> id in end.granted && end.granted[id] == s.granted[id])
    decreases es
  {
    if es != [] {
      assert es[0] in es;
      ElsewhereKeeps(cfg, chain, Apply(cfg, chain, s, es[0]), es[1..], id);
    }
  }

  /** A payment that is in order gets its job: started while its digest is unmarked, fetched while it
      still is, and then its job created, with any other requests in between. */
  lemma {:induction false} PaymentGetsItsJob(cfg: Config, chain: Chain, s: State, id: nat, digest: string,
                                           payer: string, first: seq<Event>, now: int, second: seq<Event>,
                                           waiting: State, granted: State)
    requires Enabled(chain, s, Start(id, digest, payer)) && digest !in s.spent && digest in chain
    requires var started := Apply(cfg, chain, s, Start(id, digest, payer));
             Possible(cfg, chain, started, first) && waiting == Run(cfg, chain, started, first)
    requires Elsewhere(first, id) && Elsewhere(second, id) && digest !in waiting.spent
    requires chain[digest].status == "success" && SameAddress(chain[digest].sender, payer)
    requires chain[digest].timestamp.At? ==> now as real <= chain[digest].timestamp.ms + cfg.maxAgeMs as real
    requires SentByOperator(cfg, chain[digest]) || Pays(cfg, chain[digest])
    requires Enabled(chain, waiting, Fetched(id, now)) ==>
               var fetched := Apply(cfg, chain, waiting, Fetched(id, now));
               Possible(cfg, chain, fetched, second) && granted == Run(cfg, chain, fetched, second)
    ensures Enabled(chain, waiting, Fetched(id, now)) && Enabled(chain, granted, CreateJobFor(id))
    ensures Apply(cfg, chain, granted, CreateJobFor(id)).jobs
         == granted.jobs + [Grant(digest, payer, SentByOperator(cfg, chain[digest]))]
  {
    var started := Apply(cfg, chain, s, Start(id, digest, payer));
    ElsewhereKeeps(cfg, chain, started, first, id);
    VerifiedIff(cfg, chain, waiting, Fetched(id, now));
    PaysIff(cfg, chain[digest]);
    ElsewhereKeeps(cfg, chain, Apply(cfg, chain, waiting, Fetched(id, now)), second, id);
  }

  /** A request waits for its fetch unless its digest is marked; it is over once its fetch has failed, its
      payment was refused, or its job was created; and a restart ends them all. */
  lemma RequestEnds(cfg: Config, chain: Chain, s: State, e: Event)
    requires Enabled(chain, s, e)
    requires forall id | id in s.waiting :: id !in s.granted
    ensures var s' := Apply(cfg, chain, s, e);
            && (e.Start? ==> (e.id in s'.waiting <==> e.digest !in s.spent))
            && (e.FetchFailed? ==> e.id !in s'.waiting && e.id !in s'.granted && s'.jobs == s.jobs)
            && (e.Fetched? && VerdictOf(cfg, chain, s, e).Rejected? ==>
                  e.id !in s'.waiting && e.id !in s'.granted && s'.jobs == s.jobs)
            && (e.Fetched? && VerdictOf(cfg, chain, s, e).Verified? ==> e.id !in s'.waiting && e.id in s'.granted)
            && (e.CreateJobFor? ==> e.id !in s'.granted)
            && (e.Restart? ==> s'.waiting == map[] && s'.granted == map[] && s'.spent == s.spent && s'.jobs == s.jobs)
            && (forall id | id in s'.waiting :: id !in s'.granted)
  {
  }

  // ---- the background job ---------------------------------------------------------------------

  datatype TripoError = Disabled | Auth | TimedOut | FailedUpstream | BadFormat | Unknown

  function ClassifyTripoError(err: TripoError, paid: bool): JobState {
    match err
    case Disabled => Failed("tripo_disabled", 400, false)
    case Auth => Failed("tripo_unavailable", 503, false)
    case TimedOut => Failed("tripo_timeout", 504, paid)
    case FailedUpstream => Failed("tripo_failed", 502, paid)
    case BadFormat => Failed("tripo_failed", 502, paid)
    case Unknown => Failed("internal", 500, paid)
  }

  datatype JobOutcome = NoParams | Generated(result: string) | Threw(err: TripoError)

  /** The one terminal state that a background job writes. */
  function TerminalState(outcome: JobOutcome, paid: bool): JobState {
    match outcome
    case NoParams => Failed("router_no_params", 502, false)
    case Generated(result) => Done(result)
    case Threw(err) => ClassifyTripoError(err, paid)
  }

  function CodeOf(err: TripoError): string {
    if err == Disabled then "tripo_disabled"
    else if err == Auth then "tripo_unavailable"
    else if err == TimedOut then "tripo_timeout"
    else if err == Unknown then "internal"
    else "tripo_failed"
  }

  function StatusOf(err: TripoError): nat {
    if err == Disabled then 400
    else if err == Auth then 503
    else if err == TimedOut then 504
    else if err == Unknown then 500
    else 502
  }

  lemma TerminalIs(outcome: JobOutcome, paid: bool)
    ensures outcome.Generated? ==> TerminalState(outcome, paid) == Done(outcome.result)
    ensures outcome.NoParams? ==> TerminalState(outcome, paid) == Failed("router_no_params", 502, false)
    ensures outcome.Threw? ==>
              TerminalState(outcome, paid) == Failed(CodeOf(outcome.err), StatusOf(outcome.err),
                                                     paid && outcome.err != Disabled && outcome.err != Auth)
    ensures !TerminalState(outcome, paid).Pending?
  {
  }

  /** In every run: a job that its background work finished is read by its owner as it ended, and by
      nobody else, on the owner's first read after that, within its TTL and while fewer than
      `maxEntries` jobs were created since it was.  It is refundable exactly when a paid job failed for
      a reason that is not the operator's. */
  lemma {:induction false} JobIsDelivered(s: Settings, before: seq<GenerateJobs.Event>, t: int, shop: Shop, id: Key,
                                          owner: string, sweptAt: int, at: int, made: Shop,
                                          running: seq<GenerateJobs.Event>, ran: Shop, outcome: JobOutcome, paid: bool,
                                          state: JobState, setAt: int, done: Shop, waiting: seq<GenerateJobs.Event>,
                                          end: Shop, now: int)
    requires s.maxEntries >= 1 && GenerateJobs.Possible(s, NEW_SHOP, before, t)
    requires shop == GenerateJobs.Run(s, NEW_SHOP, before)
    requires GenerateJobs.Enabled(shop, CreateAt(id, owner, sweptAt, at), LastAt(before, t))
    requires made == GenerateJobs.Apply(s, shop, CreateAt(id, owner, sweptAt, at)).0
    requires GenerateJobs.Possible(s, made, running, at) && ran == GenerateJobs.Run(s, made, running)
    requires LastAt(running, at) <= setAt
    requires state == TerminalState(outcome, paid) && done == GenerateJobs.Apply(s, ran, Set(id, state, setAt)).0
    requires GenerateJobs.Possible(s, done, waiting, setAt) && end == GenerateJobs.Run(s, done, waiting)
    requires (forall e | e in running :: !Sets(e, id)) && forall e | e in waiting :: !Sets(e, id)
    requires forall e | e in waiting :: !TakenBy(e, id, owner)
    requires LastAt(waiting, setAt) <= now <= at + s.ttlMs && CreatesIn(running) + CreatesIn(waiting) < s.maxEntries
    ensures outcome.Generated? ==> Take(end.jobs, id, owner).1 == Found(Done(outcome.result))
    ensures outcome.NoParams? ==> Take(end.jobs, id, owner).1 == Found(Failed("router_no_params", 502, false))
    ensures outcome.Threw? ==>
              var refundable := paid && outcome.err != Disabled && outcome.err != Auth;
              Take(end.jobs, id, owner).1 == Found(Failed(CodeOf(outcome.err), StatusOf(outcome.err), refundable))
    ensures !Take(end.jobs, id, owner).0.Has(id)
    ensures forall who: string | who != owner :: Take(end.jobs, id, who) == (end.jobs, Forbidden)
  {
    GenerateJobs.EveryRun(s, before, t);
    TerminalIs(outcome, paid);
    FinishedIsFound(s, shop, LastAt(before, t), id, owner, sweptAt, at, made, running, ran, state, setAt, done, waiting,
                    end, now);
  }
}
