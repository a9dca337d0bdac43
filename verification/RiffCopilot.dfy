/** The conversation hook of `frontend/src/creator/useRiffCopilot.ts`, one step per user action,
    effect, timer and settled response, composed with the server's turn. */
module RiffCopilot {
  import opened CopilotTurn
  import opened JsString
  import opened Wrappers

  datatype Status = Idle | Thinking | Asking | Done | Errored | Quota | Off

  /** A turn request on its way; `session` tells in which session it was sent. */
  datatype Request = Request(id: nat, token: string, session: nat, args: Args)

  /** How a request ends: no response, or the server's reply. */
  datatype Settlement = Thrown | Replied(w: World)

  datatype Hook = Hook(
    token: Option<string>,
    effectDue: bool,
    session: nat,
    messages: seq<Message>,
    status: Status,
    available: bool,
    retryAfterMs: real,
    synthesizedPrompt: Option<string>,
    synthSeq: nat,
    seqNo: nat,
    inFlight: bool,
    finished: bool,
    lastArgs: Option<Args>,
    mounted: bool,
    outstanding: seq<Request>)

  // ---- the steps on values -----------------------------------------------------------------------

  function Drive(h: Hook, a: Args): Hook {
    if h.token.None? then h.(available := false)
    else
      h.(lastArgs := Some(a), inFlight := true, messages := a.next, status := Thinking, seqNo := h.seqNo + 1,
         outstanding := h.outstanding + [Request(h.seqNo + 1, h.token.value, h.session, a)])
  }

  predicate Blocked(h: Hook) {
    h.inFlight || h.finished || h.status == Quota
  }

  function Retry(h: Hook): Hook {
    if h.inFlight || h.lastArgs.None? then h else Drive(h, h.lastArgs.value)
  }

  function SendAnswer(h: Hook, text: string): Hook {
    if Trim(text) == "" || Blocked(h) then h
    else Drive(h, Args(h.messages + [Message(User, Trim(text), h.session)], false))
  }

  function GenerateNow(h: Hook): Hook {
    if Blocked(h) || h.messages == [] then h else Drive(h, Args(h.messages, true))
  }

  function Forgotten(h: Hook): Hook {
    h.(seqNo := h.seqNo + 1, inFlight := false, finished := false, messages := [], status := Idle,
       synthesizedPrompt := None, retryAfterMs := 0.0)
  }

  function Reset(h: Hook): Hook {
    Forgotten(h).(lastArgs := None)
  }

  /** A render with another token; the effect that clears the conversation is still to run. */
  function Render(h: Hook, token: Option<string>): Hook {
    if token == h.token then h else h.(token := token, effectDue := true)
  }

  /** The effect of a session change: `lastArgs` stays. */
  function SessionEffect(h: Hook): Hook {
    Forgotten(h).(effectDue := false, session := h.session + 1, available := true)
  }

  function QuotaTimer(h: Hook): Hook {
    if h.mounted then h.(status := Idle) else h
  }

  /** A response is heeded while its request is the latest, the hook is mounted and the token is
      the one it was sent with. */
  predicate Heeds(h: Hook, r: Request) {
    r.id == h.seqNo && h.mounted && h.token == Some(r.token)
  }

  function Answered(h: Hook, r: Request, result: Result): Hook {
    var messages := r.args.next + [Message(Assistant, result.text, r.session)];
    if result.Prompt?
    then h.(finished := true, synthesizedPrompt := Some(result.text), synthSeq := h.synthSeq + 1, messages := messages,
            status := Done)
    else h.(messages := messages, status := Asking)
  }

  function Heed(h: Hook, r: Request, reply: Option<Reply>): Hook {
    if reply.None? then h.(status := Errored)
    else
      match reply.value
      case Off => h.(available := false, status := Status.Off)
      case QuotaExhausted(ms) => h.(retryAfterMs := ms, status := Quota)
      case Answer(result) => Answered(h, r, result)
      case Unavailable => h.(status := Errored)
  }

  function Without(rs: seq<Request>, i: nat): seq<Request>
    requires i < |rs|
  {
    rs[..i] + rs[i + 1..]
  }

  /** What the hook takes from the end of `r`: no response, or a reply. */
  function Heard(h: Hook, r: Request, thrown: bool, reply: Option<Reply>): Hook {
    if thrown then (if r.id == h.seqNo && h.mounted then h.(status := Errored) else h)
    else if Heeds(h, r) then Heed(h, r, reply)
    else h
  }

  function Conclude(h: Hook, i: nat, thrown: bool, reply: Option<Reply>): Hook
    requires i < |h.outstanding|
  {
    var r := h.outstanding[i];
    var heard := Heard(h.(outstanding := Without(h.outstanding, i)), r, thrown, reply);
    if r.id == h.seqNo then heard.(inFlight := false) else heard
  }

  function Settle(h: Hook, i: nat, s: Settlement): Hook
    requires i < |h.outstanding|
  {
    match s
    case Thrown => Conclude(h, i, true, None)
    case Replied(w) => Conclude(h, i, false, Serve(h.outstanding[i].args, w))
  }

  function Init(token: Option<string>): Hook {
    Hook(token, false, 0, [], Idle, true, 0.0, None, 0, 1, false, false, None, true, [])
  }

  datatype Event =
    | DoRetry
    | DoSend(text: string)
    | DoGenerate
    | DoReset
    | DoRender(token: Option<string>)
    | DoEffect
    | DoTimer
    | DoUnmount
    | DoSettle(i: nat, s: Settlement)

  /** Pending effects run before the next user action or render. */
  predicate Enabled(h: Hook, e: Event) {
    match e
    case DoEffect => h.effectDue
    case DoTimer => h.status == Quota && h.retryAfterMs > 0.0
    case DoSettle(i, _) => i < |h.outstanding|
    case DoUnmount => true
    case DoRetry => !h.effectDue
    case DoSend(_) => !h.effectDue
    case DoGenerate => !h.effectDue
    case DoReset => !h.effectDue
    case DoRender(_) => !h.effectDue
  }

  function Step(h: Hook, e: Event): Hook
    requires Enabled(h, e)
  {
    match e
    case DoRetry => Retry(h)
    case DoSend(text) => SendAnswer(h, text)
    case DoGenerate => GenerateNow(h)
    case DoReset => Reset(h)
    case DoRender(token) => Render(h, token)
    case DoEffect => SessionEffect(h)
    case DoTimer => QuotaTimer(h)
    case DoUnmount => h.(mounted := false)
    case DoSettle(i, s) => Settle(h, i, s)
  }

  predicate CanRun(h: Hook, es: seq<Event>)
    decreases es
  {
    es != [] ==> Enabled(h, es[0]) && CanRun(Step(h, es[0]), es[1..])
  }

  function Run(h: Hook, es: seq<Event>): Hook
    requires CanRun(h, es)
    decreases es
  {
    if es == [] then h else Run(Step(h, es[0]), es[1..])
  }

  // ---- what every run keeps ------------------------------------------------------------------------

  predicate Sooner(rs: seq<Request>, i: nat, j: nat) {
    i < j < |rs| ==> rs[i].id < rs[j].id
  }

  predicate Given(rs: seq<Request>, i: nat, last: nat) {
    i < |rs| ==> rs[i].id <= last
  }

  /** Requests carry numbers already given out, later ones greater. */
  ghost predicate Numbered(rs: seq<Request>, last: nat) {
    && (forall i: nat :: Given(rs, i, last))
    && (forall i: nat, j: nat :: Sooner(rs, i, j))
  }

  lemma NumberedNext(rs: seq<Request>, last: nat, r: Request)
    requires Numbered(rs, last) && r.id == last + 1
    ensures Numbered(rs + [r], r.id)
  {
    var all := rs + [r];
    forall i: nat ensures Given(all, i, r.id) {
      assert Given(rs, i, last);
    }
    forall i: nat, j: nat ensures Sooner(all, i, j) {
      assert Sooner(rs, i, j) && Given(rs, i, last);
    }
  }

  lemma NumberedLater(rs: seq<Request>, last: nat, later: nat)
    requires Numbered(rs, last) && last < later
    ensures Numbered(rs, later) && !Awaits(rs, later)
  {
    forall i: nat ensures Given(rs, i, later) {
      assert Given(rs, i, last);
    }
    assert rs != [] ==> Given(rs, |rs| - 1, last);
  }

  lemma NumberedWithout(rs: seq<Request>, last: nat, i: nat)
    requires Numbered(rs, last) && i < |rs|
    ensures Numbered(Without(rs, i), last)
    ensures Awaits(Without(rs, i), last) <==> Awaits(rs, last) && rs[i].id != last
    ensures Awaits(Without(rs, i), last) ==> Without(rs, i)[|rs| - 2] == rs[|rs| - 1]
    ensures rs[i].id == last ==> i == |rs| - 1
  {
    var rest, end := Without(rs, i), |rs| - 1;
    forall k: nat ensures Given(rest, k, last) {
      assert Given(rs, if k < i then k else k + 1, last);
    }
    forall k: nat, m: nat ensures Sooner(rest, k, m) {
      assert Sooner(rs, if k < i then k else k + 1, if m < i then m else m + 1);
    }
    assert Sooner(rs, i, end) && Given(rs, end, last);
    if rest != [] {
      assert rest[end - 1] == if i < end then rs[end] else rs[end - 1];
      assert Sooner(rs, end - 1, end);
    }
  }

  /** The request the hook waits for is the last one sent, with the latest number. */
  predicate Awaits(rs: seq<Request>, seqNo: nat) {
    rs != [] && rs[|rs| - 1].id == seqNo
  }

  ghost predicate InFlightInv(h: Hook) {
    && Numbered(h.outstanding, h.seqNo)
    && (h.inFlight <==> Awaits(h.outstanding, h.seqNo))
    && (h.inFlight ==>
          var r := h.outstanding[|h.outstanding| - 1];
          h.status == Thinking && h.lastArgs == Some(r.args) && h.messages == r.args.next)
  }

  /** At most three copilot turns, the third being the synthesized prompt, which ends the flow. */
  predicate Turns(messages: seq<Message>, finished: bool, lastArgs: Option<Args>, prompt: Option<string>) {
    && (lastArgs.Some? ==> DeriveTurnIndex(lastArgs.value.next) <= 2)
    && (finished ==> lastArgs.Some? && Synthesizes(lastArgs.value))
    && (if finished then DeriveTurnIndex(messages) <= 3 else DeriveTurnIndex(messages) <= 2)
    && (DeriveTurnIndex(messages) == 3 ==>
          messages[|messages| - 1].role == Assistant && prompt == Some(messages[|messages| - 1].content))
  }

  predicate ThreeTurnsInv(h: Hook) {
    && Turns(h.messages, h.finished, h.lastArgs, h.synthesizedPrompt)
    && (h.status == Quota ==> h.retryAfterMs > 0.0)
  }

  ghost predicate Inv(h: Hook) {
    InFlightInv(h) && ThreeTurnsInv(h)
  }

  lemma DriveKeeps(h: Hook, a: Args, h': Hook)
    requires h' == Drive(h, a) && Inv(h) && !h.inFlight && DeriveTurnIndex(a.next) <= 2
    requires h.finished ==> Synthesizes(a)
    ensures Inv(h')
  {
    if h.token.Some? {
      NumberedNext(h.outstanding, h.seqNo, Request(h.seqNo + 1, h.token.value, h.session, a));
    }
  }

  lemma OneMoreTurn(messages: seq<Message>, m: Message)
    ensures DeriveTurnIndex(messages + [m]) == DeriveTurnIndex(messages) + if m.role == Assistant then 1 else 0
  {
    assert (messages + [m])[..|messages|] == messages;
  }

  lemma AnswerKeepsTurns(a: Args, m: Message, result: Result, finished: bool, prompt: Option<string>)
    requires Turns(a.next, finished, Some(a), prompt)
    requires m.role == Assistant && m.content == result.text && (result.Prompt? <==> Synthesizes(a))
    ensures result.Prompt? ==> Turns(a.next + [m], true, Some(a), Some(result.text))
    ensures result.Question? ==> Turns(a.next + [m], finished, Some(a), prompt)
  {
    OneMoreTurn(a.next, m);
    assert (a.next + [m])[|a.next|] == m;
  }

  /** What `ReplyFacts` tells of every reply to `a`. */
  predicate Fair(a: Args, reply: Option<Reply>) {
    && (reply.Some? && reply.value.QuotaExhausted? ==> reply.value.retryAfterMs > 0.0)
    && (reply.Some? && reply.value.Answer? ==> (reply.value.result.Prompt? <==> Synthesizes(a)))
  }

  predicate SameFlight(h: Hook, h': Hook) {
    && h'.outstanding == h.outstanding && h'.seqNo == h.seqNo && h'.inFlight == h.inFlight && h'.lastArgs == h.lastArgs
    && h'.session == h.session && h'.token == h.token && h'.effectDue == h.effectDue
  }

  predicate SameTalk(h: Hook, h': Hook) {
    h'.messages == h.messages && h'.finished == h.finished && h'.synthesizedPrompt == h.synthesizedPrompt
  }

  /** A reply that is no answer leaves the conversation alone. */
  lemma NoAnswerKeepsTalk(h: Hook, r: Request, reply: Option<Reply>, h': Hook)
    requires h' == Heed(h, r, reply) && (reply.None? || !reply.value.Answer?)
    ensures SameFlight(h, h') && SameTalk(h, h')
    ensures h'.status == Quota ==>
              reply.Some? && reply.value.QuotaExhausted? && h'.retryAfterMs == reply.value.retryAfterMs
  {
    if reply.Some? {
      match reply.value
      case Off =>
      case QuotaExhausted(_) =>
      case Unavailable =>
    }
  }

  lemma AnswerKeepsFlight(h: Hook, r: Request, result: Result, h': Hook)
    requires h' == Answered(h, r, result)
    ensures SameFlight(h, h') && h'.messages == r.args.next + [Message(Assistant, result.text, r.session)]
    ensures h'.finished == (h.finished || result.Prompt?) && h'.status != Quota
    ensures h'.synthesizedPrompt == if result.Prompt? then Some(result.text) else h.synthesizedPrompt
  {
  }

  lemma HeedKeepsFlight(h: Hook, r: Request, reply: Option<Reply>, h': Hook)
    requires h' == Heed(h, r, reply)
    ensures SameFlight(h, h')
    ensures h'.messages == h.messages || exists text ::
      h'.messages == r.args.next + [Message(Assistant, text, r.session)]
  {
    if reply.Some? && reply.value.Answer? {
      AnswerKeepsFlight(h, r, reply.value.result, h');
    } else {
      NoAnswerKeepsTalk(h, r, reply, h');
    }
  }

  lemma HeardKeepsNumber(h: Hook, r: Request, thrown: bool, reply: Option<Reply>)
    ensures Heard(h, r, thrown, reply).seqNo == h.seqNo
  {
    if !thrown && Heeds(h, r) {
      HeedKeepsFlight(h, r, reply, Heed(h, r, reply));
    }
  }

  lemma HeedKeepsTurns(h: Hook, r: Request, reply: Option<Reply>, h': Hook)
    requires h' == Heed(h, r, reply) && ThreeTurnsInv(h) && h.lastArgs == Some(r.args) && h.messages == r.args.next
    requires Fair(r.args, reply)
    ensures ThreeTurnsInv(h')
  {
    if reply.Some? && reply.value.Answer? {
      var result := reply.value.result;
      AnswerKeepsTurns(r.args, Message(Assistant, result.text, r.session), result, h.finished, h.synthesizedPrompt);
      AnswerKeepsFlight(h, r, result, h');
    } else {
      NoAnswerKeepsTalk(h, r, reply, h');
    }
  }

  lemma ConcludeKeeps(h: Hook, i: nat, thrown: bool, reply: Option<Reply>, h': Hook)
    requires Inv(h) && i < |h.outstanding| && h' == Conclude(h, i, thrown, reply) && Fair(h.outstanding[i].args, reply)
    ensures Inv(h')
  {
    var r := h.outstanding[i];
    NumberedWithout(h.outstanding, h.seqNo, i);
    if !thrown && Heeds(h, r) {
      var h1 := h.(outstanding := Without(h.outstanding, i));
      HeedKeepsTurns(h1, r, reply, Heed(h1, r, reply));
      HeedKeepsFlight(h1, r, reply, Heed(h1, r, reply));
    }
  }

  lemma SettleKeeps(h: Hook, i: nat, s: Settlement, h': Hook)
    requires Inv(h) && i < |h.outstanding| && h' == Settle(h, i, s)
    ensures Inv(h')
  {
    var a := h.outstanding[i].args;
    match s
    case Thrown => ConcludeKeeps(h, i, true, None, h');
    case Replied(w) =>
      ReplyFacts(a, w);
      ConcludeKeeps(h, i, false, Serve(a, w), h');
  }

  lemma StepKeepsInv(h: Hook, e: Event, h': Hook)
    requires Inv(h) && Enabled(h, e) && h' == Step(h, e)
    ensures Inv(h')
  {
    match e
    case DoRetry =>
      if !h.inFlight && h.lastArgs.Some? {
        DriveKeeps(h, h.lastArgs.value, h');
      }
    case DoSend(text) =>
      var m := Message(User, Trim(text), h.session);
      OneMoreTurn(h.messages, m);
      if Trim(text) != "" && !Blocked(h) {
        DriveKeeps(h, Args(h.messages + [m], false), h');
      }
    case DoGenerate =>
      if !Blocked(h) && h.messages != [] {
        DriveKeeps(h, Args(h.messages, true), h');
      }
    case DoSettle(i, s) => SettleKeeps(h, i, s, h');
    case DoReset => NumberedLater(h.outstanding, h.seqNo, h'.seqNo);
    case DoEffect => NumberedLater(h.outstanding, h.seqNo, h'.seqNo);
    case DoRender(_) =>
    case DoTimer =>
    case DoUnmount =>
  }

  lemma {:induction false} RunKeepsInv(h: Hook, es: seq<Event>)
    requires Inv(h) && CanRun(h, es)
    ensures Inv(Run(h, es))
    decreases es
  {
    if es != [] {
      StepKeepsInv(h, es[0], Step(h, es[0]));
      RunKeepsInv(Step(h, es[0]), es[1..]);
    }
  }

  // ---- the conversation is short and ends with the prompt -----------------------------------------

  /** In every run of sends, retries, forced syntheses, errors, refusals and session changes: at
      most three copilot messages, the third only as the synthesized prompt; the hook is in
      flight exactly when one outstanding request carries the latest number; and a quota refusal
      always has its timer armed. */
  lemma EveryRun(token: Option<string>, es: seq<Event>)
    requires CanRun(Init(token), es)
    ensures
      var h := Run(Init(token), es);
      && DeriveTurnIndex(h.messages) <= 3
      && (DeriveTurnIndex(h.messages) == 3 ==>
            h.finished && h.synthesizedPrompt == Some(h.messages[|h.messages| - 1].content))
      && (h.inFlight <==> exists i :: 0 <= i < |h.outstanding| && h.outstanding[i].id == h.seqNo)
      && (forall i, j | 0 <= i < j < |h.outstanding| :: h.outstanding[i].id != h.outstanding[j].id)
      && (h.status == Quota ==> !h.inFlight && Enabled(h, DoTimer))
  {
    RunKeepsInv(Init(token), es);
    var h := Run(Init(token), es);
    forall i | 0 <= i < |h.outstanding| && h.outstanding[i].id == h.seqNo ensures h.inFlight {
      NumberedWithout(h.outstanding, h.seqNo, i);
    }
    forall i, j | 0 <= i < j < |h.outstanding| ensures h.outstanding[i].id != h.outstanding[j].id {
      assert Sooner(h.outstanding, i, j);
    }
  }

  predicate ClearsFlow(e: Event) {
    e.DoReset? || e.DoEffect?
  }

  /** After a synthesis, until a reset or a session change, sending and forcing change nothing. */
  lemma {:induction false} FinishedUntilCleared(h: Hook, es: seq<Event>, text: string)
    requires h.finished && CanRun(h, es) && forall e | e in es :: !ClearsFlow(e)
    ensures Run(h, es).finished
    ensures SendAnswer(Run(h, es), text) == Run(h, es) && GenerateNow(Run(h, es)) == Run(h, es)
    decreases es
  {
    if es != [] {
      assert !ClearsFlow(es[0]);
      FinishedStays(h, es[0]);
      FinishedUntilCleared(Step(h, es[0]), es[1..], text);
    }
  }

  lemma FinishedStays(h: Hook, e: Event)
    requires h.finished && Enabled(h, e) && !ClearsFlow(e)
    ensures Step(h, e).finished
  {
    if e.DoSettle? && e.s.Replied? {
      HeedOnlyFinishes(h, e.i, Serve(h.outstanding[e.i].args, e.s.w));
    }
  }

  lemma HeedOnlyFinishes(h: Hook, i: nat, reply: Option<Reply>)
    requires h.finished && i < |h.outstanding|
    ensures Conclude(h, i, false, reply).finished
  {
    var r, h1 := h.outstanding[i], h.(outstanding := Without(h.outstanding, i));
    if reply.Some? && reply.value.Answer? {
      AnswerKeepsFlight(h1, r, reply.value.result, Heed(h1, r, reply));
    } else {
      NoAnswerKeepsTalk(h1, r, reply, Heed(h1, r, reply));
    }
  }

  /** A response whose request is no longer the latest changes no field. */
  lemma StaleChangesNothing(h: Hook, i: nat, s: Settlement)
    requires i < |h.outstanding| && h.outstanding[i].id != h.seqNo
    ensures Settle(h, i, s) == h.(outstanding := Without(h.outstanding, i))
  {
    var reply := if s.Replied? then Serve(h.outstanding[i].args, s.w) else None;
    assert Settle(h, i, s) == Conclude(h, i, s.Thrown?, reply);
  }

  /** A reply that is not heeded, for its number, its token or an unmounted hook, at most lets the
      next turn be sent. */
  lemma UnheededChangesNothing(h: Hook, i: nat, w: World)
    requires i < |h.outstanding|
    requires h.outstanding[i].id != h.seqNo || !h.mounted || h.token != Some(h.outstanding[i].token)
    ensures Settle(h, i, Replied(w))
         == h.(outstanding := Without(h.outstanding, i),
               inFlight := h.inFlight && h.outstanding[i].id != h.seqNo)
  {
    var reply := Serve(h.outstanding[i].args, w);
    assert Settle(h, i, Replied(w)) == Conclude(h, i, false, reply);
  }

  // ---- what the user said stays, and leads to the prompt ------------------------------------------

  /** A send is made exactly when the text is more than blanks, nothing is in flight or finished, no
      quota refusal is shown, and there is a token; it then adds one message, the user's with the
      trimmed text, and sends all that is shown, unforced, under a new number. */
  lemma SendIff(h: Hook, text: string)
    requires Inv(h)
    ensures var h' := SendAnswer(h, text);
            var free := Trim(text) != "" && !h.inFlight && !h.finished && h.status != Quota;
            var sends := free && h.token.Some?;
            && (!sends ==> h' == if free then h.(available := false) else h)
            && (sends ==>
                  && h'.messages == h.messages + [Message(User, Trim(text), h.session)]
                  && |h'.outstanding| == |h.outstanding| + 1 && h'.outstanding[..|h.outstanding|] == h.outstanding
                  && h'.outstanding[|h.outstanding|].args.next == h'.messages
                  && !h'.outstanding[|h.outstanding|].args.force
                  && h'.outstanding[|h.outstanding|].token == h.token.value
                  && h'.outstanding[|h.outstanding|].id == h'.seqNo > h.seqNo
                  && h'.inFlight && h'.status == Thinking)
  {
  }

  /** Forcing the synthesis sends the very conversation shown, under the same conditions. */
  lemma GenerateIff(h: Hook)
    requires Inv(h)
    ensures var h' := GenerateNow(h);
            var free := h.messages != [] && !h.inFlight && !h.finished && h.status != Quota;
            var sends := free && h.token.Some?;
            && h'.messages == h.messages
            && (!sends ==> h' == if free then h.(available := false) else h)
            && (sends ==>
                  && |h'.outstanding| == |h.outstanding| + 1 && h'.outstanding[..|h.outstanding|] == h.outstanding
                  && h'.outstanding[|h.outstanding|].args == Args(h.messages, true)
                  && h'.outstanding[|h.outstanding|].token == h.token.value
                  && h'.outstanding[|h.outstanding|].id == h'.seqNo > h.seqNo
                  && h'.inFlight && h'.status == Thinking)
  {
  }

  /** What the latest request brings while its token is in use: the conversation shown grows by the
      answer alone, and each reply has its own status. */
  lemma {:induction false} LatestReplyShows(h: Hook, i: nat, w: World)
    requires Inv(h) && i < |h.outstanding| && h.outstanding[i].id == h.seqNo
    requires h.mounted && h.token == Some(h.outstanding[i].token)
    ensures var h', reply := Settle(h, i, Replied(w)), Serve(h.outstanding[i].args, w);
            && !h'.inFlight
            && h.messages <= h'.messages
            && (reply.None? || !reply.value.Answer? ==> h'.messages == h.messages && h'.finished == h.finished)
            && (reply.None? || reply.value.Unavailable? ==> h'.status == Errored)
            && (reply == Some(Reply.Off) ==> h'.status == Status.Off && !h'.available)
            && (reply.Some? && reply.value.QuotaExhausted? ==>
                  h'.status == Quota && h'.retryAfterMs == reply.value.retryAfterMs)
            && (reply.Some? && reply.value.Answer? ==>
                  var r := reply.value.result;
                  && |h'.messages| == |h.messages| + 1
                  && h'.messages[|h.messages|].role == Assistant && h'.messages[|h.messages|].content == r.text
                  && (r.Question? ==> h'.status == Asking && h'.finished == h.finished)
                  && (r.Prompt? ==>
                        h'.status == Done && h'.finished && h'.synthesizedPrompt == Some(r.text)
                        && h'.synthSeq == h.synthSeq + 1))
  {
    var r, reply := h.outstanding[i], Serve(h.outstanding[i].args, w);
    NumberedWithout(h.outstanding, h.seqNo, i);
    assert h.inFlight && h.messages == r.args.next;
    assert Settle(h, i, Replied(w)) == Conclude(h, i, false, reply);
    var h1 := h.(outstanding := Without(h.outstanding, i));
    if reply.Some? && reply.value.Answer? {
      AnswerKeepsFlight(h1, r, reply.value.result, Heed(h1, r, reply));
    } else {
      NoAnswerKeepsTalk(h1, r, reply, Heed(h1, r, reply));
    }
  }

  /** A request that failed shows an error if it is the latest and the hook is mounted, and lets the next
      turn be sent; the conversation stays. */
  lemma FailureShows(h: Hook, i: nat)
    requires Inv(h) && i < |h.outstanding| && h.outstanding[i].id == h.seqNo
    ensures var h' := Settle(h, i, Thrown);
            && !h'.inFlight && h'.messages == h.messages && h'.lastArgs == h.lastArgs
            && h'.status == if h.mounted then Errored else h.status
  {
    assert Settle(h, i, Thrown) == Conclude(h, i, true, None);
  }

  /** After a failure, a retry sends once more exactly what had failed. */
  lemma RetryRepeats(h: Hook, i: nat)
    requires Inv(h) && i < |h.outstanding| && h.outstanding[i].id == h.seqNo && h.token.Some?
    ensures var h' := Retry(Settle(h, i, Thrown));
            && h'.messages == h.messages && h'.inFlight
            && |h'.outstanding| == |h.outstanding|
            && h'.outstanding[|h.outstanding| - 1].args == h.outstanding[i].args
            && h'.outstanding[|h.outstanding| - 1].token == h.token.value
  {
    NumberedWithout(h.outstanding, h.seqNo, i);
    FailureShows(h, i);
    assert Settle(h, i, Thrown) == Conclude(h, i, true, None);
  }

  predicate Talks(e: Event) {
    !e.DoRetry? && !ClearsFlow(e)
  }

  lemma {:induction false} StepKeepsTalk(h: Hook, e: Event)
    requires Inv(h) && Enabled(h, e) && Talks(e)
    ensures h.messages <= Step(h, e).messages
  {
    match e
    case DoSend(text) =>
    case DoGenerate =>
    case DoRender(_) =>
    case DoTimer =>
    case DoUnmount =>
    case DoSettle(i, s) =>
      match s {
        case Thrown => assert Settle(h, i, s) == Conclude(h, i, true, None);
        case Replied(w) =>
          if Heeds(h, h.outstanding[i]) {
            LatestReplyShows(h, i, w);
          } else {
            UnheededChangesNothing(h, i, w);
          }
      }
  }

  /** Without a retry, a reset or a change of session, nothing that is shown is ever lost. */
  lemma {:induction false} TalkOnlyGrows(h: Hook, es: seq<Event>)
    requires Inv(h) && CanRun(h, es) && forall e | e in es :: Talks(e)
    ensures Inv(Run(h, es)) && h.messages <= Run(h, es).messages
    decreases es
  {
    if es != [] {
      assert es[0] in es;
      StepKeepsTalk(h, es[0]);
      StepKeepsInv(h, es[0], Step(h, es[0]));
      TalkOnlyGrows(Step(h, es[0]), es[1..]);
    }
  }

  /** Once two answers of the copilot are shown, then after any further talk the next answer that is
      heeded is the prompt, and it ends the flow. */
  lemma {:induction false} ThirdAnswerIsThePrompt(h: Hook, a: nat, b: nat, es: seq<Event>, end: Hook, i: nat, w: World,
                                                result: Result)
    requires Inv(h) && a < b < |h.messages| && h.messages[a].role == Assistant && h.messages[b].role == Assistant
    requires CanRun(h, es) && (forall e | e in es :: Talks(e)) && end == Run(h, es)
    requires i < |end.outstanding| && end.outstanding[i].id == end.seqNo
    requires end.mounted && end.token == Some(end.outstanding[i].token)
    requires Serve(end.outstanding[i].args, w) == Some(Answer(result))
    ensures result.Prompt?
    ensures var last := Settle(end, i, Replied(w));
            && last.finished && last.status == Done && last.synthesizedPrompt == Some(result.text)
            && h.messages <= last.messages && last.messages[|last.messages| - 1].content == result.text
  {
    TalkOnlyGrows(h, es);
    LatestReplyShows(end, i, w);
    NumberedWithout(end.outstanding, end.seqNo, i);
    var next := end.outstanding[i].args.next;
    assert next == end.messages;
    assert next[a] == h.messages[a] && next[b] == h.messages[b];
    TwoTurnsIff(next);
    ReplyFacts(end.outstanding[i].args, w);
  }

  /** Nothing is outstanding, blocked or finished. */
  ghost predicate Ready(h: Hook, token: string) {
    && Inv(h) && h.outstanding == [] && !h.finished && h.status != Quota
    && h.token == Some(token) && h.mounted && h.session == 0 && !h.effectDue
  }

  lemma SendFromReady(h: Hook, token: string, text: string, sent: Hook)
    requires Ready(h, token) && Trim(text) != "" && sent == SendAnswer(h, text)
    ensures Inv(sent) && sent.token == h.token && sent.mounted && sent.session == 0 && !sent.finished && !sent.effectDue
    ensures sent.messages == h.messages + [Message(User, Trim(text), 0)]
    ensures sent.outstanding == [Request(sent.seqNo, token, 0, Args(sent.messages, false))]
    ensures DeriveTurnIndex(sent.messages) == DeriveTurnIndex(h.messages)
  {
    StepKeepsInv(h, DoSend(text), sent);
    OneMoreTurn(h.messages, Message(User, Trim(text), 0));
  }

  lemma SettleTheOnly(sent: Hook, token: string, w: World, r: Result, h': Hook)
    requires Inv(sent) && sent.mounted && sent.session == 0 && !sent.finished && !sent.effectDue
    requires sent.token == Some(token)
    requires sent.outstanding == [Request(sent.seqNo, token, 0, Args(sent.messages, false))]
    requires Serve(Args(sent.messages, false), w) == Some(Answer(r)) && h' == Settle(sent, 0, Replied(w))
    ensures h'.messages == sent.messages + [Message(Assistant, r.text, 0)]
    ensures r.Question? ==> Ready(h', token) && DeriveTurnIndex(sent.messages) < 2
    ensures r.Prompt? ==> DeriveTurnIndex(sent.messages) >= 2
    ensures r.Prompt? ==> h'.finished && h'.status == Done && h'.synthesizedPrompt == Some(r.text)
    ensures DeriveTurnIndex(h'.messages) == DeriveTurnIndex(sent.messages) + 1
  {
    var a := Args(sent.messages, false);
    ReplyFacts(a, w);
    SettleKeeps(sent, 0, Replied(w), h');
    var rest := sent.(outstanding := []);
    assert Without(sent.outstanding, 0) == [];
    assert h' == Answered(rest, sent.outstanding[0], r).(inFlight := false);
    AnswerKeepsFlight(rest, sent.outstanding[0], r, Answered(rest, sent.outstanding[0], r));
    OneMoreTurn(sent.messages, Message(Assistant, r.text, 0));
  }

  /** A text was sent, and the server's answer settled it. */
  ghost predicate AfterTurn(h: Hook, text: string, w: World, r: Result, h': Hook) {
    var sent := SendAnswer(h, text);
    && Serve(Args(h.messages + [Message(User, Trim(text), h.session)], false), w) == Some(Answer(r))
    && (|sent.outstanding| == 1 ==> h' == Settle(sent, 0, Replied(w)))
  }

  lemma ReadyTurn(h: Hook, token: string, text: string, w: World, r: Result, h': Hook)
    requires Ready(h, token) && Trim(text) != "" && AfterTurn(h, text, w, r, h')
    ensures h'.messages == h.messages + [Message(User, Trim(text), 0), Message(Assistant, r.text, 0)]
    ensures r.Question? ==> Ready(h', token) && DeriveTurnIndex(h.messages) < 2
    ensures r.Prompt? ==> DeriveTurnIndex(h.messages) >= 2
    ensures r.Prompt? ==> h'.finished && h'.status == Done && h'.synthesizedPrompt == Some(r.text)
    ensures DeriveTurnIndex(h'.messages) == DeriveTurnIndex(h.messages) + 1
  {
    var sent := SendAnswer(h, text);
    SendFromReady(h, token, text, sent);
    SettleTheOnly(sent, token, w, r, h');
  }

  lemma InitIsReady(token: string, h: Hook)
    requires h == Init(Some(token))
    ensures Ready(h, token) && h.messages == [] && DeriveTurnIndex(h.messages) == 0
  {
  }

  lemma TwoTurns(token: string, x: string, y: string, w1: World, w2: World, r1: Result, r2: Result, h0: Hook, h1: Hook,
                 h2: Hook)
    requires Trim(x) != "" && Trim(y) != "" && Ready(h0, token)
    requires h0.messages == [] && AfterTurn(h0, x, w1, r1, h1) && AfterTurn(h1, y, w2, r2, h2)
    ensures r1.Question? && r2.Question? && Ready(h2, token) && DeriveTurnIndex(h2.messages) == 2
    ensures h2.messages == [Message(User, Trim(x), 0), Message(Assistant, r1.text, 0)]
                           + [Message(User, Trim(y), 0), Message(Assistant, r2.text, 0)]
  {
    ReadyTurn(h0, token, x, w1, r1, h1);
    assert h1.messages == [Message(User, Trim(x), 0), Message(Assistant, r1.text, 0)];
    ReadyTurn(h1, token, y, w2, r2, h2);
  }

  /** From the first render on: three texts sent, each heeded with the server's answer, give two
      questions and then the prompt, and the whole conversation is shown. */
  lemma {:induction false} ThreeTurnsGiveThePrompt(token: string, x: string, y: string, z: string, w1: World, w2: World,
                                                 w3: World, r1: Result, r2: Result, r3: Result, h0: Hook, h1: Hook,
                                                 h2: Hook, h3: Hook)
    requires Trim(x) != "" && Trim(y) != "" && Trim(z) != "" && h0 == Init(Some(token))
    requires AfterTurn(h0, x, w1, r1, h1) && AfterTurn(h1, y, w2, r2, h2) && AfterTurn(h2, z, w3, r3, h3)
    ensures h3.messages == [Message(User, Trim(x), 0), Message(Assistant, r1.text, 0)]
                           + [Message(User, Trim(y), 0), Message(Assistant, r2.text, 0)]
                           + [Message(User, Trim(z), 0), Message(Assistant, r3.text, 0)]
    ensures r1.Question? && r2.Question? && r3.Prompt?
    ensures h3.finished && h3.status == Done && h3.synthesizedPrompt == Some(r3.text)
  {
    InitIsReady(token, h0);
    TwoTurns(token, x, y, w1, w2, r1, r2, h0, h1, h2);
    ReadyTurn(h2, token, z, w3, r3, h3);
  }

  lemma StepKeepsNumber(h: Hook, e: Event)
    requires Enabled(h, e)
    ensures h.seqNo <= Step(h, e).seqNo
  {
    if e.DoSettle? {
      var i, r := e.i, h.outstanding[e.i];
      var reply := if e.s.Replied? then Serve(r.args, e.s.w) else None;
      assert Settle(h, i, e.s) == Conclude(h, i, e.s.Thrown?, reply);
      HeardKeepsNumber(h.(outstanding := Without(h.outstanding, i)), r, e.s.Thrown?, reply);
    }
  }

  lemma {:induction false} RunKeepsNumber(h: Hook, es: seq<Event>)
    requires CanRun(h, es)
    ensures h.seqNo <= Run(h, es).seqNo
    decreases es
  {
    if es != [] {
      StepKeepsNumber(h, es[0]);
      RunKeepsNumber(Step(h, es[0]), es[1..]);
    }
  }

  /** A reset or a change of session leaves nothing shown and nothing blocked; and no request sent
      before it is ever heeded again, whatever runs after it. */
  lemma {:induction false} ClearedForGood(h: Hook, e: Event, es: seq<Event>, i: nat)
    requires Inv(h) && Enabled(h, e) && ClearsFlow(e) && CanRun(Step(h, e), es) && i < |h.outstanding|
    ensures var cleared := Step(h, e);
            && cleared.messages == [] && cleared.status == Idle && cleared.synthesizedPrompt == None
            && cleared.retryAfterMs == 0.0
            && !Blocked(cleared) && cleared.token == h.token
            && (e.DoReset? ==> cleared.lastArgs == None && cleared.session == h.session)
            && (e.DoEffect? ==> cleared.lastArgs == h.lastArgs && cleared.session == h.session + 1 && cleared.available)
    ensures h.outstanding[i].id < Run(Step(h, e), es).seqNo
  {
    assert Given(h.outstanding, i, h.seqNo);
    RunKeepsNumber(Step(h, e), es);
  }

  /** A quota refusal is over when its timer fires. */
  lemma TimerFrees(h: Hook)
    requires Inv(h) && Enabled(h, DoTimer) && h.mounted && !h.finished
    ensures !Blocked(Step(h, DoTimer)) && Step(h, DoTimer).status == Idle
    ensures Step(h, DoTimer).messages == h.messages
  {
  }

  /** A render or the timer touches nothing shown but the status; a render with the token in use, or a
      timer after the hook was unmounted, changes nothing at all. */
  lemma QuietSteps(h: Hook, token: Option<string>)
    ensures token == h.token ==> Render(h, token) == h
    ensures token != h.token ==> Render(h, token) == h.(token := token, effectDue := true)
    ensures !h.mounted ==> QuotaTimer(h) == h
    ensures h.mounted ==> QuotaTimer(h) == h.(status := Idle)
  {
  }

  lemma StepKeepsUnmounted(h: Hook, e: Event)
    requires Enabled(h, e) && !h.mounted
    ensures !Step(h, e).mounted
  {
    if e.DoSettle? {
      UnmountedIgnores(h, e.i, e.s);
    }
  }

  /** An unmounted hook shows nothing new, whatever a request brings. */
  lemma UnmountedIgnores(h: Hook, i: nat, s: Settlement)
    requires i < |h.outstanding| && !h.mounted
    ensures Settle(h, i, s)
         == h.(outstanding := Without(h.outstanding, i),
               inFlight := h.inFlight && h.outstanding[i].id != h.seqNo)
  {
    var reply := if s.Replied? then Serve(h.outstanding[i].args, s.w) else None;
    assert Settle(h, i, s) == Conclude(h, i, s.Thrown?, reply);
  }

  /** Once unmounted, always. */
  lemma {:induction false} UnmountedForGood(h: Hook, es: seq<Event>)
    requires CanRun(Step(h, DoUnmount), es)
    ensures !Run(Step(h, DoUnmount), es).mounted
  {
    RunKeepsUnmounted(Step(h, DoUnmount), es);
  }

  lemma {:induction false} RunKeepsUnmounted(h: Hook, es: seq<Event>)
    requires !h.mounted && CanRun(h, es)
    ensures !Run(h, es).mounted
    decreases es
  {
    if es != [] {
      StepKeepsUnmounted(h, es[0]);
      RunKeepsUnmounted(Step(h, es[0]), es[1..]);
    }
  }

  // ---- no message crosses a session change --------------------------------------------------------

  predicate Own(messages: seq<Message>, session: nat) {
    forall m | m in messages :: m.session == session
  }

  /** The request's messages belong to the session it was sent in; the latest one was sent in the
      current session, under the token still in use unless a render has just replaced it. */
  predicate OwnRequest(h: Hook, r: Request) {
    && Own(r.args.next, r.session)
    && (r.id == h.seqNo ==> r.session == h.session && (!h.effectDue ==> h.token == Some(r.token)))
  }

  predicate OwnRequests(h: Hook) {
    forall r | r in h.outstanding :: OwnRequest(h, r)
  }

  predicate Earlier(messages: seq<Message>, session: nat) {
    messages != [] && forall m | m in messages :: m.session < session
  }

  /** What `retry` would send is the current session's while a conversation is shown, and an
      earlier session's while none is. */
  predicate OwnLastArgs(h: Hook) {
    h.lastArgs.Some? ==>
      h.lastArgs.value.next != []
      && if h.messages != [] then Own(h.lastArgs.value.next, h.session) else Earlier(h.lastArgs.value.next, h.session)
  }

  ghost predicate SessionInv(h: Hook) {
    && Numbered(h.outstanding, h.seqNo)
    && (h.inFlight <==> Awaits(h.outstanding, h.seqNo))
    && Own(h.messages, h.session)
    && (h.status == Errored || h.inFlight ==> h.messages != [])
    && OwnLastArgs(h)
    && OwnRequests(h)
  }

  /** A retry now would send a request. */
  predicate RetryActs(h: Hook) {
    !h.inFlight && h.lastArgs.Some? && h.token.Some?
  }

  /** A retry that takes effect finds a conversation shown. */
  predicate Careful(h: Hook, e: Event) {
    e.DoRetry? && RetryActs(h) ==> h.messages != []
  }

  predicate CarefulRun(h: Hook, es: seq<Event>)
    requires CanRun(h, es)
    decreases es
  {
    es != [] ==> Careful(h, es[0]) && CarefulRun(Step(h, es[0]), es[1..])
  }

  /** The panel offers a retry only after an error. */
  predicate PanelRun(h: Hook, es: seq<Event>)
    requires CanRun(h, es)
    decreases es
  {
    es != [] ==> (es[0].DoRetry? ==> h.status == Errored) && PanelRun(Step(h, es[0]), es[1..])
  }

  lemma DriveKeepsSession(h: Hook, a: Args, h': Hook)
    requires h' == Drive(h, a) && SessionInv(h) && !h.inFlight && Own(a.next, h.session) && a.next != []
    ensures SessionInv(h')
  {
    if h.token.Some? {
      NumberedNext(h.outstanding, h.seqNo, Request(h.seqNo + 1, h.token.value, h.session, a));
      forall r | r in h'.outstanding ensures OwnRequest(h', r) {
        if r in h.outstanding {
          var i :| 0 <= i < |h.outstanding| && h.outstanding[i] == r;
          assert Given(h.outstanding, i, h.seqNo) && OwnRequest(h, r);
        }
      }
    } else {
      OnlyThoseFieldsMatter(h, h');
    }
  }

  lemma OnlyThoseFieldsMatter(h: Hook, h': Hook)
    requires OwnRequests(h) && forall r | r in h'.outstanding :: r in h.outstanding
    requires h'.seqNo == h.seqNo && h'.session == h.session && h'.token == h.token && h'.effectDue == h.effectDue
    ensures OwnRequests(h')
  {
    forall r | r in h'.outstanding ensures OwnRequest(h', r) {
      assert r in h.outstanding && OwnRequest(h, r);
    }
  }

  /** Once the number has moved on, no outstanding request is the latest. */
  lemma NoneIsLatest(h: Hook, h': Hook)
    requires SessionInv(h) && h'.outstanding == h.outstanding && h'.seqNo > h.seqNo
    ensures Numbered(h'.outstanding, h'.seqNo) && !Awaits(h'.outstanding, h'.seqNo) && OwnRequests(h')
  {
    NumberedLater(h.outstanding, h.seqNo, h'.seqNo);
    forall r | r in h'.outstanding ensures OwnRequest(h', r) {
      var i :| 0 <= i < |h.outstanding| && h.outstanding[i] == r;
      assert Given(h.outstanding, i, h.seqNo) && OwnRequest(h, r);
    }
  }

  lemma ConcludeKeepsSession(h: Hook, i: nat, thrown: bool, reply: Option<Reply>, h': Hook)
    requires SessionInv(h) && i < |h.outstanding| && h' == Conclude(h, i, thrown, reply)
    ensures SessionInv(h')
  {
    var r := h.outstanding[i];
    var h1 := h.(outstanding := Without(h.outstanding, i));
    NumberedWithout(h.outstanding, h.seqNo, i);
    assert OwnRequest(h, r);
    if !thrown && Heeds(h, r) {
      HeedKeepsFlight(h1, r, reply, Heed(h1, r, reply));
      assert Own(Heed(h1, r, reply).messages, h.session);
    }
    OnlyThoseFieldsMatter(h, h');
  }

  lemma StepKeepsSession(h: Hook, e: Event, h': Hook)
    requires SessionInv(h) && Enabled(h, e) && Careful(h, e) && h' == Step(h, e)
    ensures SessionInv(h')
  {
    match e
    case DoRetry =>
      if RetryActs(h) {
        DriveKeepsSession(h, h.lastArgs.value, h');
      } else {
        OnlyThoseFieldsMatter(h, h');
      }
    case DoSend(text) =>
      if Trim(text) != "" && !Blocked(h) {
        DriveKeepsSession(h, Args(h.messages + [Message(User, Trim(text), h.session)], false), h');
      }
    case DoGenerate =>
      if !Blocked(h) && h.messages != [] {
        DriveKeepsSession(h, Args(h.messages, true), h');
      }
    case DoSettle(i, s) =>
      match s {
        case Thrown => ConcludeKeepsSession(h, i, true, None, h');
        case Replied(w) => ConcludeKeepsSession(h, i, false, Serve(h.outstanding[i].args, w), h');
      }
    case DoReset => NoneIsLatest(h, h');
    case DoEffect => NoneIsLatest(h, h');
    case DoRender(token) =>
      forall r | r in h'.outstanding ensures OwnRequest(h', r) {
        assert OwnRequest(h, r);
      }
    case DoTimer => OnlyThoseFieldsMatter(h, h');
    case DoUnmount => OnlyThoseFieldsMatter(h, h');
  }

  lemma {:induction false} RunKeepsSession(h: Hook, es: seq<Event>)
    requires SessionInv(h) && CanRun(h, es) && CarefulRun(h, es)
    ensures SessionInv(Run(h, es))
    decreases es
  {
    if es != [] {
      StepKeepsSession(h, es[0], Step(h, es[0]));
      RunKeepsSession(Step(h, es[0]), es[1..]);
    }
  }

  /** While retries are made only with a conversation shown, every message shown, and every
      message of every request, was written in the session it is shown or sent in; and the latest
      request went out under the token still in use. */
  lemma SessionsDoNotMix(token: Option<string>, es: seq<Event>)
    requires CanRun(Init(token), es) && CarefulRun(Init(token), es)
    ensures
      var h := Run(Init(token), es);
      && (forall m | m in h.messages :: m.session == h.session)
      && (forall r | r in h.outstanding :: forall m | m in r.args.next :: m.session == r.session)
      && (forall r | r in h.outstanding && r.id == h.seqNo ::
            r.session == h.session && (h.effectDue || h.token == Some(r.token)))
  {
    RunKeepsSession(Init(token), es);
    var h := Run(Init(token), es);
    forall r | r in h.outstanding ensures OwnRequest(h, r) {
    }
  }

  /** The panel is careful: an error is only ever shown with a conversation. */
  lemma {:induction false} PanelIsCareful(h: Hook, es: seq<Event>)
    requires SessionInv(h) && CanRun(h, es) && PanelRun(h, es)
    ensures CarefulRun(h, es)
    decreases es
  {
    if es != [] {
      StepKeepsSession(h, es[0], Step(h, es[0]));
      PanelIsCareful(Step(h, es[0]), es[1..]);
    }
  }

  /** As the panel uses the hook, from its first render on, no message is shown or sent outside the
      session it was written in. */
  lemma PanelSessionsDoNotMix(token: Option<string>, es: seq<Event>)
    requires CanRun(Init(token), es) && PanelRun(Init(token), es)
    ensures
      var h := Run(Init(token), es);
      && (forall m | m in h.messages :: m.session == h.session)
      && (forall r | r in h.outstanding :: forall m | m in r.args.next :: m.session == r.session)
      && (forall r | r in h.outstanding && r.id == h.seqNo ::
            r.session == h.session && (h.effectDue || h.token == Some(r.token)))
  {
    PanelIsCareful(Init(token), es);
    SessionsDoNotMix(token, es);
  }

  /** What the step sends, if anything, was all written in the present session. */
  predicate SendsOwn(h: Hook, e: Event)
    requires Enabled(h, e)
  {
    var after := Step(h, e).outstanding;
    |after| > |h.outstanding| ==> Own(after[|h.outstanding|].args.next, h.session)
  }

  /** No step of the run sends a message of another session. */
  predicate NoLeak(h: Hook, es: seq<Event>)
    requires CanRun(h, es)
    decreases es
  {
    es != [] ==> SendsOwn(h, es[0]) && NoLeak(Step(h, es[0]), es[1..])
  }

  lemma SettleSendsNothing(h: Hook, i: nat, s: Settlement)
    requires i < |h.outstanding|
    ensures |Settle(h, i, s).outstanding| < |h.outstanding|
  {
    var r, h1 := h.outstanding[i], h.(outstanding := Without(h.outstanding, i));
    if s.Replied? && Heeds(h, r) {
      HeedKeepsFlight(h1, r, Serve(r.args, s.w), Heed(h1, r, Serve(r.args, s.w)));
    }
  }

  lemma SendsOwnIffCareful(h: Hook, e: Event)
    requires SessionInv(h) && Enabled(h, e)
    ensures SendsOwn(h, e) <==> Careful(h, e)
  {
    match e
    case DoRetry =>
      if RetryActs(h) && h.messages == [] {
        assert h.lastArgs.value.next[0] in h.lastArgs.value.next;
      }
    case DoSettle(i, s) => SettleSendsNothing(h, i, s);
    case DoSend(text) =>
    case DoGenerate =>
    case DoReset =>
    case DoEffect =>
    case DoRender(_) =>
    case DoTimer =>
    case DoUnmount =>
  }

  lemma {:induction false} NoLeakIffCareful(h: Hook, es: seq<Event>)
    requires SessionInv(h) && CanRun(h, es)
    ensures NoLeak(h, es) <==> CarefulRun(h, es)
    decreases es
  {
    if es != [] {
      SendsOwnIffCareful(h, es[0]);
      if Careful(h, es[0]) {
        StepKeepsSession(h, es[0], Step(h, es[0]));
        NoLeakIffCareful(Step(h, es[0]), es[1..]);
      }
    }
  }

  /** The care is exactly what is needed, over whole runs: nothing of another session is ever sent if
      and only if every retry that takes effect finds a conversation shown. */
  lemma RetryIsSafeIff(token: Option<string>, es: seq<Event>)
    requires CanRun(Init(token), es)
    ensures NoLeak(Init(token), es) <==> CarefulRun(Init(token), es)
  {
    NoLeakIffCareful(Init(token), es);
  }

  /** It does happen otherwise: the session effect keeps `lastArgs`, so a retry right after a change
      of account sends the last account's conversation under the new one. */
  lemma RetryCanLeak()
    ensures
      var es := [DoSend("a castle"), DoSettle(0, Thrown), DoRender(Some("second")), DoEffect, DoRetry];
      && CanRun(Init(Some("first")), es)
      && var h := Run(Init(Some("first")), es);
         && |h.outstanding| == 1 && h.outstanding[0].token == "second" && h.outstanding[0].session == 1
         && h.outstanding[0].args.next == [Message(User, "a castle", 0)]
  {
    var h0 := Init(Some("first"));
    var es := [DoSend("a castle"), DoSettle(0, Thrown), DoRender(Some("second")), DoEffect, DoRetry];
    assert Trim("a castle") == "a castle";
    var a := Args([Message(User, "a castle", 0)], false);
    var h1 := Step(h0, es[0]);
    assert h1 == Drive(h0, a);
    var h2 := Step(h1, es[1]);
    assert h2.outstanding == [] && h2.lastArgs == Some(a) && !h2.inFlight;
    var h3 := Step(h2, es[2]);
    var h4 := Step(h3, es[3]);
    var h5 := Step(h4, es[4]);
    assert h5.outstanding == [Request(4, "second", 1, a)];
    assert es[1..][0] == es[1] && es[1..][1..][0] == es[2] && es[1..][1..][1..][0] == es[3];
    assert es[1..][1..][1..][1..] == [es[4]];
    assert CanRun(h5, []) && CanRun(h4, [es[4]]);
    assert Run(h4, [es[4]]) == h5;
    assert es[1..][1..][1..] == [es[3], es[4]] && CanRun(h3, [es[3], es[4]]) && Run(h3, [es[3], es[4]]) == h5;
  }

  // ---- the hook itself --------------------------------------------------------------------------------

  class Conversation {
    var token: Option<string>
    var effectDue: bool
    var session: nat
    var messages: seq<Message>
    var status: Status
    var available: bool
    var retryAfterMs: real
    var synthesizedPrompt: Option<string>
    var synthSeq: nat
    var seqNo: nat
    var inFlight: bool
    var finished: bool
    var lastArgs: Option<Args>
    var mounted: bool
    var outstanding: seq<Request>

    function State(): Hook
      reads this
    {
      Hook(token, effectDue, session, messages, status, available, retryAfterMs, synthesizedPrompt, synthSeq, seqNo,
           inFlight, finished, lastArgs, mounted, outstanding)
    }

    constructor (token: Option<string>)
      ensures State() == Init(token)
    {
      this.token, effectDue, session, messages, status, available := token, false, 0, [], Idle, true;
      retryAfterMs, synthesizedPrompt, synthSeq, seqNo := 0.0, None, 0, 1;
      inFlight, finished, lastArgs, mounted, outstanding := false, false, None, true, [];
    }

    method DriveTurn(next: seq<Message>, force: bool)
      modifies this
      ensures State() == Drive(old(State()), Args(next, force))
    {
      if token.None? {
        available := false;
        return;
      }
      lastArgs := Some(Args(next, force));
      inFlight := true;
      messages := next;
      status := Thinking;
      seqNo := seqNo + 1;
      outstanding := outstanding + [Request(seqNo, token.value, session, Args(next, force))];
    }

    method RetryTurn()
      modifies this
      ensures State() == Retry(old(State()))
    {
      if inFlight || lastArgs.None? {
        return;
      }
      DriveTurn(lastArgs.value.next, lastArgs.value.force);
    }

    method Send(text: string)
      modifies this
      ensures State() == SendAnswer(old(State()), text)
    {
      var t := Trim(text);
      if t == "" || inFlight || finished || status == Quota {
        return;
      }
      DriveTurn(messages + [Message(User, t, session)], false);
    }

    method Generate()
      modifies this
      ensures State() == GenerateNow(old(State()))
    {
      if inFlight || finished || status == Quota || |messages| == 0 {
        return;
      }
      DriveTurn(messages, true);
    }

    /** What a reset and a session change have in common. */
    method Forget()
      modifies this
      ensures State() == Forgotten(old(State()))
    {
      seqNo := seqNo + 1;
      inFlight, finished := false, false;
      messages, status := [], Idle;
      synthesizedPrompt, retryAfterMs := None, 0.0;
    }

    method Clear()
      modifies this
      ensures State() == Reset(old(State()))
    {
      Forget();
      lastArgs := None;
    }

    method OnSessionChange()
      modifies this
      ensures State() == SessionEffect(old(State()))
    {
      Forget();
      effectDue, session, available := false, session + 1, true;
    }

    method OnQuotaTimer()
      modifies this
      ensures State() == QuotaTimer(old(State()))
    {
      if mounted {
        status := Idle;
      }
    }

    /** The continuation of a request: the response arrived, or the fetch threw. */
    method OnSettled(i: nat, thrown: bool, reply: Option<Reply>)
      requires i < |outstanding|
      modifies this
      ensures State() == Conclude(old(State()), i, thrown, reply)
    {
      var r := outstanding[i];
      outstanding := Without(outstanding, i);
      ghost var before := State();
      Hear(r, thrown, reply);
      HeardKeepsNumber(before, r, thrown, reply);
      if r.id == seqNo {
        inFlight := false;
      }
    }

    method Hear(r: Request, thrown: bool, reply: Option<Reply>)
      modifies this
      ensures State() == Heard(old(State()), r, thrown, reply)
    {
      if thrown {
        if r.id == seqNo && mounted {
          status := Errored;
        }
        return;
      }
      if r.id == seqNo && mounted && token == Some(r.token) {
        HandleReply(r, reply);
      }
    }

    method HandleReply(r: Request, reply: Option<Reply>)
      modifies this
      ensures State() == Heed(old(State()), r, reply)
    {
      if reply.Some? && reply.value.Off? {
        available := false;
        status := Status.Off;
        return;
      }
      if reply.Some? && reply.value.QuotaExhausted? {
        retryAfterMs := reply.value.retryAfterMs;
        status := Quota;
        return;
      }
      if reply.Some? && reply.value.Answer? {
        var result := reply.value.result;
        if result.Prompt? {
          finished := true;
          synthesizedPrompt := Some(result.text);
          synthSeq := synthSeq + 1;
          messages := r.args.next + [Message(Assistant, result.text, r.session)];
          status := Done;
        } else {
          messages := r.args.next + [Message(Assistant, result.text, r.session)];
          status := Asking;
        }
        return;
      }
      status := Errored;
    }
  }
}
