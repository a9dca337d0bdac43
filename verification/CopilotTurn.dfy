/** One turn of the copilot as the server takes it: the turn decision of
    `backend/src/lib/copilot-client.ts` behind the route of `backend/src/routes/copilot.ts`. */
module CopilotTurn {
  import opened GeminiQuota
  import opened JsString
  import opened QuotaStore
  import opened Wrappers

  const MAX_TURNS: nat := 3
  const SYNTH_AT_TURN_INDEX: nat := MAX_TURNS - 1
  const PROMPT_MAX_CHARS: nat := 1000
  const CONTENT_MAX: nat := 2000

  /** Stands for the request to write the prompt now; nothing depends on its words. */
  const SYNTH_INSTRUCTION := "Give the prompt."

  datatype Role = User | Assistant

  /** `session` tells in which sign-in session the message was written; no decision reads it. */
  datatype Message = Message(role: Role, content: string, session: nat)

  datatype Args = Args(next: seq<Message>, force: bool)

  /** The number of copilot turns already taken. */
  function DeriveTurnIndex(messages: seq<Message>): nat {
    if messages == [] then 0
    else DeriveTurnIndex(messages[..|messages| - 1]) + if messages[|messages| - 1].role == Assistant then 1 else 0
  }

  /** The request schema of the route. */
  predicate ValidTurn(messages: seq<Message>) {
    && 1 <= |messages| <= 2 * MAX_TURNS + 1
    && (forall m | m in messages :: 1 <= |m.content| <= CONTENT_MAX)
    && exists m | m in messages :: m.role == User
  }

  predicate Synthesizes(a: Args) {
    a.force || DeriveTurnIndex(a.next) >= SYNTH_AT_TURN_INDEX
  }

  function Clamp(text: string, max: nat): string {
    if |text| <= max then text else TrimEnd(text[..max])
  }

  function WithSynthesisInstruction(messages: seq<Message>, session: nat): seq<Message> {
    if messages != [] && messages[|messages| - 1].role == User then
      messages[..|messages| - 1]
      + [messages[|messages| - 1].(content := messages[|messages| - 1].content + "\n\n" + SYNTH_INSTRUCTION)]
    else messages + [Message(User, SYNTH_INSTRUCTION, session)]
  }

  datatype Result = Question(text: string) | Prompt(text: string)

  /** The model's text for a conversation, unless the call failed or timed out. */
  type Model = seq<Message> -> Option<string>

  /** What the model is asked: the caller's conversation, with the instruction when the turn
      synthesizes. */
  function Asked(a: Args): seq<Message> {
    if Synthesizes(a) then WithSynthesisInstruction(a.next, 0) else a.next
  }

  /** The client's turn. */
  function Turn(a: Args, model: Model): Option<Result> {
    var raw := model(Asked(a));
    var text := Trim(if raw.Some? then raw.value else "");
    if text == "" then None
    else if Synthesizes(a) then Some(Prompt(Clamp(text, PROMPT_MAX_CHARS)))
    else Some(Question(text))
  }

  /** The body of a response with a success status. */
  datatype Reply = Off | QuotaExhausted(retryAfterMs: real) | Unavailable | Answer(result: Result)

  /** What the route meets while it serves one request: whether it lets the caller in, its
      configuration, the tables when it checks the quota and when it failed, and the model. */
  datatype World = World(admitted: bool, configured: bool, limits: Limits, scope: string,
                         checked: Tables, checkedAt: int, model: Model, after: Tables, failedAt: int)

  /** The reply to a request; `None` is any status that is not a success: no session service, a
      missing or invalid token, too many requests, or a body that is not valid. */
  function Serve(a: Args, w: World): Option<Reply> {
    if !w.admitted || !ValidTurn(a.next) then None
    else if !w.configured then Some(Off)
    else
      match CheckBudget(w.checked, Copilot, w.limits, w.scope, w.checkedAt)
      case Exhausted(ms) => Some(QuotaExhausted(ms))
      case Ok =>
        match Turn(a, w.model)
        case Some(r) => Some(Answer(r))
        case None =>
          match QuotaStateAfterFailure(w.after, Copilot, w.failedAt)
          case Some(ms) => Some(QuotaExhausted(ms))
          case None => Some(Unavailable)
  }

  // ---- what a reply can be ---------------------------------------------------------------------

  lemma {:induction false} TrimIsTrimmed(s: string)
    ensures Trim(s) != "" ==> !Blank(Trim(s)[0])
  {
    TrimStartsClean(TrimEnd(s));
  }

  /** A turn that answers synthesizes exactly when it is forced or two turns have been taken; a
      prompt is never empty and never longer than the ceiling. */
  lemma TurnDecides(a: Args, model: Model)
    requires Turn(a, model).Some?
    ensures Turn(a, model).value.Prompt? <==> a.force || DeriveTurnIndex(a.next) >= 2
    ensures Turn(a, model).value.text != ""
    ensures Turn(a, model).value.Prompt? ==> |Turn(a, model).value.text| <= 1000
  {
    var raw := model(Asked(a));
    var text := Trim(if raw.Some? then raw.value else "");
    TrimIsTrimmed(if raw.Some? then raw.value else "");
    if |text| > PROMPT_MAX_CHARS {
      TrimEndKeepsStart(text[..PROMPT_MAX_CHARS]);
    }
  }

  /** The conversation given to the model ends with a user turn that asks for the prompt, and the
      turns before it are the caller's. */
  lemma InstructionComesLast(messages: seq<Message>, session: nat)
    ensures var sent := WithSynthesisInstruction(messages, session);
            && sent != [] && sent[|sent| - 1].role == User
            && |SYNTH_INSTRUCTION| <= |sent[|sent| - 1].content|
            && (var c := sent[|sent| - 1].content; c[|c| - |SYNTH_INSTRUCTION|..] == SYNTH_INSTRUCTION)
            && sent[..|sent| - 1] <= messages && |messages| <= |sent|
            && DeriveTurnIndex(sent) == DeriveTurnIndex(messages)
  {
    var sent := WithSynthesisInstruction(messages, session);
    if messages != [] && messages[|messages| - 1].role == User {
      assert sent[..|sent| - 1] == messages[..|messages| - 1];
    } else {
      assert sent[..|sent| - 1] == messages;
    }
  }

  /** The instruction is given exactly when the turn is forced or two turns were taken. */
  lemma InstructedIff(a: Args)
    ensures Asked(a) == a.next
       <==> !a.force
            && !exists i, j | 0 <= i < j < |a.next| :: a.next[i].role == Assistant && a.next[j].role == Assistant
    ensures Asked(a) == a.next || Asked(a) == WithSynthesisInstruction(a.next, 0)
  {
    TwoTurnsIff(a.next);
    var sent := WithSynthesisInstruction(a.next, 0);
    assert |sent| == |a.next| ==> |sent[|sent| - 1].content| > |a.next[|a.next| - 1].content|;
  }

  /** And it holds all that was said: every message as it was, but for the last one if it is the user's,
      whose words come before the instruction. */
  lemma NothingIsDropped(messages: seq<Message>, session: nat, i: nat)
    requires i < |messages|
    ensures var sent := WithSynthesisInstruction(messages, session);
            && i < |sent|
            && sent[i].role == messages[i].role
            && messages[i].content <= sent[i].content
            && (i < |messages| - 1 || messages[i].role == Assistant ==> sent[i] == messages[i])
  {
  }

  /** The text of an answer is the model's, without the blanks around it... */
  lemma AnswerIsTheModels(a: Args, model: Model) returns (before: string, after: string)
    ensures Turn(a, model).Some? <==> model(Asked(a)).Some? && exists c | c in model(Asked(a)).value :: !Blank(c)
    ensures Turn(a, model).Some?
            && (Turn(a, model).value.Question? || |Trim(model(Asked(a)).value)| <= PROMPT_MAX_CHARS) ==>
              model(Asked(a)).value == before + Turn(a, model).value.text + after && AllBlank(before) && AllBlank(after)
  {
    var s := if model(Asked(a)).Some? then model(Asked(a)).value else "";
    before, after := TrimCuts(s);
    if Trim(s) == "" {
      forall c | c in s ensures Blank(c) {
        assert s == before + after;
      }
    } else {
      assert Trim(s)[0] in s;
    }
  }

  /** ...and of a prompt too long, as much as fits, without the blanks at its end. */
  lemma LongPromptIsCut(text: string, max: nat)
    requires |text| > max
    ensures Clamp(text, max) <= text && |Clamp(text, max)| <= max && AllBlank(text[|Clamp(text, max)|..max])
    ensures Clamp(text, max) != "" ==> !Blank(Clamp(text, max)[|Clamp(text, max)| - 1])
  {
    TrimEndCuts(text[..max]);
    assert text[|Clamp(text, max)|..max] == text[..max][|Clamp(text, max)|..];
  }

  /** Two turns were taken exactly if two messages are the copilot's. */
  lemma {:induction false} TwoTurnsIff(messages: seq<Message>)
    ensures DeriveTurnIndex(messages) >= 1 <==> exists i | 0 <= i < |messages| :: messages[i].role == Assistant
    ensures DeriveTurnIndex(messages) >= 2
       <==> exists i, j | 0 <= i < j < |messages| :: messages[i].role == Assistant && messages[j].role == Assistant
  {
    if messages != [] {
      var n := |messages| - 1;
      TwoTurnsIff(messages[..n]);
      if i, j :| 0 <= i < j < |messages| && messages[i].role == Assistant && messages[j].role == Assistant {
        assert messages[..n][i] == messages[i];
      }
    }
  }

  /** A turn that is let in, valid, within its quota and answered by the model is answered. */
  lemma ServeAnswers(a: Args, w: World)
    ensures Serve(a, w).Some? && Serve(a, w).value.Answer? <==>
              && w.admitted && w.configured
              && 1 <= |a.next| <= 7 && (forall m | m in a.next :: 1 <= |m.content| <= 2000)
              && (exists m | m in a.next :: m.role == User)
              && CheckBudget(w.checked, Copilot, w.limits, w.scope, w.checkedAt).Ok?
              && w.model(Asked(a)).Some? && exists c | c in w.model(Asked(a)).value :: !Blank(c)
    ensures Serve(a, w) == None <==> !w.admitted || !ValidTurn(a.next)
    ensures Serve(a, w) == Some(Off) <==> w.admitted && ValidTurn(a.next) && !w.configured
  {
    var _, _ := AnswerIsTheModels(a, w.model);
  }

  /** One that is not answered says why: the quota's wait when it was spent before the call, the wait of
      the cooldown when one is on after a failed call, and else that the copilot is unavailable. */
  lemma ServeRefuses(a: Args, w: World)
    requires w.admitted && ValidTurn(a.next) && w.configured
    ensures var budget := CheckBudget(w.checked, Copilot, w.limits, w.scope, w.checkedAt);
            var after := QuotaStateAfterFailure(w.after, Copilot, w.failedAt);
            && (budget.Exhausted? ==> Serve(a, w) == Some(QuotaExhausted(budget.retryAfterMs)))
            && (budget.Ok? && Turn(a, w.model) == None && after.Some? ==>
                  Serve(a, w) == Some(QuotaExhausted(after.value)))
            && (budget.Ok? && Turn(a, w.model) == None && after == None ==> Serve(a, w) == Some(Unavailable))
            && (budget.Ok? && Turn(a, w.model).Some? ==> Serve(a, w) == Some(Answer(Turn(a, w.model).value)))
  {
  }

  /** Every reply: a quota refusal announces a positive wait, and an answer is of the kind the
      conversation calls for. */
  lemma ReplyFacts(a: Args, w: World)
    ensures Serve(a, w).Some? && Serve(a, w).value.QuotaExhausted? ==> Serve(a, w).value.retryAfterMs > 0.0
    ensures Serve(a, w).Some? && Serve(a, w).value.Answer? ==>
      ValidTurn(a.next) && (Serve(a, w).value.result.Prompt? <==> Synthesizes(a)) && Serve(a, w).value.result.text != ""
  {
    if Serve(a, w).Some? && Serve(a, w).value.Answer? {
      TurnDecides(a, w.model);
    }
  }
}
