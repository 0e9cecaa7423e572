/** The agent's host object, changing its fields step by step as `cli/host.cpp` does. Each method
    is tied to the function of the protocol that says what it does. */
module AgentHosts {
  import opened Text
  import opened ChatRoles
  import opened AgentResponse
  import opened AgentProtocol

  class AgentHost {
    var transcript: seq<ChatMessage>
    var currentSession: string
    var pending: Pending
    var rows: seq<Row>
    var log: seq<Event>
    var posts: nat

    ghost function Snapshot(): State
      reads this
    {
      State(transcript, currentSession, pending, rows, log, posts)
    }

    constructor (sessionId: string, stored: seq<Row>)
      ensures Snapshot() == State([], sessionId, NoPending, stored, [], 0)
    {
      transcript, currentSession, pending, rows, log, posts := [], sessionId, NoPending, stored, [], 0;
    }

    method RecordAgentMessage(w: World, session: string, role: Role, content: string)
      modifies this
      ensures Snapshot() == Record(w, old(Snapshot()), session, role, content)
    {
      transcript := transcript + [ChatMessage(role, content)];
      var hop := |transcript| - 1;
      if w.storeOpen {
        rows := rows + [Row(session, hop, RoleName(role), content)];
      }
    }

    method PostJson(w: World) returns (r: Reply)
      modifies this
      ensures r == w.post(old(posts))
      ensures Snapshot() == old(Snapshot()).(posts := old(posts) + 1)
    {
      r := w.post(posts);
      posts := posts + 1;
    }

    /** One classification, repeating the request while the reply is empty. */
    method ClassifyViaLlm(w: World) returns (decision: Decision)
      modifies this
      ensures Classified(decision, posts) == Classify(w, old(posts))
      ensures Snapshot() == old(Snapshot()).(posts := posts)
    {
      if w.requestProblem.Some? {
        return TransportFailed(w.requestProblem.value);
      }
      var attempt: nat := 0;
      var response := PostJson(w);
      while IsEmptyReply(response) && attempt < MAX_EMPTY_RETRIES
        invariant attempt <= MAX_EMPTY_RETRIES && posts > 0
        invariant response == w.post(posts - 1)
        invariant Snapshot() == old(Snapshot()).(posts := posts)
        invariant ClassifyFrom(w, posts - 1, attempt) == Classify(w, old(posts))
        decreases MAX_EMPTY_RETRIES - attempt
      {
        attempt := attempt + 1;
        response := PostJson(w);
      }
      decision := Decide(response);
    }

    method PhraseResult(w: World, call: Call, resultJson: string) returns (text: string)
      modifies this
      ensures Phrased(text, posts) == Phrase(w, old(posts), call, resultJson)
      ensures Snapshot() == old(Snapshot()).(posts := posts)
    {
      text := w.template(call, resultJson);
      if text == "" {
        text := GenericSentence(resultJson);
        if w.requestProblem.None? {
          var response := PostJson(w);
          if response.ok && response.text != "" {
            text := response.text;
          }
        }
      }
    }

    method ExecuteDecisionOrPause(w: World, session: string, call: Call, actions: seq<Action>, thinking: string)
      returns (outcome: Outcome)
      modifies this
      ensures outcome == ExecuteOrPause(w, old(Snapshot()), session, call, actions, thinking)
      ensures Snapshot() == outcome.state
    {
      hide Record, IsGated;
      var result;
      if IsGated(call.name) {
        var check := if IsChecked(call.name) then w.precheck(posts, call) else Proceed(call.arguments);
        if check.Proceed? {
          var proposed := call.(arguments := check.arguments);
          pending := Awaiting(session, proposed, actions);
          log := log + [Paused(proposed)];
          return Stopped(State(transcript, currentSession, pending, rows, log, posts),
                         AwaitingApproval(session, proposed, actions, thinking));
        }
        result := check.resultJson;
        log := log + [Refused(call, result)];
      } else {
        result := w.execute(|log|, call);
        log := log + [Executed(call, false)];
      }
      RecordAgentMessage(w, session, Tool, result);
      outcome := Ran(State(transcript, currentSession, pending, rows, log, posts),
                     actions + [Action(call.name, call.arguments, result)], result);
    }

    /** One bounded retry of a failed call, then the one assistant message. */
    method FinishTurnAfterExecution(w: World, session: string, executed: Call, executedResult: string,
                                    done: seq<Action>,
                                    allowRetry: bool, thinking: string)
      returns (response: Response)
      modifies this
      ensures Turn(Snapshot(), response)
        == Finish(w, old(Snapshot()), session, executed, executedResult, done, allowRetry, thinking)
    {
      hide Record, Classify, ExecuteOrPause, Phrase;
      var call, result, actions := executed, executedResult, done;
      if allowRetry && !Succeeded(result) && IsRetriable(call.name) {
        RecordAgentMessage(w, session, System, RetryNote(call, result));
        var decision := ClassifyViaLlm(w);
        if decision.LlmTool? {
          var outcome := ExecuteDecisionOrPause(w, session, decision.call, actions, decision.thinking);
          if outcome.Stopped? {
            return outcome.response;
          }
          call, result, actions := decision.call, outcome.resultJson, outcome.actions;
        }
      }
      var text := PhraseResult(w, call, result);
      RecordAgentMessage(w, session, Assistant, text);
      response := Final(session, text, actions, thinking);
    }

    /** Start, resume or keep a session. */
    method SelectSession(w: World, r: TurnRequest, freshId: string)
      modifies this
      ensures Snapshot() == SwitchSession(w, old(Snapshot()), r, freshId)
    {
      if r.clear {
        transcript, currentSession := [], freshId;
      } else if r.session != "" && r.session != currentSession {
        var records := LoadSession(w, rows, r.session);
        transcript := [];
        for i := 0 to |records|
          invariant transcript == Messages(records[..i])
          invariant Snapshot() == old(Snapshot()).(transcript := transcript)
        {
          transcript := transcript + [ChatMessage(RoleNamed(records[i].role), records[i].content)];
        }
        assert records[..|records|] == records;
        currentSession := r.session;
      }
    }

    /** A waiting call of this session is abandoned when a message arrives instead of a decision. */
    method AbandonWaitingCall(w: World)
      modifies this
      ensures Snapshot() == AbandonPending(w, old(Snapshot()))
    {
      hide Record;
      if pending.Awaiting? && pending.session == currentSession {
        log := log + [Abandoned(pending.call)];
        pending := NoPending;
        RecordAgentMessage(w, currentSession, System, ABANDONED_NOTE);
      }
    }

    method OpenTurn(w: World, message: string)
      modifies this
      ensures Snapshot() == Opened(w, old(Snapshot()), message)
      ensures currentSession == old(currentSession)
    {
      var session := currentSession;
      if transcript == [] && w.systemPrompt != "" {
        RecordAgentMessage(w, session, System, w.systemPrompt);
      }
      RecordAgentMessage(w, session, User, message);
    }

    method Respond(w: World, session: string, decision: Decision) returns (response: Response)
      modifies this
      ensures Turn(Snapshot(), response) == Answer(w, old(Snapshot()), session, decision)
    {
      hide Record, ExecuteOrPause, Finish;
      match decision
      case TransportFailed(error) =>
        response := Error(error, Some(session));
      case PlainReply(text, thinking) =>
        RecordAgentMessage(w, session, Assistant, text);
        response := Final(session, text, [], thinking);
      case LlmTool(call, thinking) =>
        var outcome := ExecuteDecisionOrPause(w, session, call, [], thinking);
        if outcome.Stopped? {
          return outcome.response;
        }
        response := FinishTurnAfterExecution(w, session, call, outcome.resultJson, outcome.actions, true, thinking);
    }

    method TakeTurn(w: World, r: TurnRequest, freshId: string) returns (response: Response)
      modifies this
      ensures Turn(Snapshot(), response) == AgentTurn(w, old(Snapshot()), r, freshId)
    {
      hide SwitchSession, AbandonPending, Opened, Classify, Answer;
      SelectSession(w, r, freshId);
      if r.message == "" {
        return Error("missing message", None);
      }
      AbandonWaitingCall(w);
      if !w.enableAi {
        return Error("AI is disabled (--no-ai)", None);
      }
      var session := currentSession;
      OpenTurn(w, r.message);
      var decision := ClassifyViaLlm(w);
      response := Respond(w, session, decision);
    }

    method TakeDecision(w: World, r: DecisionRequest) returns (response: Response)
      modifies this
      ensures Turn(Snapshot(), response) == ToolDecision(w, old(Snapshot()), r)
    {
      hide Record, Finish, DeclinedJson;
      if pending.NoPending? || (r.session != "" && r.session != pending.session) {
        return Error("no tool call is awaiting a decision", None);
      }
      var session, call, actions := pending.session, pending.call, pending.actions;
      pending := NoPending;
      var result;
      if r.approved {
        result := w.execute(|log|, call);
        log := log + [Executed(call, true)];
      } else {
        result := DeclinedJson(r.reason);
        log := log + [Declined(call, r.reason)];
      }
      RecordAgentMessage(w, session, Tool, result);
      actions := actions + [Action(call.name, call.arguments, result)];
      response := FinishTurnAfterExecution(w, session, call, result, actions, r.approved, "");
    }

    method DeleteStoredSession(w: World, session: string, freshId: string)
      modifies this
      ensures Snapshot() == DeleteSession(w, old(Snapshot()), session, freshId)
    {
      var target := if session == "" then currentSession else session;
      if w.storeOpen {
        rows := WithoutSession(rows, target);
      }
      if target == currentSession {
        transcript, currentSession := [], freshId;
      }
    }
  }
}
