/** Runs from the first state of a host in which two laws of the agent fail: a decision for a call
    of another session, and a repeated decision. */
module AgentWitnesses {
  import opened Text
  import opened JsonTokens
  import opened JsonDocument
  import opened ChatRoles
  import opened AgentResponse
  import opened AgentProtocol
  import opened AgentRuns
  import opened AgentSafety
  import opened AgentMirror

  /** The result of a failed tool call. */
  const FAILED := Print(JObj([Member("ok", JBool(false))]))

  /** The provider proposes `call` every time, and running it fails. */
  function Insisting(call: Call): World {
    World(true, true, "", None, _ => Reply(true, "", [call], "", ""), (_, _) => FAILED,
      (_, c: Call) => Proceed(c.arguments),
          (_, _) => "Sorry.")
  }

  /** A host that has just started, over an empty store. */
  function Fresh(session: string): State {
    State([], session, NoPending, [], [], 0)
  }

  lemma FailedFails()
    ensures !Succeeded(FAILED)
  {
    var v := JObj([Member("ok", JBool(false))]);
    assert IsKey("ok");
    assert Proper(v);
    FirstInOne(v.members[0], "ok");
    ReadBack(v, "ok");
  }

  lemma InsistingChooses(call: Call, posts: nat)
    ensures Classify(Insisting(call), posts) == Classified(LlmTool(call, ""), posts + 1)
  {
  }

  lemma InsistingPauses(call: Call, s: State, session: string, thinking: string)
    requires IsGated(call.name)
    ensures ExecuteOrPause(Insisting(call), s, session, call, [], thinking)
      == Stopped(s.(pending := Awaiting(session, call, []), log := s.log + [Paused(call)]),
                 AwaitingApproval(session, call, [], thinking))
  {
    hide IsGated;
    assert call.(arguments := call.arguments) == call;
  }

  /** The first message makes the call wait. */
  lemma FirstTurnWaits(call: Call, session: string, message: string)
    requires IsGated(call.name) && message != ""
    ensures var s := AgentTurn(Insisting(call), Fresh(session), TurnRequest(message, false, ""), "").state;
      s.pending == Awaiting(session, call, []) && s.current == session
  {
    hide IsGated, Classify, ExecuteOrPause, Recorded;
    var w := Insisting(call);
    var ready := Opened(w, Fresh(session), message);
    RecordFrame(w, Fresh(session), session, User, message);
    InsistingChooses(call, ready.posts);
    InsistingPauses(call, ready.(posts := ready.posts + 1), session, "");
  }

  /** The user moves to another session while the call waits; the decision is then recorded in the
      transcript of the wrong session. The request need not name any session. */
  lemma StrayDecisionIsReachable(call: Call, a: string, b: string, message: string, approved: bool, w': World)
    requires IsGated(call.name) && a != b && b != "" && message != "" && w'.storeOpen
    ensures var w := Insisting(call);
      var run := [(w, Say(TurnRequest(message, false, ""), "")), (w, Say(TurnRequest("", false, b), ""))];
      var s := Run(Fresh(a), run);
      var r := DecisionRequest(approved, "", "");
      && s.pending == Awaiting(a, call, []) && s.current == b
      && Mirror(w', s) && !Mismatched(s, r) && !Mirror(w', ToolDecision(w', s, r).state)
  {
    hide Mirror, AgentTurn, ToolDecision, IsGated, AllNumbered;
    var w := Insisting(call);
    var first, second := TurnRequest(message, false, ""), TurnRequest("", false, b);
    var s1 := AgentTurn(w, Fresh(a), first, "").state;
    FirstTurnWaits(call, a, message);
    RunOfTwo(Fresh(a), (w, Say(first, "")), (w, Say(second, "")));
    FreshMirrors(w, a);
    TurnMirrors(w, Fresh(a), first, "");
    TurnMirrors(w, s1, second, "");
    MovingKeepsPending(w, s1, b);
    var s := AgentTurn(w, s1, second, "").state;
    OpenStoresAgree(w, w', s);
    DecisionMirrorsExactly(w', s, DecisionRequest(approved, "", ""));
  }

  lemma RunOfTwo(s: State, x: (World, Step), y: (World, Step))
    ensures Run(s, [x, y]) == Next(y.0, Next(x.0, s, x.1), y.1)
  {
    hide Next;
    assert [x, y][..1] == [x] && [x][..0] == [];
    assert Run(s, [x]) == Next(x.0, Run(s, []), x.1);
  }

  lemma FreshMirrors(w: World, session: string)
    requires w.storeOpen
    ensures Mirror(w, Fresh(session))
  {
    FirstStateMirrors(w, Fresh(session));
  }

  lemma MovingKeepsPending(w: World, s: State, session: string)
    requires session != "" && session != s.current
    ensures var t := AgentTurn(w, s, TurnRequest("", false, session), "").state;
      t.pending == s.pending && t.current == session
  {
  }

  /** The person approves the call; it fails, and the retry proposes it again. Sending the same
      approval once more then approves that second proposal. */
  lemma RepeatedApprovalRunsAgain(call: Call, session: string, message: string)
    requires IsGated(call.name) && IsRetriable(call.name) && message != ""
    ensures var w := Insisting(call);
      var s := AgentTurn(w, Fresh(session), TurnRequest(message, false, ""), "").state;
      var r := DecisionRequest(true, "", "");
      var once := ToolDecision(w, s, r);
      && !Mismatched(s, r) && once.response.AwaitingApproval?
      && ToolDecision(w, once.state, r).state != once.state
      && |ApprovedCalls(ToolDecision(w, once.state, r).state.log)| == |ApprovedCalls(s.log)| + 2
  {
    hide AgentTurn, ToolDecision, IsGated, IsRetriable, ApprovedCalls, Succeeded, Classify, FAILED;
    var w := Insisting(call);
    var s := AgentTurn(w, Fresh(session), TurnRequest(message, false, ""), "").state;
    var r := DecisionRequest(true, "", "");
    FirstTurnWaits(call, session, message);
    FailedFails();
    InsistingChooses(call, s.posts);
    InsistingLets(call, s);
    assert RetryProposes(w, s);
    DecisionPausesExactly(w, s, r);
    RepeatedDecisionChangesNothingExactly(w, s, r, w);
    var once := ToolDecision(w, s, r).state;
    WaitsForSession(w, s, r);
    DecisionApproves(w, s, r);
    DecisionApproves(w, once, r);
  }

  lemma InsistingLets(call: Call, s: State)
    ensures Precheck(Insisting(call), s, call).Proceed?
  {
  }

  lemma WaitsForSession(w: World, s: State, r: DecisionRequest)
    requires !Mismatched(s, r) && r.session == "" && ToolDecision(w, s, r).response.AwaitingApproval?
    ensures !Mismatched(ToolDecision(w, s, r).state, r)
  {
    hide ToolDecision, DecisionShape, Reports, Did;
    var msgs, events := DecisionDoes(w, s, r);
  }
}
