/** Which tool calls a run of the agent executes: the gated ones are exactly the approved ones. */
module AgentSafety {
  import opened Text
  import opened JsonDocument
  import opened ChatRoles
  import opened AgentResponse
  import opened AgentProtocol
  import opened AgentRuns

  /** The call waiting for a decision, read off the events alone. */
  function Waiting(log: seq<Event>): Option<Call> {
    if log == [] then None
    else match log[|log| - 1]
      case Paused(call) => Some(call)
      case Executed(_, approved) => if approved then None else Waiting(log[..|log| - 1])
      case Refused(_, _) => Waiting(log[..|log| - 1])
      case Declined(_, _) => None
      case Abandoned(_) => None
  }

  predicate LegalEvent(before: seq<Event>, e: Event) {
    match e
    case Paused(call) => IsGated(call.name)
    case Executed(call, approved) => if approved then Waiting(before) == Some(call) else !IsGated(call.name)
    case Refused(call, _) => IsGated(call.name)
    case Declined(call, _) => Waiting(before) == Some(call)
    case Abandoned(call) => Waiting(before) == Some(call)
  }

  predicate Legal(log: seq<Event>) {
    forall i | 0 <= i < |log| :: LegalEvent(log[..i], log[i])
  }

  /** The pending slot is what the events say it is, and every event was legal. */
  predicate Agreement(s: State) {
    Legal(s.log) && Waiting(s.log) == (if s.pending.Awaiting? then Some(s.pending.call) else None)
  }

  lemma LegalPush(log: seq<Event>, e: Event)
    requires Legal(log) && LegalEvent(log, e)
    ensures Legal(log + [e])
    ensures Waiting(log + [e]) == match e
      case Paused(call) => Some(call)
      case Executed(_, approved) => if approved then None else Waiting(log)
      case Refused(_, _) => Waiting(log)
      case Declined(_, _) => None
      case Abandoned(_) => None
  {
    var more := log + [e];
    assert more[..|log|] == log;
    forall i | 0 <= i < |more| ensures LegalEvent(more[..i], more[i]) {
      if i < |log| {
        assert more[..i] == log[..i];
      }
    }
  }

  lemma {:induction false} QuietIsLegal(log: seq<Event>, events: seq<Event>)
    requires Legal(log) && Quiet(events)
    ensures Legal(log + events) && Waiting(log + events) == Waiting(log)
  {
    if events == [] {
      assert log + events == log;
    } else {
      var init := events[..|events| - 1];
      QuietIsLegal(log, init);
      assert log + events == (log + init) + [events[|events| - 1]];
      LegalPush(log + init, events[|events| - 1]);
    }
  }

  /** Whatever ends a call keeps the agreement. */
  lemma EndsAgree(s: State, t: Turn, session: string, msgs: seq<ChatMessage>, events: seq<Event>, runs: nat)
    requires Agreement(s) && Ends(s, t, session, msgs, events, runs) && t.state.log == s.log + events
    ensures Agreement(t.state)
  {
    hide Legal, Waiting;
    if t.response.AwaitingApproval? {
      var n := |events| - 1;
      QuietIsLegal(s.log, events[..n]);
      assert events == events[..n] + [events[n]];
      assert s.log + events == (s.log + events[..n]) + [events[n]];
      LegalPush(s.log + events[..n], events[n]);
    } else {
      QuietIsLegal(s.log, events);
    }
  }

  // ---- every host call keeps the agreement ------------------------------------------------

  lemma OpeningAgrees(w: World, base: State)
    requires Agreement(base)
    ensures Agreement(base.(pending := AfterOpening(base), log := base.log + OpeningEvents(base)))
  {
    hide Legal, Waiting;
    if Abandons(base) {
      LegalPush(base.log, Abandoned(base.pending.call));
    } else {
      assert base.log + [] == base.log;
    }
  }

  lemma SwitchKeepsLog(w: World, s: State, r: TurnRequest, freshId: string)
    ensures var t := SwitchSession(w, s, r, freshId); t.log == s.log && t.pending == s.pending && t.posts == s.posts
  {
  }

  lemma TurnAgrees(w: World, s: State, r: TurnRequest, freshId: string)
    requires Agreement(s)
    ensures Agreement(AgentTurn(w, s, r, freshId).state)
  {
    hide Agreement, AgentTurn, Ends, TurnShape, Reports, OpeningEvents, AfterOpening;
    var base := SwitchSession(w, s, r, freshId);
    var t := AgentTurn(w, s, r, freshId);
    var msgs, events := TurnDoes(w, s, r, freshId);
    SwitchKeepsLog(w, s, r, freshId);
    SameAgreement(s, base);
    if r.message == "" {
      assert [] + events == events;
      EndsAgree(base, t, base.current, msgs, events, 2);
    } else {
      OpeningAgrees(w, base);
      var ready := base.(pending := AfterOpening(base), log := base.log + OpeningEvents(base));
      assert ready.log + events == base.log + (OpeningEvents(base) + events);
      SamePending(Cleared(base), ready, t, base.current, msgs, events, 2);
      EndsAgree(ready, t, base.current, msgs, events, 2);
    }
  }

  lemma SameAgreement(s: State, t: State)
    requires Agreement(s) && t.log == s.log && t.pending == s.pending
    ensures Agreement(t)
  {
  }

  lemma SamePending(a: State, b: State, t: Turn, session: string, msgs: seq<ChatMessage>, events: seq<Event>, runs: nat)
    requires Ends(a, t, session, msgs, events, runs) && a.pending == b.pending
    ensures Ends(b, t, session, msgs, events, runs)
  {
  }

  lemma DecisionAgrees(w: World, s: State, r: DecisionRequest)
    requires Agreement(s)
    ensures Agreement(ToolDecision(w, s, r).state)
  {
    hide Legal, Waiting, ToolDecision, Ends, DecisionShape, Reports;
    if Mismatched(s, r) {
      MismatchedDoesNothing(w, s, r);
    } else {
      var t := ToolDecision(w, s, r);
      var msgs, events := DecisionDoes(w, s, r);
      LegalPush(s.log, DecisionEvent(s, r));
      var taken := s.(pending := NoPending, log := s.log + [DecisionEvent(s, r)]);
      assert taken.log + events == s.log + ([DecisionEvent(s, r)] + events);
      SamePending(s.(pending := NoPending), taken, t, s.pending.session, msgs, events, if r.approved then 1 else 0);
      EndsAgree(taken, t, s.pending.session, msgs, events, if r.approved then 1 else 0);
    }
  }

  lemma StepAgrees(w: World, s: State, step: Step)
    requires Agreement(s)
    ensures Agreement(Next(w, s, step))
  {
    hide Agreement, AgentTurn, ToolDecision;
    match step
    case Say(r, freshId) => TurnAgrees(w, s, r, freshId);
    case Judge(r) => DecisionAgrees(w, s, r);
    case Forget(session, freshId) => SameAgreement(s, DeleteSession(w, s, session, freshId));
  }

  lemma {:induction false} RunAgrees(s: State, steps: seq<(World, Step)>)
    requires Agreement(s)
    ensures Agreement(Run(s, steps))
  {
    hide Agreement, Next;
    if steps != [] {
      RunAgrees(s, steps[..|steps| - 1]);
      StepAgrees(steps[|steps| - 1].0, Run(s, steps[..|steps| - 1]), steps[|steps| - 1].1);
    }
  }

  // ---- what an agreeing log means -----------------------------------------------------------

  /** The waiting call was proposed, and since then only harmless events happened. */
  lemma {:induction false} WaitingWasPaused(log: seq<Event>) returns (j: nat)
    requires Legal(log) && Waiting(log).Some?
    ensures j < |log| && log[j] == Paused(Waiting(log).value)
    ensures Quiet(log[j + 1..])
  {
    var n := |log| - 1;
    if log[n].Paused? {
      j := n;
    } else {
      var init := log[..n];
      forall i | 0 <= i < |init| ensures LegalEvent(init[..i], init[i]) {
        assert init[..i] == log[..i];
      }
      j := WaitingWasPaused(init);
      assert log[j + 1..] == init[j + 1..] + [log[n]];
    }
  }

  /** In every run, a gated call that executes was approved, and is the very call (name and
      arguments) last proposed, and since the proposal only read-only
      calls ran and other gated calls were refused. */
  lemma GatedCallWasProposedAndApproved(s: State, steps: seq<(World, Step)>, i: nat) returns (j: nat)
    requires s.log == [] && s.pending == NoPending
    requires var log := Run(s, steps).log; i < |log| && log[i].Executed? && IsGated(log[i].call.name)
    ensures var log := Run(s, steps).log;
      && log[i].approved && j < i && log[j] == Paused(log[i].call)
      && (forall k | j < k < i :: Harmless(log[k]))
  {
    hide Run, IsGated;
    RunAgrees(s, steps);
    var log := Run(s, steps).log;
    j := LegalGated(log, i);
  }

  lemma LegalGated(log: seq<Event>, i: nat) returns (j: nat)
    requires Legal(log) && i < |log| && log[i].Executed? && (IsGated(log[i].call.name) || log[i].approved)
    ensures log[i].approved && j < i && log[j] == Paused(log[i].call) && IsGated(log[i].call.name)
    ensures forall k | j < k < i :: Harmless(log[k])
  {
    hide IsGated;
    var before := log[..i];
    assert LegalEvent(log[..i], log[i]);
    forall m | 0 <= m < i ensures LegalEvent(before[..m], before[m]) {
      assert before[..m] == log[..m];
    }
    j := WaitingWasPaused(before);
    assert LegalEvent(log[..j], log[j]);
    forall k | j < k < i ensures Harmless(log[k]) {
      assert log[k] == before[j + 1..][k - j - 1];
    }
  }

  /** One proposal, one execution: between two approved executions lies the second one's own proposal. */
  lemma EachApprovalExecutesOnce(s: State, steps: seq<(World, Step)>, i: nat, k: nat) returns (j: nat)
    requires s.log == [] && s.pending == NoPending
    requires var log := Run(s, steps).log;
      i < k < |log| && log[i].Executed? && log[k].Executed? && log[i].approved && log[k].approved
    ensures var log := Run(s, steps).log; i < j < k && log[j] == Paused(log[k].call)
  {
    hide Run, IsGated;
    RunAgrees(s, steps);
    j := LegalGated(Run(s, steps).log, k);
  }

  // ---- approvals and executions match one to one --------------------------------------------

  function ApprovedCalls(log: seq<Event>): seq<Call> {
    if log == [] then []
    else
      var e := log[|log| - 1];
      ApprovedCalls(log[..|log| - 1]) + (if e.Executed? && e.approved then [e.call] else [])
  }

  predicate Approves(s: State, step: Step) {
    step.Judge? && step.decision.approved && !Mismatched(s, step.decision)
  }

  /** The calls waiting at the approvals that matched, in order. */
  function CallsApproved(s: State, steps: seq<(World, Step)>): seq<Call> {
    if steps == [] then []
    else
      var before := Run(s, steps[..|steps| - 1]);
      CallsApproved(s, steps[..|steps| - 1])
      + (if Approves(before, steps[|steps| - 1].1) then [before.pending.call] else [])
  }

  lemma {:induction false} ApprovedConcat(a: seq<Event>, b: seq<Event>)
    ensures ApprovedCalls(a + b) == ApprovedCalls(a) + ApprovedCalls(b)
  {
    if b == [] {
      assert a + b == a;
    } else {
      ApprovedConcat(a, b[..|b| - 1]);
      assert (a + b)[..|a + b| - 1] == a + b[..|b| - 1];
    }
  }

  lemma {:induction false} NoneApproved(events: seq<Event>)
    requires forall i | 0 <= i < |events| :: !(events[i].Executed? && events[i].approved)
    ensures ApprovedCalls(events) == []
  {
    if events != [] {
      NoneApproved(events[..|events| - 1]);
    }
  }

  lemma EndsApproveNothing(s: State, t: Turn, session: string, msgs: seq<ChatMessage>, events: seq<Event>, runs: nat)
    requires Ends(s, t, session, msgs, events, runs)
    ensures ApprovedCalls(events) == []
  {
    forall i | 0 <= i < |events| ensures !(events[i].Executed? && events[i].approved) {
      if t.response.AwaitingApproval? && i < |events| - 1 {
        assert Harmless(events[..|events| - 1][i]);
      }
    }
    NoneApproved(events);
  }

  lemma TurnApprovesNothing(w: World, s: State, r: TurnRequest, freshId: string)
    ensures ApprovedCalls(AgentTurn(w, s, r, freshId).state.log) == ApprovedCalls(s.log)
  {
    hide AgentTurn, Ends, TurnShape, Reports, ApprovedCalls;
    var base := SwitchSession(w, s, r, freshId);
    var msgs, events := TurnDoes(w, s, r, freshId);
    SwitchKeepsLog(w, s, r, freshId);
    EndsApproveNothing(if r.message == "" then base else Cleared(base), AgentTurn(w, s, r, freshId), base.current,
      msgs, events, 2);
    var opening := if r.message == "" then [] else OpeningEvents(base);
    NoneApproved(opening);
    ApprovedConcat(s.log, opening + events);
    ApprovedConcat(opening, events);
  }

  lemma DecisionApproves(w: World, s: State, r: DecisionRequest)
    requires !Mismatched(s, r)
    ensures ApprovedCalls(ToolDecision(w, s, r).state.log)
      == ApprovedCalls(s.log) + (if r.approved then [s.pending.call] else [])
  {
    hide ToolDecision, Ends, DecisionShape, Reports;
    var msgs, events := DecisionDoes(w, s, r);
    EndsApproveNothing(s.(pending := NoPending), ToolDecision(w, s, r), s.pending.session, msgs, events,
      if r.approved then 1 else 0);
    var decided := [DecisionEvent(s, r)];
    assert decided[..0] == [];
    assert ApprovedCalls(decided) == if r.approved then [s.pending.call] else [];
    ApprovedConcat(s.log, decided + events);
    ApprovedConcat(decided, events);
  }

  /** Over a run, the approved calls executed are exactly the calls waiting at the matching
      approvals: each runs once, in that order, and nothing else runs as approved. */
  lemma {:induction false} ApprovalsAreExecutions(s: State, steps: seq<(World, Step)>)
    ensures ApprovedCalls(Run(s, steps).log) == ApprovedCalls(s.log) + CallsApproved(s, steps)
  {
    hide ApprovedCalls, AgentTurn, ToolDecision;
    if steps != [] {
      var init, w, step := steps[..|steps| - 1], steps[|steps| - 1].0, steps[|steps| - 1].1;
      var before := Run(s, init);
      ApprovalsAreExecutions(s, init);
      match step {
        case Say(r, freshId) => TurnApprovesNothing(w, before, r, freshId);
        case Judge(r) =>
          if Mismatched(before, r) {
            MismatchedDoesNothing(w, before, r);
          } else {
            DecisionApproves(w, before, r);
          }
        case Forget(session, freshId) =>
      }
    }
  }

  /** The waiting call, approved, will fail, is retriable, and the one retry will choose a gated
      call that its precheck lets through. */
  predicate RetryProposes(w: World, s: State)
    requires s.pending.Awaiting?
  {
    var call := s.pending.call;
    && !Succeeded(w.execute(|s.log|, call)) && IsRetriable(call.name)
    && var c := Classify(w, s.posts);
    && c.decision.LlmTool? && IsGated(c.decision.call.name)
    && Precheck(w, s.(posts := c.posts), c.decision.call).Proceed?
  }

  /** A decision is answered by another proposal exactly when it approves and the retry proposes. */
  lemma DecisionPausesExactly(w: World, s: State, r: DecisionRequest)
    requires !Mismatched(s, r)
    ensures ToolDecision(w, s, r).response.AwaitingApproval? <==> r.approved && RetryProposes(w, s)
  {
    hide IsGated, IsRetriable, Succeeded, Classify, IsChecked, DeclinedJson, Record, Decided, RetryNote, Did, Phrase;
    var call := s.pending.call;
    var result := if r.approved then w.execute(|s.log|, call) else DeclinedJson(r.reason);
    var told := Decided(w, s, r, result);
    DecidedDoes(w, s, r, result);
    RecordFrame(w, told, s.pending.session, System, RetryNote(call, result));
  }

  /** Sending the same decision again changes nothing exactly when the first was answered with a
      reply. When its automatic retry proposed another call, the repetition decides that call. */
  lemma RepeatedDecisionChangesNothingExactly(w: World, s: State, r: DecisionRequest, w': World)
    requires !Mismatched(s, r)
    ensures var t := ToolDecision(w, s, r);
      && (ToolDecision(w', t.state, r).state == t.state <==> !t.response.AwaitingApproval?)
      && (ToolDecision(w', t.state, r).state == t.state <==> !(r.approved && RetryProposes(w, s)))
  {
    DecisionPausesExactly(w, s, r);
    hide ToolDecision, DecisionShape, Reports, RetryProposes;
    var msgs, events := DecisionDoes(w, s, r);
    var t := ToolDecision(w, s, r);
    if t.response.AwaitingApproval? {
      var more, later := DecisionDoes(w', t.state, r);
      assert |ToolDecision(w', t.state, r).state.log| > |t.state.log|;
    } else {
      MismatchedDoesNothing(w', t.state, r);
    }
  }

  /** After a reply no call waits, so any decision at all is refused. */
  lemma AnsweredDecisionSettles(w: World, s: State, r: DecisionRequest, w': World, other: DecisionRequest)
    requires !Mismatched(s, r) && ToolDecision(w, s, r).response.Final?
    ensures var t := ToolDecision(w, s, r).state;
      ToolDecision(w', t, other) == Turn(t, Error("no tool call is awaiting a decision", None))
  {
    hide DecisionShape, Reports, Did, Finish;
    var msgs, events := DecisionDoes(w, s, r);
  }

  /** A decline executes nothing, asks for at most the reply's wording, and always answers. */
  lemma DeclineExecutesNothing(w: World, s: State, r: DecisionRequest)
    requires !Mismatched(s, r) && !r.approved
    ensures var t := ToolDecision(w, s, r);
      && t.state.log == s.log + [Declined(s.pending.call, r.reason)]
      && t.state.posts <= s.posts + 1
      && t.response.Final? && t.state.pending == NoPending
  {
    hide ToolDecision, Reports;
    var msgs, events := DecisionDoes(w, s, r);
    assert Roles(msgs)[1..] == [Assistant];
    assert events == [];
  }

  // ---- what the person is shown -------------------------------------------------------------

  /** The answer, read back by the terminal UI, asks for approval exactly when the turn stopped to
      wait, and then names the call that waits. */
  lemma TurnIsShownAsItIs(w: World, s: State, r: TurnRequest, freshId: string, d: Display)
    ensures var t := AgentTurn(w, s, r, freshId);
      var shown := Parsed(Print(JObj(Document(d, t.response))));
      && (shown.hasPending <==> t.response.AwaitingApproval?)
      && (shown.hasPending ==>
        t.state.pending.Awaiting? && shown.session == t.state.pending.session
          && shown.pendingTool == t.state.pending.call.name
        && shown.pendingArgs == d.arguments(t.state.pending.call.name, t.state.pending.call.arguments))
  {
    hide AgentTurn, Parsed, Print, PausedMembers, FinalMembers, ErrorMembers, TurnShape, Reports, Did;
    var t := AgentTurn(w, s, r, freshId);
    var msgs, events := TurnDoes(w, s, r, freshId);
    AnswerIsShown(d, t.response);
  }

  /** The same for a decision, whose retry may stop to wait for another call. */
  lemma DecisionIsShownAsItIs(w: World, s: State, r: DecisionRequest, d: Display)
    ensures var t := ToolDecision(w, s, r);
      var shown := Parsed(Print(JObj(Document(d, t.response))));
      && (shown.hasPending <==> t.response.AwaitingApproval?)
      && (shown.hasPending ==>
        t.state.pending.Awaiting? && shown.session == t.state.pending.session
          && shown.pendingTool == t.state.pending.call.name
        && shown.pendingArgs == d.arguments(t.state.pending.call.name, t.state.pending.call.arguments))
  {
    hide ToolDecision, Parsed, Print, PausedMembers, FinalMembers, ErrorMembers, DecisionShape, Reports, Did;
    var t := ToolDecision(w, s, r);
    if Mismatched(s, r) {
      MismatchedDoesNothing(w, s, r);
    } else {
      var msgs, events := DecisionDoes(w, s, r);
    }
    AnswerIsShown(d, t.response);
  }

  lemma AnswerIsShown(d: Display, r: Response)
    ensures var shown := Parsed(Print(JObj(Document(d, r))));
      && (shown.hasPending <==> r.AwaitingApproval?)
      && (r.AwaitingApproval? ==>
        shown.session == r.session && shown.pendingTool == r.call.name
        && shown.pendingArgs == d.arguments(r.call.name, r.call.arguments))
  {
    hide Parsed, Print, PausedMembers, FinalMembers, ErrorMembers;
    match r
    case Error(error, session) => ErrorReadBack(error, session);
    case Final(session, text, actions, thinking) => FinalReadBack(session, text, actions, thinking);
    case AwaitingApproval(session, call, actions, thinking) =>
      PausedReadBack(session, call.(arguments := d.arguments(call.name, call.arguments)), d.destructive(call),
        Shown(d, actions), thinking);
  }
}
