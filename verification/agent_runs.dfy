/** What holds in every run of agent turns, decisions, session switches and deletions. */
module AgentRuns {
  import opened Text
  import opened ChatRoles
  import opened AgentResponse
  import opened AgentProtocol

  // ---- the effect of a call, as messages and events -------------------------------------

  function Roles(msgs: seq<ChatMessage>): (r: seq<Role>)
    ensures |r| == |msgs| && forall i | 0 <= i < |msgs| :: r[i] == msgs[i].role
  {
    seq(|msgs|, i requires 0 <= i < |msgs| => msgs[i].role)
  }

  /** From `s` to `t`, exactly `msgs` were recorded for `session` and `events` happened. */
  predicate Did(w: World, s: State, t: State, session: string, msgs: seq<ChatMessage>, events: seq<Event>) {
    && t.transcript == s.transcript + msgs
    && t.rows == Recorded(w, s, session, msgs).rows
    && t.current == s.current
    && t.log == s.log + events
    && t.posts >= s.posts
  }

  lemma NewRowsConcat(session: string, start: nat, a: seq<ChatMessage>, b: seq<ChatMessage>)
    ensures NewRows(session, start, a + b) == NewRows(session, start, a) + NewRows(session, start + |a|, b)
  {
  }

  lemma DidThen(w: World, s: State, t: State, u: State, session: string,
                a: seq<ChatMessage>, b: seq<ChatMessage>, e: seq<Event>, f: seq<Event>)
    requires Did(w, s, t, session, a, e) && Did(w, t, u, session, b, f)
    ensures Did(w, s, u, session, a + b, e + f)
  {
    NewRowsConcat(session, |s.transcript|, a, b);
    Associate(s.transcript, a, b);
    Associate(s.log, e, f);
    if w.storeOpen {
      Associate(s.rows, NewRows(session, |s.transcript|, a), NewRows(session, |t.transcript|, b));
    }
  }

  lemma RecordDoes(w: World, s: State, session: string, role: Role, content: string)
    ensures Did(w, s, Record(w, s, session, role, content), session, [ChatMessage(role, content)], [])
  {
    assert s.log + [] == s.log;
  }

  lemma RecordFrame(w: World, s: State, session: string, role: Role, content: string)
    ensures var t := Record(w, s, session, role, content);
      && t.pending == s.pending && t.posts == s.posts && t.current == s.current && t.log == s.log
      && t.transcript == s.transcript + [ChatMessage(role, content)]
  {
  }

  /** Counting posts, or touching the pending call, records nothing. */
  lemma NothingDone(w: World, s: State, session: string, posts: nat, pending: Pending, events: seq<Event>)
    requires posts >= s.posts
    ensures Did(w, s, s.(posts := posts, pending := pending, log := s.log + events), session, [], events)
  {
    assert s.transcript + [] == s.transcript;
    assert NewRows(session, |s.transcript|, []) == [];
    assert s.rows + [] == s.rows;
  }

  // ---- posts -----------------------------------------------------------------------------

  lemma {:induction false} ClassifyPosts(w: World, posts: nat, attempt: nat)
    requires attempt <= MAX_EMPTY_RETRIES
    ensures posts < ClassifyFrom(w, posts, attempt).posts <= posts + MAX_EMPTY_RETRIES + 1 - attempt
    decreases MAX_EMPTY_RETRIES - attempt
  {
    if IsEmptyReply(w.post(posts)) && attempt < MAX_EMPTY_RETRIES {
      ClassifyPosts(w, posts + 1, attempt + 1);
    }
  }

  lemma ClassifyAtMostThree(w: World, posts: nat)
    ensures posts <= Classify(w, posts).posts <= posts + 3
  {
    if w.requestProblem.None? {
      ClassifyPosts(w, posts, 0);
    }
  }

  // ---- what a part of a call may do ------------------------------------------------------

  lemma RolesConcat(a: seq<ChatMessage>, b: seq<ChatMessage>)
    ensures Roles(a + b) == Roles(a) + Roles(b)
  {
  }

  /** A read-only call ran, or a gated one was refused before it was proposed. */
  predicate Harmless(e: Event) {
    || (e.Executed? && !e.approved && !IsGated(e.call.name))
    || (e.Refused? && IsGated(e.call.name))
  }

  predicate Quiet(events: seq<Event>) {
    forall i | 0 <= i < |events| :: Harmless(events[i])
  }

  /** At most `runs` harmless events, and the waiting call is left alone. */
  predicate Continues(s: State, t: State, events: seq<Event>, runs: nat) {
    t.pending == s.pending && Quiet(events) && |events| <= runs
  }

  /** At most `runs - 1` harmless events, then a gated call is proposed: the call answered
      with is the call that now waits, under this session. */
  predicate Pauses(t: State, r: Response, session: string, events: seq<Event>, runs: nat) {
    && r.AwaitingApproval? && r.session == session && IsGated(r.call.name)
    && t.pending == Awaiting(session, r.call, r.actions)
    && 0 < |events| <= runs
    && Quiet(events[..|events| - 1]) && events[|events| - 1] == Paused(r.call)
  }

  /** How a call ends: with an error and no execution, with the last recorded message as the
      reply, or with a proposal. */
  predicate Ends(s: State, t: Turn, session: string, msgs: seq<ChatMessage>, events: seq<Event>, runs: nat) {
    match t.response
    case Error(_, _) => Continues(s, t.state, events, 0)
    case Final(_, text, _, _) =>
      && Continues(s, t.state, events, runs) && t.response.session == session
      && msgs != [] && msgs[|msgs| - 1] == ChatMessage(Assistant, text)
    case AwaitingApproval(_, _, _, _) => Pauses(t.state, t.response, session, events, runs)
  }

  lemma EndsAfter(s: State, mid: State, t: Turn, session: string, a: seq<ChatMessage>, b: seq<ChatMessage>,
                  e: seq<Event>, f: seq<Event>, m: nat, n: nat)
    requires Continues(s, mid, e, m) && Ends(mid, t, session, b, f, n) && !t.response.Error?
    ensures Ends(s, t, session, a + b, e + f, m + n)
  {
    if t.response.AwaitingApproval? {
      assert (e + f)[..|e + f| - 1] == e + f[..|f| - 1];
    }
  }

  function ToolTexts(msgs: seq<ChatMessage>): seq<string> {
    if msgs == [] then []
    else ToolTexts(msgs[..|msgs| - 1]) + (if msgs[|msgs| - 1].role == Tool then [msgs[|msgs| - 1].content] else [])
  }

  function Results(actions: seq<Action>): (r: seq<string>)
    ensures |r| == |actions| && forall i | 0 <= i < |actions| :: r[i] == actions[i].result
  {
    seq(|actions|, i requires 0 <= i < |actions| => actions[i].result)
  }

  /** What the event at position `n` of the log puts on record: an executed call the result of
      running that very call there, a refused one its failure, a declined one the refusal. */
  function Entry(w: World, n: nat, e: Event): seq<Action> {
    match e
    case Executed(call, _) => [Action(call.name, call.arguments, w.execute(n, call))]
    case Refused(call, failure) => [Action(call.name, call.arguments, failure)]
    case Declined(call, reason) => [Action(call.name, call.arguments, DeclinedJson(reason))]
    case Paused(_) => []
    case Abandoned(_) => []
  }

  /** The same for events that stand in the log from position `n` on. */
  function Entries(w: World, n: nat, events: seq<Event>): seq<Action> {
    if events == [] then []
    else
      var last := |events| - 1;
      Entries(w, n, events[..last]) + Entry(w, n + last, events[last])
  }

  /** The events, logged from position `n` on, determine the new actions and the recorded tool
      messages. */
  predicate Reports(w: World, n: nat, before: seq<Action>, after: seq<Action>, msgs: seq<ChatMessage>,
                    events: seq<Event>)
  {
    var made := Entries(w, n, events);
    after == before + made && ToolTexts(msgs) == Results(made)
  }

  lemma {:induction false} EntriesConcat(w: World, n: nat, a: seq<Event>, b: seq<Event>)
    ensures Entries(w, n, a + b) == Entries(w, n, a) + Entries(w, n + |a|, b)
  {
    hide Entry, Entries;
    if b == [] {
      assert a + b == a;
      assert Entries(w, n + |a|, []) == [] by { NoEntries(w, n + |a|); }
    } else {
      var init, last := b[..|b| - 1], b[|b| - 1];
      EntriesConcat(w, n, a, init);
      EntriesPush(w, n, a + init, last);
      EntriesPush(w, n + |a|, init, last);
      assert b == init + [last] && a + b == (a + init) + [last];
    }
  }

  lemma NoEntries(w: World, n: nat)
    ensures Entries(w, n, []) == []
  {
  }

  lemma EntriesPush(w: World, n: nat, events: seq<Event>, e: Event)
    ensures Entries(w, n, events + [e]) == Entries(w, n, events) + Entry(w, n + |events|, e)
  {
    assert (events + [e])[..|events|] == events;
  }

  lemma ResultsConcat(a: seq<Action>, b: seq<Action>)
    ensures Results(a + b) == Results(a) + Results(b)
  {
  }

  lemma {:induction false} ToolTextsConcat(a: seq<ChatMessage>, b: seq<ChatMessage>)
    ensures ToolTexts(a + b) == ToolTexts(a) + ToolTexts(b)
  {
    if b == [] {
      assert a + b == a;
    } else {
      ToolTextsConcat(a, b[..|b| - 1]);
      assert (a + b)[..|a + b| - 1] == a + b[..|b| - 1];
    }
  }

  lemma ReportsThen(w: World, n: nat, x: seq<Action>, y: seq<Action>, z: seq<Action>,
                    a: seq<ChatMessage>, b: seq<ChatMessage>, e: seq<Event>, f: seq<Event>)
    requires Reports(w, n, x, y, a, e) && Reports(w, n + |e|, y, z, b, f)
    ensures Reports(w, n, x, z, a + b, e + f)
  {
    ToolTextsConcat(a, b);
    EntriesConcat(w, n, e, f);
    ResultsConcat(Entries(w, n, e), Entries(w, n + |e|, f));
    Associate(x, Entries(w, n, e), Entries(w, n + |e|, f));
  }

  lemma ReportsOne(w: World, n: nat, before: seq<Action>, a: Action, e: Event)
    requires Entry(w, n, e) == [a]
    ensures Reports(w, n, before, before + [a], [ChatMessage(Tool, a.result)], [e])
  {
    var one := [ChatMessage(Tool, a.result)];
    assert one[..0] == [];
    assert ToolTexts(one) == [a.result];
    OneEntry(w, n, e);
  }

  lemma OneEntry(w: World, n: nat, e: Event)
    ensures Entries(w, n, [e]) == Entry(w, n, e)
  {
    assert [e][..0] == [];
    assert Entries(w, n, []) == [];
  }

  /** Other messages, and events that put nothing on record, add no actions. */
  lemma ReportsNone(w: World, n: nat, actions: seq<Action>, m: ChatMessage)
    requires m.role != Tool
    ensures Reports(w, n, actions, actions, [m], [])
    ensures Reports(w, n, actions, actions, [], [])
  {
    assert [m][..0] == [];
    assert ToolTexts([m]) == [];
    assert actions + [] == actions;
  }

  lemma ReportsQuietly(w: World, n: nat, actions: seq<Action>, e: Event)
    requires e.Paused? || e.Abandoned?
    ensures Reports(w, n, actions, actions, [], [e])
  {
    OneEntry(w, n, e);
    assert actions + [] == actions;
  }

  // ---- executing or pausing -----------------------------------------------------------------

  /** Executing a read-only call records its result; a gated call is either refused before it is
      proposed, which also records a result, or becomes the one pending call. */
  lemma ExecuteOrPauseDoes(w: World, s: State, session: string, call: Call, actions: seq<Action>, thinking: string)
    returns (msgs: seq<ChatMessage>, events: seq<Event>)
    ensures var o := ExecuteOrPause(w, s, session, call, actions, thinking);
      && Did(w, s, o.state, session, msgs, events)
      && o.state.posts == s.posts
      && (o.Ran? ==>
        Continues(s, o.state, events, 1) && Roles(msgs) == [Tool]
          && Reports(w, |s.log|, actions, o.actions, msgs, events))
      && (o.Stopped? ==>
        Pauses(o.state, o.response, session, events, 1) && msgs == []
          && Reports(w, |s.log|, actions, o.response.actions, msgs, events))
  {
    hide Did, Reports, ToolTexts;
    var o := ExecuteOrPause(w, s, session, call, actions, thinking);
    if o.Stopped? {
      msgs, events := [], [Paused(o.state.pending.call)];
      NothingDone(w, s, session, s.posts, o.state.pending, events);
      ReportsQuietly(w, |s.log|, actions, events[0]);
    } else {
      msgs := [ChatMessage(Tool, o.resultJson)];
      var e := if IsGated(call.name) then Refused(call, o.resultJson) else Executed(call, false);
      events := [e];
      var ran := s.(log := s.log + events);
      NothingDone(w, s, session, s.posts, s.pending, events);
      RecordDoes(w, ran, session, Tool, o.resultJson);
      DidThen(w, s, ran, o.state, session, [], msgs, events, []);
      assert [] + msgs == msgs && events + [] == events;
      ReportsOne(w, |s.log|, actions, Action(call.name, call.arguments, o.resultJson), e);
    }
  }

  lemma ConcludeDoes(w: World, s: State, session: string, call: Call, resultJson: string, actions: seq<Action>,
                     thinking: string)
    returns (msgs: seq<ChatMessage>)
    ensures var t := Conclude(w, s, session, call, resultJson, actions, thinking);
      && Did(w, s, t.state, session, msgs, []) && Roles(msgs) == [Assistant]
      && t.response.Final? && Ends(s, t, session, msgs, [], 0)
      && t.response.actions == actions && Reports(w, |s.log|, actions, actions, msgs, [])
      && t.state.posts <= s.posts + 1
  {
    hide Did, Reports;
    var phrased := Phrase(w, s.posts, call, resultJson);
    var asked := s.(posts := phrased.posts);
    msgs := [ChatMessage(Assistant, phrased.text)];
    assert s.log + [] == s.log;
    NothingDone(w, s, session, phrased.posts, s.pending, []);
    RecordDoes(w, asked, session, Assistant, phrased.text);
    DidThen(w, s, asked, Record(w, asked, session, Assistant, phrased.text), session, [], msgs, [], []);
    assert [] + msgs == msgs;
    ReportsNone(w, |s.log|, actions, msgs[0]);
  }

  // ---- finishing ----------------------------------------------------------------------------

  /** The roles recorded while finishing: at most one retry note, at most one more result, and
      then the reply, unless the retry paused. */
  predicate FinishShape(roles: seq<Role>, response: Response) {
    || (response.Final? && (roles == [Assistant] || roles == [System, Assistant] || roles == [System, Tool, Assistant]))
    || (response.AwaitingApproval? && roles == [System])
  }

  function ActionsOf(r: Response): seq<Action> {
    if r.Error? then [] else r.actions
  }

  /** Record one message, then ask the provider. */
  lemma AskAfter(w: World, s: State, session: string, role: Role, content: string)
    ensures var noted := Record(w, s, session, role, content);
      var c := Classify(w, noted.posts);
      && Did(w, s, noted.(posts := c.posts), session, [ChatMessage(role, content)], [])
      && noted.pending == s.pending && noted.current == s.current && noted.posts == s.posts
      && s.posts <= c.posts <= s.posts + 3
  {
    hide Did;
    var note := [ChatMessage(role, content)];
    var noted := Record(w, s, session, role, content);
    var c := Classify(w, noted.posts);
    ClassifyAtMostThree(w, noted.posts);
    RecordDoes(w, s, session, role, content);
    assert noted.log + [] == noted.log;
    NothingDone(w, noted, session, c.posts, noted.pending, []);
    DidThen(w, s, noted, noted.(posts := c.posts), session, note, [], [], []);
    assert note + [] == note;
  }

  /** What finishing promises, from `s` on. */
  predicate Finished(w: World, s: State, t: Turn, session: string, actions: seq<Action>,
                     msgs: seq<ChatMessage>, events: seq<Event>, runs: nat) {
    && Did(w, s, t.state, session, msgs, events)
    && Ends(s, t, session, msgs, events, runs)
    && FinishShape(Roles(msgs), t.response)
    && Reports(w, |s.log|, actions, ActionsOf(t.response), msgs, events)
  }

  lemma FinishDoes(w: World, s: State, session: string, call: Call, resultJson: string, actions: seq<Action>,
                   allowRetry: bool, thinking: string)
    returns (msgs: seq<ChatMessage>, events: seq<Event>)
    ensures var t := Finish(w, s, session, call, resultJson, actions, allowRetry, thinking);
      && Finished(w, s, t, session, actions, msgs, events, if allowRetry then 1 else 0)
      && t.state.posts <= s.posts + (if allowRetry then 4 else 1)
      && (!allowRetry ==> Roles(msgs) == [Assistant])
  {
    hide Finished, IsGated, RunAgain, Conclude, Classify, Record;
    if allowRetry && !Succeeded(resultJson) && IsRetriable(call.name) {
      var content := RetryNote(call, resultJson);
      var noted := Record(w, s, session, System, content);
      var c := Classify(w, noted.posts);
      var asked := noted.(posts := c.posts);
      AskAfter(w, s, session, System, content);
      var note := [ChatMessage(System, content)];
      if c.decision.LlmTool? {
        msgs, events := RunAgainDoes(w, s, asked, session, note, c.decision.call, actions, c.decision.thinking,
          thinking);
      } else {
        msgs := ConcludeAfter(w, s, asked, session, note, call, resultJson, actions, thinking);
        events := [];
      }
    } else {
      msgs := ConcludeAtOnce(w, s, session, call, resultJson, actions, if allowRetry then 1 else 0, thinking);
      events := [];
    }
  }

  lemma ConcludeAtOnce(w: World, s: State, session: string, call: Call, resultJson: string, actions: seq<Action>,
                       runs: nat, thinking: string)
    returns (msgs: seq<ChatMessage>)
    ensures var t := Conclude(w, s, session, call, resultJson, actions, thinking);
      && Finished(w, s, t, session, actions, msgs, [], runs)
      && t.state.posts <= s.posts + 1
      && Roles(msgs) == [Assistant]
  {
    hide Did, Conclude, Reports, ToolTexts;
    msgs := ConcludeDoes(w, s, session, call, resultJson, actions, thinking);
  }

  lemma ConcludeAfter(w: World, s: State, asked: State, session: string, note: seq<ChatMessage>, call: Call,
                      resultJson: string, actions: seq<Action>, thinking: string)
    returns (msgs: seq<ChatMessage>)
    requires Did(w, s, asked, session, note, []) && Roles(note) == [System] && asked.pending == s.pending
    ensures var t := Conclude(w, asked, session, call, resultJson, actions, thinking);
      && Finished(w, s, t, session, actions, msgs, [], 1)
      && t.state.posts <= asked.posts + 1
  {
    hide Did, Conclude, Reports, ToolTexts;
    var t := Conclude(w, asked, session, call, resultJson, actions, thinking);
    var reply := ConcludeDoes(w, asked, session, call, resultJson, actions, thinking);
    DidThen(w, s, asked, t.state, session, note, reply, [], []);
    EndsAfter(s, asked, t, session, note, reply, [], [], 1, 0);
    NoteReports(w, |s.log|, actions, note);
    LogGrows(w, s, asked, session, note, []);
    ReportsThen(w, |s.log|, actions, actions, actions, note, reply, [], []);
    RolesConcat(note, reply);
    msgs := note + reply;
  }

  lemma NoteReports(w: World, n: nat, actions: seq<Action>, note: seq<ChatMessage>)
    requires Roles(note) == [System]
    ensures Reports(w, n, actions, actions, note, [])
  {
    hide Reports;
    assert |note| == 1 && note[0].role == Roles(note)[0];
    ReportsNone(w, n, actions, note[0]);
    assert note == [note[0]];
  }

  lemma RunAgainDoes(w: World, s: State, asked: State, session: string, note: seq<ChatMessage>, call: Call,
                     actions: seq<Action>,
                     retryThinking: string, thinking: string)
    returns (msgs: seq<ChatMessage>, events: seq<Event>)
    requires Did(w, s, asked, session, note, []) && Roles(note) == [System] && asked.pending == s.pending
    ensures var t := RunAgain(w, asked, session, call, actions, retryThinking, thinking);
      && Finished(w, s, t, session, actions, msgs, events, 1)
      && t.state.posts <= asked.posts + 1
  {
    hide Did, IsGated, ExecuteOrPause, Conclude, Reports, ToolTexts;
    var o := ExecuteOrPause(w, asked, session, call, actions, retryThinking);
    var result, happened := ExecuteOrPauseDoes(w, asked, session, call, actions, retryThinking);
    DidThen(w, s, asked, o.state, session, note, result, [], happened);
    assert [] + happened == happened;
    NoteReports(w, |s.log|, actions, note);
    LogGrows(w, s, asked, session, note, []);
    RolesConcat(note, result);
    ReportsThen(w, |s.log|, actions, actions, if o.Stopped? then o.response.actions else o.actions, note, result,
      [], happened);
    if o.Stopped? {
      msgs, events := note + result, happened;
    } else {
      var t := Conclude(w, o.state, session, call, o.resultJson, o.actions, thinking);
      var reply := ConcludeDoes(w, o.state, session, call, o.resultJson, o.actions, thinking);
      DidThen(w, s, o.state, t.state, session, note + result, reply, happened, []);
      EndsAfter(s, o.state, t, session, note + result, reply, happened, [], 1, 0);
      LogGrows(w, s, o.state, session, note + result, happened);
      ReportsThen(w, |s.log|, actions, o.actions, o.actions, note + result, reply, happened, []);
      assert happened + [] == happened;
      RolesConcat(note + result, reply);
      msgs, events := note + result + reply, happened;
    }
  }

  // ---- a whole turn -------------------------------------------------------------------------

  /** The roles recorded before classifying: a note when a waiting call is abandoned, or the
      system prompt when the transcript is empty (never both), and the user's message. */
  predicate OpeningShape(roles: seq<Role>) {
    roles == [User] || roles == [System, User]
  }

  lemma OpeningDoes(w: World, s: State, message: string) returns (msgs: seq<ChatMessage>, events: seq<Event>)
    ensures var clean := AbandonPending(w, s);
      var ready := Opened(w, clean, message);
      && Did(w, s, ready, s.current, msgs, events)
      && OpeningShape(Roles(msgs))
      && ready.pending == clean.pending && ready.posts == s.posts && ready.log == clean.log
      && clean.pending == AfterOpening(s) && events == OpeningEvents(s)
  {
    hide Did, Record;
    var clean := AbandonPending(w, s);
    var first := AbandonDoes(w, s);
    var seeded := SeedPrompt(w, clean);
    var said := [ChatMessage(User, message)];
    var second := SeedDoes(w, clean);
    events := OpeningEvents(s);
    DidThen(w, s, clean, seeded, s.current, first, second, events, []);
    RecordDoes(w, seeded, s.current, User, message);
    RecordFrame(w, seeded, s.current, User, message);
    DidThen(w, s, seeded, Record(w, seeded, s.current, User, message), s.current, first + second, said, events + [],
      []);
    assert events + [] == events;
    msgs := first + second + said;
    RolesConcat(first + second, said);
    RolesConcat(first, second);
  }

  function AfterOpening(s: State): Pending { if Abandons(s) then NoPending else s.pending }

  function OpeningEvents(s: State): seq<Event> { if Abandons(s) then [Abandoned(s.pending.call)] else [] }

  /** The note about an abandoned call is recorded, so the transcript is then not empty. */
  lemma AbandonDoes(w: World, s: State) returns (msgs: seq<ChatMessage>)
    ensures var clean := AbandonPending(w, s);
      && Did(w, s, clean, s.current, msgs, OpeningEvents(s))
      && (if Abandons(s) then Roles(msgs) == [System] && clean.transcript != [] else msgs == [])
      && clean.posts == s.posts && clean.pending == AfterOpening(s) && clean.current == s.current
  {
    hide Did, Record;
    if Abandons(s) {
      var events := [Abandoned(s.pending.call)];
      var taken := s.(pending := NoPending, log := s.log + events);
      msgs := [ChatMessage(System, ABANDONED_NOTE)];
      NothingDone(w, s, s.current, s.posts, NoPending, events);
      RecordDoes(w, taken, s.current, System, ABANDONED_NOTE);
      RecordFrame(w, taken, s.current, System, ABANDONED_NOTE);
      DidThen(w, s, taken, AbandonPending(w, s), s.current, [], msgs, events, []);
      assert [] + msgs == msgs && events + [] == events;
    } else {
      msgs := [];
      assert s.log + [] == s.log;
      NothingDone(w, s, s.current, s.posts, s.pending, []);
    }
  }

  lemma SeedDoes(w: World, s: State) returns (msgs: seq<ChatMessage>)
    ensures Did(w, s, SeedPrompt(w, s), s.current, msgs, [])
    ensures if s.transcript == [] && w.systemPrompt != "" then Roles(msgs) == [System] else msgs == []
    ensures var t := SeedPrompt(w, s);
      t.pending == s.pending && t.posts == s.posts && t.current == s.current && t.log == s.log
  {
    hide Did, Record;
    if s.transcript == [] && w.systemPrompt != "" {
      msgs := [ChatMessage(System, w.systemPrompt)];
      RecordDoes(w, s, s.current, System, w.systemPrompt);
      RecordFrame(w, s, s.current, System, w.systemPrompt);
    } else {
      msgs := [];
      assert s.log + [] == s.log;
      NothingDone(w, s, s.current, s.posts, s.pending, []);
    }
  }

  // ---- answering ----------------------------------------------------------------------------

  predicate ActShape(roles: seq<Role>, response: Response) {
    || (response.AwaitingApproval? && roles == [])
    || (roles != [] && roles[0] == Tool && FinishShape(roles[1..], response))
  }

  lemma ActDoes(w: World, s: State, session: string, call: Call, thinking: string)
    returns (msgs: seq<ChatMessage>, events: seq<Event>)
    ensures var t := Act(w, s, session, call, thinking);
      && Did(w, s, t.state, session, msgs, events)
      && Ends(s, t, session, msgs, events, 2)
      && ActShape(Roles(msgs), t.response)
      && Reports(w, |s.log|, [], ActionsOf(t.response), msgs, events)
      && t.state.posts <= s.posts + 4
  {
    hide Did, IsGated, ExecuteOrPause, Finish, Reports, ToolTexts;
    var o := ExecuteOrPause(w, s, session, call, [], thinking);
    var result, happened := ExecuteOrPauseDoes(w, s, session, call, [], thinking);
    if o.Stopped? {
      msgs, events := result, happened;
    } else {
      var t := Finish(w, o.state, session, call, o.resultJson, o.actions, true, thinking);
      var reply, more := FinishDoes(w, o.state, session, call, o.resultJson, o.actions, true, thinking);
      DidThen(w, s, o.state, t.state, session, result, reply, happened, more);
      EndsAfter(s, o.state, t, session, result, reply, happened, more, 1, 1);
      LogGrows(w, s, o.state, session, result, happened);
      ReportsThen(w, |s.log|, [], o.actions, ActionsOf(t.response), result, reply, happened, more);
      RolesConcat(result, reply);
      assert (Roles(result) + Roles(reply))[1..] == Roles(reply);
      msgs, events := result + reply, happened + more;
    }
  }

  predicate AnswerShape(roles: seq<Role>, response: Response) {
    match response
    case Error(_, _) => roles == []
    case Final(_, _, _, _) => roles == [Assistant] || ActShape(roles, response)
    case AwaitingApproval(_, _, _, _) => ActShape(roles, response)
  }

  lemma AnswerDoes(w: World, s: State, session: string, decision: Decision)
    returns (msgs: seq<ChatMessage>, events: seq<Event>)
    ensures var t := Answer(w, s, session, decision);
      && Did(w, s, t.state, session, msgs, events)
      && Ends(s, t, session, msgs, events, 2)
      && AnswerShape(Roles(msgs), t.response)
      && Reports(w, |s.log|, [], ActionsOf(t.response), msgs, events)
      && t.state.posts <= s.posts + 4
  {
    hide Did, Act, Reports, ToolTexts, Record;
    match decision {
      case TransportFailed(error) =>
        msgs, events := [], [];
        assert s.log + [] == s.log;
        NothingDone(w, s, session, s.posts, s.pending, []);
        ReportsNone(w, |s.log|, [], ChatMessage(User, ""));
      case PlainReply(text, thinking) =>
        msgs, events := [ChatMessage(Assistant, text)], [];
        RecordDoes(w, s, session, Assistant, text);
        RecordFrame(w, s, session, Assistant, text);
        ReportsNone(w, |s.log|, [], msgs[0]);
      case LlmTool(call, thinking) =>
        msgs, events := ActDoes(w, s, session, call, thinking);
    }
  }

  // ---- a whole turn, a whole decision -------------------------------------------------------

  /** The roles a turn records. */
  predicate TurnShape(w: World, r: TurnRequest, roles: seq<Role>, response: Response) {
    if r.message == "" then roles == [] && response.Error?
    else if !w.enableAi then (roles == [] || roles == [System]) && response.Error?
    else
      || (|roles| >= 1 && OpeningShape(roles[..1]) && AnswerShape(roles[1..], response))
      || (|roles| >= 2 && OpeningShape(roles[..2]) && AnswerShape(roles[2..], response))
  }

  /** The state the turn's own calls start from: nothing waits for this session any more. */
  function Cleared(base: State): State { base.(pending := AfterOpening(base)) }

  lemma TurnDoes(w: World, s: State, r: TurnRequest, freshId: string)
    returns (msgs: seq<ChatMessage>, events: seq<Event>)
    ensures var base := SwitchSession(w, s, r, freshId);
      var t := AgentTurn(w, s, r, freshId);
      && Did(w, base, t.state, base.current, msgs, (if r.message == "" then [] else OpeningEvents(base)) + events)
      && Ends(if r.message == "" then base else Cleared(base), t, base.current, msgs, events, 2)
      && TurnShape(w, r, Roles(msgs), t.response)
      && Reports(w, |s.log|, [], ActionsOf(t.response), msgs,
           (if r.message == "" then [] else OpeningEvents(base)) + events)
      && t.state.posts <= s.posts + 7
  {
    hide Did, Reports, AbandonPending, Opened, Answer, Classify, AnswerShape, ToolTexts;
    var base := SwitchSession(w, s, r, freshId);
    assert base.log == s.log;
    events := [];
    if r.message == "" {
      msgs := [];
      assert base.log + ([] + []) == base.log;
      NothingDone(w, base, base.current, base.posts, base.pending, [] + []);
      ReportsNone(w, |s.log|, [], ChatMessage(User, ""));
    } else if !w.enableAi {
      msgs := AbandonDoes(w, base);
      assert OpeningEvents(base) + [] == OpeningEvents(base);
      NoteOrNothingReports(w, |s.log|, msgs);
      OpeningReports(w, base, msgs);
    } else {
      var _ := AbandonDoes(w, base);
      msgs, events := EnabledTurnDoes(w, base, r.message);
    }
  }

  lemma NoteOrNothingReports(w: World, n: nat, msgs: seq<ChatMessage>)
    requires msgs == [] || Roles(msgs) == [System]
    ensures Reports(w, n, [], [], msgs, [])
  {
    hide Reports;
    if msgs == [] {
      ReportsNone(w, n, [], ChatMessage(User, ""));
    } else {
      NoteReports(w, n, [], msgs);
    }
  }

  lemma EnabledTurnDoes(w: World, base: State, message: string)
    returns (msgs: seq<ChatMessage>, events: seq<Event>)
    ensures var ready := Opened(w, AbandonPending(w, base), message);
      var c := Classify(w, ready.posts);
      var t := Answer(w, ready.(posts := c.posts), base.current, c.decision);
      && Did(w, base, t.state, base.current, msgs, OpeningEvents(base) + events)
      && Ends(Cleared(base), t, base.current, msgs, events, 2)
      && ((|msgs| >= 1 && OpeningShape(Roles(msgs)[..1]) && AnswerShape(Roles(msgs)[1..], t.response))
          || (|msgs| >= 2 && OpeningShape(Roles(msgs)[..2]) && AnswerShape(Roles(msgs)[2..], t.response)))
      && Reports(w, |base.log|, [], ActionsOf(t.response), msgs, OpeningEvents(base) + events)
      && t.state.posts <= base.posts + 7
  {
    hide Did, Reports, AbandonPending, Opened, Answer, Classify, AnswerShape, ToolTexts;
    var ready := Opened(w, AbandonPending(w, base), message);
    var c := Classify(w, ready.posts);
    var asked := ready.(posts := c.posts);
    var opening, first := OpeningDoes(w, base, message);
    ClassifyAtMostThree(w, ready.posts);
    assert ready.log + [] == ready.log;
    NothingDone(w, ready, base.current, c.posts, ready.pending, []);
    DidThen(w, base, ready, asked, base.current, opening, [], first, []);
    assert opening + [] == opening && first + [] == first;
    var reply, more := AnswerDoes(w, asked, base.current, c.decision);
    var t := Answer(w, asked, base.current, c.decision);
    DidThen(w, base, asked, t.state, base.current, opening, reply, first, more);
    EndsFrom(asked, Cleared(base), t, base.current, opening, reply, more);
    MessagesReport(w, |base.log|, opening);
    OpeningReports(w, base, opening);
    LogGrows(w, base, asked, base.current, opening, first);
    ReportsThen(w, |base.log|, [], [], ActionsOf(t.response), opening, reply, first, more);
    RolesConcat(opening, reply);
    var n := |opening|;
    assert Roles(opening + reply)[..n] == Roles(opening) && Roles(opening + reply)[n..] == Roles(reply);
    msgs, events := opening + reply, more;
  }

  lemma EndsFrom(asked: State, cleared: State, t: Turn, session: string, a: seq<ChatMessage>, b: seq<ChatMessage>,
                 events: seq<Event>)
    requires Ends(asked, t, session, b, events, 2) && asked.pending == cleared.pending
    ensures Ends(cleared, t, session, a + b, events, 2)
  {
  }

  lemma LogGrows(w: World, s: State, t: State, session: string, msgs: seq<ChatMessage>, events: seq<Event>)
    requires Did(w, s, t, session, msgs, events)
    ensures |t.log| == |s.log| + |events|
  {
  }

  /** An abandoned call puts nothing on record. */
  lemma OpeningReports(w: World, base: State, msgs: seq<ChatMessage>)
    requires Reports(w, |base.log|, [], [], msgs, [])
    ensures Reports(w, |base.log|, [], [], msgs, OpeningEvents(base))
  {
    hide Reports;
    if Abandons(base) {
      var events := OpeningEvents(base);
      ReportsQuietly(w, |base.log|, [], events[0]);
      ReportsThen(w, |base.log|, [], [], [], msgs, [], [], events);
      assert msgs + [] == msgs && [] + events == events;
    }
  }

  lemma MessagesReport(w: World, n: nat, msgs: seq<ChatMessage>)
    requires OpeningShape(Roles(msgs))
    ensures Reports(w, n, [], [], msgs, [])
  {
    hide Reports;
    assert forall i | 0 <= i < |msgs| :: msgs[i].role == Roles(msgs)[i];
    var last := msgs[|msgs| - 1];
    ReportsNone(w, n, [], last);
    if |msgs| == 1 {
      assert msgs == [last];
    } else {
      ReportsNone(w, n, [], msgs[0]);
      ReportsThen(w, n, [], [], [], [msgs[0]], [last], [], []);
      assert msgs == [msgs[0]] + [last];
    }
  }

  /** A decision for no waiting call, or for another session's, is refused. */
  lemma MismatchedDoesNothing(w: World, s: State, r: DecisionRequest)
    requires Mismatched(s, r)
    ensures ToolDecision(w, s, r).state == s && ToolDecision(w, s, r).response.Error?
  {
  }

  predicate DecisionShape(approved: bool, roles: seq<Role>, response: Response) {
    roles != [] && roles[0] == Tool && FinishShape(roles[1..], response) && (!approved ==> roles == [Tool, Assistant])
  }

  function DecisionEvent(s: State, r: DecisionRequest): Event
    requires s.pending.Awaiting?
  {
    if r.approved then Executed(s.pending.call, true) else Declined(s.pending.call, r.reason)
  }

  lemma DecidedDoes(w: World, s: State, r: DecisionRequest, result: string)
    requires s.pending.Awaiting?
    ensures var t := Decided(w, s, r, result);
      && Did(w, s, t, s.pending.session, [ChatMessage(Tool, result)], [DecisionEvent(s, r)])
      && t.pending == NoPending && t.posts == s.posts
  {
    hide Did, Record;
    var session, decided, note := s.pending.session, [DecisionEvent(s, r)], [ChatMessage(Tool, result)];
    var taken := s.(pending := NoPending, log := s.log + decided);
    NothingDone(w, s, session, s.posts, NoPending, decided);
    RecordDoes(w, taken, session, Tool, result);
    RecordFrame(w, taken, session, Tool, result);
    DidThen(w, s, taken, Record(w, taken, session, Tool, result), session, [], note, decided, []);
    assert [] + note == note && decided + [] == decided;
  }

  lemma DecisionDoes(w: World, s: State, r: DecisionRequest)
    returns (msgs: seq<ChatMessage>, events: seq<Event>)
    requires !Mismatched(s, r)
    ensures var t := ToolDecision(w, s, r);
      && Did(w, s, t.state, s.pending.session, msgs, [DecisionEvent(s, r)] + events)
      && Ends(s.(pending := NoPending), t, s.pending.session, msgs, events, if r.approved then 1 else 0)
      && DecisionShape(r.approved, Roles(msgs), t.response)
      && Reports(w, |s.log|, s.pending.actions, ActionsOf(t.response), msgs, [DecisionEvent(s, r)] + events)
      && t.state.posts <= s.posts + (if r.approved then 4 else 1)
  {
    var session, call := s.pending.session, s.pending.call;
    var result := if r.approved then w.execute(|s.log|, call) else DeclinedJson(r.reason);
    msgs, events := SettledDoes(w, s, r, result, Action(call.name, call.arguments, result));
  }

  lemma SettledDoes(w: World, s: State, r: DecisionRequest, result: string, a: Action)
    returns (msgs: seq<ChatMessage>, events: seq<Event>)
    requires s.pending.Awaiting? && a.result == result && Entry(w, |s.log|, DecisionEvent(s, r)) == [a]
    ensures var t := Finish(w, Decided(w, s, r, result), s.pending.session, s.pending.call, result,
      s.pending.actions + [a], r.approved, "");
      && Did(w, s, t.state, s.pending.session, msgs, [DecisionEvent(s, r)] + events)
      && Ends(s.(pending := NoPending), t, s.pending.session, msgs, events, if r.approved then 1 else 0)
      && DecisionShape(r.approved, Roles(msgs), t.response)
      && Reports(w, |s.log|, s.pending.actions, ActionsOf(t.response), msgs, [DecisionEvent(s, r)] + events)
      && t.state.posts <= s.posts + (if r.approved then 4 else 1)
  {
    hide Did, Reports, Finish, Decided, ToolTexts, DecisionEvent, Entry;
    var session, call, carried, approved := s.pending.session, s.pending.call, s.pending.actions, r.approved;
    var told, decided, note := Decided(w, s, r, result), [DecisionEvent(s, r)],
      [ChatMessage(Tool, result)];
    DecidedDoes(w, s, r, result);
    ReportsOne(w, |s.log|, carried, a, DecisionEvent(s, r));
    var t := Finish(w, told, session, call, result, carried + [a], approved, "");
    var reply, more := FinishDoes(w, told, session, call, result, carried + [a], approved, "");
    DidThen(w, s, told, t.state, session, note, reply, decided, more);
    LogGrows(w, s, told, session, note, decided);
    ReportsThen(w, |s.log|, carried, carried + [a], ActionsOf(t.response), note, reply, decided, more);
    RolesConcat(note, reply);
    assert (Roles(note) + Roles(reply))[1..] == Roles(reply);
    msgs, events := note + reply, more;
  }

  // ---- bounds and the one reply -------------------------------------------------------------

  function Executions(events: seq<Event>): nat {
    if events == [] then 0
    else Executions(events[..|events| - 1]) + (if events[|events| - 1].Executed? then 1 else 0)
  }

  lemma {:induction false} ExecutionsConcat(a: seq<Event>, b: seq<Event>)
    ensures Executions(a + b) == Executions(a) + Executions(b)
  {
    if b == [] {
      assert a + b == a;
    } else {
      ExecutionsConcat(a, b[..|b| - 1]);
      assert (a + b)[..|a + b| - 1] == a + b[..|b| - 1];
    }
  }

  lemma {:induction false} ExecutionsAtMost(events: seq<Event>)
    ensures Executions(events) <= |events|
  {
    if events != [] {
      ExecutionsAtMost(events[..|events| - 1]);
    }
  }

  /** A finished call records exactly one assistant message, as its last; any other records none. */
  predicate OneReply(roles: seq<Role>, response: Response) {
    if response.Final? then
      roles != [] && roles[|roles| - 1] == Assistant && Assistant !in roles[..|roles| - 1]
    else Assistant !in roles
  }

  lemma FinishRepliesOnce(roles: seq<Role>, response: Response)
    requires FinishShape(roles, response)
    ensures OneReply(roles, response)
  {
  }

  lemma OneReplyAfter(first: seq<Role>, rest: seq<Role>, response: Response)
    requires OneReply(rest, response) && Assistant !in first
    ensures OneReply(first + rest, response)
  {
    if response.Final? {
      assert (first + rest)[..|first + rest| - 1] == first + rest[..|rest| - 1];
    }
  }

  lemma ActRepliesOnce(roles: seq<Role>, response: Response)
    requires ActShape(roles, response)
    ensures OneReply(roles, response)
  {
    if roles != [] {
      FinishRepliesOnce(roles[1..], response);
      OneReplyAfter(roles[..1], roles[1..], response);
      assert roles == roles[..1] + roles[1..];
    }
  }

  lemma AnswerRepliesOnce(roles: seq<Role>, response: Response)
    requires AnswerShape(roles, response)
    ensures OneReply(roles, response)
  {
    hide ActShape;
    if roles != [] && roles != [Assistant] {
      ActRepliesOnce(roles, response);
    } else if roles == [] && !response.Error? {
      ActRepliesOnce(roles, response);
    } else if roles == [Assistant] && !response.Final? {
      ActRepliesOnce(roles, response);
    }
  }

  lemma TurnRepliesOnceByShape(w: World, r: TurnRequest, roles: seq<Role>, response: Response)
    requires TurnShape(w, r, roles, response)
    ensures OneReply(roles, response)
  {
    hide AnswerShape;
    if r.message != "" && w.enableAi {
      var n := if OpeningShape(roles[..1]) && AnswerShape(roles[1..], response) then 1 else 2;
      AnswerRepliesOnce(roles[n..], response);
      OneReplyAfter(roles[..n], roles[n..], response);
      assert roles == roles[..n] + roles[n..];
    }
  }

  /** At most two tools run and seven requests are posted in a turn; it replies at most once. */
  lemma TurnIsBounded(w: World, s: State, r: TurnRequest, freshId: string)
    returns (msgs: seq<ChatMessage>, events: seq<Event>)
    ensures var base := SwitchSession(w, s, r, freshId);
      var t := AgentTurn(w, s, r, freshId);
      && Did(w, base, t.state, base.current, msgs, events)
      && OneReply(Roles(msgs), t.response)
      && Executions(events) <= 2
      && t.state.posts <= s.posts + 7
  {
    hide Did, AgentTurn, TurnShape, OneReply, Reports, Executions;
    var acted;
    msgs, acted := TurnDoes(w, s, r, freshId);
    var base := SwitchSession(w, s, r, freshId);
    var opening := if r.message == "" then [] else OpeningEvents(base);
    events := opening + acted;
    TurnRepliesOnceByShape(w, r, Roles(msgs), AgentTurn(w, s, r, freshId).response);
    ExecutionsConcat(opening, acted);
    ExecutionsAtMost(acted);
    OpeningExecutesNothing(opening);
  }

  lemma OpeningExecutesNothing(events: seq<Event>)
    requires events == [] || (|events| == 1 && events[0].Abandoned?)
    ensures Executions(events) == 0
  {
  }

  /** An approval runs at most two tools and posts at most four requests; a decline runs none. */
  lemma DecisionIsBounded(w: World, s: State, r: DecisionRequest)
    returns (msgs: seq<ChatMessage>, events: seq<Event>)
    requires !Mismatched(s, r)
    ensures var t := ToolDecision(w, s, r);
      && Did(w, s, t.state, s.pending.session, msgs, events)
      && OneReply(Roles(msgs), t.response)
      && Executions(events) <= (if r.approved then 2 else 0)
      && t.state.posts <= s.posts + (if r.approved then 4 else 1)
  {
    hide Did, ToolDecision, FinishShape, OneReply, Reports, Executions;
    var acted;
    msgs, acted := DecisionDoes(w, s, r);
    var decided := [DecisionEvent(s, r)];
    events := decided + acted;
    FinishRepliesOnce(Roles(msgs)[1..], ToolDecision(w, s, r).response);
    OneReplyAfter(Roles(msgs)[..1], Roles(msgs)[1..], ToolDecision(w, s, r).response);
    assert Roles(msgs) == Roles(msgs)[..1] + Roles(msgs)[1..];
    ExecutionsConcat(decided, acted);
    ExecutionsAtMost(acted);
    OneDecision(decided);
  }

  lemma OneDecision(events: seq<Event>)
    requires |events| == 1
    ensures Executions(events) == if events[0].Executed? then 1 else 0
  {
    assert events[..0] == [];
  }
}
