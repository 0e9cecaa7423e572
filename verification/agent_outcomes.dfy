/** What a message or a decision leads to, case by case: which reply of the provider is heard, which
    call is run or proposed with which arguments, what is recorded and what is answered. */
module AgentOutcomes {
  import opened Text
  import opened JsonCodec
  import opened JsonTokens
  import opened JsonDocument
  import opened ChatRoles
  import opened AgentResponse
  import opened AgentProtocol
  import opened AgentRuns

  // ---- the tools ----------------------------------------------------------------------------

  /** The tools that wait for approval. */
  predicate NeedsApproval(tool: string) {
    tool in {"run_command", "run_ffmpeg", "write_file", "open_application", "launch_connector", "stop_connector",
      "enqueue_task", "cancel_task", "copy_file", "move_path", "delete_file", "create_directory", "write_clipboard"}
  }

  /** Of these, the ones looked at before they are proposed. */
  predicate LookedAt(tool: string) {
    tool in {"run_command", "run_ffmpeg", "open_application"}
  }

  /** The tools whose failure the provider may correct once. */
  predicate MayTryAgain(tool: string) {
    tool in {"run_command", "run_ffmpeg", "read_file", "write_file", "copy_file", "move_path", "delete_file",
      "create_directory", "open_application"}
  }

  lemma ToolsAreThese(tool: string)
    ensures IsGated(tool) <==> NeedsApproval(tool)
    ensures IsChecked(tool) <==> LookedAt(tool)
    ensures IsRetriable(tool) <==> MayTryAgain(tool)
  {
  }

  // ---- which reply is heard -----------------------------------------------------------------

  predicate SaysNothing(r: Reply) { r.ok && r.text == "" && |r.calls| == 0 }

  /** Of the requests from number `start` on, the reply to number `k` is the one taken: the first
      that says something, or the third. */
  predicate Heard(w: World, start: nat, k: nat) {
    && start <= k <= start + 2
    && (forall j | start <= j < k :: SaysNothing(w.post(j)))
    && (k < start + 2 ==> !SaysNothing(w.post(k)))
  }

  lemma SomethingIsHeard(w: World, start: nat) returns (k: nat)
    ensures Heard(w, start, k)
  {
    k := if !SaysNothing(w.post(start)) then start
      else if !SaysNothing(w.post(start + 1)) then start + 1 else start + 2;
  }

  lemma {:induction false} ClassifyHears(w: World, start: nat, attempt: nat, k: nat)
    requires attempt <= 2 && start >= attempt && Heard(w, start - attempt, k) && k >= start
    ensures ClassifyFrom(w, start, attempt) == Classified(Decide(w.post(k)), k + 1)
    decreases 2 - attempt
  {
    if IsEmptyReply(w.post(start)) && attempt < 2 {
      ClassifyHears(w, start + 1, attempt + 1, k);
    } else {
      assert SaysNothing(w.post(start)) <==> IsEmptyReply(w.post(start));
    }
  }

  lemma HeardDecides(w: World, start: nat, k: nat)
    requires w.requestProblem.None? && Heard(w, start, k)
    ensures Classify(w, start) == Classified(Decide(w.post(k)), k + 1)
  {
    ClassifyHears(w, start, 0, k);
  }

  // ---- how far a call has come --------------------------------------------------------------

  /** From `s` to `t`, exactly these messages were recorded and these events happened, this call is
      the one that waits, and so many requests have been posted. */
  predicate Became(w: World, s: State, t: State, session: string, msgs: seq<ChatMessage>, events: seq<Event>,
                   pending: Pending, posts: nat)
  {
    Did(w, s, t, session, msgs, events) && t.pending == pending && t.posts == posts
  }

  lemma BecameThen(w: World, s: State, t: State, u: State, session: string, a: seq<ChatMessage>, e: seq<Event>,
                   p: Pending, m: nat, b: seq<ChatMessage>, f: seq<Event>, q: Pending, n: nat)
    requires Became(w, s, t, session, a, e, p, m) && Became(w, t, u, session, b, f, q, n)
    ensures Became(w, s, u, session, a + b, e + f, q, n)
  {
    DidThen(w, s, t, u, session, a, b, e, f);
  }

  lemma RecordBecomes(w: World, s: State, session: string, role: Role, content: string)
    ensures Became(w, s, Record(w, s, session, role, content), session, [ChatMessage(role, content)], [],
                   s.pending, s.posts)
  {
    hide Did;
    RecordDoes(w, s, session, role, content);
    RecordFrame(w, s, session, role, content);
  }

  /** Something happens, or requests are posted, and then a message is recorded. */
  lemma StirredBecomes(w: World, s: State, session: string, pending: Pending, events: seq<Event>, posts: nat,
                       role: Role, content: string)
    requires posts >= s.posts
    ensures var t := Record(w, s.(pending := pending, log := s.log + events, posts := posts), session, role, content);
      Became(w, s, t, session, [ChatMessage(role, content)], events, pending, posts)
  {
    hide Did, Record;
    var stirred := s.(pending := pending, log := s.log + events, posts := posts);
    NothingDone(w, s, session, posts, pending, events);
    RecordBecomes(w, stirred, session, role, content);
    BecameThen(w, s, stirred, Record(w, stirred, session, role, content), session, [], events, pending, posts,
      [ChatMessage(role, content)], [], pending, posts);
    assert [] + [ChatMessage(role, content)] == [ChatMessage(role, content)] && events + [] == events;
  }

  lemma PostingBecomes(w: World, s: State, session: string, posts: nat)
    requires posts >= s.posts
    ensures Became(w, s, s.(posts := posts), session, [], [], s.pending, posts)
  {
    assert s.log + [] == s.log;
    NothingDone(w, s, session, posts, s.pending, []);
  }

  // ---- one call: refused, run or proposed ---------------------------------------------------

  /** The provider chose `call`, heard with reply `k`. It ran or was refused: this is the event and
      its result at position `n` of the log. */
  predicate Settles(w: World, n: nat, k: nat, call: Call, e: Event, result: string) {
    if NeedsApproval(call.name)
    then LookedAt(call.name) && w.precheck(k + 1, call) == Refuse(result) && e == Refused(call, result)
    else result == w.execute(n, call) && e == Executed(call, false)
  }

  /** Or it is proposed, a command or a launch as the check has rewritten it. */
  predicate Asks(w: World, k: nat, call: Call, proposed: Call) {
    && NeedsApproval(call.name) && proposed.name == call.name
    && (if LookedAt(call.name) then w.precheck(k + 1, call) == Proceed(proposed.arguments)
        else proposed.arguments == call.arguments)
  }

  /** Exactly one of the two, for every call. */
  lemma SettlesOrAsks(w: World, n: nat, k: nat, call: Call)
    ensures (exists e, result :: Settles(w, n, k, call, e, result)) <==> !exists p :: Asks(w, k, call, p)
  {
    if NeedsApproval(call.name) {
      if LookedAt(call.name) {
        match w.precheck(k + 1, call) {
          case Refuse(f) => assert Settles(w, n, k, call, Refused(call, f), f);
          case Proceed(a) => assert Asks(w, k, call, call.(arguments := a));
        }
      } else {
        assert Asks(w, k, call, call.(arguments := call.arguments));
      }
    } else {
      assert Settles(w, n, k, call, Executed(call, false), w.execute(n, call));
    }
  }

  lemma CallSettles(w: World, s: State, session: string, call: Call, actions: seq<Action>, thinking: string,
                    e: Event, result: string)
    requires s.posts > 0 && Settles(w, |s.log|, s.posts - 1, call, e, result)
    ensures var o := ExecuteOrPause(w, s, session, call, actions, thinking);
      && o.Ran? && o.resultJson == result && o.actions == actions + [Action(call.name, call.arguments, result)]
      && Became(w, s, o.state, session, [ChatMessage(Tool, result)], [e], s.pending, s.posts)
  {
    hide Did, Record, IsGated, IsChecked, NeedsApproval, LookedAt;
    ToolsAreThese(call.name);
    StirredBecomes(w, s, session, s.pending, [e], s.posts, Tool, result);
  }

  lemma CallAsks(w: World, s: State, session: string, call: Call, actions: seq<Action>, thinking: string,
                 proposed: Call)
    requires s.posts > 0 && Asks(w, s.posts - 1, call, proposed)
    ensures var o := ExecuteOrPause(w, s, session, call, actions, thinking);
      && o.Stopped? && o.response == AwaitingApproval(session, proposed, actions, thinking)
      && Became(w, s, o.state, session, [], [Paused(proposed)], Awaiting(session, proposed, actions), s.posts)
  {
    hide Did, Record, IsGated, IsChecked, NeedsApproval, LookedAt;
    ToolsAreThese(call.name);
    NothingDone(w, s, session, s.posts, Awaiting(session, proposed, actions), [Paused(proposed)]);
    assert proposed == call.(arguments := proposed.arguments);
  }

  // ---- the reply ----------------------------------------------------------------------------

  function FixedSentence(result: string): string {
    var error := StringField(result, "error", 0);
    if BoolField(result, "ok", 0) == Some(true) then "Done."
    else if error == "" then "That didn't work." else "That didn't work: " + error
  }

  /** The wording of a result, and how many requests have then been posted: the template if there is
      one, else the provider's, else a fixed sentence. */
  predicate Told(w: World, posts: nat, call: Call, result: string, text: string, after: nat) {
    var template, reply := w.template(call, result), w.post(posts);
    if template != "" then text == template && after == posts
    else if w.requestProblem.Some? then text == FixedSentence(result) && after == posts
    else after == posts + 1 && text == if reply.ok && reply.text != "" then reply.text else FixedSentence(result)
  }

  lemma SomethingIsTold(w: World, posts: nat, call: Call, result: string) returns (text: string, after: nat)
    ensures Told(w, posts, call, result, text, after) && posts <= after <= posts + 1
  {
    hide StringField, BoolField;
    var p := Phrase(w, posts, call, result);
    text, after := p.text, p.posts;
  }

  lemma ConcludesSo(w: World, s: State, session: string, call: Call, result: string, actions: seq<Action>,
                    thinking: string, text: string, after: nat)
    requires Told(w, s.posts, call, result, text, after)
    ensures var t := Conclude(w, s, session, call, result, actions, thinking);
      && t.response == Final(session, text, actions, thinking)
      && Became(w, s, t.state, session, [ChatMessage(Assistant, text)], [], s.pending, after)
  {
    hide Did, Record, StringField, BoolField;
    assert Phrase(w, s.posts, call, result) == Phrased(text, after);
    assert s.log + [] == s.log;
    StirredBecomes(w, s, session, s.pending, [], after, Assistant, text);
  }

  // ---- after a result: the one retry, then the reply ----------------------------------------

  /** The result calls for the one retry. */
  predicate Retries(call: Call, result: string, allowRetry: bool) {
    allowRetry && BoolField(result, "ok", 0) != Some(true) && MayTryAgain(call.name)
  }

  function Note(call: Call, result: string): ChatMessage {
    var error := StringField(result, "error", 0);
    ChatMessage(System, "(" + call.name + " failed: " + (if error == "" then "unknown error" else error)
      + ". This is your one automatic retry - if you can fix the input, call the right tool now with a "
      + "corrected argument; otherwise just explain what went wrong.)")
  }

  lemma FinishesAtOnce(w: World, s: State, session: string, call: Call, result: string, actions: seq<Action>,
                       allowRetry: bool, thinking: string, text: string, after: nat)
    requires !Retries(call, result, allowRetry) && Told(w, s.posts, call, result, text, after)
    ensures var t := Finish(w, s, session, call, result, actions, allowRetry, thinking);
      && t.response == Final(session, text, actions, thinking)
      && Became(w, s, t.state, session, [ChatMessage(Assistant, text)], [], s.pending, after)
  {
    hide Became, Conclude, StringField, BoolField, IsRetriable, MayTryAgain, Told;
    ToolsAreThese(call.name);
    ConcludesSo(w, s, session, call, result, actions, thinking, text, after);
  }

  /** What the retry of a failed call chooses: nothing, when no request can be built or the reply
      holds no call. */
  predicate ChoosesAgain(w: World, posts: nat, choice: Option<Call>, retryThinking: string, after: nat) {
    match w.requestProblem
    case Some(_) => choice == None && after == posts
    case None =>
      after > 0 && Heard(w, posts, after - 1) &&
      var reply := w.post(after - 1);
      if reply.ok && |reply.calls| > 0 then choice == Some(reply.calls[0]) && retryThinking == reply.thinking
      else choice == None
  }

  lemma RetryAsks(w: World, s: State, session: string, call: Call, result: string,
                  choice: Option<Call>, retryThinking: string, after: nat)
    requires ChoosesAgain(w, s.posts, choice, retryThinking, after)
    ensures var noted := Record(w, s, session, System, RetryNote(call, result));
      var c := Classify(w, noted.posts);
      && after == c.posts >= s.posts
      && (choice.Some? <==> c.decision.LlmTool?)
      && (choice.Some? ==> c.decision == LlmTool(choice.value, retryThinking))
      && Became(w, s, noted.(posts := after), session, [Note(call, result)], [], s.pending, after)
  {
    hide Did, StringField, BoolField, Record, Classify, Heard;
    var noted := Record(w, s, session, System, RetryNote(call, result));
    PostsKept(w, s, session, RetryNote(call, result));
    RecordBecomes(w, s, session, System, RetryNote(call, result));
    if w.requestProblem.None? {
      HeardDecides(w, s.posts, after - 1);
      HeardIsLater(w, s.posts, after - 1);
    } else {
      ProblemDecides(w, s.posts);
    }
    PostingBecomes(w, noted, session, after);
    BecameThen(w, s, noted, noted.(posts := after), session, [Note(call, result)], [], s.pending, s.posts,
      [], [], s.pending, after);
    assert [Note(call, result)] + [] == [Note(call, result)];
    NoEventsTwice();
  }

  lemma NoEventsTwice()
    ensures var none: seq<Event> := []; none + none == none
  {
  }

  lemma HeardIsLater(w: World, start: nat, k: nat)
    requires Heard(w, start, k)
    ensures k >= start
  {
  }

  lemma ProblemDecides(w: World, posts: nat)
    requires w.requestProblem.Some?
    ensures Classify(w, posts) == Classified(TransportFailed(w.requestProblem.value), posts)
  {
  }

  /** The retry chose nothing: the first failure is told. */
  lemma RetryGivesUp(w: World, s: State, session: string, call: Call, result: string, actions: seq<Action>,
                     thinking: string, retryThinking: string, asked: nat, text: string, after: nat)
    requires Retries(call, result, true) && ChoosesAgain(w, s.posts, None, retryThinking, asked)
    requires Told(w, asked, call, result, text, after)
    ensures var t := Finish(w, s, session, call, result, actions, true, thinking);
      && t.response == Final(session, text, actions, thinking)
      && Became(w, s, t.state, session, [Note(call, result), ChatMessage(Assistant, text)], [], s.pending, after)
  {
    hide Became, Conclude, StringField, BoolField, IsRetriable, MayTryAgain, Told, ChoosesAgain, Record, Classify;
    hide RetryNote, Note;
    ToolsAreThese(call.name);
    RetryAsks(w, s, session, call, result, None, retryThinking, asked);
    var noted := Record(w, s, session, System, RetryNote(call, result));
    PostsKept(w, s, session, RetryNote(call, result));
    var ready := noted.(posts := asked);
    ConcludesSo(w, ready, session, call, result, actions, thinking, text, after);
    var t := Conclude(w, ready, session, call, result, actions, thinking);
    BecamePending(w, s, ready, session, [Note(call, result)], [], s.pending, asked);
    BecameThen(w, s, ready, t.state, session, [Note(call, result)], [], s.pending, asked,
      [ChatMessage(Assistant, text)], [], s.pending, after);
    assert [Note(call, result)] + [ChatMessage(Assistant, text)]
      == [Note(call, result), ChatMessage(Assistant, text)];
    NoEventsTwice();
  }

  lemma BecamePending(w: World, s: State, t: State, session: string, msgs: seq<ChatMessage>, events: seq<Event>,
                      pending: Pending, posts: nat)
    requires Became(w, s, t, session, msgs, events, pending, posts)
    ensures t.pending == pending && t.posts == posts && |t.log| == |s.log| + |events|
  {
  }

  lemma PostsKept(w: World, s: State, session: string, note: string)
    ensures Record(w, s, session, System, note).posts == s.posts
  {
  }

  /** The retry chose a call that ran or was refused: its result is told. */
  lemma RetryRuns(w: World, s: State, session: string, call: Call, result: string, actions: seq<Action>,
                  thinking: string, second: Call, retryThinking: string, asked: nat,
                  e: Event, again: string, text: string, after: nat)
    requires Retries(call, result, true) && ChoosesAgain(w, s.posts, Some(second), retryThinking, asked) && asked > 0
    requires Settles(w, |s.log|, asked - 1, second, e, again) && Told(w, asked, second, again, text, after)
    ensures var t := Finish(w, s, session, call, result, actions, true, thinking);
      && t.response == Final(session, text, actions + [Action(second.name, second.arguments, again)], thinking)
      && Became(w, s, t.state, session,
                [Note(call, result), ChatMessage(Tool, again), ChatMessage(Assistant, text)], [e], s.pending, after)
  {
    hide Became, Conclude, StringField, BoolField, IsRetriable, MayTryAgain, Told, ChoosesAgain, Record, Classify;
    hide Settles, ExecuteOrPause, RetryNote, Note;
    ToolsAreThese(call.name);
    RetryAsks(w, s, session, call, result, Some(second), retryThinking, asked);
    PostsKept(w, s, session, RetryNote(call, result));
    var ready := Record(w, s, session, System, RetryNote(call, result)).(posts := asked);
    BecamePending(w, s, ready, session, [Note(call, result)], [], s.pending, asked);
    CallSettles(w, ready, session, second, actions, retryThinking, e, again);
    var o := ExecuteOrPause(w, ready, session, second, actions, retryThinking);
    BecameThen(w, s, ready, o.state, session, [Note(call, result)], [], s.pending, asked,
      [ChatMessage(Tool, again)], [e], s.pending, asked);
    BecamePending(w, ready, o.state, session, [ChatMessage(Tool, again)], [e], s.pending, asked);
    ConcludesSo(w, o.state, session, second, again, o.actions, thinking, text, after);
    var t := Conclude(w, o.state, session, second, again, o.actions, thinking);
    BecameThen(w, s, o.state, t.state, session, [Note(call, result)] + [ChatMessage(Tool, again)], [] + [e],
      s.pending, asked, [ChatMessage(Assistant, text)], [], s.pending, after);
    assert [Note(call, result)] + [ChatMessage(Tool, again)] + [ChatMessage(Assistant, text)]
      == [Note(call, result), ChatMessage(Tool, again), ChatMessage(Assistant, text)];
    assert [] + [e] + [] == [e];
  }

  /** The retry chose a call that needs approval: it waits, with the failed one among its actions. */
  lemma RetryProposesAnother(w: World, s: State, session: string, call: Call, result: string, actions: seq<Action>,
                             thinking: string, second: Call, retryThinking: string, asked: nat, proposed: Call)
    requires Retries(call, result, true) && ChoosesAgain(w, s.posts, Some(second), retryThinking, asked) && asked > 0
    requires Asks(w, asked - 1, second, proposed)
    ensures var t := Finish(w, s, session, call, result, actions, true, thinking);
      && t.response == AwaitingApproval(session, proposed, actions, retryThinking)
      && Became(w, s, t.state, session, [Note(call, result)], [Paused(proposed)],
                Awaiting(session, proposed, actions), asked)
  {
    hide Became, Conclude, StringField, BoolField, IsRetriable, MayTryAgain, ChoosesAgain, Record, Classify;
    hide Asks, ExecuteOrPause, RetryNote, Note;
    ToolsAreThese(call.name);
    RetryAsks(w, s, session, call, result, Some(second), retryThinking, asked);
    PostsKept(w, s, session, RetryNote(call, result));
    var ready := Record(w, s, session, System, RetryNote(call, result)).(posts := asked);
    BecamePending(w, s, ready, session, [Note(call, result)], [], s.pending, asked);
    CallAsks(w, ready, session, second, actions, retryThinking, proposed);
    var o := ExecuteOrPause(w, ready, session, second, actions, retryThinking);
    BecameThen(w, s, ready, o.state, session, [Note(call, result)], [], s.pending, asked,
      [], [Paused(proposed)], Awaiting(session, proposed, actions), asked);
    assert [Note(call, result)] + [] == [Note(call, result)] && [] + [Paused(proposed)] == [Paused(proposed)];
  }

  // ---- a message ----------------------------------------------------------------------------

  /** Whether a call of this session is left waiting when the message comes. */
  predicate LeftWaiting(base: State) { base.pending.Awaiting? && base.pending.session == base.current }

  function AbandonNote(): string {
    "(A previously pending tool call in this session was abandoned - the user sent a new "
    + "message instead of approving or declining it. If it's still relevant, call the tool again.)"
  }

  /** What is recorded before the provider is asked. */
  function Opening(w: World, base: State, message: string): seq<ChatMessage> {
    (if LeftWaiting(base) then [ChatMessage(System, AbandonNote())]
     else if base.transcript == [] && w.systemPrompt != "" then [ChatMessage(System, w.systemPrompt)]
     else []) + [ChatMessage(User, message)]
  }

  function LeftEvents(base: State): seq<Event> {
    if LeftWaiting(base) then [Abandoned(base.pending.call)] else []
  }

  function StillWaiting(base: State): Pending { if LeftWaiting(base) then NoPending else base.pending }

  lemma AbandonBecomes(w: World, base: State)
    ensures var clean := AbandonPending(w, base);
      && Became(w, base, clean, base.current,
                if LeftWaiting(base) then [ChatMessage(System, AbandonNote())] else [],
                LeftEvents(base), StillWaiting(base), base.posts)
      && clean.current == base.current
  {
    hide Did, Record;
    assert ABANDONED_NOTE == AbandonNote();
    if LeftWaiting(base) {
      StirredBecomes(w, base, base.current, NoPending, LeftEvents(base), base.posts, System, AbandonNote());
      RecordFrame(w, base.(pending := NoPending, log := base.log + LeftEvents(base)), base.current, System,
        AbandonNote());
    } else {
      PostingBecomes(w, base, base.current, base.posts);
      assert base == base.(posts := base.posts);
    }
  }

  function Seed(w: World, s: State): seq<ChatMessage> {
    if s.transcript == [] && w.systemPrompt != "" then [ChatMessage(System, w.systemPrompt)] else []
  }

  lemma SeedBecomes(w: World, s: State)
    ensures var t := SeedPrompt(w, s);
      Became(w, s, t, s.current, Seed(w, s), [], s.pending, s.posts) && t.current == s.current
  {
    hide Did, Record;
    if Seed(w, s) == [] {
      PostingBecomes(w, s, s.current, s.posts);
      assert s == s.(posts := s.posts);
    } else {
      RecordBecomes(w, s, s.current, System, w.systemPrompt);
      RecordFrame(w, s, s.current, System, w.systemPrompt);
    }
  }

  lemma OpeningBecomes(w: World, base: State, message: string)
    ensures var ready := Opened(w, AbandonPending(w, base), message);
      && Became(w, base, ready, base.current, Opening(w, base, message), LeftEvents(base), StillWaiting(base),
                base.posts)
      && AbandonPending(w, base).current == base.current
  {
    hide Became, Record, AbandonPending, SeedPrompt, LeftEvents, StillWaiting, AbandonNote;
    var clean := AbandonPending(w, base);
    AbandonBecomes(w, base);
    var left := if LeftWaiting(base) then [ChatMessage(System, AbandonNote())] else [];
    BecameSoFar(w, base, clean, base.current, left, LeftEvents(base), StillWaiting(base), base.posts);
    var seeded := SeedPrompt(w, clean);
    var prompt := Seed(w, clean);
    SeedBecomes(w, clean);
    BecameThen(w, base, clean, seeded, base.current, left, LeftEvents(base), StillWaiting(base), base.posts,
      prompt, [], StillWaiting(base), base.posts);
    BecameSoFar(w, base, seeded, base.current, left + prompt, LeftEvents(base) + [], StillWaiting(base), base.posts);
    RecordBecomes(w, seeded, base.current, User, message);
    BecameThen(w, base, seeded, Record(w, seeded, base.current, User, message), base.current, left + prompt,
      LeftEvents(base) + [], StillWaiting(base), base.posts, [ChatMessage(User, message)], [], StillWaiting(base),
      base.posts);
    assert LeftEvents(base) + [] + [] == LeftEvents(base);
    assert left + prompt == left || left + prompt == prompt;
    assert left + prompt + [ChatMessage(User, message)] == Opening(w, base, message);
  }

  lemma BecameSoFar(w: World, s: State, t: State, session: string, msgs: seq<ChatMessage>, events: seq<Event>,
                    pending: Pending, posts: nat)
    requires Became(w, s, t, session, msgs, events, pending, posts)
    ensures t.transcript == s.transcript + msgs && t.current == s.current
    ensures t.pending == pending && t.posts == posts
  {
  }

  /** The message is recorded and the provider asked; `c` is what was heard. */
  lemma MessageAsks(w: World, s: State, r: TurnRequest, freshId: string, after: nat, decision: Decision)
    returns (asked: State)
    requires r.message != "" && w.enableAi
    requires Classify(w, s.posts) == Classified(decision, after) && after >= s.posts
    ensures var base := SwitchSession(w, s, r, freshId);
      && AgentTurn(w, s, r, freshId) == Answer(w, asked, base.current, decision)
      && Became(w, base, asked, base.current, Opening(w, base, r.message), LeftEvents(base), StillWaiting(base), after)
      && base.posts == s.posts
  {
    hide Did, AbandonPending, Opened, Answer, Classify, Opening;
    var base := SwitchSession(w, s, r, freshId);
    OpeningBecomes(w, base, r.message);
    var ready := Opened(w, AbandonPending(w, base), r.message);
    PostingBecomes(w, ready, base.current, after);
    asked := ready.(posts := after);
    BecameThen(w, base, ready, asked, base.current, Opening(w, base, r.message), LeftEvents(base), StillWaiting(base),
      s.posts, [], [], StillWaiting(base), after);
    assert Opening(w, base, r.message) + [] == Opening(w, base, r.message);
    assert LeftEvents(base) + [] == LeftEvents(base);
  }

  /** A request that cannot be built fails with its problem and posts nothing. */
  lemma ProblemIsAnswered(w: World, s: State, r: TurnRequest, freshId: string)
    requires r.message != "" && w.enableAi && w.requestProblem.Some?
    ensures var base, t := SwitchSession(w, s, r, freshId), AgentTurn(w, s, r, freshId);
      && t.response == Error(w.requestProblem.value, Some(base.current))
      && Became(w, base, t.state, base.current, Opening(w, base, r.message), LeftEvents(base), StillWaiting(base),
                s.posts)
  {
    hide AgentTurn, SwitchSession, Became, Opening;
    ProblemDecides(w, s.posts);
    var asked := MessageAsks(w, s, r, freshId, s.posts, TransportFailed(w.requestProblem.value));
  }

  /** A failed reply fails the turn with its error, or with a fixed one. */
  lemma FailedReplyIsAnswered(w: World, s: State, r: TurnRequest, freshId: string, k: nat)
    requires r.message != "" && w.enableAi && w.requestProblem.None? && Heard(w, s.posts, k) && !w.post(k).ok
    ensures var base, t := SwitchSession(w, s, r, freshId), AgentTurn(w, s, r, freshId);
      var error := if w.post(k).error == "" then "provider request failed" else w.post(k).error;
      && t.response == Error(error, Some(base.current))
      && Became(w, base, t.state, base.current, Opening(w, base, r.message), LeftEvents(base), StillWaiting(base),
                k + 1)
  {
    hide AgentTurn, SwitchSession, Became, Opening;
    HeardDecides(w, s.posts, k);
    HeardIsLater(w, s.posts, k);
    var asked := MessageAsks(w, s, r, freshId, k + 1, Decide(w.post(k)));
  }

  /** A reply without a call is the answer, word for word; an empty one is replaced by a fixed text. */
  lemma PlainReplyIsAnswered(w: World, s: State, r: TurnRequest, freshId: string, k: nat)
    requires r.message != "" && w.enableAi && w.requestProblem.None? && Heard(w, s.posts, k)
    requires w.post(k).ok && |w.post(k).calls| == 0
    ensures var base, t := SwitchSession(w, s, r, freshId), AgentTurn(w, s, r, freshId);
      var text := if w.post(k).text == ""
        then "(no reply text - the model returned an empty response, try rephrasing)" else w.post(k).text;
      && t.response == Final(base.current, text, [], w.post(k).thinking)
      && Became(w, base, t.state, base.current, Opening(w, base, r.message) + [ChatMessage(Assistant, text)],
                LeftEvents(base), StillWaiting(base), k + 1)
  {
    hide AgentTurn, SwitchSession, Became, Opening, LeftEvents, StillWaiting, Record, Heard;
    HeardDecides(w, s.posts, k);
    HeardIsLater(w, s.posts, k);
    var asked := MessageAsks(w, s, r, freshId, k + 1, Decide(w.post(k)));
    var base, t := SwitchSession(w, s, r, freshId), AgentTurn(w, s, r, freshId);
    var text := Decide(w.post(k)).text;
    RecordBecomes(w, asked, base.current, Assistant, text);
    BecamePending(w, base, asked, base.current, Opening(w, base, r.message), LeftEvents(base), StillWaiting(base),
      k + 1);
    BecameThen(w, base, asked, t.state, base.current, Opening(w, base, r.message), LeftEvents(base),
      StillWaiting(base), k + 1, [ChatMessage(Assistant, text)], [], StillWaiting(base), k + 1);
    assert LeftEvents(base) + [] == LeftEvents(base);
  }

  /** The first call of the reply needs approval: it waits, and nothing is executed. */
  lemma ChosenCallWaits(w: World, s: State, r: TurnRequest, freshId: string, k: nat, proposed: Call)
    requires r.message != "" && w.enableAi && w.requestProblem.None? && Heard(w, s.posts, k)
    requires w.post(k).ok && |w.post(k).calls| > 0 && Asks(w, k, w.post(k).calls[0], proposed)
    ensures var base, t := SwitchSession(w, s, r, freshId), AgentTurn(w, s, r, freshId);
      && t.response == AwaitingApproval(base.current, proposed, [], w.post(k).thinking)
      && Became(w, base, t.state, base.current, Opening(w, base, r.message), LeftEvents(base) + [Paused(proposed)],
                Awaiting(base.current, proposed, []), k + 1)
  {
    hide AgentTurn, SwitchSession, Became, Opening, LeftEvents, StillWaiting, Asks, ExecuteOrPause, Finish;
    HeardDecides(w, s.posts, k);
    HeardIsLater(w, s.posts, k);
    var asked := MessageAsks(w, s, r, freshId, k + 1, Decide(w.post(k)));
    var base, t, call := SwitchSession(w, s, r, freshId), AgentTurn(w, s, r, freshId), w.post(k).calls[0];
    BecamePending(w, base, asked, base.current, Opening(w, base, r.message), LeftEvents(base), StillWaiting(base),
      k + 1);
    CallAsks(w, asked, base.current, call, [], w.post(k).thinking, proposed);
    BecameThen(w, base, asked, t.state, base.current, Opening(w, base, r.message), LeftEvents(base),
      StillWaiting(base), k + 1, [], [Paused(proposed)], Awaiting(base.current, proposed, []), k + 1);
    assert Opening(w, base, r.message) + [] == Opening(w, base, r.message);
  }

  /** It runs, or is refused: its result is on record, and what follows a result follows from there. */
  lemma ChosenCallSettles(w: World, s: State, r: TurnRequest, freshId: string, k: nat, e: Event, result: string)
    returns (mid: State)
    requires r.message != "" && w.enableAi && w.requestProblem.None? && Heard(w, s.posts, k)
    requires w.post(k).ok && |w.post(k).calls| > 0
    requires var base := SwitchSession(w, s, r, freshId);
      Settles(w, |s.log| + |LeftEvents(base)|, k, w.post(k).calls[0], e, result)
    ensures var base, call := SwitchSession(w, s, r, freshId), w.post(k).calls[0];
      && Became(w, base, mid, base.current, Opening(w, base, r.message) + [ChatMessage(Tool, result)],
                LeftEvents(base) + [e], StillWaiting(base), k + 1)
      && AgentTurn(w, s, r, freshId) == Finish(w, mid, base.current, call, result,
        [Action(call.name, call.arguments, result)], true, w.post(k).thinking)
  {
    hide AgentTurn, SwitchSession, Became, Opening, LeftEvents, StillWaiting, Settles, ExecuteOrPause, Finish;
    HeardDecides(w, s.posts, k);
    HeardIsLater(w, s.posts, k);
    var asked := MessageAsks(w, s, r, freshId, k + 1, Decide(w.post(k)));
    var base, call := SwitchSession(w, s, r, freshId), w.post(k).calls[0];
    BecamePending(w, base, asked, base.current, Opening(w, base, r.message), LeftEvents(base), StillWaiting(base),
      k + 1);
    LogStays(w, s, r, freshId);
    CallSettles(w, asked, base.current, call, [], w.post(k).thinking, e, result);
    var o := ExecuteOrPause(w, asked, base.current, call, [], w.post(k).thinking);
    mid := o.state;
    assert [] + [Action(call.name, call.arguments, result)] == [Action(call.name, call.arguments, result)];
    BecameThen(w, base, asked, mid, base.current, Opening(w, base, r.message), LeftEvents(base),
      StillWaiting(base), k + 1, [ChatMessage(Tool, result)], [e], StillWaiting(base), k + 1);
  }

  /** A message that is empty, or comes while AI is off. */
  lemma UnheededMessage(w: World, s: State, r: TurnRequest, freshId: string)
    requires r.message == "" || !w.enableAi
    ensures var base, t := SwitchSession(w, s, r, freshId), AgentTurn(w, s, r, freshId);
      if r.message == "" then t == Turn(base, Error("missing message", None))
      else
        && t.response == Error("AI is disabled (--no-ai)", None)
        && Became(w, base, t.state, base.current,
                  if LeftWaiting(base) then [ChatMessage(System, AbandonNote())] else [],
                  LeftEvents(base), StillWaiting(base), s.posts)
  {
    hide Became, AbandonPending, SwitchSession, Opened, Classify, Answer, LeftEvents, StillWaiting, LeftWaiting;
    hide AbandonNote;
    LogStays(w, s, r, freshId);
    AbandonBecomes(w, SwitchSession(w, s, r, freshId));
  }

  // ---- which session a message is for -------------------------------------------------------

  lemma LogStays(w: World, s: State, r: TurnRequest, freshId: string)
    ensures var t := SwitchSession(w, s, r, freshId);
      t.log == s.log && t.pending == s.pending && t.posts == s.posts && t.rows == s.rows
  {
  }

  /** The stored rows of a session that carry this hop number, in the order they were stored. */
  function Picked(rows: seq<Row>, session: string, hop: int): seq<Row> {
    if rows == [] then []
    else
      var last := rows[|rows| - 1];
      Picked(rows[..|rows| - 1], session, hop) + (if last.session == session && last.hop == hop then [last] else [])
  }

  /** `loaded` are the stored rows of the session, by ascending hop number, those of the same number
      in the order they were stored. */
  ghost predicate ReplaysOf(stored: seq<Row>, session: string, loaded: seq<Row>) {
    && (forall i, j | 0 <= i < j < |loaded| :: loaded[i].hop <= loaded[j].hop)
    && (forall i | 0 <= i < |loaded| :: loaded[i].session == session)
    && (forall hop: int :: Picked(loaded, session, hop) == Picked(stored, session, hop))
  }

  /** Clearing starts an empty session, naming another one resumes it from the store, and otherwise
      nothing changes. */
  lemma SessionIsChosen(w: World, s: State, r: TurnRequest, freshId: string) returns (loaded: seq<Row>)
    ensures var base := SwitchSession(w, s, r, freshId);
      && base == s.(transcript := base.transcript, current := base.current)
      && (r.clear ==> base.transcript == [] && base.current == freshId)
      && (!r.clear && (r.session == "" || r.session == s.current) ==> base == s)
      && (!r.clear && r.session != "" && r.session != s.current ==>
        && base.current == r.session && |base.transcript| == |loaded|
        && (if w.storeOpen then ReplaysOf(s.rows, r.session, loaded) else loaded == [])
        && forall i | 0 <= i < |loaded| ::
             base.transcript[i] == ChatMessage(RoleNamed(loaded[i].role), loaded[i].content))
  {
    hide RowsOf, SortedByHop, Picked;
    loaded := LoadSession(w, s.rows, r.session);
    if w.storeOpen {
      LoadReplays(s.rows, r.session);
    }
  }

  lemma LoadReplays(rows: seq<Row>, session: string)
    ensures ReplaysOf(rows, session, SortedByHop(RowsOf(rows, session)))
  {
    hide Picked;
    var picked := RowsOf(rows, session);
    RowsOfSession(rows, session);
    SortingSorts(picked, session);
    forall hop: int ensures Picked(SortedByHop(picked), session, hop) == Picked(rows, session, hop) {
      SortingPicks(picked, session, hop);
      PickedOfSession(rows, session, hop);
    }
  }

  lemma {:induction false} RowsOfSession(rows: seq<Row>, session: string)
    ensures forall r | r in RowsOf(rows, session) :: r.session == session
  {
    if rows != [] {
      RowsOfSession(rows[..|rows| - 1], session);
    }
  }

  lemma {:induction false} PickedOfSession(rows: seq<Row>, session: string, hop: int)
    ensures Picked(RowsOf(rows, session), session, hop) == Picked(rows, session, hop)
  {
    if rows != [] {
      var init, last := rows[..|rows| - 1], rows[|rows| - 1];
      PickedOfSession(init, session, hop);
      if last.session == session {
        PickedPush(RowsOf(init, session), last, session, hop);
      } else {
        assert RowsOf(rows, session) == RowsOf(init, session);
      }
    }
  }

  lemma PickedPush(rows: seq<Row>, r: Row, session: string, hop: int)
    ensures Picked(rows + [r], session, hop)
      == Picked(rows, session, hop) + (if r.session == session && r.hop == hop then [r] else [])
  {
    assert (rows + [r])[..|rows|] == rows;
  }

  predicate Ascending(rows: seq<Row>, session: string) {
    && (forall i, j | 0 <= i < j < |rows| :: rows[i].hop <= rows[j].hop)
    && (forall i | 0 <= i < |rows| :: rows[i].session == session)
  }

  lemma {:induction false} SortingSorts(rows: seq<Row>, session: string)
    requires forall r | r in rows :: r.session == session
    ensures Ascending(SortedByHop(rows), session)
  {
    if rows != [] {
      SortingSorts(rows[..|rows| - 1], session);
      InsertingSorts(SortedByHop(rows[..|rows| - 1]), rows[|rows| - 1], session);
    }
  }

  lemma {:induction false} InsertingSorts(rows: seq<Row>, r: Row, session: string)
    requires Ascending(rows, session) && r.session == session
    ensures Ascending(InsertByHop(rows, r), session)
    ensures forall q | q in InsertByHop(rows, r) :: q == r || q in rows
  {
    if rows != [] && rows[|rows| - 1].hop > r.hop {
      var init, last := rows[..|rows| - 1], rows[|rows| - 1];
      InsertingSorts(init, r, session);
      var shorter := InsertByHop(init, r);
      forall i | 0 <= i < |shorter| ensures shorter[i].hop <= last.hop {
        assert shorter[i] in shorter;
      }
    }
  }

  lemma {:induction false} SortingPicks(rows: seq<Row>, session: string, hop: int)
    requires forall r | r in rows :: r.session == session
    ensures Picked(SortedByHop(rows), session, hop) == Picked(rows, session, hop)
  {
    if rows != [] {
      var init, last := rows[..|rows| - 1], rows[|rows| - 1];
      SortingPicks(init, session, hop);
      SortingSorts(init, session);
      InsertingPicks(SortedByHop(init), last, session, hop);
      PickedPush(init, last, session, hop);
      assert init + [last] == rows;
    }
  }

  lemma {:induction false} InsertingPicks(rows: seq<Row>, r: Row, session: string, hop: int)
    requires Ascending(rows, session) && r.session == session
    ensures Picked(InsertByHop(rows, r), session, hop) == Picked(rows + [r], session, hop)
  {
    hide Picked;
    PickedPush(rows, r, session, hop);
    if rows != [] && rows[|rows| - 1].hop > r.hop {
      var init, last := rows[..|rows| - 1], rows[|rows| - 1];
      InsertingPicks(init, r, session, hop);
      PickedPush(InsertByHop(init, r), last, session, hop);
      PickedPush(init, r, session, hop);
      PickedPush(init, last, session, hop);
      assert init + [last] == rows;
    }
  }

  /** Roles are stored by these names, and an unknown name is read as the user's. */
  lemma RolesAreNamed(name: string)
    ensures RoleName(System) == "system" && RoleName(User) == "user"
    ensures RoleName(Assistant) == "assistant" && RoleName(Tool) == "tool"
    ensures name !in {"system", "assistant", "tool"} ==> RoleNamed(name) == User
  {
  }

  // ---- a decision ---------------------------------------------------------------------------

  /** Nothing waits, or what waits is another session's: the decision is refused and changes nothing. */
  lemma StrayDecisionIsRefused(w: World, s: State, r: DecisionRequest)
    requires s.pending.Awaiting? && r.session != "" ==> r.session != s.pending.session
    requires s.pending.Awaiting? ==> r.session != ""
    ensures ToolDecision(w, s, r) == Turn(s, Error("no tool call is awaiting a decision", None))
  {
  }

  /** Otherwise the waiting call is taken; approved, it runs with the arguments proposed; declined, the
      refusal is its result. Then follows what follows a result, with a retry only if it was approved. */
  lemma DecisionSettles(w: World, s: State, r: DecisionRequest) returns (mid: State, e: Event, result: string)
    requires s.pending.Awaiting? && (r.session == "" || r.session == s.pending.session)
    ensures var call := s.pending.call;
      && (if r.approved then e == Executed(call, true) && result == w.execute(|s.log|, call)
          else e == Declined(call, r.reason) && result == DeclinedJson(r.reason))
      && Became(w, s, mid, s.pending.session, [ChatMessage(Tool, result)], [e], NoPending, s.posts)
      && ToolDecision(w, s, r) == Finish(w, mid, s.pending.session, call, result,
        s.pending.actions + [Action(call.name, call.arguments, result)], r.approved, "")
  {
    hide Did, Record, Finish, DeclinedJson, Decided;
    var call := s.pending.call;
    result := if r.approved then w.execute(|s.log|, call) else DeclinedJson(r.reason);
    e := if r.approved then Executed(call, true) else Declined(call, r.reason);
    mid := Decided(w, s, r, result);
    DecidedDoes(w, s, r, result);
  }

  /** What a decline says: no success, and the reason if one was given. */
  lemma DeclineReads(reason: string)
    ensures BoolField(DeclinedJson(reason), "ok", 0) == Some(false)
    ensures StringField(DeclinedJson(reason), "error", 0)
      == if reason == "" then "user declined this action" else "user declined: " + reason
  {
    hide StringField, BoolField, IntField, Print, FirstInMembers;
    var text := if reason == "" then "user declined this action" else "user declined: " + reason;
    var a, b := Member("ok", JBool(false)), Member("error", JStr(text));
    var v := JObj([a, b]);
    DeclineIsPrinted(reason, text);
    DeclineLookup(a, b);
    assert IsKey("ok") && IsKey("error");
    ReadBack(v, "ok");
    ReadBack(v, "error");
  }

  lemma DeclineLookup(a: Member, b: Member)
    requires a.name == "ok" && a.value.JBool? && b.name == "error" && b.value.JStr?
    ensures FirstInMembers([a, b], "ok") == Some(a.value) && FirstInMembers([a, b], "error") == Some(b.value)
  {
    hide FirstInMembers;
    FirstInBoth([a], [b], "ok");
    FirstInBoth([a], [b], "error");
    FirstInOne(a, "ok");
    FirstInOne(a, "error");
    FirstInOne(b, "error");
    FirstInOne(b, "ok");
    assert [a] + [b] == [a, b];
  }

  lemma DeclineIsPrinted(reason: string, text: string)
    requires text == if reason == "" then "user declined this action" else "user declined: " + reason
    ensures DeclinedJson(reason) == Print(JObj([Member("ok", JBool(false)), Member("error", JStr(text))]))
  {
    hide PrintMembers, JsonStringField, JsonBoolField;
    PrintTwo(Member("ok", JBool(false)), Member("error", JStr(text)));
    PrintBoolField("ok", false);
    PrintStringField("error", text);
  }

  // ---- forgetting a session -----------------------------------------------------------------

  /** Forgetting the current session, named or not, starts a new empty one; forgetting another leaves
      the conversation. The log, the waiting call and the count of requests stay. */
  lemma ForgettingRestarts(w: World, s: State, session: string, freshId: string)
    ensures var t := DeleteSession(w, s, session, freshId);
      && (session == "" || session == s.current ==> t.transcript == [] && t.current == freshId)
      && (session != "" && session != s.current ==> t.transcript == s.transcript && t.current == s.current)
      && t.log == s.log && t.pending == s.pending && t.posts == s.posts
      && (!w.storeOpen ==> t.rows == s.rows)
  {
  }
}
