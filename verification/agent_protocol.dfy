/** The agent-turn protocol of `cli/host.cpp`: classify, execute or pause for approval, phrase.
    The model provider, the tools, the pre-approval check and the reply templates are arbitrary
    oracles; every host call is one atomic step. */
module AgentProtocol {
  import opened Text
  import opened JsonCodec
  import opened JsonDocument
  import opened ChatRoles
  import opened AgentResponse

  // ---- state --------------------------------------------------------------------------

  /** One row of the memory store. */
  datatype Row = Row(session: string, hop: int, role: string, content: string)

  datatype Pending = NoPending | Awaiting(session: string, call: Call, actions: seq<Action>)

  /** What happened to tool calls, in order. */
  datatype Event =
    | Paused(call: Call)
    | Executed(call: Call, approved: bool)
    | Refused(call: Call, resultJson: string)   // by the check before it would be proposed
    | Declined(call: Call, reason: string)
    | Abandoned(call: Call)

  datatype State = State(
    transcript: seq<ChatMessage>,
    current: string,
    pending: Pending,
    rows: seq<Row>,
    log: seq<Event>,
    posts: nat)

  /** A parsed provider response; `ok` is transport and HTTP success. */
  datatype Reply = Reply(ok: bool, text: string, calls: seq<Call>, thinking: string, error: string)

  datatype Check = Proceed(arguments: string) | Refuse(resultJson: string)

  /** The oracles, indexed by how much has happened so far, and the fixed configuration. */
  datatype World = World(
    storeOpen: bool,
    enableAi: bool,
    systemPrompt: string,
    requestProblem: Option<string>,
    post: nat -> Reply,
    execute: (nat, Call) -> string,
    precheck: (nat, Call) -> Check,
    template: (Call, string) -> string)

  datatype Response =
    | Error(error: string, ofSession: Option<string>)
    | Final(session: string, text: string, actions: seq<Action>, thinking: string)
    | AwaitingApproval(session: string, call: Call, actions: seq<Action>, thinking: string)

  datatype Turn = Turn(state: State, response: Response)

  predicate IsGated(tool: string) {
    tool == "run_command" || tool == "run_ffmpeg" || tool == "write_file" || tool == "open_application"
    || tool == "launch_connector" || tool == "stop_connector" || tool == "enqueue_task" || tool == "cancel_task"
    || tool == "copy_file" || tool == "move_path" || tool == "delete_file" || tool == "create_directory"
    || tool == "write_clipboard"
  }

  predicate IsChecked(tool: string) {
    tool == "run_command" || tool == "run_ffmpeg" || tool == "open_application"
  }

  predicate IsRetriable(tool: string) {
    tool == "run_command" || tool == "run_ffmpeg" || tool == "read_file" || tool == "write_file" || tool == "copy_file"
    || tool == "move_path" || tool == "delete_file" || tool == "create_directory" || tool == "open_application"
  }

  // ---- the transcript and the store ----------------------------------------------------

  function NewRows(session: string, start: nat, msgs: seq<ChatMessage>): (r: seq<Row>)
    ensures |r| == |msgs|
    ensures forall i | 0 <= i < |msgs| :: r[i] == Row(session, start + i, RoleName(msgs[i].role), msgs[i].content)
  {
    seq(|msgs|, i requires 0 <= i < |msgs| => Row(session, start + i, RoleName(msgs[i].role), msgs[i].content))
  }

  /** `record_agent_message` for each message: in-memory always, stored when the store is open. */
  function Recorded(w: World, s: State, session: string, msgs: seq<ChatMessage>): State {
    s.(transcript := s.transcript + msgs,
       rows := if w.storeOpen then s.rows + NewRows(session, |s.transcript|, msgs) else s.rows)
  }

  function Record(w: World, s: State, session: string, role: Role, content: string): State {
    Recorded(w, s, session, [ChatMessage(role, content)])
  }

  function RowsOf(rows: seq<Row>, session: string): seq<Row> {
    if rows == [] then []
    else RowsOf(rows[..|rows| - 1], session) + (if rows[|rows| - 1].session == session then [rows[|rows| - 1]] else [])
  }

  function InsertByHop(rows: seq<Row>, r: Row): seq<Row> {
    if rows == [] || rows[|rows| - 1].hop <= r.hop then rows + [r]
    else InsertByHop(rows[..|rows| - 1], r) + [rows[|rows| - 1]]
  }

  function SortedByHop(rows: seq<Row>): seq<Row> {
    if rows == [] then [] else InsertByHop(SortedByHop(rows[..|rows| - 1]), rows[|rows| - 1])
  }

  /** `load_session`: the session's rows ordered by hop index; nothing from a closed store. */
  function LoadSession(w: World, rows: seq<Row>, session: string): seq<Row> {
    if w.storeOpen then SortedByHop(RowsOf(rows, session)) else []
  }

  function Messages(rows: seq<Row>): (r: seq<ChatMessage>)
    ensures |r| == |rows|
    ensures forall i | 0 <= i < |rows| :: r[i] == ChatMessage(RoleNamed(rows[i].role), rows[i].content)
  {
    seq(|rows|, i requires 0 <= i < |rows| => ChatMessage(RoleNamed(rows[i].role), rows[i].content))
  }

  function WithoutSession(rows: seq<Row>, session: string): seq<Row> {
    if rows == [] then []
    else
      var last := rows[|rows| - 1];
      WithoutSession(rows[..|rows| - 1], session) + (if last.session == session then [] else [last])
  }

  // ---- classifying and phrasing -----------------------------------------------------------

  datatype Decision =
    | LlmTool(call: Call, thinking: string)
    | PlainReply(text: string, thinking: string)
    | TransportFailed(error: string)

  datatype Classified = Classified(decision: Decision, posts: nat)

  const MAX_EMPTY_RETRIES: nat := 2

  function Decide(r: Reply): Decision {
    if !r.ok then TransportFailed(if r.error == "" then "provider request failed" else r.error)
    else if r.calls != [] then LlmTool(r.calls[0], r.thinking)
    else PlainReply(
      if r.text == "" then "(no reply text - the model returned an empty response, try rephrasing)" else r.text,
      r.thinking)
  }

  predicate IsEmptyReply(r: Reply) { r.ok && r.text == "" && r.calls == [] }

  function ClassifyFrom(w: World, posts: nat, attempt: nat): Classified
    requires attempt <= MAX_EMPTY_RETRIES
    decreases MAX_EMPTY_RETRIES - attempt
  {
    var r := w.post(posts);
    if IsEmptyReply(r) && attempt < MAX_EMPTY_RETRIES then ClassifyFrom(w, posts + 1, attempt + 1)
    else Classified(Decide(r), posts + 1)
  }

  function Classify(w: World, posts: nat): Classified {
    match w.requestProblem
    case Some(problem) => Classified(TransportFailed(problem), posts)
    case None => ClassifyFrom(w, posts, 0)
  }

  function Succeeded(resultJson: string): bool {
    BoolField(resultJson, "ok", 0) == Some(true)
  }

  function GenericSentence(resultJson: string): string {
    var error := StringField(resultJson, "error", 0);
    if Succeeded(resultJson) then "Done."
    else if error == "" then "That didn't work."
    else "That didn't work: " + error
  }

  datatype Phrased = Phrased(text: string, posts: nat)

  function Phrase(w: World, posts: nat, call: Call, resultJson: string): Phrased {
    var templated := w.template(call, resultJson);
    if templated != "" then Phrased(templated, posts)
    else if w.requestProblem.Some? then Phrased(GenericSentence(resultJson), posts)
    else
      var r := w.post(posts);
      Phrased(if !r.ok || r.text == "" then GenericSentence(resultJson) else r.text, posts + 1)
  }

  // ---- executing or pausing -----------------------------------------------------------------

  datatype Outcome =
    | Ran(state: State, actions: seq<Action>, resultJson: string)
    | Stopped(state: State, response: Response)

  /** Only commands and application launches are checked, and may be rewritten, before they are
      proposed. */
  function Precheck(w: World, s: State, call: Call): Check {
    if IsChecked(call.name) then w.precheck(s.posts, call) else Proceed(call.arguments)
  }

  function ExecuteOrPause(w: World, s: State, session: string, call: Call, actions: seq<Action>,
                          thinking: string): Outcome {
    if IsGated(call.name) then
      match Precheck(w, s, call)
      case Refuse(failure) =>
        Ran(Record(w, s.(log := s.log + [Refused(call, failure)]), session, Tool, failure),
            actions + [Action(call.name, call.arguments, failure)], failure)
      case Proceed(arguments) =>
        var proposed := call.(arguments := arguments);
        Stopped(
          s.(pending := Awaiting(session, proposed, actions), log := s.log + [Paused(proposed)]),
          AwaitingApproval(session, proposed, actions, thinking))
    else
      var result := w.execute(|s.log|, call);
      Ran(Record(w, s.(log := s.log + [Executed(call, false)]), session, Tool, result),
          actions + [Action(call.name, call.arguments, result)], result)
  }

  function RetryNote(call: Call, resultJson: string): string {
    var reason := StringField(resultJson, "error", 0);
    "(" + call.name + " failed: " + (if reason == "" then "unknown error" else reason)
    + ". This is your one automatic retry - if you can fix the input, call the right tool now with a "
    + "corrected argument; otherwise just explain what went wrong.)"
  }

  /** Phrase the outcome, record it as the one assistant message, and answer. */
  function Conclude(w: World, s: State, session: string, call: Call, resultJson: string, actions: seq<Action>,
                    thinking: string): Turn {
    var phrased := Phrase(w, s.posts, call, resultJson);
    Turn(Record(w, s.(posts := phrased.posts), session, Assistant, phrased.text),
         Final(session, phrased.text, actions, thinking))
  }

  /** The one automatic retry chose this call. */
  function RunAgain(w: World, s: State, session: string, call: Call, actions: seq<Action>,
                    retryThinking: string, thinking: string): Turn
  {
    match ExecuteOrPause(w, s, session, call, actions, retryThinking)
    case Stopped(state, response) => Turn(state, response)
    case Ran(state, done, result) => Conclude(w, state, session, call, result, done, thinking)
  }

  function Finish(w: World, s: State, session: string, call: Call, resultJson: string, actions: seq<Action>,
                  allowRetry: bool, thinking: string): Turn
  {
    if allowRetry && !Succeeded(resultJson) && IsRetriable(call.name) then
      var noted := Record(w, s, session, System, RetryNote(call, resultJson));
      var c := Classify(w, noted.posts);
      var asked := noted.(posts := c.posts);
      if c.decision.LlmTool? then RunAgain(w, asked, session, c.decision.call, actions, c.decision.thinking, thinking)
      else Conclude(w, asked, session, call, resultJson, actions, thinking)
    else Conclude(w, s, session, call, resultJson, actions, thinking)
  }

  // ---- the host calls -----------------------------------------------------------------------

  datatype TurnRequest = TurnRequest(message: string, clear: bool, session: string)

  datatype DecisionRequest = DecisionRequest(approved: bool, reason: string, session: string)

  /** `freshId` is what `generate_session_id` returns when it is called. */
  function SwitchSession(w: World, s: State, r: TurnRequest, freshId: string): State {
    if r.clear then s.(transcript := [], current := freshId)
    else if r.session != "" && r.session != s.current then
      s.(transcript := Messages(LoadSession(w, s.rows, r.session)), current := r.session)
    else s
  }

  const ABANDONED_NOTE := "(A previously pending tool call in this session was abandoned - the user sent a new "
    + "message instead of approving or declining it. If it's still relevant, call the tool again.)"

  predicate Abandons(s: State) { s.pending.Awaiting? && s.pending.session == s.current }

  function AbandonPending(w: World, s: State): State {
    if Abandons(s) then
      Record(w, s.(pending := NoPending, log := s.log + [Abandoned(s.pending.call)]), s.current, System, ABANDONED_NOTE)
    else s
  }

  function SeedPrompt(w: World, s: State): State {
    if s.transcript == [] && w.systemPrompt != "" then Record(w, s, s.current, System, w.systemPrompt) else s
  }

  /** The state in which the turn is classified: the user's message recorded last. */
  function Opened(w: World, s: State, message: string): State {
    Record(w, SeedPrompt(w, s), s.current, User, message)
  }

  function Act(w: World, s: State, session: string, call: Call, thinking: string): Turn {
    match ExecuteOrPause(w, s, session, call, [], thinking)
    case Stopped(state, response) => Turn(state, response)
    case Ran(state, actions, result) => Finish(w, state, session, call, result, actions, true, thinking)
  }

  function Answer(w: World, s: State, session: string, decision: Decision): Turn {
    match decision
    case TransportFailed(error) => Turn(s, Error(error, Some(session)))
    case PlainReply(text, thinking) => Turn(Record(w, s, session, Assistant, text), Final(session, text, [], thinking))
    case LlmTool(call, thinking) => Act(w, s, session, call, thinking)
  }

  function AgentTurn(w: World, s: State, r: TurnRequest, freshId: string): Turn {
    var switched := SwitchSession(w, s, r, freshId);
    if r.message == "" then Turn(switched, Error("missing message", None))
    else
      var clean := AbandonPending(w, switched);
      if !w.enableAi then Turn(clean, Error("AI is disabled (--no-ai)", None))
      else
        var session := clean.current;
        var ready := Opened(w, clean, r.message);
        var c := Classify(w, ready.posts);
        var asked := ready.(posts := c.posts);
        Answer(w, asked, session, c.decision)
  }

  /** No call is waiting, or the request names another session than the waiting call's. */
  predicate Mismatched(s: State, r: DecisionRequest) {
    s.pending.NoPending? || (r.session != "" && r.session != s.pending.session)
  }

  function DeclinedJson(reason: string): string {
    "{" + JsonBoolField("ok", false) + ","
    + JsonStringField("error", if reason == "" then "user declined this action" else "user declined: " + reason) + "}"
  }

  /** The waiting call is taken, executed or declined, and its result recorded. */
  function Decided(w: World, s: State, r: DecisionRequest, result: string): State
    requires s.pending.Awaiting?
  {
    var decided := if r.approved then Executed(s.pending.call, true) else Declined(s.pending.call, r.reason);
    Record(w, s.(pending := NoPending, log := s.log + [decided]), s.pending.session, Tool, result)
  }

  function ToolDecision(w: World, s: State, r: DecisionRequest): Turn {
    if Mismatched(s, r) then Turn(s, Error("no tool call is awaiting a decision", None))
    else
      var session, call := s.pending.session, s.pending.call;
      var result := if r.approved then w.execute(|s.log|, call) else DeclinedJson(r.reason);
      Finish(w, Decided(w, s, r, result), session, call, result,
        s.pending.actions + [Action(call.name, call.arguments, result)], r.approved, "")
  }

  function DeleteSession(w: World, s: State, session: string, freshId: string): State {
    var target := if session == "" then s.current else session;
    var deleted := s.(rows := if w.storeOpen then WithoutSession(s.rows, target) else s.rows);
    if target == s.current then deleted.(transcript := [], current := freshId) else deleted
  }

  // ---- what a call answers with -------------------------------------------------------------

  /** How a pending call and its earlier actions are shown, and whether it is flagged. */
  datatype Display = Display(arguments: (string, string) -> string, destructive: Call -> bool)

  function ShownAction(d: Display, a: Action): Action { a.(arguments := d.arguments(a.tool, a.arguments)) }

  function Shown(d: Display, actions: seq<Action>): (r: seq<Action>)
    ensures |r| == |actions|
    ensures forall i | 0 <= i < |actions| :: r[i] == ShownAction(d, actions[i])
  {
    seq(|actions|, i requires 0 <= i < |actions| => ShownAction(d, actions[i]))
  }

  /** The document the host prints. */
  function Document(d: Display, r: Response): seq<Member> {
    match r
    case Error(error, session) => ErrorMembers(error, session)
    case Final(session, text, actions, thinking) => FinalMembers(session, text, actions, thinking)
    case AwaitingApproval(session, call, actions, thinking) =>
      PausedMembers(session, call.(arguments := d.arguments(call.name, call.arguments)), d.destructive(call),
        Shown(d, actions), thinking)
  }

  // ---- runs ---------------------------------------------------------------------------------

  datatype Step =
    | Say(message: TurnRequest, freshId: string)
    | Judge(decision: DecisionRequest)
    | Forget(session: string, newId: string)

  function Next(w: World, s: State, step: Step): State {
    match step
    case Say(r, freshId) => AgentTurn(w, s, r, freshId).state
    case Judge(r) => ToolDecision(w, s, r).state
    case Forget(session, freshId) => DeleteSession(w, s, session, freshId)
  }

  /** Each call meets its own world: configuration and oracles may change between calls. */
  function Run(s: State, steps: seq<(World, Step)>): State {
    if steps == [] then s
    else
      var before := Run(s, steps[..|steps| - 1]);
      Next(steps[|steps| - 1].0, before, steps[|steps| - 1].1)
  }
}
