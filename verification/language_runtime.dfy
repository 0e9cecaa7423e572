/** The single-conversation state machine of `src/ai/language_runtime.cpp`. */
module LanguageAi {
  import opened ChatRoles

  /** What the transport brought back, parsed. */
  datatype Response = Response(transportOk: bool, httpSuccess: bool, assistantMessage: string, errorMessage: string)

  datatype State = State(
    runtimeEnabled: bool,
    providerEnabled: bool,
    transcript: seq<ChatMessage>,
    lastUserMessage: string,
    lastAssistantMessage: string,
    awaiting: bool,
    status: string)

  predicate HasSystem(ts: seq<ChatMessage>) { ts != [] && ts[0].role.System? }

  function Prompted(ts: seq<ChatMessage>, prompt: string): seq<ChatMessage> {
    if prompt == "" then if HasSystem(ts) then ts[1..] else ts
    else if HasSystem(ts) then ts[0 := ChatMessage(System, prompt)]
    else [ChatMessage(System, prompt)] + ts
  }

  predicate CanSubmit(s: State, message: string) {
    s.runtimeEnabled && s.providerEnabled && message != "" && !s.awaiting
  }

  function Submitted(s: State, message: string): State {
    if CanSubmit(s, message) then
      s.(transcript := s.transcript + [ChatMessage(User, message)], lastUserMessage := message, awaiting := true,
         status := "User message queued for Ollama.")
    else s.(status :=
      if !s.runtimeEnabled then "Language AI runtime is disabled."
      else if !s.providerEnabled then "Ollama integration is disabled."
      else if message == "" then "User message is empty."
      else "Waiting for the previous Ollama response.")
  }

  predicate CanApply(s: State, r: Response) {
    s.awaiting && r.transportOk && r.httpSuccess && r.assistantMessage != ""
  }

  function Applied(s: State, r: Response): State {
    if CanApply(s, r) then
      s.(transcript := s.transcript + [ChatMessage(Assistant, r.assistantMessage)],
        lastAssistantMessage := r.assistantMessage,
         awaiting := false, status := "Ollama response applied.")
    else s.(status :=
      if !s.awaiting then "No pending Ollama request."
      else if r.errorMessage != "" then r.errorMessage
      else if !r.transportOk || !r.httpSuccess then "Ollama request failed."
      else "Ollama returned an empty assistant message.")
  }

  class LanguageRuntime {
    var runtimeEnabled: bool
    var providerEnabled: bool
    var transcript: seq<ChatMessage>
    var lastUserMessage: string
    var lastAssistantMessage: string
    var awaitingResponse: bool
    var statusText: string

    function Current(): State
      reads this
    {
      State(runtimeEnabled, providerEnabled, transcript, lastUserMessage, lastAssistantMessage, awaitingResponse,
        statusText)
    }

    constructor ()
      ensures Current() == Idle()
    {
      runtimeEnabled, providerEnabled := true, true;
      transcript, lastUserMessage, lastAssistantMessage := [], "", "";
      awaitingResponse, statusText := false, "Language AI runtime idle.";
    }

    method ClearTranscript()
      modifies this
      ensures Current() == Step(old(Current()), Clear)
    {
      transcript := [];
      lastUserMessage, lastAssistantMessage := "", "";
      awaitingResponse := false;
      statusText := "Language AI transcript cleared.";
    }

    method SetSystemPrompt(prompt: string)
      modifies this
      ensures Current() == Step(old(Current()), SetPrompt(prompt))
    {
      if prompt == "" {
        if transcript != [] && transcript[0].role == System {
          transcript := transcript[1..];
        }
        return;
      }
      if transcript == [] || transcript[0].role != System {
        transcript := [ChatMessage(System, prompt)] + transcript;
        return;
      }
      transcript := transcript[0 := transcript[0].(content := prompt)];
    }

    method SubmitUserMessage(message: string) returns (accepted: bool)
      modifies this
      ensures Current() == Step(old(Current()), Submit(message)) && accepted == CanSubmit(old(Current()), message)
    {
      if !runtimeEnabled { statusText := "Language AI runtime is disabled."; return false; }
      if !providerEnabled { statusText := "Ollama integration is disabled."; return false; }
      if message == "" { statusText := "User message is empty."; return false; }
      if awaitingResponse { statusText := "Waiting for the previous Ollama response."; return false; }
      transcript := transcript + [ChatMessage(User, message)];
      lastUserMessage := message;
      awaitingResponse := true;
      statusText := "User message queued for Ollama.";
      return true;
    }

    method ApplyChatResponse(response: Response) returns (applied: bool)
      modifies this
      ensures Current() == Step(old(Current()), Apply(response)) && applied == CanApply(old(Current()), response)
    {
      if !awaitingResponse { statusText := "No pending Ollama request."; return false; }
      if !response.transportOk || !response.httpSuccess {
        statusText := if response.errorMessage == "" then "Ollama request failed." else response.errorMessage;
        return false;
      }
      if response.assistantMessage == "" {
        statusText := if response.errorMessage == "" then "Ollama returned an empty assistant message."
          else response.errorMessage;
        return false;
      }
      transcript := transcript + [ChatMessage(Assistant, response.assistantMessage)];
      lastAssistantMessage := response.assistantMessage;
      awaitingResponse := false;
      statusText := "Ollama response applied.";
      return true;
    }
  }

  // ---- every reachable state --------------------------------------------------------------

  datatype Op =
    | Clear
    | SetPrompt(prompt: string)
    | Submit(message: string)
    | Apply(response: Response)
    | Configure(runtimeEnabled: bool, providerEnabled: bool)

  function Idle(): State {
    State(true, true, [], "", "", false, "Language AI runtime idle.")
  }

  function Step(s: State, op: Op): State {
    match op
    case Clear => s.(transcript := [], lastUserMessage := "", lastAssistantMessage := "", awaiting := false,
                     status := "Language AI transcript cleared.")
    case SetPrompt(prompt) => s.(transcript := Prompted(s.transcript, prompt))
    case Submit(message) => Submitted(s, message)
    case Apply(response) => Applied(s, response)
    case Configure(runtime, provider) => s.(runtimeEnabled := runtime, providerEnabled := provider)
  }

  function Run(s: State, ops: seq<Op>): State
    decreases |ops|
  {
    if ops == [] then s else Run(Step(s, ops[0]), ops[1..])
  }

  /** The conversation without the system prompt. */
  function Dialogue(ts: seq<ChatMessage>): seq<ChatMessage> {
    if HasSystem(ts) then ts[1..] else ts
  }

  /** User and assistant in turn, beginning with the user. */
  predicate Alternates(ms: seq<ChatMessage>) {
    forall i | 0 <= i < |ms| :: ms[i].role == if i % 2 == 0 then User else Assistant
  }

  function LastOf(ms: seq<ChatMessage>, role: Role): string {
    if ms == [] then ""
    else if ms[|ms| - 1].role == role then ms[|ms| - 1].content
    else LastOf(ms[..|ms| - 1], role)
  }

  predicate Orderly(s: State) {
    var ms := Dialogue(s.transcript);
    && Alternates(ms)
    && (s.awaiting <==> |ms| % 2 == 1)
    && s.lastUserMessage == LastOf(ms, User)
    && s.lastAssistantMessage == LastOf(ms, Assistant)
  }

  lemma DialogueGrows(ts: seq<ChatMessage>, m: ChatMessage)
    requires !m.role.System?
    ensures Dialogue(ts + [m]) == Dialogue(ts) + [m]
  {
    if HasSystem(ts) {
      assert (ts + [m])[1..] == ts[1..] + [m];
    }
  }

  lemma LastGrows(ms: seq<ChatMessage>, m: ChatMessage, role: Role)
    ensures LastOf(ms + [m], role) == if m.role == role then m.content else LastOf(ms, role)
  {
    assert (ms + [m])[..|ms|] == ms;
  }

  lemma PromptKeepsDialogue(ts: seq<ChatMessage>, prompt: string)
    requires Alternates(Dialogue(ts))
    ensures Dialogue(Prompted(ts, prompt)) == Dialogue(ts)
  {
    if prompt == "" {
      if HasSystem(ts) && ts[1..] != [] {
        assert ts[1..][0].role == User;
      }
    } else if HasSystem(ts) {
      assert Prompted(ts, prompt)[1..] == ts[1..];
    } else {
      assert Prompted(ts, prompt)[1..] == ts;
    }
  }

  lemma StepStaysOrderly(s: State, op: Op)
    requires Orderly(s)
    ensures Orderly(Step(s, op))
  {
    hide LastOf, Dialogue;
    match op
    case Clear => NothingSaid();
    case SetPrompt(prompt) => PromptKeepsDialogue(s.transcript, prompt);
    case Submit(message) =>
      if !s.awaiting { SayingStaysOrderly(s, ChatMessage(User, message)); }
    case Apply(response) =>
      if s.awaiting { SayingStaysOrderly(s, ChatMessage(Assistant, response.assistantMessage)); }
    case Configure(_, _) =>
  }

  lemma NothingSaid()
    ensures Dialogue([]) == [] && LastOf([], User) == "" && LastOf([], Assistant) == ""
  {
  }

  lemma SayingStaysOrderly(s: State, m: ChatMessage)
    requires Orderly(s) && m.role == if s.awaiting then Assistant else User
    ensures var ms := Dialogue(s.transcript + [m]);
      && Alternates(ms) && (s.awaiting <==> |ms| % 2 == 0)
      && LastOf(ms, User) == (if s.awaiting then s.lastUserMessage else m.content)
      && LastOf(ms, Assistant) == if s.awaiting then m.content else s.lastAssistantMessage
  {
    hide LastOf;
    DialogueGrows(s.transcript, m);
    LastGrows(Dialogue(s.transcript), m, User);
    LastGrows(Dialogue(s.transcript), m, Assistant);
  }

  /** In every reachable state the transcript is an optional system prompt, then user and
      assistant in turn, with a user message last exactly when a response is awaited, and the
      two last-message fields name the last message of each side. */
  lemma {:induction false} EveryStateIsOrderly(s: State, ops: seq<Op>)
    requires Orderly(s)
    ensures Orderly(Run(s, ops)) && Orderly(Idle())
    decreases |ops|
  {
    NothingSaid();
    if ops != [] {
      StepStaysOrderly(s, ops[0]);
      EveryStateIsOrderly(Step(s, ops[0]), ops[1..]);
    }
  }

  /** A response changes the conversation exactly when one is awaited and it carries a text;
      a failed one leaves transcript and flag as they were, so it can be retried. */
  lemma FailedResponseChangesNothing(s: State, r: Response)
    ensures Applied(s, r).(status := s.status) == s <==> !CanApply(s, r)
    ensures !CanApply(s, r) && s.awaiting ==> forall again: Response | CanApply(s, again) ::
      Applied(Applied(s, r), again) == Applied(s, again)
  {
    if CanApply(s, r) {
      assert |Applied(s, r).transcript| == |s.transcript| + 1;
    }
  }

  // ---- what each operation does -------------------------------------------------------------

  /** A message is queued exactly when both switches are on, it is not empty and no response is
      awaited; otherwise only the status changes, and says the first reason. */
  lemma MessageIsQueued(s: State, message: string)
    ensures s.runtimeEnabled && s.providerEnabled && message != "" && !s.awaiting ==>
      Step(s, Submit(message))
      == s.(transcript := s.transcript + [ChatMessage(User, message)], lastUserMessage := message,
            awaiting := true, status := "User message queued for Ollama.")
    ensures !(s.runtimeEnabled && s.providerEnabled && message != "" && !s.awaiting) ==>
      Step(s, Submit(message)) == s.(status :=
        if !s.runtimeEnabled then "Language AI runtime is disabled."
        else if !s.providerEnabled then "Ollama integration is disabled."
        else if message == "" then "User message is empty." else "Waiting for the previous Ollama response.")
  {
  }

  /** A queued message and its response: both are in the transcript, in this order, and nothing is
      awaited; failed responses in between make no difference. */
  lemma {:induction false} RoundTrip(s: State, message: string, failures: seq<Response>, text: string, error: string)
    requires s.runtimeEnabled && s.providerEnabled && message != "" && !s.awaiting && text != ""
    requires forall i | 0 <= i < |failures| ::
      !failures[i].transportOk || !failures[i].httpSuccess || failures[i].assistantMessage == ""
    ensures var ops := [Submit(message)] + Responses(failures) + [Apply(Response(true, true, text, error))];
      var t := Run(s, ops);
      && t.transcript == s.transcript + [ChatMessage(User, message), ChatMessage(Assistant, text)]
      && t.lastUserMessage == message && t.lastAssistantMessage == text && !t.awaiting
      && t.status == "Ollama response applied."
  {
    hide Run, Responses;
    var last := Apply(Response(true, true, text, error));
    RunOne(s, Submit(message), Responses(failures) + [last]);
    assert [Submit(message)] + (Responses(failures) + [last]) == [Submit(message)] + Responses(failures) + [last];
    FailuresPass(Step(s, Submit(message)), failures, last);
    assert s.transcript + [ChatMessage(User, message)] + [ChatMessage(Assistant, text)]
      == s.transcript + [ChatMessage(User, message), ChatMessage(Assistant, text)];
  }

  function Responses(rs: seq<Response>): seq<Op> {
    if rs == [] then [] else [Apply(rs[0])] + Responses(rs[1..])
  }

  lemma RunOne(s: State, op: Op, rest: seq<Op>)
    ensures Run(s, [op] + rest) == Run(Step(s, op), rest)
  {
    assert ([op] + rest)[1..] == rest;
  }

  lemma {:induction false} FailuresPass(s: State, failures: seq<Response>, last: Op)
    requires last.Apply? && s.awaiting && CanApply(s, last.response)
    requires forall i | 0 <= i < |failures| ::
      !failures[i].transportOk || !failures[i].httpSuccess || failures[i].assistantMessage == ""
    ensures Run(s, Responses(failures) + [last]) == Step(s, last)
    decreases |failures|
  {
    hide Run;
    if failures == [] {
      assert Responses(failures) + [last] == [last] + [];
      RunOne(s, last, []);
      RunNone(Step(s, last));
    } else {
      var first := Apply(failures[0]);
      RunOne(s, first, Responses(failures[1..]) + [last]);
      assert Responses(failures) + [last] == [first] + (Responses(failures[1..]) + [last]);
      var t := Step(s, first);
      assert t == s.(status := t.status);
      FailuresPass(t, failures[1..], last);
    }
  }

  lemma RunNone(s: State)
    ensures Run(s, []) == s
  {
  }

  /** What a response that is not applied is reported as. */
  lemma FailureIsReported(s: State, r: Response)
    requires !s.awaiting || !r.transportOk || !r.httpSuccess || r.assistantMessage == ""
    ensures var t := Step(s, Apply(r));
      t.(status := s.status) == s && (t.status ==
        if !s.awaiting then "No pending Ollama request."
        else if r.errorMessage != "" then r.errorMessage
        else if r.transportOk && r.httpSuccess then "Ollama returned an empty assistant message."
        else "Ollama request failed.")
  {
  }

  /** Setting a prompt changes the first message at most: it is put there, replaced, or taken away. */
  lemma PromptIsSet(s: State, prompt: string)
    ensures var t := Step(s, SetPrompt(prompt));
      && t.(transcript := s.transcript) == s
      && (prompt != "" ==> |t.transcript| > 0 && t.transcript[0] == ChatMessage(System, prompt))
      && t.transcript[if prompt == "" then 0 else 1..]
        == s.transcript[if s.transcript != [] && s.transcript[0].role == System then 1 else 0..]
  {
  }

  /** The two switches are set as given; with either off no message is queued until it is on again. */
  lemma SwitchesDecide(s: State, runtime: bool, provider: bool, message: string)
    ensures var t := Step(s, Configure(runtime, provider));
      && t == State(runtime, provider, s.transcript, s.lastUserMessage, s.lastAssistantMessage, s.awaiting, s.status)
      && (!runtime || !provider ==> Step(t, Submit(message)).transcript == s.transcript)
      && (message != "" && !s.awaiting ==> Step(Step(t, Configure(true, true)), Submit(message)).awaiting)
  {
  }

  /** Clearing leaves an empty conversation in which nothing is awaited; the switches stay. */
  lemma ClearedIsEmpty(s: State)
    ensures Step(s, Clear)
      == State(s.runtimeEnabled, s.providerEnabled, [], "", "", false, "Language AI transcript cleared.")
  {
  }
}
