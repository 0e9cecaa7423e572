/** The texts the program shows and the values it takes from texts, word by word: the lines of a
    turn, the parts of a completion, the fields of a task and the verdict on a task's run. */
module PrintedOutcomes {
  import opened Text
  import opened JsonCodec
  import opened JsonTokens
  import opened JsonDocument
  import opened BraceWalker
  import AgentResponse
  import ChatCompletions
  import Tasks
  import TaskJson
  import TaskTick
  import ApprovalPaths
  import CutObjects

  // ---- the lines of a turn ------------------------------------------------------------------

  function Entry(role: string, text: string): AgentResponse.ChatEntry { AgentResponse.ChatEntry(role, text) }

  /** What the model thought, if anything, and then one line. */
  function Lines(thinking: string, line: AgentResponse.ChatEntry): seq<AgentResponse.ChatEntry> {
    if thinking == "" then [line] else [Entry("thinking", thinking), line]
  }

  /** A reply without tool calls is one line of the assistant's. */
  lemma ReplyIsShown(session: string, reply: string, thinking: string)
    ensures AgentResponse.Parsed(Print(JObj(AgentResponse.FinalMembers(session, reply, [], thinking)))).entries
      == Lines(thinking, Entry("assistant", if reply == "" then "(no reply)" else reply))
  {
    hide Print, ObjectArray, AgentResponse.FinalMembers, AgentResponse.Parsed;
    AgentResponse.FinalReadBack(session, reply, [], thinking);
    NothingIsBalanced();
    assert AgentResponse.ActionLines([]) == [];
  }

  lemma NothingIsBalanced()
    ensures AgentResponse.ActionsBalanced([])
  {
    assert PrintAll([]) == [];
    assert AgentResponse.ActionObjects([]) == [];
  }

  /** A waiting call is one line that asks for approval, with a mark in front of a destructive one. */
  lemma ProposalIsShown(session: string, call: AgentResponse.Call, destructive: bool, thinking: string)
    ensures AgentResponse.Parsed(
        Print(JObj(AgentResponse.PausedMembers(session, call, destructive, [], thinking)))).entries
      == Lines(thinking, Entry("info", (if destructive then "[!! DESTRUCTIVE !!] " else "") + "[AGENT WANTS TO] "
        + call.name + "(" + call.arguments + ") - approve? (yes/no, or say why not)"))
  {
    hide Print, ObjectArray, AgentResponse.PausedMembers, AgentResponse.Parsed;
    AgentResponse.PausedReadBack(session, call, destructive, [], thinking);
    NothingIsBalanced();
    assert AgentResponse.ActionLines([]) == [];
  }

  /** One executed call is the line before the reply: what was called, and what came of it. */
  lemma ExecutedCallIsShown(session: string, reply: string, a: AgentResponse.Action)
    requires reply != "" && AgentResponse.ActionsBalanced([a])
    ensures AgentResponse.Parsed(Print(JObj(AgentResponse.FinalMembers(session, reply, [a], "")))).entries
      == [Entry("tool", "called " + a.tool + "(" + a.arguments + ")"
                + (if a.result == "" then "" else " -> " + a.result)),
          Entry("assistant", reply)]
  {
    hide Print, ObjectArray, AgentResponse.FinalMembers, AgentResponse.Parsed, AgentResponse.ActionsBalanced;
    AgentResponse.FinalReadBack(session, reply, [a], "");
    assert AgentResponse.ActionLines([a]) == [AgentResponse.ActionLine(a)];
  }

  // ---- the parts of a completion ------------------------------------------------------------

  /** Calls are kept in order, those without a name left out. */
  lemma NamedCallsAreKept(a: seq<ChatCompletions.ToolCall>, c: ChatCompletions.ToolCall)
    ensures ChatCompletions.Named([]) == []
    ensures ChatCompletions.Named(a + [c])
      == if c.name == "" then ChatCompletions.Named(a) else ChatCompletions.Named(a) + [c]
  {
    assert (a + [c])[..|a|] == a;
  }

  /** The reasoning of a choice, under either of its two names, and the counts of a whole completion;
      one that says nothing and calls nothing is reported. */
  lemma CompletionIsReadWhole(v: Json, choices: seq<Json>, calls: seq<ChatCompletions.ToolCall>, kind: string)
    requires ChatCompletions.Offers(v, choices) && ChatCompletions.Carries(choices[0], calls, kind)
    requires AllBalanced(PrintAll(choices)) && AllBalanced(PrintAll(ChatCompletions.CallObjects(calls, kind)))
    ensures var r := ChatCompletions.Read(Print(v));
      && r.Answered?
      && r.choice.thinking == (if StringOf(FirstMember(choices[0], "reasoning_content")) != ""
        then StringOf(FirstMember(choices[0], "reasoning_content"))
        else StringOf(FirstMember(choices[0], "reasoning")))
      && r.promptTokens == NumberOr0(FirstMember(v, "prompt_tokens"))
      && r.completionTokens == NumberOr0(FirstMember(v, "completion_tokens"))
      && r.error == (if r.choice.assistant == "" && ChatCompletions.Named(calls) == []
        then "The LLM provider's response contained no assistant text or tool calls." else "")
  {
    hide ObjectArray, AllBalanced, Print, StringField, IntField, FirstMember, Proper, ChatCompletions.CallsIn;
    hide ChatCompletions.CallObjects, ChatCompletions.Named, ChatCompletions.Reasoning, ChatCompletions.Count;
    hide ChatCompletions.Carries, NumberOr0;
    ChatCompletions.ReplyKeys();
    hide IsKey;
    ChatCompletions.CompletionReadsBack(v, choices, calls, kind);
    ArraySplitsExactly(v, "choices");
    CutObjects.FirstIsProper(v, "choices");
    CutObjects.ItemIsProper(choices, 0);
    CountIsRead(v, "prompt_tokens");
    CountIsRead(v, "completion_tokens");
    ReasoningIsRead(choices[0]);
  }

  lemma CountIsRead(v: Json, key: string)
    requires Proper(v) && IsKey(key)
    ensures !IntField(Print(v), key, 0).OutOfRange?
    ensures ChatCompletions.Count(IntField(Print(v), key, 0)) == NumberOr0(FirstMember(v, key))
  {
    hide Print, IntField, StringField, BoolField, FirstMember, IsKey;
    ReadBack(v, key);
    if FirstMember(v, key).Some? {
      CutObjects.FirstIsProper(v, key);
    }
  }

  lemma ReasoningIsRead(choice: Json)
    requires Proper(choice)
    ensures ChatCompletions.Reasoning(Print(choice))
      == if StringOf(FirstMember(choice, "reasoning_content")) != ""
         then StringOf(FirstMember(choice, "reasoning_content")) else StringOf(FirstMember(choice, "reasoning"))
  {
    hide Print, IntField, StringField, BoolField, FirstMember, Proper;
    ChatCompletions.ReplyKeys();
    ReadBack(choice, "reasoning_content");
    ReadBack(choice, "reasoning");
  }

  function NumberOr0(v: Option<Json>): int {
    match v
    case Some(JInt(n)) => n
    case _ => 0
  }

  /** A body without choices has its model and its counts read all the same. */
  lemma EmptyCompletionIsRead(model: string, prompt: int, completion: int)
    requires IsInt64(prompt) && IsInt64(completion)
    ensures ChatCompletions.Read(Print(JObj([Member("model", JStr(model)), Member("prompt_tokens", JInt(prompt)),
        Member("completion_tokens", JInt(completion))])))
      == ChatCompletions.Answered(model, ChatCompletions.Choice("", "", "", []), prompt, completion,
        "The LLM provider's response contained no assistant text or tool calls.")
  {
    hide StringField, IntField, Print, FirstInMembers, Find;
    var a, b, c := Member("model", JStr(model)), Member("prompt_tokens", JInt(prompt)),
      Member("completion_tokens", JInt(completion));
    ChatCompletions.ReplyKeys();
    CountsField(a, b, c, "model");
    CountsField(a, b, c, "prompt_tokens");
    CountsField(a, b, c, "completion_tokens");
    CountsField(a, b, c, "choices");
  }

  lemma CountsField(a: Member, b: Member, c: Member, key: string)
    requires a.name == "model" && b.name == "prompt_tokens" && c.name == "completion_tokens" && IsKey(key)
    requires a.value.JStr? && b.value.JInt? && c.value.JInt? && IsInt64(b.value.n) && IsInt64(c.value.n)
    ensures var text := Print(JObj([a, b, c]));
      && (key == "model" ==> StringField(text, key, 0) == a.value.text)
      && (key == "prompt_tokens" ==> IntField(text, key, 0) == Int(b.value.n))
      && (key == "completion_tokens" ==> IntField(text, key, 0) == Int(c.value.n))
      && (key == "choices" ==> Find(text, Needle(key), 0).None?)
  {
    hide StringField, IntField, Print, FirstInMembers, Find;
    ChatCompletions.ReplyKeys();
    var v := JObj([a, b, c]);
    assert Proper(v) by { hide IsKey; }
    FirstInThree(a, b, c, key);
    FirstInOne(a, key);
    FirstInOne(b, key);
    FirstInOne(c, key);
    ReadBack(v, key);
    KeyIsFound(v, key);
  }

  // ---- the fields of a task -----------------------------------------------------------------

  /** The twelve fields of a printed task under their names. */
  lemma PrintedTaskFields(t: Tasks.Task)
    requires TaskJson.Fits64(t)
    ensures var text := Print(TaskJson.TaskObject(t));
      && StringField(text, "id", 0) == t.id && StringField(text, "connector_id", 0) == t.connectorId
      && StringField(text, "command", 0) == t.command && StringField(text, "payload_json", 0) == t.payloadJson
      && IntField(text, "created_at_ms", 0) == Int(t.createdAt)
        && IntField(text, "updated_at_ms", 0) == Int(t.updatedAt)
  {
    hide StringField, IntField, Print, TaskJson.TaskObject;
    TaskJson.TaskFieldReadsBack(t, 0);
    TaskJson.TaskFieldReadsBack(t, 1);
    TaskJson.TaskFieldReadsBack(t, 2);
    TaskJson.TaskFieldReadsBack(t, 3);
    TaskJson.TaskFieldReadsBack(t, 5);
    TaskJson.TaskFieldReadsBack(t, 6);
  }

  lemma MorePrintedTaskFields(t: Tasks.Task)
    requires TaskJson.Fits64(t)
    ensures var text := Print(TaskJson.TaskObject(t));
      && IntField(text, "scheduled_for_ms", 0) == Int(t.scheduledFor)
      && IntField(text, "recurrence_ms", 0) == Int(t.recurrence) && IntField(text, "run_count", 0) == Int(t.runCount)
      && StringField(text, "error_message", 0) == t.errorMessage
      && StringField(text, "result_json", 0) == t.resultJson
      && StringField(text, "status", 0) == match t.status
           case Pending => "pending" case Running => "running" case Done => "done" case Failed => "failed"
           case Cancelled => "cancelled"
  {
    hide StringField, IntField, Print, TaskJson.TaskObject;
    TaskJson.TaskFieldReadsBack(t, 4);
    TaskJson.TaskFieldReadsBack(t, 7);
    TaskJson.TaskFieldReadsBack(t, 8);
    TaskJson.TaskFieldReadsBack(t, 9);
    TaskJson.TaskFieldReadsBack(t, 10);
    TaskJson.TaskFieldReadsBack(t, 11);
  }

  /** A number beyond 64 bits, in either field, stops the parser of a request that has a command, and
      in either count that of a completion. */
  lemma LargeNumbersThrow(json: string, now: int)
    ensures TaskTick.ParseTaskRequest(json, now) == TaskTick.Thrown
      <==> StringField(json, "command", 0) != ""
           && OutOfRange in {IntField(json, "delay_ms", 0), IntField(json, "recurrence_ms", 0)}
    ensures TaskTick.ParseTaskRequest(json, now) == TaskTick.Rejected("Task requires a command.")
      <==> StringField(json, "command", 0) == ""
    ensures ChatCompletions.Read(json) == ChatCompletions.Thrown
      <==> OutOfRange in {IntField(json, "prompt_tokens", 0), IntField(json, "completion_tokens", 0)}
  {
    hide StringField, IntField, ObjectArray, ChatCompletions.ChoiceIn;
  }

  // ---- the verdict on a task's run ----------------------------------------------------------

  /** A call to a connector fails exactly when `"ok":false` occurs in what came back, and the answer is
      then the error; a task that names no connector and is no run always fails. */
  lemma CallIsJudgedByItsText(t: Tasks.Task, r: TaskTick.Results)
    requires t.command != "run"
    ensures t.connectorId == "" ==>
      TaskTick.Judge(t, r) == TaskTick.FailedRun("task has no connector_id and command is not launch/stop")
    ensures t.connectorId != "" && t.command != "launch" && t.command != "stop" ==>
      TaskTick.Judge(t, r) ==
        if exists i :: Occurs(r.call, "\"ok\":false", i) then TaskTick.FailedRun(r.call) else TaskTick.Completed("")
  {
    hide Contains;
    OccursSomewhere(r.call, "\"ok\":false");
  }

  lemma OccursSomewhere(s: string, word: string)
    ensures Contains(s, word) <==> exists i :: Occurs(s, word, i)
  {
    if Contains(s, word) {
      FindFound(s, word, 0);
    }
    if i :| Occurs(s, word, i) {
      ApprovalPaths.OccursIsFound(s, word, i);
    }
  }

  /** What launching and stopping print, as the readers find it. */
  lemma LaunchIsReported(ok: bool, error: string)
    ensures var launched := Print(JObj(TaskTick.LaunchMembers(TaskTick.Attempted(ok, error))));
      BoolField(launched, "ok", 0) == Some(ok) && StringField(launched, "error", 0) == error
    ensures var stopped := Print(JObj(TaskTick.StopMembers(ok, error)));
      BoolField(stopped, "ok", 0) == Some(ok) && StringField(stopped, "error", 0) == error
    ensures var unknown := Print(JObj(TaskTick.LaunchMembers(TaskTick.UnknownConnector)));
      BoolField(unknown, "success", 0) == Some(false) && StringField(unknown, "error", 0) == "unknown connector"
    ensures var wrong := Print(JObj(TaskTick.LaunchMembers(TaskTick.NotAProcess)));
      && BoolField(wrong, "success", 0) == Some(false)
      && StringField(wrong, "error", 0) == "connector is not a launched_process"
  {
    hide Print, StringField, BoolField, IntField;
    TaskTick.ResultKeys();
    TwoFields(Member("ok", JBool(ok)), Member("error", JStr(error)));
    TwoFields(Member("success", JBool(false)), Member("error", JStr("unknown connector")));
    TwoFields(Member("success", JBool(false)), Member("error", JStr("connector is not a launched_process")));
  }

  lemma TwoFields(a: Member, b: Member)
    requires a.name != b.name && a.value.JBool? && b.value.JStr? && IsKey(a.name) && IsKey(b.name)
    ensures BoolField(Print(JObj([a, b])), a.name, 0) == Some(a.value.flag)
    ensures StringField(Print(JObj([a, b])), b.name, 0) == b.value.text
  {
    hide Print, StringField, BoolField, IntField, FirstInMembers, IsKey;
    assert Proper(JObj([a, b]));
    ReadBack(JObj([a, b]), a.name);
    ReadBack(JObj([a, b]), b.name);
    FirstInBoth([a], [b], a.name);
    FirstInBoth([a], [b], b.name);
    FirstInOne(a, a.name);
    FirstInOne(a, b.name);
    FirstInOne(b, b.name);
    assert [a] + [b] == [a, b];
  }

  /** A run is completed with its printed result, or failed with it. */
  lemma RunKeepsItsResult(t: Tasks.Task, r: TaskTick.Results)
    requires t.command == "run"
    ensures TaskTick.Judge(t, r) ==
      if exists i :: Occurs(r.run, "\"launched\":true", i) then TaskTick.Completed(r.run) else TaskTick.FailedRun(r.run)
  {
    hide Contains;
    OccursSomewhere(r.run, "\"launched\":true");
  }
}
