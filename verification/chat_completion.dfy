/** Reading a chat completion, as `src/ai/openai_compat_client.cpp` does: search, split, search
    again. The reply text and the calls come back whole when the braces of each choice balance. */
module ChatCompletions {
  import opened Text
  import opened JsonCodec
  import opened JsonTokens
  import opened JsonDocument
  import opened BraceWalker
  import opened CutObjects

  datatype ToolCall = ToolCall(id: string, name: string, arguments: string)

  datatype ChatResponse =
    | Unreachable
    | Refused(status: int, error: string)
    | Answered(model: string, choice: Choice, promptTokens: int, completionTokens: int, error: string)
    | Thrown

  // ---- what is read -------------------------------------------------------------------------

  function IndexOr0(s: string, needle: string): (i: nat)
    ensures i <= |s|
  {
    Find(s, needle, 0).GetOr(0)
  }

  /** One call: its id anywhere, its name and arguments from the function member on. */
  function CallIn(text: string): ToolCall {
    var from := IndexOr0(text, Needle("function"));
    ToolCall(StringField(text, "id", 0), StringField(text, "name", from), StringField(text, "arguments", from))
  }

  /** The calls that have a name. */
  function Named(calls: seq<ToolCall>): seq<ToolCall> {
    if calls == [] then []
    else Named(calls[..|calls| - 1]) + (if calls[|calls| - 1].name != "" then [calls[|calls| - 1]] else [])
  }

  function CallsIn(texts: seq<string>): (r: seq<ToolCall>)
    ensures |r| == |texts| && forall i | 0 <= i < |texts| :: r[i] == CallIn(texts[i])
  {
    seq(|texts|, i requires 0 <= i < |texts| => CallIn(texts[i]))
  }

  function Reasoning(choice: string): string {
    var value := StringField(choice, "reasoning_content", 0);
    if value != "" then value else StringField(choice, "reasoning", 0)
  }

  function Count(r: IntResult): int { if r.Int? then r.value else 0 }

  datatype Choice = Choice(assistant: string, doneReason: string, thinking: string, calls: seq<ToolCall>)

  function ChoiceIn(text: string): Choice {
    Choice(StringField(text, "content", 0), StringField(text, "finish_reason", 0), Reasoning(text),
           Named(CallsIn(ObjectArray(text, "tool_calls"))))
  }

  /** Only the first choice is ever read. */
  function FirstChoice(choices: seq<string>): Choice {
    if choices == [] then Choice("", "", "", []) else ChoiceIn(choices[0])
  }

  function Complaint(c: Choice): string {
    if c.assistant == "" && c.calls == [] then
      "The LLM provider's response contained no assistant text or tool calls."
    else ""
  }

  function Read(body: string): ChatResponse {
    var prompt, completion := IntField(body, "prompt_tokens", 0), IntField(body, "completion_tokens", 0);
    var c := FirstChoice(ObjectArray(body, "choices"));
    if prompt.OutOfRange? || completion.OutOfRange? then Thrown
    else Answered(StringField(body, "model", 0), c, Count(prompt), Count(completion), Complaint(c))
  }

  // ---- the loops ----------------------------------------------------------------------------

  method ReadCalls(choice: string) returns (calls: seq<ToolCall>)
    ensures calls == Named(CallsIn(ObjectArray(choice, "tool_calls")))
  {
    hide ObjectArray, CallIn;
    var texts := ExtractJsonObjectArray(choice, "tool_calls");
    calls := [];
    for i := 0 to |texts|
      invariant calls == Named(CallsIn(texts[..i]))
    {
      var call := CallIn(texts[i]);
      assert texts[..i + 1] == texts[..i] + [texts[i]];
      assert CallsIn(texts[..i + 1]) == CallsIn(texts[..i]) + [call];
      if call.name != "" {
        calls := calls + [call];
      }
    }
    assert texts[..|texts|] == texts;
  }

  method ReadChoice(text: string) returns (choice: Choice)
    ensures choice == ChoiceIn(text)
  {
    hide ObjectArray, CallIn, StringField;
    var assistant := ExtractJsonStringField(text, "content", 0);
    var doneReason := ExtractJsonStringField(text, "finish_reason", 0);
    var thinking := ExtractJsonStringField(text, "reasoning_content", 0);
    if thinking == "" {
      thinking := ExtractJsonStringField(text, "reasoning", 0);
    }
    var calls := ReadCalls(text);
    choice := Choice(assistant, doneReason, thinking, calls);
  }

  method ParseOpenaiChatResponse(status: int, body: string, transportOk: bool) returns (response: ChatResponse)
    ensures response == if !transportOk then Unreachable
      else if status < 200 || status >= 300 then
        Refused(status, if body == "" then "The LLM provider returned a non-success HTTP status." else body)
      else Read(body)
  {
    hide ObjectArray, ChoiceIn, StringField, IntField;
    if !transportOk {
      return Unreachable;
    }
    if status < 200 || status >= 300 {
      return Refused(status, if body == "" then "The LLM provider returned a non-success HTTP status." else body);
    }
    var model := ExtractJsonStringField(body, "model", 0);
    var choices := ExtractJsonObjectArray(body, "choices");
    var choice := Choice("", "", "", []);
    if choices != [] {
      choice := ReadChoice(choices[0]);
    }
    var prompt := ExtractJsonIntField(body, "prompt_tokens", 0);
    if prompt.OutOfRange? {
      return Thrown;
    }
    var completion := ExtractJsonIntField(body, "completion_tokens", 0);
    if completion.OutOfRange? {
      return Thrown;
    }
    response := Answered(model, choice, Count(prompt), Count(completion), Complaint(choice));
  }

  // ---- reading back what a provider prints --------------------------------------------------

  function FunctionMembers(c: ToolCall): seq<Member> {
    [Member("name", JStr(c.name)), Member("arguments", JStr(c.arguments))]
  }

  /** A tool call as the Chat Completions interface prints it. */
  function CallMembers(c: ToolCall, kind: string): seq<Member> {
    [Member("id", JStr(c.id)), Member("type", JStr(kind)), Member("function", JObj(FunctionMembers(c)))]
  }

  function CallObjects(calls: seq<ToolCall>, kind: string): (r: seq<Json>)
    ensures |r| == |calls| && forall i | 0 <= i < |calls| :: r[i] == JObj(CallMembers(calls[i], kind))
  {
    seq(|calls|, i requires 0 <= i < |calls| => JObj(CallMembers(calls[i], kind)))
  }

  lemma CallKeys()
    ensures IsKey("id") && IsKey("type") && IsKey("function") && IsKey("name") && IsKey("arguments")
  {
  }

  lemma ReplyKeys()
    ensures IsKey("choices") && IsKey("content") && IsKey("finish_reason") && IsKey("tool_calls") && IsKey("model")
    ensures IsKey("reasoning_content") && IsKey("reasoning") && IsKey("prompt_tokens") && IsKey("completion_tokens")
  {
  }

  lemma CallNamesDiffer()
    ensures "id" != "function" && "type" != "function" && "type" != "id"
    ensures "function" != "name" && "function" != "arguments" && "name" != "arguments"
  {
    assert "type"[0] == 't' && "function"[0] == 'f' && "name"[0] == 'n' && "arguments"[0] == 'a';
  }

  lemma FunctionIsProper(c: ToolCall)
    ensures Proper(JObj(FunctionMembers(c)))
  {
    CallKeys();
  }

  lemma CallIsProper(c: ToolCall, kind: string)
    ensures ProperMembers(CallMembers(c, kind))
  {
    hide FunctionMembers;
    CallKeys();
    FunctionIsProper(c);
    var f := JObj(FunctionMembers(c));
    assert Proper(f);
    assert Proper(JStr(c.id)) && Proper(JStr(kind));
  }

  /** The name and the arguments are read from the function member, whatever the id and the
      texts say. */
  lemma CallReadsBack(c: ToolCall, kind: string)
    ensures CallIn(Print(JObj(CallMembers(c, kind)))) == c
  {
    hide StringField, Print, PrintMembers, FirstInMembers, Find;
    var ms := CallMembers(c, kind);
    CallKeys();
    CallNamesDiffer();
    CallIsProper(c, kind);
    ReadBack(JObj(ms), "id");
    MemberAt(ms, 0);
    var p := TextFromMember(ms, 2);
    assert ms[2..] == [ms[2]];
    FunctionPart(c, ms[2], "name");
    FunctionPart(c, ms[2], "arguments");
    StringFieldFrom(Print(JObj(ms)), "name", p);
    StringFieldFrom(Print(JObj(ms)), "arguments", p);
  }

  lemma FunctionPart(c: ToolCall, m: Member, key: string)
    requires m == Member("function", JObj(FunctionMembers(c))) && (key == "name" || key == "arguments")
    ensures StringField(PrintMembers([m]) + "}", key, 0) == if key == "name" then c.name else c.arguments
  {
    hide StringField, PrintMembers;
    CallKeys();
    CallNamesDiffer();
    FunctionIsProper(c);
    assert Proper(m.value);
    ReadFromMember([m], key);
    FirstInOne(m, key);
    MemberAt(FunctionMembers(c), if key == "name" then 0 else 1);
  }

  lemma CallsReadBack(calls: seq<ToolCall>, kind: string)
    ensures CallsIn(PrintAll(CallObjects(calls, kind))) == calls
  {
    hide CallIn, CallMembers;
    forall i | 0 <= i < |calls| ensures CallsIn(PrintAll(CallObjects(calls, kind)))[i] == calls[i] {
      CallReadsBack(calls[i], kind);
    }
  }

  /** The document's choices are these objects. */
  predicate Offers(v: Json, choices: seq<Json>) {
    Proper(v) && FirstMember(v, "choices") == Some(JArr(choices)) && choices != []
    && forall i | 0 <= i < |choices| :: choices[i].JObj?
  }

  /** The first choice carries these calls, or no call list at all. */
  predicate Carries(choice: Json, calls: seq<ToolCall>, kind: string) {
    if calls == [] then FirstMember(choice, "tool_calls").None?
    else FirstMember(choice, "tool_calls") == Some(JArr(CallObjects(calls, kind)))
  }

  /** The choices are split exactly when their braces balance; then every text is read whole,
      and so is every named call when the calls' braces balance too. */
  lemma CompletionReadsBack(v: Json, choices: seq<Json>, calls: seq<ToolCall>, kind: string)
    requires Offers(v, choices) && Carries(choices[0], calls, kind)
    ensures ObjectArray(Print(v), "choices") == PrintAll(choices) <==> AllBalanced(PrintAll(choices))
    ensures AllBalanced(PrintAll(choices)) && AllBalanced(PrintAll(CallObjects(calls, kind))) ==>
      var r := Read(Print(v));
      && r.Answered?
      && r.model == StringOf(FirstMember(v, "model"))
      && r.choice.assistant == StringOf(FirstMember(choices[0], "content"))
      && r.choice.doneReason == StringOf(FirstMember(choices[0], "finish_reason"))
      && r.choice.calls == Named(calls)
  {
    hide ObjectArray, AllBalanced, Print, StringField, IntField, FirstMember, Proper, CallsIn, CallObjects, Named;
    ReplyKeys();
    ArraySplitsExactly(v, "choices");
    if AllBalanced(PrintAll(choices)) && AllBalanced(PrintAll(CallObjects(calls, kind))) {
      FirstIsProper(v, "choices");
      ItemIsProper(choices, 0);
      ReadBack(v, "model");
      ReadBack(v, "prompt_tokens");
      ReadBack(v, "completion_tokens");
      ReadBack(choices[0], "content");
      ReadBack(choices[0], "finish_reason");
      CarriedCallsAreRead(choices[0], calls, kind);
    }
  }

  lemma CarriedCallsAreRead(choice: Json, calls: seq<ToolCall>, kind: string)
    requires Proper(choice) && Carries(choice, calls, kind) && AllBalanced(PrintAll(CallObjects(calls, kind)))
    ensures Named(CallsIn(ObjectArray(Print(choice), "tool_calls"))) == Named(calls)
  {
    hide AllBalanced, Print, FirstMember, Proper, Named, Find, CallIn;
    ReplyKeys();
    if calls == [] {
      KeyIsFound(choice, "tool_calls");
      assert CallsIn([]) == [];
    } else {
      ArraySplitsExactly(choice, "tool_calls");
      CallsReadBack(calls, kind);
    }
  }

  lemma PairedItemsAreBalanced(items: seq<Json>)
    requires Proper(JArr(items)) && TextsPaired(JArr(items)) && forall i | 0 <= i < |items| :: items[i].JObj?
    ensures AllBalanced(PrintAll(items))
  {
    hide Balanced, Print;
    forall i | 0 <= i < |items| ensures Balanced(PrintAll(items)[i]) {
      PrintPaired(items[i]);
    }
  }

  /** A completion whose texts pair their braces is read whole. */
  lemma PairedCompletionIsWhole(v: Json, choices: seq<Json>, calls: seq<ToolCall>, kind: string)
    requires Offers(v, choices) && Carries(choices[0], calls, kind) && TextsPaired(v)
    ensures AllBalanced(PrintAll(choices)) && AllBalanced(PrintAll(CallObjects(calls, kind)))
  {
    hide FirstMember, AllBalanced, CallMembers;
    FirstIsProper(v, "choices");
    PairedItemsAreBalanced(choices);
    if calls != [] {
      FirstIsProper(choices[0], "tool_calls");
      PairedItemsAreBalanced(CallObjects(calls, kind));
    } else {
      assert PrintAll(CallObjects(calls, kind)) == [];
      NoneAreBalanced();
    }
  }

  lemma NoneAreBalanced()
    ensures AllBalanced([])
  {
  }
}
