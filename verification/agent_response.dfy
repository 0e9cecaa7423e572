/** The two agent responses `cli/host.cpp` prints, and the reader of them in `cli/tui.cpp`. */
module AgentResponse {
  import opened Text
  import opened JsonCodec
  import opened JsonTokens
  import opened JsonDocument
  import opened BraceWalker

  /** `PendingToolActionRecord`: a tool call already executed, and its result. */
  datatype Action = Action(tool: string, arguments: string, result: string)

  datatype Call = Call(name: string, arguments: string)

  // ---- printing -----------------------------------------------------------------

  function ActionObject(a: Action): Json {
    JObj([Member("tool", JStr(a.tool)), Member("arguments_json", JStr(a.arguments)),
      Member("result_json", JStr(a.result))])
  }

  function ActionObjects(actions: seq<Action>): (r: seq<Json>)
    ensures |r| == |actions| && forall i | 0 <= i < |actions| :: r[i] == ActionObject(actions[i])
  {
    seq(|actions|, i requires 0 <= i < |actions| => ActionObject(actions[i]))
  }

  function ThinkingMember(thinking: string): seq<Member> {
    if thinking != "" then [Member("thinking", JStr(thinking))] else []
  }

  function FinalMembers(session: string, assistant: string, actions: seq<Action>, thinking: string): seq<Member> {
    [Member("ok", JBool(true))] + ThinkingMember(thinking)
    + [Member("assistant", JStr(assistant)), Member("session_id", JStr(session)),
      Member("actions", JArr(ActionObjects(actions)))]
  }

  function PendingObject(call: Call, destructive: bool): Json {
    JObj([Member("tool", JStr(call.name)), Member("arguments_json", JStr(call.arguments)),
          Member("looks_destructive", JBool(destructive))])
  }

  /** `call` and `actions` carry the arguments as they are displayed. */
  function PausedMembers(session: string, call: Call, destructive: bool, actions: seq<Action>,
                         thinking: string): seq<Member> {
    [Member("ok", JBool(true))] + ThinkingMember(thinking)
    + [Member("session_id", JStr(session)), Member("pending_tool_call", PendingObject(call, destructive)),
       Member("actions", JArr(ActionObjects(actions)))]
  }

  function ErrorMembers(error: string, session: Option<string>): seq<Member> {
    [Member("ok", JBool(false)), Member("error", JStr(error))]
    + (if session.Some? then [Member("session_id", JStr(session.value))] else [])
  }

  lemma PrintOne(m: Member)
    ensures PrintMembers([m]) == Needle(m.name) + Print(m.value)
  {
  }

  lemma PrintTwo(m: Member, n: Member)
    ensures PrintMembers([m, n]) == Needle(m.name) + Print(m.value) + "," + (Needle(n.name) + Print(n.value))
  {
    assert [m, n] == [m] + [n];
    PrintTogether([m], [n]);
  }

  lemma PrintThree(m: Member, n: Member, o: Member)
    ensures PrintMembers([m, n, o])
      == Needle(m.name) + Print(m.value) + ","
        + (Needle(n.name) + Print(n.value) + "," + (Needle(o.name) + Print(o.value)))
  {
    assert [m, n, o] == [m] + [n, o];
    PrintTogether([m], [n, o]);
    PrintTwo(n, o);
  }

  lemma PrintStringField(name: string, text: string)
    ensures Needle(name) + Print(JStr(text)) == JsonStringField(name, text)
  {
  }

  lemma PrintBoolField(name: string, flag: bool)
    ensures Needle(name) + Print(JBool(flag)) == JsonBoolField(name, flag)
  {
  }

  /** The loop both builders end with. */
  method AppendActions(stream: string, actions: seq<Action>) returns (text: string)
    ensures text == stream + ("\"actions\":[" + PrintItems(ActionObjects(actions)) + "]}")
  {
    hide PrintItems, Print, JsonStringField;
    text := stream + "\"actions\":[";
    ghost var start := text;
    assert actions[..0] == [] && PrintItems(ActionObjects([])) == "" by { PrintNoItems(); }
    for index := 0 to |actions|
      invariant text == start + PrintItems(ActionObjects(actions[..index]))
    {
      var action := actions[index];
      ghost var before := ActionObjects(actions[..index]);
      if index > 0 {
        text := text + ",";
      }
      text := text + ("{" + (JsonStringField("tool", action.tool) + ","
        + (JsonStringField("arguments_json", action.arguments)
        + "," + JsonStringField("result_json", action.result))) + "}");
      PrintAction(action);
      assert ActionObjects(actions[..index + 1]) == before + [ActionObject(action)];
      PrintAppended(before, ActionObject(action));
    }
    assert actions[..|actions|] == actions;
    text := text + "]}";
  }

  lemma PrintAction(a: Action)
    ensures Print(ActionObject(a))
      == "{" + (JsonStringField("tool", a.tool) + "," + (JsonStringField("arguments_json", a.arguments)
      + "," + JsonStringField("result_json", a.result))) + "}"
  {
    var m := ActionObject(a).members;
    PrintThree(m[0], m[1], m[2]);
    PrintStringField("tool", a.tool);
    PrintStringField("arguments_json", a.arguments);
    PrintStringField("result_json", a.result);
    hide PrintMembers, JsonStringField, Needle, Escape;
    assert Print(ActionObject(a)) == "{" + PrintMembers(m) + "}";
  }

  /** `{"ok":true,` and the optional thinking field, with which both responses begin. */
  method BeginResponse(thinking: string) returns (stream: string)
    ensures stream == "{" + PrintMembers([Member("ok", JBool(true))] + ThinkingMember(thinking)) + ","
  {
    PrintOne(Member("ok", JBool(true)));
    stream := "{" + JsonBoolField("ok", true) + ",";
    if thinking != "" {
      PrintTwo(Member("ok", JBool(true)), Member("thinking", JStr(thinking)));
      assert ThinkingMember(thinking) == [Member("thinking", JStr(thinking))];
      stream := stream + (JsonStringField("thinking", thinking) + ",");
    } else {
      assert [Member("ok", JBool(true))] + [] == [Member("ok", JBool(true))];
    }
  }

  lemma Regroup(p: string, a: string, s: string, list: string)
    ensures "{" + (p + "," + (a + "," + (s + "," + ("\"actions\":" + ("[" + list + "]"))))) + "}"
      == (("{" + p + ",") + (a + ",") + (s + ",")) + ("\"actions\":[" + list + "]}")
  {
    assert "\"actions\":[" == "\"actions\":" + "[";
  }

  /** The text of an object with two members behind its first part, and the actions last. */
  lemma PrintWithActions(first: seq<Member>, m: Member, n: Member, actions: seq<Action>)
    requires first != []
    ensures Print(JObj(first + [m, n, Member("actions", JArr(ActionObjects(actions)))]))
      == (("{" + PrintMembers(first) + ",") + (Needle(m.name) + Print(m.value) + ",")
        + (Needle(n.name) + Print(n.value) + ","))
      + ("\"actions\":[" + PrintItems(ActionObjects(actions)) + "]}")
  {
    hide PrintMembers, PrintItems;
    var last := Member("actions", JArr(ActionObjects(actions)));
    PrintTogether(first, [m, n, last]);
    PrintThree(m, n, last);
    Regroup(PrintMembers(first), Needle(m.name) + Print(m.value), Needle(n.name) + Print(n.value),
      PrintItems(ActionObjects(actions)));
  }

  lemma RegroupObject(inner: string)
    ensures Needle("pending_tool_call") + ("{" + inner + "}") + "," == "\"pending_tool_call\":{" + inner + "},"
  {
    assert "\"pending_tool_call\":{" == Needle("pending_tool_call") + "{";
    assert "}," == "}" + ",";
  }

  lemma PrintPendingObject(call: Call, destructive: bool)
    ensures Needle("pending_tool_call") + Print(PendingObject(call, destructive)) + ","
      == "\"pending_tool_call\":{"
        + (JsonStringField("tool", call.name) + "," + (JsonStringField("arguments_json", call.arguments)
      + "," + JsonBoolField("looks_destructive", destructive))) + "},"
  {
    var m := PendingObject(call, destructive).members;
    PrintThree(m[0], m[1], m[2]);
    PrintStringField("tool", call.name);
    PrintStringField("arguments_json", call.arguments);
    PrintBoolField("looks_destructive", destructive);
    hide PrintMembers, JsonStringField, JsonBoolField, Escape;
    assert Print(PendingObject(call, destructive)) == "{" + PrintMembers(m) + "}";
    RegroupObject(PrintMembers(m));
  }

  method BuildFinalAgentResponse(session: string, assistant: string, actions: seq<Action>,
                                 thinking: string) returns (json: string)
    ensures json == Print(JObj(FinalMembers(session, assistant, actions, thinking)))
  {
    var stream := BeginResponse(thinking);
    stream := stream + (JsonStringField("assistant", assistant) + ",");
    stream := stream + (JsonStringField("session_id", session) + ",");
    json := AppendActions(stream, actions);
    PrintStringField("assistant", assistant);
    PrintStringField("session_id", session);
    hide Print, PrintMembers, PrintItems;
    PrintWithActions([Member("ok", JBool(true))] + ThinkingMember(thinking),
      Member("assistant", JStr(assistant)), Member("session_id", JStr(session)), actions);
  }

  method BuildPendingToolCallResponse(session: string, call: Call, destructive: bool, actions: seq<Action>,
                                      thinking: string)
    returns (json: string)
    ensures json == Print(JObj(PausedMembers(session, call, destructive, actions, thinking)))
  {
    var stream := BeginResponse(thinking);
    stream := stream + (JsonStringField("session_id", session) + ",");
    stream := stream + ("\"pending_tool_call\":{" + (JsonStringField("tool", call.name) + ","
      + (JsonStringField("arguments_json", call.arguments) + ","
      + JsonBoolField("looks_destructive", destructive))) + "},");
    json := AppendActions(stream, actions);
    PrintStringField("session_id", session);
    hide Print, PrintMembers, PrintItems;
    PrintPendingObject(call, destructive);
    PrintWithActions([Member("ok", JBool(true))] + ThinkingMember(thinking),
      Member("session_id", JStr(session)), Member("pending_tool_call", PendingObject(call, destructive)), actions);
  }

  // ---- reading ------------------------------------------------------------------------

  datatype ChatEntry = ChatEntry(role: string, text: string)

  datatype ParsedTurn = ParsedTurn(
    entries: seq<ChatEntry>, session: string, hasPending: bool, pendingTool: string, pendingArgs: string)

  function ToolEntry(action: string): ChatEntry {
    var result := StringField(action, "result_json", 0);
    ChatEntry("tool", "called " + StringField(action, "tool", 0) + "(" + StringField(action, "arguments_json", 0) + ")"
      + (if result == "" then "" else " -> " + result))
  }

  function ToolEntries(actions: seq<string>): (r: seq<ChatEntry>)
    ensures |r| == |actions| && forall i | 0 <= i < |actions| :: r[i] == ToolEntry(actions[i])
  {
    seq(|actions|, i requires 0 <= i < |actions| => ToolEntry(actions[i]))
  }

  function ThinkingEntry(thinking: string): seq<ChatEntry> {
    if thinking != "" then [ChatEntry("thinking", thinking)] else []
  }

  function PendingEntry(call: Call, destructive: bool): ChatEntry {
    ChatEntry("info", (if destructive then "[!! DESTRUCTIVE !!] " else "") + "[AGENT WANTS TO] " + call.name
      + "(" + call.arguments + ") - approve? (yes/no, or say why not)")
  }

  function AssistantEntry(assistant: string): ChatEntry {
    ChatEntry("assistant", if assistant == "" then "(no reply)" else assistant)
  }

  function Parsed(json: string): ParsedTurn {
    var session := StringField(json, "session_id", 0);
    if BoolField(json, "ok", 0) != Some(true) then
      var error := StringField(json, "error", 0);
      ParsedTurn([ChatEntry("error", if error == "" then "agent turn failed" else error)], session, false, "", "")
    else
      var shown := ThinkingEntry(StringField(json, "thinking", 0)) + ToolEntries(ObjectArray(json, "actions"));
      match Find(json, Needle("pending_tool_call"), 0)
      case Some(p) =>
        var slice := json[p..];
        var call := Call(StringField(slice, "tool", 0), StringField(slice, "arguments_json", 0));
        var destructive := BoolField(slice, "looks_destructive", 0) == Some(true);
        ParsedTurn(shown + [PendingEntry(call, destructive)], session, true, call.name, call.arguments)
      case None =>
        ParsedTurn(shown + [AssistantEntry(StringField(json, "assistant", 0))], session, false, "", "")
  }

  method ParseAgentTurnResponse(json: string) returns (turn: ParsedTurn)
    ensures turn == Parsed(json)
  {
    hide StringField, BoolField, ObjectArray, Find;
    var session := ExtractJsonStringField(json, "session_id", 0);
    var ok := ExtractJsonBoolField(json, "ok", 0);
    if ok != Some(true) {
      var error := ExtractJsonStringField(json, "error", 0);
      return ParsedTurn([ChatEntry("error", if error == "" then "agent turn failed" else error)], session, false, "",
        "");
    }
    var thinking := ExtractJsonStringField(json, "thinking", 0);
    var entries := ThinkingEntry(thinking);
    var actions := ExtractJsonObjectArray(json, "actions");
    for i := 0 to |actions|
      invariant entries == ThinkingEntry(thinking) + ToolEntries(actions)[..i]
    {
      var tool := ExtractJsonStringField(actions[i], "tool", 0);
      var args := ExtractJsonStringField(actions[i], "arguments_json", 0);
      var result := ExtractJsonStringField(actions[i], "result_json", 0);
      var entry := ChatEntry("tool",
        "called " + tool + "(" + args + ")" + (if result == "" then "" else " -> " + result));
      assert ToolEntries(actions)[..i + 1] == ToolEntries(actions)[..i] + [entry];
      entries := entries + [entry];
    }
    assert ToolEntries(actions)[..|actions|] == ToolEntries(actions);
    var pending := Find(json, Needle("pending_tool_call"), 0);
    if pending.Some? {
      var slice := json[pending.value..];
      var name := ExtractJsonStringField(slice, "tool", 0);
      var args := ExtractJsonStringField(slice, "arguments_json", 0);
      var destructive := ExtractJsonBoolField(slice, "looks_destructive", 0);
      return ParsedTurn(entries + [PendingEntry(Call(name, args), destructive == Some(true))], session, true, name,
        args);
    }
    var assistant := ExtractJsonStringField(json, "assistant", 0);
    return ParsedTurn(entries + [AssistantEntry(assistant)], session, false, "", "");
  }

  // ---- what is read is what was printed -------------------------------------------------

  lemma ActionLookup(a: Action, key: string)
    ensures FirstMember(ActionObject(a), key) ==
      if key == "tool" then Some(JStr(a.tool))
      else if key == "arguments_json" then Some(JStr(a.arguments))
      else if key == "result_json" then Some(JStr(a.result))
      else None
  {
    var m := ActionObject(a).members;
    FirstInThree(m[0], m[1], m[2], key);
    FirstInOne(m[0], key);
    FirstInOne(m[1], key);
    FirstInOne(m[2], key);
  }

  lemma ActionsAreProper(actions: seq<Action>)
    ensures Proper(JArr(ActionObjects(actions)))
  {
  }

  lemma ActionIsProper(a: Action)
    ensures Proper(ActionObject(a))
  {
    ResponseKeys();
  }

  /** An executed action's line is built from the printed record. */
  lemma ActionReadBack(a: Action)
    ensures var result := a.result;
      ToolEntry(Print(ActionObject(a)))
      == ChatEntry("tool",
        "called " + a.tool + "(" + a.arguments + ")" + (if result == "" then "" else " -> " + result))
  {
    hide StringField, Print, FirstMember, Proper, ActionObject;
    var v := ActionObject(a);
    ActionIsProper(a);
    ResponseKeys();
    ReadBack(v, "tool");
    ReadBack(v, "arguments_json");
    ReadBack(v, "result_json");
    ActionLookup(a, "tool");
    ActionLookup(a, "arguments_json");
    ActionLookup(a, "result_json");
  }

  lemma {:induction false} ActionsLack(items: seq<Json>, actions: seq<Action>, key: string)
    requires items == ActionObjects(actions)
    requires key != "tool" && key != "arguments_json" && key != "result_json"
    ensures FirstInItems(items, key).None?
  {
    if items != [] {
      ActionLookup(actions[0], key);
      ActionsLack(items[1..], actions[1..], key);
    }
  }

  predicate IsResponseKey(key: string) {
    key == "ok" || key == "thinking" || key == "assistant" || key == "session_id"
    || key == "actions" || key == "pending_tool_call"
  }

  lemma ResponseKeys()
    ensures IsKey("ok") && IsKey("thinking") && IsKey("assistant") && IsKey("session_id") && IsKey("actions")
    ensures IsKey("pending_tool_call") && IsKey("tool") && IsKey("arguments_json") && IsKey("result_json")
    ensures IsKey("looks_destructive") && IsKey("error")
  {
  }

  lemma BeginLookup(thinking: string, key: string)
    ensures FirstInMembers([Member("ok", JBool(true))] + ThinkingMember(thinking), key) ==
      if key == "ok" then Some(JBool(true))
      else if key == "thinking" && thinking != "" then Some(JStr(thinking))
      else None
  {
    var ok := Member("ok", JBool(true));
    FirstInBoth([ok], ThinkingMember(thinking), key);
    FirstInOne(ok, key);
    FirstInOne(Member("thinking", JStr(thinking)), key);
  }

  lemma FinalLookup(session: string, assistant: string, actions: seq<Action>, thinking: string, key: string)
    requires IsResponseKey(key)
    ensures FirstInMembers(FinalMembers(session, assistant, actions, thinking), key) ==
      if key == "ok" then Some(JBool(true))
      else if key == "thinking" && thinking != "" then Some(JStr(thinking))
      else if key == "assistant" then Some(JStr(assistant))
      else if key == "session_id" then Some(JStr(session))
      else if key == "actions" then Some(JArr(ActionObjects(actions)))
      else None
  {
    hide FirstInMembers;
    var m, n, o := Member("assistant", JStr(assistant)), Member("session_id", JStr(session)),
      Member("actions", JArr(ActionObjects(actions)));
    BeginLookup(thinking, key);
    FirstInBoth([Member("ok", JBool(true))] + ThinkingMember(thinking), [m, n, o], key);
    FirstInThree(m, n, o, key);
    FirstInOne(m, key);
    FirstInOne(n, key);
    FirstInOne(o, key);
    ActionsLack(ActionObjects(actions), actions, key);
  }

  lemma PendingLookup(call: Call, destructive: bool, key: string)
    ensures FirstMember(PendingObject(call, destructive), key) ==
      if key == "tool" then Some(JStr(call.name))
      else if key == "arguments_json" then Some(JStr(call.arguments))
      else if key == "looks_destructive" then Some(JBool(destructive))
      else None
  {
    var m := PendingObject(call, destructive).members;
    FirstInThree(m[0], m[1], m[2], key);
    FirstInOne(m[0], key);
    FirstInOne(m[1], key);
    FirstInOne(m[2], key);
  }

  lemma PausedLookup(session: string, call: Call, destructive: bool, actions: seq<Action>, thinking: string,
                     key: string)
    requires IsResponseKey(key)
    ensures FirstInMembers(PausedMembers(session, call, destructive, actions, thinking), key) ==
      if key == "ok" then Some(JBool(true))
      else if key == "thinking" && thinking != "" then Some(JStr(thinking))
      else if key == "session_id" then Some(JStr(session))
      else if key == "pending_tool_call" then Some(PendingObject(call, destructive))
      else if key == "actions" then Some(JArr(ActionObjects(actions)))
      else None
  {
    hide FirstInMembers;
    var inner := PendingObject(call, destructive);
    var m, n, o := Member("session_id", JStr(session)), Member("pending_tool_call", inner),
      Member("actions", JArr(ActionObjects(actions)));
    BeginLookup(thinking, key);
    FirstInBoth([Member("ok", JBool(true))] + ThinkingMember(thinking), [m, n, o], key);
    FirstInThree(m, n, o, key);
    FirstInOne(m, key);
    FirstInOne(n, key);
    FirstInOne(o, key);
    PendingLookup(call, destructive, key);
    ActionsLack(ActionObjects(actions), actions, key);
  }

  function ActionLine(a: Action): ChatEntry {
    ChatEntry("tool", "called " + a.tool + "(" + a.arguments + ")" + (if a.result == "" then "" else " -> " + a.result))
  }

  function ActionLines(actions: seq<Action>): (r: seq<ChatEntry>)
    ensures |r| == |actions| && forall i | 0 <= i < |actions| :: r[i] == ActionLine(actions[i])
  {
    seq(|actions|, i requires 0 <= i < |actions| => ActionLine(actions[i]))
  }

  /** Every record's braces pair up, string contents included. */
  predicate ActionsBalanced(actions: seq<Action>) {
    AllBalanced(PrintAll(ActionObjects(actions)))
  }

  lemma LinesReadBack(actions: seq<Action>)
    ensures ToolEntries(PrintAll(ActionObjects(actions))) == ActionLines(actions)
  {
    forall i | 0 <= i < |actions| ensures ToolEntry(PrintAll(ActionObjects(actions))[i]) == ActionLine(actions[i]) {
      ActionReadBack(actions[i]);
    }
  }

  lemma FinalIsProper(session: string, assistant: string, actions: seq<Action>, thinking: string)
    ensures ProperMembers(FinalMembers(session, assistant, actions, thinking))
  {
    ResponseKeys();
    ActionsAreProper(actions);
  }

  lemma PausedIsProper(session: string, call: Call, destructive: bool, actions: seq<Action>, thinking: string)
    ensures ProperMembers(PausedMembers(session, call, destructive, actions, thinking))
    ensures Proper(PendingObject(call, destructive))
  {
    ResponseKeys();
    ActionsAreProper(actions);
  }

  /** The last member's array splits into the printed records exactly when they balance. */
  lemma ActionsSplit(members: seq<Member>, actions: seq<Action>)
    requires members != [] && members[|members| - 1] == Member("actions", JArr(ActionObjects(actions)))
    requires ProperMembers(members) && FirstMention(members, |members| - 1)
    ensures ObjectArray(Print(JObj(members)), "actions") == PrintAll(ActionObjects(actions))
      <==> ActionsBalanced(actions)
  {
    hide ObjectArray, Print, PrintAll, AllBalanced, FirstMention;
    MemberArraySplitsExactly(members, |members| - 1);
  }

  lemma FinalMentions(session: string, assistant: string, actions: seq<Action>, thinking: string)
    ensures var ms := FinalMembers(session, assistant, actions, thinking);
      FirstMention(ms, |ms| - 1)
  {
  }

  lemma PausedMentions(session: string, call: Call, destructive: bool, actions: seq<Action>, thinking: string)
    ensures var ms := PausedMembers(session, call, destructive, actions, thinking);
      FirstMention(ms, |ms| - 1) && FirstMention(ms, |ms| - 2)
  {
    PendingLookup(call, destructive, "actions");
  }

  /** A finished response is read as finished, whatever its texts contain: the same session,
      no pending call, and the reply as the last line. The lines before it are exactly the
      thinking and the executed calls when the records' braces balance. */
  lemma FinalReadBack(session: string, assistant: string, actions: seq<Action>, thinking: string)
    ensures var turn := Parsed(Print(JObj(FinalMembers(session, assistant, actions, thinking))));
      && turn.session == session && !turn.hasPending && turn.pendingTool == "" && turn.pendingArgs == ""
      && turn.entries == ThinkingEntry(thinking)
        + ToolEntries(ObjectArray(Print(JObj(FinalMembers(session, assistant, actions, thinking))), "actions"))
        + [AssistantEntry(assistant)]
      && (ActionsBalanced(actions) <==>
        ObjectArray(Print(JObj(FinalMembers(session, assistant, actions, thinking))), "actions")
          == PrintAll(ActionObjects(actions)))
      && (ActionsBalanced(actions) ==>
        turn.entries == ThinkingEntry(thinking) + ActionLines(actions) + [AssistantEntry(assistant)])
  {
    hide StringField, BoolField, ObjectArray, Find, Print, FirstInMembers, FinalMembers, ActionLine, ToolEntries,
      ActionLines, PrintAll, AssistantEntry, ActionsBalanced, ActionObjects;
    var ms := FinalMembers(session, assistant, actions, thinking);
    var v := JObj(ms);
    FinalIsProper(session, assistant, actions, thinking);
    FinalRead(session, assistant, actions, thinking, "session_id");
    FinalRead(session, assistant, actions, thinking, "ok");
    FinalRead(session, assistant, actions, thinking, "thinking");
    FinalRead(session, assistant, actions, thinking, "assistant");
    FinalRead(session, assistant, actions, thinking, "pending_tool_call");
    FinalActions(session, assistant, actions, thinking);
    LinesReadBack(actions);
  }

  lemma FinalRead(session: string, assistant: string, actions: seq<Action>, thinking: string, key: string)
    requires IsResponseKey(key)
    ensures var json := Print(JObj(FinalMembers(session, assistant, actions, thinking)));
      && (key == "session_id" ==> StringField(json, key, 0) == session)
      && (key == "ok" ==> BoolField(json, key, 0) == Some(true))
      && (key == "thinking" ==> StringField(json, key, 0) == thinking)
      && (key == "assistant" ==> StringField(json, key, 0) == assistant)
      && (key == "pending_tool_call" ==> Find(json, Needle(key), 0).None?)
  {
    hide StringField, BoolField, Find, Print, FirstInMembers, FinalMembers, ProperMembers;
    var v := JObj(FinalMembers(session, assistant, actions, thinking));
    ResponseKeys();
    FinalIsProper(session, assistant, actions, thinking);
    MembersMakeProper(v.members);
    FinalLookup(session, assistant, actions, thinking, key);
    ReadBack(v, key);
    KeyIsFound(v, key);
  }

  lemma FinalActions(session: string, assistant: string, actions: seq<Action>, thinking: string)
    ensures var json := Print(JObj(FinalMembers(session, assistant, actions, thinking)));
      ObjectArray(json, "actions") == PrintAll(ActionObjects(actions)) <==> ActionsBalanced(actions)
  {
    hide ProperMembers, FirstMention;
    var ms := FinalMembers(session, assistant, actions, thinking);
    FinalIsProper(session, assistant, actions, thinking);
    FinalMentions(session, assistant, actions, thinking);
    ActionsSplit(ms, actions);
  }

  lemma PausedRead(session: string, call: Call, destructive: bool, actions: seq<Action>, thinking: string, key: string)
    requires key == "session_id" || key == "ok" || key == "thinking"
    ensures var json := Print(JObj(PausedMembers(session, call, destructive, actions, thinking)));
      && (key == "session_id" ==> StringField(json, key, 0) == session)
      && (key == "ok" ==> BoolField(json, key, 0) == Some(true))
      && (key == "thinking" ==> StringField(json, key, 0) == thinking)
  {
    hide StringField, BoolField, Print, FirstInMembers, PausedMembers, ProperMembers;
    var v := JObj(PausedMembers(session, call, destructive, actions, thinking));
    ResponseKeys();
    PausedIsProper(session, call, destructive, actions, thinking);
    MembersMakeProper(v.members);
    PausedLookup(session, call, destructive, actions, thinking, key);
    ReadBack(v, key);
  }

  /** From the pending call's key on, the first tool, arguments and flag are the pending
      call's own, although executed actions behind it carry the same keys. */
  lemma PausedSlice(session: string, call: Call, destructive: bool, actions: seq<Action>, thinking: string)
    ensures var json := Print(JObj(PausedMembers(session, call, destructive, actions, thinking)));
      var p := Find(json, Needle("pending_tool_call"), 0);
      && p.Some?
      && StringField(json[p.value..], "tool", 0) == call.name
      && StringField(json[p.value..], "arguments_json", 0) == call.arguments
      && BoolField(json[p.value..], "looks_destructive", 0) == Some(destructive)
  {
    hide StringField, BoolField, Print, PrintMembers, FirstInMembers, FirstMention, ActionObjects, Find, Proper,
      FirstMember;
    var ms := PausedMembers(session, call, destructive, actions, thinking);
    var i := |ms| - 2;
    var m, n := Member("pending_tool_call", PendingObject(call, destructive)),
      Member("actions", JArr(ActionObjects(actions)));
    assert ms[i..] == [m] + [n];
    PausedIsProper(session, call, destructive, actions, thinking);
    PausedMentions(session, call, destructive, actions, thinking);
    ResponseKeys();
    var p := TextFromMember(ms, i);
    SliceRead(m, n, call, destructive, "tool");
    SliceRead(m, n, call, destructive, "arguments_json");
    SliceRead(m, n, call, destructive, "looks_destructive");
  }

  lemma SliceRead(m: Member, n: Member, call: Call, destructive: bool, key: string)
    requires m == Member("pending_tool_call", PendingObject(call, destructive)) && ProperMembers([m] + [n])
    requires key == "tool" || key == "arguments_json" || key == "looks_destructive"
    ensures var text := PrintMembers([m] + [n]) + "}";
      && (key == "tool" ==> StringField(text, key, 0) == call.name)
      && (key == "arguments_json" ==> StringField(text, key, 0) == call.arguments)
      && (key == "looks_destructive" ==> BoolField(text, key, 0) == Some(destructive))
  {
    hide StringField, BoolField, PrintMembers, FirstInMembers, PendingObject;
    ResponseKeys();
    ReadFromMember([m] + [n], key);
    FirstInBoth([m], [n], key);
    FirstInOne(m, key);
    PendingLookup(call, destructive, key);
  }

  lemma PausedActions(session: string, call: Call, destructive: bool, actions: seq<Action>, thinking: string)
    ensures var json := Print(JObj(PausedMembers(session, call, destructive, actions, thinking)));
      ObjectArray(json, "actions") == PrintAll(ActionObjects(actions)) <==> ActionsBalanced(actions)
  {
    hide ProperMembers, FirstMention;
    var ms := PausedMembers(session, call, destructive, actions, thinking);
    PausedIsProper(session, call, destructive, actions, thinking);
    PausedMentions(session, call, destructive, actions, thinking);
    ActionsSplit(ms, actions);
  }

  /** A paused response is read as paused, whatever its texts contain: the same session and
      exactly the call awaiting the decision; the executed calls as in `FinalReadBack`. */
  lemma PausedReadBack(session: string, call: Call, destructive: bool, actions: seq<Action>, thinking: string)
    ensures var json := Print(JObj(PausedMembers(session, call, destructive, actions, thinking)));
      var turn := Parsed(json);
      && turn.session == session && turn.hasPending
      && turn.pendingTool == call.name && turn.pendingArgs == call.arguments
      && turn.entries == ThinkingEntry(thinking) + ToolEntries(ObjectArray(json, "actions"))
        + [PendingEntry(call, destructive)]
      && (ActionsBalanced(actions) <==> ObjectArray(json, "actions") == PrintAll(ActionObjects(actions)))
      && (ActionsBalanced(actions) ==>
        turn.entries == ThinkingEntry(thinking) + ActionLines(actions) + [PendingEntry(call, destructive)])
  {
    hide StringField, BoolField, ObjectArray, Find, Print, PausedMembers, ActionLine, ToolEntries, ActionLines,
      PrintAll, PendingEntry, ActionsBalanced, ActionObjects;
    PausedRead(session, call, destructive, actions, thinking, "session_id");
    PausedRead(session, call, destructive, actions, thinking, "ok");
    PausedRead(session, call, destructive, actions, thinking, "thinking");
    PausedSlice(session, call, destructive, actions, thinking);
    PausedActions(session, call, destructive, actions, thinking);
    LinesReadBack(actions);
  }

  /** Records whose texts pair their braces are balanced. */
  lemma PairedActionsAreBalanced(actions: seq<Action>)
    requires forall i | 0 <= i < |actions| ::
      Paired(actions[i].tool) && Paired(actions[i].arguments) && Paired(actions[i].result)
    ensures ActionsBalanced(actions)
  {
    hide Paired, Balanced, Print;
    forall i | 0 <= i < |actions| ensures Balanced(PrintAll(ActionObjects(actions))[i]) {
      ResponseKeys();
      PrintPaired(ActionObject(actions[i]));
    }
  }

  lemma DepthOfField(key: string, text: string)
    requires IsKey(key)
    ensures Depth(JsonStringField(key, text)) == Depth(text)
  {
    hide Depth, Escape;
    var head := "\"" + key + "\":\"";
    assert JsonStringField(key, text) == head + Escape(text) + "\"";
    PlainDepth(head);
    PlainDepth("\"");
    DepthConcat(head + Escape(text), "\"");
    DepthConcat(head, Escape(text));
    var j := DepthEscaped(text, |Escape(text)|);
    assert Escape(text)[..|Escape(text)|] == Escape(text) && text[..|text|] == text;
  }

  lemma DepthBraced(a: string, b: string, c: string)
    ensures Depth("{" + (a + "," + (b + "," + c)) + "}") == Depth(a) + Depth(b) + Depth(c)
  {
    hide Depth;
    OneBrace();
    PlainDepth(",");
    DepthConcat("{" + (a + "," + (b + "," + c)), "}");
    DepthConcat("{", a + "," + (b + "," + c));
    DepthConcat(a + ",", b + "," + c);
    DepthConcat(a, ",");
    DepthConcat(b + ",", c);
    DepthConcat(b, ",");
  }

  /** A record whose braces do not add up is not balanced, even when its result is itself a document. */
  lemma UnpairedActionIsNotBalanced(a: Action)
    ensures Depth(a.tool) + Depth(a.arguments) + Depth(a.result) != 0 ==> !ActionsBalanced([a])
    ensures Depth(a.tool) == Depth(a.arguments) == 0 && a.result == Print(JObj([Member("a", JStr("}"))]))
      ==> !ActionsBalanced([a])
  {
    hide Depth, Print, JsonStringField, ActionObject;
    ResponseKeys();
    PrintAction(a);
    DepthBraced(JsonStringField("tool", a.tool), JsonStringField("arguments_json", a.arguments),
      JsonStringField("result_json", a.result));
    DepthOfField("tool", a.tool);
    DepthOfField("arguments_json", a.arguments);
    DepthOfField("result_json", a.result);
    DocumentNeedNotPair();
    assert PrintAll(ActionObjects([a]))[0] == Print(ActionObject(a));
    if ActionsBalanced([a]) {
      assert Balanced(PrintAll(ActionObjects([a]))[0]);
    }
  }

  /** An error response is read as an error, whatever its text contains. */
  lemma ErrorReadBack(error: string, session: Option<string>)
    ensures var turn := Parsed(Print(JObj(ErrorMembers(error, session))));
      && !turn.hasPending && turn.pendingTool == "" && turn.pendingArgs == ""
      && turn.session == session.GetOr("")
      && turn.entries == [ChatEntry("error", if error == "" then "agent turn failed" else error)]
  {
    hide StringField, BoolField, Print, FirstInMembers, ObjectArray, Find;
    ResponseKeys();
    var first, second := Member("ok", JBool(false)), Member("error", JStr(error));
    var last := if session.Some? then [Member("session_id", JStr(session.value))] else [];
    var v := JObj(ErrorMembers(error, session));
    assert v.members == [first] + ([second] + last);
    ReadBack(v, "ok");
    ReadBack(v, "error");
    ReadBack(v, "session_id");
    ErrorLookup(first, second, last, "ok");
    ErrorLookup(first, second, last, "error");
    ErrorLookup(first, second, last, "session_id");
  }

  lemma ErrorLookup(first: Member, second: Member, last: seq<Member>, key: string)
    requires first == Member("ok", JBool(false)) && second.name == "error" && second.value.JStr?
    requires last == [] || (|last| == 1 && last[0].name == "session_id" && last[0].value.JStr?)
    ensures FirstInMembers([first] + ([second] + last), key) ==
      if key == "ok" then Some(first.value)
      else if key == "error" then Some(second.value)
      else if key == "session_id" && last != [] then Some(last[0].value)
      else None
  {
    FirstInBoth([first], [second] + last, key);
    FirstInBoth([second], last, key);
    FirstInOne(first, key);
    FirstInOne(second, key);
    if last != [] {
      FirstInOne(last[0], key);
      assert last == [last[0]];
    }
  }
}
