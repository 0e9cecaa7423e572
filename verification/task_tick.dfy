/** The parser of task requests, and the task loop of `cli/host.cpp`: a run counts as successful
    when a certain text occurs in the printed result of the dispatched call. */
module TaskTick {
  import opened Text
  import opened JsonCodec
  import opened JsonTokens
  import opened JsonLookup
  import opened JsonDocument
  import opened Tasks

  // ---- the request --------------------------------------------------------------------

  datatype RequestResult = Accepted(task: Task) | Rejected(error: string) | Thrown

  function PositiveOr0(r: IntResult): int {
    if r.Int? && r.value > 0 then r.value else 0
  }

  /** `parse_task_request_from_json`; the status "" of a new task becomes pending on enqueueing. */
  function ParseTaskRequest(json: string, now: int): RequestResult {
    var command := StringField(json, "command", 0);
    var delay, recurrence := IntField(json, "delay_ms", 0), IntField(json, "recurrence_ms", 0);
    if command == "" then Rejected("Task requires a command.")
    else if delay.OutOfRange? || recurrence.OutOfRange? then Thrown
    else Accepted(Task("", StringField(json, "connector_id", 0), command, StringField(json, "payload_json", 0),
      Pending, 0, 0,
      if PositiveOr0(delay) > 0 then now + PositiveOr0(delay) else 0, PositiveOr0(recurrence), 0, "", ""))
  }

  function RequestMembers(connectorId: string, command: string, payload: string, delay: int,
                          recurrence: int): seq<Member> {
    [Member("connector_id", JStr(connectorId)), Member("command", JStr(command))]
    + [Member("payload_json", JStr(payload)), Member("delay_ms", JInt(delay)),
      Member("recurrence_ms", JInt(recurrence))]
  }

  lemma RequestKeys()
    ensures IsKey("connector_id") && IsKey("command") && IsKey("payload_json") && IsKey("delay_ms")
      && IsKey("recurrence_ms")
  {
  }

  lemma RequestLookup(connectorId: string, command: string, payload: string, delay: int, recurrence: int, key: string)
    ensures FirstInMembers(RequestMembers(connectorId, command, payload, delay, recurrence), key) ==
      if key == "connector_id" then Some(JStr(connectorId))
      else if key == "command" then Some(JStr(command))
      else if key == "payload_json" then Some(JStr(payload))
      else if key == "delay_ms" then Some(JInt(delay))
      else if key == "recurrence_ms" then Some(JInt(recurrence))
      else None
  {
    hide FirstInMembers;
    var a, b := Member("connector_id", JStr(connectorId)), Member("command", JStr(command));
    var c, d, e := Member("payload_json", JStr(payload)), Member("delay_ms", JInt(delay)),
      Member("recurrence_ms", JInt(recurrence));
    FirstInBoth([a, b], [c, d, e], key);
    assert [a, b] == [a] + [b];
    FirstInBoth([a], [b], key);
    FirstInOne(a, key);
    FirstInOne(b, key);
    FirstInThree(c, d, e, key);
    FirstInOne(c, key);
    FirstInOne(d, key);
    FirstInOne(e, key);
  }

  lemma RequestReads(connectorId: string, command: string, payload: string, delay: int, recurrence: int, key: string)
    requires IsInt64(delay) && IsInt64(recurrence) && IsKey(key)
    ensures var members := RequestMembers(connectorId, command, payload, delay, recurrence);
      && StringField(Print(JObj(members)), key, 0) == StringOf(FirstInMembers(members, key))
      && IntField(Print(JObj(members)), key, 0) == IntegerOf(FirstInMembers(members, key))
  {
    hide StringField, IntField, Print, FirstInMembers;
    RequestKeys();
    var v := JObj(RequestMembers(connectorId, command, payload, delay, recurrence));
    assert Proper(v) by { hide IsKey; }
    ReadBack(v, key);
  }

  /** A printed request is accepted exactly when its command is not empty, with every field as
      printed; a delay or recurrence that is not positive counts as none. */
  lemma RequestReadsBack(connectorId: string, command: string, payload: string, delay: int, recurrence: int, now: int)
    requires IsInt64(delay) && IsInt64(recurrence)
    ensures var r := ParseTaskRequest(Print(JObj(RequestMembers(connectorId, command, payload, delay, recurrence))),
      now);
      && (r.Accepted? <==> command != "")
      && (r.Accepted? ==>
        r.task.connectorId == connectorId && r.task.command == command && r.task.payloadJson == payload
        && r.task.status.Pending? && r.task.runCount == 0 && r.task.id == ""
        && r.task.scheduledFor == (if delay > 0 then now + delay else 0)
        && r.task.recurrence == if recurrence > 0 then recurrence else 0)
  {
    hide StringField, IntField, Print, RequestMembers, FirstInMembers, IsKey;
    RequestKeys();
    RequestReads(connectorId, command, payload, delay, recurrence, "connector_id");
    RequestReads(connectorId, command, payload, delay, recurrence, "command");
    RequestReads(connectorId, command, payload, delay, recurrence, "payload_json");
    RequestReads(connectorId, command, payload, delay, recurrence, "delay_ms");
    RequestReads(connectorId, command, payload, delay, recurrence, "recurrence_ms");
    RequestLookup(connectorId, command, payload, delay, recurrence, "connector_id");
    RequestLookup(connectorId, command, payload, delay, recurrence, "command");
    RequestLookup(connectorId, command, payload, delay, recurrence, "payload_json");
    RequestLookup(connectorId, command, payload, delay, recurrence, "delay_ms");
    RequestLookup(connectorId, command, payload, delay, recurrence, "recurrence_ms");
  }

  // ---- judging a run by its printed result -------------------------------------------------

  /** `"key":true` occurs in a printed document exactly where that key holds true, whatever the
      string values say. */
  lemma TrueOccursAtFlags(ts: seq<Token>, key: string)
    requires WellFormed(ts) && IsKey(key)
    ensures Contains(Render(ts), Needle(key) + "true")
      <==> exists j: nat :: j + 1 < |ts| && ts[j] == Key(key) && ts[j + 1] == Flag(true)
  {
    hide WellFormed, Occurs, Find, Render, Offset, IsKey;
    var json, text := Render(ts), Needle(key) + "true";
    if Contains(json, text) {
      var i := Find(json, text, 0).value;
      FindFound(json, text, 0);
      OccursInTwo(json, Needle(key), "true", i);
      OccursOnlyAtKeys(ts, key, i);
      var j: nat :| j < |ts| && ts[j] == Key(key) && Offset(ts, j) == i;
      AfterKey(ts, key, j);
      TrueIsFlag(ts, j + 1);
    }
    if j: nat :| j + 1 < |ts| && ts[j] == Key(key) && ts[j + 1] == Flag(true) {
      AfterKey(ts, key, j);
      TrueIsFlag(ts, j + 1);
      OccursOnlyAtKeys(ts, key, Offset(ts, j));
      OccursInTwo(json, Needle(key), "true", Offset(ts, j));
      if Find(json, text, 0).None? {
        NothingOccurs(json, text, 0, Offset(ts, j));
      }
    }
  }

  lemma {:induction false} NothingOccurs(s: string, needle: string, from: nat, i: nat)
    requires from <= i && Occurs(s, needle, i)
    ensures Find(s, needle, from).Some?
    decreases i - from
  {
    if from < i {
      NothingOccurs(s, needle, from + 1, i);
    }
  }

  lemma OccursInTwo(s: string, a: string, b: string, i: nat)
    ensures Occurs(s, a + b, i) <==> Occurs(s, a, i) && Occurs(s[i + |a|..], b, 0)
    ensures Occurs(s, a, i) ==> i + |a| <= |s|
  {
    if i + |a| + |b| <= |s| {
      assert s[i..i + |a + b|] == s[i..i + |a|] + s[i + |a|..][0..|b|];
      assert (a + b)[..|a|] == a && (a + b)[|a|..] == b;
      assert s[i..i + |a + b|][..|a|] == s[i..i + |a|] && s[i..i + |a + b|][|a|..] == s[i + |a|..][0..|b|];
    }
  }

  lemma TrueIsFlag(ts: seq<Token>, j: nat)
    requires WellFormed(ts) && j <= |ts|
    ensures Occurs(Render(ts[j..]), "true", 0) <==> j < |ts| && ts[j] == Flag(true)
  {
    WellFormedDrop(ts, j);
    if j < |ts| {
      assert ts[j..][0] == ts[j];
      BoolAtToken(ts[j], Render(ts[j..][1..]));
    }
  }

  predicate IsScalar(v: Json) { v.JStr? || v.JBool? || v.JInt? }

  predicate HoldsTrue(ts: seq<Token>, key: string) {
    exists j: nat :: j + 1 < |ts| && ts[j] == Key(key) && ts[j + 1] == Flag(true)
  }

  lemma {:induction false} FlagsAreMembers(members: seq<Member>, key: string)
    requires forall i | 0 <= i < |members| :: IsScalar(members[i].value)
    ensures HoldsTrue(MemberTokens(members), key)
      <==> exists i :: 0 <= i < |members| && members[i] == Member(key, JBool(true))
  {
    if members != [] {
      var ts := MemberTokens(members);
      var first := [Key(members[0].name)] + Tokens(members[0].value);
      if |members| == 1 {
        assert |ts| == 2 && ts[1] == Tokens(members[0].value)[0];
        assert ts[0] == Key(key) && ts[1] == Flag(true) <==> members[0] == Member(key, JBool(true));
      } else {
        var rest := MemberTokens(members[1..]);
        assert ts == first + [Mark(',')] + rest && |first| == 2;
        FlagsAreMembers(members[1..], key);
        assert ts[3..] == rest;
        FlagsShift(ts, rest, key);
        if i :| 0 <= i < |members[1..]| && members[1..][i] == Member(key, JBool(true)) {
          assert members[i + 1] == Member(key, JBool(true));
        }
        if i :| 1 <= i < |members| && members[i] == Member(key, JBool(true)) {
          assert members[1..][i - 1] == Member(key, JBool(true));
        }
      }
    }
  }

  lemma FlagsShift(ts: seq<Token>, rest: seq<Token>, key: string)
    requires |ts| >= 3 && ts[3..] == rest && !ts[1].Key? && !ts[2].Key?
    ensures HoldsTrue(ts, key) <==> (ts[0] == Key(key) && ts[1] == Flag(true)) || HoldsTrue(rest, key)
  {
    if j: nat :| j + 1 < |ts| && ts[j] == Key(key) && ts[j + 1] == Flag(true) {
      if j > 0 {
        assert j >= 3 && rest[j - 3] == ts[j] && rest[j - 2] == ts[j + 1];
      }
    }
    if j: nat :| j + 1 < |rest| && rest[j] == Key(key) && rest[j + 1] == Flag(true) {
      assert ts[j + 3] == Key(key) && ts[j + 4] == Flag(true);
    }
  }

  lemma HoldsTrueEnclosed(inner: seq<Token>, key: string)
    requires inner == [] || !inner[|inner| - 1].Key?
    ensures HoldsTrue([Mark('{')] + inner + [Mark('}')], key) <==> HoldsTrue(inner, key)
  {
    var ts := [Mark('{')] + inner + [Mark('}')];
    if j: nat :| j + 1 < |ts| && ts[j] == Key(key) && ts[j + 1] == Flag(true) {
      assert inner[j - 1] == Key(key) && inner[j] == Flag(true);
    }
    if j: nat :| j + 1 < |inner| && inner[j] == Key(key) && inner[j + 1] == Flag(true) {
      assert ts[j + 1] == Key(key) && ts[j + 2] == Flag(true);
    }
  }

  /** In a printed flat object `"key":true` occurs exactly when some member of that name is true. */
  lemma TrueOccursAtMembers(members: seq<Member>, key: string)
    requires ProperMembers(members) && IsKey(key)
    requires forall i | 0 <= i < |members| :: IsScalar(members[i].value)
    ensures Contains(Print(JObj(members)), Needle(key) + "true")
      <==> exists i :: 0 <= i < |members| && members[i] == Member(key, JBool(true))
  {
    hide Print, WellFormed, IsKey, Contains, IsScalar, Render;
    var v := JObj(members);
    PrintIsRender(v);
    TokensForm(v);
    TrueOccursAtFlags(Tokens(v), key);
    MembersForm(members);
    HoldsTrueEnclosed(MemberTokens(members), key);
    FlagsAreMembers(members, key);
  }

  // ---- launch, stop and run tasks -----------------------------------------------------------

  datatype LaunchOutcome = UnknownConnector | NotAProcess | Attempted(ok: bool, error: string)

  /** What `launch_connector` prints. */
  function LaunchMembers(o: LaunchOutcome): seq<Member> {
    match o
    case UnknownConnector => [Member("success", JBool(false)), Member("error", JStr("unknown connector"))]
    case NotAProcess => [Member("success", JBool(false)), Member("error", JStr("connector is not a launched_process"))]
    case Attempted(ok, error) => [Member("ok", JBool(ok)), Member("error", JStr(error))]
  }

  /** What `stop_connector` prints. */
  function StopMembers(ok: bool, error: string): seq<Member> {
    [Member("ok", JBool(ok)), Member("error", JStr(error))]
  }

  function RunMembers(ok: bool, launched: bool, exitCode: int, output: seq<Member>): seq<Member> {
    [Member("ok", JBool(ok)), Member("launched", JBool(launched)), Member("exit_code", JInt(exitCode))] + output
  }

  datatype Verdict = Completed(result: string) | FailedRun(error: string)

  /** The dispatch results the task loop may see, as printed text. */
  datatype Results = Results(run: string, launch: string, stop: string, call: string)

  function Judge(t: Task, r: Results): Verdict {
    if t.command == "run" then
      if Contains(r.run, "\"launched\":true") then Completed(r.run) else FailedRun(r.run)
    else if t.command == "launch" && t.connectorId != "" then
      if Contains(r.launch, "\"success\":true") then Completed("") else FailedRun("launch_connector failed")
    else if t.command == "stop" && t.connectorId != "" then
      if Contains(r.stop, "\"success\":true") then Completed("") else FailedRun("stop_connector failed")
    else if t.connectorId != "" then
      if !Contains(r.call, "\"ok\":false") then Completed("") else FailedRun(r.call)
    else FailedRun("task has no connector_id and command is not launch/stop")
  }

  lemma ResultKeys()
    ensures IsKey("success") && IsKey("error") && IsKey("ok") && IsKey("launched") && IsKey("exit_code")
    ensures Needle("success") + "true" == "\"success\":true" && Needle("launched") + "true" == "\"launched\":true"
  {
  }

  /** A launch or stop task always fails, even when the connector was launched or stopped: the
      text looked for, `"success":true`, cannot occur in what either call prints. */
  lemma LaunchAndStopAlwaysFail(t: Task, o: LaunchOutcome, stopped: bool, error: string, r: Results)
    requires t.command == "launch" || t.command == "stop"
    requires r.launch == Print(JObj(LaunchMembers(o))) && r.stop == Print(JObj(StopMembers(stopped, error)))
    ensures Judge(t, r).FailedRun?
  {
    hide Print, Contains;
    ResultKeys();
    TrueOccursAtMembers(LaunchMembers(o), "success");
    TrueOccursAtMembers(StopMembers(stopped, error), "success");
  }

  /** A run task is judged by the launched flag alone, whatever its captured output says. */
  lemma RunIsJudgedByItsFlag(t: Task, ok: bool, launched: bool, exitCode: int, output: seq<Member>, r: Results)
    requires t.command == "run" && IsInt64(exitCode)
    requires forall i | 0 <= i < |output| :: IsKey(output[i].name) && output[i].value.JStr?
    requires r.run == Print(JObj(RunMembers(ok, launched, exitCode, output)))
    ensures Judge(t, r).Completed? <==> launched
  {
    hide Print, Contains;
    ResultKeys();
    hide IsKey;
    var members := RunMembers(ok, launched, exitCode, output);
    TrueOccursAtMembers(members, "launched");
    assert members[1] == Member("launched", JBool(launched));
    assert forall i | 0 <= i < |members| :: members[i].name == "launched" && members[i].value.JBool? ==> i == 1;
  }
}
