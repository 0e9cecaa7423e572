/** Tasks as text: what `src/app/tasks.cpp` prints, and what the terminal UI reads back. */
module TaskJson {
  import opened Text
  import opened JsonCodec
  import opened JsonTokens
  import opened JsonDocument
  import opened BraceWalker
  import opened Tasks

  function StatusName(s: Status): string {
    match s
    case Pending => "pending"
    case Running => "running"
    case Done => "done"
    case Failed => "failed"
    case Cancelled => "cancelled"
  }

  function TaskMembers(t: Task): seq<Member> {
    [Member("id", JStr(t.id)), Member("connector_id", JStr(t.connectorId)), Member("command", JStr(t.command)),
     Member("payload_json", JStr(t.payloadJson)), Member("status", JStr(StatusName(t.status))),
     Member("created_at_ms", JInt(t.createdAt)), Member("updated_at_ms", JInt(t.updatedAt)),
     Member("scheduled_for_ms", JInt(t.scheduledFor)), Member("recurrence_ms", JInt(t.recurrence)),
     Member("run_count", JInt(t.runCount)), Member("error_message", JStr(t.errorMessage)),
       Member("result_json", JStr(t.resultJson))]
  }

  function TaskObject(t: Task): Json { JObj(TaskMembers(t)) }

  /** Every number of the task fits the 64-bit fields it lives in. */
  predicate Fits64(t: Task) {
    IsInt64(t.createdAt) && IsInt64(t.updatedAt) && IsInt64(t.scheduledFor) && IsInt64(t.recurrence)
      && IsInt64(t.runCount)
  }

  lemma TaskKeys()
    ensures IsKey("id") && IsKey("connector_id") && IsKey("command") && IsKey("payload_json") && IsKey("status")
    ensures IsKey("created_at_ms") && IsKey("updated_at_ms") && IsKey("scheduled_for_ms") && IsKey("recurrence_ms")
  {
  }

  lemma MoreTaskKeys()
    ensures IsKey("run_count") && IsKey("error_message") && IsKey("result_json") && IsKey("ok") && IsKey("tasks")
  {
  }

  lemma TaskIsProper(t: Task)
    requires Fits64(t)
    ensures Proper(TaskObject(t))
  {
    TaskKeys();
    MoreTaskKeys();
    hide IsKey;
  }

  /** No two of the twelve keys are the same. */
  lemma TaskKeysDiffer(t: Task, i: nat, j: nat)
    requires i < j < 12
    ensures TaskMembers(t)[i].name != TaskMembers(t)[j].name
  {
  }

  /** Every field of a printed task reads back, whatever the texts contain. */
  lemma TaskFieldReadsBack(t: Task, i: nat)
    requires Fits64(t) && i < 12
    ensures var m := TaskMembers(t)[i];
      && StringField(Print(TaskObject(t)), m.name, 0) == StringOf(Some(m.value))
      && IntField(Print(TaskObject(t)), m.name, 0) == IntegerOf(Some(m.value))
  {
    TaskIsProper(t);
    var members := TaskMembers(t);
    forall j | 0 <= j < i
      ensures members[j].name != members[i].name && FirstMember(members[j].value, members[i].name).None?
    {
      TaskKeysDiffer(t, j, i);
    }
    MemberAt(members, i);
    ReadBack(TaskObject(t), members[i].name);
  }

  // ---- the list of tasks -----------------------------------------------------------------

  function TaskObjects(tasks: seq<Task>): (r: seq<Json>)
    ensures |r| == |tasks| && forall i | 0 <= i < |tasks| :: r[i] == TaskObject(tasks[i])
  {
    seq(|tasks|, i requires 0 <= i < |tasks| => TaskObject(tasks[i]))
  }

  function ListMembers(tasks: seq<Task>): seq<Member> {
    [Member("ok", JBool(true)), Member("tasks", JArr(TaskObjects(tasks)))]
  }

  /** The list is printed without an opening brace. */
  function TasksText(tasks: seq<Task>): string {
    PrintMembers(ListMembers(tasks)) + "}"
  }

  method BuildTasksJson(tasks: seq<Task>) returns (text: string)
    ensures text == TasksText(tasks)
  {
    ListText(tasks);
    hide PrintItems, PrintMembers;
    var items := StreamItems(TaskObjects(tasks));
    return JsonBoolField("ok", true) + ",\"tasks\":[" + (items + "]}");
  }

  lemma ListText(tasks: seq<Task>)
    ensures TasksText(tasks) == JsonBoolField("ok", true) + ",\"tasks\":[" + (PrintItems(TaskObjects(tasks)) + "]}")
  {
    hide PrintItems;
    var list := Member("tasks", JArr(TaskObjects(tasks)));
    var members := ListMembers(tasks);
    assert members[1..] == [list];
    assert PrintMembers([list]) == Needle("tasks") + ("[" + PrintItems(TaskObjects(tasks)) + "]");
    assert PrintMembers(members) == JsonBoolField("ok", true) + "," + PrintMembers([list]);
    assert ",\"tasks\":[" == "," + (Needle("tasks") + "[") && "]}" == "]" + "}";
  }

  // ---- reading the list -------------------------------------------------------------------

  datatype TaskRow = TaskRow(id: string, connectorId: string, command: string, status: string, scheduledFor: int)

  /** None where `std::stoll` throws. */
  function ParseRow(text: string): Option<TaskRow> {
    var scheduled := IntField(text, "scheduled_for_ms", 0);
    if scheduled.OutOfRange? then None
    else Some(TaskRow(StringField(text, "id", 0), StringField(text, "connector_id", 0), StringField(text, "command", 0),
      StringField(text, "status", 0), if scheduled.Int? then scheduled.value else 0))
  }

  function ParseRows(texts: seq<string>): Option<seq<TaskRow>> {
    if texts == [] then Some([])
    else
      var row, rest := ParseRow(texts[0]), ParseRows(texts[1..]);
      if row.None? || rest.None? then None
      else Some((if row.value.id != "" then [row.value] else []) + rest.value)
  }

  /** `parse_tasks` of the terminal UI. */
  function ParseTasks(json: string): Option<seq<TaskRow>> {
    ParseRows(ObjectArray(json, "tasks"))
  }

  function RowOf(t: Task): TaskRow {
    TaskRow(t.id, t.connectorId, t.command, StatusName(t.status), t.scheduledFor)
  }

  function RowsOf(tasks: seq<Task>): seq<TaskRow> {
    if tasks == [] then [] else [RowOf(tasks[0])] + RowsOf(tasks[1..])
  }

  lemma RowReadsBack(t: Task)
    requires Fits64(t)
    ensures ParseRow(Print(TaskObject(t))) == Some(RowOf(t))
  {
    hide StringField, IntField, Print, TaskObject;
    TaskFieldReadsBack(t, 0);
    TaskFieldReadsBack(t, 1);
    TaskFieldReadsBack(t, 2);
    TaskFieldReadsBack(t, 4);
    TaskFieldReadsBack(t, 7);
  }

  lemma {:induction false} RowsReadBack(tasks: seq<Task>)
    requires forall i | 0 <= i < |tasks| :: Fits64(tasks[i]) && tasks[i].id != ""
    ensures ParseRows(PrintAll(TaskObjects(tasks))) == Some(RowsOf(tasks))
  {
    hide Print, TaskObject, ParseRow, RowOf;
    if tasks != [] {
      RowReadsBack(tasks[0]);
      RowsReadBack(tasks[1..]);
      RowHasId(tasks[0]);
      assert PrintAll(TaskObjects(tasks))[1..] == PrintAll(TaskObjects(tasks[1..]));
    }
  }

  lemma RowHasId(t: Task)
    ensures RowOf(t).id == t.id
  {
  }

  lemma ListIsProper(tasks: seq<Task>)
    requires forall i | 0 <= i < |tasks| :: Fits64(tasks[i])
    ensures ProperMembers(ListMembers(tasks)) && FirstMention(ListMembers(tasks), 1)
  {
    MoreTaskKeys();
    hide IsKey;
    forall i | 0 <= i < |tasks| ensures Proper(TaskObjects(tasks)[i]) {
      TaskIsProper(tasks[i]);
    }
  }

  /** The printed list splits into the printed tasks exactly when each is balanced, and the UI
      then shows every task, in order, with its own fields. */
  lemma {:induction false} TaskListReadsBack(tasks: seq<Task>)
    requires forall i | 0 <= i < |tasks| :: Fits64(tasks[i]) && tasks[i].id != ""
    ensures var printed := PrintAll(TaskObjects(tasks));
      && (ObjectArray(TasksText(tasks), "tasks") == printed <==> AllBalanced(printed))
      && (AllBalanced(printed) ==> ParseTasks(TasksText(tasks)) == Some(RowsOf(tasks)))
  {
    hide PrintAll, AllBalanced, ObjectArray, Print, PrintMembers, FirstMention;
    ListIsProper(tasks);
    var members := ListMembers(tasks);
    MemberArraySplitsExactly(members, 1);
    ListIsObject(tasks);
    BraceIsSkipped(TasksText(tasks), "tasks");
    RowsReadBack(tasks);
  }

  lemma ListIsObject(tasks: seq<Task>)
    ensures Print(JObj(ListMembers(tasks))) == "{" + TasksText(tasks)
  {
    hide PrintMembers;
    assert "{" + PrintMembers(ListMembers(tasks)) + "}" == "{" + (PrintMembers(ListMembers(tasks)) + "}");
  }

  /** A task whose texts pair their braces is balanced. */
  lemma PairedTaskIsBalanced(t: Task)
    requires Fits64(t)
    requires Paired(t.id) && Paired(t.connectorId) && Paired(t.command) && Paired(t.payloadJson)
    requires Paired(t.errorMessage) && Paired(t.resultJson)
    ensures Balanced(Print(TaskObject(t)))
  {
    hide Paired, Balanced, Print;
    TaskIsProper(t);
    PairedPlain(StatusName(t.status));
    PrintPaired(TaskObject(t));
  }
}
