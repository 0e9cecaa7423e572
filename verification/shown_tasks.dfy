/** Exactly when the terminal UI shows a list of tasks as it is, although a text in it may hold
    unpaired braces: what `cli/tui.cpp` reads of what `src/app/tasks.cpp` prints. */
module ShownTasks {
  import opened Text
  import opened JsonCodec
  import opened JsonTokens
  import opened JsonDocument
  import opened BraceWalker
  import opened BraceScan
  import opened CutObjects
  import opened Tasks
  import opened TaskJson

  /** The texts printed in front of a task's status. */
  function EarlyTexts(t: Task): string {
    t.id + t.connectorId + t.command + t.payloadJson
  }

  lemma TaskSkeletons(t: Task)
    ensures var ms := TaskMembers(t);
      && SkeletonOfMembers(ms[..0]) == "" && SkeletonOfMembers(ms[..1]) == t.id
      && SkeletonOfMembers(ms[..2]) == t.id + t.connectorId
        && SkeletonOfMembers(ms[..3]) == t.id + t.connectorId + t.command
      && SkeletonOfMembers(ms[..4]) == EarlyTexts(t)
        && SkeletonOfMembers(ms[..5]) == EarlyTexts(t) + StatusName(t.status)
      && SkeletonOfMembers(ms[..7]) == EarlyTexts(t) + StatusName(t.status)
  {
    hide SkeletonOfMembers, StatusName;
    var ms := TaskMembers(t);
    SkeletonGrows(ms, 0);
    SkeletonGrows(ms, 1);
    SkeletonGrows(ms, 2);
    SkeletonGrows(ms, 3);
    SkeletonGrows(ms, 4);
    SkeletonGrows(ms, 5);
    SkeletonGrows(ms, 6);
    assert "" + t.id == t.id;
    var s := EarlyTexts(t) + StatusName(t.status);
    assert s + "" == s;
  }

  lemma TaskMentions(t: Task, i: nat)
    requires Fits64(t) && i < 12
    ensures ProperMembers(TaskMembers(t)) && FirstMention(TaskMembers(t), i)
    ensures FirstMember(TaskMembers(t)[i].value, TaskMembers(t)[i].name).None?
    ensures FirstInMembers(TaskMembers(t)[i + 1..], TaskMembers(t)[i].name).None?
  {
    hide IsKey;
    TaskIsProper(t);
    var ms := TaskMembers(t);
    forall j | 0 <= j < i ensures ms[j].name != ms[i].name && FirstMember(ms[j].value, ms[i].name).None? {
      TaskKeysDiffer(t, j, i);
    }
    var later := ms[i + 1..];
    forall j | 0 <= j < |later| ensures later[j].name != ms[i].name && FirstMember(later[j].value, ms[i].name).None? {
      TaskKeysDiffer(t, i, i + 1 + j);
    }
    MemberAbsent(later, ms[i].name);
  }

  /** The row read of a piece is the task's own exactly when nothing closes before its status. */
  lemma RowReadExactly(t: Task, rest: string)
    requires Fits64(t)
    ensures ParseRow(Piece(TaskObject(t), rest)) == Some(RowOf(t)) <==> StaysOpen(EarlyTexts(t), 1)
  {
    hide StaysOpen, Depth, ScanObject, StringField, IntField, Piece, SkeletonOfMembers, FirstMention, ProperMembers,
      StatusName, EarlyTexts, FirstMember, FirstInMembers;
    var ms := TaskMembers(t);
    TaskSkeletons(t);
    TaskMentions(t, 4);
    StatusIsPlain(t.status);
    if StaysOpen(EarlyTexts(t), 1) {
      EarlyStayOpen(t);
      ReadWhole(t, 0, rest);
      ReadWhole(t, 1, rest);
      ReadWhole(t, 2, rest);
      ReadWhole(t, 4, rest);
      TaskMentions(t, 7);
      MemberNumberRead(ms, 7, rest);
    } else {
      MemberUnread(ms, 4, rest);
    }
  }

  lemma StatusIsPlain(s: Status)
    ensures StatusName(s) != "" && '{' !in StatusName(s) && '}' !in StatusName(s)
  {
  }

  lemma EarlyStayOpen(t: Task)
    requires StaysOpen(EarlyTexts(t), 1)
    ensures var ms := TaskMembers(t);
      StaysOpen(SkeletonOfMembers(ms[..1]), 1) && StaysOpen(SkeletonOfMembers(ms[..2]), 1)
        && StaysOpen(SkeletonOfMembers(ms[..3]), 1)
      && StaysOpen(SkeletonOfMembers(ms[..5]), 1) && OpenBefore(ms, 7)
  {
    hide StaysOpen, Depth, SkeletonOfMembers, StatusName;
    TaskSkeletons(t);
    StaysOpenConcat(t.id + t.connectorId + t.command, t.payloadJson, 1);
    StaysOpenConcat(t.id + t.connectorId, t.command, 1);
    StaysOpenConcat(t.id, t.connectorId, 1);
    StaysOpenConcat(EarlyTexts(t), StatusName(t.status), 1);
    StatusIsPlain(t.status);
    AlikePlain(StatusName(t.status));
    OpenIsPositive(EarlyTexts(t), 1);
    PlainOpens(StatusName(t.status), 1 + Depth(EarlyTexts(t)));
  }

  /** A text that leaves the object open is read whole. */
  lemma ReadWhole(t: Task, i: nat, rest: string)
    requires Fits64(t) && i < 12 && TaskMembers(t)[i].value.JStr?
      && StaysOpen(SkeletonOfMembers(TaskMembers(t)[..i + 1]), 1)
    ensures StringField(Piece(TaskObject(t), rest), TaskMembers(t)[i].name, 0) == TaskMembers(t)[i].value.text
  {
    hide StaysOpen, Depth, ScanObject, StringField, Piece, SkeletonOfMembers, FirstMention, ProperMembers, FirstMember,
      FirstInMembers;
    var ms := TaskMembers(t);
    TaskMentions(t, i);
    MemberTextRead(ms, i, rest);
    SkeletonGrows(ms, i);
    StaysOpenConcat(SkeletonOfMembers(ms[..i]), ms[i].value.text, 1);
    OpenIsScanned(ms[i].value.text, DepthBefore(ms, i));
  }

  // ---- the list -----------------------------------------------------------------------------

  lemma {:induction false} RowsConcat(a: seq<string>, b: seq<string>)
    ensures ParseRows(a + b) == if ParseRows(a).None? || ParseRows(b).None? then None
      else Some(ParseRows(a).value + ParseRows(b).value)
  {
    hide ParseRow;
    if a == [] {
      assert a + b == b;
      if ParseRows(b).Some? { assert [] + ParseRows(b).value == ParseRows(b).value; }
    } else {
      assert (a + b)[1..] == a[1..] + b;
      RowsConcat(a[1..], b);
      RowsStep(a);
      RowsStep(a + b);
      var row := ParseRow(a[0]);
      if row.Some? && ParseRows(a[1..]).Some? && ParseRows(b).Some? {
        Associate(if row.value.id != "" then [row.value] else [], ParseRows(a[1..]).value, ParseRows(b).value);
      }
    }
  }

  lemma RowsStep(texts: seq<string>)
    requires texts != []
    ensures var row, rest := ParseRow(texts[0]), ParseRows(texts[1..]);
      ParseRows(texts) == if row.None? || rest.None? then None
        else Some((if row.value.id != "" then [row.value] else []) + rest.value)
  {
  }

  lemma {:induction false} RowsWithoutIds(pieces: seq<string>)
    requires forall piece | piece in pieces :: Find(piece, Needle("id"), 0).None?
    ensures ParseRows(pieces).None? || ParseRows(pieces) == Some([])
    ensures (forall piece | piece in pieces :: Find(piece, Needle("scheduled_for_ms"), 0).None?) ==>
      ParseRows(pieces) == Some([])
  {
    hide Find;
    if pieces != [] {
      assert pieces[0] in pieces;
      RowsWithoutIds(pieces[1..]);
      RowsStep(pieces);
      NoIdNoRow(pieces[0]);
      var none: seq<TaskRow> := [];
      assert none + none == none;
    }
  }

  lemma NoIdNoRow(piece: string)
    requires Find(piece, Needle("id"), 0).None?
    ensures ParseRow(piece).Some? ==> ParseRow(piece).value.id == ""
    ensures Find(piece, Needle("scheduled_for_ms"), 0).None? ==> ParseRow(piece).Some?
  {
  }

  lemma OneRow(piece: string)
    ensures ParseRows([piece]) == match ParseRow(piece)
      case None => None
      case Some(row) => Some(if row.id != "" then [row] else [])
  {
    hide ParseRow;
    assert [piece][1..] == [];
    RowsStep([piece]);
    assert ParseRows([]) == Some([]);
    var row := ParseRow(piece);
    if row.Some? {
      var rows := if row.value.id != "" then [row.value] else [];
      assert rows + [] == rows;
    }
  }

  lemma ListedPieces(before: seq<Task>, t: Task)
    requires (forall i | 0 <= i < |before| :: Fits64(before[i])) && Fits64(t)
      && AllBalanced(PrintAll(TaskObjects(before)))
    ensures ObjectArray(TasksText(before + [t]), "tasks")
      == PrintAll(TaskObjects(before)) + ([Piece(TaskObject(t), "]}")] + SplitObjects(Left(TaskObject(t), "]}")))
  {
    hide ObjectArray, Print, PrintMembers, Balanced, SplitObjects, Left, Piece, FirstMention, ProperMembers;
    var ts := before + [t];
    ListIsProper(ts);
    ListIsObject(ts);
    BraceIsSkipped(TasksText(ts), "tasks");
    assert TaskObjects(ts) == TaskObjects(before) + [TaskObject(t)] + [];
    forall i | 0 <= i < |before| ensures TaskObjects(before)[i].JObj? && Balanced(Print(TaskObjects(before)[i])) {
      assert PrintAll(TaskObjects(before))[i] == Print(TaskObjects(before)[i]);
    }
    ListPieces(ListMembers(ts), TaskObjects(before), TaskObject(t), []);
    NothingFollows();
  }

  lemma NothingFollows()
    ensures Behind([]) == "]}"
  {
  }

  lemma LaterRowsLack(t: Task)
    requires Fits64(t)
    ensures var more := SplitObjects(Left(TaskObject(t), "]}"));
      && (forall piece | piece in more :: Find(piece, Needle("id"), 0).None?)
      && (StaysOpen(EarlyTexts(t), 1) ==>
        forall piece | piece in more :: Find(piece, Needle("scheduled_for_ms"), 0).None?)
  {
    hide SplitObjects, Left, FirstMention, FirstMember, FirstInMembers, ProperMembers, StaysOpen, Find,
      SkeletonOfMembers, EarlyTexts;
    var ms := TaskMembers(t);
    TaskSkeletons(t);
    NothingStaysOpen(1);
    TaskMentions(t, 0);
    LaterPiecesLack(ms, 0);
    if StaysOpen(EarlyTexts(t), 1) {
      EarlyStayOpen(t);
      TaskMentions(t, 7);
      LaterPiecesLack(ms, 7);
    }
  }

  /** A list whose tasks balance up to the last one is shown as it is, every task in order with
      its own fields, if and only if nothing closes before the last task's status. */
  lemma {:induction false} LastTaskShownExactly(before: seq<Task>, t: Task)
    requires forall i | 0 <= i < |before| :: Fits64(before[i]) && before[i].id != ""
    requires Fits64(t) && t.id != "" && AllBalanced(PrintAll(TaskObjects(before)))
    ensures ParseTasks(TasksText(before + [t])) == Some(RowsOf(before) + [RowOf(t)]) <==> StaysOpen(EarlyTexts(t), 1)
  {
    hide ObjectArray, Print, AllBalanced, SplitObjects, Left, Piece, ParseRow, PrintAll, StaysOpen, ParseRows, RowOf,
      RowsOf, Find;
    ListedPieces(before, t);
    var objects, more := PrintAll(TaskObjects(before)), SplitObjects(Left(TaskObject(t), "]}"));
    var piece := Piece(TaskObject(t), "]}");
    RowsConcat(objects, [piece] + more);
    RowsConcat([piece], more);
    RowsReadBack(before);
    OneRow(piece);
    RowReadExactly(t, "]}");
    LaterRowsLack(t);
    RowsWithoutIds(more);
    RowHasId(t);
    var rows := RowsOf(before);
    var row := ParseRow(piece);
    if row.Some? && row.value.id != "" {
      assert (rows + [row.value])[|rows|] == row.value && (rows + [RowOf(t)])[|rows|] == RowOf(t);
      assert [row.value] + [] == [row.value];
    } else {
      assert |rows + [RowOf(t)]| == |rows| + 1;
    }
  }
}
