/** Which executed calls the terminal UI shows, and how, when the braces of their records do not
    pair: what `cli/tui.cpp` makes of the records `cli/host.cpp` prints. */
module ShownActions {
  import opened Text
  import opened JsonCodec
  import opened JsonDocument
  import opened BraceWalker
  import opened BraceScan
  import opened CutObjects
  import opened AgentResponse

  /** The texts of a record, in the order they are printed. */
  function Texts(a: Action): string { a.tool + (a.arguments + a.result) }

  /** No proper prefix of the record's texts closes its object. */
  predicate WholeLine(a: Action) {
    forall k | 0 <= k < |Texts(a)| :: 1 + Depth(Texts(a)[..k]) > 0
  }

  /** What the walker lets through of a record. */
  function CutAction(a: Action): Action {
    var open1 := StaysOpen(a.tool, 1);
    var d1 := 1 + Depth(a.tool);
    var open2 := open1 && d1 > 0 && StaysOpen(a.arguments, d1);
    var d2 := d1 + Depth(a.arguments);
    Action(
      a.tool[..ScanObject(a.tool, 1)],
      if open1 && d1 > 0 then a.arguments[..ScanObject(a.arguments, d1)] else "",
      if open2 && d2 > 0 then a.result[..ScanObject(a.result, d2)] else "")
  }

  lemma ActionSkeletons(a: Action)
    ensures var ms := ActionObject(a).members;
      && SkeletonOfMembers(ms[..0]) == "" && SkeletonOfMembers(ms[..1]) == a.tool
      && SkeletonOfMembers(ms[..2]) == a.tool + a.arguments && SkeletonOfMembers(ms) == Texts(a)
  {
    var ms := ActionObject(a).members;
    SkeletonGrows(ms, 0);
    SkeletonGrows(ms, 1);
    SkeletonGrows(ms, 2);
    assert ms[..3] == ms;
    Associate(a.tool, a.arguments, a.result);
    assert "" + a.tool == a.tool;
  }

  lemma ActionMentions(a: Action, i: nat)
    requires i < 3
    ensures var ms := ActionObject(a).members;
      ProperMembers(ms) && FirstMention(ms, i) && ms[i].value.JStr? && ActionObject(a) == JObj(ms)
  {
    ResponseKeys();
  }

  /** The line shown for a record is the line of what was let through. */
  lemma ActionPieceRead(a: Action, rest: string)
    ensures ToolEntry(Piece(ActionObject(a), rest)) == ActionLine(CutAction(a))
  {
    hide StaysOpen, Depth, ScanObject, StringField, Piece, SkeletonOfMembers, FirstMention, ProperMembers;
    var ms := ActionObject(a).members;
    ActionSkeletons(a);
    NothingIsFlat();
    NothingStaysOpen(1);
    ActionMentions(a, 0);
    MemberTextRead(ms, 0, rest);
    ActionMentions(a, 1);
    MemberTextRead(ms, 1, rest);
    ActionMentions(a, 2);
    MemberTextRead(ms, 2, rest);
    StaysOpenConcat(a.tool, a.arguments, 1);
    DepthConcat(a.tool, a.arguments);
    if StaysOpen(a.tool, 1) {
      OpenIsPositive(a.tool, 1);
      if StaysOpen(a.arguments, 1 + Depth(a.tool)) {
        OpenIsPositive(a.arguments, 1 + Depth(a.tool));
      }
    }
  }

  /** As much is let through as a scan of the texts, put together, lets through. */
  lemma CutLength(a: Action)
    ensures var c := CutAction(a);
      && |c.tool| + |c.arguments| + |c.result| == ScanObject(Texts(a), 1)
      && c.tool <= a.tool && c.arguments <= a.arguments && c.result <= a.result
  {
    hide StaysOpen, Depth, ScanObject;
    ScanOfTwo(a.tool, a.arguments + a.result, 1);
    var c := CutAction(a);
    if StaysOpen(a.tool, 1) {
      var d := 1 + Depth(a.tool);
      ScanOfTwo(a.arguments, a.result, d);
      OpenIsScanned(a.tool, 1);
      if StaysOpen(a.arguments, d) {
        OpenIsScanned(a.arguments, d);
      }
    }
  }

  /** The line is the record's own if and only if no proper prefix of its texts closes. */
  lemma LineIsWholeExactly(a: Action)
    ensures ActionLine(CutAction(a)) == ActionLine(a) <==> WholeLine(a)
  {
    hide StaysOpen, Depth, ScanObject, CutAction;
    CutLength(a);
    ScansWhole(Texts(a), 1);
    var c := CutAction(a);
    if |c.tool| == |a.tool| && |c.arguments| == |a.arguments| && |c.result| == |a.result| {
      assert c == a;
    } else {
      LineLength(a);
      LineLength(c);
    }
  }

  lemma LineLength(a: Action)
    ensures |ActionLine(a).text|
      == 9 + |a.tool| + |a.arguments| + (if a.result == "" then 0 else 4 + |a.result|)
  {
    assert |"called "| == 7;
  }

  // ---- behind the record --------------------------------------------------------------------

  /** Behind a record read whole, the walker finds nothing when the record is the last one, and
      nothing at all when its texts close its object. */
  lemma NothingBehind(a: Action, rest: string)
    requires WholeLine(a) && (rest == "]}" || !StaysOpen(Texts(a), 1))
    ensures SplitObjects(Left(ActionObject(a), rest)) == []
  {
    hide StaysOpen, Depth, ScanObject, SkeletonOfMembers, FirstMention, ProperMembers, SplitObjects, Left;
    var ms := ActionObject(a).members;
    ActionSkeletons(a);
    ActionMentions(a, 0);
    if StaysOpen(Texts(a), 1) {
      OpenLeavesNothing(ms);
    } else {
      ClosingRecord(a, rest);
    }
  }

  lemma ClosingRecord(a: Action, rest: string)
    requires WholeLine(a) && !StaysOpen(Texts(a), 1)
    ensures SplitObjects(Left(ActionObject(a), rest)) == []
  {
    hide StaysOpen, Depth, ScanObject, SkeletonOfMembers, FirstMention, ProperMembers, SplitObjects, Left;
    var ms := ActionObject(a).members;
    ActionSkeletons(a);
    NothingIsFlat();
    NothingStaysOpen(1);
    ScansWhole(Texts(a), 1);
    ScanOfTwo(a.tool, a.arguments + a.result, 1);
    StaysOpenConcat(a.tool, a.arguments + a.result, 1);
    if !StaysOpen(a.tool, 1) {
      ActionMentions(a, 0);
      ClosingTextLeavesNothing(ms, 0, rest);
    } else {
      var d := 1 + Depth(a.tool);
      ScanOfTwo(a.arguments, a.result, d);
      StaysOpenConcat(a.arguments, a.result, d);
      StaysOpenConcat(a.tool, a.arguments, 1);
      DepthConcat(a.tool, a.arguments);
      if !StaysOpen(a.arguments, d) {
        ActionMentions(a, 1);
        ClosingTextLeavesNothing(ms, 1, rest);
      } else {
        ActionMentions(a, 2);
        ClosingTextLeavesNothing(ms, 2, rest);
      }
    }
  }

  // ---- the lines shown ----------------------------------------------------------------------

  lemma LinesConcat(a: seq<string>, b: seq<string>)
    ensures ToolEntries(a + b) == ToolEntries(a) + ToolEntries(b)
  {
    hide ToolEntry;
  }

  /** The records behind balanced ones: first the line of what is let through of the next record,
      then whatever the walker still finds. */
  lemma LinesRead(ms: seq<Member>, before: seq<Action>, a: Action, after: seq<Action>)
    requires ms != [] && ProperMembers(ms) && FirstMention(ms, |ms| - 1)
    requires ms[|ms| - 1] == Member("actions", JArr(ActionObjects(before + [a] + after))) && ActionsBalanced(before)
    ensures var rest := Behind(ActionObjects(after));
      ToolEntries(ObjectArray(Print(JObj(ms)), "actions"))
        == ActionLines(before) + ([ActionLine(CutAction(a))] + ToolEntries(SplitObjects(Left(ActionObject(a), rest))))
  {
    hide ObjectArray, Print, SplitObjects, Left, Piece, Behind, ToolEntry, ActionLine, CutAction, FirstMention,
      ProperMembers, ActionObject, Balanced;
    var rest := Behind(ActionObjects(after));
    assert ActionObjects(before + [a] + after) == ActionObjects(before) + [ActionObject(a)] + ActionObjects(after);
    RecordsAreObjects(before);
    RecordsAreObjects([a]);
    assert ActionObjects([a])[0] == ActionObject(a);
    forall i | 0 <= i < |before| ensures Balanced(Print(ActionObjects(before)[i])) {
      assert PrintAll(ActionObjects(before))[i] == Print(ActionObjects(before)[i]);
    }
    ListPieces(ms, ActionObjects(before), ActionObject(a), ActionObjects(after));
    var piece, more := Piece(ActionObject(a), rest), SplitObjects(Left(ActionObject(a), rest));
    LinesConcat(PrintAll(ActionObjects(before)), [piece] + more);
    LinesConcat([piece], more);
    LinesReadBack(before);
    ActionPieceRead(a, rest);
    assert ToolEntries([piece]) == [ToolEntry(piece)];
  }

  lemma RecordsAreObjects(actions: seq<Action>)
    ensures forall i | 0 <= i < |actions| :: ActionObjects(actions)[i].JObj?
  {
  }

  /** The lines are those of all records if and only if no proper prefix of the last record's
      texts closes its object, when the records before it balance. */
  lemma LastLineExactly(ms: seq<Member>, before: seq<Action>, a: Action)
    requires ms != [] && ProperMembers(ms) && FirstMention(ms, |ms| - 1)
    requires ms[|ms| - 1] == Member("actions", JArr(ActionObjects(before + [a]))) && ActionsBalanced(before)
    ensures ToolEntries(ObjectArray(Print(JObj(ms)), "actions")) == ActionLines(before + [a]) <==> WholeLine(a)
  {
    hide ObjectArray, Print, SplitObjects, Left, ActionLine, CutAction, FirstMention, ProperMembers, ActionObject,
      ActionsBalanced, WholeLine, ToolEntry;
    assert before + [a] + [] == before + [a];
    LinesRead(ms, before, a, []);
    NothingBehindLast();
    LineIsWholeExactly(a);
    var shown := ToolEntries(ObjectArray(Print(JObj(ms)), "actions"));
    assert ActionLines(before + [a]) == ActionLines(before) + [ActionLine(a)];
    assert shown[|before|] == ActionLine(CutAction(a));
    if WholeLine(a) {
      NothingBehind(a, "]}");
      assert ToolEntries([]) == [];
    }
  }

  lemma NothingBehindLast()
    ensures Behind(ActionObjects([])) == "]}"
  {
  }

  /** A record whose texts close its object exactly at their end is itself shown whole, and every
      record behind it is missing. */
  lemma RecordsBehindAreMissing(ms: seq<Member>, before: seq<Action>, a: Action, after: seq<Action>)
    requires ms != [] && ProperMembers(ms) && FirstMention(ms, |ms| - 1)
    requires ms[|ms| - 1] == Member("actions", JArr(ActionObjects(before + [a] + after))) && ActionsBalanced(before)
    requires WholeLine(a) && Depth(Texts(a)) == -1
    ensures ToolEntries(ObjectArray(Print(JObj(ms)), "actions")) == ActionLines(before + [a])
  {
    hide ObjectArray, Print, SplitObjects, Left, ActionLine, CutAction, FirstMention, ProperMembers, ActionObject,
      ActionsBalanced, WholeLine, ToolEntry, Depth, Texts;
    LinesRead(ms, before, a, after);
    LineIsWholeExactly(a);
    ClosedIsNotOpen(Texts(a));
    NothingBehind(a, Behind(ActionObjects(after)));
    assert ActionLines(before + [a]) == ActionLines(before) + [ActionLine(a)];
    assert ToolEntries([]) == [];
  }

  lemma ClosedIsNotOpen(s: string)
    requires Depth(s) == -1
    ensures !StaysOpen(s, 1)
  {
    assert s[..|s|] == s;
    assert s != "";
  }

  /** What the UI shows of a finished response whose last record may not balance. */
  lemma FinalShownExactly(session: string, assistant: string, before: seq<Action>, a: Action, thinking: string)
    requires ActionsBalanced(before)
    ensures Parsed(Print(JObj(FinalMembers(session, assistant, before + [a], thinking)))).entries
      == ThinkingEntry(thinking) + ActionLines(before + [a]) + [AssistantEntry(assistant)]
      <==> WholeLine(a)
  {
    hide ObjectArray, Print, FirstMention, ProperMembers, ActionsBalanced, WholeLine, Parsed, ToolEntries, ActionLines,
      ThinkingEntry, AssistantEntry, ActionObjects;
    var ms := FinalMembers(session, assistant, before + [a], thinking);
    FinalReadBack(session, assistant, before + [a], thinking);
    FinalIsProper(session, assistant, before + [a], thinking);
    FinalMentions(session, assistant, before + [a], thinking);
    LastLineExactly(ms, before, a);
    MiddleDecides(ThinkingEntry(thinking), ToolEntries(ObjectArray(Print(JObj(ms)), "actions")),
      ActionLines(before + [a]),
      [AssistantEntry(assistant)]);
  }

  lemma MiddleDecides<T>(x: seq<T>, a: seq<T>, b: seq<T>, y: seq<T>)
    ensures x + a + y == x + b + y <==> a == b
  {
    if x + a + y == x + b + y {
      assert |a| == |b|;
      assert (x + a + y)[|x|..|x| + |a|] == a;
      assert (x + b + y)[|x|..|x| + |a|] == b;
    }
  }

  /** The same of a paused one. */
  lemma PausedShownExactly(session: string, call: Call, destructive: bool, before: seq<Action>, a: Action,
                           thinking: string)
    requires ActionsBalanced(before)
    ensures Parsed(Print(JObj(PausedMembers(session, call, destructive, before + [a], thinking)))).entries
      == ThinkingEntry(thinking) + ActionLines(before + [a]) + [PendingEntry(call, destructive)]
      <==> WholeLine(a)
  {
    hide ObjectArray, Print, FirstMention, ProperMembers, ActionsBalanced, WholeLine, Parsed, ToolEntries, ActionLines,
      ThinkingEntry, PendingEntry, ActionObjects;
    var ms := PausedMembers(session, call, destructive, before + [a], thinking);
    PausedReadBack(session, call, destructive, before + [a], thinking);
    PausedIsProper(session, call, destructive, before + [a], thinking);
    PausedMentions(session, call, destructive, before + [a], thinking);
    LastLineExactly(ms, before, a);
    MiddleDecides(ThinkingEntry(thinking), ToolEntries(ObjectArray(Print(JObj(ms)), "actions")),
      ActionLines(before + [a]),
      [PendingEntry(call, destructive)]);
  }

  /** A file holding `{"a":"}"}` was read, and then others: its own line is right, theirs are gone. */
  lemma StrayBraceHidesTheRest(session: string, assistant: string, after: seq<Action>, thinking: string)
    ensures var a := Action("read_file", "{}", "{\"a\":\"}\"}");
      Parsed(Print(JObj(FinalMembers(session, assistant, [a] + after, thinking)))).entries
      == ThinkingEntry(thinking) + [ActionLine(a)] + [AssistantEntry(assistant)]
  {
    hide ObjectArray, Print, FirstMention, ProperMembers, ActionsBalanced, WholeLine, Parsed, ToolEntries,
      ThinkingEntry, AssistantEntry, ActionObjects, ActionLine;
    var a := Action("read_file", "{}", "{\"a\":\"}\"}");
    var ms := FinalMembers(session, assistant, [a] + after, thinking);
    FinalReadBack(session, assistant, [a] + after, thinking);
    FinalIsProper(session, assistant, [a] + after, thinking);
    FinalMentions(session, assistant, [a] + after, thinking);
    StrayBraceCloses();
    assert [] + [a] + after == [a] + after;
    NoneBalanced();
    RecordsBehindAreMissing(ms, [], a, after);
    assert ActionLines([] + [a]) == [ActionLine(a)];
  }

  lemma NoneBalanced()
    ensures ActionsBalanced([])
  {
  }

  lemma StrayBraceCloses()
    ensures var a := Action("read_file", "{}", "{\"a\":\"}\"}"); WholeLine(a) && Depth(Texts(a)) == -1
  {
    hide Paired, Depth;
    var a := Action("read_file", "{}", "{\"a\":\"}\"}");
    PairedPlain("read_file");
    PairedPlain("");
    Braced("");
    PairedPlain("\"a\":\"");
    Braced("\"a\":\"");
    PairedPlain("\"");
    var s := "read_file" + ("{" + "" + "}") + ("{" + "\"a\":\"" + "}") + "\"";
    PairedConcat("read_file", "{" + "" + "}");
    PairedConcat("read_file" + ("{" + "" + "}"), "{" + "\"a\":\"" + "}");
    PairedConcat("read_file" + ("{" + "" + "}") + ("{" + "\"a\":\"" + "}"), "\"");
    assert Texts(a) == s + "}";
    PairedThenClosed(s);
  }

  lemma PairedThenClosed(s: string)
    requires Paired(s)
    ensures Depth(s + "}") == -1 && forall k | 0 <= k < |s + "}"| :: 1 + Depth((s + "}")[..k]) > 0
  {
    OneBrace();
    DepthConcat(s, "}");
    forall k | 0 <= k < |s + "}"| ensures Depth((s + "}")[..k]) >= 0 {
      assert (s + "}")[..k] == s[..k];
    }
  }
}
