/** What is read of the first tool call of a completion whose braces need not balance. The call is
    taken from its own braces, so the choice around it being cut does not matter once it is reached. */
module CutCalls {
  import opened Text
  import opened JsonCodec
  import opened JsonTokens
  import opened JsonDocument
  import opened BraceWalker
  import opened BraceScan
  import opened CutObjects
  import opened ChatCompletions
  import opened ReplyTexts

  /** What the walker lets through of a call: the id up to the brace that closes the call, and, if
      id and kind leave it open, the name and then the arguments up to the brace that closes both
      the function object and the call. */
  function CutCall(c: ToolCall, kind: string): ToolCall {
    var head := c.id + kind;
    var d := 2 + Depth(head);
    var e := d + Depth(c.name);
    ToolCall(
      c.id[..ScanObject(c.id, 1)],
      if StaysOpen(head, 1) && d > 0 then c.name[..ScanObject(c.name, d)] else "",
      if StaysOpen(head, 1) && d > 0 && StaysOpen(c.name, d) && e > 0 then
        c.arguments[..ScanObject(c.arguments, e)]
      else "")
  }

  lemma CallSkeletons(c: ToolCall, kind: string)
    ensures var ms, fs := CallMembers(c, kind), FunctionMembers(c);
      && SkeletonOfMembers(ms[..0]) == "" && SkeletonOfMembers(ms[..2]) == c.id + kind
      && SkeletonOfMembers(fs[..0]) == "" && SkeletonOfMembers(fs[..1]) == c.name
  {
    hide SkeletonOfMembers;
    var ms, fs := CallMembers(c, kind), FunctionMembers(c);
    SkeletonGrows(ms, 0);
    SkeletonGrows(ms, 1);
    SkeletonGrows(fs, 0);
    assert "" + c.id == c.id && "" + c.name == c.name;
  }

  lemma CallForm(c: ToolCall, kind: string)
    ensures var ms, fs := CallMembers(c, kind), FunctionMembers(c);
      && ProperMembers(ms) && ProperMembers(fs) && ms[2].value == JObj(fs)
      && FirstMention(ms, 0) && FirstMention(ms, 2) && FirstMention(fs, 0) && FirstMention(fs, 1)
  {
    CallIsProper(c, kind);
    FunctionIsProper(c);
    CallNamesDiffer();
  }

  /** Exactly what is read of a call's piece. */
  lemma CallPieceRead(c: ToolCall, kind: string, rest: string)
    ensures CallIn(Piece(JObj(CallMembers(c, kind)), rest)) == CutCall(c, kind)
  {
    hide StaysOpen, Depth, ScanObject, Piece, StringField, SkeletonOfMembers, FirstMention, ProperMembers, Find, Print;
    var ms, fs := CallMembers(c, kind), FunctionMembers(c);
    var piece := Piece(JObj(ms), rest);
    CallSkeletons(c, kind);
    CallForm(c, kind);
    CallNamesDiffer();
    NothingIsFlat();
    NothingStaysOpen(1);
    MemberTextRead(ms, 0, rest);
    if StaysOpen(c.id + kind, 1) {
      OpenIsPositive(c.id + kind, 1);
      NothingStaysOpen(DepthBefore(ms, 2) + 1);
      var p := InnerTextRead(ms, 2, 0, rest);
      var p' := InnerTextRead(ms, 2, 1, rest);
      if StaysOpen(c.name, 2 + Depth(c.id + kind)) {
        OpenIsPositive(c.name, 2 + Depth(c.id + kind));
      }
    } else {
      CallCutEarly(c, kind, rest);
    }
  }

  /** A call cut before its function member has no name and no arguments. */
  lemma CallCutEarly(c: ToolCall, kind: string, rest: string)
    requires !StaysOpen(c.id + kind, 1)
    ensures var piece := Piece(JObj(CallMembers(c, kind)), rest);
      && Find(piece, Needle("function"), 0).None?
      && StringField(piece, "name", 0) == "" && StringField(piece, "arguments", 0) == ""
  {
    hide StaysOpen, Depth, ScanObject, Piece, SkeletonOfMembers, FirstMention, ProperMembers, Find, Print, Nowhere,
      FirstInMembers;
    var ms := CallMembers(c, kind);
    CallSkeletons(c, kind);
    CallForm(c, kind);
    CallKeys();
    var p, tail := MemberBegins(ms, 2);
    CutBeforeKey(JObj(ms), rest, "function", p);
    HeadHasNoCall(c, kind);
    var piece := Piece(JObj(ms), rest);
    HeadLacks(ms, 2, "name");
    HeadLacks(ms, 2, "arguments");
    var head := Print(JObj(ms))[..p];
    PieceIsPrefix(JObj(ms), rest, p);
    NowhereInPart(head, Needle("name"), 0, |piece|);
    NowhereInPart(head, Needle("arguments"), 0, |piece|);
    assert head[0..|piece|] == piece;
    NowhereIsUnfound(piece, Needle("name"));
    NowhereIsUnfound(piece, Needle("arguments"));
  }

  lemma HeadHasNoCall(c: ToolCall, kind: string)
    ensures FirstInMembers(CallMembers(c, kind)[..2], "name").None?
    ensures FirstInMembers(CallMembers(c, kind)[..2], "arguments").None?
  {
    CallNamesDiffer();
    var ms := CallMembers(c, kind)[..2];
    MemberAbsent(ms, "name");
    MemberAbsent(ms, "arguments");
  }

  lemma PieceIsPrefix(item: Json, rest: string, p: nat)
    requires item.JObj? && p <= |Print(item)| && |Piece(item, rest)| <= p
    ensures Print(item)[..p][..|Piece(item, rest)|] == Piece(item, rest)
  {
    hide Print, ScanObject;
    ObjectBegins(item);
    var n := |Piece(item, rest)|;
    assert (Print(item) + rest)[..n] == Print(item)[..n];
  }

  // ---- a list inside a piece ----------------------------------------------------------------

  /** Where the objects of a list begin, in the object that holds it. */
  lemma ListOpens(item: Json, key: string, items: seq<Json>) returns (t: nat, tail: string)
    requires item.JObj? && Proper(item) && IsKey(key) && FirstMember(item, key) == Some(JArr(items))
    ensures var c, n := Print(item), Needle(key);
      && |n| < t <= |c| && Find(c, n, 0) == Some(t - |n| - 1) && c[t - 1] == '['
      && c[t..] == Join(PrintAll(items), ",") + ("]" + tail)
      && (forall k | t - |n| - 1 <= k < t :: c[k] != '}')
      && (StaysOpen(c[..t], 0) <==> StaysOpen(c[..t - 1], 0))
  {
    hide FirstMember, Proper, Find, Print, StaysOpen, Depth, PrintItems, Join, PrintAll;
    var p;
    p, tail := ValueBegins(item, key);
    ArrayOpens(items);
    ItemsAreJoined(items);
    var c, q := Print(item), p + |Needle(key)|;
    t := q + 1;
    var behind := Join(PrintAll(items), ",") + ("]" + tail);
    assert "[" + Join(PrintAll(items), ",") + "]" + tail == "[" + behind;
    assert c[q..] == "[" + behind;
    assert c[q] == c[q..][0] && c[q..][1..] == behind;
    PlainCharKeepsOpen(c, q);
  }

  /** The first object of a list inside a piece is taken whole by the walker, whatever cuts the
      piece behind it; a piece that is cut before the list holds none. */
  lemma FirstOfInnerList(item: Json, rest: string, key: string, items: seq<Json>) returns (t: nat, after: string)
    requires item.JObj? && Proper(item) && IsKey(key) && FirstMember(item, key) == Some(JArr(items))
    requires items != [] && items[0].JObj?
    ensures var c, texts := Print(item), ObjectArray(Piece(item, rest), key);
      && |Needle(key)| < t <= |c| && Find(c, Needle(key), 0) == Some(t - |Needle(key)| - 1)
      && (if StaysOpen(c[..t], 0) then texts != [] && texts[0] == Piece(items[0], after) else texts == [])
  {
    hide FirstMember, Proper, Find, Print, StaysOpen, Depth, Join, PrintAll, ScanObject, SplitObjects, Piece;
    var tail;
    t, tail := ListOpens(item, key, items);
    var c, n := Print(item), Needle(key);
    var p := t - |n| - 1;
    after := (if |items| == 1 then "" else "," + Join(PrintAll(items)[1..], ",")) + ("]" + tail) + rest;
    if StaysOpen(c[..t], 0) {
      var piece := Piece(item, rest);
      PieceBeyond(item, rest, t);
      var y, d := c[t..] + rest, Depth(c[..t]);
      JoinHead(PrintAll(items));
      assert y == Print(items[0]) + after;
      ObjectBegins(items[0]);
      PieceFindsKey(c, rest, n, p, |piece|);
      BracketIn(piece, key, p, c, rest);
      TruncatedFirst(y, d);
      FirstIsPiece(items[0], after);
    } else {
      CutBeforeKey(item, rest, key, p);
    }
  }

  /** In the piece, the list's bracket is found behind its key. */
  lemma BracketIn(piece: string, key: string, p: nat, c: string, rest: string)
    requires IsKey(key) && Find(piece, Needle(key), 0) == Some(p)
    requires var t := p + |Needle(key)| + 1; t <= |piece| <= |c + rest| && t <= |c| && piece == (c + rest)[..|piece|]
    requires c[p + |Needle(key)|] == '['
    ensures ObjectArray(piece, key) == SplitObjects(piece[p + |Needle(key)| + 1..])
  {
    hide Find, SplitObjects;
    var n := Needle(key);
    var t := p + |n| + 1;
    FoundAtKey(piece, n, p);
    assert piece[t - 1] == '[';
    assert piece[p + |n|..] == "[" + piece[t..];
    assert piece[p..] == n + ("[" + piece[t..]);
    KeyHasNoBracket(key, piece[t..]);
    FindFrom(piece, "[", p);
  }

  lemma TruncatedFirst(y: string, d: nat)
    requires y != "" && y[0] == '{' && d > 0
    ensures var z := y[..ScanObject(y, d)]; SplitObjects(z) != [] && SplitObjects(z)[0] == y[..ScanObject(y, 0)]
  {
    hide ScanObject, SplitObjects;
    ScanDeeper(y, 0, d);
    ScanTruncated(y, 0, ScanObject(y, d));
    var z := y[..ScanObject(y, d)];
    SplitFirst(z);
    assert z[..ScanObject(y, 0)] == y[..ScanObject(y, 0)];
  }

  lemma FirstIsPiece(item: Json, after: string)
    requires item.JObj?
    ensures var y := Print(item) + after; y != "" && y[0] == '{' && y[..ScanObject(y, 0)] == Piece(item, after)
  {
    hide Print, ScanObject;
    ObjectBegins(item);
  }

  // ---- the first call of a completion -------------------------------------------------------

  /** Exactly what is read of the first tool call of any printed completion: nothing, when the
      braces printed before the calls already close the choice; otherwise the call as its own
      braces cut it, and a call without a name is dropped. */
  lemma FirstCallReadExactly(v: Json, choices: seq<Json>, calls: seq<ToolCall>, kind: string) returns (t: nat)
    requires Offers(v, choices) && Carries(choices[0], calls, kind) && calls != []
    ensures var c := Print(choices[0]);
      var read := FirstChoice(ObjectArray(Print(v), "choices")).calls;
      && |Needle("tool_calls")| < t <= |c| && Find(c, Needle("tool_calls"), 0) == Some(t - |Needle("tool_calls")| - 1)
      && (!StaysOpen(c[..t], 0) ==> read == [])
      && (StaysOpen(c[..t], 0) && CutCall(calls[0], kind).name != "" ==>
        read != [] && read[0] == CutCall(calls[0], kind))
  {
    hide FirstMember, Proper, Find, Print, StaysOpen, Piece, ObjectArray, CutCall, CallIn, StringField, Named,
      CallMembers;
    ReplyKeys();
    var rest := FirstPiece(v, choices);
    FirstChoiceIsProper(v, choices);
    var items := CallObjects(calls, kind);
    CallIsObject(calls[0], kind);
    var after;
    t, after := FirstOfInnerList(choices[0], rest, "tool_calls", items);
    var texts := ObjectArray(Piece(choices[0], rest), "tool_calls");
    if texts == [] {
      assert CallsIn(texts) == [];
      NamedNothing();
    } else {
      CallPieceRead(calls[0], kind, after);
      assert CallsIn(texts)[0] == CutCall(calls[0], kind);
      NamedFirst(CallsIn(texts));
    }
  }

  lemma CallIsObject(c: ToolCall, kind: string)
    ensures JObj(CallMembers(c, kind)).JObj?
  {
  }

  lemma NamedNothing()
    ensures Named([]) == []
  {
  }

  lemma {:induction false} NamedFirst(calls: seq<ToolCall>)
    requires calls != []
    ensures calls[0].name != "" ==> Named(calls) != [] && Named(calls)[0] == calls[0]
  {
    if |calls| > 1 {
      NamedFirst(calls[..|calls| - 1]);
    } else {
      assert calls[..0] == [];
    }
  }

  /** A call whose id, kind and name hold no braces keeps its name, and its arguments up to the
      brace that closes two more than they open; so they are whole if and only if no proper prefix
      of them does that. */
  lemma PlainCallReadExactly(c: ToolCall, kind: string)
    requires '{' !in c.id && '}' !in c.id && '{' !in kind && '}' !in kind && '{' !in c.name && '}' !in c.name
    ensures CutCall(c, kind) == c.(arguments := c.arguments[..ScanObject(c.arguments, 2)])
    ensures CutCall(c, kind) == c <==> forall k | 0 <= k < |c.arguments| :: Depth(c.arguments[..k]) > -2
  {
    hide StaysOpen, Depth, ScanObject;
    var head := c.id + kind;
    AlikePlain(c.id);
    AlikePlain(head);
    AlikePlain(c.name);
    PlainOpens(c.id, 1);
    PlainOpens(head, 1);
    PlainOpens(c.name, 2);
    OpenIsScanned(c.id, 1);
    OpenIsScanned(c.name, 2);
    ScansWhole(c.arguments, 2);
    PrefixIsWhole(c.arguments, ScanObject(c.arguments, 2));
  }

  /** The host then proposes a call nobody made. Arguments such as `{"path":"a","content":"}}}...`
      end at the third unpaired brace of the content, whatever follows. */
  lemma WrittenContentIsCut(c: ToolCall, kind: string, inner: string, more: string)
    requires '{' !in c.id && '}' !in c.id && '{' !in kind && '}' !in kind && '{' !in c.name && '}' !in c.name
    requires '{' !in inner && '}' !in inner && c.arguments == "{" + inner + "}}}" + more
    ensures CutCall(c, kind) == c.(arguments := "{" + inner + "}}}")
  {
    hide StaysOpen, Depth, ScanObject, CutCall;
    PlainCallReadExactly(c, kind);
    ThirdBraceCloses(inner, more);
  }

  lemma ThirdBraceCloses(inner: string, more: string)
    requires '{' !in inner && '}' !in inner
    ensures var s := "{" + inner + "}}}" + more; s[..ScanObject(s, 2)] == "{" + inner + "}}}"
  {
    hide StaysOpen, Depth, ScanObject;
    var head := "{" + inner;
    OneBrace();
    PlainDepth(inner);
    DepthConcat("{", inner);
    AlikePlain(inner);
    PlainOpens(inner, 3);
    StaysOpenConcat("{", inner, 2);
    BraceStaysOpen();
    ScanOfTwo(head, "}}}" + more, 2);
    Associate(head, "}}}", more);
    ScanThree(more);
    assert (head + "}}}" + more)[..|head| + 3] == head + "}}}";
  }

  lemma BraceStaysOpen()
    ensures StaysOpen("{", 2)
  {
    OneBrace();
    forall k | 0 < k <= 1 ensures 2 + Depth("{"[..k]) > 0 {
      assert "{"[..k] == "{";
    }
  }

  lemma ScanThree(more: string)
    ensures ScanObject("}}}" + more, 3) == 3
  {
    hide ScanObject;
    OneBrace();
    assert "}}}" + more == ['}'] + ("}}" + more) && "}}" + more == ['}'] + ("}" + more) && "}" + more == ['}'] + more;
    assert ['}'] == "}";
    ScanChar('}', "}}" + more, 3);
    ScanChar('}', "}" + more, 2);
    ScanChar('}', more, 1);
  }
}
