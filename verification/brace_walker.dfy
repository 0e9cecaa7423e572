/** The brace-depth array walker that `cli/tui.cpp`, `cli/droidcli.cpp` and
    `src/ai/openai_compat_client.cpp` each carry a copy of. It pays no attention to string
    quoting, so it splits an array of objects exactly when each object's braces balance. */
module BraceWalker {
  import opened Text
  import opened JsonCodec
  import opened JsonTokens
  import opened JsonLookup
  import opened JsonDocument

  // ---- what the walker computes ---------------------------------------------------

  predicate IsSeparator(c: char) {
    c == ' ' || c == '\t' || c == '\n' || c == '\r' || c == ','
  }

  function SkipSeparators(s: string): (t: string)
    ensures |t| <= |s|
    ensures t == "" || !IsSeparator(t[0])
  {
    if s != "" && IsSeparator(s[0]) then SkipSeparators(s[1..]) else s
  }

  /** Characters up to and including the brace that brings `depth` back to 0, or to the end. */
  function ScanObject(s: string, depth: nat): (n: nat)
    requires depth > 0 || (s != "" && s[0] == '{')
    ensures n <= |s| && (s != "" ==> n > 0)
  {
    if s == "" then 0
    else if s[0] == '{' then 1 + ScanObject(s[1..], depth + 1)
    else if s[0] == '}' then if depth == 1 then 1 else 1 + ScanObject(s[1..], depth - 1)
    else 1 + ScanObject(s[1..], depth)
  }

  /** The objects of the array whose text, behind its '[', is `s`. */
  function SplitObjects(s: string): seq<string>
    decreases |s|
  {
    var t := SkipSeparators(s);
    if t == "" || t[0] != '{' then []
    else
      var n := ScanObject(t, 0);
      [t[..n]] + SplitObjects(t[n..])
  }

  /** `extract_json_object_array`: the array standing behind the first such key. */
  function ObjectArray(json: string, key: string): seq<string> {
    match Find(json, Needle(key), 0)
    case None => []
    case Some(i) =>
      match Find(json, "[", i)
      case None => []
      case Some(k) => SplitObjects(json[k + 1..])
  }

  // ---- the loops ------------------------------------------------------------------------

  /** The inner loop. `depth` is an unsigned counter: it never goes below zero. */
  method ScanOne(json: string, start: nat) returns (cursor: nat)
    requires start < |json| && json[start] == '{'
    ensures cursor == start + ScanObject(json[start..], 0)
    ensures start < cursor <= |json|
  {
    var depth: nat := 0;
    cursor := start;
    while cursor < |json|
      invariant start <= cursor <= |json|
      invariant depth == 0 ==> cursor == start
      invariant cursor + ScanObject(json[cursor..], depth) == start + ScanObject(json[start..], 0)
    {
      assert json[cursor..][1..] == json[cursor + 1..];
      if json[cursor] == '{' {
        depth := depth + 1;
      } else if json[cursor] == '}' {
        depth := depth - 1;
        if depth == 0 {
          cursor := cursor + 1;
          break;
        }
      }
      cursor := cursor + 1;
    }
  }

  method SkipSeparatorsFrom(json: string, start: nat) returns (cursor: nat)
    requires start <= |json|
    ensures start <= cursor <= |json| && json[cursor..] == SkipSeparators(json[start..])
  {
    cursor := start;
    while cursor < |json| && IsSeparator(json[cursor])
      invariant start <= cursor <= |json|
      invariant SkipSeparators(json[cursor..]) == SkipSeparators(json[start..])
    {
      assert json[cursor..][1..] == json[cursor + 1..];
      cursor := cursor + 1;
    }
  }

  /** The outer loop, from just behind the '['. */
  method SplitFrom(json: string, start: nat) returns (objects: seq<string>)
    requires start <= |json|
    ensures objects == SplitObjects(json[start..])
  {
    hide SkipSeparators, ScanObject;
    objects := [];
    var cursor := start;
    while true
      invariant start <= cursor <= |json|
      invariant objects + SplitObjects(json[cursor..]) == SplitObjects(json[start..])
      decreases |json| - cursor
    {
      var begin := SkipSeparatorsFrom(json, cursor);
      if begin >= |json| || json[begin] != '{' {
        return;
      }
      var end := ScanOne(json, begin);
      SplitStep(json, cursor, begin, end);
      Associate(objects, [json[begin..end]], SplitObjects(json[end..]));
      objects := objects + [json[begin..end]];
      cursor := end;
    }
  }

  lemma SplitStep(json: string, cursor: nat, begin: nat, end: nat)
    requires cursor <= begin < end <= |json| && json[begin] == '{'
    requires json[begin..] == SkipSeparators(json[cursor..])
    requires end == begin + ScanObject(json[begin..], 0)
    ensures SplitObjects(json[cursor..]) == [json[begin..end]] + SplitObjects(json[end..])
  {
    var t := json[begin..];
    assert t[..end - begin] == json[begin..end];
    assert t[end - begin..] == json[end..];
  }

  method ExtractJsonObjectArray(json: string, key: string) returns (objects: seq<string>)
    ensures objects == ObjectArray(json, key)
  {
    hide Find, SplitObjects;
    var arrayKey := Find(json, Needle(key), 0);
    if arrayKey.None? { return []; }
    var bracket := Find(json, "[", arrayKey.value);
    if bracket.None? { return []; }
    objects := SplitFrom(json, bracket.value + 1);
  }

  // ---- balanced braces -----------------------------------------------------------------

  /** Opening minus closing braces, inside and outside strings alike. */
  function Depth(s: string): int {
    if s == "" then 0
    else Depth(s[..|s| - 1]) + (if s[|s| - 1] == '{' then 1 else if s[|s| - 1] == '}' then -1 else 0)
  }

  /** An object's text whose braces close for the first time at its end. */
  predicate Balanced(s: string) {
    && s != "" && s[0] == '{'
    && Depth(s) == 0
    && forall k | 0 < k < |s| :: Depth(s[..k]) > 0
  }

  lemma {:induction false} DepthConcat(a: string, b: string)
    ensures Depth(a + b) == Depth(a) + Depth(b)
  {
    if b == "" {
      assert a + b == a;
    } else {
      var n := |a + b| - 1;
      assert (a + b)[..n] == a + b[..|b| - 1];
      DepthConcat(a, b[..|b| - 1]);
    }
  }

  /** `s`, read from `depth`, first closes at its very end. */
  predicate Closes(s: string, depth: nat) {
    if s == "" then false
    else if s[0] == '{' then Closes(s[1..], depth + 1)
    else if s[0] == '}' then if depth <= 1 then depth == 1 && |s| == 1 else Closes(s[1..], depth - 1)
    else Closes(s[1..], depth)
  }

  lemma DepthTail(s: string, k: nat)
    requires 0 < k <= |s|
    ensures Depth(s[..k]) == Depth(s[..1]) + Depth(s[1..][..k - 1])
  {
    assert s[..k] == s[..1] + s[1..][..k - 1];
    DepthConcat(s[..1], s[1..][..k - 1]);
  }

  lemma DepthOne(s: string)
    requires s != ""
    ensures Depth(s[..1]) == if s[0] == '{' then 1 else if s[0] == '}' then -1 else 0
  {
    assert s[..1][..0] == "";
  }

  /** The running form and the counting form of "closes at its end" agree. */
  lemma {:induction false} ClosesIsCounting(s: string, depth: nat)
    requires depth > 0 || (s != "" && s[0] == '{')
    ensures Closes(s, depth) <==>
      s != "" && depth + Depth(s) == 0 && forall k | 0 < k < |s| :: depth + Depth(s[..k]) > 0
  {
    if s == "" {
      return;
    }
    DepthOne(s);
    DepthTail(s, |s|);
    assert s[..|s|] == s && s[1..][..|s| - 1] == s[1..];
    forall k | 0 < k < |s| ensures Depth(s[..k]) == Depth(s[..1]) + Depth(s[1..][..k - 1]) {
      DepthTail(s, k);
    }
    var d: int := depth + Depth(s[..1]);
    if d > 0 {
      ClosesIsCounting(s[1..], d);
      CountingShift(s, depth, d);
    } else if |s| > 1 {
      assert depth + Depth(s[..1]) <= 0;
    }
  }

  lemma CountingShift(s: string, depth: int, d: int)
    requires s != "" && d > 0 && d == depth + Depth(s[..1])
    requires forall k | 0 < k < |s| :: Depth(s[..k]) == Depth(s[..1]) + Depth(s[1..][..k - 1])
    ensures (forall k | 0 < k < |s| :: depth + Depth(s[..k]) > 0)
      <==> (forall k | 0 < k < |s[1..]| :: d + Depth(s[1..][..k]) > 0)
  {
    if forall k | 0 < k < |s| :: depth + Depth(s[..k]) > 0 {
      forall k | 0 < k < |s[1..]| ensures d + Depth(s[1..][..k]) > 0 {
        assert Depth(s[..k + 1]) == Depth(s[..1]) + Depth(s[1..][..k]);
      }
    }
    if forall k | 0 < k < |s[1..]| :: d + Depth(s[1..][..k]) > 0 {
      forall k | 0 < k < |s| ensures depth + Depth(s[..k]) > 0 {
        if k == 1 {
          assert Depth(s[1..][..0]) == 0;
        } else {
          assert d + Depth(s[1..][..k - 1]) > 0;
        }
      }
    }
  }

  lemma BalancedIsClosing(s: string)
    ensures Balanced(s) <==> s != "" && s[0] == '{' && Closes(s, 0)
  {
    if s != "" && s[0] == '{' {
      ClosesIsCounting(s, 0);
    }
  }

  /** The scan stops exactly at the end of `s`, with text left over, when `s` closes there. */
  lemma {:induction false} ScanStops(s: string, rest: string, depth: nat)
    requires s != "" && rest != "" && (depth > 0 || s[0] == '{')
    ensures ScanObject(s + rest, depth) == |s| <==> Closes(s, depth)
  {
    var t := s + rest;
    assert t[0] == s[0] && t[1..] == s[1..] + rest;
    if |s| == 1 {
      assert t[1..] == rest;
      assert s[1..] == "";
    } else if s[0] == '{' {
      ScanStops(s[1..], rest, depth + 1);
    } else if s[0] == '}' {
      if depth > 1 {
        ScanStops(s[1..], rest, depth - 1);
      }
    } else {
      ScanStops(s[1..], rest, depth);
    }
  }

  // ---- exact splitting --------------------------------------------------------------------

  predicate AllBalanced(objects: seq<string>) {
    forall i | 0 <= i < |objects| :: Balanced(objects[i])
  }

  /** One step: the first object is split off exactly when it is balanced. */
  lemma SplitHead(piece: string, rest: string)
    requires piece != "" && rest != ""
    ensures Balanced(piece) ==> SplitObjects(piece + rest) == [piece] + SplitObjects(rest)
    ensures piece[0] == '{' && SplitObjects(piece + rest) != [] && SplitObjects(piece + rest)[0] == piece
      ==> Balanced(piece)
  {
    var t := piece + rest;
    assert t[0] == piece[0];
    BalancedIsClosing(piece);
    if piece[0] == '{' {
      assert SkipSeparators(t) == t;
      ScanStops(piece, rest, 0);
      var n := ScanObject(t, 0);
      assert |t[..n]| == n;
      if n == |piece| {
        assert t[..n] == piece && t[n..] == rest;
      }
    }
  }

  lemma SplitSeparator(rest: string)
    ensures SplitObjects("," + rest) == SplitObjects(rest)
  {
    assert ("," + rest)[1..] == rest;
  }

  lemma SplitEnd(rest: string)
    ensures SplitObjects("]" + rest) == []
  {
    assert ("]" + rest)[0] == ']';
  }

  /** Behind an array's '[', the walker returns exactly the objects printed there if and only
      if each of them is balanced. */
  lemma {:induction false} SplitExactly(objects: seq<string>, tail: string)
    requires forall i | 0 <= i < |objects| :: objects[i] != "" && objects[i][0] == '{'
    ensures SplitObjects(Join(objects, ",") + "]" + tail) == objects <==> AllBalanced(objects)
  {
    hide SplitObjects, Balanced;
    if objects == [] {
      SplitEnd(tail);
      assert Join(objects, ",") + "]" + tail == "]" + tail;
    } else {
      var first, others := objects[0], objects[1..];
      assert objects == [first] + others;
      var after := Join(others, ",") + "]" + tail;
      var rest := if others == [] then "]" + tail else "," + after;
      SplitEnd(tail);
      SplitSeparator(after);
      SplitExactly(others, tail);
      assert Join(objects, ",") + "]" + tail == first + rest;
      SplitHead(first, rest);
      assert SplitObjects(rest) == others <==> AllBalanced(others);
      assert AllBalanced(objects) <==> Balanced(first) && AllBalanced(others);
    }
  }

  // ---- arrays inside documents --------------------------------------------------------------

  function PrintAll(items: seq<Json>): (r: seq<string>)
    ensures |r| == |items| && forall i | 0 <= i < |items| :: r[i] == Print(items[i])
  {
    seq(|items|, i requires 0 <= i < |items| => Print(items[i]))
  }

  lemma {:induction false} ItemsAreJoined(items: seq<Json>)
    ensures PrintItems(items) == Join(PrintAll(items), ",")
  {
    if |items| > 1 {
      ItemsAreJoined(items[1..]);
      assert PrintAll(items)[1..] == PrintAll(items[1..]);
    }
  }

  lemma KeyHasNoBracket(name: string, rest: string)
    requires IsKey(name)
    ensures Find(Needle(name) + ("[" + rest), "[", 0) == Some(|Needle(name)|)
  {
    var s := Needle(name) + ("[" + rest);
    var n := |Needle(name)|;
    assert s[n..n + 1] == "[";
    forall k | 0 <= k < n ensures !Occurs(s, "[", k) {
      assert s[k] == Needle(name)[k];
      assert s[k..k + 1][0] == s[k];
    }
    FindFirst(s, "[", 0, n);
  }

  lemma FindFrom(s: string, needle: string, from: nat)
    requires from <= |s|
    ensures var r := Find(s[from..], needle, 0);
      Find(s, needle, from) == if r.Some? then Some(r.value + from) else None
  {
    assert s == s[..from] + s[from..];
    FindShift(s[..from], s[from..], needle, from);
  }

  /** The walker's text for the first array of that name, at any depth. */
  lemma ArrayText(v: Json, key: string) returns (tail: string)
    requires Proper(v) && IsKey(key) && FirstMember(v, key).Some? && FirstMember(v, key).value.JArr?
    ensures ObjectArray(Print(v), key)
      == SplitObjects(Join(PrintAll(FirstMember(v, key).value.items), ",") + "]" + tail)
  {
    hide SplitObjects, Find, PrintItems, Join, PrintAll, FirstMember, Proper;
    var json, items := Print(v), FirstMember(v, key).value.items;
    var p, after := TextOfFirst(v, key);
    var n := |Needle(key)|;
    tail := after;
    var behind := PrintItems(items) + "]" + tail;
    assert Print(JArr(items)) + tail == "[" + behind;
    KeyHasNoBracket(key, behind);
    FindFrom(json, "[", p);
    assert json[p..][n + 1..] == behind;
    assert json[p + n + 1..] == json[p..][n + 1..];
    ItemsAreJoined(items);
  }

  /** An array of objects, anywhere inside a printed document, is split back into exactly the
      printed objects if and only if each of them is balanced. */
  lemma ArraySplitsExactly(v: Json, key: string)
    requires Proper(v) && IsKey(key) && FirstMember(v, key).Some? && FirstMember(v, key).value.JArr?
    requires forall k | 0 <= k < |FirstMember(v, key).value.items| :: FirstMember(v, key).value.items[k].JObj?
    ensures var printed := PrintAll(FirstMember(v, key).value.items);
      ObjectArray(Print(v), key) == printed <==> AllBalanced(printed)
  {
    hide SplitObjects, ObjectArray, AllBalanced, Join, FirstMember, Proper;
    var tail := ArrayText(v, key);
    SplitExactly(PrintAll(FirstMember(v, key).value.items), tail);
  }

  lemma MemberArraySplitsExactly(members: seq<Member>, i: nat)
    requires i < |members| && ProperMembers(members) && FirstMention(members, i)
    requires members[i].value.JArr? && forall k | 0 <= k < |members[i].value.items| :: members[i].value.items[k].JObj?
    ensures var printed := PrintAll(members[i].value.items);
      ObjectArray(Print(JObj(members)), members[i].name) == printed <==> AllBalanced(printed)
  {
    hide ObjectArray, AllBalanced, PrintAll, Print;
    MemberAt(members, i);
    ArraySplitsExactly(JObj(members), members[i].name);
  }

  /** Some lists are printed without their opening brace; the walker reads them the same. */
  lemma BraceIsSkipped(rest: string, key: string)
    ensures ObjectArray("{" + rest, key) == ObjectArray(rest, key)
  {
    hide Find, SplitObjects, Occurs;
    var json := "{" + rest;
    BraceIsNoQuote(rest, key);
    FindSkip(json, Needle(key), 0, 1);
    FindShift("{", rest, Needle(key), 1);
    var i := Find(rest, Needle(key), 0);
    if i.Some? {
      FindShift("{", rest, "[", i.value + 1);
      var k := Find(rest, "[", i.value);
      if k.Some? {
        assert json[k.value + 2..] == rest[k.value + 1..];
      }
    }
  }

  lemma BraceIsNoQuote(rest: string, key: string)
    ensures forall k | 0 <= k < 1 :: !Occurs("{" + rest, Needle(key), k)
  {
    var s, n := "{" + rest, Needle(key);
    assert n[0] == QUOTE;
    if |n| <= |s| {
      assert s[0..|n|][0] == '{';
    }
  }

  // ---- which objects are balanced -----------------------------------------------------------

  /** Braces that pair up: never more closed than opened, and all closed at the end. */
  predicate Paired(s: string) {
    Depth(s) == 0 && forall k | 0 <= k <= |s| :: Depth(s[..k]) >= 0
  }

  lemma PairedConcat(a: string, b: string)
    requires Paired(a) && Paired(b)
    ensures Paired(a + b)
  {
    DepthConcat(a, b);
    forall k | 0 <= k <= |a + b| ensures Depth((a + b)[..k]) >= 0 {
      if k <= |a| {
        assert (a + b)[..k] == a[..k];
      } else {
        assert (a + b)[..k] == a + b[..k - |a|];
        DepthConcat(a, b[..k - |a|]);
      }
    }
  }

  lemma PairedPlain(s: string)
    requires '{' !in s && '}' !in s
    ensures Paired(s)
  {
    forall k | 0 <= k <= |s| ensures Depth(s[..k]) == 0 {
      PlainDepth(s[..k]);
    }
    assert s[..|s|] == s;
  }

  lemma {:induction false} PlainDepth(s: string)
    requires '{' !in s && '}' !in s
    ensures Depth(s) == 0
  {
    if s != "" {
      PlainDepth(s[..|s| - 1]);
    }
  }

  lemma DepthOfEscape(c: char, k: nat)
    requires k <= |EscapeChar(c)|
    ensures Depth(EscapeChar(c)) == Depth([c])
    ensures Depth(EscapeChar(c)[..k]) == if k < |EscapeChar(c)| then 0 else Depth([c])
  {
    var e := EscapeChar(c);
    if |e| == 2 {
      PlainDepth(e);
      PlainDepth([c]);
      PlainDepth(e[..k]);
    } else {
      assert e[..1] == e && e[..0] == "";
    }
  }

  /** Escaping neither adds nor hides a brace. */
  lemma {:induction false} DepthEscaped(s: string, k: nat) returns (j: nat)
    requires k <= |Escape(s)|
    ensures j <= |s| && Depth(Escape(s)[..k]) == Depth(s[..j])
    ensures k == |Escape(s)| ==> j == |s|
  {
    if s == "" {
      j := 0;
    } else {
      var head, rest := EscapeChar(s[0]), Escape(s[1..]);
      if k < |head| {
        assert Escape(s)[..k] == head[..k];
        DepthOfEscape(s[0], k);
        assert s[..0] == "";
        j := 0;
      } else {
        var i := DepthEscaped(s[1..], k - |head|);
        assert Escape(s)[..k] == head + rest[..k - |head|];
        DepthConcat(head, rest[..k - |head|]);
        DepthOfEscape(s[0], 0);
        j := i + 1;
        assert s[..j] == [s[0]] + s[1..][..i];
        DepthConcat([s[0]], s[1..][..i]);
      }
    }
  }

  lemma PairedEscaped(s: string)
    requires Paired(s)
    ensures Paired(Escape(s))
  {
    var e := Escape(s);
    forall k | 0 <= k <= |e| ensures Depth(e[..k]) >= 0 {
      var j := DepthEscaped(s, k);
    }
    var j := DepthEscaped(s, |e|);
    assert e[..|e|] == e && s[..|s|] == s;
  }

  /** Every string value in the document has paired braces. */
  predicate TextsPaired(v: Json) {
    match v
    case JStr(text) => Paired(text)
    case JArr(items) => forall i | 0 <= i < |items| :: TextsPaired(items[i])
    case JObj(members) => forall i | 0 <= i < |members| :: TextsPaired(members[i].value)
    case _ => true
  }

  lemma PlainText(s: string, t: string, u: string)
    requires Paired(t) && '{' !in s && '}' !in s && '{' !in u && '}' !in u
    ensures Paired(s + t + u)
  {
    PairedPlain(s);
    PairedPlain(u);
    PairedConcat(s, t);
    PairedConcat(s + t, u);
  }

  lemma Braced(inner: string)
    requires Paired(inner)
    ensures Balanced("{" + inner + "}") && Paired("{" + inner + "}")
  {
    var s := "{" + inner + "}";
    DepthConcat("{" + inner, "}");
    DepthConcat("{", inner);
    assert Depth("{") == 1 && Depth("}") == -1;
    forall k | 0 < k < |s| ensures Depth(s[..k]) > 0 {
      assert s[..k] == "{" + inner[..k - 1];
      DepthConcat("{", inner[..k - 1]);
    }
    assert s[..|s|] == s && Depth(s[..0]) == 0;
  }

  /** A printed value whose strings have paired braces has paired braces itself, and an
      object is balanced. */
  lemma {:induction false} PrintPaired(v: Json)
    requires Proper(v) && TextsPaired(v)
    ensures Paired(Print(v)) && (v.JObj? ==> Balanced(Print(v)))
  {
    hide Paired, Depth, Balanced;
    match v
    case JStr(text) =>
      PairedEscaped(text);
      PlainText("\"", Escape(text), "\"");
    case JBool(_) => PairedPlain(Print(v));
    case JInt(n) => PairedPlain(Decimal(n));
    case JArr(items) =>
      ItemsPaired(items);
      PlainText("[", PrintItems(items), "]");
    case JObj(members) =>
      MembersPaired(members);
      Braced(PrintMembers(members));
  }

  lemma {:induction false} ItemsPaired(items: seq<Json>)
    requires forall i | 0 <= i < |items| :: Proper(items[i]) && TextsPaired(items[i])
    ensures Paired(PrintItems(items))
  {
    hide Paired, Depth;
    if items == [] {
      PairedPlain("");
    } else {
      PrintPaired(items[0]);
      if |items| > 1 {
        ItemsPaired(items[1..]);
        PlainText("", Print(items[0]), ",");
        assert "" + Print(items[0]) + "," == Print(items[0]) + ",";
        PairedConcat(Print(items[0]) + ",", PrintItems(items[1..]));
      }
    }
  }

  lemma {:induction false} MembersPaired(members: seq<Member>)
    requires forall i | 0 <= i < |members| ::
      IsKey(members[i].name) && Proper(members[i].value) && TextsPaired(members[i].value)
    ensures Paired(PrintMembers(members))
  {
    hide Paired, Depth;
    if members == [] {
      PairedPlain("");
    } else {
      var name, value := members[0].name, members[0].value;
      PrintPaired(value);
      PlainText(Needle(name), Print(value), "");
      var first := Needle(name) + Print(value);
      assert first + "" == first;
      if |members| > 1 {
        MembersPaired(members[1..]);
        PlainText("", first, ",");
        assert "" + first + "," == first + ",";
        PairedConcat(first + ",", PrintMembers(members[1..]));
      }
    }
  }

  /** A proper document need not pair its braces: one closing brace in a text is enough. */
  lemma DocumentNeedNotPair()
    ensures var v := JObj([Member("a", JStr("}"))]);
      Proper(v) && Print(v) == "{\"a\":\"}\"}" && Depth(Print(v)) == -1 && !Paired(Print(v))
  {
    var v := JObj([Member("a", JStr("}"))]);
    assert IsKey("a");
    var text := "}";
    assert text[1..] == "";
    assert Escape(text) == "}";
    var s := "{\"a\":\"}\"}";
    assert PrintMembers(v.members) == Needle("a") + "\"}\"";
    DepthConcat("{" + "\"a\":\"", "}" + "\"}");
    DepthConcat("{", "\"a\":\"");
    DepthConcat("}" + "\"", "}");
    DepthConcat("}", "\"");
    PlainDepth("\"a\":\"");
    PlainDepth("\"");
    OneBrace();
    assert s == ("{" + "\"a\":\"") + ("}" + "\"}");
    assert "}" + "\"}" == ("}" + "\"") + "}";
  }

  lemma OneBrace()
    ensures Depth("{") == 1 && Depth("}") == -1
  {
    assert "{"[..0] == "" && "}"[..0] == "";
  }
}
