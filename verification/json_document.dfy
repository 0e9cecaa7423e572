/** Whole documents: how the program prints nested values, and what a search-and-decode
    lookup returns on the printed text. */
module JsonDocument {
  import opened Text
  import opened JsonCodec
  import opened JsonTokens
  import opened JsonLookup

  datatype Json =
    | JStr(text: string)
    | JBool(flag: bool)
    | JInt(n: int)
    | JArr(items: seq<Json>)
    | JObj(members: seq<Member>)

  datatype Member = Member(name: string, value: Json)

  // ---- printing ------------------------------------------------------------

  function Print(v: Json): string {
    match v
    case JStr(text) => "\"" + Escape(text) + "\""
    case JBool(flag) => if flag then "true" else "false"
    case JInt(n) => Decimal(n)
    case JArr(items) => "[" + PrintItems(items) + "]"
    case JObj(members) => "{" + PrintMembers(members) + "}"
  }

  function PrintItems(items: seq<Json>): string {
    if items == [] then ""
    else if |items| == 1 then Print(items[0])
    else Print(items[0]) + "," + PrintItems(items[1..])
  }

  function PrintMembers(members: seq<Member>): string {
    if members == [] then ""
    else
      var first := Needle(members[0].name) + Print(members[0].value);
      if |members| == 1 then first else first + "," + PrintMembers(members[1..])
  }

  // ---- the same as tokens ------------------------------------------------------

  function Tokens(v: Json): seq<Token> {
    match v
    case JStr(text) => [Str(text)]
    case JBool(flag) => [Flag(flag)]
    case JInt(n) => [Number(n)]
    case JArr(items) => [Mark('[')] + ItemTokens(items) + [Mark(']')]
    case JObj(members) => [Mark('{')] + MemberTokens(members) + [Mark('}')]
  }

  function ItemTokens(items: seq<Json>): seq<Token> {
    if items == [] then []
    else if |items| == 1 then Tokens(items[0])
    else Tokens(items[0]) + [Mark(',')] + ItemTokens(items[1..])
  }

  function MemberTokens(members: seq<Member>): seq<Token> {
    if members == [] then []
    else
      var first := [Key(members[0].name)] + Tokens(members[0].value);
      if |members| == 1 then first else first + [Mark(',')] + MemberTokens(members[1..])
  }

  lemma RenderOne(t: Token)
    ensures Render([t]) == RenderToken(t)
  {
    assert [t][1..] == [];
  }

  lemma RenderAround(open: Token, ts: seq<Token>, close: Token)
    ensures Render([open] + ts + [close]) == RenderToken(open) + Render(ts) + RenderToken(close)
  {
    RenderConcat([open] + ts, [close]);
    RenderConcat([open], ts);
    RenderOne(open);
    RenderOne(close);
  }

  lemma RenderBetween(a: seq<Token>, comma: Token, b: seq<Token>)
    ensures Render(a + [comma] + b) == Render(a) + RenderToken(comma) + Render(b)
  {
    RenderConcat(a + [comma], b);
    RenderConcat(a, [comma]);
    RenderOne(comma);
  }

  lemma {:induction false} PrintIsRender(v: Json)
    ensures Print(v) == Render(Tokens(v))
  {
    hide Render;
    match v
    case JStr(_) => RenderOne(Tokens(v)[0]);
    case JBool(_) => RenderOne(Tokens(v)[0]);
    case JInt(_) => RenderOne(Tokens(v)[0]);
    case JArr(items) =>
      ItemsAreRendered(items);
      RenderAround(Mark('['), ItemTokens(items), Mark(']'));
    case JObj(members) =>
      MembersAreRendered(members);
      RenderAround(Mark('{'), MemberTokens(members), Mark('}'));
  }

  lemma {:induction false} ItemsAreRendered(items: seq<Json>)
    ensures PrintItems(items) == Render(ItemTokens(items))
  {
    if items != [] {
      PrintIsRender(items[0]);
      if |items| > 1 {
        ItemsAreRendered(items[1..]);
        RenderBetween(Tokens(items[0]), Mark(','), ItemTokens(items[1..]));
      }
    }
  }

  lemma {:induction false} MembersAreRendered(members: seq<Member>)
    ensures PrintMembers(members) == Render(MemberTokens(members))
  {
    if members != [] {
      var key, value := Key(members[0].name), members[0].value;
      PrintIsRender(value);
      RenderConcat([key], Tokens(value));
      RenderOne(key);
      if |members| > 1 {
        MembersAreRendered(members[1..]);
        RenderBetween([key] + Tokens(value), Mark(','), MemberTokens(members[1..]));
      }
    }
  }

  // ---- proper documents ------------------------------------------------------------

  /** Keys are identifiers and integers fit 64 bits; string values are unrestricted. */
  predicate Proper(v: Json) {
    match v
    case JInt(n) => IsInt64(n)
    case JArr(items) => forall i | 0 <= i < |items| :: Proper(items[i])
    case JObj(members) => forall i | 0 <= i < |members| :: IsKey(members[i].name) && Proper(members[i].value)
    case _ => true
  }

  predicate ProperMembers(members: seq<Member>) {
    forall i | 0 <= i < |members| :: IsKey(members[i].name) && Proper(members[i].value)
  }

  /** A token sequence that ends with a value. */
  predicate Closed(ts: seq<Token>) {
    ts != [] && WellFormed(ts) && !ts[|ts| - 1].Key?
  }

  lemma {:induction false} LastFits(ts: seq<Token>)
    requires ts != [] && WellFormed(ts)
    ensures Fits(ts[|ts| - 1], None)
  {
    if |ts| > 1 {
      LastFits(ts[1..]);
    }
  }

  lemma MarkInFront(mark: Token, b: seq<Token>)
    requires mark.Mark? && IsMark(mark.c) && WellFormed(b)
    ensures WellFormed([mark] + b)
  {
    assert ([mark] + b)[1..] == b;
  }

  lemma MarkMayFollow(a: seq<Token>, mark: Token)
    requires Closed(a) && mark.Mark? && EndsValue(mark.c)
    ensures Fits(a[|a| - 1], Some(mark))
  {
    LastFits(a);
  }

  /** Punctuation may follow a value, and anything proper may follow punctuation. */
  lemma Punctuate(a: seq<Token>, mark: Token, b: seq<Token>)
    requires a == [] || Closed(a)
    requires mark.Mark? && EndsValue(mark.c) && WellFormed(b)
    ensures WellFormed(a + [mark] + b)
  {
    MarkInFront(mark, b);
    assert a + [mark] + b == a + ([mark] + b);
    if a != [] {
      MarkMayFollow(a, mark);
    }
    WellFormedConcat(a, [mark] + b);
  }

  lemma Enclose(open: Token, inner: seq<Token>, close: Token)
    requires open.Mark? && IsMark(open.c) && close.Mark? && EndsValue(close.c)
    requires inner == [] || Closed(inner)
    ensures Closed([open] + inner + [close])
  {
    hide WellFormed, EndsValue;
    EmptyForm();
    Punctuate(inner, close, []);
    assert inner + [close] + [] == inner + [close];
    MarkInFront(open, inner + [close]);
    assert [open] + (inner + [close]) == [open] + inner + [close];
  }

  lemma EmptyForm()
    ensures WellFormed([])
  {
  }

  lemma SingleForm(t: Token)
    requires Fits(t, None)
    ensures WellFormed([t])
  {
    assert [t][1..] == [];
  }

  lemma KeyInFront(name: string, ts: seq<Token>)
    requires IsKey(name) && Closed(ts)
    ensures Closed([Key(name)] + ts)
  {
    assert ([Key(name)] + ts)[1..] == ts;
  }

  lemma {:induction false} TokensForm(v: Json)
    requires Proper(v)
    ensures Closed(Tokens(v)) && !Tokens(v)[0].Key? && !IsBlankMark(Tokens(v)[0])
  {
    hide WellFormed;
    match v
    case JArr(items) =>
      ItemsForm(items);
      Enclose(Mark('['), ItemTokens(items), Mark(']'));
    case JObj(members) =>
      MembersForm(members);
      Enclose(Mark('{'), MemberTokens(members), Mark('}'));
    case _ => SingleForm(Tokens(v)[0]);
  }

  lemma {:induction false} ItemsForm(items: seq<Json>)
    requires forall i | 0 <= i < |items| :: Proper(items[i])
    ensures items == [] || Closed(ItemTokens(items))
  {
    hide WellFormed;
    if items != [] {
      TokensForm(items[0]);
      if |items| > 1 {
        ItemsForm(items[1..]);
        Punctuate(Tokens(items[0]), Mark(','), ItemTokens(items[1..]));
      }
    }
  }

  lemma {:induction false} MembersForm(members: seq<Member>)
    requires ProperMembers(members)
    ensures members == [] || Closed(MemberTokens(members))
  {
    hide WellFormed;
    if members != [] {
      TokensForm(members[0].value);
      KeyInFront(members[0].name, Tokens(members[0].value));
      if |members| > 1 {
        MembersForm(members[1..]);
        Punctuate([Key(members[0].name)] + Tokens(members[0].value), Mark(','), MemberTokens(members[1..]));
      }
    }
  }

  // ---- lookup in a document -----------------------------------------------------------

  /** The value of the first `key` in reading order, at any depth. */
  function FirstMember(v: Json, key: string): Option<Json> {
    match v
    case JArr(items) => FirstInItems(items, key)
    case JObj(members) => FirstInMembers(members, key)
    case _ => None
  }

  function FirstInItems(items: seq<Json>, key: string): Option<Json> {
    if items == [] then None
    else if FirstMember(items[0], key).Some? then FirstMember(items[0], key)
    else FirstInItems(items[1..], key)
  }

  function FirstInMembers(members: seq<Member>, key: string): Option<Json> {
    if members == [] then None
    else if members[0].name == key then Some(members[0].value)
    else if FirstMember(members[0].value, key).Some? then FirstMember(members[0].value, key)
    else FirstInMembers(members[1..], key)
  }

  /** The token a value begins with: the value itself unless it is an array or object. */
  function FirstToken(v: Option<Json>): Option<Token> {
    match v
    case None => None
    case Some(w) => Some(Tokens(w)[0])
  }

  lemma {:induction false} FirstKeyConcat(a: seq<Token>, b: seq<Token>, key: string)
    ensures FirstKey(a + b, key) ==
      if FirstKey(a, key).Some? then FirstKey(a, key)
      else if FirstKey(b, key).Some? then Some(|a| + FirstKey(b, key).value)
      else None
  {
    if a == [] {
      assert a + b == b;
    } else {
      assert (a + b)[1..] == a[1..] + b;
      FirstKeyConcat(a[1..], b, key);
    }
  }

  lemma {:induction false} FirstValueConcat(a: seq<Token>, b: seq<Token>)
    requires FirstValue(a).Some?
    ensures FirstValue(a + b) == FirstValue(a)
  {
    if IsBlankMark(a[0]) {
      assert (a + b)[1..] == a[1..] + b;
      assert a[1..][Blanks(a[1..])..] == a[Blanks(a)..];
      assert (a + b)[1..][Blanks((a + b)[1..])..] == (a + b)[Blanks(a + b)..];
      FirstValueConcat(a[1..], b);
    }
  }

  /** A lookup succeeding in the first part is not changed by what follows. */
  lemma LookupFirst(a: seq<Token>, b: seq<Token>, key: string)
    requires Lookup(a, key).Some?
    ensures Lookup(a + b, key) == Lookup(a, key)
  {
    FirstKeyConcat(a, b, key);
    var j := FirstKey(a, key).value;
    assert (a + b)[j + 1..] == a[j + 1..] + b;
    FirstValueConcat(a[j + 1..], b);
  }

  lemma LookupSecond(a: seq<Token>, b: seq<Token>, key: string)
    requires FirstKey(a, key).None?
    ensures Lookup(a + b, key) == Lookup(b, key)
    ensures FirstKey(b, key).None? ==> FirstKey(a + b, key).None?
  {
    FirstKeyConcat(a, b, key);
    var j := FirstKey(b, key);
    if j.Some? {
      assert (a + b)[|a| + j.value + 1..] == b[j.value + 1..];
    }
  }

  /** The token lookup in `ts` gives what the document search gave, and the whole value found
      stands right behind its key. */
  predicate Agrees(ts: seq<Token>, key: string, found: Option<Json>) {
    && Lookup(ts, key) == FirstToken(found)
    && (found.None? ==> FirstKey(ts, key).None?)
    && (found.Some? ==> FirstKey(ts, key).Some? && Tokens(found.value) <= ts[FirstKey(ts, key).value + 1..])
  }

  lemma AgreesConcat(a: seq<Token>, b: seq<Token>, key: string, inA: Option<Json>, inB: Option<Json>)
    requires Agrees(a, key, inA) && Agrees(b, key, inB)
    ensures Agrees(a + b, key, if inA.Some? then inA else inB)
  {
    hide Tokens, Lookup;
    FirstKeyConcat(a, b, key);
    if inA.Some? {
      LookupFirst(a, b, key);
      var j := FirstKey(a, key).value;
      assert (a + b)[j + 1..] == a[j + 1..] + b;
    } else {
      LookupSecond(a, b, key);
      if inB.Some? {
        var j := FirstKey(b, key).value;
        assert (a + b)[|a| + j + 1..] == b[j + 1..];
      }
    }
  }

  lemma MarkHasNoKey(c: char, key: string)
    ensures Agrees([Mark(c)], key, None)
  {
    assert [Mark(c)][1..] == [];
  }

  lemma AgreesAround(open: char, ts: seq<Token>, close: char, key: string, found: Option<Json>)
    requires Agrees(ts, key, found)
    ensures Agrees([Mark(open)] + ts + [Mark(close)], key, found)
  {
    hide Agrees;
    MarkHasNoKey(open, key);
    MarkHasNoKey(close, key);
    AgreesConcat([Mark(open)], ts, key, None, found);
    AgreesConcat([Mark(open)] + ts, [Mark(close)], key, found, None);
  }

  lemma AgreesBetween(a: seq<Token>, comma: char, b: seq<Token>, key: string, inA: Option<Json>, inB: Option<Json>)
    requires Agrees(a, key, inA) && Agrees(b, key, inB)
    ensures Agrees(a + [Mark(comma)] + b, key, if inA.Some? then inA else inB)
  {
    hide Agrees;
    MarkHasNoKey(comma, key);
    AgreesConcat(a, [Mark(comma)], key, inA, None);
    AgreesConcat(a + [Mark(comma)], b, key, inA, inB);
  }

  /** The lookup finds the first such member in reading order, however deep. */
  lemma {:induction false} LookupInDocument(v: Json, key: string)
    requires Proper(v)
    ensures Agrees(Tokens(v), key, FirstMember(v, key))
  {
    match v
    case JArr(items) =>
      LookupInItems(items, key);
      AgreesAround('[', ItemTokens(items), ']', key, FirstMember(v, key));
    case JObj(members) =>
      LookupInMembers(members, key);
      AgreesAround('{', MemberTokens(members), '}', key, FirstMember(v, key));
    case _ =>
      assert Tokens(v)[1..] == [];
  }

  lemma {:induction false} LookupInItems(items: seq<Json>, key: string)
    requires forall i | 0 <= i < |items| :: Proper(items[i])
    ensures Agrees(ItemTokens(items), key, FirstInItems(items, key))
  {
    if items != [] {
      LookupInDocument(items[0], key);
      if |items| > 1 {
        LookupInItems(items[1..], key);
        AgreesBetween(Tokens(items[0]), ',', ItemTokens(items[1..]), key,
          FirstMember(items[0], key), FirstInItems(items[1..], key));
      }
    }
  }

  /** A member is found under its own name, or inside its value. */
  lemma LookupInMember(name: string, v: Json, key: string)
    requires Proper(v) && Agrees(Tokens(v), key, FirstMember(v, key))
    ensures Agrees([Key(name)] + Tokens(v), key, if name == key then Some(v) else FirstMember(v, key))
  {
    var ts := [Key(name)] + Tokens(v);
    assert ts[1..] == Tokens(v);
    if name == key {
      TokensForm(v);
      assert FirstKey(ts, key) == Some(0);
      assert Tokens(v)[0..] == Tokens(v);
    } else {
      assert [Key(name)][1..] == [];
      AgreesConcat([Key(name)], Tokens(v), key, None, FirstMember(v, key));
    }
  }

  lemma {:induction false} LookupInMembers(members: seq<Member>, key: string)
    requires ProperMembers(members)
    ensures Agrees(MemberTokens(members), key, FirstInMembers(members, key))
  {
    hide Agrees;
    if members == [] {
      NothingAgrees(key);
    } else {
      var name, v := members[0].name, members[0].value;
      LookupInDocument(v, key);
      LookupInMember(name, v, key);
      var first := if name == key then Some(v) else FirstMember(v, key);
      if |members| > 1 {
        LookupInMembers(members[1..], key);
        AgreesBetween([Key(name)] + Tokens(v), ',', MemberTokens(members[1..]), key,
          first, FirstInMembers(members[1..], key));
      }
    }
  }

  lemma NothingAgrees(key: string)
    ensures Agrees([], key, None)
  {
  }

  // ---- the main results ------------------------------------------------------------------

  function StringOf(v: Option<Json>): string {
    if v.Some? && v.value.JStr? then v.value.text else ""
  }

  function BoolOf(v: Option<Json>): Option<bool> {
    if v.Some? && v.value.JBool? then Some(v.value.flag) else None
  }

  function IntegerOf(v: Option<Json>): IntResult {
    if v.Some? && v.value.JInt? then Int(v.value.n) else NoInt
  }

  /** Every reader returns exactly the value of the first such member of the document. */
  lemma ReadBack(v: Json, key: string)
    requires Proper(v) && IsKey(key)
    ensures StringField(Print(v), key, 0) == StringOf(FirstMember(v, key))
    ensures BoolField(Print(v), key, 0) == BoolOf(FirstMember(v, key))
    ensures IntField(Print(v), key, 0) == IntegerOf(FirstMember(v, key))
  {
    hide WellFormed, StringField, BoolField, IntField, Proper, Lookup, Tokens, FirstMember;
    PrintIsRender(v);
    TokensForm(v);
    LookupInDocument(v, key);
    StringLookup(Tokens(v), key);
    BoolLookup(Tokens(v), key);
    IntLookup(Tokens(v), key);
    FirstTokenKind(FirstMember(v, key));
  }

  lemma FirstTokenKind(v: Option<Json>)
    ensures TextOf(FirstToken(v)) == StringOf(v) && FlagOf(FirstToken(v)) == BoolOf(v)
    ensures IntOf(FirstToken(v)) == IntegerOf(v)
  {
  }

  /** In a flat or nested object: the first member of that name, unless an earlier value
      holds one deeper down. */
  lemma {:induction false} MemberAt(members: seq<Member>, i: nat)
    requires i < |members|
    requires forall j | 0 <= j < i ::
      members[j].name != members[i].name && FirstMember(members[j].value, members[i].name).None?
    ensures FirstInMembers(members, members[i].name) == Some(members[i].value)
  {
    if i > 0 {
      MemberAt(members[1..], i - 1);
    }
  }

  lemma {:induction false} MemberAbsent(members: seq<Member>, key: string)
    requires forall j | 0 <= j < |members| ::
      members[j].name != key && FirstMember(members[j].value, key).None?
    ensures FirstInMembers(members, key).None?
  {
    if members != [] {
      MemberAbsent(members[1..], key);
    }
  }

  // ---- the text from a member on -----------------------------------------------------------

  /** The first mention of member `i`'s key is member `i` itself. */
  predicate FirstMention(members: seq<Member>, i: nat)
    requires i < |members|
  {
    forall j | 0 <= j < i ::
      members[j].name != members[i].name && FirstMember(members[j].value, members[i].name).None?
  }

  lemma {:induction false} MemberSlice(members: seq<Member>, i: nat) returns (j: nat)
    requires i < |members| && ProperMembers(members) && FirstMention(members, i)
    ensures j <= |MemberTokens(members)|
    ensures FirstKey(MemberTokens(members), members[i].name) == Some(j)
    ensures MemberTokens(members)[j..] == MemberTokens(members[i..])
  {
    hide MemberTokens, FirstKey, FirstMember, Tokens, Proper;
    var key := members[i].name;
    MemberTokensStep(members);
    if i == 0 {
      j := 0;
      assert MemberTokens(members)[0] == Key(key);
      FirstKeyAtHead(MemberTokens(members), key);
      assert MemberTokens(members)[0..] == MemberTokens(members) && members[0..] == members;
    } else {
      var first := [Key(members[0].name)] + Tokens(members[0].value) + [Mark(',')];
      var rest := MemberTokens(members[1..]);
      var k := MemberSlice(members[1..], i - 1);
      NoKeyInFirst(members[0], key);
      FirstKeyConcat(first, rest, key);
      j := |first| + k;
      assert (first + rest)[j..] == rest[k..];
      assert members[1..][i - 1..] == members[i..];
    }
  }

  lemma MemberTokensStep(members: seq<Member>)
    requires members != []
    ensures MemberTokens(members) != [] && MemberTokens(members)[0] == Key(members[0].name)
    ensures |members| > 1 ==>
      MemberTokens(members)
        == [Key(members[0].name)] + Tokens(members[0].value) + [Mark(',')] + MemberTokens(members[1..])
  {
  }

  lemma FirstKeyAtHead(ts: seq<Token>, key: string)
    requires ts != [] && ts[0] == Key(key)
    ensures FirstKey(ts, key) == Some(0)
  {
  }

  lemma NoKeyInFirst(m: Member, key: string)
    requires Proper(m.value) && m.name != key && FirstMember(m.value, key).None?
    ensures FirstKey([Key(m.name)] + Tokens(m.value) + [Mark(',')], key).None?
  {
    LookupInDocument(m.value, key);
    LookupInMember(m.name, m.value, key);
    MarkHasNoKey(',', key);
    AgreesConcat([Key(m.name)] + Tokens(m.value), [Mark(',')], key, None, None);
  }

  /** Searching for a key lands on its member: from there on the text is that member and the
      ones behind it. */
  lemma TextFromMember(members: seq<Member>, i: nat) returns (p: nat)
    requires i < |members| && ProperMembers(members) && FirstMention(members, i)
    ensures Find(Print(JObj(members)), Needle(members[i].name), 0) == Some(p)
    ensures p <= |Print(JObj(members))|
    ensures Print(JObj(members))[p..] == PrintMembers(members[i..]) + "}"
  {
    hide WellFormed, Find, FirstKey, Render, PrintMembers, MemberTokens, Offset;
    var v, key := JObj(members), members[i].name;
    var ts := Tokens(v);
    var inner := MemberTokens(members);
    var j := MemberSlice(members, i);
    FirstKeyConcat(inner, [Mark('}')], key);
    FirstKeyConcat([Mark('{')], inner + [Mark('}')], key);
    MarkHasNoKey('{', key);
    assert ts == [Mark('{')] + (inner + [Mark('}')]);
    assert ts[j + 1..] == inner[j..] + [Mark('}')];
    PrintIsRender(v);
    TokensForm(v);
    FindKey(ts, key);
    RenderDrop(ts, j + 1);
    RenderConcat(inner[j..], [Mark('}')]);
    RenderOne(Mark('}'));
    MembersAreRendered(members[i..]);
    p := Offset(ts, j + 1);
  }

  /** Searching for any key of a document lands where its first value stands. */
  lemma TextOfFirst(v: Json, key: string) returns (p: nat, tail: string)
    requires Proper(v) && IsKey(key) && FirstMember(v, key).Some?
    ensures Find(Print(v), Needle(key), 0) == Some(p)
    ensures p <= |Print(v)|
    ensures Print(v)[p..] == Needle(key) + (Print(FirstMember(v, key).value) + tail)
  {
    hide WellFormed, Find, Agrees, Tokens, Print, FirstMember, Proper, Render;
    var found := FirstMember(v, key).value;
    PrintIsRender(v);
    PrintIsRender(found);
    TokensForm(v);
    LookupInDocument(v, key);
    p, tail := TextBehindKey(Tokens(v), key, found);
  }

  lemma TextBehindKey(ts: seq<Token>, key: string, found: Json) returns (p: nat, tail: string)
    requires WellFormed(ts) && IsKey(key) && Agrees(ts, key, Some(found))
    ensures Find(Render(ts), Needle(key), 0) == Some(p)
    ensures p <= |Render(ts)|
    ensures Render(ts)[p..] == Needle(key) + (Render(Tokens(found)) + tail)
  {
    hide WellFormed, Find, FirstKey, Lookup, Tokens, Offset, Render;
    FindKey(ts, key);
    var j := FirstKey(ts, key).value;
    RenderDrop(ts, j);
    p := Offset(ts, j);
    RenderHead(ts[j..], key);
    assert ts[j..][1..] == ts[j + 1..];
    tail := RenderPrefix(Tokens(found), ts[j + 1..]);
  }

  lemma RenderHead(ts: seq<Token>, key: string)
    requires ts != [] && ts[0] == Key(key)
    ensures Render(ts) == Needle(key) + Render(ts[1..])
  {
  }

  lemma RenderPrefix(a: seq<Token>, ts: seq<Token>) returns (tail: string)
    requires a <= ts
    ensures Render(ts) == Render(a) + tail
  {
    hide Render;
    assert ts == a + ts[|a|..];
    RenderConcat(a, ts[|a|..]);
    tail := Render(ts[|a|..]);
  }

  /** Looking a key up from a member on, as on a text sliced there. */
  lemma ReadFromMember(members: seq<Member>, key: string)
    requires ProperMembers(members) && members != [] && IsKey(key)
    ensures StringField(PrintMembers(members) + "}", key, 0) == StringOf(FirstInMembers(members, key))
    ensures BoolField(PrintMembers(members) + "}", key, 0) == BoolOf(FirstInMembers(members, key))
  {
    hide WellFormed, StringField, BoolField, Lookup, MemberTokens, PrintMembers, FirstInMembers, Render;
    var ts := MemberTokens(members) + [Mark('}')];
    MembersForm(members);
    EmptyForm();
    Punctuate(MemberTokens(members), Mark('}'), []);
    assert MemberTokens(members) + [Mark('}')] + [] == ts;
    MembersAreRendered(members);
    RenderConcat(MemberTokens(members), [Mark('}')]);
    RenderOne(Mark('}'));
    LookupInMembers(members, key);
    MarkHasNoKey('}', key);
    AgreesConcat(MemberTokens(members), [Mark('}')], key, FirstInMembers(members, key), None);
    StringLookup(ts, key);
    BoolLookup(ts, key);
    FirstTokenKind(FirstInMembers(members, key));
  }

  /** The search text of a key is in the printed document exactly when the key is. */
  lemma KeyIsFound(v: Json, key: string)
    requires Proper(v) && IsKey(key)
    ensures Find(Print(v), Needle(key), 0).Some? <==> FirstMember(v, key).Some?
  {
    hide WellFormed, Find, Render, Proper, Tokens, FirstMember, FirstValue;
    PrintIsRender(v);
    TokensForm(v);
    LookupInDocument(v, key);
    FindKey(Tokens(v), key);
  }

  lemma {:induction false} FirstInBoth(a: seq<Member>, b: seq<Member>, key: string)
    ensures FirstInMembers(a + b, key)
      == if FirstInMembers(a, key).Some? then FirstInMembers(a, key) else FirstInMembers(b, key)
  {
    if a == [] {
      assert a + b == b;
    } else {
      assert (a + b)[1..] == a[1..] + b;
      FirstInBoth(a[1..], b, key);
    }
  }

  lemma FirstInOne(m: Member, key: string)
    ensures FirstInMembers([m], key) == if m.name == key then Some(m.value) else FirstMember(m.value, key)
  {
    assert [m][1..] == [];
  }

  lemma FirstInThree(m: Member, n: Member, o: Member, key: string)
    ensures FirstInMembers([m, n, o], key) ==
      if FirstInMembers([m], key).Some? then FirstInMembers([m], key)
      else if FirstInMembers([n], key).Some? then FirstInMembers([n], key)
      else FirstInMembers([o], key)
  {
    hide FirstInMembers;
    assert [m, n, o] == [m] + ([n] + [o]);
    FirstInBoth([m], [n] + [o], key);
    FirstInBoth([n], [o], key);
  }

  lemma {:induction false} PrintTogether(a: seq<Member>, b: seq<Member>)
    requires a != [] && b != []
    ensures PrintMembers(a + b) == PrintMembers(a) + "," + PrintMembers(b)
  {
    assert (a + b)[1..] == a[1..] + b;
    if |a| > 1 {
      PrintTogether(a[1..], b);
    } else {
      assert a[1..] + b == b;
    }
  }

  lemma MembersMakeProper(members: seq<Member>)
    requires ProperMembers(members)
    ensures Proper(JObj(members))
  {
  }

  // ---- printing a list ---------------------------------------------------------------------

  lemma {:induction false} PrintAppended(items: seq<Json>, item: Json)
    ensures PrintItems(items + [item]) == PrintItems(items) + ((if items == [] then "" else ",") + Print(item))
  {
    if items == [] {
      assert items + [item] == [item];
    } else {
      assert (items + [item])[1..] == items[1..] + [item];
      PrintAppended(items[1..], item);
      if |items| > 1 {
        Associate(Print(items[0]) + ",", PrintItems(items[1..]), "," + Print(item));
      }
    }
  }

  lemma PrintNoItems()
    ensures PrintItems([]) == ""
  {
  }

  /** The loop by which every list is streamed: a comma before each item but the first. */
  method StreamItems(items: seq<Json>) returns (text: string)
    ensures text == PrintItems(items)
  {
    hide PrintItems, Print;
    PrintNoItems();
    text := "";
    for index := 0 to |items|
      invariant text == PrintItems(items[..index])
    {
      PrintAppended(items[..index], items[index]);
      assert items[..index + 1] == items[..index] + [items[index]];
      text := text + ((if index > 0 then "," else "") + Print(items[index]));
    }
    assert items[..|items|] == items;
  }
}
