/** What the walker lets through of a printed object, and what the field readers then make of it.
    It counts braces inside texts, so an object is cut at the brace that seems to close it. */
module CutObjects {
  import opened Text
  import opened JsonCodec
  import opened JsonTokens
  import opened JsonLookup
  import opened JsonDocument
  import opened BraceWalker
  import opened BraceScan

  // ---- pieces -------------------------------------------------------------------------------

  lemma ObjectBegins(v: Json)
    requires v.JObj?
    ensures Print(v) != "" && Print(v)[0] == '{'
  {
  }

  lemma SplitFirst(s: string)
    requires s != "" && s[0] == '{'
    ensures SplitObjects(s) != [] && SplitObjects(s)[0] == s[..ScanObject(s, 0)]
  {
    hide ScanObject;
    assert SkipSeparators(s) == s;
  }

  lemma JoinHead(pieces: seq<string>)
    requires pieces != []
    ensures Join(pieces, ",") == pieces[0] + (if |pieces| == 1 then "" else "," + Join(pieces[1..], ","))
  {
  }

  lemma PrefixOccurs(s: string, n: nat, needle: string, i: int)
    requires n <= |s|
    ensures Occurs(s[..n], needle, i) <==> (i + |needle| <= n && Occurs(s, needle, i))
  {
    if 0 <= i && i + |needle| <= n {
      assert s[..n][i..i + |needle|] == s[i..i + |needle|];
    }
  }

  lemma PartOccurs(a: string, b: string, needle: string, i: int)
    requires i + |needle| <= |a|
    ensures Occurs(a + b, needle, i) <==> Occurs(a, needle, i)
  {
    PrefixOccurs(a + b, |a|, needle, i);
    assert (a + b)[..|a|] == a;
  }

  lemma FoundFits(s: string, needle: string)
    requires Find(s, needle, 0).Some?
    ensures Find(s, needle, 0).value + |needle| <= |s|
  {
  }

  // ---- what is read of a piece --------------------------------------------------------------

  /** The piece the walker takes of an object printed in front of `rest`. */
  function Piece(item: Json, rest: string): string
    requires item.JObj?
  {
    ObjectBegins(item);
    var s := Print(item) + rest;
    s[..ScanObject(s, 0)]
  }

  /** Where the value of `key` begins in the printed object. */
  lemma ValueBegins(item: Json, key: string) returns (p: nat, tail: string)
    requires item.JObj? && Proper(item) && IsKey(key) && FirstMember(item, key).Some?
    ensures var c, q := Print(item), p + |Needle(key)|;
      && Find(c, Needle(key), 0) == Some(p) && 0 < q <= |c|
      && c[q..] == Print(FirstMember(item, key).value) + tail
      && (forall k | p <= k < q :: c[k] != '}' && c[k] != '{')
  {
    hide FirstMember, Proper, Find, Print, IsKey;
    p, tail := TextOfFirst(item, key);
    var c, n := Print(item), Needle(key);
    var behind := Print(FirstMember(item, key).value) + tail;
    assert c[p..][|n|..] == behind;
    KeyIsPlain(key);
    forall k | p <= k < p + |n| ensures c[k] != '}' && c[k] != '{' {
      assert c[k] == (n + behind)[k - p];
      assert n[k - p] in n;
    }
  }

  lemma KeyIsPlain(key: string)
    requires IsKey(key)
    ensures '{' !in Needle(key) && '}' !in Needle(key) && |Needle(key)| > 0
  {
    forall i | 0 <= i < |Needle(key)| ensures Needle(key)[i] != '{' && Needle(key)[i] != '}' {
      if 0 < i <= |key| {
        assert Needle(key)[i] == key[i - 1] && IsKeyChar(key[i - 1]);
      }
    }
  }

  /** A field whose key the piece does not reach. */
  lemma CutBeforeKey(item: Json, rest: string, key: string, p: nat)
    requires item.JObj? && Find(Print(item), Needle(key), 0) == Some(p)
    requires var q := p + |Needle(key)|; q <= |Print(item)| && !StaysOpen(Print(item)[..q], 0)
    requires forall k | p <= k < p + |Needle(key)| :: Print(item)[k] != '}'
    ensures var piece := Piece(item, rest);
      |piece| <= p && Find(piece, Needle(key), 0).None?
      && StringField(piece, key, 0) == "" && BoolField(piece, key, 0).None? && IntField(piece, key, 0).NoInt?
  {
    hide Find, StaysOpen, Print, StringAt, ScanObject;
    ObjectBegins(item);
    var c := Print(item);
    var a, b := c[..p + |Needle(key)|], c[p + |Needle(key)|..] + rest;
    assert c + rest == a + b;
    assert a != "" by { if a == "" { NothingStaysOpen(0); } }
    assert a[0] == c[0];
    ScanStopsInside(a, b, 0);
    PieceLacksNeedle(c, rest, Needle(key), p, |Piece(item, rest)|);
  }

  lemma PieceLacksNeedle(c: string, rest: string, needle: string, p: nat, n: nat)
    requires needle != "" && Find(c, needle, 0) == Some(p) && n <= p
    ensures n <= |c + rest| && Find((c + rest)[..n], needle, 0).None?
  {
    hide Find, Occurs;
    FindFound(c, needle, 0);
    FoundFits(c, needle);
    var piece := (c + rest)[..n];
    forall k: nat ensures !Occurs(piece, needle, k) {
      PrefixOccurs(c + rest, n, needle, k);
      if k + |needle| <= n {
        PartOccurs(c, rest, needle, k);
      }
    }
    FindNothing(piece, needle, 0);
  }

  /** A piece that reaches beyond the key: the search lands there. */
  lemma PieceFindsKey(c: string, rest: string, needle: string, p: nat, n: nat)
    requires Find(c, needle, 0) == Some(p) && p + |needle| <= n <= |c + rest|
    ensures Find((c + rest)[..n], needle, 0) == Some(p)
  {
    hide Find, Occurs;
    FindFound(c, needle, 0);
    FoundFits(c, needle);
    forall k | 0 <= k <= p ensures Occurs((c + rest)[..n], needle, k) <==> Occurs(c, needle, k) {
      PrefixOccurs(c + rest, n, needle, k);
      PartOccurs(c, rest, needle, k);
    }
    FindFirst((c + rest)[..n], needle, 0, p);
  }

  /** The piece of an object that stays open up to `q` reaches beyond it: what it holds from
      there on is what a scan of the rest lets through. */
  lemma PieceBeyond(item: Json, rest: string, q: nat)
    requires item.JObj? && 0 < q <= |Print(item)| && StaysOpen(Print(item)[..q], 0)
    ensures var c, piece := Print(item), Piece(item, rest);
      && Depth(c[..q]) > 0
      && q <= |piece| <= |c + rest| && piece == (c + rest)[..|piece|]
      && |piece| == q + ScanObject(c[q..] + rest, Depth(c[..q]))
      && piece[q..] == (c[q..] + rest)[..ScanObject(c[q..] + rest, Depth(c[..q]))]
  {
    hide StaysOpen, Print, ScanObject, Depth;
    ObjectBegins(item);
    var c := Print(item);
    assert c + rest == c[..q] + (c[q..] + rest);
    assert c[..q][0] == c[0];
    ScanPast(c[..q], c[q..] + rest, 0);
    var n := ScanObject(c[q..] + rest, Depth(c[..q]));
    assert (c + rest)[..q + n] == c[..q] + (c[q..] + rest)[..n];
  }

  /** Exactly what is read of a text field of a piece, at any depth: nothing, when the braces
      printed before it already close; otherwise the text up to the brace that brings the depth at
      its opening quote down to 0. */
  lemma TextReadExactly(item: Json, rest: string, key: string, text: string) returns (q: nat)
    requires item.JObj? && Proper(item) && IsKey(key) && FirstMember(item, key) == Some(JStr(text))
    ensures var c := Print(item);
      && |Needle(key)| < q <= |c| && Find(c, Needle(key), 0) == Some(q - |Needle(key)| - 1)
      && (StaysOpen(c[..q], 0) ==> Depth(c[..q]) > 0)
      && StringField(Piece(item, rest), key, 0)
        == (if StaysOpen(c[..q], 0) then text[..ScanObject(text, Depth(c[..q]))] else "")
  {
    hide FirstMember, Proper, Find, StaysOpen, Depth, ScanObject, Escape, Decode, IsKey, Piece, Print;
    var p, tail := ValueBegins(item, key);
    var c, n := Print(item), |Needle(key)|;
    q := p + n + 1;
    PrintText(text);
    var value := Print(JStr(text));
    assert c[p + n..][1..] == Escape(text) + (QUOTE_TEXT + tail);
    assert c[q..] == c[p + n..][1..];
    PlainCharKeepsOpen(c, p + n);
    if StaysOpen(c[..q], 0) {
      PieceBeyond(item, rest, q);
      var piece := Piece(item, rest);
      PieceFindsKey(c, rest, Needle(key), p, |piece|);
      assert c[q..] + rest == Escape(text) + (QUOTE_TEXT + (tail + rest));
      DecodeOfScan(text, Depth(c[..q]), tail + rest);
      QuotedFrom(piece, p + n);
    } else {
      CutBeforeKey(item, rest, key, p);
    }
  }

  lemma PlainCharKeepsOpen(c: string, q: nat)
    requires q < |c| && c[q] != '{' && c[q] != '}'
    ensures StaysOpen(c[..q + 1], 0) ==> StaysOpen(c[..q], 0)
    ensures q > 0 ==> (StaysOpen(c[..q], 0) <==> StaysOpen(c[..q + 1], 0)) && Depth(c[..q + 1]) == Depth(c[..q])
  {
    assert c[..q + 1] == c[..q] + [c[q]];
    StaysOpenConcat(c[..q], [c[q]], 0);
    DepthConcat(c[..q], [c[q]]);
    AlikePlain([c[q]]);
    NothingIsFlat();
    NothingStaysOpen(Depth(c[..q]));
    if q > 0 && StaysOpen(c[..q], 0) {
      assert c[..q][..q] == c[..q];
    }
  }

  lemma QuotedFrom(piece: string, i: nat)
    requires i < |piece| && piece[i] == QUOTE
    ensures StringAt(piece[i..]) == Decode(piece[i + 1..]).0
  {
    assert piece[i..][1..] == piece[i + 1..];
  }

  lemma PrintText(text: string)
    ensures Print(JStr(text)) == QUOTE_TEXT + (Escape(text) + QUOTE_TEXT)
  {
  }

  lemma {:induction false} FirstIsProper(v: Json, key: string)
    requires Proper(v) && FirstMember(v, key).Some?
    ensures Proper(FirstMember(v, key).value)
    ensures TextsPaired(v) ==> TextsPaired(FirstMember(v, key).value)
  {
    match v
    case JArr(items) => FirstItemIsProper(items, key);
    case JObj(members) => FirstOfMembersIsProper(members, key);
  }

  lemma {:induction false} FirstItemIsProper(items: seq<Json>, key: string)
    requires forall i | 0 <= i < |items| :: Proper(items[i])
    requires FirstInItems(items, key).Some?
    ensures Proper(FirstInItems(items, key).value)
    ensures (forall i | 0 <= i < |items| :: TextsPaired(items[i])) ==> TextsPaired(FirstInItems(items, key).value)
  {
    if FirstMember(items[0], key).Some? {
      FirstIsProper(items[0], key);
    } else {
      FirstItemIsProper(items[1..], key);
    }
  }

  lemma {:induction false} FirstOfMembersIsProper(members: seq<Member>, key: string)
    requires ProperMembers(members) && FirstInMembers(members, key).Some?
    ensures Proper(FirstInMembers(members, key).value)
    ensures (forall i | 0 <= i < |members| :: TextsPaired(members[i].value)) ==>
      TextsPaired(FirstInMembers(members, key).value)
  {
    if members[0].name != key {
      if FirstMember(members[0].value, key).Some? {
        FirstIsProper(members[0].value, key);
      } else {
        FirstOfMembersIsProper(members[1..], key);
      }
    }
  }

  lemma ItemIsProper(items: seq<Json>, i: nat)
    requires Proper(JArr(items)) && i < |items|
    ensures Proper(items[i])
  {
  }

  // ---- lists --------------------------------------------------------------------------------

  /** The walker takes the first object of a list from where it is printed to where the scan stops. */
  lemma FirstOfList(v: Json, list: string, items: seq<Json>) returns (rest: string)
    requires Proper(v) && IsKey(list) && FirstMember(v, list) == Some(JArr(items)) && items != [] && items[0].JObj?
    ensures var pieces := ObjectArray(Print(v), list); pieces != [] && pieces[0] == Piece(items[0], rest)
  {
    hide FirstMember, Proper, ScanObject, Print, SplitObjects, Join, ObjectArray;
    var tail := ArrayText(v, list);
    var printed := PrintAll(items);
    rest := (if |printed| == 1 then "" else "," + Join(printed[1..], ",")) + "]" + tail;
    JoinHead(printed);
    assert Join(printed, ",") + "]" + tail == printed[0] + rest;
    ObjectBegins(items[0]);
    SplitFirst(printed[0] + rest);
  }

  /** Exactly what is read of a text field of a list's first object, for every list and key of
      every printed document; and so exactly when the text is read whole. */
  lemma FieldReadExactly(v: Json, list: string, items: seq<Json>, key: string, text: string) returns (q: nat)
    requires Proper(v) && IsKey(list) && FirstMember(v, list) == Some(JArr(items)) && items != [] && items[0].JObj?
    requires IsKey(key) && FirstMember(items[0], key) == Some(JStr(text))
    ensures var c := Print(items[0]);
      var pieces := ObjectArray(Print(v), list);
      && pieces != []
      && 0 < q <= |c| && Find(c, Needle(key), 0) == Some(q - |Needle(key)| - 1)
      && (StaysOpen(c[..q], 0) ==> Depth(c[..q]) > 0)
      && StringField(pieces[0], key, 0)
        == (if StaysOpen(c[..q], 0) then text[..ScanObject(text, Depth(c[..q]))] else "")
      && (StringField(pieces[0], key, 0) == text <==>
        text == "" || (StaysOpen(c[..q], 0) && forall k | 0 <= k < |text| :: Depth(c[..q]) + Depth(text[..k]) > 0))
  {
    hide FirstMember, Proper, Print, Find, ObjectArray, StaysOpen, Depth, StringField, ScanObject, Piece;
    var rest := FirstOfList(v, list, items);
    FirstIsProper(v, list);
    ItemIsProper(items, 0);
    q := TextReadExactly(items[0], rest, key, text);
    var c := Print(items[0]);
    if StaysOpen(c[..q], 0) {
      ScansWhole(text, Depth(c[..q]));
      PrefixIsWhole(text, ScanObject(text, Depth(c[..q])));
    }
  }

  lemma PrefixIsWhole(text: string, n: nat)
    requires n <= |text|
    ensures text[..n] == text <==> n == |text|
  {
  }

  // ---- objects of texts, flags and numbers --------------------------------------------------

  /** Whether the texts printed in front of member `i` leave the object open. */
  predicate OpenBefore(ms: seq<Member>, i: nat)
    requires i <= |ms|
  {
    StaysOpen(SkeletonOfMembers(ms[..i]), 1)
  }

  /** The depth at which the value of member `i` begins. */
  function DepthBefore(ms: seq<Member>, i: nat): int
    requires i <= |ms|
  {
    1 + Depth(SkeletonOfMembers(ms[..i]))
  }

  lemma OpenBrace(s: string)
    ensures StaysOpen("{" + s, 0) <==> StaysOpen(s, 1)
    ensures Depth("{" + s) == 1 + Depth(s)
  {
    hide Depth;
    OneBrace();
    StaysOpenConcat("{", s, 0);
    DepthConcat("{", s);
    assert StaysOpen("{", 0) by {
      forall k | 0 < k <= 1 ensures Depth("{"[..k]) > 0 { assert "{"[..k] == "{"; }
    }
  }

  /** The printed object up to the value of member `i`, and from there on. */
  lemma MemberBegins(ms: seq<Member>, i: nat) returns (p: nat, tail: string)
    requires i < |ms| && ProperMembers(ms) && FirstMention(ms, i)
    ensures var c, n := Print(JObj(ms)), Needle(ms[i].name);
      && Find(c, n, 0) == Some(p) && 0 < p && p + |n| <= |c|
      && (forall k | p <= k < p + |n| :: c[k] != '}')
      && c[p + |n|..] == Print(ms[i].value) + tail
      && tail == (if i == |ms| - 1 then "" else "," + PrintMembers(ms[i + 1..])) + "}"
      && (StaysOpen(c[..p + |n|], 0) <==> OpenBefore(ms, i))
      && Depth(c[..p + |n|]) == DepthBefore(ms, i)
      && Alike(c[..p + |n|], "{" + SkeletonOfMembers(ms[..i]))
      && c[..p] == "{" + PrintUpTo(ms, i)
  {
    hide Find, FirstMention, FirstMember, Proper, StaysOpen, Depth, Print, PrintMembers, SkeletonOfMembers, Alike;
    p := TextFromMember(ms, i);
    var c, n := Print(JObj(ms)), Needle(ms[i].name);
    tail := (if i == |ms| - 1 then "" else "," + PrintMembers(ms[i + 1..])) + "}";
    PrintFrom(ms, i);
    assert c[p..] == n + (Print(ms[i].value) + tail);
    assert c[p..][|n|..] == Print(ms[i].value) + tail;
    KeyIsPlain(ms[i].name);
    forall k | p <= k < p + |n| ensures c[k] != '}' {
      assert c[k] == c[p..][k - p] && n[k - p] in n;
    }
    HeadOf(ms, i, p);
    assert c[..p + |n|] == "{" + (PrintUpTo(ms, i) + n);
    HeadOpens(ms, i, n);
  }

  lemma HeadOpens(ms: seq<Member>, i: nat, n: string)
    requires i <= |ms| && ProperMembers(ms) && '{' !in n && '}' !in n
    ensures StaysOpen("{" + (PrintUpTo(ms, i) + n), 0) <==> OpenBefore(ms, i)
    ensures Depth("{" + (PrintUpTo(ms, i) + n)) == DepthBefore(ms, i)
    ensures Alike("{" + (PrintUpTo(ms, i) + n), "{" + SkeletonOfMembers(ms[..i]))
  {
    hide Proper, StaysOpen, Depth, PrintMembers, SkeletonOfMembers, Alike;
    var head, mark := PrintUpTo(ms, i), if i > 0 then "," else "";
    MembersAlike(ms[..i]);
    AlikePadded("", PrintMembers(ms[..i]), mark + n, SkeletonOfMembers(ms[..i]));
    assert "" + PrintMembers(ms[..i]) + (mark + n) == head + n;
    OpenBrace(head + n);
    AlikeOpens(head + n, SkeletonOfMembers(ms[..i]));
    AlikeSelf("{");
    AlikeConcat("{", head + n, "{", SkeletonOfMembers(ms[..i]));
  }

  lemma AlikeOpens(a: string, b: string)
    requires Alike(a, b)
    ensures StaysOpen(a, 1) <==> StaysOpen(b, 1)
    ensures Depth(a) == Depth(b)
  {
  }

  lemma PrintFrom(ms: seq<Member>, i: nat)
    requires i < |ms|
    ensures PrintMembers(ms[i..]) + "}"
      == Needle(ms[i].name)
        + (Print(ms[i].value) + ((if i == |ms| - 1 then "" else "," + PrintMembers(ms[i + 1..])) + "}"))
  {
    hide Print;
    assert ms[i..][1..] == ms[i + 1..];
    var n, v := Needle(ms[i].name), Print(ms[i].value);
    if i == |ms| - 1 {
      assert PrintMembers(ms[i..]) == n + v;
      assert "" + "}" == "}";
      Associate(n, v, "}");
    } else {
      var rest := "," + PrintMembers(ms[i + 1..]);
      assert PrintMembers(ms[i..]) == n + v + rest;
      assert n + v + rest + "}" == n + (v + (rest + "}"));
    }
  }

  function PrintUpTo(ms: seq<Member>, i: nat): string
    requires i <= |ms|
  {
    PrintMembers(ms[..i]) + (if i > 0 then "," else "")
  }

  lemma HeadOf(ms: seq<Member>, i: nat, p: nat)
    requires i < |ms| && p <= |Print(JObj(ms))|
    requires Print(JObj(ms))[p..] == PrintMembers(ms[i..]) + "}"
    ensures Print(JObj(ms))[..p] == "{" + PrintUpTo(ms, i)
  {
    var c := Print(JObj(ms));
    hide PrintMembers;
    if i == 0 {
      assert ms[..0] == [] && ms[0..] == ms;
      PrintNothing();
      assert c == "{" + (PrintMembers(ms[0..]) + "}");
    } else {
      assert ms == ms[..i] + ms[i..];
      PrintTogether(ms[..i], ms[i..]);
      assert c == ("{" + PrintUpTo(ms, i)) + (PrintMembers(ms[i..]) + "}");
    }
  }

  lemma PrintNothing()
    ensures PrintMembers([]) == ""
  {
  }

  lemma SkeletonGrows(ms: seq<Member>, i: nat)
    requires i < |ms|
    ensures SkeletonOfMembers(ms[..0]) == ""
    ensures SkeletonOfMembers(ms[..i + 1]) == SkeletonOfMembers(ms[..i]) + Skeleton(ms[i].value)
  {
    assert ms[..i + 1] == ms[..i] + [ms[i]];
    SkeletonConcat(ms[..i], [ms[i]]);
    assert [ms[i]][1..] == [];
    assert Skeleton(ms[i].value) + "" == Skeleton(ms[i].value);
  }

  lemma {:induction false} SkeletonConcat(a: seq<Member>, b: seq<Member>)
    ensures SkeletonOfMembers(a + b) == SkeletonOfMembers(a) + SkeletonOfMembers(b)
  {
    if a == [] {
      assert a + b == b;
      assert "" + SkeletonOfMembers(b) == SkeletonOfMembers(b);
    } else {
      assert (a + b)[1..] == a[1..] + b;
      SkeletonConcat(a[1..], b);
      Associate(Skeleton(a[0].value), SkeletonOfMembers(a[1..]), SkeletonOfMembers(b));
    }
  }

  /** Exactly what is read of a text member of a piece. */
  lemma MemberTextRead(ms: seq<Member>, i: nat, rest: string)
    requires i < |ms| && ProperMembers(ms) && FirstMention(ms, i) && ms[i].value.JStr?
    ensures OpenBefore(ms, i) ==> DepthBefore(ms, i) > 0
    ensures StringField(Piece(JObj(ms), rest), ms[i].name, 0)
      == if OpenBefore(ms, i) then ms[i].value.text[..ScanObject(ms[i].value.text, DepthBefore(ms, i))] else ""
  {
    hide Find, FirstMention, FirstMember, Proper, StaysOpen, Depth, Print, OpenBefore, DepthBefore, ScanObject, Piece,
      StringField;
    var p, tail := MemberBegins(ms, i);
    MentionMeans(ms, i);
    MemberAt(ms, i);
    MembersMakeProper(ms);
    assert FirstMember(JObj(ms), ms[i].name) == Some(ms[i].value) by { MemberOfObject(ms, ms[i].name); }
    var q := TextReadExactly(JObj(ms), rest, ms[i].name, ms[i].value.text);
    var c := Print(JObj(ms));
    PrintText(ms[i].value.text);
    assert c[p + |Needle(ms[i].name)|..][0] == QUOTE;
    PlainCharKeepsOpen(c, p + |Needle(ms[i].name)|);
  }

  /** As much of a text member is read as a scan of the texts up to and including it gains. */
  lemma MemberTextGrowth(ms: seq<Member>, i: nat, rest: string)
    requires i < |ms| && ProperMembers(ms) && FirstMention(ms, i) && ms[i].value.JStr?
    ensures var read := StringField(Piece(JObj(ms), rest), ms[i].name, 0);
      && read <= ms[i].value.text
      && |read| == ScanObject(SkeletonOfMembers(ms[..i + 1]), 1) - ScanObject(SkeletonOfMembers(ms[..i]), 1)
  {
    hide FirstMention, Proper, StaysOpen, Depth, ScanObject, Piece, StringField, SkeletonOfMembers;
    MemberTextRead(ms, i, rest);
    SkeletonGrows(ms, i);
    ScanOfTwo(SkeletonOfMembers(ms[..i]), ms[i].value.text, 1);
    if StaysOpen(SkeletonOfMembers(ms[..i]), 1) {
      OpenIsScanned(SkeletonOfMembers(ms[..i]), 1);
    }
  }

  /** A list is never read as a text. */
  lemma MemberListRead(ms: seq<Member>, i: nat, rest: string)
    requires i < |ms| && ProperMembers(ms) && FirstMention(ms, i) && ms[i].value.JArr?
    ensures StringField(Piece(JObj(ms), rest), ms[i].name, 0) == ""
  {
    hide Find, FirstMention, FirstMember, Proper, StaysOpen, Depth, Print, PrintMembers, PrintItems, OpenBefore,
      DepthBefore, ScanObject, Piece, Decode;
    if OpenBefore(ms, i) {
      var p, tail := MemberBegins(ms, i);
      var c, q := Print(JObj(ms)), p + |Needle(ms[i].name)|;
      PieceBeyond(JObj(ms), rest, q);
      PieceFindsKey(c, rest, Needle(ms[i].name), p, |Piece(JObj(ms), rest)|);
      ArrayOpens(ms[i].value.items);
      var at := Piece(JObj(ms), rest)[q..];
      assert (c[q..] + rest)[0] == '[';
      assert at == "" || at[0] == '[';
      NoTextAtBracket(at);
    } else {
      MemberUnread(ms, i, rest);
    }
  }

  lemma NoTextAtBracket(s: string)
    requires s == "" || s[0] == '['
    ensures StringAt(s) == ""
  {
  }

  lemma MentionMeans(ms: seq<Member>, i: nat)
    requires i < |ms| && FirstMention(ms, i)
    ensures forall j | 0 <= j < i :: ms[j].name != ms[i].name && FirstMember(ms[j].value, ms[i].name).None?
  {
  }

  lemma MemberOfObject(ms: seq<Member>, key: string)
    ensures FirstMember(JObj(ms), key) == FirstInMembers(ms, key)
  {
  }

  /** A value without braces is held whole by a piece that reaches it, with what follows it. */
  lemma PlainValueHeld(ms: seq<Member>, i: nat, rest: string) returns (q: nat, behind: string)
    requires i < |ms| && ProperMembers(ms) && FirstMention(ms, i) && OpenBefore(ms, i)
    requires var v := Print(ms[i].value); '{' !in v && '}' !in v
    ensures var piece := Piece(JObj(ms), rest);
      && q <= |piece| && Find(piece, Needle(ms[i].name), 0) == Some(q - |Needle(ms[i].name)|)
      && piece[q..] == Print(ms[i].value) + behind
      && behind != "" && (behind[0] == ',' || behind[0] == '}')
  {
    hide Find, FirstMention, FirstMember, Proper, StaysOpen, Depth, Print, PrintMembers, OpenBefore, DepthBefore,
      ScanObject, Piece;
    var p, tail := MemberBegins(ms, i);
    var c, v := Print(JObj(ms)), Print(ms[i].value);
    q := p + |Needle(ms[i].name)|;
    PieceBeyond(JObj(ms), rest, q);
    PieceFindsKey(c, rest, Needle(ms[i].name), p, |Piece(JObj(ms), rest)|);
    var d := Depth(c[..q]);
    var t := tail + rest;
    assert c[q..] + rest == v + t;
    AlikePlain(v);
    PlainOpens(v, d);
    ScanPast(v, t, d);
    ScanSome(t, d);
    behind := t[..ScanObject(t, d)];
    assert (v + t)[..|v| + ScanObject(t, d)] == v + behind;
  }

  lemma PlainOpens(v: string, d: int)
    requires Alike(v, "") && d > 0
    ensures StaysOpen(v, d) && Depth(v) == 0
  {
    NothingStaysOpen(d);
    NothingIsFlat();
  }

  lemma ScanSome(t: string, d: nat)
    requires t != "" && d > 0
    ensures 0 < ScanObject(t, d) <= |t|
  {
  }

  /** Exactly what is read of a flag and of a number of a piece: the value, or nothing. */
  lemma MemberFlagRead(ms: seq<Member>, i: nat, rest: string)
    requires i < |ms| && ProperMembers(ms) && FirstMention(ms, i) && ms[i].value.JBool?
    ensures BoolField(Piece(JObj(ms), rest), ms[i].name, 0) == if OpenBefore(ms, i) then Some(ms[i].value.flag)
      else None
  {
    hide Find, FirstMention, Proper, StaysOpen, OpenBefore, Piece;
    if OpenBefore(ms, i) {
      var q, behind := PlainValueHeld(ms, i, rest);
      FlagAtStart(ms[i].value.flag, behind);
    } else {
      MemberUnread(ms, i, rest);
    }
  }

  lemma FlagAtStart(flag: bool, behind: string)
    ensures BoolAt(Print(JBool(flag)) + behind) == Some(flag)
  {
    var s := Print(JBool(flag)) + behind;
    assert SkipBlanks(s) == s;
    if flag {
      assert s[0..4] == "true";
    } else {
      assert s[0..5] == "false";
      assert s[0] == 'f' && "true"[0] == 't';
      if |s| >= 4 { assert s[0..4][0] == 'f'; }
    }
  }

  lemma MemberNumberRead(ms: seq<Member>, i: nat, rest: string)
    requires i < |ms| && ProperMembers(ms) && FirstMention(ms, i) && ms[i].value.JInt?
    ensures IntField(Piece(JObj(ms), rest), ms[i].name, 0) == if OpenBefore(ms, i) then Int(ms[i].value.n) else NoInt
  {
    hide Find, FirstMention, StaysOpen, OpenBefore, Piece, IntAt, Decimal;
    if OpenBefore(ms, i) {
      NumberIsPlain(ms[i].value.n);
      var q, behind := PlainValueHeld(ms, i, rest);
      assert Proper(ms[i].value);
      IntReadBack(ms[i].value.n, behind);
    } else {
      MemberUnread(ms, i, rest);
    }
  }

  lemma NumberIsPlain(n: int)
    ensures '{' !in Decimal(n) && '}' !in Decimal(n)
  {
  }

  /** What a piece does not reach is not read. */
  lemma MemberUnread(ms: seq<Member>, i: nat, rest: string)
    requires i < |ms| && ProperMembers(ms) && FirstMention(ms, i) && !OpenBefore(ms, i)
    ensures var piece, key := Piece(JObj(ms), rest), ms[i].name;
      StringField(piece, key, 0) == "" && BoolField(piece, key, 0).None? && IntField(piece, key, 0).NoInt?
  {
    hide Find, FirstMention, FirstMember, Proper, StaysOpen, Depth, Print, OpenBefore, DepthBefore, Piece, StringField,
      BoolField, IntField;
    var p, tail := MemberBegins(ms, i);
    CutBeforeKey(JObj(ms), rest, ms[i].name, p);
  }

  // ---- where the walker goes on -------------------------------------------------------------

  /** What stands behind an object of a list that is the last member of its document. */
  function Behind(after: seq<Json>): string {
    (if after == [] then "" else "," + Join(PrintAll(after), ",")) + "]}"
  }

  lemma LastArrayText(ms: seq<Member>, i: nat)
    requires i == |ms| - 1 && ProperMembers(ms) && FirstMention(ms, i) && ms[i].value.JArr?
    ensures ObjectArray(Print(JObj(ms)), ms[i].name) == SplitObjects(Join(PrintAll(ms[i].value.items), ",") + "]}")
  {
    hide SplitObjects, Find, PrintItems, PrintMembers, Join, PrintAll, FirstMember, FirstMention, Proper, StaysOpen,
      Depth, OpenBefore, DepthBefore;
    var c, items, n := Print(JObj(ms)), ms[i].value.items, Needle(ms[i].name);
    hide Print;
    var p, tail := MemberBegins(ms, i);
    ArrayOpens(items);
    var behind := PrintItems(items) + "]}";
    assert Print(ms[i].value) + tail == "[" + behind by { assert "" + "}" == "}" && "]" + "}" == "]}"; }
    assert c[p..][|n|..] == c[p + |n|..];
    FoundFits(c, n);
    FindFound(c, n, 0);
    assert c[p..] == n + ("[" + behind) by { OccursMeans(c, n, p); }
    KeyHasNoBracket(ms[i].name, behind);
    FindFrom(c, "[", p);
    assert c[p..][|n| + 1..] == behind;
    assert c[p + |n| + 1..] == c[p..][|n| + 1..];
    ItemsAreJoined(items);
  }

  lemma OccursMeans(s: string, needle: string, i: nat)
    requires Occurs(s, needle, i)
    ensures i + |needle| <= |s| && s[i..] == needle + s[i + |needle|..]
  {
    assert s[i..] == s[i..i + |needle|] + s[i + |needle|..];
  }

  lemma ArrayOpens(items: seq<Json>)
    ensures Print(JArr(items)) == "[" + PrintItems(items) + "]"
  {
  }

  /** Balanced objects in front are split off one by one. */
  lemma {:induction false} SplitBalanced(before: seq<Json>, item: Json, after: seq<Json>)
    requires item.JObj? && forall i | 0 <= i < |before| :: before[i].JObj? && Balanced(Print(before[i]))
    ensures SplitObjects(Join(PrintAll(before + [item] + after), ",") + "]}")
      == PrintAll(before) + SplitObjects(Print(item) + Behind(after))
  {
    hide SplitObjects, Balanced, Print, Join, Behind;
    if before == [] {
      assert before + [item] + after == [item] + after && PrintAll(before) == [];
      JoinFront(item, after);
      assert [] + SplitObjects(Print(item) + Behind(after)) == SplitObjects(Print(item) + Behind(after));
    } else {
      var others := before[1..];
      assert before + [item] + after == [before[0]] + (others + [item] + after);
      SplitBalanced(others, item, after);
      JoinFront(before[0], others + [item] + after);
      var rest := Join(PrintAll(others + [item] + after), ",") + "]}";
      BehindMore(others + [item] + after);
      SplitSeparator(rest);
      ObjectBegins(before[0]);
      SplitHead(Print(before[0]), "," + rest);
      assert PrintAll(before) == [Print(before[0])] + PrintAll(others);
      Associate([Print(before[0])], PrintAll(others), SplitObjects(Print(item) + Behind(after)));
    }
  }

  lemma JoinFront(item: Json, after: seq<Json>)
    ensures Join(PrintAll([item] + after), ",") + "]}" == Print(item) + Behind(after)
  {
    hide Print;
    assert PrintAll([item] + after) == [Print(item)] + PrintAll(after);
    assert ([Print(item)] + PrintAll(after))[1..] == PrintAll(after);
    JoinHead(PrintAll([item] + after));
    if after == [] {
      assert Print(item) + "" + "]}" == Print(item) + ("" + "]}");
    }
  }

  lemma BehindMore(after: seq<Json>)
    requires after != []
    ensures Behind(after) == "," + (Join(PrintAll(after), ",") + "]}")
  {
  }

  /** The walker's pieces of a list whose objects balance up to `item`. */
  lemma ListPieces(ms: seq<Member>, before: seq<Json>, item: Json, after: seq<Json>)
    requires ms != [] && ProperMembers(ms) && FirstMention(ms, |ms| - 1)
    requires ms[|ms| - 1].value == JArr(before + [item] + after) && item.JObj?
    requires forall i | 0 <= i < |before| :: before[i].JObj? && Balanced(Print(before[i]))
    ensures ObjectArray(Print(JObj(ms)), ms[|ms| - 1].name)
      == PrintAll(before) + ([Piece(item, Behind(after))] + SplitObjects(Left(item, Behind(after))))
  {
    hide SplitObjects, ObjectArray, Balanced, Print, Join, Behind, PrintAll, FirstMention, Proper, Piece, Left;
    LastArrayText(ms, |ms| - 1);
    SplitBalanced(before, item, after);
    SplitPiece(item, Behind(after));
  }

  /** The text the walker goes on with, behind the piece. */
  function Left(item: Json, rest: string): string
    requires item.JObj?
  {
    ObjectBegins(item);
    var s := Print(item) + rest;
    s[ScanObject(s, 0)..]
  }

  lemma SplitPiece(item: Json, rest: string)
    requires item.JObj?
    ensures SplitObjects(Print(item) + rest) == [Piece(item, rest)] + SplitObjects(Left(item, rest))
  {
    ObjectBegins(item);
    var s := Print(item) + rest;
    hide ScanObject, Print;
    assert s[0] == '{';
    assert SkipSeparators(s) == s;
  }

  /** Texts that stay open: what is left behind the last object of a list holds no object. */
  lemma OpenLeavesNothing(ms: seq<Member>)
    requires ProperMembers(ms) && StaysOpen(SkeletonOfMembers(ms), 1)
    ensures SplitObjects(Left(JObj(ms), "]}")) == []
  {
    hide StaysOpen, Depth, PrintMembers, SkeletonOfMembers, Alike, Proper;
    var c := Print(JObj(ms));
    var head := "{" + PrintMembers(ms);
    MembersAlike(ms);
    OpenBrace(PrintMembers(ms));
    AlikeOpens(PrintMembers(ms), SkeletonOfMembers(ms));
    assert c + "]}" == head + "}]}";
    ScanPast(head, "}]}", 0);
    ScanOfEnd(Depth(head));
    var n := ScanObject("}]}", Depth(head));
    assert (c + "]}")[|head| + n..] == "}]}"[n..];
    SplitEnd("}");
    assert "}]}"[1..] == "]}" && "]" + "}" == "]}";
  }

  lemma ScanOfEnd(d: nat)
    requires d > 0
    ensures ScanObject("}]}", d) == if d == 1 then 1 else 3
    ensures SplitObjects("}]}"[3..]) == []
  {
    assert "}]}"[1..] == "]}" && "]}"[1..] == "}" && "}"[1..] == "";
  }

  /** A text that closes the object exactly at its end is followed by its quote, at which the
      walker stops. */
  lemma ClosingTextLeavesNothing(ms: seq<Member>, i: nat, rest: string)
    requires i < |ms| && ProperMembers(ms) && FirstMention(ms, i) && ms[i].value.JStr? && OpenBefore(ms, i)
    requires var text, d := ms[i].value.text, DepthBefore(ms, i);
      d > 0 && !StaysOpen(text, d) && ScanObject(text, d) == |text|
    ensures SplitObjects(Left(JObj(ms), rest)) == []
  {
    hide Find, FirstMention, Proper, StaysOpen, Depth, Print, PrintMembers, OpenBefore, DepthBefore, ScanObject, Escape;
    var p, tail := MemberBegins(ms, i);
    var c, q, text := Print(JObj(ms)), p + |Needle(ms[i].name)|, ms[i].value.text;
    var d := Depth(c[..q]);
    PieceBeyond(JObj(ms), rest, q);
    PrintText(text);
    var behind := QUOTE_TEXT + (tail + rest);
    assert c[q..] + rest == QUOTE_TEXT + (Escape(text) + behind);
    AlikePlain(QUOTE_TEXT);
    PlainOpens(QUOTE_TEXT, d);
    ScanPast(QUOTE_TEXT, Escape(text) + behind, d);
    ScanOfEscaped(text, d, behind);
    assert text[..|text|] == text;
    var n := q + 1 + |Escape(text)|;
    ObjectBegins(JObj(ms));
    assert Left(JObj(ms), rest) == (c + rest)[n..];
    assert (c + rest)[q..] == c[q..] + rest;
    assert (c + rest)[n..] == (c + rest)[q..][1 + |Escape(text)|..];
    assert (c + rest)[n..] == behind;
    QuoteStops(tail + rest);
  }

  lemma QuoteStops(rest: string)
    ensures SplitObjects(QUOTE_TEXT + rest) == []
  {
    var s := QUOTE_TEXT + rest;
    assert s[0] == QUOTE;
    assert SkipSeparators(s) == s;
  }

  lemma {:induction false} ScanOfEscaped(text: string, depth: nat, rest: string)
    requires depth > 0 && !StaysOpen(text, depth)
    ensures ScanObject(Escape(text) + rest, depth) == |Escape(text[..ScanObject(text, depth)])|
  {
    hide ScanObject, Depth, StaysOpen;
    assert text != "" by { if text == "" { NothingStaysOpen(depth); } }
    var c, more := text[0], text[1..];
    var d := depth + Depth([c]);
    assert text == [c] + more && text[..1] == [c];
    assert Escape(text) + rest == EscapeChar(c) + (Escape(more) + rest);
    ScanEscapedChar(c, Escape(more) + rest, depth);
    ScanChar(c, more, depth);
    StaysOpenTail(text, depth);
    var n := ScanObject(text, depth);
    if d > 0 {
      ScanOfEscaped(more, d, rest);
      assert text[..n][1..] == more[..n - 1] && text[..n][0] == c;
    } else {
      assert text[..1][1..] == "";
      assert Escape(text[..1]) == EscapeChar(c) + "";
    }
  }

  // ---- what later pieces lack ---------------------------------------------------------------

  predicate Nowhere(s: string, needle: string) {
    forall i | 0 <= i <= |s| :: !Occurs(s, needle, i)
  }

  lemma NowhereInPart(s: string, needle: string, from: nat, until: nat)
    requires Nowhere(s, needle) && from <= until <= |s|
    ensures Nowhere(s[from..until], needle)
  {
    var part := s[from..until];
    forall i | 0 <= i <= |part| ensures !Occurs(part, needle, i) {
      if i + |needle| <= |part| {
        assert !Occurs(s, needle, from + i);
        SliceOfSlice(s, from, until, i, |needle|);
      }
    }
  }

  lemma SliceOfSlice(s: string, from: nat, until: nat, i: nat, m: nat)
    requires from <= until <= |s| && i + m <= until - from
    ensures s[from..until][i..i + m] == s[from + i..from + i + m]
  {
    var a, b := s[from..until][i..i + m], s[from + i..from + i + m];
    forall k | 0 <= k < m ensures a[k] == b[k] {
      assert a[k] == s[from..until][i + k];
      assert s[from..until][i + k] == s[from + (i + k)];
    }
  }

  lemma NowhereIsUnfound(s: string, needle: string)
    ensures Nowhere(s, needle) <==> Find(s, needle, 0).None?
  {
    hide Occurs;
    if Nowhere(s, needle) {
      forall k: nat ensures !Occurs(s, needle, k) {
        if k > |s| { BeyondIsNowhere(s, needle, k); }
      }
      FindNothing(s, needle, 0);
    } else {
      var i :| 0 <= i <= |s| && Occurs(s, needle, i);
      if Find(s, needle, 0).None? {
        UnfoundNowhere(s, needle, 0, i);
      }
    }
  }

  lemma BeyondIsNowhere(s: string, needle: string, k: nat)
    requires k > |s|
    ensures !Occurs(s, needle, k)
  {
  }

  lemma {:induction false} UnfoundNowhere(s: string, needle: string, from: nat, i: nat)
    requires Find(s, needle, from).None? && from <= i
    ensures !Occurs(s, needle, i)
    decreases i - from
  {
    if from + |needle| <= |s| && from < i {
      UnfoundNowhere(s, needle, from + 1, i);
    }
  }

  /** The walker's pieces are parts of its text. */
  lemma {:induction false} PiecesLack(s: string, needle: string)
    requires Nowhere(s, needle)
    ensures forall piece | piece in SplitObjects(s) :: Find(piece, needle, 0).None?
    decreases |s|
  {
    hide Nowhere, Find, ScanObject;
    var t := SkipSeparators(s);
    SkippedIsSuffix(s);
    NowhereInPart(s, needle, |s| - |t|, |s|);
    assert s[|s| - |t|..|s|] == t;
    if t != "" && t[0] == '{' {
      var n := ScanObject(t, 0);
      NowhereInPart(t, needle, 0, n);
      NowhereInPart(t, needle, n, |t|);
      assert t[0..n] == t[..n] && t[n..|t|] == t[n..];
      NowhereIsUnfound(t[..n], needle);
      PiecesLack(t[n..], needle);
    }
  }

  lemma {:induction false} SkippedIsSuffix(s: string)
    ensures |SkipSeparators(s)| <= |s| && SkipSeparators(s) == s[|s| - |SkipSeparators(s)|..]
  {
    if s != "" && IsSeparator(s[0]) {
      SkippedIsSuffix(s[1..]);
    }
  }

  /** Behind a key that no later member repeats, the key occurs nowhere: not in the rest of the
      object, nor in the end of the document. */
  lemma KeyIsLast(ms: seq<Member>, i: nat)
    requires i < |ms| && ProperMembers(ms)
    requires FirstMember(ms[i].value, ms[i].name).None? && FirstInMembers(ms[i + 1..], ms[i].name).None?
    ensures var n := Needle(ms[i].name);
      var s := PrintMembers(ms[i..]) + "}" + "]}"; |n| <= |s| && Nowhere(s[|n|..], n)
  {
    hide Nowhere, Find, WellFormed, Render, FirstKey, FirstMember, FirstInMembers, Proper, Tokens, MemberTokens,
      PrintMembers, Agrees;
    var key, us := ms[i].name, ms[i..];
    var ts := MemberTokens(us);
    var ends := [Mark(']'), Mark('}')];
    var full := ts + [Mark('}')] + ends;
    MembersForm(us);
    MembersAreRendered(us);
    EndsForm();
    Punctuate(ts, Mark('}'), ends);
    RenderConcat(ts + [Mark('}')], ends);
    RenderConcat(ts, [Mark('}')]);
    RenderOne(Mark('}'));
    TokensBehindKey(ms, i);
    assert full[0] == ts[0] && full[1..] == ts[1..] + ([Mark('}')] + ends);
    RenderHead(full, key);
    WellFormedDrop(full, 1);
    EndsLack(ts[1..], key);
    KeyOf(ms, i);
    FindKey(full[1..], key);
    NowhereIsUnfound(Render(full[1..]), Needle(key));
  }

  lemma KeyOf(ms: seq<Member>, i: nat)
    requires i < |ms| && ProperMembers(ms)
    ensures IsKey(ms[i].name)
  {
  }

  lemma EndsForm()
    ensures WellFormed([Mark(']'), Mark('}')]) && Render([Mark(']'), Mark('}')]) == "]}"
  {
    var ends := [Mark(']'), Mark('}')];
    assert ends[1..] == [Mark('}')] && [Mark('}')][1..] == [];
  }

  lemma EndsLack(ts: seq<Token>, key: string)
    requires Agrees(ts, key, None)
    ensures FirstKey(ts + ([Mark('}')] + [Mark(']'), Mark('}')]), key).None?
  {
    hide FirstKey, Lookup;
    MarkHasNoKey('}', key);
    MarkHasNoKey(']', key);
    AgreesConcat([Mark(']')], [Mark('}')], key, None, None);
    AgreesConcat([Mark('}')], [Mark(']')] + [Mark('}')], key, None, None);
    assert [Mark(']')] + [Mark('}')] == [Mark(']'), Mark('}')];
    AgreesConcat(ts, [Mark('}')] + [Mark(']'), Mark('}')], key, None, None);
  }

  lemma TokensBehindKey(ms: seq<Member>, i: nat)
    requires i < |ms| && ProperMembers(ms)
    requires FirstMember(ms[i].value, ms[i].name).None? && FirstInMembers(ms[i + 1..], ms[i].name).None?
    ensures var ts := MemberTokens(ms[i..]);
      ts != [] && ts[0] == Key(ms[i].name) && Agrees(ts[1..], ms[i].name, None)
  {
    hide Agrees, FirstMember, FirstInMembers, Proper, Tokens, MemberTokens;
    var us, key := ms[i..], ms[i].name;
    MemberTokensStep(us);
    LookupInDocument(ms[i].value, key);
    var value, ts := Tokens(ms[i].value), MemberTokens(us);
    if |us| > 1 {
      assert us[1..] == ms[i + 1..];
      LookupInMembers(us[1..], key);
      AgreesBetween(value, ',', MemberTokens(us[1..]), key, None, None);
      assert ts[1..] == value + [Mark(',')] + MemberTokens(us[1..]);
    } else {
      SingleMemberTokens(us);
      assert ts[1..] == value;
    }
  }

  lemma SingleMemberTokens(us: seq<Member>)
    requires |us| == 1
    ensures MemberTokens(us) == [Key(us[0].name)] + Tokens(us[0].value)
  {
  }

  /** A key that the first piece of the last object holds is in no later piece. */
  lemma LaterPiecesLack(ms: seq<Member>, i: nat)
    requires i < |ms| && ProperMembers(ms) && FirstMention(ms, i) && OpenBefore(ms, i)
    requires FirstMember(ms[i].value, ms[i].name).None? && FirstInMembers(ms[i + 1..], ms[i].name).None?
    ensures forall piece | piece in SplitObjects(Left(JObj(ms), "]}")) :: Find(piece, Needle(ms[i].name), 0).None?
  {
    hide Nowhere, Find, FirstMention, FirstMember, FirstInMembers, Proper, StaysOpen, Depth, Print, PrintMembers,
      OpenBefore, DepthBefore, ScanObject, SplitObjects;
    var p, tail := MemberBegins(ms, i);
    var c, n := Print(JObj(ms)), Needle(ms[i].name);
    var q := p + |n|;
    PieceBeyond(JObj(ms), "]}", q);
    KeyIsLast(ms, i);
    PrintFrom(ms, i);
    var s := PrintMembers(ms[i..]) + "}" + "]}";
    assert s[|n|..] == c[q..] + "]}";
    var m := |Piece(JObj(ms), "]}")|;
    var u := c[q..] + "]}";
    NowhereInPart(u, n, m - q, |u|);
    ObjectBegins(JObj(ms));
    assert (c + "]}")[q..] == u;
    assert Left(JObj(ms), "]}") == (c + "]}")[m..];
    assert u[m - q..|u|] == (c + "]}")[m..];
    PiecesLack(Left(JObj(ms), "]}"), n);
  }

  // ---- texts one object further in ----------------------------------------------------------

  /** Whether the texts in front of member `j` of the object at member `i` leave both open. */
  predicate OpenInside(ms: seq<Member>, i: nat, fs: seq<Member>, j: nat)
    requires i <= |ms| && j <= |fs|
  {
    OpenBefore(ms, i) && StaysOpen(SkeletonOfMembers(fs[..j]), DepthBefore(ms, i) + 1)
  }

  function DepthInside(ms: seq<Member>, i: nat, fs: seq<Member>, j: nat): int
    requires i <= |ms| && j <= |fs|
  {
    DepthBefore(ms, i) + 1 + Depth(SkeletonOfMembers(fs[..j]))
  }

  /** The printed object, from the key of member `i` on, up to the value of member `j` inside. */
  lemma InnerBegins(ms: seq<Member>, i: nat, j: nat) returns (p: nat, m: nat, tail: string)
    requires i < |ms| && ProperMembers(ms) && FirstMention(ms, i) && ms[i].value.JObj?
    requires var fs := ms[i].value.members;
      j < |fs| && ProperMembers(fs) && FirstMention(fs, j) && fs[j].name != ms[i].name
    ensures var c, fs := Print(JObj(ms)), ms[i].value.members;
      var n := Needle(fs[j].name);
      && Find(c, Needle(ms[i].name), 0) == Some(p) && 0 < p && p + m + |n| <= |c| && |Needle(ms[i].name)| <= m
      && Find(c[p..], n, 0) == Some(m)
      && c[p + m + |n|..] == Print(fs[j].value) + tail
      && (forall k | p + m <= k < p + m + |n| :: c[k] != '}')
      && (StaysOpen(c[..p + m + |n|], 0) <==> OpenInside(ms, i, fs, j))
      && (OpenBefore(ms, i) ==> Depth(c[..p + m + |n|]) == DepthInside(ms, i, fs, j))
  {
    hide Find, FirstMention, FirstMember, Proper, StaysOpen, Depth, Print, PrintMembers, SkeletonOfMembers, Alike,
      OpenBefore, DepthBefore;
    var fs := ms[i].value.members;
    var c, d, k, n := Print(JObj(ms)), Print(JObj(fs)), Needle(ms[i].name), Needle(fs[j].name);
    var after;
    p, after := MemberBegins(ms, i);
    var at, behind := MemberBegins(fs, j);
    var q := p + |k|;
    m := |k| + at;
    tail := behind + after;
    assert c[q..] == d + after;
    FoundAtKey(c, k, p);
    assert c[p..] == k + (d + after);
    KeyOf(ms, i);
    KeyOf(fs, j);
    InnerSearch(ms[i].name, fs[j].name, d, after, at);
    InnerSlices(c, q, d, after, at + |n|);
    Associate(Print(fs[j].value), behind, after);
    forall x | p + m <= x < p + m + |n| ensures c[x] != '}' {
      assert c[x] == c[q..][x - q] && c[q..][x - q] == d[x - q];
    }
    InnerOpens(ms, i, fs, j, c[..q], d[..at + |n|]);
  }

  lemma InnerSlices(c: string, q: nat, d: string, after: string, n: nat)
    requires q <= |c| && c[q..] == d + after && n <= |d|
    ensures q + n <= |c| && c[q + n..] == d[n..] + after && c[..q + n] == c[..q] + d[..n]
  {
    assert c == c[..q] + (d + after);
  }

  lemma InnerOpens(ms: seq<Member>, i: nat, fs: seq<Member>, j: nat, head: string, inner: string)
    requires i <= |ms| && j <= |fs| && head != ""
    requires (StaysOpen(head, 0) <==> OpenBefore(ms, i)) && Depth(head) == DepthBefore(ms, i)
    requires Alike(inner, "{" + SkeletonOfMembers(fs[..j]))
    ensures StaysOpen(head + inner, 0) <==> OpenInside(ms, i, fs, j)
    ensures OpenBefore(ms, i) ==> Depth(head + inner) == DepthInside(ms, i, fs, j)
  {
    hide StaysOpen, Depth, SkeletonOfMembers, Alike, OpenBefore, DepthBefore;
    StaysOpenConcat(head, inner, 0);
    DepthConcat(head, inner);
    if OpenBefore(ms, i) {
      OpenHeadIsPositive(head);
      BraceOpensAt(inner, SkeletonOfMembers(fs[..j]), Depth(head));
    }
  }

  lemma OpenHeadIsPositive(head: string)
    requires StaysOpen(head, 0) && head != ""
    ensures Depth(head) > 0
  {
    assert head[..|head|] == head;
  }

  lemma BraceOpensAt(inner: string, s: string, d: int)
    requires d > 0 && Alike(inner, "{" + s)
    ensures StaysOpen(inner, d) <==> StaysOpen(s, d + 1)
    ensures Depth(inner) == 1 + Depth(s)
  {
    StaysOpenConcat("{", s, d);
    OneBrace();
    DepthConcat("{", s);
    assert StaysOpen("{", d) by {
      forall k | 0 < k <= 1 ensures d + Depth("{"[..k]) > 0 { assert "{"[..k] == "{"; }
    }
  }

  lemma FoundAtKey(c: string, needle: string, p: nat)
    requires Find(c, needle, 0) == Some(p)
    ensures p + |needle| <= |c| && c[p..] == needle + c[p + |needle|..]
  {
    FindFound(c, needle, 0);
    FoundFits(c, needle);
    OccursMeans(c, needle, p);
  }

  lemma StringFieldFrom(json: string, key: string, from: nat)
    requires from <= |json|
    ensures StringField(json, key, from) == StringField(json[from..], key, 0)
  {
    hide Find, StringAt;
    FindFrom(json, Needle(key), from);
    var i := Find(json[from..], Needle(key), 0);
    if i.Some? {
      assert json[i.value + from + |Needle(key)|..] == json[from..][i.value + |Needle(key)|..];
    }
  }

  /** A key in front hides no other key. */
  lemma InnerSearch(outer: string, key: string, d: string, after: string, at: nat)
    requires IsKey(outer) && IsKey(key) && outer != key && Find(d, Needle(key), 0) == Some(at)
    ensures Find(Needle(outer) + (d + after), Needle(key), 0) == Some(|Needle(outer)| + at)
  {
    hide Find, Occurs;
    FoundAtKey(d, Needle(key), at);
    assert (d + after)[..|d + after|] == d + after;
    PieceFindsKey(d, after, Needle(key), at, |d + after|);
    forall i | 0 <= i < |Needle(outer)| ensures !Occurs(Needle(outer) + (d + after), Needle(key), i) {
      NoneInsideOtherKey(outer, d + after, key, i);
    }
    FindPast(Needle(outer), d + after, Needle(key));
  }

  /** Exactly what is read of a text one object further in, searching from that object's key on. */
  lemma InnerTextRead(ms: seq<Member>, i: nat, j: nat, rest: string) returns (p: nat)
    requires i < |ms| && ProperMembers(ms) && FirstMention(ms, i) && ms[i].value.JObj?
    requires var fs := ms[i].value.members;
      j < |fs| && ProperMembers(fs) && FirstMention(fs, j) && fs[j].name != ms[i].name && fs[j].value.JStr?
    ensures Find(Print(JObj(ms)), Needle(ms[i].name), 0) == Some(p)
    ensures var fs := ms[i].value.members;
      var piece, text := Piece(JObj(ms), rest), fs[j].value.text;
      && (OpenInside(ms, i, fs, j) ==> DepthInside(ms, i, fs, j) > 0)
      && (OpenBefore(ms, i) ==> p < |piece| && Find(piece, Needle(ms[i].name), 0) == Some(p))
      && (OpenBefore(ms, i) ==>
        StringField(piece, fs[j].name, p)
        == if OpenInside(ms, i, fs, j) then text[..ScanObject(text, DepthInside(ms, i, fs, j))] else "")
  {
    hide Find, FirstMention, FirstMember, Proper, StaysOpen, Depth, Print, PrintMembers, SkeletonOfMembers, OpenBefore,
      DepthBefore, DepthInside, ScanObject, Piece, Escape, Decode, Alike;
    var m, tail;
    p, m, tail := InnerBegins(ms, i, j);
    var fs := ms[i].value.members;
    var c, n, text, piece := Print(JObj(ms)), Needle(fs[j].name), fs[j].value.text, Piece(JObj(ms), rest);
    var q := p + m + |n|;
    var p', after := MemberBegins(ms, i);
    if OpenBefore(ms, i) {
      PieceBeyond(JObj(ms), rest, p + |Needle(ms[i].name)|);
      PieceFindsKey(c, rest, Needle(ms[i].name), p, |piece|);
      StringFieldFrom(piece, fs[j].name, p);
      assert piece[p..] == (c[p..] + rest)[..|piece| - p];
      if OpenInside(ms, i, fs, j) {
        PieceBeyond(JObj(ms), rest, q);
        PrintText(text);
        InnerTextHeld(c[p..], rest, fs[j].name, m, |piece| - p, text, tail, Depth(c[..q]));
      } else {
        CutLength(JObj(ms), rest, q);
        PieceLacksNeedle(c[p..], rest, n, m, |piece| - p);
      }
    }
  }

  lemma CutLength(item: Json, rest: string, q: nat)
    requires item.JObj? && 0 < q <= |Print(item)| && !StaysOpen(Print(item)[..q], 0)
    ensures var n := |Piece(item, rest)|; 0 < n <= q && Print(item)[n - 1] == '}'
  {
    hide StaysOpen, Print, ScanObject;
    ObjectBegins(item);
    var c := Print(item);
    assert c + rest == c[..q] + (c[q..] + rest);
    assert c[..q][0] == c[0];
    ScanStopsInside(c[..q], c[q..] + rest, 0);
  }

  lemma InnerTextHeld(c: string, rest: string, key: string, m: nat, n: nat, text: string, tail: string, depth: nat)
    requires Find(c, Needle(key), 0) == Some(m) && depth > 0
    requires var q := m + |Needle(key)|;
      q <= |c| && c[q..] == QUOTE_TEXT + (Escape(text) + QUOTE_TEXT) + tail
      && n == q + ScanObject(c[q..] + rest, depth) && n <= |c + rest|
    ensures StringField((c + rest)[..n], key, 0) == text[..ScanObject(text, depth)]
  {
    hide Find, StaysOpen, Depth, ScanObject, Escape, Decode, Alike;
    var q := m + |Needle(key)|;
    var piece := (c + rest)[..n];
    PieceFindsKey(c, rest, Needle(key), m, n);
    var s := Escape(text) + (QUOTE_TEXT + (tail + rest));
    assert c[q..] + rest == QUOTE_TEXT + s;
    AlikePlain(QUOTE_TEXT);
    PlainOpens(QUOTE_TEXT, depth);
    ScanPast(QUOTE_TEXT, s, depth);
    DecodeOfScan(text, depth, tail + rest);
    assert (c + rest)[q..] == QUOTE_TEXT + s;
    assert piece[q..] == (QUOTE_TEXT + s)[..n - q];
    assert piece[q + 1..] == s[..ScanObject(s, depth)];
    QuotedFrom(piece, q);
  }

  /** The head of an object holds no key of later members. */
  lemma HeadLacks(ms: seq<Member>, i: nat, key: string)
    requires 0 < i <= |ms| && ProperMembers(ms) && IsKey(key) && FirstInMembers(ms[..i], key).None?
    ensures Nowhere("{" + PrintUpTo(ms, i), Needle(key))
  {
    hide Nowhere, Find, WellFormed, Render, FirstKey, FirstInMembers, Proper, MemberTokens, PrintMembers, Lookup;
    var us := ms[..i];
    var ts := MemberTokens(us);
    var full := [Mark('{')] + (ts + [Mark(',')] + []);
    MembersForm(us);
    EmptyForm();
    Punctuate(ts, Mark(','), []);
    MarkInFront(Mark('{'), ts + [Mark(',')] + []);
    MembersAreRendered(us);
    assert ts + [Mark(',')] + [] == ts + [Mark(',')];
    RenderConcat([Mark('{')], ts + [Mark(',')]);
    RenderConcat(ts, [Mark(',')]);
    RenderOne(Mark('{'));
    RenderOne(Mark(','));
    LookupInMembers(us, key);
    MarkHasNoKey('{', key);
    MarkHasNoKey(',', key);
    AgreesConcat(ts, [Mark(',')], key, None, None);
    AgreesConcat([Mark('{')], ts + [Mark(',')], key, None, None);
    FindKey(full, key);
    NowhereIsUnfound(Render(full), Needle(key));
  }

  // ---- lists inside a piece -----------------------------------------------------------------

  lemma {:induction false} ScanDeeper(s: string, d: nat, e: nat)
    requires d <= e && (d > 0 || (s != "" && s[0] == '{'))
    ensures ScanObject(s, d) <= ScanObject(s, e)
  {
    if s != "" {
      if s[0] == '{' {
        ScanDeeper(s[1..], d + 1, e + 1);
      } else if s[0] == '}' {
        if d > 1 {
          ScanDeeper(s[1..], d - 1, e - 1);
        }
      } else {
        ScanDeeper(s[1..], d, e);
      }
    }
  }

  lemma {:induction false} ScanTruncated(s: string, d: nat, m: nat)
    requires (d > 0 || (s != "" && s[0] == '{')) && ScanObject(s, d) <= m <= |s|
    ensures d > 0 || (m > 0 && s[..m][0] == '{')
    ensures ScanObject(s[..m], d) == ScanObject(s, d)
  {
    if s != "" {
      assert m > 0 && s[..m][0] == s[0] && s[..m][1..] == s[1..][..m - 1];
      if s[0] == '{' {
        ScanTruncated(s[1..], d + 1, m - 1);
      } else if s[0] == '}' {
        if d > 1 {
          ScanTruncated(s[1..], d - 1, m - 1);
        }
      } else {
        ScanTruncated(s[1..], d, m - 1);
      }
    }
  }
}
