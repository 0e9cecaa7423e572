/** Where the walker's depth scan stops, told from the texts of a document alone: escaping and
    punctuation neither open nor close anything. */
module BraceScan {
  import opened Text
  import opened JsonCodec
  import opened JsonDocument
  import opened BraceWalker

  // ---- where the depth scan stops ------------------------------------------------------

  /** No prefix of `s`, read from `depth`, closes. */
  predicate StaysOpen(s: string, depth: int) {
    forall k | 0 < k <= |s| :: depth + Depth(s[..k]) > 0
  }

  lemma StaysOpenTail(s: string, depth: int)
    requires s != ""
    ensures StaysOpen(s, depth) <==> depth + Depth(s[..1]) > 0 && StaysOpen(s[1..], depth + Depth(s[..1]))
  {
    forall k | 0 < k <= |s| ensures Depth(s[..k]) == Depth(s[..1]) + Depth(s[1..][..k - 1]) {
      DepthTail(s, k);
    }
    if StaysOpen(s, depth) {
      forall k | 0 < k <= |s| - 1 ensures depth + Depth(s[..1]) + Depth(s[1..][..k]) > 0 {
        assert depth + Depth(s[..k + 1]) > 0;
      }
    }
    if depth + Depth(s[..1]) > 0 && StaysOpen(s[1..], depth + Depth(s[..1])) {
      forall k | 0 < k <= |s| ensures depth + Depth(s[..k]) > 0 {
        if k == 1 {
          assert depth + Depth(s[..1]) > 0;
        } else {
          assert depth + Depth(s[..1]) + Depth(s[1..][..k - 1]) > 0;
        }
      }
    }
  }

  lemma DepthSplit(s: string)
    requires s != ""
    ensures Depth(s) == Depth(s[..1]) + Depth(s[1..])
  {
    DepthTail(s, |s|);
    assert s[..|s|] == s && s[1..][..|s| - 1] == s[1..];
  }

  /** The scan runs past a part that stays open. */
  lemma {:induction false} ScanPast(a: string, b: string, depth: nat)
    requires StaysOpen(a, depth) && (depth > 0 || (a != "" && a[0] == '{'))
    ensures depth + Depth(a) > 0
    ensures ScanObject(a + b, depth) == |a| + ScanObject(b, depth + Depth(a))
  {
    hide StaysOpen, Depth;
    if a == "" {
      assert a + b == b;
      NothingIsFlat();
    } else {
      StaysOpenTail(a, depth);
      DepthSplit(a);
      DepthOne(a);
      assert (a + b)[0] == a[0] && (a + b)[1..] == a[1..] + b;
      ScanPast(a[1..], b, depth + Depth(a[..1]));
    }
  }

  lemma NothingIsFlat()
    ensures Depth("") == 0
  {
  }

  /** In a part that does not stay open the scan stops, at a closing brace. */
  lemma {:induction false} ScanStopsInside(a: string, b: string, depth: nat)
    requires !StaysOpen(a, depth) && (depth > 0 || (a != "" && a[0] == '{'))
    ensures var n := ScanObject(a + b, depth); 0 < n <= |a| && a[n - 1] == '}'
  {
    assert a != "";
    hide StaysOpen, Depth;
    StaysOpenTail(a, depth);
    DepthOne(a);
    assert (a + b)[0] == a[0] && (a + b)[1..] == a[1..] + b;
    if depth + Depth(a[..1]) > 0 {
      ScanStopsInside(a[1..], b, depth + Depth(a[..1]));
    }
  }

  /** A scan of two parts, one behind the other. */
  lemma ScanOfTwo(a: string, b: string, depth: nat)
    requires depth > 0
    ensures StaysOpen(a, depth) ==>
      depth + Depth(a) > 0 && ScanObject(a + b, depth) == |a| + ScanObject(b, depth + Depth(a))
    ensures !StaysOpen(a, depth) ==> ScanObject(a + b, depth) == ScanObject(a, depth)
  {
    if StaysOpen(a, depth) {
      ScanPast(a, b, depth);
    } else {
      ScanStopsAlike(a, b, depth);
    }
  }

  lemma {:induction false} ScanStopsAlike(a: string, b: string, depth: nat)
    requires depth > 0 && !StaysOpen(a, depth)
    ensures ScanObject(a + b, depth) == ScanObject(a, depth)
  {
    hide StaysOpen, Depth;
    assert a != "" by { if a == "" { NothingStaysOpen(depth); } }
    StaysOpenTail(a, depth);
    DepthOne(a);
    assert (a + b)[0] == a[0] && (a + b)[1..] == a[1..] + b;
    if depth + Depth(a[..1]) > 0 {
      ScanStopsAlike(a[1..], b, depth + Depth(a[..1]));
    }
  }

  lemma OpenIsScanned(a: string, depth: nat)
    requires depth > 0 && StaysOpen(a, depth)
    ensures ScanObject(a, depth) == |a|
  {
    hide StaysOpen, Depth;
    ScanPast(a, "", depth);
    assert a + "" == a;
  }

  /** A text is scanned to its end exactly when no proper prefix of it closes. */
  lemma ScansWhole(text: string, depth: nat)
    requires depth > 0
    ensures ScanObject(text, depth) == |text| <==> forall k | 0 <= k < |text| :: depth + Depth(text[..k]) > 0
  {
    if text != "" {
      var init, last := text[..|text| - 1], text[|text| - 1..];
      assert text == init + last;
      if StaysOpen(init, depth) {
        ScanPast(init, last, depth);
        forall k | 0 <= k < |text| ensures depth + Depth(text[..k]) > 0 {
          assert text[..k] == init[..k];
        }
      } else {
        ScanStopsInside(init, last, depth);
        var k :| 0 < k <= |init| && depth + Depth(init[..k]) <= 0;
        assert text[..k] == init[..k];
      }
    }
  }

  /** Scanning the escaped text and decoding the part let through gives the part of the text
      that a scan of the text itself lets through. */
  lemma {:induction false} DecodeOfScan(text: string, depth: nat, rest: string)
    requires depth > 0
    ensures var s := Escape(text) + (QUOTE_TEXT + rest);
      Decode(s[..ScanObject(s, depth)]).0 == text[..ScanObject(text, depth)]
  {
    hide ScanObject, Decode, Depth;
    var s := Escape(text) + (QUOTE_TEXT + rest);
    if text == "" {
      assert s == QUOTE_TEXT + rest;
      ScanPlain(s, depth);
      ClosedAtOnce(s[..ScanObject(s, depth)]);
    } else {
      var c, more := text[0], text[1..];
      var t := Escape(more) + (QUOTE_TEXT + rest);
      assert s == EscapeChar(c) + t;
      var d := depth + Depth([c]);
      ScanEscapedChar(c, t, depth);
      assert text == [c] + more;
      ScanChar(c, more, depth);
      if d > 0 {
        DecodeOfScan(more, d, rest);
        var n := ScanObject(t, d);
        assert s[..|EscapeChar(c)| + n] == EscapeChar(c) + t[..n];
        DecodeOne(c, t[..n]);
        assert text[..1 + ScanObject(more, d)] == [c] + more[..ScanObject(more, d)];
      } else {
        assert s[..1] == "}";
        DecodeBrace();
        assert text[..1] == "}";
      }
    }
  }

  const QUOTE_TEXT := "\""

  lemma ClosedAtOnce(s: string)
    requires s != "" && s[0] == QUOTE
    ensures Decode(s).0 == ""
  {
  }

  lemma ScanPlain(s: string, depth: nat)
    requires depth > 0 && s != "" && s[0] == QUOTE
    ensures ScanObject(s, depth) > 0
  {
  }

  lemma ScanChar(c: char, more: string, depth: nat)
    requires depth > 0
    ensures var d := depth + Depth([c]);
      && (d > 0 ==> ScanObject([c] + more, depth) == 1 + ScanObject(more, d))
      && (d <= 0 ==> c == '}' && ScanObject([c] + more, depth) == 1)
  {
    var s := [c] + more;
    assert s[1..] == more && s[..1] == [c];
    DepthOne(s);
  }

  lemma ScanEscapedChar(c: char, t: string, depth: nat)
    requires depth > 0
    ensures var d := depth + Depth([c]);
      && (d > 0 ==> ScanObject(EscapeChar(c) + t, depth) == |EscapeChar(c)| + ScanObject(t, d))
      && (d <= 0 ==> c == '}' && ScanObject(EscapeChar(c) + t, depth) == 1)
  {
    var e := EscapeChar(c);
    if |e| == 1 {
      assert e == [c];
      ScanChar(c, t, depth);
    } else {
      assert e + t == [e[0]] + ([e[1]] + t);
      DepthOfPlain(c);
      DepthOfPlain(e[0]);
      DepthOfPlain(e[1]);
      ScanChar(e[0], [e[1]] + t, depth);
      ScanChar(e[1], t, depth);
    }
  }

  lemma DepthOfPlain(c: char)
    requires c != '{' && c != '}'
    ensures Depth([c]) == 0
  {
    PlainDepth([c]);
  }

  lemma DecodeBrace()
    ensures Decode("}").0 == "}"
  {
    assert "}"[1..] == "";
  }

  // ---- the braces of a document ----------------------------------------------------------

  lemma {:induction false} StaysOpenConcat(a: string, b: string, depth: int)
    ensures StaysOpen(a + b, depth) <==> StaysOpen(a, depth) && StaysOpen(b, depth + Depth(a))
  {
    hide StaysOpen, Depth;
    if a == "" {
      assert a + b == b;
      NothingIsFlat();
      NothingStaysOpen(depth);
    } else {
      StaysOpenTail(a, depth);
      StaysOpenTail(a + b, depth);
      assert (a + b)[1..] == a[1..] + b && (a + b)[..1] == a[..1];
      StaysOpenConcat(a[1..], b, depth + Depth(a[..1]));
      DepthSplit(a);
    }
  }

  lemma NothingStaysOpen(depth: int)
    ensures StaysOpen("", depth)
  {
  }

  /** Two texts that a scan cannot tell apart, from any depth inside an object. */
  ghost predicate Alike(a: string, b: string) {
    Depth(a) == Depth(b) && forall d: int | d > 0 :: StaysOpen(a, d) <==> StaysOpen(b, d)
  }

  lemma AlikeConcat(a: string, b: string, x: string, y: string)
    requires Alike(a, x) && Alike(b, y)
    ensures Alike(a + b, x + y)
  {
    hide StaysOpen, Depth;
    DepthConcat(a, b);
    DepthConcat(x, y);
    forall d: int | d > 0 ensures StaysOpen(a + b, d) <==> StaysOpen(x + y, d) {
      StaysOpenConcat(a, b, d);
      StaysOpenConcat(x, y, d);
      if StaysOpen(a, d) {
        OpenIsPositive(a, d);
      }
    }
  }

  lemma OpenIsPositive(a: string, depth: int)
    requires StaysOpen(a, depth) && depth > 0
    ensures depth + Depth(a) > 0
  {
    if a == "" {
      NothingIsFlat();
    } else {
      assert a[..|a|] == a;
    }
  }

  lemma AlikePlain(s: string)
    requires '{' !in s && '}' !in s
    ensures Alike(s, "")
  {
    hide Depth;
    NothingIsFlat();
    PlainDepth(s);
    forall k | 0 < k <= |s| ensures Depth(s[..k]) == 0 {
      PlainDepth(s[..k]);
    }
  }

  lemma {:induction false} AlikeEscaped(text: string)
    ensures Alike(Escape(text), text)
  {
    hide Alike, Depth, StaysOpen;
    if text == "" {
      AlikeSelf("");
    } else {
      AlikeEscaped(text[1..]);
      AlikeChar(text[0]);
      AlikeConcat(EscapeChar(text[0]), Escape(text[1..]), [text[0]], text[1..]);
      assert text == [text[0]] + text[1..];
    }
  }

  lemma AlikeSelf(s: string)
    ensures Alike(s, s)
  {
  }

  lemma AlikeChar(c: char)
    ensures Alike(EscapeChar(c), [c])
  {
    hide Alike;
    if |EscapeChar(c)| == 1 {
      assert EscapeChar(c) == [c];
      AlikeSelf([c]);
    } else {
      AlikePlain(EscapeChar(c));
      AlikePlain([c]);
      AlikeBoth(EscapeChar(c), [c], "");
    }
  }

  lemma AlikeBoth(a: string, b: string, c: string)
    requires Alike(a, c) && Alike(b, c)
    ensures Alike(a, b)
  {
  }

  /** The texts of a document, with the braces of the objects among them. */
  function Skeleton(v: Json): string {
    match v
    case JStr(text) => text
    case JArr(items) => SkeletonOfItems(items)
    case JObj(members) => "{" + SkeletonOfMembers(members) + "}"
    case _ => ""
  }

  function SkeletonOfItems(items: seq<Json>): string {
    if items == [] then "" else Skeleton(items[0]) + SkeletonOfItems(items[1..])
  }

  function SkeletonOfMembers(members: seq<Member>): string {
    if members == [] then "" else Skeleton(members[0].value) + SkeletonOfMembers(members[1..])
  }

  lemma AlikePadded(a: string, s: string, b: string, t: string)
    requires Alike(s, t) && '{' !in a && '}' !in a && '{' !in b && '}' !in b
    ensures Alike(a + s + b, t)
  {
    hide Alike;
    AlikePlain(a);
    AlikePlain(b);
    AlikeConcat(a, s, "", t);
    AlikeConcat(a + s, b, "" + t, "");
    assert "" + t == t && t + "" == t;
  }

  lemma {:induction false} PrintAlike(v: Json)
    requires Proper(v)
    ensures Alike(Print(v), Skeleton(v))
  {
    hide Alike, Depth, StaysOpen;
    match v
    case JStr(text) =>
      AlikeEscaped(text);
      AlikePadded("\"", Escape(text), "\"", text);
    case JBool(_) => AlikePlain(Print(v));
    case JInt(n) => AlikePlain(Decimal(n));
    case JArr(items) =>
      ItemsAlike(items);
      AlikePadded("[", PrintItems(items), "]", SkeletonOfItems(items));
    case JObj(members) =>
      MembersAlike(members);
      AlikeBraced(PrintMembers(members), SkeletonOfMembers(members));
  }

  lemma AlikeBraced(s: string, t: string)
    requires Alike(s, t)
    ensures Alike("{" + s + "}", "{" + t + "}")
  {
    hide Alike;
    AlikeSelf("{");
    AlikeSelf("}");
    AlikeConcat("{", s, "{", t);
    AlikeConcat("{" + s, "}", "{" + t, "}");
  }

  lemma {:induction false} ItemsAlike(items: seq<Json>)
    requires forall i | 0 <= i < |items| :: Proper(items[i])
    ensures Alike(PrintItems(items), SkeletonOfItems(items))
  {
    hide Alike, Depth, StaysOpen;
    if items == [] {
      AlikeSelf("");
    } else {
      PrintAlike(items[0]);
      ItemsAlike(items[1..]);
      if |items| > 1 {
        AlikePadded("", Print(items[0]), ",", Skeleton(items[0]));
        assert "" + Print(items[0]) + "," == Print(items[0]) + ",";
        AlikeConcat(Print(items[0]) + ",", PrintItems(items[1..]), Skeleton(items[0]), SkeletonOfItems(items[1..]));
      } else {
        assert items[1..] == [];
        assert Skeleton(items[0]) + "" == Skeleton(items[0]);
      }
    }
  }

  lemma {:induction false} MembersAlike(members: seq<Member>)
    requires ProperMembers(members)
    ensures Alike(PrintMembers(members), SkeletonOfMembers(members))
  {
    hide Alike, Depth, StaysOpen;
    if members == [] {
      AlikeSelf("");
    } else {
      var name, value := members[0].name, members[0].value;
      PrintAlike(value);
      if |members| > 1 {
        MembersAlike(members[1..]);
        AlikePadded(Needle(name), Print(value), ",", Skeleton(value));
        AlikeConcat(Needle(name) + Print(value) + ",", PrintMembers(members[1..]), Skeleton(value),
          SkeletonOfMembers(members[1..]));
      } else {
        AlikePadded(Needle(name), Print(value), "", Skeleton(value));
        assert Needle(name) + Print(value) + "" == Needle(name) + Print(value);
        assert members[1..] == [];
        assert Skeleton(value) + "" == Skeleton(value);
      }
    }
  }
}
