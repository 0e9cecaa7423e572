/** How much of a reply's text the walker of `src/ai/openai_compat_client.cpp` lets through. It
    counts braces inside texts, so a reply is cut at the brace that seems to close its choice. */
module ReplyTexts {
  import opened Text
  import opened JsonCodec
  import opened JsonTokens
  import opened JsonDocument
  import opened BraceWalker
  import opened BraceScan
  import opened CutObjects
  import opened ChatCompletions

  // ---- what is read of a reply --------------------------------------------------------------

  /** The walker takes the first choice from where it is printed to where the scan stops. */
  lemma FirstPiece(v: Json, choices: seq<Json>) returns (rest: string)
    requires Offers(v, choices)
    ensures ObjectArray(Print(v), "choices") != [] && ObjectArray(Print(v), "choices")[0] == Piece(choices[0], rest)
  {
    hide FirstMember, Proper, Piece;
    ReplyKeys();
    rest := FirstOfList(v, "choices", choices);
  }

  /** Exactly what is read of a reply in any printed completion. Nothing, when the braces printed
      before the text already close; otherwise the text up to the brace that brings the depth
      at its opening quote down to 0. So a non-empty text is read whole if and only if nothing
      closes before it and no proper prefix of it closes. */
  lemma ReplyReadExactly(v: Json, choices: seq<Json>, text: string) returns (q: nat)
    requires Offers(v, choices) && FirstMember(choices[0], "content") == Some(JStr(text))
    ensures var c := Print(choices[0]);
      var reply := FirstChoice(ObjectArray(Print(v), "choices")).assistant;
      && 0 < q <= |c| && Find(c, Needle("content"), 0) == Some(q - |Needle("content")| - 1)
      && (StaysOpen(c[..q], 0) ==> Depth(c[..q]) > 0)
      && reply == (if StaysOpen(c[..q], 0) then text[..ScanObject(text, Depth(c[..q]))] else "")
      && (reply == text <==>
        text == "" || (StaysOpen(c[..q], 0) && forall k | 0 <= k < |text| :: Depth(c[..q]) + Depth(text[..k]) > 0))
  {
    hide FirstMember, Proper, Print, Find, ObjectArray, StaysOpen, Depth, StringField, ScanObject;
    ReplyKeys();
    q := FieldReadExactly(v, "choices", choices, "content", text);
  }

  lemma FirstChoiceIsProper(v: Json, choices: seq<Json>)
    requires Offers(v, choices)
    ensures Proper(choices[0])
  {
    FirstIsProper(v, "choices");
    ItemIsProper(choices, 0);
  }

  // ---- the smallest completion --------------------------------------------------------------

  function Message(text: string): Json {
    JObj([Member("message", JObj([Member("content", JStr(text))]))])
  }

  function Saying(text: string): Json {
    JObj([Member("choices", JArr([Message(text)]))])
  }

  const HEAD := "{\"message\":{\"content\":\""

  lemma PrintMessage(text: string)
    ensures Print(Message(text)) == HEAD + (Escape(text) + "\"}}")
  {
    hide Print, PrintMembers, Escape;
    var value := JObj([Member("content", JStr(text))]);
    PrintSingle(Member("content", JStr(text)));
    PrintSingle(Member("message", value));
    PrintText(text);
    Bracket(Needle("message"), Needle("content"), "\"", Escape(text));
    HeadParts();
  }

  lemma Bracket(m: string, n: string, q: string, e: string)
    ensures "{" + (m + ("{" + (n + (q + e + q)) + "}")) + "}" == ("{" + m + "{" + n + q) + (e + (q + "}" + "}"))
  {
  }

  lemma HeadParts()
    ensures HEAD == "{" + Needle("message") + "{" + Needle("content") + "\"" && "\"}}" == "\"" + "}" + "}"
  {
    assert Needle("content") == "\"content\":" && Needle("message") == "\"message\":";
  }

  lemma PrintText(text: string)
    ensures Print(JStr(text)) == "\"" + Escape(text) + "\""
  {
  }

  lemma PrintSingle(m: Member)
    ensures Print(JObj([m])) == "{" + (Needle(m.name) + Print(m.value)) + "}"
  {
  }

  lemma SayingIsProper(text: string)
    ensures Offers(Saying(text), [Message(text)]) && FirstMember(Message(text), "content") == Some(JStr(text))
  {
    ReplyKeys();
    assert IsKey("message");
    var inner := JObj([Member("content", JStr(text))]);
    assert Proper(inner);
    assert Proper(Message(text));
    MessageSays(text);
  }

  lemma MessageSays(text: string)
    ensures FirstMember(Message(text), "content") == Some(JStr(text))
  {
    var inner := Member("content", JStr(text));
    assert "message"[0] == 'm' && "content"[0] == 'c';
    FirstInOne(inner, "content");
    FirstInOne(Member("message", JObj([inner])), "content");
  }

  /** Before the text two braces are open, and none has closed. */
  lemma HeadStaysOpen()
    ensures StaysOpen(HEAD, 0) && Depth(HEAD) == 2
  {
    hide Depth;
    var a, b := "\"message\":", "\"content\":\"";
    assert HEAD == "{" + (a + ("{" + b));
    PlainStaysOpen(a, b);
  }

  lemma PlainStaysOpen(a: string, b: string)
    requires '{' !in a && '}' !in a && '{' !in b && '}' !in b
    ensures StaysOpen("{" + (a + ("{" + b)), 0) && Depth("{" + (a + ("{" + b))) == 2
  {
    hide Depth, Paired;
    var head, whole := "{" + (a + ("{" + b)), "{" + (a + ("{" + b + "}")) + "}";
    PairedPlain(a);
    PairedPlain(b);
    Braced(b);
    PairedConcat(a, "{" + b + "}");
    Braced(a + ("{" + b + "}"));
    assert whole == head + "}}";
    forall k | 0 < k <= |head| ensures Depth(head[..k]) > 0 {
      assert head[..k] == whole[..k];
    }
    DepthConcat("{", a + ("{" + b));
    DepthConcat(a, "{" + b);
    DepthConcat("{", b);
    PlainDepth(a);
    PlainDepth(b);
    DepthOne("{");
    assert "{"[..1] == "{";
  }

  lemma HeadQuotes()
    ensures |HEAD| == 23 && forall k | 0 <= k < 12 :: HEAD[k] != QUOTE || HEAD[k + 1] != 'c'
  {
  }

  lemma NotHere(s: string, needle: string, k: nat)
    requires |needle| >= 2 && k + 1 < |s| && (s[k] != needle[0] || s[k + 1] != needle[1])
    ensures !Occurs(s, needle, k)
  {
    if k + |needle| <= |s| {
      var slice := s[k..k + |needle|];
      assert slice[0] == s[k] && slice[1] == s[k + 1];
    }
  }

  lemma HeadEnds(rest: string)
    ensures Find(HEAD + rest, Needle("content"), 0) == Some(12) && |HEAD| == 12 + |Needle("content")| + 1
  {
    var c, n := HEAD + rest, Needle("content");
    assert HEAD[12..22] == n;
    assert c[12..22] == HEAD[12..22];
    HeadQuotes();
    forall k | 0 <= k < 12 ensures !Occurs(c, n, k) {
      assert c[k] == HEAD[k] && c[k + 1] == HEAD[k + 1];
      NotHere(c, n, k);
    }
    FindFirst(c, n, 0, 12);
  }

  /** A reply printed alone is read up to the brace that closes two more than were opened. So it
      is read whole if and only if none of its proper prefixes closes two more than it opens. */
  lemma SayingReadExactly(text: string)
    ensures var reply := FirstChoice(ObjectArray(Print(Saying(text)), "choices")).assistant;
      && reply == text[..ScanObject(text, 2)]
      && (reply == text <==> forall k | 0 <= k < |text| :: Depth(text[..k]) > -2)
  {
    hide FirstMember, Print, Find, ObjectArray, StaysOpen, Depth, Offers, Message, ScanObject, Escape;
    SayingIsProper(text);
    var q := ReplyReadExactly(Saying(text), [Message(text)], text);
    PrintMessage(text);
    HeadEnds(Escape(text) + "\"}}");
    HeadStaysOpen();
    assert Print(Message(text))[..q] == HEAD;
  }

  /** Whatever follows two unpaired closing braces at the start of a reply is lost. */
  lemma ReplyIsCutShort(more: string)
    requires more != ""
    ensures var reply := FirstChoice(ObjectArray(Print(Saying("}}" + more)), "choices")).assistant;
      reply == "}}" && reply != "}}" + more
  {
    hide Print, ObjectArray, Depth, Saying;
    var text := "}}" + more;
    SayingReadExactly(text);
    assert text[1..] == "}" + more;
    assert text[..2] == "}}";
    assert |text| > 2;
  }
}
