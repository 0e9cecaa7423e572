/** What the field readers do on a printed document: they read the value of the first such key
    in document order. */
module JsonLookup {
  import opened Text
  import opened JsonCodec
  import opened JsonTokens

  /** The position of the first `Key(key)`. */
  function FirstKey(ts: seq<Token>, key: string): (r: Option<nat>)
    ensures r.Some? ==> r.value < |ts| && ts[r.value] == Key(key)
  {
    if ts == [] then None
    else if ts[0] == Key(key) then Some(0)
    else match FirstKey(ts[1..], key)
      case None => None
      case Some(j) => Some(j + 1)
  }

  /** White space that may stand between a key and its value. */
  predicate IsBlankMark(t: Token) { t.Mark? && (t.c == ' ' || t.c == '\t') }

  /** The number of blank marks `ts` begins with. */
  function Blanks(ts: seq<Token>): (n: nat)
    ensures n <= |ts|
  {
    if ts != [] && IsBlankMark(ts[0]) then 1 + Blanks(ts[1..]) else 0
  }

  /** The token after any blanks. */
  function FirstValue(ts: seq<Token>): Option<Token> {
    Head(ts[Blanks(ts)..])
  }

  /** The value of the first `key` in document order. */
  function Lookup(ts: seq<Token>, key: string): Option<Token> {
    match FirstKey(ts, key)
    case None => None
    case Some(j) => FirstValue(ts[j + 1..])
  }

  /** A key standing where a value should would be read as a string, its own name. */
  function TextOf(t: Option<Token>): string {
    if t.Some? && t.value.Str? then t.value.text
    else if t.Some? && t.value.Key? then t.value.name
    else ""
  }

  function FlagOf(t: Option<Token>): Option<bool> {
    if t.Some? && t.value.Flag? then Some(t.value.value) else None
  }

  function IntOf(t: Option<Token>): IntResult {
    if t.Some? && t.value.Number? then Int(t.value.n) else NoInt
  }

  // ---- finding the key -------------------------------------------------------

  lemma {:induction false} FirstKeyIsFirst(ts: seq<Token>, key: string, j: nat)
    requires j < |ts| && ts[j] == Key(key) && forall k | 0 <= k < j :: ts[k] != Key(key)
    ensures FirstKey(ts, key) == Some(j)
  {
    if j > 0 {
      FirstKeyIsFirst(ts[1..], key, j - 1);
    }
  }

  lemma {:induction false} FirstKeyAbsent(ts: seq<Token>, key: string)
    requires Key(key) !in ts
    ensures FirstKey(ts, key) == None
  {
    if ts != [] {
      FirstKeyAbsent(ts[1..], key);
    }
  }

  lemma {:induction false} FindShift(head: string, rest: string, needle: string, from: nat)
    requires from >= |head|
    ensures var r := Find(rest, needle, from - |head|);
      Find(head + rest, needle, from) == if r.Some? then Some(r.value + |head|) else None
    decreases |rest| + |head| - from
  {
    OccursShift(head, rest, needle, from);
    if from + |needle| <= |head + rest| && !Occurs(head + rest, needle, from) {
      FindShift(head, rest, needle, from + 1);
    }
  }

  lemma {:induction false} FindSkip(s: string, needle: string, from: nat, until: nat)
    requires from <= until && forall i | from <= i < until :: !Occurs(s, needle, i)
    ensures Find(s, needle, from) == Find(s, needle, until)
    decreases until - from
  {
    if from < until {
      FindSkip(s, needle, from + 1, until);
    }
  }

  lemma FindPast(head: string, rest: string, needle: string)
    requires forall i | 0 <= i < |head| :: !Occurs(head + rest, needle, i)
    ensures var r := Find(rest, needle, 0);
      Find(head + rest, needle, 0) == if r.Some? then Some(r.value + |head|) else None
  {
    hide Find, Occurs;
    FindSkip(head + rest, needle, 0, |head|);
    FindShift(head, rest, needle, |head|);
  }

  lemma NoneBefore(t: Token, ts: seq<Token>, key: string)
    requires IsKey(key) && Fits(t, Head(ts)) && t != Key(key)
    ensures forall i | 0 <= i < |RenderToken(t)| :: !Occurs(RenderToken(t) + Render(ts), Needle(key), i)
  {
    forall i | 0 <= i < |RenderToken(t)|
      ensures !Occurs(RenderToken(t) + Render(ts), Needle(key), i)
    {
      NoneInside(t, ts, key, i);
    }
  }

  lemma FindBehind(t: Token, ts: seq<Token>, key: string)
    requires IsKey(key) && Fits(t, Head(ts)) && t != Key(key)
    ensures var r := Find(Render(ts), Needle(key), 0);
      Find(RenderToken(t) + Render(ts), Needle(key), 0)
        == if r.Some? then Some(r.value + |RenderToken(t)|) else None
  {
    hide Find, Occurs, RenderToken, Render, Fits, Needle;
    NoneBefore(t, ts, key);
    FindPast(RenderToken(t), Render(ts), Needle(key));
  }

  lemma FindAtOnce(needle: string, rest: string)
    ensures Find(needle + rest, needle, 0) == Some(0)
  {
    assert (needle + rest)[0..|needle|] == needle;
  }

  lemma FindInNothing(needle: string)
    requires needle != ""
    ensures Find("", needle, 0) == None
  {
  }

  /** The text search lands on the first such key, and nowhere else. */
  lemma {:induction false} FindKey(ts: seq<Token>, key: string)
    requires WellFormed(ts) && IsKey(key)
    ensures var j := FirstKey(ts, key);
      Find(Render(ts), Needle(key), 0) == if j.Some? then Some(Offset(ts, j.value)) else None
  {
    hide Find, Occurs, IsKey;
    if ts == [] {
      FindInNothing(Needle(key));
    } else if ts[0] == Key(key) {
      FindAtOnce(Needle(key), Render(ts[1..]));
    } else {
      FindBehind(ts[0], ts[1..], key);
      FindKey(ts[1..], key);
    }
  }

  /** Behind the search text stands the rendering of the tokens behind the key. */
  lemma AfterKey(ts: seq<Token>, key: string, j: nat)
    requires j < |ts| && ts[j] == Key(key)
    ensures Offset(ts, j) + |Needle(key)| <= |Render(ts)|
    ensures Render(ts)[Offset(ts, j) + |Needle(key)|..] == Render(ts[j + 1..])
  {
    RenderDrop(ts, j);
    assert ts[j..][1..] == ts[j + 1..];
    var s := Render(ts)[Offset(ts, j)..];
    assert s == Needle(key) + Render(ts[j + 1..]);
    assert s[|Needle(key)|..] == Render(ts)[Offset(ts, j) + |Needle(key)|..];
  }

  // ---- reading the value -------------------------------------------------------

  lemma {:induction false} SkipBlankMarks(ts: seq<Token>)
    requires WellFormed(ts)
    ensures SkipBlanks(Render(ts)) == Render(ts[Blanks(ts)..])
  {
    if ts != [] && IsBlankMark(ts[0]) {
      assert Render(ts)[1..] == Render(ts[1..]);
      assert ts[1..][Blanks(ts[1..])..] == ts[Blanks(ts)..];
      SkipBlankMarks(ts[1..]);
    } else if ts != [] {
      NotBlank(ts[0], Render(ts[1..]));
    }
  }

  /** The first character of a token tells what it is. */
  lemma NotBlank(t: Token, rest: string)
    requires !IsBlankMark(t)
    ensures RenderToken(t) + rest != "" && !IsBlank((RenderToken(t) + rest)[0])
    ensures (RenderToken(t) + rest)[0] == QUOTE <==> t.Str? || t.Key? || t == Mark(QUOTE)
    ensures SkipBlanks(RenderToken(t) + rest) == RenderToken(t) + rest
  {
    if t.Number? {
      var digits := Digits(if t.n < 0 then -t.n else t.n);
      assert IsDigit(digits[0]);
    }
  }

  lemma {:induction false} EscapeKey(name: string)
    requires forall i | 0 <= i < |name| :: IsKeyChar(name[i])
    ensures Escape(name) == name
  {
    if name != "" {
      EscapeKey(name[1..]);
      assert EscapeChar(name[0]) == [name[0]];
    }
  }

  /** A token that renders as a quoted text is read as that text. */
  lemma ReadQuoted(text: string, rest: string)
    ensures StringAt("\"" + Escape(text) + "\"" + rest) == text
  {
    var s := "\"" + Escape(text) + "\"" + rest;
    assert s[1..] == Escape(text) + "\"" + rest;
    DecodeEscaped(text, rest);
  }

  lemma StringAtToken(t: Token, rest: string)
    requires !IsBlankMark(t) && Fits(t, None)
    ensures StringAt(RenderToken(t) + rest) == TextOf(Some(t))
  {
    NotBlank(t, rest);
    match t
    case Str(text) =>
      ReadQuoted(text, rest);
    case Key(name) =>
      EscapeKey(name);
      ReadQuoted(name, ":" + rest);
      assert RenderToken(t) + rest == "\"" + Escape(name) + "\"" + (":" + rest);
    case _ =>
  }

  /** Reading behind blanks is reading the first token that is not blank. */
  lemma BehindBlanks(ts: seq<Token>)
    requires WellFormed(ts)
    ensures FirstValue(ts) == None ==> SkipBlanks(Render(ts)) == ""
    ensures FirstValue(ts).Some? ==>
      var us := ts[Blanks(ts)..];
      !IsBlankMark(us[0]) && Fits(us[0], Head(us[1..])) &&
      SkipBlanks(Render(ts)) == RenderToken(us[0]) + Render(us[1..])
  {
    SkipBlankMarks(ts);
    WellFormedDrop(ts, Blanks(ts));
    NoBlankLeft(ts);
  }

  lemma {:induction false} SkipBlanksTwice(s: string)
    ensures SkipBlanks(SkipBlanks(s)) == SkipBlanks(s)
  {
    if s != "" {
      SkipBlanksTwice(s[1..]);
    }
  }

  lemma StringAtTokens(ts: seq<Token>)
    requires WellFormed(ts)
    ensures StringAt(Render(ts)) == TextOf(FirstValue(ts))
  {
    BehindBlanks(ts);
    SkipBlanksTwice(Render(ts));
    if FirstValue(ts).Some? {
      var us := ts[Blanks(ts)..];
      StringAtToken(us[0], Render(us[1..]));
    }
  }

  lemma {:induction false} NoBlankLeft(ts: seq<Token>)
    ensures FirstValue(ts).Some? ==> !IsBlankMark(FirstValue(ts).value)
  {
    if ts != [] && IsBlankMark(ts[0]) {
      NoBlankLeft(ts[1..]);
      assert ts[1..][Blanks(ts[1..])..] == ts[Blanks(ts)..];
    }
  }

  lemma BoolAtTokens(ts: seq<Token>)
    requires WellFormed(ts)
    ensures BoolAt(Render(ts)) == FlagOf(FirstValue(ts))
  {
    BehindBlanks(ts);
    if FirstValue(ts).Some? {
      var us := ts[Blanks(ts)..];
      BoolAtToken(us[0], Render(us[1..]));
    }
  }

  lemma BoolAtToken(t: Token, rest: string)
    requires t.Mark? ==> IsMark(t.c)
    ensures Occurs(RenderToken(t) + rest, "true", 0) <==> t == Flag(true)
    ensures Occurs(RenderToken(t) + rest, "false", 0) <==> t == Flag(false)
  {
    var s := RenderToken(t) + rest;
    assert "true"[0] == 't' && "false"[0] == 'f';
    assert |s| >= 4 ==> s[0..4][0] == s[0];
    assert |s| >= 5 ==> s[0..5][0] == s[0];
    if t.Number? {
      assert IsDigit(Digits(if t.n < 0 then -t.n else t.n)[0]);
    } else if t == Flag(true) {
      assert s[0..4] == "true";
    } else if t == Flag(false) {
      assert s[0..5] == "false";
    }
  }

  lemma IntAtToken(t: Token, rest: seq<Token>)
    requires !IsBlankMark(t) && Fits(t, Head(rest))
    ensures IntAt(RenderToken(t) + Render(rest)) == IntOf(Some(t))
  {
    hide Decimal, Digits, DigitRun, DigitsValue;
    NotBlank(t, Render(rest));
    if t.Number? {
      if rest != [] {
        assert RenderToken(rest[0]) == [rest[0].c];
      }
      IntReadBack(t.n, Render(rest));
    }
  }

  lemma IntAtTokens(ts: seq<Token>)
    requires WellFormed(ts)
    ensures IntAt(Render(ts)) == IntOf(FirstValue(ts))
  {
    BehindBlanks(ts);
    SkipBlanksTwice(Render(ts));
    if FirstValue(ts).Some? {
      var us := ts[Blanks(ts)..];
      IntAtToken(us[0], us[1..]);
    }
  }

  // ---- the main results ------------------------------------------------------------

  /** The text behind the search result is the rendering of the tokens behind the key. */
  lemma Located(ts: seq<Token>, key: string)
    requires WellFormed(ts) && IsKey(key)
    ensures var json, j, i := Render(ts), FirstKey(ts, key), Find(Render(ts), Needle(key), 0);
      j.Some? == i.Some? && (j.Some? ==>
        json[i.value + |Needle(key)|..] == Render(ts[j.value + 1..]) && WellFormed(ts[j.value + 1..]))
  {
    hide Find, Render, WellFormed, Offset, FirstKey;
    FindKey(ts, key);
    var j := FirstKey(ts, key);
    if j.Some? {
      AfterKey(ts, key, j.value);
      WellFormedDrop(ts, j.value + 1);
    }
  }

  /** A string field is read back exactly, whatever its own and the other values contain;
      an absent key reads as "". */
  lemma StringLookup(ts: seq<Token>, key: string)
    requires WellFormed(ts) && IsKey(key)
    ensures StringField(Render(ts), key, 0) == TextOf(Lookup(ts, key))
  {
    hide Find, Render, WellFormed, FirstKey, FirstValue, StringAt, Needle, IsKey;
    Located(ts, key);
    if FirstKey(ts, key).Some? {
      StringAtTokens(ts[FirstKey(ts, key).value + 1..]);
    }
  }

  lemma BoolLookup(ts: seq<Token>, key: string)
    requires WellFormed(ts) && IsKey(key)
    ensures BoolField(Render(ts), key, 0) == FlagOf(Lookup(ts, key))
  {
    hide Find, Render, WellFormed, FirstKey, FirstValue, BoolAt, Needle, IsKey;
    Located(ts, key);
    if FirstKey(ts, key).Some? {
      BoolAtTokens(ts[FirstKey(ts, key).value + 1..]);
    }
  }

  lemma IntLookup(ts: seq<Token>, key: string)
    requires WellFormed(ts) && IsKey(key)
    ensures IntField(Render(ts), key, 0) == IntOf(Lookup(ts, key))
  {
    hide Find, Render, WellFormed, FirstKey, FirstValue, IntAt, Needle, IsKey;
    Located(ts, key);
    if FirstKey(ts, key).Some? {
      IntAtTokens(ts[FirstKey(ts, key).value + 1..]);
    }
  }
}
