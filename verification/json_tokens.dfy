/** Why looking a field up by searching for `"key":` is right. A printed document is a
    sequence of tokens; string values may hold any text at all, including `"key":` itself,
    quotes, backslashes and whole documents. The search text still occurs exactly where a
    key token stands, so the first occurrence is the first such key in document order. */
module JsonTokens {
  import opened Text
  import opened JsonCodec

  datatype Token =
    | Key(name: string)      // "name":
    | Str(text: string)      // a string value, escaped between quotes
    | Flag(value: bool)
    | Number(n: int)
    | Mark(c: char)          // punctuation or white space

  function RenderToken(t: Token): string {
    match t
    case Key(name) => Needle(name)
    case Str(text) => "\"" + Escape(text) + "\""
    case Flag(value) => if value then "true" else "false"
    case Number(n) => Decimal(n)
    case Mark(c) => [c]
  }

  function Render(ts: seq<Token>): string {
    if ts == [] then "" else RenderToken(ts[0]) + Render(ts[1..])
  }

  predicate IsKeyChar(c: char) {
    'a' <= c <= 'z' || 'A' <= c <= 'Z' || '0' <= c <= '9' || c == '_'
  }

  predicate IsKey(name: string) {
    name != "" && forall i | 0 <= i < |name| :: IsKeyChar(name[i])
  }

  predicate IsSpace(c: char) { c == ' ' || c == '\t' || c == '\n' || c == '\r' }

  /** What may follow a value. */
  predicate EndsValue(c: char) { c == ',' || c == '}' || c == ']' || IsSpace(c) }

  predicate IsMark(c: char) { c == '{' || c == '[' || EndsValue(c) }

  /** `t` is a proper token and `next` may follow it. */
  predicate Fits(t: Token, next: Option<Token>) {
    match t
    case Key(name) => IsKey(name)
    case Mark(c) => IsMark(c)
    case Number(n) => IsInt64(n) && Ends(next)
    case Str(_) => Ends(next)
    case Flag(_) => Ends(next)
  }

  predicate Ends(next: Option<Token>) {
    next.Some? ==> next.value.Mark? && EndsValue(next.value.c)
  }

  function Head(ts: seq<Token>): Option<Token> {
    if ts == [] then None else Some(ts[0])
  }

  predicate WellFormed(ts: seq<Token>) {
    ts != [] ==> Fits(ts[0], Head(ts[1..])) && WellFormed(ts[1..])
  }

  // ---- sequences of tokens -----------------------------------------------

  lemma {:induction false} RenderConcat(a: seq<Token>, b: seq<Token>)
    ensures Render(a + b) == Render(a) + Render(b)
  {
    if a == [] {
      assert a + b == b;
    } else {
      assert (a + b)[1..] == a[1..] + b;
      RenderConcat(a[1..], b);
    }
  }

  lemma {:induction false} WellFormedConcat(a: seq<Token>, b: seq<Token>)
    requires WellFormed(a) && WellFormed(b)
    requires a != [] ==> Fits(a[|a| - 1], Head(b))
    ensures WellFormed(a + b)
  {
    if a == [] {
      assert a + b == b;
    } else {
      assert (a + b)[1..] == a[1..] + b;
      if |a| > 1 {
        assert a[1..][|a[1..]| - 1] == a[|a| - 1];
      }
      WellFormedConcat(a[1..], b);
      assert |a| == 1 ==> Head((a + b)[1..]) == Head(b);
    }
  }

  lemma {:induction false} WellFormedDrop(ts: seq<Token>, j: nat)
    requires WellFormed(ts) && j <= |ts|
    ensures WellFormed(ts[j..])
  {
    if j > 0 {
      WellFormedDrop(ts[1..], j - 1);
      assert ts[1..][j - 1..] == ts[j..];
    }
  }

  /** Where token `j` begins in the text. */
  function Offset(ts: seq<Token>, j: nat): nat
    requires j <= |ts|
  {
    if j == 0 then 0 else |RenderToken(ts[0])| + Offset(ts[1..], j - 1)
  }

  lemma {:induction false} RenderDrop(ts: seq<Token>, j: nat)
    requires j <= |ts|
    ensures Offset(ts, j) <= |Render(ts)|
    ensures Render(ts)[Offset(ts, j)..] == Render(ts[j..])
  {
    if j > 0 {
      RenderDrop(ts[1..], j - 1);
      assert ts[1..][j - 1..] == ts[j..];
      var n := |RenderToken(ts[0])|;
      assert Render(ts)[n..] == Render(ts[1..]);
      assert Render(ts)[n..][Offset(ts[1..], j - 1)..] == Render(ts)[Offset(ts, j)..];
    }
  }

  // ---- where the search text can occur --------------------------------------

  /** The shape of an occurrence, character by character. */
  lemma OccurrenceShape(s: string, key: string, i: nat)
    requires Occurs(s, Needle(key), i)
    ensures i + |key| + 2 < |s|
    ensures s[i] == QUOTE && s[i + 1 + |key|] == QUOTE && s[i + 2 + |key|] == ':'
    ensures forall p | i < p <= i + |key| :: s[p] == key[p - i - 1]
  {
    var n := Needle(key);
    assert forall p | i <= p < i + |n| :: s[p] == n[p - i];
    assert n[0] == QUOTE && n[1 + |key|] == QUOTE && n[2 + |key|] == ':';
  }

  /** No occurrence begins inside a string value, whatever the value says. */
  lemma NoneInsideString(text: string, rest: string, key: string, i: nat)
    requires IsKey(key)
    requires rest == "" || EndsValue(rest[0])
    requires i < |Escape(text)| + 2
    ensures !Occurs("\"" + Escape(text) + "\"" + rest, Needle(key), i)
  {
    hide Escape, Needle, Occurs;
    var e := Escape(text);
    var s := "\"" + e + "\"" + rest;
    assert forall p | 0 < p <= |e| :: s[p] == e[p - 1];
    assert s[|e| + 1] == QUOTE && (rest != "" ==> s[|e| + 2] == rest[0]);
    if Occurs(s, Needle(key), i) {
      OccurrenceShape(s, key, i);
      var close := i + 1 + |key|;
      assert s[close - 1] == key[|key| - 1];
      if close <= |e| {
        EscapedQuotes(text, close - 1);
      }
    }
  }

  /** A key token that is not `key` holds no occurrence either. */
  lemma NoneInsideOtherKey(name: string, rest: string, key: string, i: nat)
    requires IsKey(key) && IsKey(name) && key != name
    requires i < |name| + 3
    ensures !Occurs(Needle(name) + rest, Needle(key), i)
  {
    var s := Needle(name) + rest;
    assert s[1 + |name|] == QUOTE && s[2 + |name|] == ':';
    assert forall p | 0 < p <= |name| :: s[p] == name[p - 1];
    if |key| == |name| {
      var k :| 0 <= k < |key| && key[k] != name[k];
      assert s[1 + k] == name[k];
    }
    if Occurs(s, Needle(key), i) {
      OccurrenceShape(s, key, i);
    }
  }

  lemma NoneInsideScalar(t: Token, rest: string, key: string, i: nat)
    requires t.Flag? || t.Number? || (t.Mark? && IsMark(t.c))
    requires i < |RenderToken(t)|
    ensures !Occurs(RenderToken(t) + rest, Needle(key), i)
  {
    var s := RenderToken(t) + rest;
    if Occurs(s, Needle(key), i) {
      OccurrenceShape(s, key, i);
    }
  }

  lemma NoneInside(t: Token, rest: seq<Token>, key: string, i: nat)
    requires IsKey(key) && Fits(t, Head(rest)) && t != Key(key)
    requires i < |RenderToken(t)|
    ensures !Occurs(RenderToken(t) + Render(rest), Needle(key), i)
  {
    var tail := Render(rest);
    match t
    case Str(text) =>
      if rest != [] { assert RenderToken(rest[0]) == [rest[0].c]; }
      NoneInsideString(text, tail, key, i);
      assert RenderToken(t) + tail == "\"" + Escape(text) + "\"" + tail;
    case Key(name) =>
      NoneInsideOtherKey(name, tail, key, i);
    case _ =>
      NoneInsideScalar(t, tail, key, i);
  }

  lemma OccursShift(head: string, rest: string, needle: string, i: int)
    requires i >= |head|
    ensures Occurs(head + rest, needle, i) <==> Occurs(rest, needle, i - |head|)
  {
    var s := head + rest;
    if i + |needle| <= |s| {
      assert s[i..i + |needle|] == rest[i - |head|..i - |head| + |needle|];
    }
  }

  /** `"key":` occurs in a printed document at exactly the places where that key stands. */
  lemma {:induction false} OccursOnlyAtKeys(ts: seq<Token>, key: string, i: int)
    requires WellFormed(ts) && IsKey(key)
    ensures Occurs(Render(ts), Needle(key), i)
      <==> exists j: nat :: j < |ts| && ts[j] == Key(key) && Offset(ts, j) == i
  {
    if ts == [] || i < 0 {
      return;
    }
    var head, rest := RenderToken(ts[0]), Render(ts[1..]);
    if i < |head| {
      if ts[0] != Key(key) {
        NoneInside(ts[0], ts[1..], key, i);
        assert !Occurs(Render(ts), Needle(key), i);
        OffsetBeyondHead(ts, i);
      } else if i == 0 {
        assert Render(ts)[0..|head|] == head;
        assert Offset(ts, 0) == 0;
      } else {
        KeyOccursOnce(key, rest, i);
        OffsetBeyondHead(ts, i);
      }
    } else {
      OccursShift(head, rest, Needle(key), i);
      OccursOnlyAtKeys(ts[1..], key, i - |head|);
      if Occurs(rest, Needle(key), i - |head|) {
        var j: nat :| j < |ts[1..]| && ts[1..][j] == Key(key) && Offset(ts[1..], j) == i - |head|;
        assert ts[j + 1] == Key(key) && Offset(ts, j + 1) == i;
      }
      if j: nat :| j < |ts| && ts[j] == Key(key) && Offset(ts, j) == i {
        assert j > 0 && ts[1..][j - 1] == Key(key) && Offset(ts[1..], j - 1) == i - |head|;
      }
    }
  }

  /** The only token beginning before the end of the first one is the first one. */
  lemma OffsetBeyondHead(ts: seq<Token>, i: nat)
    requires ts != [] && i < |RenderToken(ts[0])|
    ensures forall j: nat | 0 < j < |ts| :: Offset(ts, j) != i
  {
  }

  lemma KeyOccursOnce(key: string, rest: string, i: nat)
    requires IsKey(key) && 0 < i < |key| + 3
    ensures !Occurs(Needle(key) + rest, Needle(key), i)
  {
    var s := Needle(key) + rest;
    assert s[1 + |key|] == QUOTE && s[2 + |key|] == ':';
    assert forall p | 0 < p <= |key| :: s[p] == key[p - 1];
    if Occurs(s, Needle(key), i) {
      OccurrenceShape(s, key, i);
    }
  }
}
