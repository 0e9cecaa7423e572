/** `replace_json_string_field_value` on a printed document: it replaces one value token and
    nothing else, so it obeys the laws of a lens. */
module JsonLens {
  import opened Text
  import opened JsonCodec
  import opened JsonTokens
  import opened JsonLookup

  /** `ts` with the string behind any blanks replaced. A key standing there is rewritten like a
      string: its name goes, its colon stays. */
  function PutValue(ts: seq<Token>, value: string): seq<Token> {
    if ts == [] then []
    else if IsBlankMark(ts[0]) then [ts[0]] + PutValue(ts[1..], value)
    else if ts[0].Str? then [Str(value)] + ts[1..]
    else if ts[0].Key? then [Str(value), Mark(':')] + ts[1..]
    else ts
  }

  /** `ts` with the string value of the first `key` replaced. */
  function Put(ts: seq<Token>, key: string, value: string): seq<Token> {
    if ts == [] then []
    else if ts[0] == Key(key) then [ts[0]] + PutValue(ts[1..], value)
    else [ts[0]] + Put(ts[1..], key, value)
  }

  /** No second key stands where the value of `key` should. */
  predicate HasValue(ts: seq<Token>, key: string) {
    Lookup(ts, key).Some? ==> !Lookup(ts, key).value.Key?
  }

  // ---- the text is rewritten token by token ----------------------------------------

  lemma ReplaceQuoted(json: string, before: string, text: string, after: string, from: nat, value: string)
    requires from <= |json| && json == before + ("\"" + Escape(text) + "\"" + after)
    requires SkipBlanks(json[from..]) == "\"" + Escape(text) + "\"" + after
    ensures ReplaceStringAt(json, from, value) == before + ("\"" + Escape(value) + "\"" + after)
  {
    hide Decode, SkipBlanks, Escape;
    var t := "\"" + Escape(text) + "\"" + after;
    assert t[1..] == Escape(text) + "\"" + after;
    DecodeEscaped(text, after);
    assert json[..|before|] == before;
    assert json[|before| + 1 + (|Escape(text)| + 1)..] == after;
  }

  lemma AssociateFour(a: string, b: string, c: string, d: string)
    ensures (a + b) + c + d == a + (b + c + d)
  {
  }

  lemma SliceShift(head: string, rest: string, i: nat)
    requires i <= |rest|
    ensures (head + rest)[..|head| + i] == head + rest[..i]
    ensures (head + rest)[|head| + i..] == rest[i..]
  {
  }

  lemma ReplaceShift(head: string, rest: string, from: nat, value: string)
    requires from <= |rest|
    ensures ReplaceStringAt(head + rest, |head| + from, value) == head + ReplaceStringAt(rest, from, value)
  {
    hide Decode, SkipBlanks, Escape;
    var t := SkipBlanks(rest[from..]);
    SliceShift(head, rest, from);
    if t != "" && t[0] == QUOTE {
      var start := |rest| - |t|;
      var end := start + 1 + Decode(t[1..]).1;
      var quoted := "\"" + Escape(value) + "\"";
      SliceShift(head, rest, start);
      SliceShift(head, rest, end);
      AssociateFour(head, rest[..start], quoted, rest[end..]);
    }
  }

  lemma {:induction false} ReplaceValue(ts: seq<Token>, value: string)
    requires WellFormed(ts)
    ensures ReplaceStringAt(Render(ts), 0, value) == Render(PutValue(ts, value))
  {
    var json := Render(ts);
    assert json[0..] == json;
    if ts == [] {
    } else if IsBlankMark(ts[0]) {
      var rest := Render(ts[1..]);
      assert ts[1..][Blanks(ts[1..])..] == ts[Blanks(ts)..];
      ReplaceValue(ts[1..], value);
      assert rest[0..] == rest;
      ReplaceShift([ts[0].c], rest, 0, value);
      SkipOneBlank(ts[0].c, rest, value);
      assert PutValue(ts, value)[1..] == PutValue(ts[1..], value);
    } else {
      var rest := Render(ts[1..]);
      NotBlank(ts[0], rest);
      if ts[0].Str? {
        ReplaceQuoted(json, "", ts[0].text, rest, 0, value);
        assert PutValue(ts, value)[1..] == ts[1..];
      } else if ts[0].Key? {
        ReplaceKey(ts[0].name, ts[1..], value);
      }
    }
  }

  lemma ReplaceKey(name: string, ts: seq<Token>, value: string)
    requires IsKey(name)
    ensures ReplaceStringAt(Render([Key(name)] + ts), 0, value) == Render([Str(value), Mark(':')] + ts)
  {
    var rest := Render(ts);
    var json := "\"" + Escape(name) + "\"" + (":" + rest);
    EscapeKey(name);
    RenderConcat([Key(name)], ts);
    assert Render([Key(name)]) == Needle(name) by { assert [Key(name)][1..] == []; }
    assert Needle(name) + rest == json;
    assert json[0..] == json && SkipBlanks(json) == json;
    ReplaceQuoted(json, "", name, ":" + rest, 0, value);
    RenderConcat([Str(value), Mark(':')], ts);
    var quoted := "\"" + Escape(value) + "\"";
    assert Render([Str(value), Mark(':')]) == quoted + ":" by {
      assert [Str(value), Mark(':')][1..] == [Mark(':')] && [Mark(':')][1..] == [];
    }
    assert "" + (quoted + (":" + rest)) == quoted + ":" + rest;
  }

  lemma SkipOneBlank(c: char, rest: string, value: string)
    requires IsBlank(c)
    ensures ReplaceStringAt([c] + rest, 0, value) == ReplaceStringAt([c] + rest, 1, value)
  {
    var json := [c] + rest;
    assert json[0..] == json && json[1..] == rest;
  }

  lemma {:induction false} PutSplits(ts: seq<Token>, key: string, value: string, j: nat)
    requires FirstKey(ts, key) == Some(j)
    ensures Put(ts, key, value) == ts[..j + 1] + PutValue(ts[j + 1..], value)
  {
    if j > 0 {
      PutSplits(ts[1..], key, value, j - 1);
      assert ts[..j + 1] == [ts[0]] + ts[1..][..j];
    }
  }

  lemma {:induction false} PutAbsent(ts: seq<Token>, key: string, value: string)
    requires FirstKey(ts, key) == None
    ensures Put(ts, key, value) == ts
  {
    if ts != [] {
      PutAbsent(ts[1..], key, value);
    }
  }

  /** Rewriting the value behind `head` leaves `head` alone. */
  lemma ReplaceBehind(head: string, us: seq<Token>, from: nat, value: string)
    requires from <= |head + Render(us)| && (head + Render(us))[from..] == Render(us)
    requires WellFormed(us)
    ensures ReplaceStringAt(head + Render(us), from, value) == head + Render(PutValue(us, value))
  {
    ReplaceValue(us, value);
    ReplaceShift(head, Render(us), 0, value);
    assert |(head + Render(us))[from..]| == |Render(us)|;
  }

  lemma ReplaceTail(before: seq<Token>, us: seq<Token>, from: nat, value: string)
    requires from <= |Render(before + us)| && Render(before + us)[from..] == Render(us)
    requires WellFormed(us)
    ensures ReplaceStringAt(Render(before + us), from, value) == Render(before + PutValue(us, value))
  {
    RenderConcat(before, us);
    ReplaceBehind(Render(before), us, from, value);
    RenderConcat(before, PutValue(us, value));
  }

  lemma ReplaceAtKey(ts: seq<Token>, key: string, value: string, j: nat, from: nat)
    requires WellFormed(ts) && FirstKey(ts, key) == Some(j)
    requires from <= |Render(ts)| && Render(ts)[from..] == Render(ts[j + 1..])
    ensures ReplaceStringAt(Render(ts), from, value) == Render(Put(ts, key, value))
  {
    hide Render, WellFormed, ReplaceStringAt, PutValue, Put;
    WellFormedDrop(ts, j + 1);
    PutSplits(ts, key, value, j);
    assert ts == ts[..j + 1] + ts[j + 1..];
    ReplaceTail(ts[..j + 1], ts[j + 1..], from, value);
  }

  /** The rewriter replaces the value token of the first such key, and only that. */
  lemma ReplaceIsPut(ts: seq<Token>, key: string, value: string)
    requires WellFormed(ts) && IsKey(key)
    ensures ReplaceStringField(Render(ts), key, value) == Render(Put(ts, key, value))
  {
    hide Find, Render, WellFormed, FirstKey, FirstValue, ReplaceStringAt, Put, Needle, IsKey;
    Located(ts, key);
    var j, i := FirstKey(ts, key), Find(Render(ts), Needle(key), 0);
    if j.None? {
      PutAbsent(ts, key, value);
    } else {
      ReplaceAtKey(ts, key, value, j.value, i.value + |Needle(key)|);
    }
  }

  // ---- the laws ------------------------------------------------------------------------

  lemma {:induction false} PutValueKeepsForm(t: Token, ts: seq<Token>, value: string)
    requires t.Key? || t.Mark?
    requires WellFormed(ts) && Fits(t, Head(ts)) && (FirstValue(ts).Some? ==> !FirstValue(ts).value.Key?)
    ensures WellFormed(PutValue(ts, value)) && Fits(t, Head(PutValue(ts, value)))
    decreases |ts|
  {
    if ts != [] && IsBlankMark(ts[0]) {
      assert ts[1..][Blanks(ts[1..])..] == ts[Blanks(ts)..];
      PutValueKeepsForm(ts[0], ts[1..], value);
      assert PutValue(ts, value)[1..] == PutValue(ts[1..], value);
    } else if ts != [] && ts[0].Str? {
      assert PutValue(ts, value)[1..] == ts[1..];
    }
  }

  lemma {:induction false} PutKeepsForm(ts: seq<Token>, key: string, value: string)
    requires WellFormed(ts) && HasValue(ts, key)
    ensures WellFormed(Put(ts, key, value))
    ensures ts == [] <==> Put(ts, key, value) == []
    ensures ts != [] ==> Put(ts, key, value)[0] == ts[0]
  {
    if ts != [] {
      if ts[0] == Key(key) {
        PutValueKeepsForm(ts[0], ts[1..], value);
        assert Put(ts, key, value)[1..] == PutValue(ts[1..], value);
      } else {
        LookupTail(ts, key);
        PutKeepsForm(ts[1..], key, value);
        assert Put(ts, key, value)[1..] == Put(ts[1..], key, value);
      }
    }
  }

  lemma {:induction false} PutValueGet(ts: seq<Token>, value: string)
    ensures FirstValue(PutValue(ts, value))
      == if FirstValue(ts).Some? && (FirstValue(ts).value.Str? || FirstValue(ts).value.Key?) then Some(Str(value))
      else FirstValue(ts)
  {
    var us := PutValue(ts, value);
    if ts != [] && IsBlankMark(ts[0]) {
      PutValueGet(ts[1..], value);
      assert us[1..] == PutValue(ts[1..], value);
      assert us[1..][Blanks(us[1..])..] == us[Blanks(us)..];
      assert ts[1..][Blanks(ts[1..])..] == ts[Blanks(ts)..];
    }
  }

  /** What was put is what is read. */
  lemma {:induction false} PutGet(ts: seq<Token>, key: string, value: string)
    requires Lookup(ts, key).Some? && (Lookup(ts, key).value.Str? || Lookup(ts, key).value.Key?)
    ensures Lookup(Put(ts, key, value), key) == Some(Str(value))
  {
    var us := Put(ts, key, value);
    if ts[0] == Key(key) {
      PutValueGet(ts[1..], value);
      assert us[1..] == PutValue(ts[1..], value);
    } else {
      LookupTail(ts, key);
      PutGet(ts[1..], key, value);
      assert us[1..] == Put(ts[1..], key, value);
      LookupTail(us, key);
    }
  }

  lemma LookupTail(ts: seq<Token>, key: string)
    requires ts != [] && ts[0] != Key(key)
    ensures Lookup(ts, key) == Lookup(ts[1..], key)
  {
    var j := FirstKey(ts[1..], key);
    if j.Some? {
      assert ts[1..][j.value + 1..] == ts[j.value + 2..];
    }
  }

  lemma {:induction false} PutValueFrame(ts: seq<Token>, value: string, other: string)
    requires FirstValue(ts).Some? ==> !FirstValue(ts).value.Key?
    ensures Lookup(PutValue(ts, value), other) == Lookup(ts, other)
  {
    var us := PutValue(ts, value);
    if ts != [] && IsBlankMark(ts[0]) {
      assert ts[1..][Blanks(ts[1..])..] == ts[Blanks(ts)..];
      PutValueFrame(ts[1..], value, other);
      assert us[1..] == PutValue(ts[1..], value);
      LookupTail(ts, other);
      LookupTail(us, other);
    } else if ts != [] && ts[0].Str? {
      assert us[1..] == ts[1..];
      LookupTail(ts, other);
      LookupTail(us, other);
    }
  }

  /** Every other field reads as before. */
  lemma {:induction false} PutFrame(ts: seq<Token>, key: string, value: string, other: string)
    requires HasValue(ts, key) && key != other
    ensures Lookup(Put(ts, key, value), other) == Lookup(ts, other)
  {
    if ts == [] {
      return;
    }
    var us := Put(ts, key, value);
    if ts[0] == Key(key) {
      PutValueFrame(ts[1..], value, other);
      assert us[1..] == PutValue(ts[1..], value);
      LookupTail(ts, other);
      LookupTail(us, other);
    } else {
      LookupTail(ts, key);
      PutFrame(ts[1..], key, value, other);
      assert us[1..] == Put(ts[1..], key, value);
      if ts[0] == Key(other) {
        PutKeepsFirstValue(ts[1..], key, value);
      } else {
        LookupTail(ts, other);
        LookupTail(us, other);
      }
    }
  }

  /** Putting behind a later key does not touch the value standing first. */
  lemma {:induction false} PutKeepsFirstValue(ts: seq<Token>, key: string, value: string)
    ensures FirstValue(Put(ts, key, value)) == FirstValue(ts)
  {
    var us := Put(ts, key, value);
    if ts != [] && IsBlankMark(ts[0]) {
      PutKeepsFirstValue(ts[1..], key, value);
      assert us[1..] == Put(ts[1..], key, value);
      assert us[1..][Blanks(us[1..])..] == us[Blanks(us)..];
      assert ts[1..][Blanks(ts[1..])..] == ts[Blanks(ts)..];
    }
  }

  lemma {:induction false} PutValuePut(ts: seq<Token>, first: string, second: string)
    ensures PutValue(PutValue(ts, first), second) == PutValue(ts, second)
  {
    if ts != [] && IsBlankMark(ts[0]) {
      PutValuePut(ts[1..], first, second);
      assert PutValue(ts, first)[1..] == PutValue(ts[1..], first);
    } else if ts != [] && ts[0].Str? {
      assert PutValue(ts, first)[1..] == ts[1..];
    } else if ts != [] && ts[0].Key? {
      assert PutValue(ts, first)[1..] == [Mark(':')] + ts[1..];
    }
  }

  /** The last write wins. */
  lemma {:induction false} PutPut(ts: seq<Token>, key: string, first: string, second: string)
    ensures Put(Put(ts, key, first), key, second) == Put(ts, key, second)
  {
    if ts != [] {
      if ts[0] == Key(key) {
        PutValuePut(ts[1..], first, second);
        assert Put(ts, key, first)[1..] == PutValue(ts[1..], first);
      } else {
        PutPut(ts[1..], key, first, second);
        assert Put(ts, key, first)[1..] == Put(ts[1..], key, first);
      }
    }
  }

  lemma {:induction false} PutValueSame(ts: seq<Token>)
    requires FirstValue(ts).Some? && FirstValue(ts).value.Str?
    ensures PutValue(ts, FirstValue(ts).value.text) == ts
  {
    if IsBlankMark(ts[0]) {
      assert ts[1..][Blanks(ts[1..])..] == ts[Blanks(ts)..];
      PutValueSame(ts[1..]);
    }
  }

  /** Putting back what was read changes nothing. */
  lemma {:induction false} GetPut(ts: seq<Token>, key: string)
    requires Lookup(ts, key).Some? && Lookup(ts, key).value.Str?
    ensures Put(ts, key, Lookup(ts, key).value.text) == ts
  {
    if ts[0] == Key(key) {
      PutValueSame(ts[1..]);
    } else {
      LookupTail(ts, key);
      GetPut(ts[1..], key);
    }
  }

  /** The laws, for the program's own texts: after the rewrite the field reads as the new
      value, every other field of any type reads as before, a second rewrite overrides the
      first, and writing back the old value restores the text. */
  lemma ReplaceIsLens(ts: seq<Token>, key: string, value: string, second: string, other: string)
    requires WellFormed(ts) && IsKey(key) && IsKey(other) && other != key
    requires Lookup(ts, key).Some? && Lookup(ts, key).value.Str?
    ensures var json, changed := Render(ts), ReplaceStringField(Render(ts), key, value);
      && StringField(changed, key, 0) == value
      && StringField(changed, other, 0) == StringField(json, other, 0)
      && BoolField(changed, other, 0) == BoolField(json, other, 0)
      && IntField(changed, other, 0) == IntField(json, other, 0)
      && ReplaceStringField(changed, key, second) == ReplaceStringField(json, key, second)
      && ReplaceStringField(changed, key, StringField(json, key, 0)) == json
  {
    var us := Put(ts, key, value);
    ReplaceIsPut(ts, key, value);
    PutKeepsForm(ts, key, value);
    PutGet(ts, key, value);
    StringLookup(us, key);
    PutFrame(ts, key, value, other);
    StringLookup(us, other);
    StringLookup(ts, other);
    BoolLookup(us, other);
    BoolLookup(ts, other);
    IntLookup(us, other);
    IntLookup(ts, other);
    ReplaceIsPut(us, key, second);
    ReplaceIsPut(ts, key, second);
    PutPut(ts, key, value, second);
    var was := Lookup(ts, key).value.text;
    StringLookup(ts, key);
    ReplaceIsPut(us, key, was);
    PutPut(ts, key, value, was);
    GetPut(ts, key);
  }
}
