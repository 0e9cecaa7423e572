/** The readers and the rewriter on text that the program did not print itself: blanks behind a
    colon, escapes it never writes, numbers that do not fit, a closing quote that is missing, lists
    with white space between their objects. */
module JsonTexts {
  import opened Text
  import opened JsonCodec
  import opened JsonTokens
  import opened JsonLookup
  import opened JsonLens
  import opened BraceWalker
  import opened BraceScan

  predicate IsPadding(pad: string) {
    forall i | 0 <= i < |pad| :: pad[i] == ' ' || pad[i] == '\t'
  }

  lemma {:induction false} PaddingIsSkipped(pad: string, rest: string)
    requires IsPadding(pad)
    ensures SkipBlanks(pad + rest) == SkipBlanks(rest)
  {
    if pad == "" {
      assert pad + rest == rest;
    } else {
      PaddingIsSkipped(pad[1..], rest);
      assert (pad + rest)[1..] == pad[1..] + rest;
    }
  }

  lemma FoundAtOnce(key: string, rest: string)
    ensures Find(Needle(key) + rest, Needle(key), 0) == Some(0)
    ensures (Needle(key) + rest)[|Needle(key)|..] == rest
  {
    FindAtOnce(Needle(key), rest);
  }

  /** A text behind any number of blanks and tabs is read, whatever it says and whatever follows. */
  lemma PaddedTextIsRead(key: string, pad: string, value: string, rest: string)
    requires IsPadding(pad)
    ensures StringField(Needle(key) + (pad + ("\"" + Escape(value) + "\"" + rest)), key, 0) == value
  {
    hide Find, Needle, Escape, Decode;
    var text := "\"" + Escape(value) + "\"" + rest;
    FoundAtOnce(key, pad + text);
    PaddingIsSkipped(pad, text);
    assert text[1..] == Escape(value) + "\"" + rest;
    DecodeEscaped(value, rest);
  }

  /** So is a flag; what stands behind it does not matter. */
  lemma PaddedFlagIsRead(key: string, pad: string, value: bool, rest: string)
    requires IsPadding(pad)
    ensures BoolField(Needle(key) + (pad + ((if value then "true" else "false") + rest)), key, 0) == Some(value)
  {
    hide Find, Needle;
    var text := (if value then "true" else "false") + rest;
    FoundAtOnce(key, pad + text);
    PaddingIsSkipped(pad, text);
    assert SkipBlanks(text) == text;
    if value {
      assert text[0..4] == "true";
    } else {
      assert text[0..5] == "false" && text[0] == 'f' && "true"[0] == 't';
      assert text[0..4][0] == 'f';
    }
  }

  /** So is a number; one that does not fit in 64 bits is told apart. */
  lemma PaddedNumberIsRead(key: string, pad: string, n: int, rest: string)
    requires IsPadding(pad) && (rest == "" || !('0' <= rest[0] <= '9'))
    ensures IntField(Needle(key) + (pad + (Decimal(n) + rest)), key, 0)
      == if -0x8000_0000_0000_0000 <= n <= 0x7FFF_FFFF_FFFF_FFFF then Int(n) else OutOfRange
  {
    hide Find, Needle, Decimal, IntAt;
    FoundAtOnce(key, pad + (Decimal(n) + rest));
    PaddedInt(pad, Decimal(n) + rest);
    NumberRead(n, rest);
  }

  lemma PaddedInt(pad: string, s: string)
    requires IsPadding(pad)
    ensures IntAt(pad + s) == IntAt(s)
  {
    PaddingIsSkipped(pad, s);
  }

  /** The rewriter replaces exactly such a text, and keeps the blanks. */
  lemma PaddedTextIsReplaced(key: string, pad: string, value: string, rest: string, other: string)
    requires IsPadding(pad)
    ensures ReplaceStringField(Needle(key) + (pad + ("\"" + Escape(value) + "\"" + rest)), key, other)
      == Needle(key) + (pad + ("\"" + Escape(other) + "\"" + rest))
  {
    hide Find, Needle, Escape, Decode, ReplaceStringAt;
    var text := "\"" + Escape(value) + "\"" + rest;
    var json := Needle(key) + (pad + text);
    FoundAtOnce(key, pad + text);
    PaddingIsSkipped(pad, text);
    assert SkipBlanks(text) == text;
    Associate(Needle(key), pad, text);
    ReplaceQuoted(json, Needle(key) + pad, value, rest, |Needle(key)|, other);
    Associate(Needle(key), pad, "\"" + Escape(other) + "\"" + rest);
  }

  /** A key that is nowhere in the text reads as nothing, and there is nothing to replace. */
  lemma MissingKeyReadsNothing(json: string, key: string, from: nat, value: string)
    requires forall i: nat :: !Occurs(json, Needle(key), i)
    ensures StringField(json, key, from) == "" && BoolField(json, key, from) == None
      && IntField(json, key, from) == NoInt
    ensures ReplaceStringField(json, key, value) == json
  {
    hide Needle;
    FindNothing(json, Needle(key), from);
    FindNothing(json, Needle(key), 0);
  }

  /** Behind the key stands something else: `c` is its first character. */
  lemma OtherValueIsNotRead(key: string, pad: string, c: char, rest: string, value: string)
    requires IsPadding(pad) && c != ' ' && c != '\t'
    ensures var json := Needle(key) + (pad + ([c] + rest));
      && (c != '"' ==> StringField(json, key, 0) == "" && ReplaceStringField(json, key, value) == json)
      && (c != 't' && c != 'f' ==> BoolField(json, key, 0) == None)
      && (c != '-' && !('0' <= c <= '9') ==> IntField(json, key, 0) == NoInt)
  {
    hide Find, Needle, Decode;
    var text := [c] + rest;
    var json := Needle(key) + (pad + text);
    FoundAtOnce(key, pad + text);
    PaddingIsSkipped(pad, text);
    assert text[0] == c && SkipBlanks(text) == text;
    assert "true"[0] == 't' && "false"[0] == 'f';
    assert |text| >= 4 ==> text[0..4][0] == c;
    assert |text| >= 5 ==> text[0..5][0] == c;
  }

  /** Numbers are decimal: the digits 0 to 9, the highest place first, a minus sign in front. */
  lemma NumbersAreDecimal(n: nat, d: nat, below: int)
    requires d < 10 && below < 0
    ensures Decimal(d) == ["0123456789"[d]]
    ensures n > 0 ==> Decimal(10 * n + d) == Decimal(n) + ["0123456789"[d]]
    ensures Decimal(below) == "-" + Decimal(-below)
  {
    assert (10 * n + d) / 10 == n && (10 * n + d) % 10 == d;
    assert DigitChar(d) == "0123456789"[d];
  }

  // ---- escapes ----------------------------------------------------------------------------

  /** What a backslash and a character stand for: the three control characters, or the character
      itself, so also `\/` and the escapes the program does not know. */
  lemma EscapeStandsFor(c: char, rest: string)
    ensures Decode("\\" + [c] + rest).0
      == [if c == 'n' then '\n' else if c == 'r' then '\r' else if c == 't' then '\t' else c] + Decode(rest).0
  {
    var s := "\\" + [c] + rest;
    assert s[1] == c && s[2..] == rest;
  }

  /** Exactly five characters are escaped. */
  lemma EscapedAs(c: char)
    ensures Escape([c]) == if c == '"' then "\\\"" else if c == '\\' then "\\\\" else if c == '\n' then "\\n"
      else if c == '\r' then "\\r" else if c == '\t' then "\\t" else [c]
  {
    assert [c][1..] == "";
    assert EscapeChar(c) + "" == EscapeChar(c);
  }

  /** A text whose closing quote is missing is read to its end; a backslash at the very end stands
      for itself. */
  lemma {:induction false} OpenTextIsRead(value: string)
    ensures Decode(Escape(value)) == (value, |Escape(value)|)
    ensures Decode(Escape(value) + "\\").0 == value + "\\"
  {
    hide Decode, EscapeChar, UnescapeChar;
    if value == "" {
      OpenEnds();
    } else {
      var c, more := value[0], value[1..];
      OpenTextIsRead(more);
      DecodeOne(c, Escape(more));
      DecodeOne(c, Escape(more) + "\\");
      Associate(EscapeChar(c), Escape(more), "\\");
      assert value == [c] + more;
      Associate([c], more, "\\");
    }
  }

  lemma OpenEnds()
    ensures Escape("") == "" && Decode("") == ("", 0) && Decode("" + "\\").0 == "" + "\\"
  {
    assert "" + "\\" == "\\" && "\\"[1..] == "";
  }

  // ---- lists --------------------------------------------------------------------------------

  /** Spaces, tabs, line ends and commas, in any number and order. */
  predicate IsGap(s: string) {
    forall i | 0 <= i < |s| :: s[i] == ' ' || s[i] == '\t' || s[i] == '\n' || s[i] == '\r' || s[i] == ','
  }

  function Spread(objects: seq<string>, gaps: seq<string>): string
    requires |objects| == |gaps|
  {
    if objects == [] then "" else gaps[0] + (objects[0] + Spread(objects[1..], gaps[1..]))
  }

  lemma {:induction false} GapIsSkipped(gap: string, rest: string)
    requires IsGap(gap)
    ensures SplitObjects(gap + rest) == SplitObjects(rest)
  {
    hide SplitObjects;
    if gap == "" {
      assert gap + rest == rest;
    } else {
      GapIsSkipped(gap[1..], rest);
      assert (gap + rest)[0] == gap[0] && (gap + rest)[1..] == gap[1..] + rest;
      SeparatorIsSkipped(gap + rest);
    }
  }

  lemma SeparatorIsSkipped(s: string)
    requires s != "" && IsSeparator(s[0])
    ensures SplitObjects(s) == SplitObjects(s[1..])
  {
  }

  /** Objects are split the same whatever white space and commas stand between them. */
  lemma {:induction false} SpreadIsSplit(objects: seq<string>, gaps: seq<string>, last: string, tail: string)
    requires |objects| == |gaps| && AllBalanced(objects) && IsGap(last)
    requires forall i | 0 <= i < |gaps| :: IsGap(gaps[i])
    ensures SplitObjects(Spread(objects, gaps) + (last + ("]" + tail))) == objects
  {
    hide SplitObjects, Balanced, IsGap;
    var ending := last + ("]" + tail);
    if objects == [] {
      assert "" + ending == ending;
      GapIsSkipped(last, "]" + tail);
      SplitEnd(tail);
    } else {
      var more := Spread(objects[1..], gaps[1..]) + ending;
      SpreadIsSplit(objects[1..], gaps[1..], last, tail);
      Associate(gaps[0], objects[0] + Spread(objects[1..], gaps[1..]), ending);
      Associate(objects[0], Spread(objects[1..], gaps[1..]), ending);
      GapIsSkipped(gaps[0], objects[0] + more);
      assert objects[0] != "" by { BalancedIsSome(objects[0]); }
      SplitHead(objects[0], more);
      assert objects == [objects[0]] + objects[1..];
    }
  }

  lemma BalancedIsSome(s: string)
    requires Balanced(s)
    ensures s != ""
  {
  }

  /** The list is looked for behind its key, whatever stands in between without a bracket. */
  lemma PaddedListIsFound(key: string, pad: string, body: string)
    requires IsKey(key) && '[' !in pad
    ensures ObjectArray(Needle(key) + (pad + ("[" + body)), key) == SplitObjects(body)
  {
    hide Find, SplitObjects;
    var json, n := Needle(key) + (pad + ("[" + body)), |Needle(key)| + |pad|;
    FoundAtOnce(key, pad + ("[" + body));
    assert json[n..n + 1] == "[" && json[n + 1..] == body;
    forall k | 0 <= k < n ensures !Occurs(json, "[", k) {
      assert json[k] == (if k < |Needle(key)| then Needle(key)[k] else pad[k - |Needle(key)|]);
      assert json[k..k + 1][0] == json[k];
    }
    FindFirst(json, "[", 0, n);
  }

  /** At anything else but an object the walker stops. */
  lemma OtherCharacterEnds(c: char, rest: string)
    requires c != '{' && !IsGap([c])
    ensures SplitObjects([c] + rest) == []
  {
    var s := [c] + rest;
    assert s[0] == c;
    assert [c][0] == c;
    assert SkipSeparators(s) == s;
  }

  /** An object that never closes is taken to the end of the text. */
  lemma OpenObjectIsTaken(s: string)
    requires s != "" && s[0] == '{' && StaysOpen(s, 0)
    ensures SplitObjects(s) == [s]
  {
    hide StaysOpen, ScanObject;
    ScanPast(s, "", 0);
    assert s + "" == s && SkipSeparators(s) == s;
    assert s[..|s|] == s && s[|s|..] == "";
    NothingIsSplit();
  }

  lemma NothingIsSplit()
    ensures SplitObjects("") == [] && forall d: nat | d > 0 :: ScanObject("", d) == 0
  {
  }
}
