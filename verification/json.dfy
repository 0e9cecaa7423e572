/** The hand-written JSON codec of `src/net/json.cpp` and the in-place field rewriter of
    `cli/host.cpp`. Values are escaped with the subset `\" \\ \n \r \t` of the escapes of
    section 7 of RFC 8259; a field is looked up by searching for the text `"key":`. */
module JsonCodec {
  import opened Text

  // ---- printing ----------------------------------------------------------

  const QUOTE := '"'

  function EscapeChar(c: char): string {
    match c
    case '\\' => "\\\\"
    case '"' => "\\\""
    case '\n' => "\\n"
    case '\r' => "\\r"
    case '\t' => "\\t"
    case _ => [c]
  }

  function Escape(s: string): string {
    if s == "" then "" else EscapeChar(s[0]) + Escape(s[1..])
  }

  method EscapeJsonString(input: string) returns (escaped: string)
    ensures escaped == Escape(input)
  {
    escaped := "";
    for i := 0 to |input|
      invariant escaped + Escape(input[i..]) == Escape(input)
    {
      ghost var rest := input[i + 1..];
      assert Escape(input[i..]) == EscapeChar(input[i]) + Escape(rest) by {
        assert input[i..][1..] == rest;
      }
      assert escaped + (EscapeChar(input[i]) + Escape(rest)) == escaped + EscapeChar(input[i]) + Escape(rest);
      escaped := escaped + EscapeChar(input[i]);
    }
  }

  function Needle(key: string): string {
    "\"" + key + "\":"
  }

  function JsonStringField(key: string, value: string): string {
    "\"" + key + "\":\"" + Escape(value) + "\""
  }

  function JsonBoolField(key: string, value: bool): string {
    "\"" + key + "\":" + (if value then "true" else "false")
  }

  // ---- reading -----------------------------------------------------------

  function UnescapeChar(c: char): char {
    match c
    case 'n' => '\n'
    case 'r' => '\r'
    case 't' => '\t'
    case _ => c
  }

  predicate IsBlank(c: char) { c == ' ' || c == '\t' }

  function SkipBlanks(s: string): (t: string)
    ensures |t| <= |s|
  {
    if s != "" && IsBlank(s[0]) then SkipBlanks(s[1..]) else s
  }

  /** Reads a string body up to its closing quote: the value, and the characters consumed. */
  function Decode(s: string): (r: (string, nat))
    ensures r.1 <= |s|
  {
    if s == "" then ("", 0)
    else if s[0] == '\\' && |s| > 1 then
      var (value, n) := Decode(s[2..]);
      ([UnescapeChar(s[1])] + value, n + 2)
    else if s[0] == QUOTE then ("", 1)
    else
      var (value, n) := Decode(s[1..]);
      ([s[0]] + value, n + 1)
  }

  /** The string value standing at the start of `s`, or "" when there is none. */
  function StringAt(s: string): string {
    var t := SkipBlanks(s);
    if t == "" || t[0] != QUOTE then "" else Decode(t[1..]).0
  }

  function StringField(json: string, key: string, from: nat): string {
    match Find(json, Needle(key), from)
    case None => ""
    case Some(i) => StringAt(json[i + |Needle(key)|..])
  }

  function BoolAt(s: string): Option<bool> {
    var t := SkipBlanks(s);
    if Occurs(t, "true", 0) then Some(true)
    else if Occurs(t, "false", 0) then Some(false)
    else None
  }

  function BoolField(json: string, key: string, from: nat): Option<bool> {
    match Find(json, Needle(key), from)
    case None => None
    case Some(i) => BoolAt(json[i + |Needle(key)|..])
  }

  /** `std::stoll` throws when the digits do not fit in 64 bits. */
  datatype IntResult = NoInt | Int(value: int) | OutOfRange

  const INT64_MIN := -0x8000_0000_0000_0000
  const INT64_MAX := 0x7FFF_FFFF_FFFF_FFFF

  predicate IsInt64(n: int) { INT64_MIN <= n <= INT64_MAX }

  function IntAt(s: string): IntResult {
    var t := SkipBlanks(s);
    var negative := t != "" && t[0] == '-';
    var digits := if negative then t[1..] else t;
    var run := DigitRun(digits);
    if run == 0 then NoInt
    else
      var magnitude: int := DigitsValue(digits[..run]);
      var n: int := if negative then -magnitude else magnitude;
      if IsInt64(n) then Int(n) else OutOfRange
  }

  function IntField(json: string, key: string, from: nat): IntResult {
    match Find(json, Needle(key), from)
    case None => NoInt
    case Some(i) => IntAt(json[i + |Needle(key)|..])
  }

  /** The text with the string value standing at `from` replaced; unchanged when the value
      there is not a string. */
  function ReplaceStringAt(json: string, from: nat, value: string): string
    requires from <= |json|
  {
    var t := SkipBlanks(json[from..]);
    var start := |json| - |t|;
    if t == "" || t[0] != QUOTE then json
    else json[..start] + ("\"" + Escape(value) + "\"") + json[start + 1 + Decode(t[1..]).1..]
  }

  function ReplaceStringField(json: string, key: string, value: string): string {
    match Find(json, Needle(key), 0)
    case None => json
    case Some(i) => ReplaceStringAt(json, i + |Needle(key)|, value)
  }

  // ---- the cursor loops ----------------------------------------------------

  /** `while (cursor < size && blank) ++cursor;`, the loop all three readers begin with. */
  method SkipBlanksFrom(json: string, start: nat) returns (cursor: nat)
    requires start <= |json|
    ensures start <= cursor <= |json| && json[cursor..] == SkipBlanks(json[start..])
  {
    cursor := start;
    while cursor < |json| && IsBlank(json[cursor])
      invariant start <= cursor <= |json|
      invariant SkipBlanks(json[cursor..]) == SkipBlanks(json[start..])
    {
      assert json[cursor..][1..] == json[cursor + 1..];
      cursor := cursor + 1;
    }
  }

  /** One round of the reading loop. */
  lemma DecodeStep(json: string, cursor: nat)
    requires cursor < |json|
    ensures var c, d := json[cursor], Decode(json[cursor..]);
      if c == '\\' && cursor + 1 < |json| then
        var (value, n) := Decode(json[cursor + 2..]);
        d == ([UnescapeChar(json[cursor + 1])] + value, n + 2)
      else if c == QUOTE then d == ("", 1)
      else
        var (value, n) := Decode(json[cursor + 1..]);
        d == ([c] + value, n + 1)
  {
    var s := json[cursor..];
    assert s[1..] == json[cursor + 1..];
    if |s| > 1 {
      assert s[2..] == json[cursor + 2..];
    }
  }

  lemma DecodeNothing(json: string)
    ensures Decode(json[|json|..]) == ("", 0)
  {
  }

  /** The part of `extract_json_string_field` after the field was found. */
  method ReadString(json: string, start: nat) returns (value: string)
    requires start <= |json|
    ensures value == StringAt(json[start..])
  {
    DecodeNothing(json);
    hide Decode, SkipBlanks;
    value := "";
    var cursor := SkipBlanksFrom(json, start);
    if cursor >= |json| || json[cursor] != QUOTE { return; }
    ghost var body := json[cursor + 1..];
    assert json[cursor..][1..] == body;
    cursor := cursor + 1;
    assert value + Decode(body).0 == Decode(body).0;
    while cursor < |json|
      invariant cursor <= |json|
      invariant value + Decode(json[cursor..]).0 == Decode(body).0
    {
      DecodeStep(json, cursor);
      var character := json[cursor];
      cursor := cursor + 1;
      if character == '\\' && cursor < |json| {
        Associate(value, [UnescapeChar(json[cursor])], Decode(json[cursor + 1..]).0);
        value := value + [UnescapeChar(json[cursor])];
        cursor := cursor + 1;
        continue;
      }
      if character == QUOTE { break; }
      Associate(value, [character], Decode(json[cursor..]).0);
      value := value + [character];
    }
  }

  method ExtractJsonStringField(json: string, fieldName: string, searchFrom: nat) returns (value: string)
    ensures value == StringField(json, fieldName, searchFrom)
  {
    hide Find, StringAt, Needle;
    var found := Find(json, Needle(fieldName), searchFrom);
    if found.None? { return ""; }
    value := ReadString(json, found.value + |Needle(fieldName)|);
  }

  method ExtractJsonBoolField(json: string, fieldName: string, searchFrom: nat) returns (value: Option<bool>)
    ensures value == BoolField(json, fieldName, searchFrom)
  {
    var found := Find(json, Needle(fieldName), searchFrom);
    if found.None? { return None; }
    var cursor := SkipBlanksFrom(json, found.value + |Needle(fieldName)|);
    var rest := json[cursor..];
    if Occurs(rest, "true", 0) { return Some(true); }
    if Occurs(rest, "false", 0) { return Some(false); }
    return None;
  }

  method SkipDigits(json: string, start: nat) returns (cursor: nat)
    requires start <= |json|
    ensures cursor == start + DigitRun(json[start..])
  {
    cursor := start;
    while cursor < |json| && IsDigit(json[cursor])
      invariant start <= cursor <= |json|
      invariant cursor + DigitRun(json[cursor..]) == start + DigitRun(json[start..])
    {
      assert json[cursor..][1..] == json[cursor + 1..];
      cursor := cursor + 1;
    }
  }

  /** The part of `extract_json_int_field` after the field was found. */
  method ReadInt(json: string, from: nat) returns (value: IntResult)
    requires from <= |json|
    ensures value == IntAt(json[from..])
  {
    var start := SkipBlanksFrom(json, from);
    var digitsStart := start;
    if start < |json| && json[start] == '-' {
      digitsStart := start + 1;
      assert json[start..][1..] == json[digitsStart..];
    }
    var cursor := SkipDigits(json, digitsStart);
    if cursor == digitsStart { return NoInt; }
    var magnitude: int := DigitsValue(json[digitsStart..][..cursor - digitsStart]);
    var n: int := if digitsStart > start then -magnitude else magnitude;
    return if IsInt64(n) then Int(n) else OutOfRange;
  }

  method ExtractJsonIntField(json: string, fieldName: string, searchFrom: nat) returns (value: IntResult)
    ensures value == IntField(json, fieldName, searchFrom)
  {
    hide Find, IntAt, Needle;
    var found := Find(json, Needle(fieldName), searchFrom);
    if found.None? { return NoInt; }
    value := ReadInt(json, found.value + |Needle(fieldName)|);
  }

  /** The scan of `replace_json_string_field_value` from just after the opening quote. */
  method SkipStringBody(json: string, start: nat) returns (cursor: nat)
    requires start <= |json|
    ensures cursor == start + Decode(json[start..]).1
  {
    hide Decode;
    cursor := start;
    while cursor < |json|
      invariant start <= cursor <= |json|
      invariant cursor + Decode(json[cursor..]).1 == start + Decode(json[start..]).1
    {
      DecodeStep(json, cursor);
      if json[cursor] == '\\' && cursor + 1 < |json| {
        cursor := cursor + 2;
        continue;
      }
      if json[cursor] == QUOTE {
        cursor := cursor + 1;
        break;
      }
      cursor := cursor + 1;
    }
  }

  method ReplaceString(json: string, from: nat, newValue: string) returns (result: string)
    requires from <= |json|
    ensures result == ReplaceStringAt(json, from, newValue)
  {
    var valueStart := SkipBlanksFrom(json, from);
    assert |json| - |SkipBlanks(json[from..])| == valueStart;
    if valueStart >= |json| || json[valueStart] != QUOTE { return json; }
    assert json[valueStart..][1..] == json[valueStart + 1..];
    var valueEnd := SkipStringBody(json, valueStart + 1);
    var escaped := EscapeJsonString(newValue);
    return json[..valueStart] + ("\"" + escaped + "\"") + json[valueEnd..];
  }

  method ReplaceJsonStringFieldValue(json: string, fieldName: string, newValue: string) returns (result: string)
    ensures result == ReplaceStringField(json, fieldName, newValue)
  {
    hide Find, ReplaceStringAt, Needle;
    var found := Find(json, Needle(fieldName), 0);
    if found.None? { return json; }
    result := ReplaceString(json, found.value + |Needle(fieldName)|, newValue);
  }

  // ---- what escaping guarantees ------------------------------------------------

  /** Inside an escaped value every quote follows a backslash, so none can close the string. */
  lemma {:induction false} EscapedQuotes(s: string, k: nat)
    requires k < |Escape(s)| && Escape(s)[k] == QUOTE
    ensures k > 0 && Escape(s)[k - 1] == '\\'
  {
    var head := EscapeChar(s[0]);
    if k >= |head| {
      EscapedQuotes(s[1..], k - |head|);
    }
  }

  lemma DecodeOne(c: char, tail: string)
    ensures var (value, n) := Decode(tail);
      Decode(EscapeChar(c) + tail) == ([c] + value, |EscapeChar(c)| + n)
  {
    var s := EscapeChar(c) + tail;
    if |EscapeChar(c)| == 2 {
      assert s[0] == '\\' && s[2..] == tail;
    } else {
      assert s[0] == c && s[1..] == tail;
    }
  }

  /** Reading back what was escaped gives the value and stops right after the closing quote. */
  lemma {:induction false} DecodeEscaped(value: string, rest: string)
    ensures Decode(Escape(value) + "\"" + rest) == (value, |Escape(value)| + 1)
  {
    var s := Escape(value) + "\"" + rest;
    if value == "" {
      assert s[0] == QUOTE;
    } else {
      var tail := Escape(value[1..]) + "\"" + rest;
      assert s == EscapeChar(value[0]) + tail;
      DecodeEscaped(value[1..], rest);
      DecodeOne(value[0], tail);
      assert value == [value[0]] + value[1..];
    }
  }

  lemma DigitsReadBack(n: nat, rest: string)
    requires rest == "" || !IsDigit(rest[0])
    ensures DigitRun(Digits(n) + rest) == |Digits(n)| && |Digits(n)| > 0
    ensures DigitsValue((Digits(n) + rest)[..|Digits(n)|]) == n
  {
    hide Digits, DigitRun, DigitsValue;
    DigitRunStops(Digits(n), rest);
    DigitsRoundTrip(n);
    assert (Digits(n) + rest)[..|Digits(n)|] == Digits(n);
  }

  /** A printed number is read back, whatever non-digit follows it. */
  lemma IntReadBack(n: int, rest: string)
    requires IsInt64(n)
    requires rest == "" || !IsDigit(rest[0])
    ensures IntAt(Decimal(n) + rest) == Int(n)
  {
    hide IntAt;
    NumberRead(n, rest);
  }

  /** A number that does not fit in 64 bits is told apart. */
  lemma NumberRead(n: int, rest: string)
    requires rest == "" || !IsDigit(rest[0])
    ensures IntAt(Decimal(n) + rest) == if IsInt64(n) then Int(n) else OutOfRange
  {
    hide Digits, DigitRun, DigitsValue;
    var s := Decimal(n) + rest;
    var magnitude := if n < 0 then -n else n;
    assert IsDigit(Digits(magnitude)[0]);
    assert SkipBlanks(s) == s;
    assert (if n < 0 then s[1..] else s) == Digits(magnitude) + rest;
    DigitsReadBack(magnitude, rest);
  }
}
