/** Byte strings and the few standard-library string operations the program relies on.
    A `string` stands for a C++ `core::String`; each `char` is one byte. */
module Text {

  datatype Option<+T> = None | Some(value: T)
  {
    function GetOr(default: T): T {
      if Some? then value else default
    }
  }

  /** `needle` stands at position `i` of `s`. */
  predicate Occurs(s: string, needle: string, i: int) {
    0 <= i && i + |needle| <= |s| && s[i..i + |needle|] == needle
  }

  /** `s.find(needle, from)`: the first occurrence at or after `from`. */
  function Find(s: string, needle: string, from: nat): (r: Option<nat>)
    ensures r.Some? ==> from <= r.value && r.value + |needle| <= |s|
    decreases |s| - from
  {
    if from + |needle| > |s| then None
    else if Occurs(s, needle, from) then Some(from)
    else Find(s, needle, from + 1)
  }

  lemma {:induction false} FindFound(s: string, needle: string, from: nat)
    requires Find(s, needle, from).Some?
    ensures var i := Find(s, needle, from).value;
      from <= i && Occurs(s, needle, i) && forall k | from <= k < i :: !Occurs(s, needle, k)
    decreases |s| - from
  {
    if !Occurs(s, needle, from) {
      FindFound(s, needle, from + 1);
    }
  }

  /** An occurrence with none before it is the one `Find` returns. */
  lemma {:induction false} FindFirst(s: string, needle: string, from: nat, i: nat)
    requires from <= i && Occurs(s, needle, i)
    requires forall k | from <= k < i :: !Occurs(s, needle, k)
    ensures Find(s, needle, from) == Some(i)
    decreases i - from
  {
    if from < i {
      FindFirst(s, needle, from + 1, i);
    }
  }

  lemma {:induction false} FindNothing(s: string, needle: string, from: nat)
    requires forall k: nat | from <= k :: !Occurs(s, needle, k)
    ensures Find(s, needle, from) == None
    decreases |s| - from
  {
    if from + |needle| <= |s| {
      FindNothing(s, needle, from + 1);
    }
  }

  predicate Contains(s: string, needle: string) {
    Find(s, needle, 0).Some?
  }

  predicate IsUpper(c: char) { 'A' <= c <= 'Z' }

  function LowerChar(c: char): char {
    if IsUpper(c) then ((c as int) - ('A' as int) + ('a' as int)) as char else c
  }

  /** `path_guards_to_lower_ascii`: ASCII letters only, as in the "C" locale. */
  function Lower(s: string): (r: string)
    ensures |r| == |s|
    ensures forall i | 0 <= i < |s| :: r[i] == LowerChar(s[i])
  {
    seq(|s|, i requires 0 <= i < |s| => LowerChar(s[i]))
  }

  /** The pieces with `separator` between neighbours. */
  function Join(pieces: seq<string>, separator: string): string {
    if |pieces| == 0 then ""
    else if |pieces| == 1 then pieces[0]
    else pieces[0] + separator + Join(pieces[1..], separator)
  }

  // ---- decimal numbers -------------------------------------------------

  predicate IsDigit(c: char) { '0' <= c <= '9' }

  function DigitChar(d: nat): (c: char)
    requires d < 10
    ensures IsDigit(c)
  {
    (('0' as int) + d) as char
  }

  function DigitValue(c: char): (d: nat)
    requires IsDigit(c)
    ensures d < 10
  {
    (c as int) - ('0' as int)
  }

  function Digits(n: nat): (s: string)
    ensures s != "" && forall i | 0 <= i < |s| :: IsDigit(s[i])
  {
    if n < 10 then [DigitChar(n)] else Digits(n / 10) + [DigitChar(n % 10)]
  }

  /** `std::to_string`, and `operator<<` on an integer. */
  function Decimal(n: int): string {
    if n < 0 then "-" + Digits(-n) else Digits(n)
  }

  function DigitsValue(s: string): nat
    requires forall i | 0 <= i < |s| :: IsDigit(s[i])
  {
    if s == "" then 0 else 10 * DigitsValue(s[..|s| - 1]) + DigitValue(s[|s| - 1])
  }

  lemma {:induction false} DigitsRoundTrip(n: nat)
    ensures DigitsValue(Digits(n)) == n
  {
    var s := Digits(n);
    if n < 10 {
      assert s[..|s| - 1] == "";
    } else {
      assert s[..|s| - 1] == Digits(n / 10);
      DigitsRoundTrip(n / 10);
    }
  }

  /** The number of leading digits of `s`. */
  function DigitRun(s: string): (n: nat)
    ensures n <= |s| && forall i | 0 <= i < n :: IsDigit(s[i])
  {
    if s != "" && IsDigit(s[0]) then 1 + DigitRun(s[1..]) else 0
  }

  lemma {:induction false} DigitRunStops(digits: string, rest: string)
    requires forall i | 0 <= i < |digits| :: IsDigit(digits[i])
    requires rest == "" || !IsDigit(rest[0])
    ensures DigitRun(digits + rest) == |digits|
  {
    if digits == "" {
      assert digits + rest == rest;
    } else {
      assert (digits + rest)[1..] == digits[1..] + rest;
      DigitRunStops(digits[1..], rest);
    }
  }

  lemma Associate<T>(a: seq<T>, b: seq<T>, c: seq<T>)
    ensures (a + b) + c == a + (b + c)
  {
  }
}
