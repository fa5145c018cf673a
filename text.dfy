/**
 * String and number helpers shared by every part of the model: decimal
 * rendering (Rust's `to_string` / `{}` on integers), substring tests, ASCII
 * case mapping, and the relative-age wording used by two list views.
 * Strings are sequences of Unicode scalar values; case mapping covers ASCII.
 */
module Text {
  import opened Wrappers

  type byte = b: int | 0 <= b < 256

  predicate IsDigit(c: char) { '0' <= c <= '9' }

  predicate AllDigits(s: string) { forall i :: 0 <= i < |s| ==> IsDigit(s[i]) }

  function DigitChar(d: nat): (c: char)
    requires d < 10
    ensures IsDigit(c) && c as int - '0' as int == d
  {
    ('0' as int + d) as char
  }

  function DigitValue(c: char): (d: nat)
    requires IsDigit(c)
    ensures d < 10
  {
    c as int - '0' as int
  }

  /** Decimal digits of `n`, most significant first, without leading zeros. */
  function NatToString(n: nat): (s: string)
    ensures |s| >= 1 && AllDigits(s)
    ensures |s| > 1 ==> s[0] != '0'
    decreases n
  {
    if n < 10 then [DigitChar(n)] else NatToString(n / 10) + [DigitChar(n % 10)]
  }

  /** Reads a string of decimal digits back as a number. */
  function ParseNat(s: string): nat
    requires AllDigits(s)
  {
    if |s| == 0 then 0 else ParseNat(s[..|s| - 1]) * 10 + DigitValue(s[|s| - 1])
  }

  lemma {:induction false} NatToStringRoundTrip(n: nat)
    ensures ParseNat(NatToString(n)) == n
    decreases n
  {
    if n >= 10 {
      var s := NatToString(n);
      assert s[..|s| - 1] == NatToString(n / 10);
      NatToStringRoundTrip(n / 10);
    }
  }

  lemma NatToStringInjective(a: nat, b: nat)
    requires NatToString(a) == NatToString(b)
    ensures a == b
  {
    NatToStringRoundTrip(a);
    NatToStringRoundTrip(b);
  }

  const U32Limit: nat := 0x1_0000_0000

  /** Rust's `str::parse::<u32>`: an optional '+', then at least one decimal
      digit, with a value that fits in 32 bits. */
  function ParseU32(s: string): (r: Option<nat>)
    ensures r.Some? ==> r.value < U32Limit
  {
    var digits := if |s| > 0 && s[0] == '+' then s[1..] else s;
    if |digits| > 0 && AllDigits(digits) && ParseNat(digits) < U32Limit then Some(ParseNat(digits)) else None
  }

  /** A 32-bit number written in decimal parses back to itself. */
  lemma ParseU32OfString(n: nat)
    requires n < U32Limit
    ensures ParseU32(NatToString(n)) == Some(n)
  {
    NatToStringRoundTrip(n);
    assert NatToString(n)[0] != '+' by { assert IsDigit(NatToString(n)[0]); }
  }

  /** Signed decimal rendering: a leading '-' for negative numbers. */
  function IntToString(i: int): string {
    if i < 0 then "-" + NatToString(-i) else NatToString(i)
  }

  /** Rust's `/` on signed integers: the quotient rounded toward zero. */
  function TruncDiv(a: int, b: int): int
    requires b > 0
  {
    if a >= 0 then a / b else -((-a) / b)
  }

  /** Rust's `%` on signed integers: the remainder takes the dividend's sign. */
  function TruncRem(a: int, b: int): int
    requires b > 0
  {
    a - b * TruncDiv(a, b)
  }

  predicate StartsWith(s: string, prefix: string) {
    |prefix| <= |s| && s[..|prefix|] == prefix
  }

  /** `sub` occurs somewhere in `s` (Rust's `str::contains`). */
  predicate Contains(s: string, sub: string)
    decreases |s|
  {
    StartsWith(s, sub) || (|s| > 0 && Contains(s[1..], sub))
  }

  lemma {:induction false} ContainsAt(s: string, sub: string, i: nat)
    requires i + |sub| <= |s| && s[i..i + |sub|] == sub
    ensures Contains(s, sub)
    decreases i
  {
    if i > 0 {
      assert s[1..][i - 1..i - 1 + |sub|] == sub;
      ContainsAt(s[1..], sub, i - 1);
    }
  }

  lemma {:induction false} ContainsWitness(s: string, sub: string) returns (i: nat)
    requires Contains(s, sub)
    ensures i + |sub| <= |s| && s[i..i + |sub|] == sub
    decreases |s|
  {
    if StartsWith(s, sub) {
      i := 0;
    } else {
      var j := ContainsWitness(s[1..], sub);
      i := j + 1;
      assert s[i..i + |sub|] == s[1..][j..j + |sub|];
    }
  }

  /** A string lacking one of the characters of `sub` cannot contain `sub`. */
  lemma MissingCharNotContained(s: string, sub: string, k: nat)
    requires k < |sub| && sub[k] !in s
    ensures !Contains(s, sub)
  {
    if Contains(s, sub) {
      var i := ContainsWitness(s, sub);
      assert false;
    }
  }

  /** A string that contains `t + u` contains `t`. */
  lemma ContainsPrefixOf(s: string, t: string, u: string)
    requires Contains(s, t + u)
    ensures Contains(s, t)
  {
    var i := ContainsWitness(s, t + u);
    assert s[i..i + |t|] == (t + u)[..|t|] == t;
    ContainsAt(s, t, i);
  }

  lemma {:induction false} ContainsEmpty(s: string)
    ensures Contains(s, "")
  {
    assert StartsWith(s, "");
  }

  function LowerChar(c: char): char {
    if 'A' <= c <= 'Z' then (c as int + 32) as char else c
  }

  function UpperChar(c: char): char {
    if 'a' <= c <= 'z' then (c as int - 32) as char else c
  }

  /** ASCII lower-casing, character by character. */
  function Lower(s: string): (r: string)
    ensures |r| == |s|
    ensures forall i :: 0 <= i < |s| ==> r[i] == LowerChar(s[i])
  {
    seq(|s|, i requires 0 <= i < |s| => LowerChar(s[i]))
  }

  /** Text without upper-case ASCII letters is its own lower-case form. */
  lemma LowerOfLowercase(s: string)
    requires forall i :: 0 <= i < |s| ==> !('A' <= s[i] <= 'Z')
    ensures Lower(s) == s
  {
    assert forall i :: 0 <= i < |s| ==> Lower(s)[i] == s[i];
  }

  /** Lower-casing works character by character, so it distributes over an appended character. */
  lemma LowerAppend(s: string, c: char)
    ensures Lower(s + [c]) == Lower(s) + [LowerChar(c)]
  {
    assert forall i :: 0 <= i < |s| + 1 ==> Lower(s + [c])[i] == (Lower(s) + [LowerChar(c)])[i];
  }

  /** Unicode White_Space characters (Rust's `char::is_whitespace`). */
  predicate IsWhitespace(c: char) {
    || '\t' <= c <= '\r'
    || c == ' '
    || c == '\U{85}' || c == '\U{a0}' || c == '\U{1680}'
    || '\U{2000}' <= c <= '\U{200a}'
    || c == '\U{2028}' || c == '\U{2029}' || c == '\U{202f}' || c == '\U{205f}' || c == '\U{3000}'
  }

  /** `s` without its trailing whitespace (Rust's `str::trim_end`). */
  function TrimEndSpace(s: string): (r: string)
    ensures |r| <= |s| && r == s[..|r|]
    ensures |r| > 0 ==> !IsWhitespace(r[|r| - 1])
    ensures forall i :: |r| <= i < |s| ==> IsWhitespace(s[i])
    decreases |s|
  {
    if |s| > 0 && IsWhitespace(s[|s| - 1]) then TrimEndSpace(s[..|s| - 1]) else s
  }

  /** Every occurrence of `from` replaced by `to` (Rust's `str::replace` on a char). */
  function ReplaceChar(s: string, from: char, to: char): (r: string)
    ensures |r| == |s|
    ensures forall i :: 0 <= i < |s| ==> r[i] == if s[i] == from then to else s[i]
  {
    seq(|s|, i requires 0 <= i < |s| => if s[i] == from then to else s[i])
  }

  /** `s` with every trailing `c` removed (Rust's `trim_end_matches` on a char). */
  function TrimEnd(s: string, c: char): (r: string)
    ensures |r| <= |s| && r == s[..|r|]
    ensures |r| > 0 ==> r[|r| - 1] != c
    ensures forall i :: |r| <= i < |s| ==> s[i] == c
    decreases |s|
  {
    if |s| > 0 && s[|s| - 1] == c then TrimEnd(s[..|s| - 1], c) else s
  }

  /** The text after the last `c`, or all of `s` when it holds no `c`
      (Rust's `rsplit(c).next()`). */
  function AfterLast(s: string, c: char): (r: string)
    ensures |r| <= |s| && c !in r
    decreases |s|
  {
    if |s| == 0 then ""
    else if s[|s| - 1] == c then ""
    else AfterLast(s[..|s| - 1], c) + [s[|s| - 1]]
  }

  /** The text after the last `c` is a suffix of `s`, and it is preceded by
      `c` unless it is all of `s`. */
  lemma {:induction false} AfterLastIsSuffix(s: string, c: char)
    ensures var r := AfterLast(s, c);
      && r == s[|s| - |r|..]
      && (|r| < |s| ==> s[|s| - |r| - 1] == c)
    decreases |s|
  {
    if |s| > 0 && s[|s| - 1] != c {
      var init := s[..|s| - 1];
      AfterLastIsSuffix(init, c);
      var r := AfterLast(init, c);
      var j := |init| - |r|;
      assert init[j..] == s[j..|s| - 1];
      assert s[j..] == s[j..|s| - 1] + [s[|s| - 1]];
      if j > 0 {
        assert s[j - 1] == init[j - 1];
      }
    }
  }

  /** The parts separated by `sep` (Rust's `join`). */
  function Join(parts: seq<string>, sep: string): string
    decreases |parts|
  {
    if |parts| == 0 then ""
    else if |parts| == 1 then parts[0]
    else parts[0] + sep + Join(parts[1..], sep)
  }

  /** Rust's `Ord` on strings: lexicographic by character (UTF-8 byte order
      agrees with code point order). */
  predicate LexLe(a: string, b: string)
    decreases |a|
  {
    |a| == 0 || (|b| > 0 && (a[0] < b[0] || (a[0] == b[0] && LexLe(a[1..], b[1..]))))
  }

  /** Any two strings are ordered one way or the other. */
  lemma {:induction false} LexLeTotal(a: string, b: string)
    ensures LexLe(a, b) || LexLe(b, a)
    decreases |a|
  {
    if |a| > 0 && |b| > 0 && a[0] == b[0] {
      LexLeTotal(a[1..], b[1..]);
    }
  }

  lemma {:induction false} LexLeTrans(a: string, b: string, c: string)
    requires LexLe(a, b) && LexLe(b, c)
    ensures LexLe(a, c)
    decreases |a|
  {
    if |a| > 0 && a[0] == b[0] && b[0] == c[0] {
      LexLeTrans(a[1..], b[1..], c[1..]);
    }
  }

  /** `n` spaces. */
  function Spaces(n: nat): (r: string)
    ensures |r| == n && forall i :: 0 <= i < n ==> r[i] == ' '
  {
    seq(n, _ => ' ')
  }

  /** The unit and count shown for an age of `secs` seconds: seconds below a
      minute, whole minutes below an hour, whole hours below a day, otherwise
      whole days. */
  function AgeParts(secs: int): (r: (int, string)) {
    if secs < 60 then (secs, "s")
    else if secs < 3600 then (secs / 60, "m")
    else if secs < 86400 then (secs / 3600, "h")
    else (secs / 86400, "d")
  }

  /** "12s ago", "3m ago", "5h ago", "2d ago". */
  function AgeText(secs: int): string {
    IntToString(AgeParts(secs).0) + AgeParts(secs).1 + " ago"
  }

  function UnitSeconds(u: string): int {
    if u == "s" then 1 else if u == "m" then 60 else if u == "h" then 3600 else 86400
  }

  /** Whichever unit is chosen, a non-negative age shows the whole number of
      those units it contains, and a larger unit is never shown as zero. */
  lemma AgePartsFloor(secs: int)
    requires secs >= 0
    ensures var (n, u) := AgeParts(secs);
      n * UnitSeconds(u) <= secs < (n + 1) * UnitSeconds(u) && (u != "s" ==> n >= 1)
  {
  }
}
