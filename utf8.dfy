/**
 * UTF-8 (RFC 3629, section 3): the byte encoding of a Unicode scalar value,
 * used for the bytes a typed character sends to a terminal and for the bytes
 * of a string that is percent-encoded into a URL. A decoder is given so that
 * the encoding can be shown to lose nothing.
 */
module Utf8 {
  import opened Wrappers
  import opened Text

  predicate IsContinuation(b: byte) { 0x80 <= b < 0xC0 }

  predicate IsScalar(v: int) { 0 <= v < 0xD800 || 0xE000 <= v < 0x11_0000 }

  /** The 1 to 4 bytes of one scalar value, in the bit layout of RFC 3629 section 3. */
  function EncodeChar(c: char): (r: seq<byte>)
    ensures 1 <= |r| <= 4
    ensures (c as int < 0x80) <==> |r| == 1
    ensures |r| == 1 ==> r[0] == c as int
    ensures forall i :: 1 <= i < |r| ==> IsContinuation(r[i])
  {
    var v := c as int;
    if v < 0x80 then [v]
    else if v < 0x800 then [0xC0 + v / 0x40, 0x80 + v % 0x40]
    else if v < 0x1_0000 then [0xE0 + v / 0x1000, 0x80 + (v / 0x40) % 0x40, 0x80 + v % 0x40]
    else [0xF0 + v / 0x4_0000, 0x80 + (v / 0x1000) % 0x40, 0x80 + (v / 0x40) % 0x40, 0x80 + v % 0x40]
  }

  function Encode(s: string): seq<byte>
    decreases |s|
  {
    if |s| == 0 then [] else EncodeChar(s[0]) + Encode(s[1..])
  }

  /** The scalar value at the front of `bs` and the number of bytes it takes,
      or None when the front is not a well-formed, shortest-form sequence. */
  function DecodeFirst(bs: seq<byte>): Option<(char, nat)> {
    if |bs| == 0 then None
    else if bs[0] < 0x80 then Some((bs[0] as char, 1))
    else if 0xC0 <= bs[0] < 0xE0 && |bs| >= 2 && IsContinuation(bs[1]) then
      var v := (bs[0] as int - 0xC0) * 0x40 + (bs[1] as int - 0x80);
      if 0x80 <= v then Some((v as char, 2)) else None
    else if 0xE0 <= bs[0] < 0xF0 && |bs| >= 3 && IsContinuation(bs[1]) && IsContinuation(bs[2]) then
      var v := (bs[0] as int - 0xE0) * 0x1000 + (bs[1] as int - 0x80) * 0x40 + (bs[2] as int - 0x80);
      if 0x800 <= v && IsScalar(v) then Some((v as char, 3)) else None
    else if 0xF0 <= bs[0] < 0xF8 && |bs| >= 4 && IsContinuation(bs[1]) && IsContinuation(bs[2])
      && IsContinuation(bs[3]) then
      var v := (bs[0] as int - 0xF0) * 0x4_0000 + (bs[1] as int - 0x80) * 0x1000 + (bs[2] as int - 0x80) * 0x40 + (bs[3] as int - 0x80);
      if 0x1_0000 <= v && IsScalar(v) then Some((v as char, 4)) else None
    else None
  }

  function Decode(bs: seq<byte>): Option<string>
    decreases |bs|
  {
    if |bs| == 0 then Some("")
    else match DecodeFirst(bs)
      case None => None
      case Some((c, n)) =>
        if 0 < n <= |bs| then
          match Decode(bs[n..])
          case None => None
          case Some(rest) => Some([c] + rest)
        else None
  }

  /** Splitting a value into 6-bit groups and putting them back gives the value. */
  lemma SixBitGroups(v: nat)
    ensures v / 0x40 / 0x40 == v / 0x1000 && v / 0x1000 / 0x40 == v / 0x4_0000
    ensures v == v / 0x40 * 0x40 + v % 0x40
    ensures v / 0x40 == v / 0x1000 * 0x40 + v / 0x40 % 0x40
    ensures v / 0x1000 == v / 0x4_0000 * 0x40 + v / 0x1000 % 0x40
  {
  }

  lemma DecodeFirstEncodeChar(c: char, rest: seq<byte>)
    ensures DecodeFirst(EncodeChar(c) + rest) == Some((c, |EncodeChar(c)|))
  {
    var v := c as int;
    var e := EncodeChar(c) + rest;
    SixBitGroups(v);
    if v < 0x80 {
    } else if v < 0x800 {
      assert (e[0] as int - 0xC0) * 0x40 + (e[1] as int - 0x80) == v;
    } else if v < 0x1_0000 {
      assert e[0] as int - 0xE0 == v / 0x1000;
      assert (e[0] as int - 0xE0) * 0x1000 + (e[1] as int - 0x80) * 0x40 == v / 0x40 * 0x40;
    } else {
      assert e[0] as int - 0xF0 == v / 0x4_0000;
      assert (e[0] as int - 0xF0) * 0x40 + (e[1] as int - 0x80) == v / 0x1000;
      assert ((e[0] as int - 0xF0) * 0x40 + (e[1] as int - 0x80)) * 0x40 + (e[2] as int - 0x80) == v / 0x40;
    }
  }

  lemma {:induction false} DecodeEncode(s: string)
    ensures Decode(Encode(s)) == Some(s)
    decreases |s|
  {
    if |s| > 0 {
      var e := EncodeChar(s[0]);
      DecodeFirstEncodeChar(s[0], Encode(s[1..]));
      assert (e + Encode(s[1..]))[|e|..] == Encode(s[1..]);
      DecodeEncode(s[1..]);
      assert [s[0]] + s[1..] == s;
    }
  }

  /** The length of `s` in UTF-8 bytes. */
  function ByteLen(s: string): nat {
    |Encode(s)|
  }

  lemma EncodeCons(c: char, s: string)
    ensures Encode([c] + s) == EncodeChar(c) + Encode(s)
  {
    assert ([c] + s)[0] == c && ([c] + s)[1..] == s;
  }

  lemma {:induction false} EncodeAppend(a: string, b: string)
    ensures Encode(a + b) == Encode(a) + Encode(b)
    decreases |a|
  {
    if |a| == 0 {
      assert a + b == b;
    } else {
      assert a + b == [a[0]] + (a[1..] + b);
      assert a == [a[0]] + a[1..];
      EncodeCons(a[0], a[1..] + b);
      EncodeCons(a[0], a[1..]);
      EncodeAppend(a[1..], b);
    }
  }

  /** Every character takes at least one byte, an ASCII one exactly one. */
  lemma {:induction false} ByteLenAtLeastChars(s: string)
    ensures |s| <= ByteLen(s)
    ensures (forall i :: 0 <= i < |s| ==> s[i] as int < 0x80) ==> ByteLen(s) == |s|
    decreases |s|
  {
    if |s| > 0 {
      assert s == [s[0]] + s[1..];
      EncodeCons(s[0], s[1..]);
      ByteLenAtLeastChars(s[1..]);
    }
  }

  /** How many whole characters from the front of `s` fit in `n` bytes. */
  function CharsWithin(s: string, n: nat): (k: nat)
    ensures k <= |s| && ByteLen(s[..k]) <= n
    ensures k < |s| ==> ByteLen(s[..k + 1]) > n
    decreases |s|
  {
    if |s| == 0 then 0
    else if |EncodeChar(s[0])| > n then
      assert s[..1] == [s[0]] + [];
      EncodeCons(s[0], []);
      0
    else
      var k := CharsWithin(s[1..], n - |EncodeChar(s[0])|);
      ConsPrefix(s, k);
      if k < |s| - 1 then
        ConsPrefix(s, k + 1);
        k + 1
      else
        k + 1
  }

  /** The bytes of the first `j + 1` characters: the first character's, then
      those of the next `j`. */
  lemma ConsPrefix(s: string, j: nat)
    requires j < |s|
    ensures ByteLen(s[..j + 1]) == |EncodeChar(s[0])| + ByteLen(s[1..][..j])
  {
    assert s[..j + 1] == [s[0]] + s[1..][..j];
    EncodeCons(s[0], s[1..][..j]);
  }

  /** Byte offset `n` falls between two characters of `s` (Rust's
      `str::is_char_boundary`, for offsets inside the string). */
  predicate IsCharBoundary(s: string, n: nat) {
    ByteLen(s[..CharsWithin(s, n)]) == n
  }

  /** The bytes of a character prefix are a prefix of the bytes. */
  lemma PrefixBytes(s: string, k: nat)
    requires k <= |s|
    ensures ByteLen(s[..k]) <= ByteLen(s)
    ensures Encode(s[..k]) == Encode(s)[..ByteLen(s[..k])]
  {
    assert s == s[..k] + s[k..];
    EncodeAppend(s[..k], s[k..]);
  }
}
