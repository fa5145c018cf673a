/**
 * The column fitting of the quick switcher: a cell text that is short
 * enough is padded with spaces to the column width, a longer one is cut and
 * marked with '~'. Lengths are measured in UTF-8 bytes, as Rust's `str::len`
 * measures them, while padding counts characters.
 */
module QSwitcher {
  import opened Text
  import Utf8

  const NameCol: nat := 20
  const StatusCol: nat := 9
  const BranchCol: nat := 20

  /** `truncate` as written: the cut at byte `max - 1` must fall between two
      characters, or slicing the string panics. */
  function Truncate(s: string, max: nat): (r: string)
    requires Utf8.ByteLen(s) > max ==> max >= 1 && Utf8.IsCharBoundary(s, max - 1)
    ensures Utf8.ByteLen(s) <= max ==>
      |r| == max && |s| <= |r| && r[..|s|] == s && forall i :: |s| <= i < max ==> r[i] == ' '
    ensures Utf8.ByteLen(s) > max ==>
      Utf8.Encode(r) == Utf8.Encode(s)[..max - 1] + ['~' as int] && Utf8.ByteLen(r) == max
  {
    if Utf8.ByteLen(s) <= max then
      Utf8.ByteLenAtLeastChars(s);
      s + Spaces(max - |s|)
    else
      var k := Utf8.CharsWithin(s, max - 1);
      Utf8.PrefixBytes(s, k);
      Utf8.EncodeAppend(s[..k], "~");
      Utf8.EncodeCons('~', []);
      s[..k] + "~"
  }

  /** For ASCII text every byte offset is a character boundary, so
      `truncate` always yields exactly `max` characters, led by the first
      min(len, max - 1) characters of the text. */
  lemma {:induction false} TruncateAscii(s: string, max: nat)
    requires max >= 1
    requires forall i :: 0 <= i < |s| ==> s[i] as int < 0x80
    ensures Utf8.ByteLen(s) > max ==> Utf8.IsCharBoundary(s, max - 1)
    ensures var k := if |s| < max - 1 then |s| else max - 1;
      Utf8.ByteLen(s) > max ==> |Truncate(s, max)| == max && Truncate(s, max)[..k] == s[..k]
    ensures Utf8.ByteLen(s) <= max ==> |Truncate(s, max)| == max && Truncate(s, max)[..|s|] == s
  {
    Utf8.ByteLenAtLeastChars(s);
    if Utf8.ByteLen(s) > max {
      var k := Utf8.CharsWithin(s, max - 1);
      Utf8.ByteLenAtLeastChars(s[..k]);
      if k < |s| {
        Utf8.ByteLenAtLeastChars(s[..k + 1]);
      }
      assert k == max - 1;
      var r := Truncate(s, max);
      assert r == s[..k] + "~";
    }
  }

  /** `truncate` with the cut moved back to the last character boundary at
      or before byte `max - 1`, so that no text makes it panic. */
  function TruncateAtBoundary(s: string, max: nat): (r: string)
    requires Utf8.ByteLen(s) > max ==> max >= 1
    ensures Utf8.ByteLen(s) <= max ==> r == Truncate(s, max)
    ensures Utf8.ByteLen(s) > max ==>
      var k := Utf8.CharsWithin(s, max - 1);
      && r == s[..k] + "~"
      && Utf8.Encode(r) == Utf8.Encode(s)[..Utf8.ByteLen(s[..k])] + ['~' as int]
      && max - 3 <= Utf8.ByteLen(r) <= max
  {
    if Utf8.ByteLen(s) <= max then Truncate(s, max)
    else
      var k := Utf8.CharsWithin(s, max - 1);
      Utf8.PrefixBytes(s, k);
      Utf8.EncodeAppend(s[..k], "~");
      Utf8.EncodeCons('~', []);
      assert s[..|s|] == s;
      assert s[..k + 1] == s[..k] + [s[k]];
      Utf8.EncodeAppend(s[..k], [s[k]]);
      Utf8.EncodeCons(s[k], []);
      s[..k] + "~"
  }

  /** Where `truncate` as written does not panic, the corrected form gives
      the same text. */
  lemma TruncateAtBoundaryAgrees(s: string, max: nat)
    requires Utf8.ByteLen(s) > max ==> max >= 1 && Utf8.IsCharBoundary(s, max - 1)
    ensures TruncateAtBoundary(s, max) == Truncate(s, max)
  {
  }

  /** A text `truncate` as written cannot fit: ten 'é' (two bytes each) and
      an 'a' are 21 bytes, and byte 19 of them is inside the tenth 'é' — so
      a project name like this one in the 20-column name cell makes the
      switcher panic. */
  lemma TruncatePanicsOnSplitChar(s: string)
    requires s == seq(10, _ => '\U{E9}') + "a"
    ensures Utf8.ByteLen(s) > NameCol && !Utf8.IsCharBoundary(s, NameCol - 1)
  {
    var e := Utf8.EncodeChar('\U{E9}');
    assert |e| == 2;
    forall j | 0 <= j <= 11
      ensures j <= 10 ==> Utf8.ByteLen(s[..j]) == 2 * j
    {
      ByteLenCounts(s, j);
    }
    assert s == s[..11];
    ByteLenCounts(s, 11);
    var k := Utf8.CharsWithin(s, NameCol - 1);
    assert k == 9;
  }

  lemma {:induction false} ByteLenCounts(s: string, j: nat)
    requires s == seq(10, _ => '\U{E9}') + "a"
    requires j <= 11
    ensures Utf8.ByteLen(s[..j]) == if j <= 10 then 2 * j else 21
    decreases j
  {
    if j > 0 {
      ByteLenCounts(s, j - 1);
      assert s[..j] == s[..j - 1] + [s[j - 1]];
      Utf8.EncodeAppend(s[..j - 1], [s[j - 1]]);
      Utf8.EncodeCons(s[j - 1], []);
    }
  }
}
