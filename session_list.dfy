/**
 * The columns of the session list that are computed rather than copied: the
 * short model name, the marker that shows whether a session is attached or
 * rang its bell, and the compact token and message counts.
 *
 * Counts of a thousand or more are shown with one decimal in thousands or
 * millions; the model rounds the decimal half up, where the source formats
 * a floating-point quotient.
 */
module SessionList {
  import opened Wrappers
  import opened Text

  /** The short name of a model: its family when it names one of the three
      families, otherwise the text after its last '-'. */
  function ShortenModel(model: string): (r: string)
    ensures Contains(model, "opus") ==> r == "opus"
    ensures !Contains(model, "opus") && Contains(model, "sonnet") ==> r == "sonnet"
    ensures !Contains(model, "opus") && !Contains(model, "sonnet") && Contains(model, "haiku") ==> r == "haiku"
  {
    if Contains(model, "opus") then "opus"
    else if Contains(model, "sonnet") then "sonnet"
    else if Contains(model, "haiku") then "haiku"
    else AfterLast(model, '-')
  }

  /** A text inside a suffix of `s` is inside `s`. */
  lemma ContainsInSuffix(s: string, j: nat, t: string)
    requires j <= |s| && Contains(s[j..], t)
    ensures Contains(s, t)
  {
    var i := ContainsWitness(s[j..], t);
    assert s[j + i..j + i + |t|] == s[j..][i..i + |t|];
    ContainsAt(s, t, j + i);
  }

  /** A name of no known family is shortened to its last '-'-separated
      segment: a suffix of the name with no '-', preceded by a '-' when the
      name has one. */
  lemma ShortenModelSegment(model: string)
    requires !Contains(model, "opus") && !Contains(model, "sonnet") && !Contains(model, "haiku")
    ensures var r := ShortenModel(model);
      && '-' !in r && |r| <= |model| && r == model[|model| - |r|..]
      && ('-' in model ==> |r| < |model| && model[|model| - |r| - 1] == '-')
      && ('-' !in model ==> r == model)
  {
    var r := AfterLast(model, '-');
    assert ShortenModel(model) == r;
    AfterLastIsSuffix(model, '-');
    if |r| == |model| {
      assert r == model[0..] == model;
    } else {
      assert model[|model| - |r| - 1] == '-';
    }
  }

  /** Shortening is stable: a short name shortens to itself. */
  lemma ShortenModelIdempotent(model: string)
    ensures ShortenModel(ShortenModel(model)) == ShortenModel(model)
  {
    var r := ShortenModel(model);
    if Contains(model, "opus") {
      assert "opus"[..4] == "opus";
    } else if Contains(model, "sonnet") {
      MissingCharNotContained("sonnet", "opus", 1);
      assert "sonnet"[..6] == "sonnet";
    } else if Contains(model, "haiku") {
      MissingCharNotContained("haiku", "opus", 0);
      MissingCharNotContained("haiku", "sonnet", 0);
      assert "haiku"[..5] == "haiku";
    } else {
      ShortenModelSegment(model);
      var j := |model| - |r|;
      if Contains(r, "opus") {
        ContainsInSuffix(model, j, "opus");
      }
      if Contains(r, "sonnet") {
        ContainsInSuffix(model, j, "sonnet");
      }
      if Contains(r, "haiku") {
        ContainsInSuffix(model, j, "haiku");
      }
      AfterLastIsSuffix(r, '-');
      var rr := AfterLast(r, '-');
      assert rr == r[|r| - |rr|..];
      if |rr| < |r| {
        assert false;
      }
    }
  }

  lemma NoFamily(model: string)
    requires model == "gpt-4o-20240513"
    ensures !Contains(model, "opus") && !Contains(model, "sonnet") && !Contains(model, "haiku")
  {
    MissingCharNotContained(model, "opus", 2);
    MissingCharNotContained(model, "sonnet", 0);
    MissingCharNotContained(model, "haiku", 0);
  }

  /** A dated model name without a family shows its date. */
  lemma ShortenModelExample(model: string)
    requires model == "gpt-4o-20240513"
    ensures ShortenModel(model) == "20240513"
  {
    NoFamily(model);
    ShortenModelSegment(model);
    var r := ShortenModel(model);
    assert model[6] == '-';
    if |r| > 8 {
      assert false;
    }
    if |r| < 8 {
      assert false;
    }
  }

  /** A row of the list: a local session, or a remote implementation. */
  datatype SessionEntry =
    | Local(model: Option<string>, inputTokens: nat, outputTokens: nat, cacheReadTokens: nat)
    | Remote

  /** The model column: the short model name of a local session, "-" when
      it has none, and "tervezo" for a remote entry. */
  function ModelShort(entry: SessionEntry): (r: string)
    ensures entry.Remote? ==> r == "tervezo"
    ensures entry.Local? && entry.model.None? ==> r == "-"
    ensures entry.Local? && entry.model.Some? ==> r == ShortenModel(entry.model.value)
  {
    match entry
    case Local(model, _, _, _) => if model.Some? then ShortenModel(model.value) else "-"
    case Remote => "tervezo"
  }

  /** The marker column: "[T]" for a remote entry; for a local one, ">>" when
      attached and '*' when its bell rang. */
  function Marker(entry: SessionEntry, attached: bool, bell: bool): (r: string)
    ensures entry.Remote? ==> r == "[T]"
  {
    if entry.Remote? then "[T]"
    else if attached && bell then ">>*"
    else if attached then ">>"
    else if bell then " *"
    else ""
  }

  /** A local marker can be read back: it starts with ">>" exactly when the
      session is attached and ends with '*' exactly when its bell rang, and
      it is never the remote marker. */
  lemma MarkerReadsBack(entry: SessionEntry, attached: bool, bell: bool)
    requires entry.Local?
    ensures var m := Marker(entry, attached, bell);
      && (StartsWith(m, ">>") <==> attached)
      && ((|m| > 0 && m[|m| - 1] == '*') <==> bell)
      && m != "[T]"
  {
    assert ">>*"[..2] == ">>" && ">>"[..2] == ">>";
    assert " *"[0] != '>';
  }

  /** The marker table. */
  lemma MarkerTable(entry: SessionEntry)
    requires entry.Local?
    ensures Marker(entry, true, true) == ">>*" && Marker(entry, true, false) == ">>"
    ensures Marker(entry, false, true) == " *" && Marker(entry, false, false) == ""
  {
  }

  /** `n / unit` with one decimal, rounded half up, and the suffix. */
  function OneDecimal(n: nat, unit: nat, suffix: string): (r: string)
    requires unit >= 10
    ensures StartsWith(r, NatToString((n * 10 + unit / 2) / unit / 10) + ".")
    ensures |r| >= |suffix| && r[|r| - |suffix|..] == suffix
  {
    var tenths := (n * 10 + unit / 2) / unit;
    var head := NatToString(tenths / 10) + ".";
    var r := head + [DigitChar(tenths % 10)] + suffix;
    assert r[..|head|] == head;
    r
  }

  /** The token columns: millions with one decimal and 'M', thousands with
      one decimal and 'K', and plain decimals below a thousand. */
  function FormatTokens(n: nat): (r: string)
    ensures n < 1000 ==> AllDigits(r) && ParseNat(r) == n
    ensures 1000 <= n < 1_000_000 ==> |r| > 0 && r[|r| - 1] == 'K'
    ensures n >= 1_000_000 ==> |r| > 0 && r[|r| - 1] == 'M'
  {
    if n >= 1_000_000 then OneDecimal(n, 1_000_000, "M")
    else if n >= 1_000 then OneDecimal(n, 1_000, "K")
    else
      NatToStringRoundTrip(n);
      NatToString(n)
  }

  /** The message column: thousands with one decimal and 'K', plain
      decimals below a thousand. */
  function FormatCount(n: nat): (r: string)
    ensures n < 1000 ==> AllDigits(r) && ParseNat(r) == n
    ensures n >= 1000 ==> |r| > 0 && r[|r| - 1] == 'K'
  {
    if n >= 1_000 then OneDecimal(n, 1_000, "K")
    else
      NatToStringRoundTrip(n);
      NatToString(n)
  }

  /** The two formats differ only from a million on, where tokens switch to 'M'. */
  lemma FormatsAgreeBelowMillion(n: nat)
    ensures n < 1_000_000 <==> FormatTokens(n) == FormatCount(n)
  {
    if n >= 1_000_000 {
      var t := FormatTokens(n);
      var c := FormatCount(n);
      assert t[|t| - 1] == 'M' && c[|c| - 1] == 'K';
    }
  }

  /** One thousand two hundred and sixty tokens read "1.3K". */
  lemma FormatTokensExample()
    ensures FormatTokens(1260) == "1.3K"
    ensures FormatTokens(999) == "999"
  {
    assert NatToString(1) == "1";
    assert DigitChar(3) == '3';
    assert NatToString(999) == NatToString(99) + [DigitChar(9)];
    assert NatToString(99) == NatToString(9) + [DigitChar(9)];
  }

  /** The token columns of a row: input with cache reads, and output; a
      remote entry shows "-" in both. */
  function TokenColumns(entry: SessionEntry): (r: (string, string))
    ensures entry.Remote? ==> r == ("-", "-")
    ensures entry.Local? && entry.inputTokens + entry.cacheReadTokens < 1000 ==>
      AllDigits(r.0) && ParseNat(r.0) == entry.inputTokens + entry.cacheReadTokens
    ensures entry.Local? && entry.outputTokens < 1000 ==> AllDigits(r.1) && ParseNat(r.1) == entry.outputTokens
  {
    match entry
    case Local(_, input, output, cacheRead) => (FormatTokens(input + cacheRead), FormatTokens(output))
    case Remote => ("-", "-")
  }
}
