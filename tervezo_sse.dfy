/**
 * The Tervezo event stream: the framing of server-sent event lines into
 * payloads, the timeline messages each payload carries, the cursor that
 * lets a reconnect resume after the last message seen, and the reconnect
 * loop with its capped exponential backoff and its stop flag.
 *
 * The framing follows the line format of the WHATWG HTML Standard, section
 * 9.2.6 "Interpreting an event stream", with two differences the code has:
 * consecutive data lines are joined with nothing between them, and only the
 * exact prefixes "data: " and "id: " are recognised.
 *
 * The network is replaced by its answers: each connection attempt either
 * fails with a message or yields the lines the server sends, and JSON
 * decoding of a payload is a function given by the caller. The stop flag,
 * shared with the owner of the stream, is modelled by a flag that reads
 * false a fixed number of times and true from then on.
 */
module TervezoSse {
  import opened Wrappers
  import opened Text
  import opened TervezoModels
  import TervezoApi
  import Utf8

  const MaxBackoffSecs: nat := 30

  datatype SseMessage = Event(message: TimelineMessage) | Error(text: string)

  /** One item of the reader's line iterator. */
  datatype LineResult = Line(text: string) | ReadError

  /** A decoded payload: the "messages" array when it has one. */
  datatype Envelope = Envelope(messages: Option<seq<Raw<TimelineMessage>>>)

  /** JSON decoding of a payload; None when it is not JSON. */
  type Decoder = string -> Option<Envelope>

  // ---------------------------------------------------------------------------
  // The stop flag
  // ---------------------------------------------------------------------------

  /** The stream's stop flag. It reads false `quietPolls` more times unless
      it is raised first, and true from then on; once true it stays true. */
  class StopFlag {
    var raised: bool
    var quietPolls: nat

    constructor (quietPolls: nat)
      ensures !raised && Quiet() == quietPolls
    {
      raised := false;
      this.quietPolls := quietPolls;
    }

    /** How many more loads will read false. */
    function Quiet(): nat
      reads this
    {
      if raised then 0 else quietPolls
    }

    method Load() returns (b: bool)
      modifies this
      ensures b <==> old(Quiet()) == 0
      ensures Quiet() == if b then 0 else old(Quiet()) - 1
    {
      if raised {
        b := true;
      } else if quietPolls == 0 {
        raised := true;
        b := true;
      } else {
        quietPolls := quietPolls - 1;
        b := false;
      }
    }

    /** What dropping the stream does. */
    method Store()
      modifies this
      ensures raised && Quiet() == 0
    {
      raised := true;
    }
  }

  // ---------------------------------------------------------------------------
  // Framing and dispatch
  // ---------------------------------------------------------------------------

  /** The reader's state: the payload gathered so far, the pending event id,
      the resume cursor and the messages sent on the channel. */
  datatype ReadState = ReadState(dataBuf: string, eventId: Option<string>, cursor: Option<string>, sent: seq<SseMessage>)

  /** The id of the last message in `msgs` that has one. */
  function LastId(msgs: seq<TimelineMessage>): (r: Option<string>)
    ensures r.Some? ==> exists i :: 0 <= i < |msgs| && msgs[i].id == r
  {
    if |msgs| == 0 then None
    else if msgs[|msgs| - 1].id.Some? then msgs[|msgs| - 1].id
    else LastId(msgs[..|msgs| - 1])
  }

  /** The cursor a payload leaves is the id of its last message that has
      one: no later message has an id, and there is none only when no
      message has one. */
  lemma {:induction false} LastIdIsLast(msgs: seq<TimelineMessage>)
    ensures LastId(msgs).Some? <==> exists i :: 0 <= i < |msgs| && msgs[i].id.Some?
    ensures LastId(msgs).Some? ==>
      exists i :: 0 <= i < |msgs| && msgs[i].id == LastId(msgs) && (forall j :: i < j < |msgs| ==> msgs[j].id.None?)
    decreases |msgs|
  {
    if |msgs| > 0 {
      var n := |msgs| - 1;
      if msgs[n].id.Some? {
        assert msgs[n].id == LastId(msgs);
      } else {
        var init := msgs[..n];
        LastIdIsLast(init);
        assert LastId(msgs) == LastId(init);
        if LastId(init).Some? {
          var i :| 0 <= i < n && init[i].id == LastId(init) && (forall j :: i < j < n ==> init[j].id.None?);
          assert msgs[i] == init[i];
          forall j | i < j < |msgs|
            ensures msgs[j].id.None?
          {
            if j < n {
              assert msgs[j] == init[j];
            }
          }
        } else {
          forall i | 0 <= i < |msgs|
            ensures msgs[i].id.None?
          {
            if i < n {
              assert msgs[i] == init[i];
            }
          }
        }
      }
    }
  }

  lemma LastIdSnoc(msgs: seq<TimelineMessage>, m: TimelineMessage)
    ensures LastId(msgs + [m]) == m.id.Or(LastId(msgs))
  {
    assert (msgs + [m])[..|msgs|] == msgs;
  }

  lemma EventsSnoc(msgs: seq<TimelineMessage>, m: TimelineMessage)
    ensures Events(msgs + [m]) == Events(msgs) + [Event(m)]
  {
  }

  function Events(msgs: seq<TimelineMessage>): (r: seq<SseMessage>)
    ensures |r| == |msgs| && forall i :: 0 <= i < |msgs| ==> r[i] == Event(msgs[i])
  {
    seq(|msgs|, i requires 0 <= i < |msgs| => Event(msgs[i]))
  }

  /** What a blank line does with a gathered payload: its messages are
      sent, the cursor moves to the last id among them, and failing that the
      pending event id becomes the cursor if there was none. A payload that
      is not JSON is dropped. The result is the new cursor and the messages sent. */
  function Dispatch(decode: Decoder, dataBuf: string, eventId: Option<string>, cursor: Option<string>):
    (r: (Option<string>, seq<SseMessage>))
    ensures decode(dataBuf).None? ==> r == (cursor, [])
    ensures cursor.Some? ==> r.0.Some?
  {
    match decode(dataBuf)
    case None => (cursor, [])
    case Some(env) =>
      var msgs := if env.messages.Some? then TervezoApi.DecodedOnly(env.messages.value) else [];
      (LastId(msgs).Or(cursor).Or(eventId), Events(msgs))
  }

  /** What one line does to the reader's state: nothing sent is taken back,
      and a cursor once set stays set. */
  function LineStep(decode: Decoder, st: ReadState, line: string): (r: ReadState)
    ensures st.cursor.Some? ==> r.cursor.Some?
    ensures r.sent == st.sent || r.dataBuf == ""
  {
    if line == "" then
      if st.dataBuf == "" then st
      else
        var (cursor, events) := Dispatch(decode, st.dataBuf, st.eventId, st.cursor);
        ReadState("", None, cursor, st.sent + events)
    else if StartsWith(line, "data: ") then st.(dataBuf := st.dataBuf + line[6..])
    else if StartsWith(line, "id: ") then st.(eventId := Some(line[4..]))
    else st
  }

  /** The state after the lines `lines`, read in order: reading only ever
      adds messages, and once set the cursor stays set. */
  function FoldLines(decode: Decoder, st: ReadState, lines: seq<string>): (r: ReadState)
    ensures |st.sent| <= |r.sent| && r.sent[..|st.sent|] == st.sent
    ensures st.cursor.Some? ==> r.cursor.Some?
    decreases |lines|
  {
    if |lines| == 0 then st
    else
      var st1 := LineStep(decode, st, lines[0]);
      var r := FoldLines(decode, st1, lines[1..]);
      LineStepCases(decode, st, lines[0]);
      assert r.sent[..|st.sent|] == r.sent[..|st1.sent|][..|st.sent|];
      r
  }

  /** `read_events`: before each line the stop flag is read, and a raised
      flag or a read error ends the reading. The result is the final state
      and how many loads of the flag would still read false. */
  function ReadRun(decode: Decoder, quiet: nat, lines: seq<LineResult>, st: ReadState): (r: (ReadState, nat))
    ensures r.1 <= quiet
    decreases |lines|
  {
    if |lines| == 0 then (st, quiet)
    else if quiet == 0 then (st, 0)
    else match lines[0]
      case ReadError => (st, quiet - 1)
      case Line(text) => ReadRun(decode, quiet - 1, lines[1..], LineStep(decode, st, text))
  }

  /** The lines of a payload, "data: " lines of the given parts. */
  function DataLines(parts: seq<string>): (r: seq<string>)
    ensures |r| == |parts| && forall i :: 0 <= i < |parts| ==> r[i] == "data: " + parts[i]
  {
    seq(|parts|, i requires 0 <= i < |parts| => "data: " + parts[i])
  }

  function Concat(parts: seq<string>): string {
    if |parts| == 0 then "" else parts[0] + Concat(parts[1..])
  }

  /** Data lines append their payloads to the buffer with no separator, and
      change nothing else. */
  lemma {:induction false} DataLinesConcatenate(decode: Decoder, st: ReadState, parts: seq<string>)
    ensures FoldLines(decode, st, DataLines(parts)) == st.(dataBuf := st.dataBuf + Concat(parts))
    decreases |parts|
  {
    if |parts| == 0 {
      assert st.dataBuf + "" == st.dataBuf;
    } else {
      var line := "data: " + parts[0];
      assert StartsWith(line, "data: ") && line[6..] == parts[0];
      var st1 := st.(dataBuf := st.dataBuf + parts[0]);
      assert DataLines(parts)[1..] == DataLines(parts[1..]);
      DataLinesConcatenate(decode, st1, parts[1..]);
      assert st1.dataBuf + Concat(parts[1..]) == st.dataBuf + Concat(parts);
    }
  }

  /** A blank line ends an event only when something was gathered; an "id: "
      line sets the pending id; any other line is ignored. */
  lemma LineStepCases(decode: Decoder, st: ReadState, line: string)
    ensures line == "" && st.dataBuf == "" ==> LineStep(decode, st, line) == st
    ensures line == "" && st.dataBuf != "" ==>
      var (cursor, events) := Dispatch(decode, st.dataBuf, st.eventId, st.cursor);
      LineStep(decode, st, line) == ReadState("", None, cursor, st.sent + events)
    ensures line != "" && !StartsWith(line, "data: ") && StartsWith(line, "id: ") ==>
      LineStep(decode, st, line) == st.(eventId := Some(line[4..]))
    ensures line != "" && !StartsWith(line, "data: ") && !StartsWith(line, "id: ") ==>
      LineStep(decode, st, line) == st
    ensures LineStep(decode, st, line).sent[..|st.sent|] == st.sent
  {
  }

  /** With the flag quiet throughout and no read error, the reader folds
      every line, and each line costs one load of the flag. */
  lemma {:induction false} ReadRunFolds(decode: Decoder, quiet: nat, lines: seq<LineResult>, st: ReadState, texts: seq<string>)
    requires quiet >= |lines| && |texts| == |lines|
    requires forall i :: 0 <= i < |lines| ==> lines[i] == Line(texts[i])
    ensures ReadRun(decode, quiet, lines, st) == (FoldLines(decode, st, texts), quiet - |lines|)
    decreases |lines|
  {
    if |lines| > 0 {
      ReadRunFolds(decode, quiet - 1, lines[1..], LineStep(decode, st, texts[0]), texts[1..]);
    }
  }

  /** Once the flag is up, no line is read and nothing more is sent. */
  lemma ReadRunStopped(decode: Decoder, lines: seq<LineResult>, st: ReadState)
    ensures ReadRun(decode, 0, lines, st) == (st, 0)
  {
  }

  /** A read error ends the reading: the lines after it are never looked at. */
  lemma ReadRunError(decode: Decoder, quiet: nat, before: seq<string>, after: seq<LineResult>, st: ReadState)
    requires quiet > |before|
    ensures ReadRun(decode, quiet, LinesOf(before) + [ReadError] + after, st)
      == (FoldLines(decode, st, before), quiet - |before| - 1)
  {
    var lines := LinesOf(before) + [ReadError] + after;
    ReadRunPrefix(decode, quiet, before, [ReadError] + after, st);
    assert LinesOf(before) + ([ReadError] + after) == lines;
  }

  function LinesOf(texts: seq<string>): (r: seq<LineResult>)
    ensures |r| == |texts| && forall i :: 0 <= i < |texts| ==> r[i] == Line(texts[i])
  {
    seq(|texts|, i requires 0 <= i < |texts| => Line(texts[i]))
  }

  lemma {:induction false} ReadRunPrefix(decode: Decoder, quiet: nat, before: seq<string>, rest: seq<LineResult>, st: ReadState)
    requires quiet >= |before|
    ensures ReadRun(decode, quiet, LinesOf(before) + rest, st)
      == ReadRun(decode, quiet - |before|, rest, FoldLines(decode, st, before))
    decreases |before|
  {
    if |before| > 0 {
      var lines := LinesOf(before) + rest;
      var st1 := LineStep(decode, st, before[0]);
      assert lines[0] == Line(before[0]);
      assert lines[1..] == LinesOf(before[1..]) + rest;
      assert ReadRun(decode, quiet, lines, st) == ReadRun(decode, quiet - 1, lines[1..], st1);
      assert FoldLines(decode, st, before) == FoldLines(decode, st1, before[1..]);
      ReadRunPrefix(decode, quiet - 1, before[1..], rest, st1);
    } else {
      assert LinesOf(before) + rest == rest;
    }
  }

  /** The message shown in the example stream. */
  function ExampleMessage(): TimelineMessage {
    TimelineMessage(Some("m1"), None, Some("agent_message"), None, None, None, Some("hi"), None, None, None, None, None)
  }

  /** An event id line, two data lines and a blank line: the two payload
      parts are joined, the message is sent, and its own id becomes the
      cursor rather than the event id. */
  lemma ExampleStream(decode: Decoder, id: string, parts: seq<string>)
    requires forall s :: decode(s) == if s == "ab" then Some(Envelope(Some([Null, Decoded(ExampleMessage())]))) else None
    requires id == "id: e1" && parts == ["a", "b"]
    ensures var r := FoldLines(decode, ReadState("", None, None, []), [id] + DataLines(parts) + [""]);
      r.sent == [Event(ExampleMessage())] && r.cursor == Some("m1") && r.dataBuf == "" && r.eventId == None
  {
    var st0 := ReadState("", None, None, []);
    var st1 := ReadState("", Some("e1"), None, []);
    var st3 := st1.(dataBuf := "ab");
    var st4 := ReadState("", None, Some("m1"), [Event(ExampleMessage())]);
    var d := DataLines(parts);
    calc {
      FoldLines(decode, st0, [id] + d + [""]);
      { assert [id] + d + [""] == [id] + (d + [""]); }
      FoldLines(decode, st0, [id] + (d + [""]));
      { FoldLinesSplit(decode, st0, [id], d + [""]); }
      FoldLines(decode, FoldLines(decode, st0, [id]), d + [""]);
      { FoldOne(decode, st0, id); ExampleIdLine(decode, id); }
      FoldLines(decode, st1, d + [""]);
      { FoldLinesSplit(decode, st1, d, [""]); }
      FoldLines(decode, FoldLines(decode, st1, d), [""]);
      { DataLinesConcatenate(decode, st1, parts); ExampleParts(parts); assert "" + "ab" == "ab"; }
      FoldLines(decode, st3, [""]);
      { FoldOne(decode, st3, ""); ExampleBlankLine(decode, st3); }
      st4;
    }
  }

  /** Folding one line is one step. */
  lemma FoldOne(decode: Decoder, st: ReadState, line: string)
    ensures FoldLines(decode, st, [line]) == LineStep(decode, st, line)
  {
    assert [line][1..] == [];
  }

  lemma ExampleIdLine(decode: Decoder, id: string)
    requires id == "id: e1"
    ensures LineStep(decode, ReadState("", None, None, []), id) == ReadState("", Some("e1"), None, [])
  {
    assert id[..6][0] == 'i' && !StartsWith(id, "data: ");
    assert id[..4] == "id: " && id[4..] == "e1";
  }

  lemma ExampleParts(parts: seq<string>)
    requires parts == ["a", "b"]
    ensures Concat(parts) == "ab"
  {
    assert parts[1..] == ["b"] && parts[1..][1..] == [];
    assert Concat(parts[1..]) == "b" + "";
    assert Concat(parts) == "a" + "b";
  }

  lemma ExampleBlankLine(decode: Decoder, st: ReadState)
    requires forall s :: decode(s) == if s == "ab" then Some(Envelope(Some([Null, Decoded(ExampleMessage())]))) else None
    requires st == ReadState("ab", Some("e1"), None, [])
    ensures LineStep(decode, st, "") == ReadState("", None, Some("m1"), [Event(ExampleMessage())])
  {
    var raws: seq<Raw<TimelineMessage>> := [Null, Decoded(ExampleMessage())];
    assert TervezoApi.DecodedOnly(raws) == [ExampleMessage()] by {
      assert raws[1..] == [Decoded(ExampleMessage())];
      assert raws[1..][1..] == [];
    }
    assert LastId([ExampleMessage()]) == Some("m1");
  }

  lemma {:induction false} FoldLinesSplit(decode: Decoder, st: ReadState, a: seq<string>, b: seq<string>)
    ensures FoldLines(decode, st, a + b) == FoldLines(decode, FoldLines(decode, st, a), b)
    decreases |a|
  {
    if |a| == 0 {
      assert a + b == b;
    } else {
      assert (a + b)[0] == a[0] && (a + b)[1..] == a[1..] + b;
      FoldLinesSplit(decode, LineStep(decode, st, a[0]), a[1..], b);
    }
  }

  // ---------------------------------------------------------------------------
  // The log previews
  // ---------------------------------------------------------------------------

  /** Bytes of a payload logged when it arrives, of a display text logged
      for a message, and of a payload logged when it is not JSON. */
  const PayloadPreviewBytes: nat := 300
  const TextPreviewBytes: nat := 100
  const FailedPreviewBytes: nat := 200

  /** Cutting `s` after its first `n` bytes (or keeping all of it when it is
      shorter) lands between two characters. */
  predicate CutsCleanly(s: string, n: nat) {
    Utf8.ByteLen(s) <= n || Utf8.IsCharBoundary(s, n)
  }

  /** `&s[..n.min(s.len())]` as written: the first `n` bytes of `s`, which
      panics unless the cut lands between two characters. */
  function Preview(s: string, n: nat): (r: string)
    requires CutsCleanly(s, n)
    ensures Utf8.ByteLen(s) <= n ==> r == s
    ensures Utf8.ByteLen(s) > n ==> Utf8.Encode(r) == Utf8.Encode(s)[..n]
  {
    if Utf8.ByteLen(s) <= n then s
    else
      var k := Utf8.CharsWithin(s, n);
      Utf8.PrefixBytes(s, k);
      s[..k]
  }

  /** The preview with the cut moved back to the last character boundary at
      or before byte `n`, so that no text makes it panic: a leading part of
      `s` of at most `n` bytes, to which the next character would not fit. */
  function PreviewAtBoundary(s: string, n: nat): (r: string)
    ensures |r| <= |s| && r == s[..|r|]
    ensures Utf8.ByteLen(r) <= n && Utf8.ByteLen(r) <= Utf8.ByteLen(s) && Utf8.Encode(r) == Utf8.Encode(s)[..Utf8.ByteLen(r)]
    ensures |r| < |s| ==> Utf8.ByteLen(s[..|r| + 1]) > n
    ensures Utf8.ByteLen(s) <= n ==> r == s
  {
    if Utf8.ByteLen(s) <= n then
      assert s[..|s|] == s;
      s
    else
      var k := Utf8.CharsWithin(s, n);
      Utf8.PrefixBytes(s, k);
      s[..k]
  }

  /** Where the preview as written does not panic, the corrected one is the
      same text. */
  lemma PreviewAtBoundaryAgrees(s: string, n: nat)
    requires CutsCleanly(s, n)
    ensures PreviewAtBoundary(s, n) == Preview(s, n)
  {
  }

  /** The cuts `read_events` makes when a blank line ends the payload
      `dataBuf` all land between characters: the payload's, that of each
      decoded message's display text that is not empty, and the payload's
      again when it is not JSON. */
  predicate PreviewsCutCleanly(decode: Decoder, dataBuf: string) {
    && CutsCleanly(dataBuf, PayloadPreviewBytes)
    && (decode(dataBuf).None? ==> CutsCleanly(dataBuf, FailedPreviewBytes))
    && (decode(dataBuf).Some? && decode(dataBuf).value.messages.Some? ==>
          var msgs := TervezoApi.DecodedOnly(decode(dataBuf).value.messages.value);
          forall i :: 0 <= i < |msgs| && DisplayText(msgs[i]) != "" ==> CutsCleanly(DisplayText(msgs[i]), TextPreviewBytes))
  }

  /** A payload the reader cannot log: 299 ASCII bytes and an 'é' (two
      bytes) are 301 bytes, and byte 300 is inside the 'é'. One "data: "
      line carrying it, then a blank line, makes the reader thread panic
      whatever the payload decodes to. */
  lemma PreviewPanicsOnSplitChar(decode: Decoder, payload: string)
    requires payload == seq(299, _ => 'a') + "\U{E9}"
    ensures Utf8.ByteLen(payload) == 301 && !CutsCleanly(payload, PayloadPreviewBytes)
    ensures LineStep(decode, ReadState("", None, None, []), "data: " + payload).dataBuf == payload
    ensures !PreviewsCutCleanly(decode, payload)
  {
    var ascii := payload[..299];
    assert payload == ascii + "\U{E9}";
    Utf8.ByteLenAtLeastChars(ascii);
    Utf8.EncodeAppend(ascii, "\U{E9}");
    Utf8.EncodeCons('\U{E9}', []);
    assert |Utf8.EncodeChar('\U{E9}')| == 2;
    var k := Utf8.CharsWithin(payload, PayloadPreviewBytes);
    if k < 299 {
      Utf8.ByteLenAtLeastChars(payload[..k + 1]);
    }
    assert k == 299 by {
      assert payload[..300] == payload;
    }
    assert payload[..k] == ascii;
    var line := "data: " + payload;
    assert StartsWith(line, "data: ") && line[6..] == payload;
  }

  // ---------------------------------------------------------------------------
  // The reader
  // ---------------------------------------------------------------------------

  /** The loop over a payload's messages: nulls and entries that do not
      decode are passed over, the others go out in order, each moving the
      cursor to its id when it has one. */
  method SendMessages(raws: seq<Raw<TimelineMessage>>, cursor: Option<string>)
    returns (newCursor: Option<string>, events: seq<SseMessage>)
    ensures newCursor == LastId(TervezoApi.DecodedOnly(raws)).Or(cursor)
    ensures events == Events(TervezoApi.DecodedOnly(raws))
  {
    newCursor, events := cursor, [];
    var j := 0;
    while j < |raws|
      invariant 0 <= j <= |raws|
      invariant newCursor == LastId(TervezoApi.DecodedOnly(raws[..j])).Or(cursor)
      invariant events == Events(TervezoApi.DecodedOnly(raws[..j]))
    {
      SendStep(raws, j, cursor);
      if raws[j].Decoded? {
        var msg := raws[j].value;
        if msg.id.Some? {
          newCursor := msg.id;
        }
        events := events + [Event(msg)];
      }
      j := j + 1;
    }
    assert raws[..j] == raws;
  }

  /** One more entry of the payload: a decoded message moves the cursor to
      its id, when it has one, and adds its event; other entries change
      nothing. */
  lemma SendStep(raws: seq<Raw<TimelineMessage>>, j: nat, cursor: Option<string>)
    requires j < |raws|
    ensures var done := TervezoApi.DecodedOnly(raws[..j]);
      var next := TervezoApi.DecodedOnly(raws[..j + 1]);
      && LastId(next).Or(cursor) ==
        (if raws[j].Decoded? && raws[j].value.id.Some? then raws[j].value.id else LastId(done).Or(cursor))
      && Events(next) == Events(done) + (if raws[j].Decoded? then [Event(raws[j].value)] else [])
  {
    var done := TervezoApi.DecodedOnly(raws[..j]);
    TervezoApi.DecodedOnlyAppend(raws[..j], [raws[j]]);
    TervezoApi.DecodedOnlySingle(raws[j]);
    assert raws[..j + 1] == raws[..j] + [raws[j]];
    if raws[j].Decoded? {
      var msg := raws[j].value;
      LastIdSnoc(done, msg);
      EventsSnoc(done, msg);
    } else {
      assert done + [] == done;
      assert Events(done) + [] == Events(done);
    }
  }

  /** What `read_events` does with a gathered payload on a blank line. */
  method DispatchPayload(decode: Decoder, dataBuf: string, eventId: Option<string>, cursor: Option<string>)
    returns (newCursor: Option<string>, events: seq<SseMessage>)
    ensures (newCursor, events) == Dispatch(decode, dataBuf, eventId, cursor)
  {
    newCursor, events := cursor, [];
    var envelope := decode(dataBuf);
    if envelope.Some? {
      if envelope.value.messages.Some? {
        newCursor, events := SendMessages(envelope.value.messages.value, cursor);
      } else {
        assert LastId([]) == None && Events([]) == [];
      }
      if eventId.Some? && newCursor.None? {
        newCursor := eventId;
      }
    }
  }

  /** `read_events` over the lines one connection yields. */
  method ReadEvents(decode: Decoder, lines: seq<LineResult>, stop: StopFlag, cursor: Option<string>)
    returns (newCursor: Option<string>, sent: seq<SseMessage>)
    modifies stop
    ensures var r := ReadRun(decode, old(stop.Quiet()), lines, ReadState("", None, cursor, []));
      newCursor == r.0.cursor && sent == r.0.sent && stop.Quiet() == r.1
  {
    ghost var goal := ReadRun(decode, stop.Quiet(), lines, ReadState("", None, cursor, []));
    var dataBuf, eventId := "", None;
    newCursor, sent := cursor, [];
    var i := 0;
    while i < |lines|
      invariant 0 <= i <= |lines|
      invariant ReadRun(decode, stop.Quiet(), lines[i..], ReadState(dataBuf, eventId, newCursor, sent)) == goal
    {
      ghost var q := stop.Quiet();
      ghost var st := ReadState(dataBuf, eventId, newCursor, sent);
      var stopped := stop.Load();
      if stopped {
        return;
      }
      if lines[i].ReadError? {
        return;
      }
      var line := lines[i].text;
      assert ReadRun(decode, q, lines[i..], st) == ReadRun(decode, q - 1, lines[i + 1..], LineStep(decode, st, line)) by {
        assert lines[i..][0] == lines[i] && lines[i..][1..] == lines[i + 1..];
      }
      dataBuf, eventId, newCursor, sent := ReadLine(decode, dataBuf, eventId, newCursor, sent, line);
      i := i + 1;
    }
  }

  /** What `read_events` does with one line. */
  method ReadLine(decode: Decoder, dataBuf: string, eventId: Option<string>, cursor: Option<string>,
                  sent: seq<SseMessage>, line: string)
    returns (newBuf: string, newEventId: Option<string>, newCursor: Option<string>, newSent: seq<SseMessage>)
    ensures LineStep(decode, ReadState(dataBuf, eventId, cursor, sent), line) == ReadState(newBuf, newEventId, newCursor, newSent)
  {
    newBuf, newEventId, newCursor, newSent := dataBuf, eventId, cursor, sent;
    if line == "" {
      if dataBuf != "" {
        var events;
        newCursor, events := DispatchPayload(decode, dataBuf, eventId, cursor);
        newBuf, newEventId, newSent := "", None, sent + events;
      }
    } else if StartsWith(line, "data: ") {
      newBuf := dataBuf + line[6..];
    } else if StartsWith(line, "id: ") {
      newEventId := Some(line[4..]);
    }
  }

  // ---------------------------------------------------------------------------
  // The reconnect loop
  // ---------------------------------------------------------------------------

  /** The base URL with its trailing slashes removed, as `connect` keeps it. */
  function StreamBase(config: TervezoApi.TervezoConfig): string {
    TrimEnd(config.baseUrl, '/')
  }

  /** The stream's URL, resuming after `cursor` when there is one. */
  function StreamUrl(base: string, implId: string, cursor: Option<string>): (url: string)
    ensures cursor.None? ==> url == base + "/implementations/" + implId + "/stream"
    ensures cursor.Some? ==> url == base + "/implementations/" + implId + "/stream" + "?after=" + cursor.value
  {
    var plain := base + "/implementations/" + implId + "/stream";
    if cursor.Some? then plain + "?after=" + cursor.value else plain
  }

  /** The URL carries "?after=" exactly when a cursor is set: a resuming URL
      is longer than the plain one and continues it with "?after=". */
  lemma StreamUrlResumes(base: string, implId: string, cursor: Option<string>)
    ensures var plain := StreamUrl(base, implId, None);
      var url := StreamUrl(base, implId, cursor);
      (cursor.Some? <==> |url| > |plain|)
      && (cursor.Some? ==> url[..|plain|] == plain && url[|plain|..] == "?after=" + cursor.value)
  {
  }

  /** One connection attempt: it fails with a message, or the server sends lines. */
  datatype Attempt = Connected(lines: seq<LineResult>) | ConnectFailed(error: string)

  /** What the loop did: the cursor it ends with, what it sent, the URLs it
      connected to, the backoff (in seconds) of each wait it began, and how
      many more loads of the flag would read false. */
  datatype Run = Run(cursor: Option<string>, sent: seq<SseMessage>, urls: seq<string>, waits: seq<nat>, quiet: nat)

  /** The backoff after a wait of `b` seconds: doubled, at most 30. */
  function NextBackoff(b: nat): (r: nat)
    ensures r <= MaxBackoffSecs && (b <= MaxBackoffSecs ==> b <= r)
  {
    if b * 2 < MaxBackoffSecs then b * 2 else MaxBackoffSecs
  }

  /** What one connection attempt leaves: the cursor, what it sent, how
      many loads of the flag would still read false, and the backoff. */
  datatype Round = Round(cursor: Option<string>, sent: seq<SseMessage>, quiet: nat, backoff: nat)

  /** A connection resets the backoff to 1 and reads the events; a failed
      attempt reports its error on the channel. */
  function AttemptRound(decode: Decoder, attempt: Attempt, quiet: nat, cursor: Option<string>, backoff: nat): (r: Round)
    ensures r.quiet <= quiet
    ensures attempt.ConnectFailed? ==> r == Round(cursor, [Error(attempt.error)], quiet, backoff)
    ensures attempt.Connected? ==> r.backoff == 1
  {
    match attempt
    case Connected(lines) =>
      var rr := ReadRun(decode, quiet, lines, ReadState("", None, cursor, []));
      Round(rr.0.cursor, rr.0.sent, rr.1, 1)
    case ConnectFailed(e) => Round(cursor, [Error(e)], quiet, backoff)
  }

  /** What one turn of the loop leaves after the flag was read at its top:
      the cursor, what it sent, the wait it began (if any), how many loads
      of the flag would still read false, and the next backoff. */
  datatype Turn = Turn(cursor: Option<string>, sent: seq<SseMessage>, waits: seq<nat>, quiet: nat, backoff: nat)

  /** A turn makes the attempt, reads the flag, waits the backoff in tenths
      of a second reading the flag before each tenth, and doubles the
      backoff up to the cap. A turn ended by the flag leaves no loads. */
  function LoopTurn(decode: Decoder, attempt: Attempt, quiet: nat, cursor: Option<string>, backoff: nat): (t: Turn)
    ensures t.quiet <= quiet && |t.waits| <= 1
    ensures t.quiet > 0 ==> |t.waits| == 1 && t.backoff == NextBackoff(t.waits[0])
  {
    var a := AttemptRound(decode, attempt, quiet, cursor, backoff);
    if a.quiet == 0 then Turn(a.cursor, a.sent, [], 0, a.backoff)
    else if a.quiet - 1 < a.backoff * 10 then Turn(a.cursor, a.sent, [a.backoff], 0, a.backoff)
    else Turn(a.cursor, a.sent, [a.backoff], a.quiet - 1 - a.backoff * 10, NextBackoff(a.backoff))
  }

  /** `stream_loop` over the given attempts: each turn reads the flag, then
      connects to the URL of the current cursor. */
  function StreamRun(decode: Decoder, base: string, implId: string, attempts: seq<Attempt>,
                     quiet: nat, cursor: Option<string>, backoff: nat): (r: Run)
    ensures r.quiet <= quiet
    decreases |attempts|
  {
    if |attempts| == 0 || quiet == 0 then Run(cursor, [], [], [], quiet)
    else
      var t := LoopTurn(decode, attempts[0], quiet - 1, cursor, backoff);
      var rest := StreamRun(decode, base, implId, attempts[1..], t.quiet, t.cursor, t.backoff);
      Run(rest.cursor, t.sent + rest.sent, [StreamUrl(base, implId, cursor)] + rest.urls, t.waits + rest.waits, rest.quiet)
  }

  /** One turn of the loop, then the loop from where that turn left off. */
  lemma StreamRunStep(decode: Decoder, base: string, implId: string, attempts: seq<Attempt>,
                      quiet: nat, cursor: Option<string>, backoff: nat)
    requires |attempts| > 0 && quiet > 0
    ensures var t := LoopTurn(decode, attempts[0], quiet - 1, cursor, backoff);
      var rest := StreamRun(decode, base, implId, attempts[1..], t.quiet, t.cursor, t.backoff);
      StreamRun(decode, base, implId, attempts, quiet, cursor, backoff)
        == Run(rest.cursor, t.sent + rest.sent, [StreamUrl(base, implId, cursor)] + rest.urls, t.waits + rest.waits, rest.quiet)
  {
  }

  /** The loop invariant of `StreamLoop` when the loop ends, for want of
      attempts or because the flag was raised: what was gathered is all. */
  lemma StreamLoopDone(decode: Decoder, base: string, implId: string, attempts: seq<Attempt>,
                       quiet: nat, cursor: Option<string>, backoff: nat,
                       goal: Run, s0: seq<SseMessage>, u0: seq<string>, w0: seq<nat>)
    requires |attempts| == 0 || quiet == 0
    requires LoopInvariant(decode, base, implId, attempts, quiet, cursor, backoff, goal, s0, u0, w0)
    ensures goal.sent == s0 && goal.urls == u0 && goal.waits == w0 && goal.quiet == quiet
  {
    assert s0 + [] == s0 && u0 + [] == u0 && w0 + [] == w0;
  }

  /** The loop invariant of `StreamLoop` carried over one turn. */
  lemma StreamLoopStep(decode: Decoder, base: string, implId: string, attempts: seq<Attempt>,
                       quiet: nat, cursor: Option<string>, backoff: nat,
                       goal: Run, s0: seq<SseMessage>, u0: seq<string>, w0: seq<nat>)
    requires |attempts| > 0 && quiet > 0
    requires LoopInvariant(decode, base, implId, attempts, quiet, cursor, backoff, goal, s0, u0, w0)
    ensures var t := LoopTurn(decode, attempts[0], quiet - 1, cursor, backoff);
      LoopInvariant(decode, base, implId, attempts[1..], t.quiet, t.cursor, t.backoff, goal,
                    s0 + t.sent, u0 + [StreamUrl(base, implId, cursor)], w0 + t.waits)
  {
    var t := LoopTurn(decode, attempts[0], quiet - 1, cursor, backoff);
    var rest := StreamRun(decode, base, implId, attempts[1..], t.quiet, t.cursor, t.backoff);
    StreamRunStep(decode, base, implId, attempts, quiet, cursor, backoff);
    RunRegroup(goal, s0, u0, w0, t.sent, [StreamUrl(base, implId, cursor)], t.waits, rest);
  }

  /** The backoff of the k-th wait in a run of failures: 1, 2, 4, 8, 16, then 30. */
  function FailureBackoff(k: nat): (b: nat)
    ensures 1 <= b <= MaxBackoffSecs
  {
    if k == 0 then 1 else NextBackoff(FailureBackoff(k - 1))
  }

  lemma BackoffSchedule()
    ensures FailureBackoff(0) == 1 && FailureBackoff(1) == 2 && FailureBackoff(2) == 4
    ensures FailureBackoff(3) == 8 && FailureBackoff(4) == 16 && FailureBackoff(5) == 30
  {
  }

  /** Past the cap the backoff stays at 30 seconds. */
  lemma {:induction false} BackoffCapped(k: nat)
    requires k >= 5
    ensures FailureBackoff(k) == MaxBackoffSecs
    decreases k
  {
    if k > 5 {
      BackoffCapped(k - 1);
    }
  }

  function AllFailed(attempts: seq<Attempt>): bool {
    forall i :: 0 <= i < |attempts| ==> attempts[i].ConnectFailed?
  }

  /** The wait budget of a run of failures: per attempt, two loads and ten
      per second of backoff. */
  function FailureBudget(from: nat, n: nat): nat
    decreases n
  {
    if n == 0 then 0 else 2 + FailureBackoff(from) * 10 + FailureBudget(from + 1, n - 1)
  }

  /** The waits of a run of `n` failures starting at the `from`-th. */
  function FailureWaits(from: nat, n: nat): (r: seq<nat>)
    ensures |r| == n
    decreases n
  {
    if n == 0 then [] else [FailureBackoff(from)] + FailureWaits(from + 1, n - 1)
  }

  /** The messages a run of failures sends: each attempt's error, in order. */
  function FailureReports(attempts: seq<Attempt>): (r: seq<SseMessage>)
    requires AllFailed(attempts)
    ensures |r| == |attempts|
  {
    seq(|attempts|, k requires 0 <= k < |attempts| => Error(attempts[k].error))
  }

  lemma FailureWaitsCons(from: nat, n: nat)
    requires n > 0
    ensures FailureWaits(from, n) == [FailureBackoff(from)] + FailureWaits(from + 1, n - 1)
  {
  }

  /** The k-th wait of a run of failures is the k-th of the schedule. */
  lemma {:induction false} FailureWaitsIndex(from: nat, n: nat, k: nat)
    requires k < n
    ensures FailureWaits(from, n)[k] == FailureBackoff(from + k)
    decreases k
  {
    if k > 0 {
      FailureWaitsIndex(from + 1, n - 1, k - 1);
    }
  }

  lemma FailureReportsCons(attempts: seq<Attempt>)
    requires |attempts| > 0 && AllFailed(attempts)
    ensures AllFailed(attempts[1..])
    ensures FailureReports(attempts) == [Error(attempts[0].error)] + FailureReports(attempts[1..])
  {
    assert forall i :: 0 <= i < |attempts| - 1 ==> attempts[1..][i] == attempts[i + 1];
    var w := FailureReports(attempts);
    var v := [Error(attempts[0].error)] + FailureReports(attempts[1..]);
    forall k | 0 <= k < |attempts|
      ensures w[k] == v[k]
    {
      if k > 0 {
        assert v[k] == FailureReports(attempts[1..])[k - 1];
      }
    }
  }

  /** While every attempt fails and the flag stays down, the loop waits
      after each failure, with the backoff doubling each time, and reports
      each failure; the cursor does not move. */
  lemma {:induction false} FailuresBackOff(decode: Decoder, base: string, implId: string, attempts: seq<Attempt>,
                                           quiet: nat, cursor: Option<string>, from: nat)
    requires AllFailed(attempts)
    requires quiet > FailureBudget(from, |attempts|)
    ensures var r := StreamRun(decode, base, implId, attempts, quiet, cursor, FailureBackoff(from));
      r.waits == FailureWaits(from, |attempts|) && r.sent == FailureReports(attempts) && r.cursor == cursor
    decreases |attempts|
  {
    if |attempts| > 0 {
      var b := FailureBackoff(from);
      var q1 := quiet - 1 - 1 - b * 10;
      assert LoopTurn(decode, attempts[0], quiet - 1, cursor, b)
        == Turn(cursor, [Error(attempts[0].error)], [b], q1, FailureBackoff(from + 1));
      FailureReportsCons(attempts);
      FailureWaitsCons(from, |attempts|);
      FailuresBackOff(decode, base, implId, attempts[1..], q1, cursor, from + 1);
      StreamRunStep(decode, base, implId, attempts, quiet, cursor, b);
    } else {
      assert FailureWaits(from, 0) == [] && FailureReports(attempts) == [];
    }
  }

  /** The schedule of a run of failures: waits of 1, 2, 4, 8, 16, then 30
      seconds, and one error message per failed attempt. */
  lemma FailureSchedule(decode: Decoder, base: string, implId: string, attempts: seq<Attempt>,
                        quiet: nat, cursor: Option<string>)
    requires AllFailed(attempts)
    requires quiet > FailureBudget(0, |attempts|)
    ensures var r := StreamRun(decode, base, implId, attempts, quiet, cursor, 1);
      && |r.waits| == |attempts| && |r.sent| == |attempts| && r.cursor == cursor
      && (forall k :: 0 <= k < |attempts| ==> r.waits[k] == FailureBackoff(k))
      && (forall k :: 0 <= k < |attempts| ==> r.sent[k] == Error(attempts[k].error))
      && (forall k :: 5 <= k < |attempts| ==> r.waits[k] == MaxBackoffSecs)
  {
    FailuresBackOff(decode, base, implId, attempts, quiet, cursor, 0);
    forall k | 0 <= k < |attempts|
      ensures FailureWaits(0, |attempts|)[k] == FailureBackoff(k)
    {
      FailureWaitsIndex(0, |attempts|, k);
    }
    forall k | 5 <= k < |attempts|
      ensures FailureBackoff(k) == MaxBackoffSecs
    {
      BackoffCapped(k);
    }
  }

  /** A successful connection resets the backoff: the wait after it is one second. */
  lemma ConnectResetsBackoff(decode: Decoder, base: string, implId: string, attempts: seq<Attempt>,
                             quiet: nat, cursor: Option<string>, backoff: nat)
    requires |attempts| > 0 && attempts[0].Connected?
    requires quiet > |attempts[0].lines| + 12
    ensures var r := StreamRun(decode, base, implId, attempts, quiet, cursor, backoff);
      |r.waits| > 0 && r.waits[0] == 1
  {
    var lines := attempts[0].lines;
    var rr := ReadRun(decode, quiet - 1, lines, ReadState("", None, cursor, []));
    ReadRunQuiet(decode, quiet - 1, lines, ReadState("", None, cursor, []));
    assert rr.1 >= quiet - 1 - |lines|;
  }

  /** Reading `lines` uses at most one load of the flag per line. */
  lemma {:induction false} ReadRunQuiet(decode: Decoder, quiet: nat, lines: seq<LineResult>, st: ReadState)
    ensures ReadRun(decode, quiet, lines, st).1 >= quiet - |lines|
    decreases |lines|
  {
    if |lines| > 0 && quiet > 0 && lines[0].Line? {
      ReadRunQuiet(decode, quiet - 1, lines[1..], LineStep(decode, st, lines[0].text));
    }
  }

  /** Once the flag is up the loop connects nowhere and sends nothing. */
  lemma StreamRunStopped(decode: Decoder, base: string, implId: string, attempts: seq<Attempt>,
                         cursor: Option<string>, backoff: nat)
    ensures StreamRun(decode, base, implId, attempts, 0, cursor, backoff) == Run(cursor, [], [], [], 0)
  {
  }

  /** Every reconnect resumes from the cursor the previous connection left:
      the second URL is built from the cursor after the first attempt. */
  lemma ReconnectUsesCursor(decode: Decoder, base: string, implId: string, lines: seq<LineResult>,
                            rest: seq<Attempt>, quiet: nat, cursor: Option<string>)
    requires |rest| > 0
    requires quiet > |lines| + 14
    ensures var attempts := [Connected(lines)] + rest;
      var r := StreamRun(decode, base, implId, attempts, quiet, cursor, 1);
      var after := ReadRun(decode, quiet - 1, lines, ReadState("", None, cursor, [])).0.cursor;
      |r.urls| >= 2 && r.urls[0] == StreamUrl(base, implId, cursor) && r.urls[1] == StreamUrl(base, implId, after)
  {
    var attempts := [Connected(lines)] + rest;
    assert attempts[0] == Connected(lines) && attempts[1..] == rest;
    var rr := ReadRun(decode, quiet - 1, lines, ReadState("", None, cursor, []));
    ReadRunQuiet(decode, quiet - 1, lines, ReadState("", None, cursor, []));
    var q := rr.1 - 1 - 10;
    assert q > 0;
    var tail := StreamRun(decode, base, implId, rest, q, rr.0.cursor, NextBackoff(1));
    assert |tail.urls| > 0 && tail.urls[0] == StreamUrl(base, implId, rr.0.cursor);
  }

  /** One attempt of `stream_loop`. */
  method AttemptOnce(decode: Decoder, attempt: Attempt, stop: StopFlag, cursor: Option<string>, backoff: nat)
    returns (newCursor: Option<string>, sent: seq<SseMessage>, newBackoff: nat)
    modifies stop
    ensures var a := AttemptRound(decode, attempt, old(stop.Quiet()), cursor, backoff);
      newCursor == a.cursor && sent == a.sent && newBackoff == a.backoff && stop.Quiet() == a.quiet
  {
    match attempt {
      case Connected(lines) =>
        newBackoff := 1;
        newCursor, sent := ReadEvents(decode, lines, stop, cursor);
      case ConnectFailed(e) =>
        newCursor, sent, newBackoff := cursor, [Error(e)], backoff;
    }
  }

  /** The retry wait: `backoff` seconds in tenths, reading the flag before each. */
  method WaitBackoff(stop: StopFlag, backoff: nat) returns (stopped: bool)
    modifies stop
    ensures stopped <==> old(stop.Quiet()) < backoff * 10
    ensures stop.Quiet() == if stopped then 0 else old(stop.Quiet()) - backoff * 10
  {
    var tick := 0;
    while tick < backoff * 10
      invariant 0 <= tick <= backoff * 10
      invariant old(stop.Quiet()) >= tick && stop.Quiet() == old(stop.Quiet()) - tick
    {
      stopped := stop.Load();
      if stopped {
        return;
      }
      tick := tick + 1;
    }
    stopped := false;
  }

  /** Moving one turn's output from the remaining run onto what was already done. */
  lemma RunRegroup(goal: Run, s0: seq<SseMessage>, u0: seq<string>, w0: seq<nat>,
                   s1: seq<SseMessage>, u1: seq<string>, w1: seq<nat>, rest: Run)
    requires goal == Run(rest.cursor, s0 + (s1 + rest.sent), u0 + (u1 + rest.urls), w0 + (w1 + rest.waits), rest.quiet)
    ensures goal == Run(rest.cursor, (s0 + s1) + rest.sent, (u0 + u1) + rest.urls, (w0 + w1) + rest.waits, rest.quiet)
  {
    assert s0 + (s1 + rest.sent) == (s0 + s1) + rest.sent;
    assert u0 + (u1 + rest.urls) == (u0 + u1) + rest.urls;
    assert w0 + (w1 + rest.waits) == (w0 + w1) + rest.waits;
  }

  /** One turn of `stream_loop` after the flag was read at its top. */
  method RunTurn(decode: Decoder, attempt: Attempt, stop: StopFlag, cursor: Option<string>, backoff: nat)
    returns (newCursor: Option<string>, sent: seq<SseMessage>, waits: seq<nat>, newBackoff: nat)
    modifies stop
    ensures var t := LoopTurn(decode, attempt, old(stop.Quiet()), cursor, backoff);
      newCursor == t.cursor && sent == t.sent && waits == t.waits && newBackoff == t.backoff && stop.Quiet() == t.quiet
  {
    newCursor, sent, newBackoff := AttemptOnce(decode, attempt, stop, cursor, backoff);
    waits := [];
    var stopped := stop.Load();
    if stopped {
      return;
    }
    waits := [newBackoff];
    stopped := WaitBackoff(stop, newBackoff);
    if stopped {
      return;
    }
    newBackoff := NextBackoff(newBackoff);
  }

  /** `stream_loop` over the stream of `config` for implementation `implId`,
      given the attempts' outcomes. */
  method StreamLoop(decode: Decoder, config: TervezoApi.TervezoConfig, implId: string,
                    initialCursor: Option<string>, stop: StopFlag, attempts: seq<Attempt>)
    returns (sent: seq<SseMessage>, urls: seq<string>, waits: seq<nat>)
    modifies stop
    ensures var r := StreamRun(decode, StreamBase(config), implId, attempts, old(stop.Quiet()), initialCursor, 1);
      sent == r.sent && urls == r.urls && waits == r.waits && stop.Quiet() == r.quiet
  {
    var base := TrimEnd(config.baseUrl, '/');
    ghost var goal := StreamRun(decode, base, implId, attempts, stop.Quiet(), initialCursor, 1);
    var cursor := initialCursor;
    var backoff: nat := 1;
    sent, urls, waits := [], [], [];
    assert goal == Run(goal.cursor, sent + goal.sent, urls + goal.urls, waits + goal.waits, goal.quiet);
    var i := 0;
    var done := false;
    while i < |attempts| && !done
      invariant 0 <= i <= |attempts|
      invariant done ==> sent == goal.sent && urls == goal.urls && waits == goal.waits && stop.Quiet() == goal.quiet
      invariant !done ==> LoopInvariant(decode, base, implId, attempts[i..], stop.Quiet(), cursor, backoff, goal, sent, urls, waits)
    {
      done, cursor, backoff, sent, urls, waits :=
        StreamTurn(decode, base, implId, attempts[i..], stop, cursor, backoff, goal, sent, urls, waits);
      assert attempts[i..][1..] == attempts[i + 1..];
      i := i + 1;
    }
    if !done {
      assert attempts[i..] == [];
      StreamLoopDone(decode, base, implId, attempts[i..], stop.Quiet(), cursor, backoff, goal, sent, urls, waits);
    }
  }

  /** What `stream_loop` keeps between turns: the run from here on,
      appended to what was gathered, is the whole run `goal`. */
  predicate LoopInvariant(decode: Decoder, base: string, implId: string, attempts: seq<Attempt>,
                          quiet: nat, cursor: Option<string>, backoff: nat,
                          goal: Run, sent: seq<SseMessage>, urls: seq<string>, waits: seq<nat>)
  {
    var rest := StreamRun(decode, base, implId, attempts, quiet, cursor, backoff);
    goal == Run(rest.cursor, sent + rest.sent, urls + rest.urls, waits + rest.waits, rest.quiet)
  }

  /** One turn of `stream_loop`: the flag is read at the top, and a raised
      flag ends the loop with what was gathered; otherwise the turn runs. */
  method StreamTurn(decode: Decoder, base: string, implId: string, attempts: seq<Attempt>, stop: StopFlag,
                    cursor: Option<string>, backoff: nat, ghost goal: Run,
                    sent: seq<SseMessage>, urls: seq<string>, waits: seq<nat>)
    returns (done: bool, cursor': Option<string>, backoff': nat,
             sent': seq<SseMessage>, urls': seq<string>, waits': seq<nat>)
    requires |attempts| > 0
    requires LoopInvariant(decode, base, implId, attempts, stop.Quiet(), cursor, backoff, goal, sent, urls, waits)
    modifies stop
    ensures done ==> sent' == goal.sent && urls' == goal.urls && waits' == goal.waits && stop.Quiet() == goal.quiet
    ensures !done ==> LoopInvariant(decode, base, implId, attempts[1..], stop.Quiet(), cursor', backoff', goal, sent', urls', waits')
  {
    ghost var q0 := stop.Quiet();
    var stopped := stop.Load();
    if stopped {
      StreamLoopDone(decode, base, implId, attempts, q0, cursor, backoff, goal, sent, urls, waits);
      return true, cursor, backoff, sent, urls, waits;
    }
    StreamLoopStep(decode, base, implId, attempts, q0, cursor, backoff, goal, sent, urls, waits);
    var url := StreamUrl(base, implId, cursor);
    var events, w;
    cursor', events, w, backoff' := RunTurn(decode, attempts[0], stop, cursor, backoff);
    done, sent', urls', waits' := false, sent + events, urls + [url], waits + w;
  }
}
