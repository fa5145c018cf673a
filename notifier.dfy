/**
 * The bell notifier of one attached session. It watches the session's
 * JSONL log, folds every newly appended record through a small state
 * machine, and reports whether the session now wants the user's attention:
 * a turn ended, the history was compacted, or a tool call has waited for
 * approval for five seconds. The file system and the clock are inputs:
 * a check is given the directory listing, the current log size, whether
 * the log could be opened at the old size, the lines found after it, and
 * the time in milliseconds.
 */
module Notifier {
  import opened Wrappers
  import opened Text
  import Paths

  /** How long a tool call may wait before the bell rings, in milliseconds. */
  const ToolWaitMs: nat := 5000

  datatype SessionState = Unknown | UserSent | Working | Idle | ToolWait

  /** One line after the old end of the log, as the JSON parser sees it. */
  datatype LogLine =
    | Blank
    | Malformed
    /** `compactSummary` is an `isCompactSummary` field that is the boolean
        true; `msgType` is the `type` string ("" when absent); `stopReason`
        is `message.stop_reason` when it is a string. */
    | Record(compactSummary: bool, msgType: string, stopReason: Option<string>)

  /** One entry of the project directory: its file name, and its
      modification time and size when its metadata could be read. */
  datatype DirEntry = DirEntry(name: string, mtime: Option<int>, size: Option<nat>)

  /** What one check finds: the project directory's entries (None when the
      directory is missing or unreadable), the log's size (None when its
      metadata cannot be read), whether it could be opened and read from the old size, the lines
      after the old size, and the time. */
  datatype CheckInput = CheckInput(
    listing: Option<seq<DirEntry>>,
    size: Option<nat>,
    readable: bool,
    lines: seq<LogLine>,
    now: nat)

  /** The notifier's state as one value. */
  datatype NotifierState = NotifierState(path: Option<string>, lastSize: nat, state: SessionState, toolUseAt: Option<nat>)

  /** The tool timer runs only while a tool call is waiting. */
  predicate TimerInToolWait(toolUseAt: Option<nat>, state: SessionState) {
    toolUseAt.Some? ==> state == ToolWait
  }

  /** The fold's accumulator: the state machine and whether to ring. */
  datatype Progress = Progress(state: SessionState, toolUseAt: Option<nat>, notify: bool)

  /** States from which the end of a turn rings the bell. */
  predicate Busy(s: SessionState) {
    s == UserSent || s == Working || s == ToolWait
  }

  /** One appended line through the state machine. */
  function Step(p: Progress, line: LogLine, now: nat): Progress {
    match line
    case Blank => p
    case Malformed => p
    case Record(compact, msgType, stopReason) =>
      if compact then p.(notify := true, toolUseAt := None)
      else if msgType == "user" then p.(state := UserSent, toolUseAt := None)
      else if msgType == "assistant" then
        if stopReason == Some("end_turn") then Progress(Idle, None, p.notify || Busy(p.state))
        else if stopReason == Some("tool_use") then p.(state := ToolWait, toolUseAt := Some(now))
        else if p.state != ToolWait then p.(state := Working, toolUseAt := None)
        else p
      else if msgType == "progress" || msgType == "result" then
        if p.state != ToolWait then p.(state := Working) else p
      else p
  }

  /** All appended lines, first to last. */
  function Fold(p: Progress, lines: seq<LogLine>, now: nat): Progress
    decreases |lines|
  {
    if |lines| == 0 then p else Step(Fold(p, lines[..|lines| - 1], now), lines[|lines| - 1], now)
  }

  /** The line rings the bell on its own, from the state before it. */
  predicate Rings(p: Progress, line: LogLine, now: nat) {
    Step(p.(notify := false), line, now).notify
  }

  /** A file name whose extension is `jsonl`. */
  predicate IsLogName(name: string) {
    Paths.HasExtension(name, "jsonl")
  }

  /** A jsonl entry whose time stamp could be read. */
  predicate IsCandidate(e: DirEntry) {
    IsLogName(e.name) && e.mtime.Some?
  }

  /** `es[k]` is the first of the most recently modified candidates. */
  predicate IsNewest(es: seq<DirEntry>, k: nat) {
    && k < |es| && IsCandidate(es[k])
    && (forall j :: 0 <= j < |es| && IsCandidate(es[j]) ==> es[j].mtime.value <= es[k].mtime.value)
    && (forall j :: 0 <= j < k && IsCandidate(es[j]) ==> es[j].mtime.value < es[k].mtime.value)
  }

  /** The index of the newest candidate: a later entry replaces the one kept
      only when it is strictly newer. */
  function Newest(es: seq<DirEntry>): (r: Option<nat>)
    ensures r.Some? ==> r.value < |es| && IsCandidate(es[r.value])
    decreases |es|
  {
    if |es| == 0 then None
    else
      var before := Newest(es[..|es| - 1]);
      var e := es[|es| - 1];
      if IsCandidate(e) && (before.None? || e.mtime.value > es[before.value].mtime.value) then Some(|es| - 1)
      else before
  }

  /** Newest finds the first newest candidate, and finds nothing only when
      there are no candidates. */
  lemma {:induction false} NewestIsNewest(es: seq<DirEntry>)
    ensures Newest(es).Some? ==> IsNewest(es, Newest(es).value)
    ensures Newest(es).None? <==> forall j :: 0 <= j < |es| ==> !IsCandidate(es[j])
    decreases |es|
  {
    if |es| > 0 {
      var n := |es| - 1;
      var init := es[..n];
      NewestIsNewest(init);
      var b := Newest(init);
      var e := es[n];
      assert forall j :: 0 <= j < n ==> init[j] == es[j];
      if IsCandidate(e) && (b.None? || e.mtime.value > es[b.value].mtime.value) {
        assert Newest(es) == Some(n);
        forall j | 0 <= j < n && IsCandidate(es[j]) ensures es[j].mtime.value < e.mtime.value {
          assert init[j] == es[j];
        }
      } else {
        assert Newest(es) == b;
        if b.Some? {
          assert IsNewest(init, b.value);
          forall j | 0 <= j < |es| && IsCandidate(es[j]) ensures es[j].mtime.value <= es[b.value].mtime.value {
            if j < n {
              assert init[j] == es[j];
            }
          }
        }
      }
    }
  }

  /** Path discovery: the newest candidate becomes the log, and the
      watermark starts at its size (0 when that cannot be read). */
  function Discover(dir: string, n: NotifierState, listing: Option<seq<DirEntry>>): NotifierState {
    match listing
    case None => n
    case Some(es) =>
      match Newest(es)
      case None => n
      case Some(k) => n.(path := Some(Paths.PathJoin(dir, es[k].name)), lastSize := es[k].size.UnwrapOr(0))
  }

  /** The file discovery settles on has the extension `jsonl` as Rust's
      `Path::extension` reports it, when the directory is given without a
      trailing '/' and entry names are single components. */
  lemma DiscoveredLogIsJsonl(dir: string, es: seq<DirEntry>)
    requires |dir| > 0 && dir[|dir| - 1] != '/'
    requires forall j :: 0 <= j < |es| ==> '/' !in es[j].name
    ensures Newest(es).Some? ==> Paths.Extension(Paths.PathJoin(dir, es[Newest(es).value].name)) == Some("jsonl")
  {
    if Newest(es).Some? {
      var k := Newest(es).value;
      var name := es[k].name;
      assert '/' !in name && |name| > 6;
      Paths.JoinFileName(dir, name);
      assert '.' !in "jsonl" by {
        assert "jsonl" == ['j', 's', 'o', 'n', 'l'];
      }
      Paths.HasExtensionIff(name, "jsonl");
      assert Paths.Extension(Paths.PathJoin(dir, name)) == Paths.SplitName(name).1;
    }
  }

  /** Rust's `saturating_sub` on unsigned numbers. */
  function SatSub(a: nat, b: nat): nat {
    if a >= b then a - b else 0
  }

  /** One check: the new state and whether the bell rings. */
  function CheckSpec(dir: string, n: NotifierState, input: CheckInput): (NotifierState, bool) {
    var m := if n.path.None? then Discover(dir, n, input.listing) else n;
    if m.path.None? then (m, false)
    else match input.size
      case None => (m, false)
      case Some(cur) =>
        if cur == m.lastSize then
          if m.toolUseAt.Some? && SatSub(input.now, m.toolUseAt.value) >= ToolWaitMs then (m.(toolUseAt := None), true)
          else (m, false)
        else if cur < m.lastSize then (m.(lastSize := cur), false)
        else if !input.readable then (m, false)
        else
          var p := Fold(Progress(m.state, m.toolUseAt, false), input.lines, input.now);
          (NotifierState(m.path, cur, p.state, p.toolUseAt), p.notify)
  }

  /** The end of a turn rings only from UserSent, Working or ToolWait, and
      always leaves the session Idle with no timer. */
  lemma EndTurnRingsOnlyWhenBusy(p: Progress, now: nat)
    ensures var q := Step(p, Record(false, "assistant", Some("end_turn")), now);
      q.state == Idle && q.toolUseAt.None? && (q.notify <==> p.notify || Busy(p.state))
    ensures Rings(p, Record(false, "assistant", Some("end_turn")), now) <==> p.state !in {Unknown, Idle}
  {
  }

  /** A compact summary rings and stops the timer without touching the
      state; blank and unparseable lines change nothing. */
  lemma QuietLines(p: Progress, msgType: string, stopReason: Option<string>, now: nat)
    ensures Step(p, Record(true, msgType, stopReason), now) == p.(notify := true, toolUseAt := None)
    ensures Step(p, Blank, now) == p && Step(p, Malformed, now) == p
  {
  }

  /** Which lines ring: a compact summary, or the end of a turn from a busy state. */
  lemma RingingLines(p: Progress, line: LogLine, now: nat)
    ensures Rings(p, line, now) <==>
      line.Record? && (line.compactSummary
        || (line.msgType == "assistant" && line.stopReason == Some("end_turn") && Busy(p.state)))
  {
  }

  /** Whether to ring never influences the state machine. */
  lemma {:induction false} FoldIgnoresNotify(p: Progress, lines: seq<LogLine>, now: nat)
    ensures Fold(p, lines, now).state == Fold(p.(notify := false), lines, now).state
    ensures Fold(p, lines, now).toolUseAt == Fold(p.(notify := false), lines, now).toolUseAt
    decreases |lines|
  {
    if |lines| > 0 {
      FoldIgnoresNotify(p, lines[..|lines| - 1], now);
    }
  }

  /** A line turns the bell on when it rings on its own, and never turns it off. */
  lemma StepNotify(p: Progress, line: LogLine, now: nat)
    ensures Step(p, line, now).notify == (p.notify || Rings(p, line, now))
  {
  }

  /** The bell rings after a batch of lines exactly when it was already
      going to ring or some line of the batch rings on its own. */
  lemma FoldRingsIffSomeLineRings(p: Progress, lines: seq<LogLine>, now: nat)
    ensures Fold(p, lines, now).notify <==>
      p.notify || exists k :: 0 <= k < |lines| && Rings(Fold(p, lines[..k], now), lines[k], now)
  {
    if Fold(p, lines, now).notify && !p.notify {
      RingingLineExists(p, lines, now);
    }
    if exists k :: 0 <= k < |lines| && Rings(Fold(p, lines[..k], now), lines[k], now) {
      var k :| 0 <= k < |lines| && Rings(Fold(p, lines[..k], now), lines[k], now);
      RingingLineRings(p, lines, now, k);
    }
  }

  /** A bell that was not going to ring rings only because of some line. */
  lemma {:induction false} RingingLineExists(p: Progress, lines: seq<LogLine>, now: nat)
    requires Fold(p, lines, now).notify && !p.notify
    ensures exists k :: 0 <= k < |lines| && Rings(Fold(p, lines[..k], now), lines[k], now)
    decreases |lines|
  {
    var n := |lines| - 1;
    var init := lines[..n];
    var q := Fold(p, init, now);
    StepNotify(q, lines[n], now);
    if q.notify {
      RingingLineExists(p, init, now);
      var k :| 0 <= k < |init| && Rings(Fold(p, init[..k], now), init[k], now);
      assert lines[..k] == init[..k] && lines[k] == init[k];
    } else {
      assert Rings(Fold(p, lines[..n], now), lines[n], now);
    }
  }

  /** Once a line rings on its own, the bell rings after the batch. */
  lemma {:induction false} RingingLineRings(p: Progress, lines: seq<LogLine>, now: nat, k: nat)
    requires k < |lines| && Rings(Fold(p, lines[..k], now), lines[k], now)
    ensures Fold(p, lines, now).notify
    decreases |lines|
  {
    var n := |lines| - 1;
    var init := lines[..n];
    var q := Fold(p, init, now);
    StepNotify(q, lines[n], now);
    if k < n {
      assert lines[..k] == init[..k] && lines[k] == init[k];
      RingingLineRings(p, init, now, k);
    } else {
      assert init == lines[..k];
    }
  }

  /** Every line keeps the timer confined to ToolWait. */
  lemma {:induction false} FoldKeepsTimerInToolWait(p: Progress, lines: seq<LogLine>, now: nat)
    requires TimerInToolWait(p.toolUseAt, p.state)
    ensures var q := Fold(p, lines, now); TimerInToolWait(q.toolUseAt, q.state)
    decreases |lines|
  {
    if |lines| > 0 {
      FoldKeepsTimerInToolWait(p, lines[..|lines| - 1], now);
    }
  }

  /** A notifier with no known log and nothing to discover stays silent and unchanged. */
  lemma NoLogNoChange(dir: string, n: NotifierState, input: CheckInput)
    requires n.path.None?
    requires input.listing.None? || forall j :: 0 <= j < |input.listing.value| ==> !IsCandidate(input.listing.value[j])
    ensures CheckSpec(dir, n, input) == (n, false)
  {
    if input.listing.Some? {
      NewestIsNewest(input.listing.value);
    }
  }

  /** With an unchanged size, the bell rings exactly when the tool timer has
      run for five seconds, and ringing stops the timer. */
  lemma UnchangedSizeRingsOnTimer(dir: string, n: NotifierState, input: CheckInput)
    requires n.path.Some? && input.size == Some(n.lastSize)
    ensures CheckSpec(dir, n, input).1 <==> n.toolUseAt.Some? && input.now >= n.toolUseAt.value + ToolWaitMs
    ensures CheckSpec(dir, n, input).0 == if CheckSpec(dir, n, input).1 then n.(toolUseAt := None) else n
  {
  }

  /** A log that shrank moves the watermark down and changes nothing else. */
  lemma ShrunkLogResetsWatermark(dir: string, n: NotifierState, input: CheckInput, cur: nat)
    requires n.path.Some? && input.size == Some(cur) && cur < n.lastSize
    ensures CheckSpec(dir, n, input) == (n.(lastSize := cur), false)
  {
  }

  /** A log that grew and could be read moves the watermark to its new size. */
  lemma GrownLogAdvancesWatermark(dir: string, n: NotifierState, input: CheckInput, cur: nat)
    requires n.path.Some? && input.size == Some(cur) && cur > n.lastSize && input.readable
    ensures CheckSpec(dir, n, input).0.lastSize == cur && CheckSpec(dir, n, input).0.path == n.path
    ensures CheckSpec(dir, n, input).1 <==>
      exists k :: 0 <= k < |input.lines| && Rings(Fold(Progress(n.state, n.toolUseAt, false), input.lines[..k], input.now), input.lines[k], input.now)
  {
    FoldRingsIffSomeLineRings(Progress(n.state, n.toolUseAt, false), input.lines, input.now);
  }

  /** A check keeps the timer confined to ToolWait. */
  lemma CheckKeepsTimerInToolWait(dir: string, n: NotifierState, input: CheckInput)
    requires TimerInToolWait(n.toolUseAt, n.state)
    ensures TimerInToolWait(CheckSpec(dir, n, input).0.toolUseAt, CheckSpec(dir, n, input).0.state)
  {
    var m := if n.path.None? then Discover(dir, n, input.listing) else n;
    FoldKeepsTimerInToolWait(Progress(m.state, m.toolUseAt, false), input.lines, input.now);
  }

  /** The session log's location: the project directory is the working
      directory with every '/' turned into '-', under `~/.claude/projects`. */
  function ProjectDir(home: Option<string>, cwd: string): string {
    Paths.PathJoin(Paths.PathJoin(Paths.PathJoin(home.UnwrapOr("~"), ".claude"), "projects"), ReplaceChar(cwd, '/', '-'))
  }

  function LogPath(home: Option<string>, cwd: string, sessionId: string): string {
    Paths.PathJoin(ProjectDir(home, cwd), sessionId + ".jsonl")
  }

  /** A new notifier knows its log when the file exists, with the watermark
      at the file's size (0 when that cannot be read), so that only records
      written from now on count; otherwise the log is discovered later. */
  function Initial(home: Option<string>, cwd: string, sessionId: string, logExists: bool, logSize: Option<nat>): (r: NotifierState)
    ensures r.state == Unknown && r.toolUseAt.None? && TimerInToolWait(r.toolUseAt, r.state)
    ensures r.path.Some? <==> logExists
    ensures r.path.Some? ==> r.path.value == LogPath(home, cwd, sessionId) && r.lastSize == logSize.UnwrapOr(0)
    ensures r.path.None? ==> r.lastSize == 0
  {
    if logExists then NotifierState(Some(LogPath(home, cwd, sessionId)), logSize.UnwrapOr(0), Unknown, None)
    else NotifierState(None, 0, Unknown, None)
  }

  /** Scanning the directory for the newest log, entry by entry. */
  method FindNewest(es: seq<DirEntry>) returns (r: Option<nat>)
    ensures r == Newest(es)
  {
    r := None;
    var i := 0;
    while i < |es|
      invariant 0 <= i <= |es|
      invariant r == Newest(es[..i])
    {
      var e := es[i];
      assert es[..i + 1][..i] == es[..i] && es[..i + 1][i] == e;
      if IsLogName(e.name) && e.mtime.Some? {
        if r.None? || e.mtime.value > es[r.value].mtime.value {
          r := Some(i);
        }
      }
      i := i + 1;
    }
    assert es[..i] == es;
  }

  class JsonlNotifier {
    var jsonlPath: Option<string>
    const projectDir: string
    var lastSize: nat
    var state: SessionState
    var toolUseAt: Option<nat>

    function Snapshot(): NotifierState
      reads this
    {
      NotifierState(jsonlPath, lastSize, state, toolUseAt)
    }

    ghost predicate Valid()
      reads this
    {
      TimerInToolWait(toolUseAt, state)
    }

    /** A notifier for a session: the log is known at once when it exists,
        with the watermark at its current size; otherwise it is discovered
        on a later check. */
    constructor (home: Option<string>, cwd: string, sessionId: string, logExists: bool, logSize: Option<nat>)
      ensures Valid()
      ensures projectDir == ProjectDir(home, cwd)
      ensures Snapshot() == Initial(home, cwd, sessionId, logExists, logSize)
    {
      projectDir := ProjectDir(home, cwd);
      if logExists {
        jsonlPath := Some(LogPath(home, cwd, sessionId));
        lastSize := logSize.UnwrapOr(0);
      } else {
        jsonlPath := None;
        lastSize := 0;
      }
      state := Unknown;
      toolUseAt := None;
    }

    method TryDiscoverPath(listing: Option<seq<DirEntry>>)
      modifies this`jsonlPath, this`lastSize
      ensures Snapshot() == Discover(projectDir, old(Snapshot()), listing)
    {
      if listing.None? {
        return;
      }
      var found := FindNewest(listing.value);
      if found.Some? {
        var e := listing.value[found.value];
        lastSize := e.size.UnwrapOr(0);
        jsonlPath := Some(Paths.PathJoin(projectDir, e.name));
      }
    }

    /** One check of the log; true when the bell should ring. */
    method Check(input: CheckInput) returns (notify: bool)
      requires Valid()
      modifies this
      ensures Valid()
      ensures (Snapshot(), notify) == CheckSpec(projectDir, old(Snapshot()), input)
    {
      ghost var before := Snapshot();
      CheckKeepsTimerInToolWait(projectDir, before, input);
      ghost var m := if before.path.None? then Discover(projectDir, before, input.listing) else before;
      if jsonlPath.None? {
        TryDiscoverPath(input.listing);
      }
      assert Snapshot() == m;
      if jsonlPath.None? {
        return false;
      }
      if input.size.None? {
        return false;
      }
      var currentSize := input.size.value;
      if currentSize == lastSize {
        if toolUseAt.Some? {
          var elapsed := SatSub(input.now, toolUseAt.value);
          if elapsed >= ToolWaitMs {
            toolUseAt := None;
            return true;
          }
        }
        return false;
      }
      if currentSize < lastSize {
        lastSize := currentSize;
        return false;
      }
      if !input.readable {
        return false;
      }
      ghost var start := Progress(m.state, m.toolUseAt, false);
      notify := false;
      var lines := input.lines;
      var i := 0;
      while i < |lines|
        invariant 0 <= i <= |lines|
        invariant Progress(state, toolUseAt, notify) == Fold(start, lines[..i], input.now)
        invariant jsonlPath == m.path && lastSize == m.lastSize
      {
        assert lines[..i + 1][..i] == lines[..i];
        match lines[i] {
          case Blank =>
          case Malformed =>
          case Record(compact, msgType, stopReason) =>
            if compact {
              notify := true;
              toolUseAt := None;
            } else if msgType == "user" {
              state := UserSent;
              toolUseAt := None;
            } else if msgType == "assistant" {
              if stopReason == Some("end_turn") {
                if Busy(state) {
                  notify := true;
                }
                state := Idle;
                toolUseAt := None;
              } else if stopReason == Some("tool_use") {
                state := ToolWait;
                toolUseAt := Some(input.now);
              } else if state != ToolWait {
                state := Working;
                toolUseAt := None;
              }
            } else if msgType == "progress" || msgType == "result" {
              if state != ToolWait {
                state := Working;
              }
            }
        }
        i := i + 1;
      }
      assert lines[..i] == lines;
      lastSize := currentSize;
    }
  }
}
