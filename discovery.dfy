/**
 * Session discovery: every project directory under the assistant's
 * `projects` directory holds one JSONL log per session. Each log is folded
 * into statistics, the statistics become a session whose status comes from
 * whether a live process runs in its directory and from the last record,
 * only the latest session of each project directory is kept, and the
 * result is ordered by last activity, newest first.
 *
 * The file system, the process table and the clock are inputs: a project
 * directory is a `DirEntry`, a log file a `FileEntry` carrying its
 * modification time and its parsed lines, and `now` is in milliseconds.
 */
module Discovery {
  import opened Wrappers
  import opened Text
  import Paths
  import Sorting
  import Session

  // ----- Paths -----

  /** The working directory a project directory name stands for: every '-' is a '/'. */
  function DecodeProjectPath(encoded: string): (r: string)
    ensures |r| == |encoded| && '-' !in r
    ensures forall i :: 0 <= i < |r| ==> r[i] == if encoded[i] == '-' then '/' else encoded[i]
  {
    ReplaceChar(encoded, '-', '/')
  }

  lemma DecodeProjectPathExample()
    ensures DecodeProjectPath("-Users-foo-bar") == "/Users/foo/bar"
    ensures DecodeProjectPath("-home-user-project") == "/home/user/project"
  {
    assert DecodeProjectPath("-Users-foo-bar") == "/Users/foo/bar" by {
      var r := DecodeProjectPath("-Users-foo-bar");
      assert forall i :: 0 <= i < |r| ==> r[i] == "/Users/foo/bar"[i];
    }
    assert DecodeProjectPath("-home-user-project") == "/home/user/project" by {
      var r := DecodeProjectPath("-home-user-project");
      assert forall i :: 0 <= i < |r| ==> r[i] == "/home/user/project"[i];
    }
  }

  /** The name shown for a working directory: its last two components
      ("parent/last"), or the only one, ignoring trailing '/'. */
  function ExtractProjectName(cwd: string): string {
    LastTwo(TrimEnd(cwd, '/'))
  }

  /** The last two '/'-separated components of `t`, or all of `t` when it
      has only one. */
  function LastTwo(t: string): string {
    var last := AfterLast(t, '/');
    if |last| == |t| then t else AfterLast(t[..|t| - |last| - 1], '/') + "/" + last
  }

  /** The project name is a suffix of the directory without its trailing '/'. */
  lemma ProjectNameIsSuffix(cwd: string)
    ensures var t := TrimEnd(cwd, '/'); var r := ExtractProjectName(cwd);
      |r| <= |t| && r == t[|t| - |r|..]
  {
    LastTwoIsSuffix(TrimEnd(cwd, '/'));
  }

  /** The last two components of `t` form a suffix of `t`. */
  lemma LastTwoIsSuffix(t: string)
    ensures |LastTwo(t)| <= |t| && LastTwo(t) == t[|t| - |LastTwo(t)|..]
  {
    var last := AfterLast(t, '/');
    AfterLastIsSuffix(t, '/');
    if |last| == |t| {
      assert t[0..] == t;
    } else {
      var rest := t[..|t| - |last| - 1];
      AfterLastIsSuffix(rest, '/');
      JoinedSuffix(t, rest, AfterLast(rest, '/'), last);
    }
  }

  /** `a + "/" + last` is a suffix of `t` when `t` is `rest + "/" + last`
      and `a` is a suffix of `rest`. */
  lemma JoinedSuffix(t: string, rest: string, a: string, last: string)
    requires |last| < |t| && rest == t[..|t| - |last| - 1]
    requires t[|t| - |last| - 1] == '/' && last == t[|t| - |last|..]
    requires |a| <= |rest| && a == rest[|rest| - |a|..]
    ensures |a + "/" + last| <= |t| && a + "/" + last == t[|t| - |a + "/" + last|..]
  {
    var k := |rest|;
    var n := k - |a|;
    assert t[k..] == "/" + last by {
      assert t[k..] == [t[k]] + t[k + 1..];
    }
    assert t[n..k] == a by {
      assert t[n..k] == rest[n..];
    }
    assert t[n..] == t[n..k] + t[k..];
  }

  /** The project name holds at most one '/', exactly when the directory
      (without trailing '/') has more than one component, and it ends with
      the last component. */
  lemma ProjectNameShape(cwd: string)
    ensures var t := TrimEnd(cwd, '/');
      var r := ExtractProjectName(cwd);
      && (multiset(r)['/'] == 1 <==> '/' in t)
      && multiset(r)['/'] <= 1
      && ('/' !in t ==> r == t)
    ensures var last := AfterLast(TrimEnd(cwd, '/'), '/');
      var r := ExtractProjectName(cwd);
      |last| <= |r| && r[|r| - |last|..] == last
  {
    var t := TrimEnd(cwd, '/');
    var last := AfterLast(t, '/');
    AfterLastIsSuffix(t, '/');
    var r := ExtractProjectName(cwd);
    if |last| < |t| {
      var rest := t[..|t| - |last| - 1];
      var parent := AfterLast(rest, '/');
      assert r == parent + "/" + last;
      assert multiset(r) == multiset(parent) + multiset("/") + multiset(last);
      assert t[|t| - |last| - 1] == '/';
      assert r[|r| - |last|..] == last;
    } else {
      assert last == t;
      assert r == t;
      assert multiset(r)['/'] == 0;
    }
  }

  lemma ProjectNameOfDeepPath()
    ensures ExtractProjectName("/Users/foo/bar") == "foo/bar"
  {
    assert TrimEnd("/Users/foo/bar", '/') == "/Users/foo/bar";
    assert AfterLast("/Users/foo/bar", '/') == "bar" by {
      assert "/Users/foo/bar"[..13] == "/Users/foo/ba";
      assert "/Users/foo/ba"[..12] == "/Users/foo/b";
      assert "/Users/foo/b"[..11] == "/Users/foo/";
    }
    assert "/Users/foo/bar"[..10] == "/Users/foo";
    assert AfterLast("/Users/foo", '/') == "foo" by {
      assert "/Users/foo"[..9] == "/Users/fo";
      assert "/Users/fo"[..8] == "/Users/f";
      assert "/Users/f"[..7] == "/Users/";
    }
  }

  /** Trailing '/' do not count as a component. */
  lemma ProjectNameIgnoresTrailingSlash(cwd: string)
    ensures ExtractProjectName(cwd + "/") == ExtractProjectName(cwd)
  {
    var c := cwd + "/";
    assert c[..|cwd|] == cwd;
    assert TrimEnd(c, '/') == TrimEnd(cwd, '/');
  }

  // ----- Log records -----

  /** The token counts of an assistant reply; a missing or non-numeric count is `None`. */
  datatype Usage = Usage(
    inputTokens: Option<nat>,
    outputTokens: Option<nat>,
    cacheReadInputTokens: Option<nat>,
    cacheCreationInputTokens: Option<nat>)

  /** The `message` object of a record; a field that is absent or not a string is `None`. */
  datatype Message = Message(stopReason: Option<string>, model: Option<string>, usage: Option<Usage>)

  /** One parsed JSONL record. Each field is `None` when absent or of the
      wrong JSON type; `timestamp` is `None` too when it does not parse as a
      date, and otherwise the instant in milliseconds; `hookErrors` is the
      length of the `hookErrors` array; `recordType` is "" when `type` is
      absent; `hasData` says whether a `data` field is present. */
  datatype Record = Record(
    sessionId: Option<string>,
    cwd: Option<string>,
    gitBranch: Option<string>,
    version: Option<string>,
    permissionMode: Option<string>,
    slug: Option<string>,
    isCompactSummary: Option<bool>,
    hookCount: Option<nat>,
    hookErrors: Option<nat>,
    timestamp: Option<int>,
    recordType: string,
    message: Option<Message>,
    hasData: bool)

  /** What a session log says about its session. */
  datatype JsonlStats = JsonlStats(
    sessionId: Option<string>,
    cwd: Option<string>,
    gitBranch: Option<string>,
    model: Option<string>,
    claudeVersion: Option<string>,
    inputTokens: nat,
    outputTokens: nat,
    cacheReadTokens: nat,
    cacheWriteTokens: nat,
    messageCount: nat,
    toolCallCount: nat,
    firstTimestamp: Option<int>,
    lastTimestamp: Option<int>,
    lastMessageType: Option<string>,
    lastStopReason: Option<string>,
    permissionMode: Option<string>,
    planSlugs: seq<string>,
    compactionCount: nat,
    hookRunCount: nat,
    hookErrorCount: nat)

  const NoStats := JsonlStats(None, None, None, None, None, 0, 0, 0, 0, 0, 0, None, None, None, None, None, [], 0, 0, 0)

  /** The fields every record may carry: identifiers (the last one seen,
      except the directory and permission mode, where the first one wins),
      plan slugs (each once), compaction and hook counters, and timestamps. */
  function WithMetadata(st: JsonlStats, r: Record): JsonlStats {
    st.(
      sessionId := r.sessionId.Or(st.sessionId),
      cwd := st.cwd.Or(r.cwd),
      gitBranch := r.gitBranch.Or(st.gitBranch),
      claudeVersion := r.version.Or(st.claudeVersion),
      permissionMode := st.permissionMode.Or(r.permissionMode),
      planSlugs := if r.slug.Some? && r.slug.value !in st.planSlugs then st.planSlugs + [r.slug.value] else st.planSlugs,
      compactionCount := st.compactionCount + (if r.isCompactSummary == Some(true) then 1 else 0),
      hookRunCount := st.hookRunCount + (if r.hookCount.Some? then r.hookCount.value % U32Limit else 0),
      hookErrorCount := st.hookErrorCount + r.hookErrors.UnwrapOr(0),
      firstTimestamp := st.firstTimestamp.Or(r.timestamp),
      lastTimestamp := r.timestamp.Or(st.lastTimestamp))
  }

  /** The fields that depend on the record's type: user and assistant
      records are messages; an assistant message also carries the stop
      reason, the model and the token usage; a progress record with data is
      a tool call. */
  function WithType(st: JsonlStats, r: Record): JsonlStats {
    if r.recordType == "user" then
      st.(messageCount := st.messageCount + 1, lastMessageType := Some("user"))
    else if r.recordType == "assistant" then
      var st1 := st.(messageCount := st.messageCount + 1, lastMessageType := Some("assistant"));
      match r.message
      case None => st1
      case Some(m) =>
        var u := m.usage.UnwrapOr(Usage(None, None, None, None));
        st1.(
          lastStopReason := m.stopReason.Or(st1.lastStopReason),
          model := m.model.Or(st1.model),
          inputTokens := st1.inputTokens + u.inputTokens.UnwrapOr(0),
          outputTokens := st1.outputTokens + u.outputTokens.UnwrapOr(0),
          cacheReadTokens := st1.cacheReadTokens + u.cacheReadInputTokens.UnwrapOr(0),
          cacheWriteTokens := st1.cacheWriteTokens + u.cacheCreationInputTokens.UnwrapOr(0))
    else if r.recordType == "progress" && r.hasData then
      st.(toolCallCount := st.toolCallCount + 1)
    else st
  }

  /** One line of the log; a line that is not valid JSON (`None`) is skipped. */
  function LineStep(st: JsonlStats, line: Option<Record>): JsonlStats {
    match line
    case None => st
    case Some(r) => WithType(WithMetadata(st, r), r)
  }

  /** The statistics of a log, line by line. */
  function StatsOf(lines: seq<Option<Record>>): JsonlStats
    decreases |lines|
  {
    if |lines| == 0 then NoStats else LineStep(StatsOf(lines[..|lines| - 1]), lines[|lines| - 1])
  }

  /** The statistics of a log file; a file that cannot be read (`None`) has none. */
  function Parsed(content: Option<seq<Option<Record>>>): JsonlStats {
    match content
    case None => NoStats
    case Some(lines) => StatsOf(lines)
  }

  /** Fold the lines of a log into statistics, in order. */
  method ParseJsonl(content: Option<seq<Option<Record>>>) returns (stats: JsonlStats)
    ensures stats == Parsed(content)
  {
    stats := NoStats;
    if content.None? {
      return;
    }
    var lines := content.value;
    var i := 0;
    while i < |lines|
      invariant 0 <= i <= |lines|
      invariant stats == StatsOf(lines[..i])
    {
      assert lines[..i + 1][..i] == lines[..i];
      stats := LineStep(stats, lines[i]);
      i := i + 1;
    }
    assert lines[..|lines|] == lines;
  }

  // ----- What the statistics add up to -----

  function MessageInc(line: Option<Record>): nat {
    if line.Some? && (line.value.recordType == "user" || line.value.recordType == "assistant") then 1 else 0
  }

  /** The usage of an assistant message, or no tokens for any other line. */
  function UsageOf(line: Option<Record>): Usage {
    if line.Some? && line.value.recordType == "assistant" && line.value.message.Some?
      && line.value.message.value.usage.Some?
    then line.value.message.value.usage.value
    else Usage(None, None, None, None)
  }

  function InputInc(line: Option<Record>): nat { UsageOf(line).inputTokens.UnwrapOr(0) }
  function OutputInc(line: Option<Record>): nat { UsageOf(line).outputTokens.UnwrapOr(0) }
  function CacheReadInc(line: Option<Record>): nat { UsageOf(line).cacheReadInputTokens.UnwrapOr(0) }
  function CacheWriteInc(line: Option<Record>): nat { UsageOf(line).cacheCreationInputTokens.UnwrapOr(0) }

  function ToolInc(line: Option<Record>): nat {
    if line.Some? && line.value.recordType == "progress" && line.value.hasData then 1 else 0
  }

  function Sum(lines: seq<Option<Record>>, f: Option<Record> -> nat): nat
    decreases |lines|
  {
    if |lines| == 0 then 0 else Sum(lines[..|lines| - 1], f) + f(lines[|lines| - 1])
  }

  /** The counters: messages count user and assistant lines, tool calls
      count progress lines with data. */
  lemma {:induction false} Counters(lines: seq<Option<Record>>)
    ensures StatsOf(lines).messageCount == Sum(lines, MessageInc)
    ensures StatsOf(lines).toolCallCount == Sum(lines, ToolInc)
    decreases |lines|
  {
    if |lines| > 0 {
      Counters(lines[..|lines| - 1]);
    }
  }

  /** One line adds its assistant usage to the token totals. */
  lemma StepTokens(st: JsonlStats, line: Option<Record>)
    ensures LineStep(st, line).inputTokens == st.inputTokens + InputInc(line)
    ensures LineStep(st, line).outputTokens == st.outputTokens + OutputInc(line)
    ensures LineStep(st, line).cacheReadTokens == st.cacheReadTokens + CacheReadInc(line)
    ensures LineStep(st, line).cacheWriteTokens == st.cacheWriteTokens + CacheWriteInc(line)
  {
    if line.Some? {
      var m := WithMetadata(st, line.value);
      assert m.inputTokens == st.inputTokens && m.outputTokens == st.outputTokens;
      assert m.cacheReadTokens == st.cacheReadTokens && m.cacheWriteTokens == st.cacheWriteTokens;
    }
  }

  /** The token totals add up the usage of assistant messages only. */
  lemma {:induction false} TokenTotals(lines: seq<Option<Record>>)
    ensures StatsOf(lines).inputTokens == Sum(lines, InputInc)
    ensures StatsOf(lines).outputTokens == Sum(lines, OutputInc)
    ensures StatsOf(lines).cacheReadTokens == Sum(lines, CacheReadInc)
    ensures StatsOf(lines).cacheWriteTokens == Sum(lines, CacheWriteInc)
    decreases |lines|
  {
    if |lines| > 0 {
      TokenTotals(lines[..|lines| - 1]);
      StepTokens(StatsOf(lines[..|lines| - 1]), lines[|lines| - 1]);
    }
  }

  /** The last value `f` gives on the lines, or `None`. */
  function LastOf(lines: seq<Option<Record>>, f: Record -> Option<string>): Option<string>
    decreases |lines|
  {
    if |lines| == 0 then None
    else
      var line := lines[|lines| - 1];
      (if line.Some? then f(line.value) else None).Or(LastOf(lines[..|lines| - 1], f))
  }

  /** The first value `f` gives on the lines, or `None`. */
  function FirstOf(lines: seq<Option<Record>>, f: Record -> Option<string>): Option<string>
    decreases |lines|
  {
    if |lines| == 0 then None
    else
      var line := lines[|lines| - 1];
      FirstOf(lines[..|lines| - 1], f).Or(if line.Some? then f(line.value) else None)
  }

  function SessionIdOf(r: Record): Option<string> { r.sessionId }
  function CwdOf(r: Record): Option<string> { r.cwd }
  function BranchOf(r: Record): Option<string> { r.gitBranch }
  function VersionOf(r: Record): Option<string> { r.version }
  function PermissionModeOf(r: Record): Option<string> { r.permissionMode }

  /** The model of an assistant message. */
  function ModelOf(r: Record): Option<string> {
    if r.recordType == "assistant" && r.message.Some? then r.message.value.model else None
  }

  /** The session id, branch and version are the last ones seen. */
  lemma {:induction false} LastSeen(lines: seq<Option<Record>>)
    ensures StatsOf(lines).sessionId == LastOf(lines, SessionIdOf)
    ensures StatsOf(lines).gitBranch == LastOf(lines, BranchOf)
    ensures StatsOf(lines).claudeVersion == LastOf(lines, VersionOf)
    decreases |lines|
  {
    if |lines| > 0 {
      LastSeen(lines[..|lines| - 1]);
      StepIds(StatsOf(lines[..|lines| - 1]), lines[|lines| - 1]);
    }
  }

  /** A line overrides the session id, branch and version it carries. */
  lemma StepIds(st: JsonlStats, line: Option<Record>)
    ensures LineStep(st, line).sessionId == (if line.Some? then line.value.sessionId else None).Or(st.sessionId)
    ensures LineStep(st, line).gitBranch == (if line.Some? then line.value.gitBranch else None).Or(st.gitBranch)
    ensures LineStep(st, line).claudeVersion == (if line.Some? then line.value.version else None).Or(st.claudeVersion)
  {
    if line.Some? {
      var m := WithMetadata(st, line.value);
      assert m.sessionId == line.value.sessionId.Or(st.sessionId);
      assert WithType(m, line.value).sessionId == m.sessionId;
      assert WithType(m, line.value).gitBranch == m.gitBranch;
      assert WithType(m, line.value).claudeVersion == m.claudeVersion;
    }
  }

  /** The model is the last one an assistant message names. */
  lemma {:induction false} LastModel(lines: seq<Option<Record>>)
    ensures StatsOf(lines).model == LastOf(lines, ModelOf)
    decreases |lines|
  {
    if |lines| > 0 {
      LastModel(lines[..|lines| - 1]);
    }
  }

  /** The working directory and the permission mode are the first ones seen. */
  lemma {:induction false} FirstSeen(lines: seq<Option<Record>>)
    ensures StatsOf(lines).cwd == FirstOf(lines, CwdOf)
    ensures StatsOf(lines).permissionMode == FirstOf(lines, PermissionModeOf)
    decreases |lines|
  {
    if |lines| > 0 {
      FirstSeen(lines[..|lines| - 1]);
    }
  }

  /** The first and the last timestamp that parsed. */
  function FirstTime(lines: seq<Option<Record>>): Option<int>
    decreases |lines|
  {
    if |lines| == 0 then None
    else
      var line := lines[|lines| - 1];
      FirstTime(lines[..|lines| - 1]).Or(if line.Some? then line.value.timestamp else None)
  }

  function LastTime(lines: seq<Option<Record>>): Option<int>
    decreases |lines|
  {
    if |lines| == 0 then None
    else
      var line := lines[|lines| - 1];
      (if line.Some? then line.value.timestamp else None).Or(LastTime(lines[..|lines| - 1]))
  }

  lemma {:induction false} Timestamps(lines: seq<Option<Record>>)
    ensures StatsOf(lines).firstTimestamp == FirstTime(lines)
    ensures StatsOf(lines).lastTimestamp == LastTime(lines)
    ensures StatsOf(lines).firstTimestamp.Some? <==> StatsOf(lines).lastTimestamp.Some?
    decreases |lines|
  {
    if |lines| > 0 {
      Timestamps(lines[..|lines| - 1]);
    }
  }

  /** Every slug that appears on a line. */
  function SlugsIn(lines: seq<Option<Record>>): set<string>
    decreases |lines|
  {
    if |lines| == 0 then {}
    else
      var line := lines[|lines| - 1];
      SlugsIn(lines[..|lines| - 1]) + (if line.Some? && line.value.slug.Some? then {line.value.slug.value} else {})
  }

  predicate NoDuplicates(s: seq<string>) {
    forall i, j :: 0 <= i < j < |s| ==> s[i] != s[j]
  }

  /** One line appends its slug when it is new. */
  lemma StepSlugs(st: JsonlStats, line: Option<Record>)
    ensures LineStep(st, line).planSlugs ==
      if line.Some? && line.value.slug.Some? && line.value.slug.value !in st.planSlugs
      then st.planSlugs + [line.value.slug.value] else st.planSlugs
  {
    if line.Some? {
      assert WithType(WithMetadata(st, line.value), line.value).planSlugs == WithMetadata(st, line.value).planSlugs;
    }
  }

  /** The plan slugs are every slug seen, each once. */
  lemma {:induction false} PlanSlugs(lines: seq<Option<Record>>)
    ensures NoDuplicates(StatsOf(lines).planSlugs)
    ensures forall x :: x in StatsOf(lines).planSlugs <==> x in SlugsIn(lines)
    decreases |lines|
  {
    if |lines| > 0 {
      PlanSlugs(lines[..|lines| - 1]);
      StepSlugs(StatsOf(lines[..|lines| - 1]), lines[|lines| - 1]);
    }
  }

  /** The two-line log of a user prompt and a sonnet reply. */
  function PromptRecord(): Record {
    Record(Some("abc-123"), Some("/tmp/proj"), None, None, None, None, None, None, None, Some(0), "user", None, false)
  }

  function ReplyRecord(): Record {
    Record(None, None, None, None, None, None, None, None, None, Some(60_000), "assistant",
      Some(Message(Some("end_turn"), Some("claude-sonnet-4-20250514"), Some(Usage(Some(100), Some(50), None, None)))), false)
  }

  lemma TwoLineLog()
    ensures var st := StatsOf([Some(PromptRecord()), Some(ReplyRecord())]);
      && st.sessionId == Some("abc-123") && st.cwd == Some("/tmp/proj")
      && st.inputTokens == 100 && st.outputTokens == 50 && st.messageCount == 2
      && st.model == Some("claude-sonnet-4-20250514")
      && st.lastMessageType == Some("assistant") && st.lastStopReason == Some("end_turn")
  {
    var lines := [Some(PromptRecord()), Some(ReplyRecord())];
    assert lines[..1] == [Some(PromptRecord())];
    assert lines[..1][..0] == [];
    var s1 := LineStep(NoStats, Some(PromptRecord()));
    assert StatsOf(lines[..1]) == s1;
    assert s1.sessionId == Some("abc-123") && s1.cwd == Some("/tmp/proj") && s1.messageCount == 1;
    assert s1.inputTokens == 0 && s1.outputTokens == 0 && s1.model == None && s1.lastStopReason == None;
    var s2 := LineStep(s1, Some(ReplyRecord()));
    assert StatsOf(lines) == s2;
  }

  // ----- From statistics to a session -----

  /** A session whose last record is older than this is taken to be hung. */
  const HungThresholdMs: int := 300_000

  /** The status of a session: dead without a live process; idle when the
      last record is more than five minutes old; otherwise thinking after a
      user record, idle after an assistant reply that ended its turn, and
      active in every other case. */
  function DeriveStatus(pid: Option<nat>, st: JsonlStats, now: int): (r: Session.SessionStatus)
    ensures r == Session.Dead <==> pid.None?
    ensures pid.Some? && st.lastTimestamp.Some? && now - st.lastTimestamp.value > HungThresholdMs ==> r == Session.Idle
    ensures r == Session.Thinking ==> st.lastMessageType == Some("user")
  {
    if pid.None? then Session.Dead
    else if st.lastTimestamp.Some? && now - st.lastTimestamp.value > HungThresholdMs then Session.Idle
    else if st.lastMessageType == Some("user") then Session.Thinking
    else if st.lastMessageType == Some("assistant") && st.lastStopReason == Some("end_turn") then Session.Idle
    else Session.Active
  }

  /** When each status arises. */
  lemma StatusCases(pid: Option<nat>, st: JsonlStats, now: int)
    ensures var hung := st.lastTimestamp.Some? && now - st.lastTimestamp.value > HungThresholdMs;
      var s := DeriveStatus(pid, st, now);
      && (s == Session.Dead <==> pid.None?)
      && (s == Session.Thinking <==> pid.Some? && !hung && st.lastMessageType == Some("user"))
      && (s == Session.Idle <==> pid.Some? && (hung || (st.lastMessageType == Some("assistant") && st.lastStopReason == Some("end_turn"))))
      && (s == Session.Active <==>
            (pid.Some? && !hung && st.lastMessageType != Some("user")
             && !(st.lastMessageType == Some("assistant") && st.lastStopReason == Some("end_turn"))))
  {
  }

  /** A live process and the working directory it runs in. */
  datatype ProcessInfo = ProcessInfo(pid: nat, cwd: string)

  /** Working directory to pid; a later process in the same directory wins. */
  function LiveCwds(processes: seq<ProcessInfo>): (m: map<string, nat>)
    ensures forall p :: p in processes ==> p.cwd in m
    ensures forall c :: c in m ==> exists p :: p in processes && p.cwd == c && p.pid == m[c]
    decreases |processes|
  {
    if |processes| == 0 then map[]
    else
      var p := processes[|processes| - 1];
      var m := LiveCwds(processes[..|processes| - 1]);
      assert forall q :: q in processes[..|processes| - 1] ==> q in processes;
      assert forall q :: q in processes ==> q in processes[..|processes| - 1] || q == p;
      m[p.cwd := p.pid]
  }

  /** The session a log describes, or `None` for a log with neither a
      session id nor a message. The id falls back to the file stem, the
      working directory to the one the project directory name encodes, and
      the timestamps to `now`. */
  function SessionOf(st: JsonlStats, stem: string, fallbackCwd: string, live: map<string, nat>, now: int): (r: Option<Session.Session>)
    ensures r.None? <==> st.sessionId.None? && st.messageCount == 0
    ensures r.Some? ==> r.value.cwd == st.cwd.UnwrapOr(fallbackCwd)
    ensures r.Some? ==> (r.value.pid.Some? <==> r.value.cwd in live)
    ensures r.Some? ==> r.value.id == st.sessionId.UnwrapOr(stem)
  {
    if st.sessionId.None? && st.messageCount == 0 then None
    else
      var cwd := st.cwd.UnwrapOr(fallbackCwd);
      var pid := if cwd in live then Some(live[cwd]) else None;
      Some(Session.Session(
        st.sessionId.UnwrapOr(stem), pid, cwd, ExtractProjectName(cwd), st.gitBranch, st.model,
        DeriveStatus(pid, st, now), st.firstTimestamp.UnwrapOr(now), st.lastTimestamp.UnwrapOr(now),
        st.inputTokens, st.outputTokens, st.cacheReadTokens, st.cacheWriteTokens,
        st.messageCount, st.toolCallCount, st.claudeVersion, st.permissionMode, st.planSlugs,
        st.compactionCount, st.hookRunCount, st.hookErrorCount))
  }

  // ----- Keeping the latest session per directory -----

  /** The sessions kept so far, by working directory, and the directories
      in the order they were first kept. */
  datatype Kept = Kept(seen: map<string, Session.Session>, keys: seq<string>)

  /** Every kept session is filed under its own directory, and `keys` lists
      each kept directory once. */
  ghost predicate Tidy(k: Kept) {
    && NoDuplicates(k.keys)
    && (forall c :: c in k.seen <==> c in k.keys)
    && (forall c :: c in k.seen ==> k.seen[c].cwd == c)
  }

  /** Keep `s` unless a session of the same directory is already kept whose
      last activity is not strictly earlier. */
  function Keep(k: Kept, s: Session.Session): (r: Kept)
    ensures s.cwd in r.seen
    ensures r.seen[s.cwd] == if s.cwd in k.seen && !(s.lastActivity > k.seen[s.cwd].lastActivity) then k.seen[s.cwd] else s
    ensures forall c :: c != s.cwd ==> (c in r.seen <==> c in k.seen) && (c in k.seen ==> r.seen[c] == k.seen[c])
    ensures Tidy(k) ==> Tidy(r)
  {
    if s.cwd !in k.seen then Kept(k.seen[s.cwd := s], k.keys + [s.cwd])
    else if s.lastActivity > k.seen[s.cwd].lastActivity then Kept(k.seen[s.cwd := s], k.keys)
    else k
  }

  /** Keeping never drops a directory and never moves a directory's
      last activity back. */
  lemma KeepMonotone(k: Kept, s: Session.Session)
    ensures forall c :: c in k.seen ==> c in Keep(k, s).seen && Keep(k, s).seen[c].lastActivity >= k.seen[c].lastActivity
  {
  }

  /** The kept sessions in the order of `keys`. */
  function Values(k: Kept): (r: seq<Session.Session>)
    requires forall c :: c in k.keys ==> c in k.seen
    ensures |r| == |k.keys| && forall i :: 0 <= i < |r| ==> r[i] == k.seen[k.keys[i]]
  {
    seq(|k.keys|, i requires 0 <= i < |k.keys| => k.seen[k.keys[i]])
  }

  /** One session per directory in the values of a tidy `Kept`. */
  lemma ValuesDistinct(k: Kept)
    requires Tidy(k)
    ensures forall i, j :: 0 <= i < j < |Values(k)| ==> Values(k)[i].cwd != Values(k)[j].cwd
  {
  }

  // ----- Scanning the projects directory -----

  /** A log file: its path, its modification time (`None` when unknown) and
      its lines (`None` when it cannot be read). */
  datatype FileEntry = FileEntry(path: string, mtime: Option<int>, content: Option<seq<Option<Record>>>)

  /** An entry of the projects directory: its name, whether it is a
      directory, and its files (`None` when it cannot be listed). */
  datatype DirEntry = DirEntry(name: string, isDir: bool, files: Option<seq<FileEntry>>)

  type Cache = map<string, (int, JsonlStats)>

  /** The cache holds statistics for a file whose modification time has not changed. */
  predicate CacheHit(cache: Cache, f: FileEntry) {
    f.mtime.Some? && f.path in cache && cache[f.path].0 == f.mtime.value
  }

  /** The statistics of a file: the cached ones when its modification time
      is unchanged, otherwise freshly parsed. */
  function StatsWith(cache: Cache, f: FileEntry): JsonlStats {
    if CacheHit(cache, f) then cache[f.path].1 else Parsed(f.content)
  }

  /** Freshly parsed statistics are cached under the file's modification
      time, when it is known. */
  function CacheAfter(cache: Cache, f: FileEntry): (r: Cache)
    ensures CacheHit(cache, f) ==> r == cache
    ensures !CacheHit(cache, f) && f.mtime.Some? ==> r == cache[f.path := (f.mtime.value, Parsed(f.content))]
    ensures f.mtime.None? ==> r == cache
  {
    if CacheHit(cache, f) || f.mtime.None? then cache
    else cache[f.path := (f.mtime.value, Parsed(f.content))]
  }

  /** The state of a scan: the statistics cache and the sessions kept. */
  datatype ScanState = ScanState(cache: Cache, kept: Kept)

  /** A log file takes part when its extension is `jsonl` and its stem has no '.'. */
  predicate IsSessionLog(f: FileEntry) {
    Paths.Extension(f.path) == Some("jsonl") && '.' !in Paths.FileStem(f.path).UnwrapOr("")
  }

  function ScanFile(st: ScanState, fallbackCwd: string, f: FileEntry, live: map<string, nat>, now: int): ScanState {
    if !IsSessionLog(f) then st
    else
      var stats := StatsWith(st.cache, f);
      var cache := CacheAfter(st.cache, f);
      match SessionOf(stats, Paths.FileStem(f.path).UnwrapOr(""), fallbackCwd, live, now)
      case None => ScanState(cache, st.kept)
      case Some(s) => ScanState(cache, Keep(st.kept, s))
  }

  function ScanFiles(st: ScanState, fallbackCwd: string, files: seq<FileEntry>, live: map<string, nat>, now: int): (r: ScanState)
    ensures Tidy(st.kept) ==> Tidy(r.kept)
    decreases |files|
  {
    if |files| == 0 then st
    else ScanFiles(ScanFile(st, fallbackCwd, files[0], live, now), fallbackCwd, files[1..], live, now)
  }

  /** A project directory takes part when it is a directory, its name does
      not start with '.', and it can be listed. */
  predicate IsProjectDir(d: DirEntry) {
    d.isDir && !StartsWith(d.name, ".") && d.files.Some?
  }

  function ScanDir(st: ScanState, d: DirEntry, live: map<string, nat>, now: int): (r: ScanState)
    ensures Tidy(st.kept) ==> Tidy(r.kept)
  {
    if IsProjectDir(d) then ScanFiles(st, DecodeProjectPath(d.name), d.files.value, live, now) else st
  }

  function ScanDirs(st: ScanState, dirs: seq<DirEntry>, live: map<string, nat>, now: int): (r: ScanState)
    ensures Tidy(st.kept) ==> Tidy(r.kept)
    decreases |dirs|
  {
    if |dirs| == 0 then st
    else ScanDirs(ScanDir(st, dirs[0], live, now), dirs[1..], live, now)
  }

  /** "`a` may stay before `b`": the more recently active first. */
  function NewerFirst(a: Session.Session, b: Session.Session): bool {
    b.lastActivity <= a.lastActivity
  }

  /** The discovered sessions, newest first, by a stable sort: sessions
      active at the same moment keep the order they came in. */
  function ByActivity(sessions: seq<Session.Session>): (r: seq<Session.Session>)
    ensures multiset(r) == multiset(sessions)
    ensures forall i, j :: 0 <= i < j < |r| ==> r[i].lastActivity >= r[j].lastActivity
    ensures forall x :: Sorting.Equivalents(r, x, NewerFirst) == Sorting.Equivalents(sessions, x, NewerFirst)
  {
    Sorting.SortSorted(sessions, NewerFirst);
    forall x ensures Sorting.Equivalents(Sorting.Sort(sessions, NewerFirst), x, NewerFirst) == Sorting.Equivalents(sessions, x, NewerFirst) {
      Sorting.SortStable(sessions, x, NewerFirst);
    }
    Sorting.Sort(sessions, NewerFirst)
  }

  /** What a discovery pass finds, and the cache it leaves: nothing when
      there is no projects directory (`None`). */
  function Discovered(cache: Cache, dirs: Option<seq<DirEntry>>, processes: seq<ProcessInfo>, now: int): (r: (seq<Session.Session>, Cache))
    ensures dirs.None? ==> r == ([], cache)
    ensures forall i, j :: 0 <= i < j < |r.0| ==> r.0[i].lastActivity >= r.0[j].lastActivity
  {
    match dirs
    case None => ([], cache)
    case Some(ds) =>
      var st := ScanDirs(ScanState(cache, Kept(map[], [])), ds, LiveCwds(processes), now);
      (ByActivity(Values(st.kept)), st.cache)
  }

  /** A discovery pass lists each working directory once, newest first. */
  lemma DiscoveredShape(cache: Cache, dirs: Option<seq<DirEntry>>, processes: seq<ProcessInfo>, now: int)
    ensures var r := Discovered(cache, dirs, processes, now).0;
      forall i, j :: 0 <= i < j < |r| ==> r[i].lastActivity >= r[j].lastActivity
    ensures dirs.Some? ==>
      var st := ScanDirs(ScanState(cache, Kept(map[], [])), dirs.value, LiveCwds(processes), now);
      multiset(Discovered(cache, dirs, processes, now).0) == multiset(Values(st.kept))
      && forall i, j :: 0 <= i < j < |Values(st.kept)| ==> Values(st.kept)[i].cwd != Values(st.kept)[j].cwd
  {
    if dirs.Some? {
      var st := ScanDirs(ScanState(cache, Kept(map[], [])), dirs.value, LiveCwds(processes), now);
      assert Tidy(Kept(map[], []));
      ValuesDistinct(st.kept);
    }
  }

  // ----- The process list -----

  /** The state of reading `lsof -F` output: the pid of the current
      process block, and the processes found. */
  datatype LsofState = LsofState(pid: Option<nat>, found: seq<ProcessInfo>)

  /** A 'p' line starts a process block (no pid when it does not parse); an
      'n' line names the working directory of the current process, if any;
      other lines are ignored. */
  function LsofStep(st: LsofState, line: string): LsofState {
    if |line| > 0 && line[0] == 'p' then st.(pid := ParseU32(line[1..]))
    else if |line| > 0 && line[0] == 'n' && st.pid.Some? then st.(found := st.found + [ProcessInfo(st.pid.value, line[1..])])
    else st
  }

  function LsofRead(lines: seq<string>): LsofState
    decreases |lines|
  {
    if |lines| == 0 then LsofState(None, []) else LsofStep(LsofRead(lines[..|lines| - 1]), lines[|lines| - 1])
  }

  /** The processes listed in `lsof -F` output, in order. */
  method ParseLsof(lines: seq<string>) returns (processes: seq<ProcessInfo>)
    ensures processes == LsofRead(lines).found
  {
    processes := [];
    var currentPid: Option<nat> := None;
    var i := 0;
    while i < |lines|
      invariant 0 <= i <= |lines|
      invariant LsofState(currentPid, processes) == LsofRead(lines[..i])
    {
      assert lines[..i + 1][..i] == lines[..i];
      var line := lines[i];
      if |line| > 0 && line[0] == 'p' {
        currentPid := ParseU32(line[1..]);
      } else if |line| > 0 && line[0] == 'n' {
        if currentPid.Some? {
          processes := processes + [ProcessInfo(currentPid.value, line[1..])];
        }
      }
      i := i + 1;
    }
    assert lines[..|lines|] == lines;
  }

  /** The `lsof -F` lines for a list of processes: a 'p' line with the pid,
      then an 'n' line with the directory. */
  function LsofLines(ps: seq<ProcessInfo>): seq<string>
    decreases |ps|
  {
    if |ps| == 0 then []
    else LsofLines(ps[..|ps| - 1]) + ["p" + NatToString(ps[|ps| - 1].pid), "n" + ps[|ps| - 1].cwd]
  }

  lemma LsofReadTwo(lines: seq<string>, a: string, b: string)
    ensures LsofRead(lines + [a, b]) == LsofStep(LsofStep(LsofRead(lines), a), b)
  {
    var all := lines + [a, b];
    assert all[..|all| - 1] == lines + [a];
    assert (lines + [a])[..|lines|] == lines;
  }

  /** The two lines of one process append it and make its pid current. */
  lemma LsofPair(st: LsofState, p: ProcessInfo)
    requires p.pid < U32Limit
    ensures LsofStep(LsofStep(st, "p" + NatToString(p.pid)), "n" + p.cwd) == LsofState(Some(p.pid), st.found + [p])
  {
    var pl, nl := "p" + NatToString(p.pid), "n" + p.cwd;
    ParseU32OfString(p.pid);
    assert pl[1..] == NatToString(p.pid);
    assert nl[1..] == p.cwd;
  }

  /** Reading the lines written for a list of 32-bit pids gives the list
      back, and leaves the last process's pid current. */
  lemma {:induction false} LsofRoundTrip(ps: seq<ProcessInfo>)
    requires forall i :: 0 <= i < |ps| ==> ps[i].pid < U32Limit
    ensures LsofRead(LsofLines(ps)).found == ps
    ensures |ps| > 0 ==> LsofRead(LsofLines(ps)).pid == Some(ps[|ps| - 1].pid)
    decreases |ps|
  {
    if |ps| > 0 {
      var init := ps[..|ps| - 1];
      var p := ps[|ps| - 1];
      LsofRoundTrip(init);
      var pre := LsofLines(init);
      LsofReadTwo(pre, "p" + NatToString(p.pid), "n" + p.cwd);
      LsofPair(LsofRead(pre), p);
      assert init + [p] == ps;
    }
  }

  // ----- The discovery object -----

  /** Discovery keeps a cache of log statistics keyed by path and tagged
      with the file's modification time. */
  class SessionDiscovery {
    var statsCache: Cache

    constructor ()
      ensures statsCache == map[]
    {
      statsCache := map[];
    }

    /** The statistics of a log, from the cache when its modification time
        is unchanged; freshly parsed statistics are cached when the time is
        known. */
    method ParseJsonlCached(f: FileEntry) returns (stats: JsonlStats)
      modifies this
      ensures stats == StatsWith(old(statsCache), f)
      ensures statsCache == CacheAfter(old(statsCache), f)
    {
      if f.mtime.Some? && f.path in statsCache && statsCache[f.path].0 == f.mtime.value {
        return statsCache[f.path].1;
      }
      stats := ParseJsonl(f.content);
      if f.mtime.Some? {
        statsCache := statsCache[f.path := (f.mtime.value, stats)];
      }
    }

    /** One discovery pass over the projects directory (`None` when it does
        not exist), given the live processes and the clock. */
    method DiscoverAll(dirs: Option<seq<DirEntry>>, processes: seq<ProcessInfo>, now: int) returns (sessions: seq<Session.Session>)
      modifies this
      ensures (sessions, statsCache) == Discovered(old(statsCache), dirs, processes, now)
    {
      var live := LiveCwds(processes);
      if dirs.None? {
        return [];
      }
      var ds := dirs.value;
      var kept := Kept(map[], []);
      ghost var goal := ScanDirs(ScanState(statsCache, kept), ds, live, now);
      var d := 0;
      while d < |ds|
        invariant 0 <= d <= |ds|
        invariant Tidy(kept)
        invariant ScanDirs(ScanState(statsCache, kept), ds[d..], live, now) == goal
      {
        var dir := ds[d];
        assert ds[d..][1..] == ds[d + 1..];
        if dir.isDir && !StartsWith(dir.name, ".") && dir.files.Some? {
          var fallbackCwd := DecodeProjectPath(dir.name);
          var files := dir.files.value;
          ghost var dirGoal := ScanFiles(ScanState(statsCache, kept), fallbackCwd, files, live, now);
          var f := 0;
          while f < |files|
            invariant 0 <= f <= |files|
            invariant Tidy(kept)
            invariant ScanFiles(ScanState(statsCache, kept), fallbackCwd, files[f..], live, now) == dirGoal
          {
            var file := files[f];
            assert files[f..][1..] == files[f + 1..];
            if Paths.Extension(file.path) == Some("jsonl") {
              var stem := Paths.FileStem(file.path).UnwrapOr("");
              if '.' !in stem {
                var stats := ParseJsonlCached(file);
                var found := SessionOf(stats, stem, fallbackCwd, live, now);
                if found.Some? {
                  kept := Keep(kept, found.value);
                }
              }
            }
            f := f + 1;
          }
        }
        d := d + 1;
      }
      sessions := ByActivity(Values(kept));
    }
  }
}
