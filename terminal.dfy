/**
 * One embedded terminal: a child process on a pseudo-terminal whose output
 * is fed to a terminal emulator. The model keeps the flags the dashboard
 * reads (exited, bell, bell-blink, dirty), the emulator's scrollback offset
 * and size, the byte stream handed to the emulator and the bytes written to
 * the child. The shared atomic flags become plain fields, read and written
 * one step at a time. The emulator is abstract: its input is `fed`.
 */
module Terminal {
  import opened Wrappers
  import opened Text
  import PosixShell
  import Paths

  type u16 = x: int | 0 <= x < 0x1_0000

  /** One outcome of a read from the pseudo-terminal; `Read([])` is end of file. */
  datatype ReadResult = Read(bytes: seq<byte>) | ReadFailed

  /** What became of writing keystrokes: written and flushed, or which step
      failed; a failed `write_all` may have delivered its first `written`
      bytes before the error. */
  datatype WriteOutcome = Written | WriteFailed(written: nat) | FlushFailed

  predicate EndsReader(r: ReadResult) {
    r.ReadFailed? || |r.bytes| == 0
  }

  /** Some read in `results` ends the reader (end of file or an error). */
  predicate Ended(results: seq<ReadResult>) {
    exists i :: 0 <= i < |results| && EndsReader(results[i])
  }

  /** The number of reads the reader thread performs when the system delivers
      `results`: up to and including the first that ends it, or all of them. */
  function ReadsTaken(results: seq<ReadResult>): (n: nat)
    ensures n <= |results|
    decreases |results|
  {
    if |results| == 0 then 0
    else if EndsReader(results[0]) then 1
    else 1 + ReadsTaken(results[1..])
  }

  /** The reads taken stop right after the first read that ends the reader:
      none before the last one taken ends it, and the last one does unless
      every result was taken. */
  lemma {:induction false} ReadsTakenIsFirstEnd(results: seq<ReadResult>)
    ensures var n := ReadsTaken(results);
      && (forall i :: 0 <= i < n - 1 ==> !EndsReader(results[i]))
      && (n < |results| ==> n > 0 && EndsReader(results[n - 1]))
    decreases |results|
  {
    if |results| > 0 && !EndsReader(results[0]) {
      ReadsTakenIsFirstEnd(results[1..]);
      assert forall i :: 1 <= i < |results| ==> results[1..][i - 1] == results[i];
    }
  }

  /** The bytes the reader hands to the emulator: every chunk before the
      first read that ends it, in arrival order. */
  function FedBytes(results: seq<ReadResult>): seq<byte>
    decreases |results|
  {
    if |results| == 0 || EndsReader(results[0]) then [] else results[0].bytes + FedBytes(results[1..])
  }

  /** Chunks that arrive before any end are fed in order, whatever follows. */
  lemma {:induction false} FedInArrivalOrder(a: seq<ReadResult>, b: seq<ReadResult>)
    requires !Ended(a)
    ensures FedBytes(a + b) == FedBytes(a) + FedBytes(b)
    ensures ReadsTaken(a + b) == |a| + ReadsTaken(b)
    decreases |a|
  {
    if |a| > 0 {
      assert !EndsReader(a[0]);
      assert (a + b)[1..] == a[1..] + b;
      assert !Ended(a[1..]) by {
        forall i | 0 <= i < |a[1..]| ensures !EndsReader(a[1..][i]) {
          assert a[1..][i] == a[i + 1];
        }
      }
      FedInArrivalOrder(a[1..], b);
    } else {
      assert a + b == b;
    }
  }

  /** Once a read has ended the reader, nothing delivered after it is fed. */
  lemma {:induction false} NothingFedAfterEnd(a: seq<ReadResult>, b: seq<ReadResult>)
    requires Ended(a)
    ensures FedBytes(a + b) == FedBytes(a)
    ensures ReadsTaken(a + b) == ReadsTaken(a)
    decreases |a|
  {
    assert (a + b)[0] == a[0];
    if !EndsReader(a[0]) {
      assert (a + b)[1..] == a[1..] + b;
      assert Ended(a[1..]) by {
        var i :| 0 <= i < |a| && EndsReader(a[i]);
        assert i > 0 && a[1..][i - 1] == a[i];
      }
      NothingFedAfterEnd(a[1..], b);
    }
  }

  /** What the reads still to come contribute, one read at a time. */
  lemma ReaderStep(results: seq<ReadResult>, i: nat)
    requires i < |results|
    ensures var r, e := results[i..], EndsReader(results[i]);
      && FedBytes(r) == (if e then [] else results[i].bytes + FedBytes(results[i + 1..]))
      && (Ended(r) <==> e || Ended(results[i + 1..]))
      && ReadsTaken(r) == (if e then 1 else 1 + ReadsTaken(results[i + 1..]))
  {
    var r := results[i..];
    assert r[0] == results[i] && r[1..] == results[i + 1..];
    if Ended(results[i + 1..]) {
      var k :| 0 <= k < |results[i + 1..]| && EndsReader(results[i + 1..][k]);
      assert r[k + 1] == results[i + 1..][k];
    }
    if Ended(r) && !EndsReader(results[i]) {
      var k :| 0 <= k < |r| && EndsReader(r[k]);
      assert k > 0 && results[i + 1..][k - 1] == r[k];
    }
  }

  /** Everything about one terminal that changes, as one value: its flags,
      the scrollback offset in lines above the live screen, the emulator's
      size, every byte handed to the emulator and every byte written to the
      child, in order. */
  datatype TermState = TermState(
    exited: bool, bell: bool, bellBlink: bool, dirty: bool, scrollback: nat,
    rows: u16, cols: u16, fed: seq<byte>, sent: seq<byte>)

  /** A terminal just spawned: running, no bell, at the live screen, and
      dirty so that it is drawn once. */
  function Spawned(rows: u16, cols: u16): TermState {
    TermState(false, false, false, true, 0, rows, cols, [], [])
  }

  /** Keystrokes for the child: the bell is acknowledged and the view jumps
      back to the live screen before anything is written; a failed write
      sends a prefix of the bytes, a failed flush has still written them all. */
  function AfterWrite(t: TermState, bytes: seq<byte>, outcome: WriteOutcome): TermState {
    t.(bell := false, bellBlink := false, scrollback := 0, dirty := true,
       sent := t.sent + Delivered(bytes, outcome))
  }

  /** The bytes that reached the child. */
  function Delivered(bytes: seq<byte>, outcome: WriteOutcome): seq<byte> {
    match outcome
    case WriteFailed(written) => bytes[..if written < |bytes| then written else |bytes|]
    case _ => bytes
  }

  function WriteResult(outcome: WriteOutcome): Result<(), string> {
    match outcome
    case Written => Ok(())
    case WriteFailed(_) => Err("failed to write to PTY")
    case FlushFailed => Err("failed to flush PTY")
  }

  function AfterScrollUp(t: TermState, lines: nat): TermState {
    t.(scrollback := t.scrollback + lines, dirty := true)
  }

  /** Scrolling down stops at the live screen (a saturating subtraction). */
  function AfterScrollDown(t: TermState, lines: nat): TermState {
    t.(scrollback := if t.scrollback >= lines then t.scrollback - lines else 0, dirty := true)
  }

  /** A resize that the pseudo-terminal refused changes nothing. */
  function AfterResize(t: TermState, rows: u16, cols: u16, ptyError: Option<string>): TermState {
    if ptyError.Some? then t else t.(rows := rows, cols := cols, dirty := true)
  }

  function WithBell(t: TermState): TermState {
    t.(bell := true, bellBlink := true)
  }

  function WithoutBell(t: TermState): TermState {
    t.(bell := false, bellBlink := false)
  }

  /** The reader thread's effect when the system delivers `results`. */
  function AfterReads(t: TermState, results: seq<ReadResult>): TermState {
    t.(fed := t.fed + FedBytes(results), exited := t.exited || Ended(results), dirty := t.dirty || |results| > 0)
  }

  /** Writing always leaves the bell acknowledged, the view at the live
      screen and the terminal dirty, and appends to what was sent. */
  lemma WriteResetsView(t: TermState, bytes: seq<byte>, outcome: WriteOutcome)
    ensures var u := AfterWrite(t, bytes, outcome);
      !u.bell && !u.bellBlink && u.scrollback == 0 && u.dirty && u.exited == t.exited
      && u.fed == t.fed && t.sent <= u.sent <= t.sent + bytes
      && (!outcome.WriteFailed? ==> u.sent == t.sent + bytes)
    ensures WriteResult(outcome).Ok? <==> outcome == Written
  {
    var u := AfterWrite(t, bytes, outcome);
    var d := Delivered(bytes, outcome);
    assert d <= bytes;
    assert u.sent[..|t.sent|] == t.sent;
    assert (t.sent + bytes)[..|u.sent|] == u.sent;
  }

  /** Scrolling down by what was scrolled up returns to the same offset;
      the other way round only when the offset was deep enough. */
  lemma ScrollRoundTrip(t: TermState, lines: nat)
    ensures AfterScrollDown(AfterScrollUp(t, lines), lines).scrollback == t.scrollback
    ensures AfterScrollUp(AfterScrollDown(t, lines), lines).scrollback == if t.scrollback >= lines then t.scrollback else lines
    ensures AfterScrollDown(t, lines).scrollback <= t.scrollback
  {
  }

  /** Bell changes touch nothing but the two bell flags, and clearing undoes setting. */
  lemma BellFlagsOnly(t: TermState)
    ensures WithoutBell(WithBell(t)) == WithoutBell(t)
    ensures WithBell(t).(bell := t.bell, bellBlink := t.bellBlink) == t
    ensures WithoutBell(t).(bell := t.bell, bellBlink := t.bellBlink) == t
  {
  }

  /** A terminal that has exited stays exited. */
  lemma ExitedStaysExited(t: TermState, results: seq<ReadResult>, bytes: seq<byte>, outcome: WriteOutcome, n: nat)
    requires t.exited
    ensures AfterReads(t, results).exited && AfterWrite(t, bytes, outcome).exited
    ensures AfterScrollUp(t, n).exited && AfterScrollDown(t, n).exited
  {
  }

  class EmbeddedTerminal {
    const sessionId: string
    const projectName: string
    /** What was spawned on the pseudo-terminal. */
    const launch: Launch
    var exited: bool
    var bell: bool
    var bellBlink: bool
    var dirty: bool
    var scrollback: nat
    var rows: u16
    var cols: u16
    var fed: seq<byte>
    var sent: seq<byte>

    function State(): TermState
      reads this
    {
      TermState(exited, bell, bellBlink, dirty, scrollback, rows, cols, fed, sent)
    }

    constructor (sessionId: string, projectName: string, launch: Launch, rows: u16, cols: u16)
      ensures this.sessionId == sessionId && this.projectName == projectName && this.launch == launch
      ensures State() == Spawned(rows, cols)
    {
      this.sessionId := sessionId;
      this.projectName := projectName;
      this.launch := launch;
      this.rows := rows;
      this.cols := cols;
      exited := false;
      bell := false;
      bellBlink := false;
      dirty := true;
      scrollback := 0;
      fed := [];
      sent := [];
    }

    /** Reads the dirty flag and clears it in one step. */
    method TakeDirty() returns (wasDirty: bool)
      modifies this`dirty
      ensures wasDirty == old(dirty)
      ensures State() == old(State()).(dirty := false)
    {
      wasDirty := dirty;
      dirty := false;
    }

    method WriteInput(bytes: seq<byte>, outcome: WriteOutcome) returns (r: Result<(), string>)
      modifies this`bell, this`bellBlink, this`scrollback, this`dirty, this`sent
      ensures State() == AfterWrite(old(State()), bytes, outcome)
      ensures r == WriteResult(outcome)
    {
      bell := false;
      bellBlink := false;
      scrollback := 0;
      dirty := true;
      if outcome.WriteFailed? {
        sent := sent + Delivered(bytes, outcome);
        return Err("failed to write to PTY");
      }
      sent := sent + bytes;
      if outcome == FlushFailed {
        return Err("failed to flush PTY");
      }
      r := Ok(());
    }

    method ScrollUp(lines: nat)
      modifies this`scrollback, this`dirty
      ensures State() == AfterScrollUp(old(State()), lines)
    {
      scrollback := scrollback + lines;
      dirty := true;
    }

    method ScrollDown(lines: nat)
      modifies this`scrollback, this`dirty
      ensures State() == AfterScrollDown(old(State()), lines)
    {
      scrollback := if scrollback >= lines then scrollback - lines else 0;
      dirty := true;
    }

    method Resize(newRows: u16, newCols: u16, ptyError: Option<string>) returns (r: Result<(), string>)
      modifies this`rows, this`cols, this`dirty
      ensures State() == AfterResize(old(State()), newRows, newCols, ptyError)
      ensures r == if ptyError.Some? then Err(ptyError.value) else Ok(())
    {
      if ptyError.Some? {
        return Err(ptyError.value);
      }
      rows, cols := newRows, newCols;
      dirty := true;
      r := Ok(());
    }

    method SetBell()
      modifies this`bell, this`bellBlink
      ensures State() == WithBell(old(State()))
    {
      bell := true;
      bellBlink := true;
    }

    method ClearBell()
      modifies this`bell, this`bellBlink
      ensures State() == WithoutBell(old(State()))
    {
      bell := false;
      bellBlink := false;
    }

    /** The reader thread: each chunk is fed to the emulator and marks the
        terminal dirty; end of file or a read error marks it exited and dirty
        and stops. `results` is what the system delivers; `taken` is how many
        of them the thread consumes. */
    method RunReader(results: seq<ReadResult>) returns (taken: nat)
      modifies this`fed, this`exited, this`dirty
      ensures taken == ReadsTaken(results)
      ensures State() == AfterReads(old(State()), results)
    {
      var i := 0;
      var stop := false;
      while i < |results| && !stop
        invariant 0 <= i <= |results|
        invariant !stop ==> old(fed) + FedBytes(results) == fed + FedBytes(results[i..])
        invariant !stop ==> (Ended(results) <==> Ended(results[i..]))
        invariant !stop ==> ReadsTaken(results) == i + ReadsTaken(results[i..])
        invariant stop ==> fed == old(fed) + FedBytes(results) && Ended(results) && i == ReadsTaken(results)
        invariant exited == (old(exited) || stop)
        invariant dirty == (old(dirty) || i > 0)
        decreases |results| - i
      {
        ReaderStep(results, i);
        stop := ReadOnce(results[i]);
        i := i + 1;
      }
      if !stop {
        assert results[i..] == [];
      }
      taken := i;
      assert dirty == (old(dirty) || |results| > 0);
    }

    /** One read of the reader thread: a chunk is fed to the emulator, end
        of file or an error marks the terminal exited; either way it is
        dirty. The result says whether the thread stops. */
    method ReadOnce(r: ReadResult) returns (ends: bool)
      modifies this`fed, this`exited, this`dirty
      ensures ends == EndsReader(r)
      ensures fed == old(fed) + (if ends then [] else r.bytes)
      ensures exited == (old(exited) || ends) && dirty
    {
      match r {
        case Read(chunk) =>
          if |chunk| == 0 {
            exited := true;
            ends := true;
          } else {
            fed := fed + chunk;
            ends := false;
          }
        case ReadFailed =>
          exited := true;
          ends := true;
      }
      dirty := true;
    }
  }

  /** The argument with every `'` replaced by `'\''`. */
  function EscapeQuotes(a: string): (r: string)
    ensures |r| >= |a|
    ensures '\'' !in a ==> r == a
    decreases |a|
  {
    if |a| == 0 then ""
    else
      assert '\'' !in a ==> '\'' !in a[1..] && a == [a[0]] + a[1..];
      (if a[0] == '\'' then "'\\''" else [a[0]]) + EscapeQuotes(a[1..])
  }

  /** One argument as a single-quoted shell word: a text without quotes is
      only wrapped. */
  function QuoteArg(a: string): (r: string)
    ensures |r| >= |a| + 2 && r[0] == '\'' && r[|r| - 1] == '\''
    ensures '\'' !in a ==> r == "'" + a + "'"
  {
    "'" + EscapeQuotes(a) + "'"
  }

  function QuoteAll(args: seq<string>): (r: seq<string>)
    ensures |r| == |args| && forall i :: 0 <= i < |args| ==> r[i] == QuoteArg(args[i])
  {
    seq(|args|, i requires 0 <= i < |args| => QuoteArg(args[i]))
  }

  /** The command and its quoted arguments, space-separated; the bare
      command when there are none. */
  function InnerCommand(cmd: string, args: seq<string>): string {
    if |args| == 0 then cmd else cmd + " " + Join(QuoteAll(args), " ")
  }

  /** The script given to `bash -c`: it exports the terminal for GPG and then
      replaces the shell with the command. */
  function LaunchScript(cmd: string, args: seq<string>): (r: string)
    ensures StartsWith(r, "export GPG_TTY=$(tty); exec ")
    ensures r[|"export GPG_TTY=$(tty); exec "|..] == InnerCommand(cmd, args)
  {
    "export GPG_TTY=$(tty); exec " + InnerCommand(cmd, args)
  }

  /** What a terminal runs: a command, its arguments and a working
      directory. The pseudo-terminal runs `bash` with `Argv` of it. */
  datatype Launch = Launch(cmd: string, args: seq<string>, cwd: string)

  const LaunchProgram := "bash"

  function Argv(l: Launch): (r: seq<string>)
    ensures |r| == 2 && r[0] == "-c"
  {
    ["-c", LaunchScript(l.cmd, l.args)]
  }

  /** Resuming a session runs the CLI with `--resume <id>` in the session's directory. */
  function ResumeLaunch(sessionId: string, cwd: string): Launch {
    Launch("claude", ["--resume", sessionId], cwd)
  }

  /** A remote session runs its ssh command line under `bash -c`, from /tmp. */
  function SshLaunch(sshCommand: string): Launch {
    Launch("bash", ["-c", sshCommand], "/tmp")
  }

  /** A new session runs the CLI with no arguments. */
  function NewLaunch(cwd: string): Launch {
    Launch("claude", [], cwd)
  }

  /** A new session is named after the last component of its directory, or
      the whole path when it has none (as for "/"). */
  function NewProjectName(cwd: string): (r: string)
    ensures Paths.FileName(cwd).Some? ==> r == Paths.FileName(cwd).value && '/' !in r
    ensures Paths.FileName(cwd).None? ==> r == cwd
  {
    Paths.FileName(cwd).UnwrapOr(cwd)
  }

  /** A directory `parent/name` is named `name`. */
  lemma NewProjectNameOfChild(parent: string, name: string)
    requires |parent| > 0 && parent[|parent| - 1] != '/'
    requires |name| > 0 && '/' !in name && name != ".." && name != "."
    ensures NewProjectName(parent + "/" + name) == name
  {
    Paths.JoinFileName(parent, name);
  }

  /** Inside single quotes, `'\''` closes the quotes, adds a backslash-escaped
      quote and reopens them: the word gains one `'`. */
  lemma EscapedQuoteStep(tail: string, cur: string)
    ensures PosixShell.InQuotes("'\\''" + tail, cur) == PosixShell.InQuotes(tail, cur + "'")
  {
    var s := "'\\''" + tail;
    var t := s[1..];
    assert t == "\\''" + tail;
    assert PosixShell.InQuotes(s, cur) == PosixShell.Split(t, Some(cur));
    var u := t[2..];
    assert t[0] == '\\' && t[1] == '\'' && u == "'" + tail;
    assert PosixShell.Split(t, Some(cur)) == PosixShell.Split(u, Some(cur + "'"));
    assert u[1..] == tail;
  }

  lemma QuotedCharStep(c: char, tail: string, cur: string)
    requires c != '\''
    ensures PosixShell.InQuotes([c] + tail, cur) == PosixShell.InQuotes(tail, cur + [c])
  {
    assert ([c] + tail)[1..] == tail;
  }

  /** Inside single quotes, the escaped argument followed by the closing
      quote reads back as the argument itself. */
  lemma {:induction false} EscapedReadsBack(a: string, cur: string, rest: string)
    ensures PosixShell.InQuotes(EscapeQuotes(a) + "'" + rest, cur) == PosixShell.Split(rest, Some(cur + a))
    decreases |a|
  {
    if |a| == 0 {
      assert EscapeQuotes(a) + "'" + rest == "'" + rest;
      assert ("'" + rest)[1..] == rest;
      assert cur + a == cur;
    } else {
      var next := cur + [a[0]];
      EscapedReadsBack(a[1..], next, rest);
      EscapedHeadStep(a, cur, rest);
      assert next + a[1..] == cur + a;
    }
  }

  /** The first character of the argument, escaped, moves into the word. */
  lemma EscapedHeadStep(a: string, cur: string, rest: string)
    requires |a| > 0
    ensures PosixShell.InQuotes(EscapeQuotes(a) + "'" + rest, cur)
      == PosixShell.InQuotes(EscapeQuotes(a[1..]) + "'" + rest, cur + [a[0]])
  {
    var tail := EscapeQuotes(a[1..]) + "'" + rest;
    if a[0] == '\'' {
      assert EscapeQuotes(a) == "'\\''" + EscapeQuotes(a[1..]);
      assert EscapeQuotes(a) + "'" + rest == "'\\''" + tail;
      EscapedQuoteStep(tail, cur);
    } else {
      assert EscapeQuotes(a) == [a[0]] + EscapeQuotes(a[1..]);
      assert EscapeQuotes(a) + "'" + rest == [a[0]] + tail;
      QuotedCharStep(a[0], tail, cur);
    }
  }

  /** A quoted argument is one whole shell word, whatever characters it holds. */
  lemma QuoteArgReadsBack(a: string, rest: string)
    ensures PosixShell.Split(QuoteArg(a) + rest, None) == PosixShell.Split(rest, Some(a))
  {
    var s := QuoteArg(a) + rest;
    assert s[1..] == EscapeQuotes(a) + "'" + rest;
    EscapedReadsBack(a, "", rest);
    assert "" + a == a;
  }

  /** The quoted arguments, space-separated, split back into exactly the arguments. */
  lemma {:induction false} QuotedArgsReadBack(args: seq<string>)
    requires |args| > 0
    ensures PosixShell.Words(Join(QuoteAll(args), " ")) == Some(args)
    decreases |args|
  {
    var q := QuoteAll(args);
    if |args| == 1 {
      assert Join(q, " ") == QuoteArg(args[0]) + "";
      QuoteArgReadsBack(args[0], "");
      assert PosixShell.Split("", Some(args[0])) == PosixShell.Prepend(Some(args[0]), Some([]));
      assert [args[0]] + [] == [args[0]];
      assert args == [args[0]];
    } else {
      assert q[1..] == QuoteAll(args[1..]);
      var rest := Join(QuoteAll(args[1..]), " ");
      assert Join(q, " ") == QuoteArg(args[0]) + (" " + rest);
      QuoteArgReadsBack(args[0], " " + rest);
      assert (" " + rest)[1..] == rest;
      QuotedArgsReadBack(args[1..]);
      assert [args[0]] + args[1..] == args;
    }
  }

  /** A shell splits the launched command line back into exactly the command
      and its arguments, whatever quotes or blanks the arguments contain. */
  lemma InnerCommandReadsBack(cmd: string, args: seq<string>)
    requires PosixShell.IsPlainWord(cmd)
    ensures PosixShell.Words(InnerCommand(cmd, args)) == Some([cmd] + args)
  {
    if |args| == 0 {
      PosixShell.SplitPlain(cmd, "", None);
      assert cmd + "" == cmd;
      assert "" + cmd == cmd;
    } else {
      var rest := Join(QuoteAll(args), " ");
      assert InnerCommand(cmd, args) == cmd + (" " + rest);
      PosixShell.SplitPlain(cmd, " " + rest, None);
      assert "" + cmd == cmd;
      assert (" " + rest)[1..] == rest;
      QuotedArgsReadBack(args);
    }
  }

  /** The resume launch hands the shell the CLI, `--resume` and the session id as three words. */
  lemma ResumeLaunchWords(sessionId: string, cwd: string)
    ensures var script := Argv(ResumeLaunch(sessionId, cwd))[1];
      StartsWith(script, "export GPG_TTY=$(tty); exec ")
      && PosixShell.Words(script[|"export GPG_TTY=$(tty); exec "|..]) == Some(["claude", "--resume", sessionId])
  {
    var cmd := "claude";
    assert PosixShell.IsPlainWord(cmd) by {
      assert forall i :: 0 <= i < |cmd| ==> 'a' <= cmd[i] <= 'z';
    }
    InnerCommandReadsBack(cmd, ["--resume", sessionId]);
    assert [cmd] + ["--resume", sessionId] == ["claude", "--resume", sessionId];
  }

  /** The ssh launch runs from /tmp and hands the outer shell `bash`, `-c`
      and the whole ssh command line as three words, so the command line
      reaches the inner shell intact whatever it holds. */
  lemma SshLaunchWords(sshCommand: string)
    ensures var l := SshLaunch(sshCommand);
      && l.cwd == "/tmp"
      && PosixShell.Words(Argv(l)[1][|"export GPG_TTY=$(tty); exec "|..]) == Some(["bash", "-c", sshCommand])
  {
    var cmd := "bash";
    assert PosixShell.IsPlainWord(cmd) by {
      assert forall i :: 0 <= i < |cmd| ==> 'a' <= cmd[i] <= 'z';
    }
    InnerCommandReadsBack(cmd, ["-c", sshCommand]);
    assert [cmd] + ["-c", sshCommand] == ["bash", "-c", sshCommand];
  }
}
