/**
 * The in-memory log shown in the log panel: the newest 500 entries, and a
 * flag telling the panel that something changed since it last looked.
 * Every entry is also appended to a log file; that write is not modelled.
 */
module Log {
  /** How many entries the buffer keeps. */
  const MaxEntries: nat := 500

  datatype LogLevel = Info | Warn | Error

  function LevelLabel(level: LogLevel): string {
    match level
    case Info => "INFO"
    case Warn => "WARN"
    case Error => "ERROR"
  }

  /** Different levels are shown differently. */
  lemma LevelLabelInjective(a: LogLevel, b: LogLevel)
    ensures LevelLabel(a) == LevelLabel(b) ==> a == b
  {
  }

  /** `timestamp` is the clock reading, in milliseconds, when the entry was pushed. */
  datatype LogEntry = LogEntry(timestamp: int, level: LogLevel, message: string)

  /** The newest `MaxEntries` of `s`, in order: the oldest are dropped. */
  function Newest(s: seq<LogEntry>): (r: seq<LogEntry>)
    ensures |r| == if |s| > MaxEntries then MaxEntries else |s|
    ensures r == s[|s| - |r|..]
  {
    if |s| > MaxEntries then s[|s| - MaxEntries..] else s
  }

  /** A buffer below the cap keeps what it is given. */
  lemma NewestBelowCap(s: seq<LogEntry>)
    requires |s| <= MaxEntries
    ensures Newest(s) == s
  {
  }

  /** Trimming a full buffer plus one entry drops exactly the oldest entry
      and keeps the new one last. */
  lemma NewestDropsOldest(s: seq<LogEntry>, e: LogEntry)
    requires |s| == MaxEntries
    ensures Newest(s + [e]) == s[1..] + [e]
  {
    assert (s + [e])[1..] == s[1..] + [e];
  }

  class LogBuffer {
    var entries: seq<LogEntry>
    var dirty: bool

    /** The buffer never holds more than `MaxEntries` entries. */
    ghost predicate Valid()
      reads this
    {
      |entries| <= MaxEntries
    }

    constructor ()
      ensures Valid() && entries == [] && !dirty
    {
      entries := [];
      dirty := false;
    }

    /** Append an entry stamped `now`, drop the oldest beyond the cap, and
        mark the buffer changed. */
    method Push(level: LogLevel, message: string, now: int)
      modifies this
      ensures entries == Newest(old(entries) + [LogEntry(now, level, message)])
      ensures Valid() && dirty
      ensures entries[|entries| - 1] == LogEntry(now, level, message)
      ensures old(|entries|) < MaxEntries ==> entries == old(entries) + [LogEntry(now, level, message)]
    {
      entries := entries + [LogEntry(now, level, message)];
      if |entries| > MaxEntries {
        var excess := |entries| - MaxEntries;
        entries := entries[excess..];
      }
      dirty := true;
    }

    /** Report whether anything changed since the last call, and reset the flag. */
    method TakeDirty() returns (was: bool)
      modifies this`dirty
      ensures was == old(dirty) && !dirty
    {
      was := dirty;
      dirty := false;
    }

    /** A copy of the entries, oldest first. */
    function Entries(): (r: seq<LogEntry>)
      reads this
      ensures Valid() ==> |r| <= MaxEntries
    {
      entries
    }

    /** Empty the buffer and mark it changed. */
    method Clear()
      modifies this
      ensures entries == [] && dirty && Valid()
    {
      entries := [];
      dirty := true;
    }

    function EntryCount(): (n: nat)
      reads this
      ensures n == |Entries()|
      ensures Valid() ==> n <= MaxEntries
    {
      |entries|
    }
  }
}
