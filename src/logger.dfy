/** The log-line format and the age rule of the old-log cleanup. The clock,
    the console and the file system are not modelled: the timestamp, the
    current time, the directory listing and the files' modification times
    are inputs, and the cleanup returns the files it deletes. */
module Logger {
  import opened Common
  import Text

  /** The optional error argument of a log call. `Absent` is `undefined` or
      any other falsy value; `ErrorObject` an `Error` instance; `Value` any
      other truthy value, given as the text `JSON.stringify(error, null, 2)`
      yields for it. */
  datatype LogError = Absent | ErrorObject(message: string, stack: Option<string>) | Value(json: string)

  /** `[timestamp] [level] message` */
  function Header(timestamp: string, level: string, message: string): string
  {
    "[" + timestamp + "] [" + level + "] " + message
  }

  /** The lines a log call adds below the header. */
  function ErrorLines(error: LogError): (lines: string)
    ensures error.Absent? <==> lines == ""
    ensures error.ErrorObject? ==> Text.StartsWith(lines, "\nError: " + error.message)
    ensures error.Value? ==> lines == "\nError: " + error.json
  {
    match error
    case Absent => ""
    case ErrorObject(message, stack) =>
      var text := "\nError: " + message;
      var withStack := if Truthy(stack) then text + "\nStack: " + stack.value else text;
      assert withStack[..|text|] == text;
      withStack
    case Value(json) => "\nError: " + json
  }

  /** `formatLogMessage`, with the timestamp as a parameter. */
  function FormatLogMessage(timestamp: string, level: string, message: string, error: LogError): (line: string)
    ensures Text.StartsWith(line, Header(timestamp, level, message))
    ensures |line| > 0 && line[|line| - 1] == '\n'
    ensures error.Absent? ==> line == Header(timestamp, level, message) + "\n"
    ensures line == Header(timestamp, level, message) + ErrorLines(error) + "\n"
  {
    var header := Header(timestamp, level, message);
    var line := header + ErrorLines(error) + "\n";
    assert line[..|header|] == header;
    line
  }

  /** An Error with a stack logs its stack on a line of its own; one
      without (or with an empty one) logs only its message. */
  lemma {:induction false} StackOnlyWhenPresent(message: string, stack: Option<string>)
    ensures Truthy(stack) ==> ErrorLines(ErrorObject(message, stack)) == "\nError: " + message + "\nStack: " + stack.value
    ensures !Truthy(stack) ==> ErrorLines(ErrorObject(message, stack)) == "\nError: " + message
  {
  }

  /** The first index at or after `k` holding `c`, or the end. */
  function IndexFrom(s: string, c: char, k: nat): (e: nat)
    requires k <= |s|
    ensures k <= e <= |s|
    ensures forall m :: k <= m < e ==> s[m] != c
    ensures e < |s| ==> s[e] == c
    decreases |s| - k
  {
    if k == |s| || s[k] == c then k else IndexFrom(s, c, k + 1)
  }

  lemma {:induction false} IndexFromAt(s: string, c: char, k: nat, j: nat)
    requires k <= j < |s| && s[j] == c
    requires forall m :: k <= m < j ==> s[m] != c
    ensures IndexFrom(s, c, k) == j
    decreases j - k
  {
    if k < j {
      IndexFromAt(s, c, k + 1, j);
    }
  }

  /** Reads the timestamp and the level back from a log line. */
  function HeaderFields(line: string): (fields: Option<(string, string)>)
    ensures fields.Some? ==> Text.StartsWith(line, "[" + fields.value.0 + "] [" + fields.value.1 + "] ")
  {
    if |line| == 0 || line[0] != '[' then None
    else
      var e := IndexFrom(line, ']', 1);
      if e + 2 >= |line| || line[e + 1] != ' ' || line[e + 2] != '[' then None
      else
        var e2 := IndexFrom(line, ']', e + 3);
        if e2 + 1 >= |line| || line[e2 + 1] != ' ' then None
        else
          var fields := (line[1..e], line[e + 3..e2]);
          assert line[..e2 + 2] == "[" + fields.0 + "] [" + fields.1 + "] ";
          Some(fields)
  }

  predicate NoCloseBracket(s: string)
  {
    forall i :: 0 <= i < |s| ==> s[i] != ']'
  }

  /** The header can be read back: the timestamp and the level of a line
      are recovered as written, whenever neither contains a `]` (an ISO
      timestamp and the four level names do not). */
  lemma {:induction false} HeaderReadsBack(timestamp: string, level: string, message: string, error: LogError)
    requires NoCloseBracket(timestamp) && NoCloseBracket(level)
    ensures HeaderFields(FormatLogMessage(timestamp, level, message, error)) == Some((timestamp, level))
  {
    var line := FormatLogMessage(timestamp, level, message, error);
    var header := Header(timestamp, level, message);
    var start := "[" + timestamp + "] [" + level + "] ";
    assert header[..|start|] == start;
    Text.PrefixTransitive(line, header, start);
    FieldsOfStart(line, timestamp, level);
  }

  lemma {:induction false} FieldsOfStart(line: string, timestamp: string, level: string)
    requires NoCloseBracket(timestamp) && NoCloseBracket(level)
    requires Text.StartsWith(line, "[" + timestamp + "] [" + level + "] ")
    ensures HeaderFields(line) == Some((timestamp, level))
  {
    var start := "[" + timestamp + "] [" + level + "] ";
    var e := 1 + |timestamp|;
    var e2 := e + 3 + |level|;
    assert forall m :: 0 <= m < |start| ==> line[m] == start[m] by {
      assert line[..|start|] == start;
    }
    assert forall m :: 1 <= m < e ==> start[m] == timestamp[m - 1];
    assert start[e] == ']' && start[e + 1] == ' ' && start[e + 2] == '[';
    IndexFromAt(line, ']', 1, e);
    assert forall m :: e + 3 <= m < e2 ==> start[m] == level[m - e - 3];
    assert start[e2] == ']' && start[e2 + 1] == ' ';
    IndexFromAt(line, ']', e + 3, e2);
    assert line[1..e] == timestamp;
    assert line[e + 3..e2] == level;
  }

  const DayMs := 24 * 60 * 60 * 1000
  const DefaultDaysToKeep := 7

  /** `daysToKeep * 24 * 60 * 60 * 1000`, with the default of 7 days when
      the argument is omitted. */
  function MaxAgeMs(daysToKeep: Option<int>): (cutoff: int)
    ensures daysToKeep.None? ==> cutoff == 604800000
    ensures daysToKeep.Some? ==> cutoff == daysToKeep.value * 86400000
  {
    (if daysToKeep.Some? then daysToKeep.value else DefaultDaysToKeep) * DayMs
  }

  /** A file is deleted when its age is strictly greater than the cutoff. */
  predicate IsExpired(nowMs: int, mtimeMs: int, cutoff: int)
  {
    nowMs - mtimeMs > cutoff
  }

  /** A file of the log directory; `mtimeMs` is None when `statSync`
      throws for it. */
  datatype LogFile = LogFile(name: string, mtimeMs: Option<int>)

  /** The files the cleanup deletes, in listing order: the expired ones up
      to the first file whose status cannot be read, where the loop is
      abandoned. */
  function ExpiredNames(files: seq<LogFile>, nowMs: int, cutoff: int): (names: seq<string>)
    ensures |names| <= |files|
  {
    if |files| == 0 || files[0].mtimeMs.None? then []
    else
      var rest := ExpiredNames(files[1..], nowMs, cutoff);
      if IsExpired(nowMs, files[0].mtimeMs.value, cutoff) then [files[0].name] + rest else rest
  }

  /** Every deleted name is that of a listed file strictly older than the
      cutoff; when every status can be read, every such file is deleted. */
  lemma {:induction false} ExpiredNamesExact(files: seq<LogFile>, nowMs: int, cutoff: int)
    ensures forall n :: n in ExpiredNames(files, nowMs, cutoff) ==>
      exists f :: f in files && f.name == n && f.mtimeMs.Some? && IsExpired(nowMs, f.mtimeMs.value, cutoff)
    ensures (forall f :: f in files ==> f.mtimeMs.Some?) ==>
      forall f :: f in files && IsExpired(nowMs, f.mtimeMs.value, cutoff) ==> f.name in ExpiredNames(files, nowMs, cutoff)
  {
    if |files| > 0 && files[0].mtimeMs.Some? {
      ExpiredNamesExact(files[1..], nowMs, cutoff);
      assert forall f :: f in files[1..] ==> f in files;
      assert forall f :: f in files ==> f == files[0] || f in files[1..];
    }
  }

  /** Keeping logs longer never deletes more: every file deleted with the
      longer cutoff is deleted with the shorter one too. */
  lemma {:induction false} LongerCutoffDeletesLess(files: seq<LogFile>, nowMs: int, shorter: int, longer: int)
    requires shorter <= longer
    ensures forall n :: n in ExpiredNames(files, nowMs, longer) ==> n in ExpiredNames(files, nowMs, shorter)
  {
    if |files| > 0 && files[0].mtimeMs.Some? {
      LongerCutoffDeletesLess(files[1..], nowMs, shorter, longer);
    }
  }

  /** The outcome of a cleanup: the files deleted, and whether the catch
      branch ran (listing or reading a file's status failed). */
  datatype Cleanup = Cleanup(deleted: seq<string>, failed: bool)

  /** `cleanupOldLogs`. `listing` is None when the directory cannot be
      read. */
  method CleanupOldLogs(listing: Option<seq<LogFile>>, nowMs: int, daysToKeep: Option<int>) returns (result: Cleanup)
    ensures listing.None? ==> result == Cleanup([], true)
    ensures listing.Some? ==> result.deleted == ExpiredNames(listing.value, nowMs, MaxAgeMs(daysToKeep))
    ensures listing.Some? ==> (result.failed <==> exists f :: f in listing.value && f.mtimeMs.None?)
  {
    if listing.None? {
      return Cleanup([], true);
    }
    var files := listing.value;
    var cutoff := MaxAgeMs(daysToKeep);
    var deleted: seq<string> := [];
    var i := 0;
    while i < |files| && files[i].mtimeMs.Some?
      invariant 0 <= i <= |files|
      invariant forall k :: 0 <= k < i ==> files[k].mtimeMs.Some?
      invariant deleted + ExpiredNames(files[i..], nowMs, cutoff) == ExpiredNames(files, nowMs, cutoff)
    {
      assert files[i..][1..] == files[i + 1..];
      if IsExpired(nowMs, files[i].mtimeMs.value, cutoff) {
        deleted := deleted + [files[i].name];
      }
      i := i + 1;
    }
    if i < |files| {
      assert files[i] in files;
      return Cleanup(deleted, true);
    }
    assert forall f :: f in files ==> exists k :: 0 <= k < i && files[k] == f;
    return Cleanup(deleted, false);
  }
}
