/**
 * The interaction log (backend/core/logger.py): a JSON-lines file to which
 * every answered request appends one entry, and from which the service
 * reads the latest entries of a session as conversation context.
 *
 * The file is a sequence of lines, each a parsed entry, a line that is not
 * JSON, or a line that is JSON but not an object. File-system failures,
 * entry ids and clock readings are parameters.
 */
module InteractionLog {
  import opened Types

  datatype LogEntry = LogEntry(
    id: string,
    timestamp: string,
    sessionId: string,
    mode: string,
    userInput: string,
    aiOutput: string,
    model: string,
    tags: seq<string>)

  datatype LogLine =
    | Record(entry: LogEntry)   // a JSON object
    | Malformed                 // json.loads raises JSONDecodeError
    | NonObject                 // valid JSON without a .get method (a number, a list, ...)

  datatype LogFile = Missing | Present(lines: seq<LogLine>)

  /** The model name log_entry records when none is given. */
  const DefaultModel: string := "mistral-7b"

  /** The default Python `limit` of get_recent_context. */
  const DefaultLimit: int := 4

  /** The entry log_entry builds; `tags or []` turns a missing or empty list into []. */
  function NewEntry(id: string, time: string, sessionId: string, userInput: string, aiOutput: string,
                    mode: string, model: string, tags: Option<seq<string>>): (e: LogEntry)
    ensures e.sessionId == sessionId && e.userInput == userInput && e.aiOutput == aiOutput && e.mode == mode
    ensures e.tags == (if tags.Some? then tags.value else [])
  {
    LogEntry(id, time, sessionId, mode, userInput, aiOutput, model, if tags.Some? then tags.value else [])
  }

  /** The file after appending `entry`: opening for append creates a missing file; a failed write changes nothing. */
  function Appended(file: LogFile, entry: LogEntry, writeOk: bool): (r: LogFile)
    ensures !writeOk ==> r == file
    ensures writeOk ==> r.Present? && |r.lines| > 0 && r.lines[|r.lines| - 1] == Record(entry)
    ensures writeOk && file.Present? ==> r.lines[..|r.lines| - 1] == file.lines
    ensures writeOk && file.Missing? ==> r.lines == [Record(entry)]
  {
    if !writeOk then file
    else match file
      case Missing => Present([Record(entry)])
      case Present(lines) => Present(lines + [Record(entry)])
  }

  /** The entries of `lines` recorded for `sessionId`, in file order. */
  function Matching(lines: seq<LogLine>, sessionId: string): (r: seq<LogEntry>)
    ensures |r| <= |lines|
    ensures forall k :: 0 <= k < |r| ==> r[k].sessionId == sessionId
    ensures forall k :: 0 <= k < |r| ==> Record(r[k]) in lines
    ensures KeepsSession(lines, sessionId, r)
  {
    if lines == [] then []
    else
      var init := Matching(lines[..|lines| - 1], sessionId);
      match lines[|lines| - 1]
      case Record(e) => if e.sessionId == sessionId then init + [e] else init
      case Malformed => init
      case NonObject => init
  }

  /** Every record of the session in `lines` is among `kept`. */
  predicate KeepsSession(lines: seq<LogLine>, sessionId: string, kept: seq<LogEntry>)
  {
    forall k :: 0 <= k < |lines| && lines[k].Record? && lines[k].entry.sessionId == sessionId ==> lines[k].entry in kept
  }

  /** Filtering distributes over concatenation of files: file order is kept. */
  lemma {:induction false} MatchingAppend(a: seq<LogLine>, b: seq<LogLine>, sessionId: string)
    ensures Matching(a + b, sessionId) == Matching(a, sessionId) + Matching(b, sessionId)
    decreases |b|
  {
    if b == [] {
      assert a + b == a;
    } else {
      assert (a + b)[..|a + b| - 1] == a + b[..|b| - 1];
      MatchingAppend(a, b[..|b| - 1], sessionId);
    }
  }

  /** One line contributes its entry exactly when it is a record of the session. */
  lemma MatchingOne(line: LogLine, sessionId: string)
    ensures Matching([line], sessionId) == (if line.Record? && line.entry.sessionId == sessionId then [line.entry] else [])
  {
    assert [line][..0] == [];
  }

  /** Python's `xs[-limit:]`: the last `limit` items; `limit == 0` keeps all; a negative limit drops from the front. */
  function LastN<T>(xs: seq<T>, limit: int): (r: seq<T>)
    ensures limit > 0 ==> |r| == (if limit < |xs| then limit else |xs|)
    ensures limit == 0 ==> r == xs
    ensures |r| <= |xs| && r == xs[|xs| - |r|..]
  {
    if limit > 0 then (if limit < |xs| then xs[|xs| - limit..] else xs)
    else if limit == 0 then xs
    else if -limit < |xs| then xs[-limit..]
    else []
  }

  predicate HasNonObject(lines: seq<LogLine>)
  {
    exists k :: 0 <= k < |lines| && lines[k] == NonObject
  }

  /**
   * What get_recent_context returns: nothing when the file is missing or
   * cannot be read, or when a line is JSON but not an object (the
   * AttributeError escapes to the outer handler); otherwise the last
   * `limit` entries of the session.
   */
  function RecentContext(file: LogFile, sessionId: string, limit: int, readOk: bool): seq<LogEntry>
  {
    if !readOk || file.Missing? || HasNonObject(file.lines) then []
    else LastN(Matching(file.lines, sessionId), limit)
  }

  /** The query only returns entries of the asked session, and at most `limit` of them. */
  lemma RecentContextBounds(file: LogFile, sessionId: string, limit: int, readOk: bool)
    ensures var r := RecentContext(file, sessionId, limit, readOk);
      && (forall k :: 0 <= k < |r| ==> r[k].sessionId == sessionId)
      && (limit > 0 ==> |r| <= limit)
  {
    var r := RecentContext(file, sessionId, limit, readOk);
    if readOk && file.Present? && !HasNonObject(file.lines) {
      var all := Matching(file.lines, sessionId);
      forall k | 0 <= k < |r| ensures r[k].sessionId == sessionId {
        assert r[k] == all[|all| - |r| + k];
      }
    }
  }

  /** After a successful append, the session's context ends with the new entry. */
  lemma LogThenQuery(file: LogFile, entry: LogEntry, limit: int)
    requires limit >= 1
    requires file.Present? ==> !HasNonObject(file.lines)
    ensures var r := RecentContext(Appended(file, entry, true), entry.sessionId, limit, true);
      |r| > 0 && r[|r| - 1] == entry
  {
    var before := if file.Present? then file.lines else [];
    assert Appended(file, entry, true).lines == before + [Record(entry)];
    AppendKeepsObjects(before, entry);
    MatchingEndsWith(before, entry);
    LastNKeepsLast(Matching(before, entry.sessionId), entry, limit);
  }

  lemma LastNKeepsLast<T>(xs: seq<T>, x: T, limit: int)
    requires limit >= 1
    ensures var r := LastN(xs + [x], limit); |r| > 0 && r[|r| - 1] == x
  {
  }

  lemma AppendKeepsObjects(before: seq<LogLine>, entry: LogEntry)
    requires !HasNonObject(before)
    ensures !HasNonObject(before + [Record(entry)])
  {
    var lines := before + [Record(entry)];
    forall k | 0 <= k < |lines| ensures lines[k] != NonObject {
      if k < |before| { assert lines[k] == before[k]; }
    }
  }

  lemma MatchingEndsWith(before: seq<LogLine>, entry: LogEntry)
    ensures Matching(before + [Record(entry)], entry.sessionId) == Matching(before, entry.sessionId) + [entry]
  {
    MatchingAppend(before, [Record(entry)], entry.sessionId);
    MatchingOne(Record(entry), entry.sessionId);
  }

  /** Lines that are not JSON are skipped: they do not change the result. */
  lemma MalformedIgnored(a: seq<LogLine>, b: seq<LogLine>, sessionId: string)
    ensures Matching(a + [Malformed] + b, sessionId) == Matching(a + b, sessionId)
  {
    MatchingAppend(a + [Malformed], b, sessionId);
    MatchingAppend(a, [Malformed], sessionId);
    MatchingAppend(a, b, sessionId);
    MatchingOne(Malformed, sessionId);
  }

  /** AmanLogger: the log file on disk. */
  class Logger {
    var file: LogFile

    constructor (file: LogFile)
      ensures this.file == file
    {
      this.file := file;
    }

    /** log_entry: appends one line; a failed write is reported and swallowed. */
    method LogEntry(id: string, time: string, sessionId: string, userInput: string, aiOutput: string,
                    mode: string, model: string, tags: Option<seq<string>>, writeOk: bool)
      modifies this
      ensures file == Appended(old(file), NewEntry(id, time, sessionId, userInput, aiOutput, mode, model, tags), writeOk)
    {
      var entry := NewEntry(id, time, sessionId, userInput, aiOutput, mode, model, tags);
      if writeOk {
        match file
        case Missing => file := Present([Record(entry)]);
        case Present(lines) => file := Present(lines + [Record(entry)]);
      }
    }

    /** get_recent_context: scans the lines in order, keeping the session's entries. */
    method GetRecentContext(sessionId: string, limit: int, readOk: bool) returns (r: seq<LogEntry>)
      ensures r == RecentContext(file, sessionId, limit, readOk)
    {
      if !readOk || file.Missing? {
        return [];
      }
      var lines := file.lines;
      var entries: seq<LogEntry> := [];
      for i := 0 to |lines|
        invariant entries == Matching(lines[..i], sessionId)
        invariant forall k :: 0 <= k < i ==> lines[k] != NonObject
      {
        assert lines[..i + 1][..i] == lines[..i];
        match lines[i]
        case Record(e) =>
          if e.sessionId == sessionId {
            entries := entries + [e];
          }
        case Malformed =>
        case NonObject =>
          assert HasNonObject(lines);
          return [];
      }
      assert lines[..|lines|] == lines;
      r := LastN(entries, limit);
    }
  }
}
