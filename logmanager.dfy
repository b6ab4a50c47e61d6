/**
 * The log manager: once at start-up it rewrites each of the assistant's log
 * files, keeping only the entries of the last 30 days. Entries whose
 * timestamp is missing or unreadable are kept. The clock (`now`, in
 * seconds) and the reading of "%Y-%m-%d %H:%M:%S" timestamps are
 * parameters, and the disk is a map from file name to what the file holds.
 */
module LogManager {
  import opened Wrappers

  const LogFiles: seq<string> := [
    "system_event_log.json",
    "system_monitor_log.json",
    "disk_usage_log.json",
    "network_monitor_log.json",
    "process_monitor_log.json"
  ]
  const LogRetentionDays := 30
  const SecondsPerDay := 86400

  /** Reads a "%Y-%m-%d %H:%M:%S" timestamp as seconds, or `None` where `strptime` raises `ValueError`. */
  type Parse = string -> Option<int>

  /** One log entry: its "timestamp" field, if it has one, and the rest of the record. */
  datatype LogEntry = LogEntry(timestamp: Option<string>, record: string)

  /** What a log file holds: entries, or text that is not valid JSON. */
  datatype FileState = Decoded(entries: seq<LogEntry>) | Undecodable

  /** `is_recent(entry)`: not older than the retention period, or without a readable timestamp. */
  predicate IsRecent(e: LogEntry, now: int, parse: Parse)
  {
    match e.timestamp
    case None => true
    case Some(t) =>
      match parse(t)
      case None => true
      case Some(seconds) => seconds >= now - LogRetentionDays * SecondsPerDay
  }

  /** An entry stamped exactly 30 days ago is kept; one a second older is dropped; one without a timestamp is kept. */
  lemma RetentionBoundary(now: int, parse: Parse, t: string, record: string)
    ensures parse(t) == Some(now - 2592000) ==> IsRecent(LogEntry(Some(t), record), now, parse)
    ensures parse(t) == Some(now - 2592001) ==> !IsRecent(LogEntry(Some(t), record), now, parse)
    ensures parse(t).None? ==> IsRecent(LogEntry(Some(t), record), now, parse)
    ensures IsRecent(LogEntry(None, record), now, parse)
  {
  }

  /** `[entry for entry in log_data if self.is_recent(entry)]`. */
  function Kept(log: seq<LogEntry>, now: int, parse: Parse): (r: seq<LogEntry>)
    ensures |r| <= |log|
    decreases |log|
  {
    if log == [] then []
    else
      var last := log[|log| - 1];
      Kept(log[..|log| - 1], now, parse) + (if IsRecent(last, now, parse) then [last] else [])
  }

  /** An entry survives exactly when it was in the log and is recent. */
  lemma {:induction false} KeptMembers(log: seq<LogEntry>, now: int, parse: Parse)
    ensures forall e :: e in Kept(log, now, parse) <==> e in log && IsRecent(e, now, parse)
    decreases |log|
  {
    if log != [] {
      KeptMembers(log[..|log| - 1], now, parse);
      assert log == log[..|log| - 1] + [log[|log| - 1]];
    }
  }

  /** Filtering two stretches of log one after the other: the survivors keep their order. */
  lemma {:induction false} KeptSplits(a: seq<LogEntry>, b: seq<LogEntry>, now: int, parse: Parse)
    ensures Kept(a + b, now, parse) == Kept(a, now, parse) + Kept(b, now, parse)
    decreases |b|
  {
    if b == [] {
      assert a + b == a;
    } else {
      var init := b[..|b| - 1];
      var last := b[|b| - 1];
      var verdict := if IsRecent(last, now, parse) then [last] else [];
      assert (a + b)[..|a + b| - 1] == a + init;
      assert (a + b)[|a + b| - 1] == last;
      calc {
        Kept(a + b, now, parse);
        Kept(a + init, now, parse) + verdict;
        { KeptSplits(a, init, now, parse); }
        Kept(a, now, parse) + Kept(init, now, parse) + verdict;
        Kept(a, now, parse) + (Kept(init, now, parse) + verdict);
        Kept(a, now, parse) + Kept(b, now, parse);
      }
    }
  }

  /** A second clean-up at the same time removes nothing more. */
  lemma {:induction false} KeptIdempotent(log: seq<LogEntry>, now: int, parse: Parse)
    ensures Kept(Kept(log, now, parse), now, parse) == Kept(log, now, parse)
    decreases |log|
  {
    if log != [] {
      var init := log[..|log| - 1];
      var last := log[|log| - 1];
      KeptIdempotent(init, now, parse);
      var tail := if IsRecent(last, now, parse) then [last] else [];
      KeptSplits(Kept(init, now, parse), tail, now, parse);
      if IsRecent(last, now, parse) {
        assert [last][..0] == [];
        assert Kept([last], now, parse) == [last];
      }
    }
  }

  /** What a file holds after its clean-up: the recent entries; an undecodable file becomes `[]`. */
  function Cleaned(f: FileState, now: int, parse: Parse): FileState
  {
    match f
    case Undecodable => Decoded([])
    case Decoded(entries) => Decoded(Kept(entries, now, parse))
  }

  /** The entries a file was read as: an undecodable file counts as empty. */
  function EntriesOf(f: FileState): seq<LogEntry>
  {
    match f
    case Undecodable => []
    case Decoded(entries) => entries
  }

  /** The disk after cleaning the named files that exist, leaving every other file alone. */
  function CleanedDisk(disk: map<string, FileState>, names: seq<string>, now: int, parse: Parse): (r: map<string, FileState>)
    ensures r.Keys == disk.Keys
    ensures forall f :: f in disk && f in names ==> r[f] == Cleaned(disk[f], now, parse)
    ensures forall f :: f in disk && f !in names ==> r[f] == disk[f]
  {
    map f | f in disk :: if f in names then Cleaned(disk[f], now, parse) else disk[f]
  }

  /** For each named file that exists, in order: its name and how many entries its clean-up removed. */
  function Removals(disk: map<string, FileState>, names: seq<string>, now: int, parse: Parse): (r: seq<(string, nat)>)
    ensures |r| <= |names|
    decreases |names|
  {
    if names == [] then []
    else
      var name := names[|names| - 1];
      var earlier := Removals(disk, names[..|names| - 1], now, parse);
      if name in disk then
        var before := EntriesOf(disk[name]);
        earlier + [(name, |before| - |Kept(before, now, parse)|)]
      else earlier
  }

  /** Cleaning one more file that was not cleaned yet rewrites that file alone. */
  lemma CleanedDiskStep(disk: map<string, FileState>, names: seq<string>, name: string, now: int, parse: Parse)
    requires name !in names
    ensures name in disk ==>
              CleanedDisk(disk, names + [name], now, parse)
              == CleanedDisk(disk, names, now, parse)[name := Cleaned(disk[name], now, parse)]
    ensures name !in disk ==> CleanedDisk(disk, names + [name], now, parse) == CleanedDisk(disk, names, now, parse)
  {
    assert forall f :: f in names + [name] <==> f in names || f == name;
  }

  /** Reporting on one more file appends its line, if it exists. */
  lemma RemovalsStep(disk: map<string, FileState>, names: seq<string>, name: string, now: int, parse: Parse)
    ensures Removals(disk, names + [name], now, parse)
            == Removals(disk, names, now, parse)
               + (if name in disk
                  then [(name, |EntriesOf(disk[name])| - |Kept(EntriesOf(disk[name]), now, parse)|)]
                  else [])
  {
    assert (names + [name])[..|names|] == names;
  }

  /** No log file is listed twice. */
  lemma LogFilesDistinct(i: nat)
    requires i < |LogFiles|
    ensures LogFiles[i] !in LogFiles[..i]
  {
  }

  /** The files on disk, for `cleanup_logs` to rewrite. */
  class Disk {
    var files: map<string, FileState>

    constructor(stored: map<string, FileState>)
      ensures files == stored
    {
      files := stored;
    }
  }

  /**
   * `cleanup_logs()` at time `now`: every log file that exists is rewritten
   * with its recent entries, and for each the number of entries removed is
   * reported (what the source prints).
   */
  method CleanupLogs(disk: Disk, now: int, parse: Parse) returns (report: seq<(string, nat)>)
    modifies disk
    ensures disk.files == CleanedDisk(old(disk.files), LogFiles, now, parse)
    ensures report == Removals(old(disk.files), LogFiles, now, parse)
  {
    ghost var original := disk.files;
    report := [];
    var i := 0;
    while i < |LogFiles|
      invariant 0 <= i <= |LogFiles|
      invariant disk.files == CleanedDisk(original, LogFiles[..i], now, parse)
      invariant report == Removals(original, LogFiles[..i], now, parse)
    {
      var logFile := LogFiles[i];
      LogFilesDistinct(i);
      assert LogFiles[..i + 1] == LogFiles[..i] + [logFile];
      CleanedDiskStep(original, LogFiles[..i], logFile, now, parse);
      RemovalsStep(original, LogFiles[..i], logFile, now, parse);
      if logFile in disk.files {
        var logData := EntriesOf(disk.files[logFile]);
        var newLogData := Kept(logData, now, parse);
        disk.files := disk.files[logFile := Decoded(newLogData)];
        report := report + [(logFile, |logData| - |newLogData|)];
      }
      i := i + 1;
    }
    assert LogFiles[..i] == LogFiles;
  }
}
