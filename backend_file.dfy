/** The `FileBackend` of logger/backend_file.go: a handle on one log file, the rendering of entries
    as lines, and reading, retention and closing over the file's text. */
module LoggerFileBackend {
  import opened Wrappers
  import opened SeqFacts
  import opened Errors
  import opened Os
  import opened Interface
  import opened LogConfig
  import opened Text
  import opened LineCodec

  /** What `Init` returns for the given settings when the file system behaves as `fs` says. */
  function InitOutcome(settings: Settings, fs: FsOutcome): Outcome<LogError> {
    if !settings.FileSettings? then Fail(InvalidConfig("file"))
    else match fs {
      case FsOk => Pass
      case MkdirFails => Fail(MkdirFailed)
      case OpenFails => Fail(OpenFailed)
    }
  }

  /** The selection loop of `ClearLogs`: the entries of `logs` stamped strictly after `before`,
      in their order. */
  method KeepNewer(logs: seq<LogEntry>, before: int) returns (kept: seq<LogEntry>)
    ensures kept == Kept(logs, before)
  {
    kept := [];
    for i := 0 to |logs|
      invariant kept == Kept(logs[..i], before)
    {
      assert logs[..i + 1][..i] == logs[..i] && logs[..i + 1][i] == logs[i];
      if logs[i].timestamp > before {
        kept := kept + [logs[i]];
      }
    }
    assert logs[..|logs|] == logs;
  }

  class FileBackend {
    var config: FileConfig
    /** `fb.file`: nil, or an `*os.File` open for writing. */
    var file: Option<Handle>
    /** The text of the log file, the one the handle was opened on; `Read` reads the same text. */
    var disk: string

    /** `&FileBackend{}`. */
    constructor ()
      ensures config == FileConfig("", 0) && file == None && disk == ""
    {
      config := FileConfig("", 0);
      file := None;
      disk := "";
    }

    /** Takes a `FileConfig`, creates the directory, and opens the file for appending; the
        file's earlier text, `existing` (empty for a new file), is kept. */
    method Init(settings: Settings, existing: string, fs: FsOutcome) returns (r: Outcome<LogError>)
      modifies this
      ensures r == InitOutcome(settings, fs)
      ensures config == if settings.FileSettings? then settings.file else old(config)
      ensures r.Pass? ==> file == Some(Live) && disk == existing
      ensures r.Fail? ==> file == old(file) && disk == old(disk)
    {
      if !settings.FileSettings? {
        return Fail(InvalidConfig("file"));
      }
      config := settings.file;
      match fs {
        case MkdirFails => return Fail(MkdirFailed);
        case OpenFails => return Fail(OpenFailed);
        case FsOk =>
      }
      file := Some(Live);
      disk := existing;
      return Pass;
    }

    /** What one `Write(e)` that returned `r` did: a nil handle fails and a closed file rejects the
        write, both leaving the file as it was; an open file gains the entry's line. */
    twostate predicate WroteEntry(e: LogEntry, new r: Outcome<LogError>)
      reads this
    {
      && config == old(config) && file == old(file)
      && match old(file) {
           case None => r == Fail(NotInitialized) && disk == old(disk)
           case Some(h) =>
             if h == Live then r == Pass && disk == old(disk) + EncodeEntry(e)
             else r == Fail(WriteFailed(FileAlreadyClosed)) && disk == old(disk)
         }
    }

    method Write(e: LogEntry) returns (r: Outcome<LogError>)
      modifies this`disk
      ensures WroteEntry(e, r)
    {
      if file.None? {
        return Fail(NotInitialized);
      }
      if file.value == Closed {
        return Fail(WriteFailed(FileAlreadyClosed));
      }
      disk := disk + EncodeEntry(e);
      return Pass;
    }

    /** Re-reads the whole file: unreadable lines are skipped, then the level and the filter are
        applied, and the survivors are returned in file order. */
    method Read(level: LogLevel, filter: LogFilter) returns (r: Result<seq<LogEntry>, LogError>)
      ensures file.None? ==> r == Err(NotInitialized)
      ensures file.Some? ==> r == Ok(Query(Lines(disk), level, filter))
    {
      if file.None? {
        return Err(NotInitialized);
      }
      var lines := Lines(disk);
      var results: seq<LogEntry> := [];
      var i := 0;
      while i < |lines|
        invariant 0 <= i <= |lines|
        invariant results == Query(lines[..i], level, filter)
      {
        var line := lines[i];
        i := i + 1;
        assert lines[..i][..i - 1] == lines[..i - 1];
        var parsed := ParseLine(line);
        if parsed.None? {
          continue;
        }
        var entry := parsed.value;
        assert ParseAll(lines[..i]) == ParseAll(lines[..i - 1]) + [entry];
        LastSplit(ParseAll(lines[..i]));
        if level != "" && entry.level != level {
          continue;
        }
        if !ApplyFilter(entry, filter) {
          continue;
        }
        results := results + [entry];
      }
      assert lines[..i] == lines;
      return Ok(results);
    }

    /** What one `ClearLogs(before)` that returned `r` did: with a handle, the file is closed and
        reopened truncated; if that succeeds it holds exactly the re-encoded entries strictly after
        `before`, in their old order, and otherwise it is unchanged behind a closed handle. */
    twostate predicate Cleared(before: int, reopenOk: bool, new r: Outcome<LogError>)
      reads this
    {
      && config == old(config)
      && if old(file).None? then r == Fail(NotInitialized) && file == None && disk == old(disk)
         else if !reopenOk then r == Fail(TruncateFailed) && file == Some(Closed) && disk == old(disk)
         else r == Pass && file == Some(Live) && disk == EncodeAll(Kept(ParseAll(Lines(old(disk))), before))
    }

    /** Keeps only entries strictly after `before`. `reopenOk` says whether reopening the file
        truncated succeeds. The source takes the backend's mutex here and then calls `Read` and
        `Write`, which take the same non-reentrant mutex again, so as written it blocks; this
        models the read-keep-rewrite it is meant to perform. */
    method ClearLogs(before: int, reopenOk: bool) returns (r: Outcome<LogError>)
      modifies this`file, this`disk
      ensures Cleared(before, reopenOk, r)
    {
      if file.None? {
        return Fail(NotInitialized);
      }
      var logs := Read("", NoFilter);
      SelectEverything(ParseAll(Lines(disk)));
      var kept := KeepNewer(logs.value, before);
      file := Some(Closed);
      if !reopenOk {
        return Fail(TruncateFailed);
      }
      file := Some(Live);
      disk := "";
      Rewrite(kept);
      assert "" + EncodeAll(kept) == EncodeAll(kept);
      return Pass;
    }

    /** The rewrite loop of `ClearLogs`: each entry of `kept` is written in turn to the open file. */
    method Rewrite(kept: seq<LogEntry>)
      requires file == Some(Live)
      modifies this`disk
      ensures disk == old(disk) + EncodeAll(kept)
    {
      for i := 0 to |kept|
        invariant disk == old(disk) + EncodeAll(kept[..i])
      {
        assert kept[..i + 1][..i] == kept[..i] && kept[..i + 1][i] == kept[i];
        AppendAssoc(old(disk), EncodeAll(kept[..i]), EncodeEntry(kept[i]));
        var w := Write(kept[i]);
      }
      assert kept[..|kept|] == kept;
    }

    /** Closes and drops the handle. Without a handle there is nothing to do; a file that was
        already closed reports so. */
    method Close() returns (r: Outcome<LogError>)
      modifies this`file
      ensures file == None
      ensures r == if old(file) == Some(Closed) then Fail(FileAlreadyClosed) else Pass
    {
      if file.Some? {
        r := if file.value == Closed then Fail(FileAlreadyClosed) else Pass;
        file := None;
        return r;
      }
      return Pass;
    }
  }
}
