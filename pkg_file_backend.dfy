/** The `FileBackend` of pkg/logger/file_backend.go: the same initialisation, line format and
    closing as the logger package's backend, with reading and clearing left as stubs that fail. */
module PkgFileBackend {
  import opened Wrappers
  import opened Errors
  import opened Os
  import opened Interface
  import opened LogConfig
  import opened LineCodec
  import LoggerFileBackend

  class FileBackend {
    var config: FileConfig
    var file: Option<Handle>
    /** The text of the file at `config.filePath`. */
    var disk: string

    constructor ()
      ensures config == FileConfig("", 0) && file == None && disk == ""
    {
      config := FileConfig("", 0);
      file := None;
      disk := "";
    }

    method Init(settings: Settings, existing: string, fs: FsOutcome) returns (r: Outcome<LogError>)
      modifies this
      ensures r == LoggerFileBackend.InitOutcome(settings, fs)
      ensures config == if settings.FileSettings? then settings.file else old(config)
      ensures r.Pass? ==> file == Some(Live) && disk == existing
      ensures r.Fail? ==> file == old(file) && disk == old(disk)
    {
      if !settings.FileSettings? {
        return Fail(InvalidConfig("file"));
      }
      config := settings.file;
      match fs {
        case MkdirFails => return Fail(MkdirFailed);
        case OpenFails => return Fail(OpenFailed);
        case FsOk =>
      }
      file := Some(Live);
      disk := existing;
      return Pass;
    }

    method Write(e: LogEntry) returns (r: Outcome<LogError>)
      modifies this`disk
      ensures file.None? ==> r == Fail(NotInitialized) && disk == old(disk)
      ensures file == Some(Closed) ==> r == Fail(WriteFailed(FileAlreadyClosed)) && disk == old(disk)
      ensures file == Some(Live) ==> r == Pass && disk == old(disk) + EncodeEntry(e)
    {
      if file.None? {
        return Fail(NotInitialized);
      }
      if file.value == Closed {
        return Fail(WriteFailed(FileAlreadyClosed));
      }
      disk := disk + EncodeEntry(e);
      return Pass;
    }

    /** Not implemented: an empty list together with an error, whatever the file holds. */
    method Read(level: LogLevel, filter: LogFilter) returns (logs: seq<LogEntry>, err: LogError)
      ensures logs == [] && err == ReadNotImplemented
    {
      return [], ReadNotImplemented;
    }

    /** Not implemented: always an error, and the file is left alone. */
    method ClearLogs(before: int) returns (r: Outcome<LogError>)
      ensures r == Fail(ClearNotImplemented)
    {
      return Fail(ClearNotImplemented);
    }

    method Close() returns (r: Outcome<LogError>)
      modifies this`file
      ensures file == None
      ensures r == if old(file) == Some(Closed) then Fail(FileAlreadyClosed) else Pass
    {
      if file.Some? {
        r := if file.value == Closed then Fail(FileAlreadyClosed) else Pass;
        file := None;
        return r;
      }
      return Pass;
    }
  }

  /** A second `Close` after a first one has nothing to close and succeeds. */
  method CloseTwice(fb: FileBackend) returns (first: Outcome<LogError>, second: Outcome<LogError>)
    modifies fb
    ensures fb.file == None && second == Pass
    ensures first == if old(fb.file) == Some(Closed) then Fail(FileAlreadyClosed) else Pass
  {
    first := fb.Close();
    second := fb.Close();
  }
}
