/** The `SQLBackend` of pkg/logger/sql_backend.go: it checks and keeps its configuration, and every
    other operation is a placeholder that succeeds without touching any database. */
module SqlBackend {
  import opened Wrappers
  import opened Errors
  import opened Interface
  import opened LogConfig

  class SQLBackend {
    var config: SQLConfig

    constructor ()
      ensures config == SQLConfig("", "", "")
    {
      config := SQLConfig("", "", "");
    }

    /** Accepts only an `SQLConfig`, and stores it; any other value is rejected and the stored
        configuration stays as it was. */
    method Init(settings: Settings) returns (r: Outcome<LogError>)
      modifies this
      ensures r.Pass? <==> settings.SQLSettings?
      ensures r.Fail? ==> r.error == InvalidConfig("SQL") && config == old(config)
      ensures r.Pass? ==> config == settings.sql
    {
      if !settings.SQLSettings? {
        return Fail(InvalidConfig("SQL"));
      }
      config := settings.sql;
      return Pass;
    }

    method Write(e: LogEntry) returns (r: Outcome<LogError>)
      ensures r == Pass
    {
      return Pass;
    }

    /** Nothing is stored, so nothing is read back, and no error is reported. */
    method Read(level: LogLevel, filter: LogFilter) returns (r: Result<seq<LogEntry>, LogError>)
      ensures r == Ok([])
    {
      return Ok([]);
    }

    method ClearLogs(before: int) returns (r: Outcome<LogError>)
      ensures r == Pass
    {
      return Pass;
    }

    method Close() returns (r: Outcome<LogError>)
      ensures r == Pass
    {
      return Pass;
    }
  }
}
