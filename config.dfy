/** Backend kinds and configuration records of pkg/logger/config.go. */
module LogConfig {
  import opened Interface

  type BackendType = string

  const BackendFile: BackendType := "file"
  const BackendSQL: BackendType := "sql"

  datatype FileConfig = FileConfig(filePath: string, maxFileSizeMB: int)

  datatype SQLConfig = SQLConfig(dsn: string, tableName: string, driver: string)

  /** The untyped `BackendConfig interface{}` payload, by the dynamic type it holds. */
  datatype Settings = FileSettings(file: FileConfig) | SQLSettings(sql: SQLConfig) | OtherSettings

  /** `DefaultLevel` is recorded and never read. */
  datatype Config = Config(backend: BackendType, backendConfig: Settings, async: bool, defaultLevel: LogLevel)

  function DefaultFileConfig(): (c: FileConfig)
    ensures c.filePath == "./logs/app.log" && c.maxFileSizeMB == 10
  {
    FileConfig("./logs/app.log", 10)
  }

  function DefaultSQLConfig(dsn: string): (c: SQLConfig)
    ensures c.dsn == dsn
    ensures c.tableName == "logs" && c.driver == "mysql"
  {
    SQLConfig(dsn, "logs", "mysql")
  }

  /** The two backend kinds are different strings. */
  lemma BackendKindsDistinct()
    ensures BackendFile != BackendSQL
  {
  }
}
