/** The error values the logger's operations return, one constructor per distinct message. */
module Errors {
  datatype LogError =
    | InvalidConfig(kind: string)          // "invalid config type for <kind> backend"
    | MkdirFailed                          // "failed to create log directory: ..."
    | OpenFailed                           // "failed to open log file: ..."
    | NotInitialized                       // "file backend not initialized"
    | FileAlreadyClosed                    // os.ErrClosed from an *os.File that was closed
    | WriteFailed(cause: LogError)         // "failed to write log: %w"
    | TruncateFailed                       // "failed to truncate log file: ..."
    | ReadNotImplemented                   // "read not implemented for file backend"
    | ClearNotImplemented                  // "clear logs not implemented for file backend"
    | UnsupportedBackend(backend: string)  // "unsupported backend type: %s"
    | InitFailed(cause: LogError)          // "failed to initialize backend: %w"
    | BackendMissing                       // manager: "backend not initialized"
    | ChannelFull                          // "log channel is full, log may be dropped"
}
