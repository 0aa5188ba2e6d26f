# aidmslog logging core in Dafny

This project models the core of the `aidmslog` Go logging library. A `LogManager` accepts log
entries, either synchronously or through a bounded asynchronous queue served by one consumer. It
hands each entry to a storage backend and then to every registered `LogHandler`. The file backend
of the `logger` package writes one text line per entry. It reads the file back through a tolerant
line parser with a level match and a `LogFilter`, and it implements retention (`ClearLogs`) by
rewriting the file. The older `pkg/logger` file backend opens and appends to its file in the same
way, but its `Read` and `ClearLogs` are stubs that report "not implemented". The SQL backend is a
stub behind the same interface.

The model is organised by source file:

| module | file | what it holds |
|---|---|---|
| `Interface` | logger/interface.go | levels (an open `string` type), `LogEntry`, `LogFilter`, handlers and the record of their `Handle` calls |
| `LogConfig` | pkg/logger/config.go | backend kinds, `Config`, `FileConfig`, `SQLConfig`, the two default constructors |
| `Text` | (Go's `strings`, `fmt`, `bufio`) | `strings.TrimSpace`, `strings.Index`, `strings.Contains`, `%-5s` padding, `bufio.ScanLines` |
| `Timestamps` | (Go's `time`) | an integer-seconds timestamp with a concrete rendering and its parser |
| `LineCodec` | logger/backend_file.go | the line format, the line parser, `applyFilter`, the selection `Read` makes and the one `ClearLogs` keeps, with their laws |
| `LoggerFileBackend` | logger/backend_file.go | class `FileBackend`: `Init`, `Write`, `Read`, `ClearLogs`, `Close` |
| `PkgFileBackend` | pkg/logger/file_backend.go | class `FileBackend` with the unimplemented `Read`/`ClearLogs` |
| `SqlBackend` | pkg/logger/sql_backend.go | class `SQLBackend` |
| `Manager` | logger/log_manager.go | class `LogManager` and `NewLogManager` |
| `Scenarios` | logger/log_manager_test.go | the graceful-shutdown and handler scenarios of the test file |

The file is modelled as its whole text (`disk`). It is split into lines exactly as
`bufio.ScanLines` splits it. The `*os.File` handle is `None` (nil), `Some(Live)` or `Some(Closed)`.
The last of these is a non-nil file that has been closed, which is the state `ClearLogs` leaves
behind when reopening fails. The manager's channel is a `seq` field with capacity 1000. The
consumer goroutine's loop body is the method `Step`. Closing the `done` channel and waiting for
the consumer is `Close`, which runs the drain (`Drain`).

The manager carries the invariant `Valid()`:

- `processed + queue == accepted`;
- `|queue| <= 1000`;
- only an async manager with a backend has a consumer, and only such a manager buffers.

`processed` and `accepted` are ghost traces: the entries finished by the pipeline and the entries
whose `WriteLog` succeeded. From the invariant, `Close` proves:

- every accepted entry has been processed, in acceptance order;
- the handlers have been called, in one block per entry and in FIFO order;
- when the file backend's handle was open (`Some(Live)`), the file has gained exactly the encodings of the queued entries, in order; a nil or closed handle gains nothing.

An entry is *representable* (`LineCodec.Representable`) when its level and message have no white
space at either end and no line break, and its level holds no `:`. Only such entries survive a
write and a read back unchanged: a message `"a "` is read back as `"a"`, a level holding `:` is
split at that colon, and a line break in a message makes two scanner lines. The round-trip laws
below hold for representable entries.

Inputs the library gets from its environment are parameters:

| input | parameter |
|---|---|
| the clock | `now` of `LogManager.WriteLog` |
| the outcome of `os.MkdirAll`/`os.OpenFile` | `fs: FsOutcome` |
| an existing file's contents | `existing` |
| whether reopening for truncation works | `reopenOk` |

## Model

| member | source | states |
|---|---|---|
| Text.TrimSpace | logger/backend_file.go:125 | the result has no white space at either end, and text already without it is returned unchanged |
| Text.TrimSpacePadded | logger/backend_file.go:131-132 | trimming white-space runs off both ends of trimmed text gives that text back |
| Text.TrimSpaceAroundColon | logger/backend_file.go:125-126 | trimming text that holds a `:` trims only the outer ends of the two sides around it and keeps the `:` |
| Text.TrimSpaceSubstring | logger/backend_file.go:125-132 | trimming never introduces a character absent from the input |
| Text.IndexOf | logger/backend_file.go:114-117 | `None` exactly when the character is absent; otherwise the position of its first occurrence |
| Text.Contains | logger/backend_file.go:66 | true exactly when the pattern occurs at some position of the text |
| Text.PadRight | logger/backend_file.go:54 | `%-5s`: the text followed by spaces up to the width, never truncated; length is the larger of the two |
| Text.DropCR | logger/backend_file.go:102-103 | removes exactly one final carriage return when the line ends in one, and nothing otherwise |
| Text.Lines | logger/backend_file.go:99-103 | `bufio.ScanLines`: no line contains a line break |
| Text.LinesAppend | logger/backend_file.go:99-103 | the lines of a text ending in a line break followed by more text are the lines of each part |
| Text.LinesOfLine | logger/backend_file.go:99-103 | one line and its line break split into exactly that line, without a final carriage return |
| Timestamps.FormatTS | logger/backend_file.go:53 | the rendering is non-empty and holds no `]` or line break; its alphabet of digits and `-` is that of the decimal stand-in, not of RFC 3339 |
| Timestamps.ParseTS | logger/backend_file.go:120 | the stand-in for `time.Parse` of the bracketed text: it accepts only non-empty text in its own decimal alphabet of digits and `-`, and rejects anything else |
| Timestamps.ParseFormat | logger/backend_file.go:119-123 | parsing a rendered timestamp gives back that timestamp |
| Interface.Fanout | logger/log_manager.go:83-85 | one `Handle` call per handler of the snapshot, in registration order, each with the same entry |
| Interface.FanoutEach | logger/log_manager.go:87-105 | notifying a handler list of a sequence of entries makes as many calls as handlers times entries |
| Interface.FanoutEachAppend | logger/log_manager.go:87-105 | the calls for `a + b` are the calls for `a` followed by those for `b` |
| Interface.FanoutEachBlock | logger/log_manager.go:87-105 | the calls for entry `i` form one block, after one call per handler for each earlier entry, notifying every handler in order |
| Interface.LevelsDistinct | logger/interface.go:10-15 | there are four level constants and they are pairwise distinct |
| LogConfig.DefaultFileConfig | pkg/logger/config.go:36-41 | path `./logs/app.log` and size 10 MB |
| LogConfig.DefaultSQLConfig | pkg/logger/config.go:44-50 | the given DSN unchanged, table `logs`, driver `mysql` |
| LogConfig.BackendKindsDistinct | pkg/logger/config.go:7-10 | the kinds `file` and `sql` differ |
| LineCodec.EntryLine | logger/backend_file.go:53-54 | the line `[<timestamp>] <level padded to 5>: <message>`, which always starts with `[` |
| LineCodec.EncodeEntry | logger/backend_file.go:53-54 | the text `Write` appends: the entry's line followed by a line break, so it is non-empty and line-terminated |
| LineCodec.ParseLine | logger/backend_file.go:104-138 | the per-line parser: an entry is read only from a line that starts with `[` and holds a `]`, and its level and message have no white space at either end |
| LineCodec.ParseAll | logger/backend_file.go:102-151 | the scanner loop without the selection: the entries of the parseable lines in file order, never more entries than lines |
| LineCodec.EncodeAll | logger/backend_file.go:192-196 | the text written for a sequence of entries ends in a line break (or is empty) |
| LineCodec.ApplyFilter | logger/backend_file.go:64-81 | keeps an entry exactly when the message contains the pattern (or it is empty), and the timestamp is at or after the start and at or before the end (each bound only when present) |
| LineCodec.LevelField | logger/backend_file.go:54 | the level field is the level followed by spaces up to width 5, never shorter than the level |
| LineCodec.EncodeEntryOneLine | logger/backend_file.go:53-54 | for a level and message without line breaks, the text `Write` appends is exactly one scanner line |
| LineCodec.BracketOfLine | logger/backend_file.go:110-119 | a written line starts with `[` and its first `]` closes exactly the timestamp |
| LineCodec.TailSplits | logger/backend_file.go:125-132 | for a representable entry, the first `:` after the bracket separates text that trims to the level from text that trims to the message |
| LineCodec.ParseEntryLine | logger/backend_file.go:104-138 | for a level without outer white space, `:` or line break and a message without outer white space or line break, parsing a written line gives back the same entry, even when the message holds colons |
| LineCodec.ParsedRepresentable | logger/backend_file.go:125-138 | whatever the parser reads from a line satisfies the conditions under which it is read back unchanged |
| LineCodec.SkippedLines | logger/backend_file.go:104-117 | empty lines, lines not starting with `[` and lines without `]` are skipped |
| LineCodec.BadTimestampSkipped | logger/backend_file.go:119-123 | a line whose bracketed text is not a timestamp is skipped |
| LineCodec.NoColonSkipped | logger/backend_file.go:125-129 | a line with no `:` after its bracket is skipped |
| LineCodec.ParseAllAppend | logger/backend_file.go:102-151 | reading two runs of lines gives the entries of the first followed by those of the second |
| LineCodec.MalformedLineIgnored | logger/backend_file.go:102-129 | a skipped line between others changes nothing in what is read |
| LineCodec.AppendedEntry | logger/backend_file.go:45-61 | one write of a representable entry to a line-terminated file adds exactly that entry at the end of what is read back |
| LineCodec.AppendedEntries | logger/backend_file.go:45-61 | writing a sequence of representable entries to a line-terminated file adds exactly that sequence, in order, to what is read back |
| LineCodec.ParseEncodeAll | logger/backend_file.go:84-158 | for representable entries, reading the text written for a sequence of them gives that sequence |
| LineCodec.ParseAllRepresentable | logger/backend_file.go:102-138 | every entry read from a file can be written and read back unchanged |
| LineCodec.Select | logger/backend_file.go:140-150 | the two `continue` checks: every returned entry passes the level check (`LineCodec.LevelMatches`: the empty level or an equal level) and `applyFilter`, and there are at most as many results as entries read (`LineCodec.SelectMembers` gives membership) |
| LineCodec.Query | logger/backend_file.go:102-151 | what `Read` returns for a file's lines: at most one entry per line, each passing the level check and the filter |
| LineCodec.SelectAppend | logger/backend_file.go:140-150 | the selection is made entry by entry, so it distributes over concatenation and keeps file order |
| LineCodec.SelectMembers | logger/backend_file.go:140-150 | an entry is returned exactly when it was read and matches both the level and the filter |
| LineCodec.SelectEverything | logger/backend_file.go:170 | the empty level with the zero filter returns every entry read |
| LineCodec.LevelSelects | logger/backend_file.go:141-143 | a non-empty level returns exactly the entries whose level equals it |
| LineCodec.Kept | logger/backend_file.go:176-181 | the retention selection: every kept entry is strictly after the cut-off, and there are at most as many as were read (`LineCodec.KeptMembers` gives membership) |
| LineCodec.KeptAppend | logger/backend_file.go:176-181 | retention decides entry by entry, so it distributes over concatenation and keeps file order |
| LineCodec.KeptMembers | logger/backend_file.go:176-181 | retention keeps an entry exactly when its timestamp is strictly after the cut-off |
| LineCodec.KeptRepresentable | logger/backend_file.go:176-181 | retention keeps only entries that were already representable |
| LineCodec.ClearedFileReadsBack | logger/backend_file.go:170-196 | reading the rewritten file gives exactly the old file's entries strictly after the cut-off, in order |
| LineCodec.KnownLevelFits | logger/interface.go:11-14 | each named level has 1 to 5 characters and no white space, `:` or line break |
| LineCodec.KnownLevelRoundTrip | logger/interface.go:11-14 | a named level is padded to exactly five characters and read back unchanged |
| LoggerFileBackend.KeepNewer | logger/backend_file.go:176-181 | the selection loop returns exactly the retained entries, in order |
| LoggerFileBackend.FileBackend.constructor | logger/log_manager.go:38 | the zero backend has no handle |
| LoggerFileBackend.FileBackend.Init | logger/backend_file.go:21-43 | a non-file config fails without storing it; otherwise the config is stored first, and a directory or open failure leaves the handle as it was, while success opens the file for appending to its existing text |
| LoggerFileBackend.FileBackend.Write | logger/backend_file.go:45-61 | without a handle: error, nothing written; a closed file: write error, nothing written; an open file: exactly the entry's line appended |
| LoggerFileBackend.FileBackend.Read | logger/backend_file.go:84-158 | without a handle: error; otherwise the parseable entries of the file that match level and filter, in file order |
| LoggerFileBackend.FileBackend.Rewrite | logger/backend_file.go:192-196 | the rewrite loop appends the encodings of the kept entries in order |
| LoggerFileBackend.FileBackend.ClearLogs | logger/backend_file.go:161-199 | without a handle: error, nothing changed; failed reopen: error, file unchanged behind a closed handle; otherwise the file holds exactly the re-encoded entries strictly after the cut-off, in order, and the handle is open |
| LoggerFileBackend.FileBackend.Close | logger/backend_file.go:201-211 | the handle becomes nil; closing an already closed file reports it, closing nothing succeeds |
| PkgFileBackend.FileBackend.Init | pkg/logger/file_backend.go:19-41 | the same outcome as the logger package's `Init`; a non-file config leaves the handle unset |
| PkgFileBackend.FileBackend.Write | pkg/logger/file_backend.go:43-59 | without a handle: error and nothing written; an open file: the same line as the logger package encoder |
| PkgFileBackend.FileBackend.Read | pkg/logger/file_backend.go:61-64 | always an empty list with a not-implemented error |
| PkgFileBackend.FileBackend.ClearLogs | pkg/logger/file_backend.go:66-69 | always a not-implemented error, and nothing changes |
| PkgFileBackend.FileBackend.Close | pkg/logger/file_backend.go:71-81 | the handle becomes nil |
| PkgFileBackend.CloseTwice | pkg/logger/file_backend.go:71-81 | a second `Close` succeeds |
| SqlBackend.SQLBackend.constructor | logger/log_manager.go:40 | `&SQLBackend{}` holds the zero `SQLConfig` |
| SqlBackend.SQLBackend.Init | pkg/logger/sql_backend.go:16-33 | succeeds exactly for an SQL config, which it stores; otherwise errors and keeps the old config |
| SqlBackend.SQLBackend.Write | pkg/logger/sql_backend.go:35-38 | always succeeds and changes nothing |
| SqlBackend.SQLBackend.Read | pkg/logger/sql_backend.go:40-43 | an empty list and no error, whatever the level and filter |
| SqlBackend.SQLBackend.ClearLogs | pkg/logger/sql_backend.go:45-48 | always succeeds and changes nothing |
| SqlBackend.SQLBackend.Close | pkg/logger/sql_backend.go:50-56 | always succeeds and changes nothing |
| Manager.WriteTo | logger/log_manager.go:71 | dispatches one write to the backend variant with that variant's effect |
| Manager.LogManager.ValidSplitsAccepted | logger/log_manager.go:53-57 | under the invariant `processed + queue == accepted`, the processed entries are the oldest accepted ones, the 1000-slot buffer holds the rest in order, and only an async manager with a backend buffers |
| Manager.LogManager.constructor | logger/log_manager.go:27-30 | a manager with the config, no backend, no handlers and an empty buffer |
| Manager.LogManager.Notify | logger/log_manager.go:77-85 | one `Handle` call per currently registered handler, in order |
| Manager.LogManager.Step | logger/log_manager.go:69-85 | with an empty buffer nothing happens; otherwise the oldest entry leaves the buffer, is written (its error only reported), and every handler is notified of it; the invariant is kept |
| Manager.LogManager.WriteLog | logger/log_manager.go:111-147 | no backend: error; async: appended at the tail when fewer than 1000 are buffered, otherwise rejected with nothing changed; sync: written, and only on success accepted and notified; the invariant is kept |
| Manager.LogManager.ReadLogs | logger/log_manager.go:149-154 | no backend: error; otherwise exactly the backend's `Read` result |
| Manager.LogManager.ClearLogs | logger/log_manager.go:156-161 | no backend: error; otherwise exactly the backend's `ClearLogs` effect and result |
| Manager.LogManager.RegisterLogHandler | logger/log_manager.go:163-167 | the handler is appended at the end of the list |
| Manager.LogManager.Drain | logger/log_manager.go:87-105 | the buffer empties; the handlers are notified of each buffered entry in FIFO order; an open file gains exactly their encodings, and a nil or closed handle gains nothing |
| Manager.LogManager.Close | logger/log_manager.go:169-181 | afterwards every accepted entry has been processed in acceptance order, the buffer is empty, and the backend is closed with its `Close` result returned |
| Manager.NewLogManager | logger/log_manager.go:26-60 | an unknown kind fails before any backend exists; an `Init` failure is wrapped and no manager is returned; on success a fresh valid manager holds the initialised backend, an empty buffer and a consumer exactly in async mode |
| Scenarios.ShutdownEntriesRepresentable | logger/log_manager_test.go:215-216 | the shutdown run's messages `Log <i>` can be written and read back |
| Scenarios.GracefulShutdown | logger/log_manager_test.go:214-223 | 1000 async writes with no consumer turn are all accepted; `Close` succeeds and the file holds the 1000 lines, which read back as the entries in order |
| Scenarios.HandlerWrites | logger/log_manager_test.go:178-187 | after registering a handler, all three async writes are buffered |
| Scenarios.HandlerSeesEveryEntry | logger/log_manager_test.go:178-193 | after three consumer steps the handler has seen exactly the three entries, in write order |

## Left out

- Goroutines, channels, `select`, `sync.Mutex` and `sync.WaitGroup` are not modelled. The pipeline is a sequential state machine whose consumer runs only when `Step` or `Close` is called, so interleavings between producers are not modelled.
- Manager.LogManager.WriteLog: the 100 ms wait for space in a full channel is not modelled, because it is wall-clock concurrency. A full buffer rejects the entry at once.
- Manager.LogManager.WriteLog and Manager.LogManager.Close require that `Close` has not already run in async mode. Otherwise the source panics: it sends on a closed channel, or closes `done` twice.
- The `fmt.Printf` diagnostic of a failed asynchronous write is not modelled. `Step` returns the write result instead.
- The backend and handler interfaces are not modelled as interfaces. The backend is a two-variant datatype (file or SQL). A handler is known only by its identity, and its `Handle` calls are recorded in `notified`. What a handler does is outside the model.
- LoggerFileBackend.FileBackend.Write: an OS error from writing to an open file is not modelled. Writes to an open file succeed; only a nil or closed handle makes them fail.
- LoggerFileBackend.FileBackend.Read: a failure to open the file for reading, and the scanner's token-size error, are not modelled. The file's text is read from `disk`.
- LoggerFileBackend.FileBackend.ClearLogs: the error paths after `Read` and after a rewrite `Write` cannot occur in the model, because neither operation fails on an open handle here. The error of closing the old handle is ignored, as in the source.
- LoggerFileBackend.FileBackend.ClearLogs: as written, the source locks the backend's mutex and then calls `Read` and `Write`, which lock the same non-reentrant mutex again, so the call never returns. The model performs the read, keep and rewrite that the code evidently intends.
- Timestamps.FormatTS: the RFC 3339 rendering (section 5.6 of RFC 3339) and calendar arithmetic are not modelled. A timestamp is an integer number of seconds written in signed decimal, and it keeps the properties the format relies on: it round-trips and holds no `]` or line break.
- Timestamps.ParseFormat: timestamps are whole seconds, so the loss of sub-second precision when an entry is written and read back is not modelled.
- Go strings are byte strings, while a Dafny `string` is a sequence of Unicode scalar values. Invalid UTF-8 cannot be represented, and `strings.Index`, the rune-width padding of `%-5s` and `strings.TrimSpace` agree with the model only on valid UTF-8.
- `Metadata` of `LogEntry` is not modelled, because no backend writes or reads it.
- `MaxFileSizeMB` is recorded in `FileConfig` but never read or enforced, because the source has no rotation.
- `DefaultLevel` is recorded in `Config` but never read, because the source never uses it.
- A second `Init` on a file backend replaces the handle. The model does not track the old `*os.File` left open. `Init` stores the new config before the directory and open outcome is known, so after a failed second `Init` with a new path the source's `Read` opens the new path (logger/backend_file.go:93) while `Write` still appends through the old handle. The model keeps one `disk` for both and does not capture that split.
- The SQL backend has no database connection or schema, because the source has none.
- The demo programs are not modelled.
- The concurrent test of logger/log_manager_test.go (ten goroutines) and the timing comparison are not modelled. The sleeps of the test file become explicit `Step` calls.

## Notes on the code's behaviour

- `LogLevel` is an open `string` type. Any text is a level, including the empty text that `Read` treats as "all levels", and the parser returns whatever trimmed text it finds before the first `:`.
- `BackendConfig` is an untyped value checked by a type assertion, so the model's `Settings` has a third case, for a value that is neither a `FileConfig` nor an `SQLConfig`.
- Retention re-encodes entries from what was parsed, so malformed lines vanish, trimmed white space stays trimmed, and timestamps keep second precision only. `LineCodec.ClearedFileReadsBack` states what survives.
