/** The manager of logger/log_manager.go, as a sequential state machine. The buffered channel
    becomes the `queue` field, the consumer goroutine's iteration becomes `Step`, and the
    handlers' `Handle` calls are recorded, in order, in `notified`. */
module Manager {
  import opened Wrappers
  import opened SeqFacts
  import opened Errors
  import opened Os
  import opened Interface
  import opened LogConfig
  import opened Text
  import opened LineCodec
  import LoggerFileBackend
  import SqlBackend

  /** The buffer size of `logChannel`. */
  const QueueCapacity: nat := 1000

  /** The backend a manager dispatches to: one of the two known kinds. */
  datatype Backend = File(fb: LoggerFileBackend.FileBackend) | Sql(sb: SqlBackend.SQLBackend)
  {
    function Objects(): set<object> {
      match this
      case File(fb) => {fb}
      case Sql(sb) => {sb}
    }
  }

  /** What one `backend.Write(e)` that returned `r` did. */
  twostate predicate BackendWrote(b: Backend, e: LogEntry, new r: Outcome<LogError>)
    reads b.Objects()
  {
    match b
    case File(fb) => fb.WroteEntry(e, r)
    case Sql(sb) => r == Pass && sb.config == old(sb.config)
  }

  method WriteTo(b: Backend, e: LogEntry) returns (r: Outcome<LogError>)
    modifies b.Objects()
    ensures BackendWrote(b, e, r)
  {
    match b
    case File(fb) => r := fb.Write(e);
    case Sql(sb) => r := sb.Write(e);
  }

  class LogManager {
    const config: Config
    const isAsync: bool
    var backend: Option<Backend>
    /** Registered handlers, in registration order. */
    var handlers: seq<LogHandler>
    /** The entries buffered in `logChannel`, oldest first. */
    var queue: seq<LogEntry>
    /** `logChannel` and `done` exist and the consumer has been started. */
    var workerStarted: bool
    /** `done` has been closed. */
    var stopped: bool
    /** Every `Handle` call made so far, in order. */
    var notified: seq<Notification>
    /** The entries whose `WriteLog` returned success, in order. */
    ghost var accepted: seq<LogEntry>
    /** The entries the pipeline has finished with: written to the backend (successfully or not)
        and handed to a snapshot of the handlers. */
    ghost var processed: seq<LogEntry>

    /** Processed entries followed by queued ones are exactly the accepted entries, in order; only
        an async manager with a backend has a consumer, and only it ever buffers. */
    ghost predicate Valid()
      reads this
    {
      && |queue| <= QueueCapacity
      && processed + queue == accepted
      && (workerStarted <==> isAsync && backend.Some?)
      && (stopped ==> workerStarted && queue == [])
      && (queue != [] ==> workerStarted)
    }

    /** Under the invariant the processed entries are the oldest accepted ones and the buffer holds
        the rest, and only an async manager with a backend has anything buffered. */
    lemma ValidSplitsAccepted()
      requires Valid()
      ensures |processed| <= |accepted| && accepted[..|processed|] == processed
      ensures accepted[|processed|..] == queue
      ensures queue != [] ==> isAsync && backend.Some?
    {
      assert (processed + queue)[..|processed|] == processed;
      assert (processed + queue)[|processed|..] == queue;
    }

    function BackendObjects(): set<object>
      reads this
    {
      if backend.Some? then backend.value.Objects() else {}
    }

    /** `&logManagerImpl{config: config, isAsync: config.Async}`. */
    constructor (config: Config)
      ensures this.config == config && isAsync == config.async
      ensures backend == None && handlers == [] && queue == [] && notified == []
      ensures !workerStarted && !stopped && accepted == [] && processed == []
      ensures Valid()
    {
      this.config := config;
      isAsync := config.async;
      backend := None;
      handlers := [];
      queue := [];
      workerStarted := false;
      stopped := false;
      notified := [];
      accepted := [];
      processed := [];
    }

    /** Calls `Handle(e)` on the handlers registered now, in order, discarding their errors. */
    method Notify(e: LogEntry)
      modifies this`notified
      ensures notified == old(notified) + Fanout(handlers, e)
    {
      var hs := handlers;
      for j := 0 to |hs|
        invariant notified == old(notified) + Fanout(hs[..j], e)
      {
        assert hs[..j + 1][..j] == hs[..j];
        AppendAssoc(old(notified), Fanout(hs[..j], e), [Notification(hs[j], e)]);
        notified := notified + [Notification(hs[j], e)];
      }
      assert hs[..|hs|] == hs;
    }

    /** One iteration of the consumer goroutine. With an empty buffer it stays blocked and
        nothing happens (`None`); otherwise the oldest entry is written to the backend, the write's
        error is only reported (`Some(w)`), and the handlers are notified all the same. */
    method Step() returns (w: Option<Outcome<LogError>>)
      requires Valid() && workerStarted && !stopped
      modifies this`queue, this`notified, this`processed, BackendObjects()
      ensures Valid()
      ensures w.None? <==> old(queue) == []
      ensures w.None? ==> queue == [] && notified == old(notified) && processed == old(processed)
      ensures w.None? ==> unchanged(BackendObjects())
      ensures w.Some? ==> && queue == old(queue)[1..]
                          && processed == old(processed) + [old(queue)[0]]
                          && notified == old(notified) + Fanout(handlers, old(queue)[0])
                          && BackendWrote(backend.value, old(queue)[0], w.value)
    {
      if queue == [] {
        return None;
      }
      var e := queue[0];
      queue := queue[1..];
      processed := processed + [e];
      AppendAssoc(old(processed), [e], queue);
      assert [e] + queue == old(queue);
      var r := WriteTo(backend.value, e);
      Notify(e);
      return Some(r);
    }

    /** `WriteLog` stamped with `now`. Async: the entry joins the tail of the buffer if there is
        room, and is dropped with an error if there is none. Sync: the entry is written at once, and
        only a successful write is followed by notifying the handlers. */
    method WriteLog(level: LogLevel, message: string, now: int) returns (r: Outcome<LogError>)
      requires Valid() && !stopped
      modifies this`queue, this`notified, this`accepted, this`processed, BackendObjects()
      ensures Valid()
      ensures backend.None? ==> r == Fail(BackendMissing)
      ensures backend.None? || isAsync ==>
                notified == old(notified) && processed == old(processed) && unchanged(BackendObjects())
      ensures backend.Some? && isAsync ==>
                && (r.Pass? <==> |old(queue)| < QueueCapacity)
                && (r.Pass? ==> queue == old(queue) + [LogEntry(level, message, now)])
                && (r.Fail? ==> r == Fail(ChannelFull) && queue == old(queue))
      ensures backend.Some? && !isAsync && r.Pass? ==>
                && BackendWrote(backend.value, LogEntry(level, message, now), Pass)
                && processed == old(processed) + [LogEntry(level, message, now)]
                && notified == old(notified) + Fanout(handlers, LogEntry(level, message, now))
      ensures backend.Some? && !isAsync && r.Fail? ==>
                && r.error.WriteFailed?
                && BackendWrote(backend.value, LogEntry(level, message, now), Fail(r.error.cause))
                && processed == old(processed) && notified == old(notified)
      ensures accepted == old(accepted) + (if r.Pass? then [LogEntry(level, message, now)] else [])
    {
      if backend.None? {
        return Fail(BackendMissing);
      }
      var entry := LogEntry(level, message, now);
      if isAsync {
        if |queue| < QueueCapacity {
          queue := queue + [entry];
          accepted := accepted + [entry];
          AppendAssoc(processed, old(queue), [entry]);
          return Pass;
        }
        return Fail(ChannelFull);
      }
      var w := WriteTo(backend.value, entry);
      if w.Fail? {
        return Fail(WriteFailed(w.error));
      }
      accepted := accepted + [entry];
      processed := processed + [entry];
      Notify(entry);
      return Pass;
    }

    /** Passes through to the backend's `Read`. */
    method ReadLogs(level: LogLevel, filter: LogFilter) returns (r: Result<seq<LogEntry>, LogError>)
      ensures backend.None? ==> r == Err(BackendMissing)
      ensures backend.Some? && backend.value.File? ==>
                var fb := backend.value.fb;
                r == if fb.file.None? then Err(NotInitialized) else Ok(Query(Lines(fb.disk), level, filter))
      ensures backend.Some? && backend.value.Sql? ==> r == Ok([])
    {
      if backend.None? {
        return Err(BackendMissing);
      }
      match backend.value
      case File(fb) => r := fb.Read(level, filter);
      case Sql(sb) => r := sb.Read(level, filter);
    }

    /** Passes through to the backend's `ClearLogs`; `reopenOk` is what reopening the file for
        truncation would do. Buffered entries are not affected. */
    method ClearLogs(before: int, reopenOk: bool) returns (r: Outcome<LogError>)
      modifies BackendObjects()
      ensures backend.None? ==> r == Fail(BackendMissing)
      ensures backend.Some? && backend.value.File? ==> backend.value.fb.Cleared(before, reopenOk, r)
      ensures backend.Some? && backend.value.Sql? ==> r == Pass && unchanged(backend.value.sb)
    {
      if backend.None? {
        return Fail(BackendMissing);
      }
      match backend.value
      case File(fb) => r := fb.ClearLogs(before, reopenOk);
      case Sql(sb) => r := sb.ClearLogs(before);
    }

    /** Appends `h`; entries processed from now on are also handed to it. */
    method RegisterLogHandler(h: LogHandler)
      requires Valid()
      modifies this`handlers
      ensures Valid()
      ensures handlers == old(handlers) + [h]
    {
      handlers := handlers + [h];
    }

    /** What the consumer does once `done` is closed, together with whatever it had not yet taken:
        it steps until the buffer is empty. */
    method Drain()
      requires Valid() && workerStarted && !stopped
      modifies this`queue, this`notified, this`processed, BackendObjects()
      ensures Valid() && queue == []
      ensures notified == old(notified) + FanoutEach(handlers, old(queue))
      ensures backend.value.File? ==>
                var fb := backend.value.fb;
                && fb.file == old(fb.file) && fb.config == old(fb.config)
                && fb.disk == old(fb.disk) + (if old(fb.file) == Some(Live) then EncodeAll(old(queue)) else "")
      ensures backend.value.Sql? ==> backend.value.sb.config == old(backend.value.sb.config)
    {
      ghost var k := 0;
      while queue != []
        invariant Valid() && !stopped && workerStarted
        invariant 0 <= k <= |old(queue)| && queue == old(queue)[k..]
        invariant notified == old(notified) + FanoutEach(handlers, old(queue)[..k])
        invariant backend.value.File? ==>
                    backend.value.fb.file == old(backend.value.fb.file) && backend.value.fb.config == old(backend.value.fb.config)
        invariant backend.value.File? && backend.value.fb.file == Some(Live) ==>
                    backend.value.fb.disk == old(backend.value.fb.disk) + EncodeAll(old(queue)[..k])
        invariant backend.value.File? && backend.value.fb.file != Some(Live) ==>
                    backend.value.fb.disk == old(backend.value.fb.disk)
        invariant backend.value.Sql? ==> backend.value.sb.config == old(backend.value.sb.config)
        decreases |queue|
      {
        var w := Step();
        FanoutEachPrefixStep(old(notified), handlers, old(queue), k);
        if backend.value.File? && backend.value.fb.file == Some(Live) {
          EncodeAllPrefixStep(old(backend.value.fb.disk), old(queue), k);
        }
        k := k + 1;
      }
      assert old(queue)[..k] == old(queue);
    }

    /** Stops the consumer after it has processed everything still buffered, then closes the
        backend. Afterwards every accepted entry has been processed, in acceptance order. */
    method Close() returns (r: Outcome<LogError>)
      requires Valid() && !stopped
      modifies this`queue, this`notified, this`processed, this`stopped, BackendObjects()
      ensures Valid()
      ensures queue == [] && processed == accepted
      ensures stopped == workerStarted
      ensures notified == old(notified) + FanoutEach(handlers, old(queue))
      ensures backend.None? ==> r == Pass
      ensures backend.Some? && backend.value.File? ==>
                var fb := backend.value.fb;
                && fb.file == None
                && fb.config == old(fb.config)
                && fb.disk == old(fb.disk) + (if old(fb.file) == Some(Live) then EncodeAll(old(queue)) else "")
                && r == if old(fb.file) == Some(Closed) then Fail(FileAlreadyClosed) else Pass
      ensures backend.Some? && backend.value.Sql? ==>
                r == Pass && backend.value.sb.config == old(backend.value.sb.config)
    {
      if isAsync && workerStarted {
        Drain();
        stopped := true;
      }
      if backend.None? {
        return Pass;
      }
      match backend.value
      case File(fb) => r := fb.Close();
      case Sql(sb) => r := sb.Close();
    }
  }

  /** `NewLogManager`: the file system's behaviour for a file backend is `fs`, and `existing` is
      the text already in the log file. An unknown kind fails before any backend is made; a
      backend whose `Init` fails is discarded and no manager is returned. */
  method NewLogManager(config: Config, existing: string, fs: FsOutcome) returns (r: Result<LogManager, LogError>)
    ensures config.backend != BackendFile && config.backend != BackendSQL ==>
              r == Err(UnsupportedBackend(config.backend))
    ensures config.backend == BackendFile ==>
              var init := LoggerFileBackend.InitOutcome(config.backendConfig, fs);
              && (r.Ok? <==> init.Pass?)
              && (r.Err? ==> r.error == InitFailed(init.error))
    ensures config.backend == BackendSQL ==>
              && (r.Ok? <==> config.backendConfig.SQLSettings?)
              && (r.Err? ==> r.error == InitFailed(InvalidConfig("SQL")))
    ensures r.Ok? ==>
              var lm := r.value;
              && fresh(lm) && lm.Valid() && lm.backend.Some? && fresh(lm.backend.value.Objects())
              && lm.config == config && lm.isAsync == config.async && !lm.stopped
              && lm.handlers == [] && lm.queue == [] && lm.notified == [] && lm.accepted == []
    ensures r.Ok? && config.backend == BackendFile ==>
              var b := r.value.backend.value;
              && b.File? && b.fb.file == Some(Live) && b.fb.disk == existing
              && b.fb.config == config.backendConfig.file
    ensures r.Ok? && config.backend == BackendSQL ==>
              var b := r.value.backend.value;
              b.Sql? && b.sb.config == config.backendConfig.sql
  {
    var lm := new LogManager(config);
    var b: Backend;
    if config.backend == BackendFile {
      var fb := new LoggerFileBackend.FileBackend();
      b := File(fb);
    } else if config.backend == BackendSQL {
      var sb := new SqlBackend.SQLBackend();
      b := Sql(sb);
    } else {
      return Err(UnsupportedBackend(config.backend));
    }
    var init: Outcome<LogError>;
    match b {
      case File(fb) => init := fb.Init(config.backendConfig, existing, fs);
      case Sql(sb) => init := sb.Init(config.backendConfig);
    }
    if init.Fail? {
      return Err(InitFailed(init.error));
    }
    lm.backend := Some(b);
    if lm.isAsync {
      lm.workerStarted := true;
    }
    return Ok(lm);
  }
}
