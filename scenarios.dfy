/** Two runs of the manager taken from logger/log_manager_test.go, with the consumer's progress
    during the test's sleep written out as explicit `Step` calls. */
module Scenarios {
  import opened Wrappers
  import opened Errors
  import opened Os
  import opened Interface
  import opened LogConfig
  import opened Text
  import opened Timestamps
  import opened LineCodec
  import Manager

  /** The async file-backed configuration the tests use. */
  function TestConfig(path: string): Config {
    Config(BackendFile, FileSettings(FileConfig(path, 10)), true, "")
  }

  /** `fmt.Sprintf("Log %d", i)`. */
  function ShutdownMessage(i: nat): string {
    "Log " + FormatNat(i)
  }

  /** The first `n` entries of the shutdown run, all stamped `now`. */
  function ShutdownEntries(n: nat, now: int): (es: seq<LogEntry>)
    ensures |es| == n
    ensures forall i :: 0 <= i < n ==> es[i] == LogEntry(LevelInfo, ShutdownMessage(i), now)
  {
    if n == 0 then [] else ShutdownEntries(n - 1, now) + [LogEntry(LevelInfo, ShutdownMessage(n - 1), now)]
  }

  lemma ShutdownMessageRepresentable(i: nat, now: int)
    ensures Representable(LogEntry(LevelInfo, ShutdownMessage(i), now))
  {
    var d := FormatNat(i);
    var m := ShutdownMessage(i);
    KnownLevelFits(LevelInfo);
    assert !IsSpace(m[0]) by { assert m[0] == 'L'; }
    assert !IsSpace(m[|m| - 1]) by {
      assert m[|m| - 1] == d[|d| - 1];
      assert IsDigit(d[|d| - 1]);
    }
    forall k | 0 <= k < |m|
      ensures m[k] != '\n'
    {
      if k >= 4 {
        assert m[k] == d[k - 4];
        assert IsDigit(d[k - 4]);
      }
    }
  }

  /** Every entry of the shutdown run survives a write and a read back. */
  lemma {:induction false} ShutdownEntriesRepresentable(n: nat, now: int)
    ensures AllRepresentable(ShutdownEntries(n, now))
  {
    if n > 0 {
      var es := ShutdownEntries(n, now);
      assert es[..n - 1] == ShutdownEntries(n - 1, now);
      ShutdownEntriesRepresentable(n - 1, now);
      ShutdownMessageRepresentable(n - 1, now);
    }
  }

  /** The graceful-shutdown run: 1000 `WriteLog` calls to an async manager over a new file, with
      the consumer never getting a turn, followed by `Close`. The channel's 1000 slots take every
      entry, `Close` succeeds, and the file then holds all 1000 lines in order, which read back as
      the entries written. */
  method GracefulShutdown(path: string, now: int) returns (lm: Manager.LogManager, closed: Outcome<LogError>)
    ensures lm.backend.Some? && lm.backend.value.File?
    ensures closed == Pass
    ensures lm.accepted == ShutdownEntries(1000, now) && lm.processed == lm.accepted
    ensures lm.backend.value.fb.disk == EncodeAll(ShutdownEntries(1000, now))
    ensures ParseAll(Lines(lm.backend.value.fb.disk)) == ShutdownEntries(1000, now)
  {
    var made := Manager.NewLogManager(TestConfig(path), "", FsOk);
    lm := made.value;
    var fb := lm.backend.value.fb;
    for i := 0 to 1000
      invariant lm.Valid() && !lm.stopped && lm.isAsync && lm.backend == Some(Manager.File(fb))
      invariant fb.file == Some(Live) && fb.disk == ""
      invariant lm.queue == ShutdownEntries(i, now) && lm.accepted == lm.queue
    {
      var r := lm.WriteLog(LevelInfo, ShutdownMessage(i), now);
    }
    closed := lm.Close();
    assert "" + EncodeAll(ShutdownEntries(1000, now)) == EncodeAll(ShutdownEntries(1000, now));
    ShutdownEntriesRepresentable(1000, now);
    ParseEncodeAll(ShutdownEntries(1000, now));
  }

  /** The three entries the handler run writes. */
  function HandlerEntries(t1: int, t2: int, t3: int): seq<LogEntry> {
    [LogEntry(LevelInfo, "Test message 1", t1),
     LogEntry(LevelError, "Test error 1", t2),
     LogEntry(LevelWarn, "Test warning 1", t3)]
  }

  /** The handler run up to its sleep: one handler registered on a new async manager, then three
      writes, all of which the channel takes, none of which has reached the handler yet. */
  method HandlerWrites(path: string, h: LogHandler, t1: int, t2: int, t3: int)
    returns (lm: Manager.LogManager)
    ensures fresh(lm) && lm.backend.Some? && fresh(lm.BackendObjects())
    ensures lm.Valid() && lm.workerStarted && !lm.stopped
    ensures lm.handlers == [h] && lm.notified == [] && lm.queue == HandlerEntries(t1, t2, t3)
  {
    var made := Manager.NewLogManager(TestConfig(path), "", FsOk);
    lm := made.value;
    lm.RegisterLogHandler(h);
    var r1 := lm.WriteLog(LevelInfo, "Test message 1", t1);
    var r2 := lm.WriteLog(LevelError, "Test error 1", t2);
    var r3 := lm.WriteLog(LevelWarn, "Test warning 1", t3);
  }

  /** The handler run: after three consumer steps stand in for the test's sleep, the handler has
      seen exactly the three entries, in write order. */
  method HandlerSeesEveryEntry(path: string, h: LogHandler, t1: int, t2: int, t3: int)
    returns (lm: Manager.LogManager)
    ensures lm.queue == []
    ensures lm.notified == [Notification(h, LogEntry(LevelInfo, "Test message 1", t1)),
                            Notification(h, LogEntry(LevelError, "Test error 1", t2)),
                            Notification(h, LogEntry(LevelWarn, "Test warning 1", t3))]
  {
    lm := HandlerWrites(path, h, t1, t2, t3);
    var es := HandlerEntries(t1, t2, t3);
    var s1 := lm.Step();
    assert lm.queue == es[1..] && lm.notified == [Notification(h, es[0])];
    var s2 := lm.Step();
    assert lm.queue == es[2..] && lm.notified == [Notification(h, es[0]), Notification(h, es[1])];
    var s3 := lm.Step();
  }
}
