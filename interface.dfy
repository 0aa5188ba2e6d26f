/** Levels, entries, filters and handlers of logger/interface.go. */
module Interface {
  import opened Wrappers
  import opened SeqFacts

  /** `type LogLevel string`: an open type, so any text (the empty text included) is a level. */
  type LogLevel = string

  const LevelDebug: LogLevel := "DEBUG"
  const LevelInfo: LogLevel := "INFO"
  const LevelWarn: LogLevel := "WARN"
  const LevelError: LogLevel := "ERROR"

  /** The named levels, in declaration order. */
  const KnownLevels: seq<LogLevel> := [LevelDebug, LevelInfo, LevelWarn, LevelError]

  /** A log record. Timestamps are whole seconds; `Metadata` is not modelled (no backend uses it). */
  datatype LogEntry = LogEntry(level: LogLevel, message: string, timestamp: int)

  /** Read criteria. `None` bounds and an empty `contains` impose nothing. */
  datatype LogFilter = LogFilter(startTime: Option<int>, endTime: Option<int>, contains: string)

  /** The zero `LogFilter{}`. */
  const NoFilter: LogFilter := LogFilter(None, None, "")

  /** A registered `LogHandler`, known to the model only by its identity. */
  datatype LogHandler = LogHandler(id: nat)

  /** One call `h.Handle(entry)`; its error result is always discarded by the callers. */
  datatype Notification = Notification(handler: LogHandler, entry: LogEntry)

  /** The calls made by notifying every handler of `hs`, in order, of `e`. */
  function Fanout(hs: seq<LogHandler>, e: LogEntry): (r: seq<Notification>)
    ensures |r| == |hs|
    ensures forall i :: 0 <= i < |r| ==> r[i] == Notification(hs[i], e)
  {
    if hs == [] then [] else Fanout(hs[..|hs| - 1], e) + [Notification(hs[|hs| - 1], e)]
  }

  /** The calls made by notifying `hs` of each entry of `es` in turn. */
  function FanoutEach(hs: seq<LogHandler>, es: seq<LogEntry>): (r: seq<Notification>)
    ensures |r| == |hs| * |es|
  {
    if es == [] then [] else FanoutEach(hs, es[..|es| - 1]) + Fanout(hs, es[|es| - 1])
  }

  /** Notifying of `a` and then of `b` is notifying of `a + b`. */
  lemma {:induction false} FanoutEachAppend(hs: seq<LogHandler>, a: seq<LogEntry>, b: seq<LogEntry>)
    ensures FanoutEach(hs, a + b) == FanoutEach(hs, a) + FanoutEach(hs, b)
    decreases |b|
  {
    if b == [] {
      assert a + b == a;
    } else {
      var init, last := b[..|b| - 1], b[|b| - 1];
      assert (a + b)[..|a + b| - 1] == a + init;
      assert (a + b)[|a + b| - 1] == last;
      FanoutEachAppend(hs, a, init);
      AppendAssoc(FanoutEach(hs, a), FanoutEach(hs, init), Fanout(hs, last));
    }
  }

  /** Notifying one more entry of `es` extends the notifications of its prefix. */
  lemma FanoutEachPrefixStep(before: seq<Notification>, hs: seq<LogHandler>, es: seq<LogEntry>, k: nat)
    requires k < |es|
    ensures before + FanoutEach(hs, es[..k]) + Fanout(hs, es[k]) == before + FanoutEach(hs, es[..k + 1])
  {
    assert es[..k + 1][..k] == es[..k];
    AppendAssoc(before, FanoutEach(hs, es[..k]), Fanout(hs, es[k]));
  }

  /** The calls for `es` come in one block per entry, in entry order: the block for `es[i]`
      notifies every handler of `hs`, in order, and starts after `|hs| * i` earlier calls. */
  lemma FanoutEachBlock(hs: seq<LogHandler>, es: seq<LogEntry>, i: nat)
    requires i < |es|
    ensures FanoutEach(hs, es) == FanoutEach(hs, es[..i]) + Fanout(hs, es[i]) + FanoutEach(hs, es[i + 1..])
    ensures |FanoutEach(hs, es[..i])| == |hs| * i
  {
    assert es == es[..i] + ([es[i]] + es[i + 1..]);
    FanoutEachAppend(hs, es[..i], [es[i]] + es[i + 1..]);
    FanoutEachAppend(hs, [es[i]], es[i + 1..]);
    assert [es[i]][..0] == [];
    assert FanoutEach(hs, [es[i]]) == Fanout(hs, es[i]);
    AppendAssoc(FanoutEach(hs, es[..i]), Fanout(hs, es[i]), FanoutEach(hs, es[i + 1..]));
  }

  /** The four level constants are pairwise distinct. */
  lemma LevelsDistinct()
    ensures |KnownLevels| == 4
    ensures forall i, j :: 0 <= i < j < |KnownLevels| ==> KnownLevels[i] != KnownLevels[j]
  {
  }
}
