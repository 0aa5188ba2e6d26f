/** The text format of logger/backend_file.go: the line `Write` appends, the parser `Read` applies
    to each line, the level match, `applyFilter`, and the selection `ClearLogs` keeps. */
module LineCodec {
  import opened Wrappers
  import opened Text
  import opened Timestamps
  import opened Interface
  import opened SeqFacts

  /** The width of the `%-5s` level field. */
  const LevelWidth: nat := 5

  /** `[<timestamp>] <level padded to 5>: <message>`, the line without its line break. */
  function EntryLine(e: LogEntry): (line: string)
    ensures |line| > 0 && line[0] == '['
  {
    "[" + FormatTS(e.timestamp) + "]" + Tail(e)
  }

  /** The part of the line after the bracket: ` <level padded to 5>: <message>`. */
  function Tail(e: LogEntry): string {
    LevelPart(e) + ":" + MessagePart(e)
  }

  function LevelPart(e: LogEntry): string {
    " " + PadRight(e.level, LevelWidth)
  }

  function MessagePart(e: LogEntry): string {
    " " + e.message
  }

  /** The text `Write` appends for an entry: its line and a line break. */
  function EncodeEntry(e: LogEntry): (text: string)
    ensures text != [] && Terminated(text)
  {
    EntryLine(e) + "\n"
  }

  /** The text of writing each entry of `es` in turn. */
  function EncodeAll(es: seq<LogEntry>): (text: string)
    ensures Terminated(text)
  {
    if es == [] then "" else EncodeAll(es[..|es| - 1]) + EncodeEntry(es[|es| - 1])
  }

  /** Writing one more entry of `es` extends the text of its prefix. */
  lemma EncodeAllPrefixStep(before: string, es: seq<LogEntry>, k: nat)
    requires k < |es|
    ensures before + EncodeAll(es[..k]) + EncodeEntry(es[k]) == before + EncodeAll(es[..k + 1])
  {
    assert es[..k + 1][..k] == es[..k];
    AppendAssoc(before, EncodeAll(es[..k]), EncodeEntry(es[k]));
  }

  /** The loop body of `Read` up to the level check: the entry a line holds, or `None` for a line
      that is skipped. */
  function ParseLine(line: string): (r: Option<LogEntry>)
    ensures r.Some? ==> line != [] && line[0] == '[' && ']' in line
    ensures r.Some? ==> Trimmed(r.value.level) && Trimmed(r.value.message)
  {
    if |line| == 0 || line[0] != '[' then None
    else match IndexOf(line, ']') {
      case None => None
      case Some(end) =>
        match ParseTS(line[1..end]) {
          case None => None
          case Some(ts) =>
            var rest := TrimSpace(line[end + 1..]);
            match IndexOf(rest, ':') {
              case None => None
              case Some(colon) =>
                Some(LogEntry(TrimSpace(rest[..colon]), TrimSpace(rest[colon + 1..]), ts))
            }
        }
    }
  }

  /** Entries whose line the parser reads back unchanged: level and message carry no white space
      at their ends and no line break, and the level no `:`. */
  predicate Representable(e: LogEntry) {
    && Trimmed(e.level) && ':' !in e.level && '\n' !in e.level
    && Trimmed(e.message) && '\n' !in e.message
  }

  /** Every entry of `es` is representable. */
  predicate AllRepresentable(es: seq<LogEntry>) {
    es == [] || (AllRepresentable(es[..|es| - 1]) && Representable(es[|es| - 1]))
  }

  /** The level check of `Read`: the empty level selects every entry. */
  predicate LevelMatches(e: LogEntry, level: LogLevel) {
    level == "" || e.level == level
  }

  /** `applyFilter`. */
  function ApplyFilter(e: LogEntry, f: LogFilter): (keep: bool)
    ensures keep <==>
      && (f.contains == [] || exists i :: OccursAt(f.contains, e.message, i))
      && (f.startTime.None? || f.startTime.value <= e.timestamp)
      && (f.endTime.None? || e.timestamp <= f.endTime.value)
  {
    if f.contains != "" && !Contains(e.message, f.contains) then false
    else if f.startTime.Some? && e.timestamp < f.startTime.value then false
    else if f.endTime.Some? && e.timestamp > f.endTime.value then false
    else true
  }

  predicate Matches(e: LogEntry, level: LogLevel, f: LogFilter) {
    LevelMatches(e, level) && ApplyFilter(e, f)
  }

  /** The entries of the parseable lines, in file order. */
  function ParseAll(lines: seq<string>): (es: seq<LogEntry>)
    ensures |es| <= |lines|
  {
    if lines == [] then []
    else
      var init := ParseAll(lines[..|lines| - 1]);
      match ParseLine(lines[|lines| - 1]) {
        case None => init
        case Some(e) => init + [e]
      }
  }

  /** The entries of `es` that match the level and the filter, in order. */
  function Select(es: seq<LogEntry>, level: LogLevel, f: LogFilter): (r: seq<LogEntry>)
    ensures |r| <= |es|
    ensures forall i :: 0 <= i < |r| ==> Matches(r[i], level, f)
  {
    if es == [] then []
    else
      var init := Select(es[..|es| - 1], level, f);
      if Matches(es[|es| - 1], level, f) then init + [es[|es| - 1]] else init
  }

  /** What `Read(level, filter)` returns for a file split into `lines`. */
  function Query(lines: seq<string>, level: LogLevel, f: LogFilter): (r: seq<LogEntry>)
    ensures |r| <= |lines|
    ensures forall i :: 0 <= i < |r| ==> LevelMatches(r[i], level) && ApplyFilter(r[i], f)
  {
    Select(ParseAll(lines), level, f)
  }

  /** The entries strictly after `before`, in order: what `ClearLogs` keeps. */
  function Kept(es: seq<LogEntry>, before: int): (r: seq<LogEntry>)
    ensures |r| <= |es|
    ensures forall i :: 0 <= i < |r| ==> r[i].timestamp > before
  {
    if es == [] then []
    else
      var init := Kept(es[..|es| - 1], before);
      if es[|es| - 1].timestamp > before then init + [es[|es| - 1]] else init
  }

  // ---- The line format

  /** The level field is the level followed by spaces up to width 5, and is never cut short. */
  lemma LevelField(level: LogLevel)
    ensures |PadRight(level, LevelWidth)| == if |level| < 5 then 5 else |level|
    ensures PadRight(level, LevelWidth) == level + Spaces(|PadRight(level, LevelWidth)| - |level|)
  {
    var p := PadRight(level, LevelWidth);
    assert p[..|level|] == level;
    assert p[|level|..] == Spaces(|p| - |level|);
    assert p == p[..|level|] + p[|level|..];
  }

  /** One `Write` adds exactly one line to the file (a trailing carriage return of the message is
      lost to the line splitter, as `bufio.ScanLines` drops it). */
  lemma EncodeEntryOneLine(e: LogEntry)
    requires '\n' !in e.level && '\n' !in e.message
    ensures '\n' !in EntryLine(e)
    ensures Lines(EncodeEntry(e)) == [DropCR(EntryLine(e))]
  {
    LevelField(e.level);
    assert '\n' !in LevelPart(e);
    assert '\n' !in Tail(e);
    LinesOfLine(EntryLine(e));
  }

  /** The first `]` of a line closes its timestamp. */
  lemma BracketOfLine(e: LogEntry)
    ensures |EntryLine(e)| > 0 && EntryLine(e)[0] == '['
    ensures IndexOf(EntryLine(e), ']') == Some(|FormatTS(e.timestamp)| + 1)
    ensures EntryLine(e)[1..|FormatTS(e.timestamp)| + 1] == FormatTS(e.timestamp)
    ensures EntryLine(e)[|FormatTS(e.timestamp)| + 2..] == Tail(e)
  {
    var ts := FormatTS(e.timestamp);
    var line := EntryLine(e);
    assert line == "[" + ts + "]" + Tail(e);
    assert line[..|ts| + 1] == "[" + ts;
    IndexOfAt(line, ']', |ts| + 1);
  }

  /** The level part trims to the level. */
  lemma LevelPartTrims(e: LogEntry)
    requires Trimmed(e.level) && ':' !in e.level
    ensures ':' !in LevelPart(e)
    ensures TrimSpace(TrimLeft(LevelPart(e))) == e.level
  {
    var p := LevelPart(e);
    LevelField(e.level);
    var pad := Spaces(|PadRight(e.level, LevelWidth)| - |e.level|);
    assert p == " " + e.level + pad;
    TrimSpacePadded(" ", e.level, pad);
    TrimLeftNoSpaceFirst(TrimLeft(p));
  }

  /** The message part trims to the message. */
  lemma MessagePartTrims(e: LogEntry)
    requires Trimmed(e.message)
    ensures TrimSpace(TrimRight(MessagePart(e))) == e.message
  {
    var q := MessagePart(e);
    if e.message == [] {
      TrimRightAllSpace(q);
    } else {
      TrimRightNoSpaceLast(q);
      TrimSpacePadded(" ", e.message, []);
      assert " " + e.message + [] == q;
    }
  }

  /** After the bracket, the first `:` separates the level from the message. */
  lemma TailSplits(e: LogEntry)
    requires Representable(e)
    ensures var rest := TrimSpace(Tail(e));
      && IndexOf(rest, ':').Some?
      && TrimSpace(rest[..IndexOf(rest, ':').value]) == e.level
      && TrimSpace(rest[IndexOf(rest, ':').value + 1..]) == e.message
  {
    var p := LevelPart(e);
    var q := MessagePart(e);
    TrimSpaceAroundColon(p, q);
    var l := TrimLeft(p);
    var r := TrimRight(q);
    var rest := l + ":" + r;
    LevelPartTrims(e);
    MessagePartTrims(e);
    TrimLeftSuffix(p);
    assert ':' !in l;
    ColonSplit(l, r);
  }

  /** A representable entry's line does not end in a carriage return. */
  lemma EntryLineEndsClean(e: LogEntry)
    requires Representable(e)
    ensures DropCR(EntryLine(e)) == EntryLine(e)
  {
    var line := EntryLine(e);
    var q := MessagePart(e);
    assert line == ("[" + FormatTS(e.timestamp) + "]" + LevelPart(e) + ":") + q;
    assert line[|line| - 1] == q[|q| - 1];
  }

  // ---- Parsing

  /** The parser recovers level, message and timestamp of every representable entry. Only the
      first `:` splits, so the message may itself hold colons. */
  lemma ParseEntryLine(e: LogEntry)
    requires Representable(e)
    ensures ParseLine(EntryLine(e)) == Some(e)
  {
    var line := EntryLine(e);
    var end := |FormatTS(e.timestamp)| + 1;
    BracketOfLine(e);
    ParseFormat(e.timestamp);
    assert ParseTS(line[1..end]) == Some(e.timestamp);
    TailSplits(e);
    var rest := TrimSpace(line[end + 1..]);
    assert rest == TrimSpace(Tail(e));
    var colon := IndexOf(rest, ':').value;
    assert ParseLine(line) == Some(LogEntry(TrimSpace(rest[..colon]), TrimSpace(rest[colon + 1..]), e.timestamp));
  }

  /** Whatever the parser reads from a line is representable, so writing it again and re-reading
      gives it back. */
  lemma ParsedRepresentable(line: string)
    requires '\n' !in line && ParseLine(line).Some?
    ensures Representable(ParseLine(line).value)
  {
    var end := IndexOf(line, ']').value;
    var after := line[end + 1..];
    var rest := TrimSpace(after);
    var colon := IndexOf(rest, ':').value;
    TrimSpaceSubstring(after, '\n');
    assert '\n' !in rest[..colon] && '\n' !in rest[colon + 1..];
    TrimSpaceSubstring(rest[..colon], '\n');
    TrimSpaceSubstring(rest[..colon], ':');
    TrimSpaceSubstring(rest[colon + 1..], '\n');
  }

  /** The lines `Read` skips without error. */
  lemma SkippedLines(line: string)
    ensures line == [] ==> ParseLine(line) == None
    ensures line != [] && line[0] != '[' ==> ParseLine(line) == None
    ensures ']' !in line ==> ParseLine(line) == None
  {
  }

  /** A line whose bracketed text is not a timestamp is skipped. */
  lemma BadTimestampSkipped(line: string, end: nat)
    requires 0 < end < |line| && line[0] == '[' && line[end] == ']' && ']' !in line[..end]
    requires ParseTS(line[1..end]).None?
    ensures ParseLine(line) == None
  {
    IndexOfAt(line, ']', end);
  }

  /** A line with no `:` after its bracket is skipped. */
  lemma NoColonSkipped(line: string, end: nat)
    requires 0 < end < |line| && line[0] == '[' && line[end] == ']' && ']' !in line[..end]
    requires ':' !in line[end + 1..]
    ensures ParseLine(line) == None
  {
    IndexOfAt(line, ']', end);
    TrimSpaceSubstring(line[end + 1..], ':');
  }

  // ---- Reading a whole file

  lemma {:induction false} ParseAllAppend(a: seq<string>, b: seq<string>)
    ensures ParseAll(a + b) == ParseAll(a) + ParseAll(b)
    decreases |b|
  {
    if b == [] {
      assert a + b == a;
    } else {
      var b' := b[..|b| - 1];
      assert (a + b)[..|a + b| - 1] == a + b';
      assert (a + b)[|a + b| - 1] == b[|b| - 1];
      ParseAllAppend(a, b');
    }
  }

  /** A malformed line between others changes nothing in what is read. */
  lemma MalformedLineIgnored(a: seq<string>, bad: string, b: seq<string>)
    requires ParseLine(bad).None?
    ensures ParseAll(a + [bad] + b) == ParseAll(a) + ParseAll(b)
  {
    ParseAllAppend(a + [bad], b);
    ParseAllAppend(a, [bad]);
    assert [bad][..0] == [];
  }

  lemma TerminatedAppend(a: string, b: string)
    requires Terminated(a) && Terminated(b)
    ensures Terminated(a + b)
  {
    if b == [] {
      assert a + b == a;
    }
  }

  /** Writing a representable entry to a file that ends in a line break adds that entry at the
      end of what is read from it. */
  lemma AppendedEntry(text: string, e: LogEntry)
    requires Terminated(text) && Representable(e)
    ensures ParseAll(Lines(text + EncodeEntry(e))) == ParseAll(Lines(text)) + [e]
  {
    LinesAppend(text, EncodeEntry(e));
    EncodeEntryOneLine(e);
    EntryLineEndsClean(e);
    ParseEntryLine(e);
    ParseAllAppend(Lines(text), [EntryLine(e)]);
    assert [EntryLine(e)][..0] == [];
  }

  /** Appending the text of representable entries to a file that ends in a line break adds those
      entries, in order, to what is read from it. */
  lemma {:induction false} AppendedEntries(text: string, es: seq<LogEntry>)
    requires Terminated(text)
    requires AllRepresentable(es)
    ensures ParseAll(Lines(text + EncodeAll(es))) == ParseAll(Lines(text)) + es
    decreases |es|
  {
    if es == [] {
      assert text + EncodeAll(es) == text;
    } else {
      var init := es[..|es| - 1];
      var e := es[|es| - 1];
      AppendedEntries(text, init);
      var t := text + EncodeAll(init);
      assert Terminated(t) by {
        TerminatedAppend(text, EncodeAll(init));
      }
      assert EncodeAll(es) == EncodeAll(init) + EncodeEntry(e);
      AppendAssoc(text, EncodeAll(init), EncodeEntry(e));
      AppendedEntry(t, e);
      var before := ParseAll(Lines(text));
      AppendAssoc(before, init, [e]);
      LastSplit(es);
    }
  }

  /** Reading back what was written for `es` gives exactly `es`, in order. */
  lemma ParseEncodeAll(es: seq<LogEntry>)
    requires AllRepresentable(es)
    ensures ParseAll(Lines(EncodeAll(es))) == es
  {
    AppendedEntries("", es);
    assert "" + EncodeAll(es) == EncodeAll(es);
  }

  /** Every entry read from a file is representable. */
  lemma {:induction false} ParseAllRepresentable(lines: seq<string>)
    requires forall i :: 0 <= i < |lines| ==> '\n' !in lines[i]
    ensures AllRepresentable(ParseAll(lines))
  {
    if lines != [] {
      var init := lines[..|lines| - 1];
      ParseAllRepresentable(init);
      if ParseLine(lines[|lines| - 1]).Some? {
        ParsedRepresentable(lines[|lines| - 1]);
      }
    }
  }

  // ---- Selecting

  lemma {:induction false} SelectAppend(a: seq<LogEntry>, b: seq<LogEntry>, level: LogLevel, f: LogFilter)
    ensures Select(a + b, level, f) == Select(a, level, f) + Select(b, level, f)
    decreases |b|
  {
    if b == [] {
      assert a + b == a;
    } else {
      var b' := b[..|b| - 1];
      assert (a + b)[..|a + b| - 1] == a + b';
      assert (a + b)[|a + b| - 1] == b[|b| - 1];
      SelectAppend(a, b', level, f);
    }
  }

  /** An entry is returned exactly when it was read and matches level and filter. */
  lemma {:induction false} SelectMembers(es: seq<LogEntry>, level: LogLevel, f: LogFilter, e: LogEntry)
    ensures e in Select(es, level, f) <==> e in es && Matches(e, level, f)
  {
    if es != [] {
      var init := es[..|es| - 1];
      SelectMembers(init, level, f, e);
      assert es == init + [es[|es| - 1]];
    }
  }

  /** With no level and no filter, `Read` returns every parsed entry. */
  lemma {:induction false} SelectEverything(es: seq<LogEntry>)
    ensures Select(es, "", NoFilter) == es
  {
    if es != [] {
      SelectEverything(es[..|es| - 1]);
    }
  }

  /** A non-empty level selects exactly the entries carrying that level. */
  lemma LevelSelects(es: seq<LogEntry>, level: LogLevel, e: LogEntry)
    requires level != ""
    ensures e in Select(es, level, NoFilter) <==> e in es && e.level == level
  {
    SelectMembers(es, level, NoFilter, e);
  }

  // ---- Retention

  /** `ClearLogs` keeps an entry exactly when it is strictly after the cut-off. */
  lemma {:induction false} KeptMembers(es: seq<LogEntry>, before: int, e: LogEntry)
    ensures e in Kept(es, before) <==> e in es && e.timestamp > before
  {
    if es != [] {
      var init := es[..|es| - 1];
      KeptMembers(init, before, e);
      assert es == init + [es[|es| - 1]];
    }
  }

  /** Retention decides entry by entry, so it distributes over concatenation and keeps order. */
  lemma {:induction false} KeptAppend(a: seq<LogEntry>, b: seq<LogEntry>, before: int)
    ensures Kept(a + b, before) == Kept(a, before) + Kept(b, before)
    decreases |b|
  {
    if b == [] {
      assert a + b == a;
    } else {
      var b' := b[..|b| - 1];
      assert (a + b)[..|a + b| - 1] == a + b';
      assert (a + b)[|a + b| - 1] == b[|b| - 1];
      KeptAppend(a, b', before);
    }
  }

  lemma {:induction false} KeptRepresentable(es: seq<LogEntry>, before: int)
    requires AllRepresentable(es)
    ensures AllRepresentable(Kept(es, before))
  {
    if es != [] {
      KeptRepresentable(es[..|es| - 1], before);
    }
  }

  /** After `ClearLogs(before)` rewrote the file, reading it gives exactly the entries of the old
      file strictly after `before`, in their old order; malformed lines are gone. */
  lemma ClearedFileReadsBack(text: string, before: int)
    ensures ParseAll(Lines(EncodeAll(Kept(ParseAll(Lines(text)), before))))
         == Kept(ParseAll(Lines(text)), before)
  {
    ParseAllRepresentable(Lines(text));
    KeptRepresentable(ParseAll(Lines(text)), before);
    ParseEncodeAll(Kept(ParseAll(Lines(text)), before));
  }

  /** The named levels are written padded to exactly five characters and read back unchanged. */
  lemma KnownLevelRoundTrip(e: LogEntry)
    requires e.level in KnownLevels
    requires Trimmed(e.message) && '\n' !in e.message
    ensures |PadRight(e.level, LevelWidth)| == LevelWidth
    ensures ParseLine(EntryLine(e)) == Some(e)
  {
    LevelField(e.level);
    KnownLevelFits(e.level);
    ParseEntryLine(e);
  }

  /** Every named level fits the width-5 field without padding past it, and holds no white space,
      colon or line break, so the parser recovers it exactly. */
  lemma KnownLevelFits(l: LogLevel)
    requires l in KnownLevels
    ensures 0 < |l| <= LevelWidth && ' ' !in l && Trimmed(l) && ':' !in l && '\n' !in l
  {
    if l == LevelDebug {
    } else if l == LevelInfo {
    } else if l == LevelWarn {
    } else {
      assert l == LevelError;
    }
  }
}
