/** The incremental counter of test results in a log that arrives in chunks. */
module TapCounter {

  import opened RawLog
  import opened Results
  import opened Text

  datatype SummaryField = Tests | Pass | Fail | Cancelled | Skipped | Todo

  /** What a line is; no line matches two of the source's patterns. A TAP failure without a label is
      named by its whole line. */
  datatype LineClass =
    | NodeResult(failed: bool, name: Utf16)
    | TapPass(number: nat)
    | TapFailure(number: nat, name: Utf16)
    | Summary(node: bool, field: SummaryField, value: nat)
    | Duration(value: nat)
    | OtherLine

  datatype FirstFailure = FirstFailure(name: Utf16, byteOffset: nat)

  datatype Progress = Progress(
    completed: nat, pass: nat, fail: nat, total: Option<nat>, cancelled: nat, skipped: nat, todo: nat,
    durationMs: Option<nat>)

  /** Everything the lines determine. */
  datatype Tally = Tally(progress: Progress, nodeSummaryStarted: bool, firstFailure: Option<FirstFailure>)

  const NO_PROGRESS := Progress(0, 0, 0, None, 0, 0, 0, None)
  const EMPTY_TALLY := Tally(NO_PROGRESS, false, None)

  // ----- names

  /** What JavaScript's `trim` removes. */
  predicate Space(c: CodeUnit) {
    0x09 <= c <= 0x0D || c == 0x20 || c == 0xA0 || c == 0x1680 || 0x2000 <= c <= 0x200A || c == 0x2028 || c == 0x2029
    || c == 0x202F || c == 0x205F || c == 0x3000 || c == 0xFEFF
  }

  function TrimStart(s: Utf16): Utf16 {
    if s != [] && Space(s[0]) then TrimStart(s[1..]) else s
  }

  function TrimEnd(s: Utf16): Utf16 {
    if s != [] && Space(s[|s| - 1]) then TrimEnd(s[..|s| - 1]) else s
  }

  function Trim(s: Utf16): Utf16 {
    TrimEnd(TrimStart(s))
  }

  predicate Blank(s: Utf16) {
    Trim(s) == []
  }

  // ----- one line

  function Recorded(t: Tally, name: Utf16, byteOffset: nat): Tally {
    if t.firstFailure.Some? || Blank(name) then t
    else t.(firstFailure := Some(FirstFailure(Trim(name), byteOffset)))
  }

  function Counted(p: Progress, failed: bool): Progress {
    if failed then p.(completed := p.completed + 1, fail := p.fail + 1)
    else p.(completed := p.completed + 1, pass := p.pass + 1)
  }

  function Summed(p: Progress, field: SummaryField, value: nat): Progress {
    match field
    case Tests => p.(total := Some(value), completed := value)
    case Pass => p.(pass := value)
    case Fail => p.(fail := value)
    case Cancelled => p.(cancelled := value)
    case Skipped => p.(skipped := value)
    case Todo => p.(todo := value)
  }

  function Consumed(t: Tally, line: LineClass, byteOffset: nat): Tally {
    match line
    case NodeResult(failed, name) =>
      var u := if failed then Recorded(t, name, byteOffset) else t;
      if t.nodeSummaryStarted then u else u.(progress := Counted(u.progress, failed))
    case TapPass(_) => t.(progress := Counted(t.progress, false))
    case TapFailure(_, name) =>
      var u := Recorded(t, name, byteOffset);
      u.(progress := Counted(u.progress, true))
    case Summary(node, field, value) =>
      t.(progress := Summed(t.progress, field, value),
         nodeSummaryStarted := t.nodeSummaryStarted || (node && field.Tests?))
    case Duration(value) => t.(progress := t.progress.(durationMs := Some(value)))
    case OtherLine => t
  }

  function ConsumedAll(t: Tally, classify: seq<Byte> -> LineClass, lines: seq<RawLine>): Tally {
    if lines == [] then t
    else
      var last := lines[|lines| - 1];
      Consumed(ConsumedAll(t, classify, lines[..|lines| - 1]), classify(last.bytes), last.byteOffset)
  }

  /** What the lines ended so far in a log amount to. */
  function TallyOf(classify: seq<Byte> -> LineClass, log: seq<Byte>): Tally {
    ConsumedAll(EMPTY_TALLY, classify, EndedLines(log, 0))
  }

  class FullGateTapCounter {
    const classify: seq<Byte> -> LineClass
    var buffer: seq<Byte>
    var bufferStartOffset: nat
    var completed: nat
    var pass: nat
    var fail: nat
    var total: Option<nat>
    var cancelled: nat
    var skipped: nat
    var todo: nat
    var durationMs: Option<nat>
    var failureReported: bool
    var nodeSummaryStarted: bool
    var firstFailure: Option<FirstFailure>
    /** Every byte pushed so far. */
    ghost var log: seq<Byte>

    ghost function Counts(): Tally
      reads this
    {
      Tally(Progress(completed, pass, fail, total, cancelled, skipped, todo, durationMs), nodeSummaryStarted,
            firstFailure)
    }

    /** The buffer holds the bytes after the last newline, and the counts are those of the log. */
    ghost predicate Valid()
      reads this
    {
      && bufferStartOffset == TailStart(log, 0) && buffer == log[bufferStartOffset..]
      && Counts() == TallyOf(classify, log)
    }

    constructor (classify: seq<Byte> -> LineClass)
      ensures Valid() && log == [] && this.classify == classify && !failureReported
    {
      this.classify := classify;
      buffer, bufferStartOffset, log := [], 0, [];
      completed, pass, fail, total, cancelled, skipped, todo, durationMs := 0, 0, 0, None, 0, 0, 0, None;
      failureReported, nodeSummaryStarted, firstFailure := false, false, None;
    }

    /** Takes a chunk: however the log is cut, the counts are a function of all its bytes. */
    method Push(chunk: seq<Byte>)
      requires Valid()
      modifies this
      ensures Valid() && log == old(log) + chunk && failureReported == old(failureReported)
    {
      hide ConsumedAll, EndedLines, TailStart, Consumed, Reading, NextNewline;
      BeginReading(log, chunk, bufferStartOffset, buffer);
      log := log + chunk;
      buffer := buffer + chunk;
      var lineStart: nat := 0;
      ghost var done := EndedLines(old(log), 0);
      while true
        invariant lineStart <= |buffer| && Reading(log, bufferStartOffset, buffer, lineStart, done)
        invariant Counts() == ConsumedAll(EMPTY_TALLY, classify, done)
        invariant unchanged(`bufferStartOffset, `failureReported)
        invariant log == old(log) + chunk && buffer == old(buffer) + chunk
        decreases |buffer| - lineStart
      {
        var newline := NextNewline(buffer, lineStart);
        KeepReading(log, bufferStartOffset, buffer, lineStart, done);
        if newline == |buffer| {
          break;
        }
        var lineEnd := newline;
        if lineEnd > lineStart && buffer[lineEnd - 1] == CR {
          lineEnd := lineEnd - 1;
        }
        ghost var line := RawLine(buffer[lineStart..lineEnd], bufferStartOffset + lineStart);
        ConsumedOneMore(EMPTY_TALLY, classify, done, line);
        ConsumeLine(classify(buffer[lineStart..lineEnd]), bufferStartOffset + lineStart);
        done := done + [line];
        lineStart := newline + 1;
      }
      if lineStart > 0 {
        buffer := buffer[lineStart..];
        bufferStartOffset := bufferStartOffset + lineStart;
      }
    }

    method ConsumeLine(line: LineClass, byteOffset: nat)
      modifies this
      ensures Counts() == Consumed(old(Counts()), line, byteOffset)
      ensures unchanged(`buffer, `bufferStartOffset, `failureReported, `log)
    {
      match line {
        case NodeResult(failed, name) =>
          if failed {
            RecordFirstFailure(name, byteOffset);
          }
          if !nodeSummaryStarted {
            completed := completed + 1;
            if failed {
              fail := fail + 1;
            } else {
              pass := pass + 1;
            }
          }
        case TapPass(_) =>
          completed := completed + 1;
          pass := pass + 1;
        case TapFailure(_, name) =>
          RecordFirstFailure(name, byteOffset);
          completed := completed + 1;
          fail := fail + 1;
        case Summary(node, field, value) =>
          if node && field.Tests? {
            nodeSummaryStarted := true;
          }
          match field {
            case Tests =>
              total := Some(value);
              completed := value;
            case Pass => pass := value;
            case Fail => fail := value;
            case Cancelled => cancelled := value;
            case Skipped => skipped := value;
            case Todo => todo := value;
          }
        case Duration(value) =>
          durationMs := Some(value);
        case OtherLine =>
      }
    }

    method RecordFirstFailure(name: Utf16, byteOffset: nat)
      modifies `firstFailure
      ensures Counts() == Recorded(old(Counts()), name, byteOffset)
    {
      if firstFailure.Some? {
        return;
      }
      var normalized := Trim(name);
      if |normalized| == 0 {
        return;
      }
      firstFailure := Some(FirstFailure(normalized, byteOffset));
    }

    /** Answers yes once, the first time it is asked after a failure has been counted. */
    method TakeFirstFailureTransition() returns (first: bool)
      requires Valid()
      modifies `failureReported
      ensures Valid()
      ensures first <==> TallyOf(classify, log).progress.fail > 0 && !old(failureReported)
      ensures failureReported <==> old(failureReported) || first
    {
      if fail == 0 || failureReported {
        return false;
      }
      failureReported := true;
      return true;
    }

    method TakeProgress() returns (progress: Progress)
      requires Valid()
      ensures progress == TallyOf(classify, log).progress
    {
      return Progress(completed, pass, fail, total, cancelled, skipped, todo, durationMs);
    }

    method TakeFirstFailure() returns (failure: Option<FirstFailure>)
      requires Valid()
      ensures failure == TallyOf(classify, log).firstFailure
    {
      return firstFailure;
    }
  }

  lemma ConsumedOneMore(t: Tally, classify: seq<Byte> -> LineClass, lines: seq<RawLine>, line: RawLine)
    ensures ConsumedAll(t, classify, lines + [line])
            == Consumed(ConsumedAll(t, classify, lines), classify(line.bytes), line.byteOffset)
  {
    assert (lines + [line])[..|lines|] == lines;
  }

  /** The buffer is the log from `base`; `done` are the ended lines before `lineStart`. */
  ghost predicate Reading(log: seq<Byte>, base: nat, buffer: seq<Byte>, lineStart: nat, done: seq<RawLine>)
    requires lineStart <= |buffer|
  {
    && base + |buffer| == |log| && buffer == log[base..]
    && EndedLines(log, 0) == done + EndedLines(log, base + lineStart)
    && TailStart(log, base + lineStart) == TailStart(log, 0)
  }

  lemma BeginReading(log: seq<Byte>, chunk: seq<Byte>, base: nat, buffer: seq<Byte>)
    requires base == TailStart(log, 0) && buffer == log[base..]
    ensures Reading(log + chunk, base, buffer + chunk, 0, EndedLines(log, 0))
  {
    hide EndedLines, TailStart, NextNewline;
    EndedLinesAppend(log, chunk, 0);
    assert buffer + chunk == (log + chunk)[base..];
  }

  lemma ReadLine(log: seq<Byte>, base: nat, buffer: seq<Byte>, lineStart: nat, n: nat)
    requires lineStart <= n <= |buffer| && base + |buffer| == |log| && buffer == log[base..]
    ensures LineBetween(log, base + lineStart, base + n)
            == RawLine(LineBetween(buffer, lineStart, n).bytes, base + lineStart)
  {
    assert log[base + lineStart..base + n] == buffer[lineStart..n];
    if n > lineStart {
      assert log[base + lineStart..base + n - 1] == buffer[lineStart..n - 1];
    }
  }

  /** Either no further line has ended, or the next one has. */
  lemma KeepReading(log: seq<Byte>, base: nat, buffer: seq<Byte>, lineStart: nat, done: seq<RawLine>)
    requires lineStart <= |buffer| && Reading(log, base, buffer, lineStart, done)
    ensures var n := NextNewline(buffer, lineStart);
            if n == |buffer| then
              && done == EndedLines(log, 0) && base + lineStart == TailStart(log, 0)
              && buffer[lineStart..] == log[base + lineStart..]
            else
              Reading(log, base, buffer, n + 1,
                      done + [RawLine(LineBetween(buffer, lineStart, n).bytes, base + lineStart)])
  {
    hide NextNewline, EndedLines, TailStart, LineBetween;
    SuffixNewline(log, base, lineStart);
    EndedStep(log, base + lineStart);
    var n := NextNewline(buffer, lineStart);
    if n < |buffer| {
      ReadLine(log, base, buffer, lineStart, n);
      var line, later := LineBetween(log, base + lineStart, base + n), EndedLines(log, base + n + 1);
      assert done + ([line] + later) == (done + [line]) + later;
    } else {
      assert done + [] == done;
    }
  }

  /** A log pushed in one piece or in any chunks gives the same counts and first failure. */
  method PushAll(classify: seq<Byte> -> LineClass, chunks: seq<seq<Byte>>)
    returns (progress: Progress, failure: Option<FirstFailure>)
    ensures var tally := TallyOf(classify, Joined(chunks)); progress == tally.progress && failure == tally.firstFailure
  {
    var counter := new FullGateTapCounter(classify);
    for i := 0 to |chunks|
      invariant counter.Valid() && counter.log == Joined(chunks[..i]) && counter.classify == classify
    {
      assert chunks[..i + 1][..i] == chunks[..i];
      counter.Push(chunks[i]);
    }
    assert chunks[..|chunks|] == chunks;
    progress := counter.TakeProgress();
    failure := counter.TakeFirstFailure();
  }

  function Joined(chunks: seq<seq<Byte>>): seq<Byte> {
    if chunks == [] then [] else Joined(chunks[..|chunks| - 1]) + chunks[|chunks| - 1]
  }
}
