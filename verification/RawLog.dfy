/** Lines of a byte log: where they start, where they end, and the two ways of walking them. */
module RawLog {

  import opened Text

  const LF: Byte := 0x0A
  const CR: Byte := 0x0D

  /** A line without its newline or the carriage return before it, and where it starts. */
  datatype RawLine = RawLine(bytes: seq<Byte>, byteOffset: nat)

  /** `buffer.indexOf(0x0a, from)`: the length where the source has -1. */
  function NextNewline(log: seq<Byte>, from: nat): (n: nat)
    requires from <= |log|
    ensures from <= n <= |log|
    ensures n < |log| ==> log[n] == LF
    decreases |log| - from
  {
    if from == |log| || log[from] == LF then from else NextNewline(log, from + 1)
  }

  lemma {:induction false} NoNewlineBefore(log: seq<Byte>, from: nat)
    requires from <= |log|
    ensures forall i :: from <= i < NextNewline(log, from) ==> log[i] != LF
    decreases |log| - from
  {
    if from < |log| && log[from] != LF {
      NoNewlineBefore(log, from + 1);
    }
  }

  lemma NextNewlineIs(log: seq<Byte>, from: nat, n: nat)
    requires from <= n <= |log| && (n < |log| ==> log[n] == LF)
    requires forall i :: from <= i < n ==> log[i] != LF
    ensures NextNewline(log, from) == n
  {
    NoNewlineBefore(log, from);
  }

  function LineBetween(log: seq<Byte>, start: nat, end: nat): RawLine
    requires start <= end <= |log|
  {
    RawLine(if end > start && log[end - 1] == CR then log[start..end - 1] else log[start..end], start)
  }

  /** The lines from `start` that a newline ends. */
  function EndedLines(log: seq<Byte>, start: nat): seq<RawLine>
    requires start <= |log|
    decreases |log| - start
  {
    var n := NextNewline(log, start);
    if n == |log| then [] else [LineBetween(log, start, n)] + EndedLines(log, n + 1)
  }

  /** Where the text after the last newline starts. */
  function TailStart(log: seq<Byte>, start: nat): (t: nat)
    requires start <= |log|
    ensures start <= t <= |log|
    decreases |log| - start
  {
    var n := NextNewline(log, start);
    if n == |log| then start else TailStart(log, n + 1)
  }

  /** A line holds the bytes up to its newline, but for a carriage return before that. */
  ghost predicate LineIs(log: seq<Byte>, line: RawLine, end: nat)
    requires end < |log|
  {
    && line.byteOffset <= end && log[end] == 0x0A && 0x0A !in log[line.byteOffset..end]
    && if end > line.byteOffset && log[end - 1] == 0x0D then line.bytes == log[line.byteOffset..end - 1]
       else line.bytes == log[line.byteOffset..end]
  }

  lemma EndedStep(log: seq<Byte>, start: nat)
    requires start <= |log|
    ensures var n := NextNewline(log, start);
            if n == |log| then EndedLines(log, start) == [] && TailStart(log, start) == start
            else EndedLines(log, start) == [LineBetween(log, start, n)] + EndedLines(log, n + 1)
                 && TailStart(log, start) == TailStart(log, n + 1)
  {
    hide NextNewline, LineBetween;
  }

  /** Where the line after line k begins. */
  function NextStart(lines: seq<RawLine>, tail: nat, k: nat): nat
    requires k < |lines|
  {
    if k + 1 < |lines| then lines[k + 1].byteOffset else tail
  }

  ghost predicate LineEndsBefore(log: seq<Byte>, line: RawLine, next: nat) {
    0 < next <= |log| && LineIs(log, line, next - 1)
  }

  /** Each line ends just before the next begins, and after the last there is no newline. */
  ghost predicate LinesAre(log: seq<Byte>, start: nat, lines: seq<RawLine>, tail: nat) {
    && start == (if lines == [] then tail else lines[0].byteOffset)
    && (forall k: nat :: k < |lines| ==> LineEndsBefore(log, lines[k], NextStart(lines, tail, k)))
    && tail <= |log| && 0x0A !in log[tail..]
  }

  /** Every newline ends one line, the next begins after it, and no newline is left over. */
  lemma {:induction false} EndedLinesAre(log: seq<Byte>, start: nat)
    requires start <= |log|
    ensures LinesAre(log, start, EndedLines(log, start), TailStart(log, start))
    decreases |log| - start
  {
    hide NextNewline, LineBetween, EndedLines, TailStart, LinesAre;
    EndedStep(log, start);
    var n := NextNewline(log, start);
    if n == |log| {
      NoLine(log, start);
    } else {
      EndedLinesAre(log, n + 1);
      FirstLineIs(log, start);
      LineThenMore(log, n + 1, LineBetween(log, start, n), EndedLines(log, n + 1), TailStart(log, n + 1));
    }
  }

  lemma NoLine(log: seq<Byte>, start: nat)
    requires start <= |log| && NextNewline(log, start) == |log|
    ensures LinesAre(log, start, [], start)
  {
    NoNewlineBefore(log, start);
  }

  lemma LineThenMore(log: seq<Byte>, start: nat, line: RawLine, lines: seq<RawLine>, tail: nat)
    requires LinesAre(log, start, lines, tail) && LineEndsBefore(log, line, start)
    ensures LinesAre(log, line.byteOffset, [line] + lines, tail)
  {
    hide LineEndsBefore;
    var all := [line] + lines;
    forall k: nat | k < |all| ensures LineEndsBefore(log, all[k], NextStart(all, tail, k)) {
      if k > 0 {
        assert all[k] == lines[k - 1] && NextStart(all, tail, k) == NextStart(lines, tail, k - 1);
      }
    }
  }

  lemma FirstLineIs(log: seq<Byte>, start: nat)
    requires start <= |log| && NextNewline(log, start) < |log|
    ensures var n := NextNewline(log, start);
            LineEndsBefore(log, LineBetween(log, start, n), n + 1) && LineBetween(log, start, n).byteOffset == start
  {
    NoNewlineBefore(log, start);
  }

  lemma SameLine(log: seq<Byte>, more: seq<Byte>, start: nat)
    requires start <= |log|
    ensures var n := NextNewline(log, start);
            n < |log| ==>
              NextNewline(log + more, start) == n && LineBetween(log + more, start, n) == LineBetween(log, start, n)
  {
    var n := NextNewline(log, start);
    if n < |log| {
      NoNewlineBefore(log, start);
      NextNewlineIs(log + more, start, n);
      assert (log + more)[start..n] == log[start..n];
      assert n > start ==> (log + more)[start..n - 1] == log[start..n - 1];
    }
  }

  /** Bytes that come later change no line that was already ended. */
  lemma {:induction false} EndedLinesAppend(log: seq<Byte>, more: seq<Byte>, start: nat)
    requires start <= |log|
    ensures EndedLines(log + more, start) == EndedLines(log, start) + EndedLines(log + more, TailStart(log, start))
    ensures TailStart(log + more, TailStart(log, start)) == TailStart(log + more, start)
    decreases |log| - start
  {
    hide NextNewline, LineBetween, EndedLines, TailStart;
    var n := NextNewline(log, start);
    EndedStep(log, start);
    if n < |log| {
      SameLine(log, more, start);
      EndedStep(log + more, start);
      EndedLinesAppend(log, more, n + 1);
    }
  }

  /** Walking a suffix that starts at `base` is walking the log from there. */
  lemma SuffixNewline(log: seq<Byte>, base: nat, from: nat)
    requires base <= base + from <= |log|
    ensures NextNewline(log, base + from) == base + NextNewline(log[base..], from)
  {
    var n := NextNewline(log[base..], from);
    NoNewlineBefore(log[base..], from);
    forall i | base + from <= i < base + n ensures log[i] != LF {
      assert log[base..][i - base] == log[i];
    }
    NextNewlineIs(log, base + from, base + n);
  }

  // ----- the walker over a whole log

  /** The lines `forEachRawLogLine` visits: also a last line that no newline ends. */
  function VisitedLines(log: seq<Byte>, start: nat): seq<RawLine>
    requires start <= |log|
    decreases |log| - start
  {
    if start == |log| then []
    else
      var n := NextNewline(log, start);
      if n == |log| then [LineBetween(log, start, n)] else [LineBetween(log, start, n)] + VisitedLines(log, n + 1)
  }

  /** On a log that ends with a newline, or is empty, the walker visits exactly the ended lines. */
  lemma {:induction false} WalkerVisitsEndedLines(log: seq<Byte>, start: nat)
    requires start <= |log|
    requires start == |log| || log[|log| - 1] == LF
    ensures VisitedLines(log, start) == EndedLines(log, start)
    decreases |log| - start
  {
    if start < |log| {
      NoNewlineBefore(log, start);
      WalkerVisitsEndedLines(log, NextNewline(log, start) + 1);
    }
  }

  /** One turn of the walker: the line at an offset, and where the next one starts. */
  method NextRawLine(log: seq<Byte>, byteOffset: nat) returns (line: RawLine, nextOffset: nat)
    requires byteOffset < |log|
    ensures var n := NextNewline(log, byteOffset);
            line == LineBetween(log, byteOffset, n) && nextOffset == if n == |log| then |log| else n + 1
  {
    hide NextNewline;
    var newline := NextNewline(log, byteOffset);
    nextOffset := if newline == |log| then |log| else newline + 1;
    var lineEnd := newline;
    if lineEnd > byteOffset && log[lineEnd - 1] == CR {
      lineEnd := lineEnd - 1;
    }
    line := RawLine(log[byteOffset..lineEnd], byteOffset);
  }

  lemma VisitedStep(log: seq<Byte>, start: nat)
    requires start < |log|
    ensures var n := NextNewline(log, start);
            VisitedLines(log, start)
            == if n == |log| then [LineBetween(log, start, n)]
               else [LineBetween(log, start, n)] + VisitedLines(log, n + 1)
  {
    hide NextNewline, LineBetween;
  }

  /** Each line starts after the one before it, the first no earlier than `from`. */
  ghost predicate OffsetsRise(lines: seq<RawLine>, from: nat) {
    && (forall i :: 0 <= i < |lines| ==> lines[i].byteOffset >= from)
    && (forall i, j :: 0 <= i < j < |lines| ==> lines[i].byteOffset < lines[j].byteOffset)
  }

  lemma OneMoreRises(line: RawLine, later: seq<RawLine>, next: nat)
    requires OffsetsRise(later, next) && line.byteOffset < next
    ensures OffsetsRise([line] + later, line.byteOffset)
  {
    var lines := [line] + later;
    forall i | 0 < i < |lines| ensures lines[i].byteOffset > line.byteOffset {
      assert lines[i] == later[i - 1];
    }
    forall i, j | 0 <= i < j < |lines| ensures lines[i].byteOffset < lines[j].byteOffset {
      if i > 0 {
        assert lines[i] == later[i - 1] && lines[j] == later[j - 1];
      }
    }
  }

  lemma {:induction false} VisitedOffsetsRise(log: seq<Byte>, start: nat)
    requires start <= |log|
    ensures OffsetsRise(VisitedLines(log, start), start)
    decreases |log| - start
  {
    hide NextNewline, OffsetsRise, VisitedLines;
    if start < |log| {
      VisitedStep(log, start);
      var n := NextNewline(log, start);
      if n < |log| {
        VisitedOffsetsRise(log, n + 1);
        OneMoreRises(LineBetween(log, start, n), VisitedLines(log, n + 1), n + 1);
      } else {
        OneLineRises(LineBetween(log, start, n));
      }
    } else {
      NoLineRises(log);
    }
  }

  lemma OneLineRises(line: RawLine)
    ensures OffsetsRise([line], line.byteOffset)
  {
  }

  lemma NoLineRises(log: seq<Byte>)
    ensures OffsetsRise(VisitedLines(log, |log|), |log|)
  {
  }
}
