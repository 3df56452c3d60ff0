/** The failure locator over a whole log, and where it agrees with the incremental counter. */
module FailureLocator {

  import opened RawLog
  import opened Results
  import opened TapCounter
  import opened Text

  datatype Location = Location(index: nat, name: Utf16, logLine: nat, byteOffset: nat)

  datatype Located = Located(failures: seq<Location>, observedFailureCount: nat, truncated: bool)

  datatype LimitError = LimitInvalid

  const NAME_LIMIT := 240
  const ELLIPSIS: CodeUnit := 0x2026
  const SPACE: CodeUnit := 0x20

  /** Runs of white space become one space. */
  function Folded(s: Utf16): Utf16 {
    if s == [] then []
    else if Space(s[0]) then (if |s| > 1 && Space(s[1]) then [] else [SPACE]) + Folded(s[1..])
    else [s[0]] + Folded(s[1..])
  }

  function BoundedName(name: Utf16): (r: Utf16)
    ensures |r| <= NAME_LIMIT
  {
    var normalized := Folded(Trim(name));
    if |normalized| <= NAME_LIMIT then normalized else normalized[..NAME_LIMIT - 1] + [ELLIPSIS]
  }

  // ----- the search, line by line

  datatype Search = Search(
    failures: seq<Location>, observedFailureCount: nat, sequentialIndex: nat, nodeSummaryStarted: bool)

  const NOTHING_FOUND := Search([], 0, 0, false)

  function Found(s: Search, index: nat, name: Utf16, logLine: nat, byteOffset: nat, limit: nat): Search {
    s.(observedFailureCount := s.observedFailureCount + 1,
       failures := if |s.failures| < limit then s.failures + [Location(index, BoundedName(name), logLine, byteOffset)]
                   else s.failures)
  }

  function Larger(a: nat, b: nat): nat {
    if a >= b then a else b
  }

  function Searched(s: Search, line: LineClass, logLine: nat, byteOffset: nat, limit: nat): Search {
    match line
    case NodeResult(failed, name) =>
      if s.nodeSummaryStarted then s
      else
        var t := s.(sequentialIndex := s.sequentialIndex + 1);
        if failed then Found(t, t.sequentialIndex, name, logLine, byteOffset, limit) else t
    case Summary(node, field, _) => if node && field.Tests? then s.(nodeSummaryStarted := true) else s
    case TapPass(number) => s.(sequentialIndex := Larger(s.sequentialIndex, number))
    case TapFailure(number, name) =>
      Found(s.(sequentialIndex := Larger(s.sequentialIndex, number)), number, name, logLine, byteOffset, limit)
    case Duration(_) => s
    case OtherLine => s
  }

  function SearchedAll(classify: seq<Byte> -> LineClass, lines: seq<RawLine>, limit: nat): Search {
    if lines == [] then NOTHING_FOUND
    else
      var last := lines[|lines| - 1];
      var earlier := SearchedAll(classify, lines[..|lines| - 1], limit);
      Searched(earlier, classify(last.bytes), |lines|, last.byteOffset, limit)
  }

  lemma {:induction false} FailuresCounted(classify: seq<Byte> -> LineClass, lines: seq<RawLine>, limit: nat)
    ensures var s := SearchedAll(classify, lines, limit);
            |s.failures| == if s.observedFailureCount <= limit then s.observedFailureCount else limit
  {
    if lines != [] {
      FailuresCounted(classify, lines[..|lines| - 1], limit);
    }
  }

  /** `locateFullGateFailures`: the search over the lines the walker visits. */
  method LocateFullGateFailures(rawLog: seq<Byte>, limit: int, classify: seq<Byte> -> LineClass)
    returns (r: Result<Located, LimitError>)
    ensures r.Ok? <==> 0 < limit <= 100
    ensures r.Ok? ==>
              var s := SearchedAll(classify, VisitedLines(rawLog, 0), limit);
              && r.value.failures == s.failures && r.value.observedFailureCount == s.observedFailureCount
              && (r.value.truncated <==> s.observedFailureCount > limit)
  {
    if limit <= 0 || limit > 100 {
      return Err(LimitInvalid);
    }
    hide SearchedAll, VisitedLines, NextNewline, Searched, Walked;
    var search := NOTHING_FOUND;
    var byteOffset: nat, logLine: nat := 0, 1;
    ghost var seen: seq<RawLine> := [];
    WalkStarts(classify, rawLog, limit);
    while byteOffset < |rawLog|
      invariant byteOffset <= |rawLog| && logLine == |seen| + 1 && Walked(rawLog, byteOffset, seen)
      invariant search == SearchedAll(classify, seen, limit)
    {
      WalkOn(rawLog, byteOffset, seen);
      var line, nextOffset := NextRawLine(rawLog, byteOffset);
      SearchedOneMore(classify, seen, line, limit);
      search := Searched(search, classify(line.bytes), logLine, byteOffset, limit);
      seen := seen + [line];
      byteOffset := nextOffset;
      logLine := logLine + 1;
    }
    WalkEnds(rawLog, seen);
    FailuresCounted(classify, seen, limit);
    return Ok(Located(search.failures, search.observedFailureCount, search.observedFailureCount > |search.failures|));
  }

  /** The lines seen are those before the offset. */
  ghost predicate Walked(log: seq<Byte>, byteOffset: nat, seen: seq<RawLine>)
    requires byteOffset <= |log|
  {
    seen + VisitedLines(log, byteOffset) == VisitedLines(log, 0)
  }

  lemma WalkStarts(classify: seq<Byte> -> LineClass, log: seq<Byte>, limit: nat)
    ensures SearchedAll(classify, [], limit) == NOTHING_FOUND && Walked(log, 0, [])
  {
  }

  lemma WalkOn(log: seq<Byte>, byteOffset: nat, seen: seq<RawLine>)
    requires byteOffset < |log| && Walked(log, byteOffset, seen)
    ensures var n := NextNewline(log, byteOffset);
            Walked(log, if n == |log| then |log| else n + 1, seen + [LineBetween(log, byteOffset, n)])
  {
    hide LineBetween, NextNewline, VisitedLines;
    VisitedStep(log, byteOffset);
    var n := NextNewline(log, byteOffset);
    var line := LineBetween(log, byteOffset, n);
    if n == |log| {
      NothingLeft(log);
      assert seen + [line] == (seen + [line]) + [];
    } else {
      assert seen + ([line] + VisitedLines(log, n + 1)) == (seen + [line]) + VisitedLines(log, n + 1);
    }
  }

  lemma NothingLeft(log: seq<Byte>)
    ensures VisitedLines(log, |log|) == []
  {
  }

  lemma WalkEnds(log: seq<Byte>, seen: seq<RawLine>)
    requires Walked(log, |log|, seen)
    ensures seen == VisitedLines(log, 0)
  {
    NothingLeft(log);
    assert seen + [] == seen;
  }

  lemma SearchedOneMore(classify: seq<Byte> -> LineClass, lines: seq<RawLine>, line: RawLine, limit: nat)
    ensures SearchedAll(classify, lines + [line], limit)
            == Searched(SearchedAll(classify, lines, limit), classify(line.bytes), |lines| + 1, line.byteOffset, limit)
  {
    assert (lines + [line])[..|lines|] == lines;
  }

  // ----- agreement with the counter

  predicate Fails(line: LineClass) {
    (line.NodeResult? && line.failed) || line.TapFailure?
  }

  function FailureCount(classify: seq<Byte> -> LineClass, lines: seq<RawLine>): nat {
    if lines == [] then 0
    else FailureCount(classify, lines[..|lines| - 1]) + if Fails(classify(lines[|lines| - 1].bytes)) then 1 else 0
  }

  /** The first failing line, and the first whose name is not blank. */
  function FirstFailing(classify: seq<Byte> -> LineClass, lines: seq<RawLine>, named: bool): (i: Option<nat>)
    ensures i.Some? ==>
              && i.value < |lines| && Fails(classify(lines[i.value].bytes))
              && (named ==> !Blank(classify(lines[i.value].bytes).name))
  {
    if lines == [] then None
    else
      var n := |lines| - 1;
      var line := classify(lines[n].bytes);
      match FirstFailing(classify, lines[..n], named)
      case Some(i) => Some(i)
      case None => if Fails(line) && (named ==> !Blank(line.name)) then Some(n) else None
  }

  /** No line of the list is a summary. */
  predicate NoSummary(classify: seq<Byte> -> LineClass, lines: seq<RawLine>) {
    forall i :: 0 <= i < |lines| ==> !classify(lines[i].bytes).Summary?
  }

  /** The counter's first failure is the first failing line with a name, whatever summaries say. */
  lemma {:induction false} CounterFirstFailure(classify: seq<Byte> -> LineClass, lines: seq<RawLine>)
    ensures ConsumedAll(EMPTY_TALLY, classify, lines).firstFailure
            == match FirstFailing(classify, lines, true)
               case None => None
               case Some(i) => Some(FirstFailure(Trim(classify(lines[i].bytes).name), lines[i].byteOffset))
  {
    if lines != [] {
      CounterFirstFailure(classify, lines[..|lines| - 1]);
    }
  }

  lemma {:induction false} CountsBeforeSummary(classify: seq<Byte> -> LineClass, lines: seq<RawLine>, limit: nat)
    requires NoSummary(classify, lines) && limit > 0
    ensures var t, s := ConsumedAll(EMPTY_TALLY, classify, lines), SearchedAll(classify, lines, limit);
            && !t.nodeSummaryStarted && !s.nodeSummaryStarted
            && t.progress.fail == s.observedFailureCount == FailureCount(classify, lines)
            && (match FirstFailing(classify, lines, false)
                case None => s.failures == []
                case Some(i) => s.failures != [] && s.failures[0].byteOffset == lines[i].byteOffset)
            && (FailureCount(classify, lines) > 0 <==> s.failures != [])
  {
    if lines != [] {
      CountsBeforeSummary(classify, lines[..|lines| - 1], limit);
      assert !classify(lines[|lines| - 1].bytes).Summary?;
    }
  }

  lemma {:induction false} FirstNamedIsNoEarlier(classify: seq<Byte> -> LineClass, lines: seq<RawLine>)
    ensures var first, named := FirstFailing(classify, lines, false), FirstFailing(classify, lines, true);
            && (first.None? ==> named.None?)
            && (first.Some? && !Blank(classify(lines[first.value].bytes).name) ==> named == first)
            && (first.Some? && Blank(classify(lines[first.value].bytes).name) ==>
                  named.None? || named.value > first.value)
  {
    if lines != [] {
      FirstNamedIsNoEarlier(classify, lines[..|lines| - 1]);
    }
  }

  /** Up to the first summary line the counter and the locator count the same failures, and they
      name the same first one exactly when its name is not blank. */
  lemma CounterAgreesWithLocator(classify: seq<Byte> -> LineClass, log: seq<Byte>, n: nat, limit: nat)
    requires log == [] || log[|log| - 1] == LF
    requires n <= |VisitedLines(log, 0)| && NoSummary(classify, VisitedLines(log, 0)[..n]) && limit > 0
    ensures EndedLines(log, 0) == VisitedLines(log, 0)
    ensures var lines := VisitedLines(log, 0)[..n];
            var t, s := ConsumedAll(EMPTY_TALLY, classify, lines), SearchedAll(classify, lines, limit);
            && t.progress.fail == s.observedFailureCount
            && (s.failures == [] ==> s.observedFailureCount == 0 && t.firstFailure.None?)
            && (s.failures != [] ==>
                  var first := FirstFailing(classify, lines, false);
                  && first.Some?
                  && ((t.firstFailure.Some? && t.firstFailure.value.byteOffset == s.failures[0].byteOffset)
                      <==> !Blank(classify(lines[first.value].bytes).name)))
  {
    WalkerVisitsEndedLines(log, 0);
    VisitedOffsetsRise(log, 0);
    hide ConsumedAll, SearchedAll, FirstFailing, FailureCount, Blank, VisitedLines, EndedLines;
    var lines := VisitedLines(log, 0)[..n];
    CountsBeforeSummary(classify, lines, limit);
    CounterFirstFailure(classify, lines);
    FirstNamedIsNoEarlier(classify, lines);
  }

  // ----- whole logs, summaries and all

  /** A node `tests` line, after which the locator records no more node failures. */
  predicate StartsSummary(line: LineClass) {
    line.Summary? && line.node && line.field.Tests?
  }

  /** What the locator records: a TAP failure, or a node failure before the first node `tests` line. */
  predicate Records(classify: seq<Byte> -> LineClass, lines: seq<RawLine>, n: nat)
    requires n < |lines|
  {
    var line := classify(lines[n].bytes);
    || line.TapFailure?
    || (line.NodeResult? && line.failed && forall i :: 0 <= i < n ==> !StartsSummary(classify(lines[i].bytes)))
  }

  /** The first line the locator records. */
  function FirstRecorded(classify: seq<Byte> -> LineClass, lines: seq<RawLine>): (i: Option<nat>)
    ensures i.Some? ==>
              i.value < |lines| && Records(classify, lines, i.value)
              && forall k :: 0 <= k < i.value ==> !Records(classify, lines, k)
    ensures i.None? ==> forall k :: 0 <= k < |lines| ==> !Records(classify, lines, k)
  {
    if lines == [] then None
    else
      var n := |lines| - 1;
      assert forall k :: 0 <= k < n ==> (Records(classify, lines, k) <==> Records(classify, lines[..n], k));
      match FirstRecorded(classify, lines[..n])
      case Some(i) => Some(i)
      case None => if Records(classify, lines, n) then Some(n) else None
  }

  lemma {:induction false} SearchStartsWithFirstRecorded(classify: seq<Byte> -> LineClass, lines: seq<RawLine>,
                                                         limit: nat)
    requires limit > 0
    ensures var s := SearchedAll(classify, lines, limit);
            && (s.nodeSummaryStarted <==> exists i :: 0 <= i < |lines| && StartsSummary(classify(lines[i].bytes)))
            && (match FirstRecorded(classify, lines)
                case None => s.failures == []
                case Some(i) =>
                  && s.failures != []
                  && s.failures[0].byteOffset == lines[i].byteOffset && s.failures[0].logLine == i + 1
                  && s.failures[0].name == BoundedName(classify(lines[i].bytes).name))
  {
    hide BoundedName;
    if lines != [] {
      var n := |lines| - 1;
      SearchStartsWithFirstRecorded(classify, lines[..n], limit);
      if SearchedAll(classify, lines[..n], limit).nodeSummaryStarted {
        var i :| 0 <= i < n && StartsSummary(classify(lines[..n][i].bytes));
        assert StartsSummary(classify(lines[i].bytes));
      } else {
        assert forall i :: 0 <= i < n ==> !StartsSummary(classify(lines[..n][i].bytes));
      }
    }
  }

  /** Both name no failure, or one at the same line. */
  predicate SameFirst(t: Tally, s: Search) {
    if t.firstFailure.None? then s.failures == []
    else s.failures != [] && s.failures[0].byteOffset == t.firstFailure.value.byteOffset
  }

  /** On every newline-terminated log the counter and the locator name the same first failure exactly
      when the first failing line with a name is the first line the locator records. */
  lemma SameFirstFailure(classify: seq<Byte> -> LineClass, log: seq<Byte>, limit: nat)
    requires (log == [] || log[|log| - 1] == LF) && limit > 0
    ensures var lines := VisitedLines(log, 0);
            SameFirst(TallyOf(classify, log), SearchedAll(classify, lines, limit))
            <==> FirstFailing(classify, lines, true) == FirstRecorded(classify, lines)
  {
    WalkerVisitsEndedLines(log, 0);
    VisitedOffsetsRise(log, 0);
    hide ConsumedAll, SearchedAll, FirstFailing, FirstRecorded, Records, Blank, VisitedLines, EndedLines,
      BoundedName, Trim;
    var lines := VisitedLines(log, 0);
    CounterFirstFailure(classify, lines);
    SearchStartsWithFirstRecorded(classify, lines, limit);
  }

  // ----- logs on either side

  /** The reporter's lines for a failure named `a`, a failure whose name is a space, and the number
      of tests, in UTF-8. */
  const NAMED_LINE: seq<Byte> := [0xE2, 0x9C, 0x96, 0x20, 0x61, 0x20, 0x28, 0x31, 0x6D, 0x73, 0x29]
  const BLANK_LINE: seq<Byte> := [0xE2, 0x9C, 0x96, 0x20, 0x20, 0x20, 0x28, 0x31, 0x6D, 0x73, 0x29]
  const TESTS_LINE: seq<Byte> := [0xE2, 0x84, 0xB9, 0x20, 0x74, 0x65, 0x73, 0x74, 0x73, 0x20, 0x31]

  /** How the patterns read these lines. */
  predicate ReadsExamples(classify: seq<Byte> -> LineClass) {
    && classify(NAMED_LINE) == NodeResult(true, [0x61])
    && classify(BLANK_LINE) == NodeResult(true, [SPACE])
    && classify(TESTS_LINE) == Summary(true, Tests, 1)
  }

  predicate Unbroken(line: seq<Byte>) {
    forall i :: 0 <= i < |line| ==> line[i] != LF && line[i] != CR
  }

  lemma NextLine(log: seq<Byte>, before: seq<Byte>, line: seq<Byte>, rest: seq<Byte>)
    requires Unbroken(line) && log == before + line + [LF] + rest
    ensures EndedLines(log, |before|) == [RawLine(line, |before|)] + EndedLines(log, |before| + |line| + 1)
  {
    hide NextNewline, EndedLines, TailStart;
    var n := |before| + |line|;
    forall i | |before| <= i < n ensures log[i] != LF {
      assert log[i] == line[i - |before|];
    }
    NextNewlineIs(log, |before|, n);
    EndedStep(log, |before|);
    assert log[|before|..n] == line;
    assert n > |before| ==> log[n - 1] == line[|line| - 1];
  }

  /** A log of two lines. */
  lemma TwoLines(first: seq<Byte>, second: seq<Byte>)
    requires Unbroken(first) && Unbroken(second)
    ensures var log := first + [LF] + second + [LF];
            VisitedLines(log, 0) == EndedLines(log, 0) == [RawLine(first, 0), RawLine(second, |first| + 1)]
  {
    hide NextNewline, EndedLines, VisitedLines, Unbroken, TailStart;
    var log := first + [LF] + second + [LF];
    WalkerVisitsEndedLines(log, 0);
    assert log == [] + first + [LF] + (second + [LF]) && log == (first + [LF]) + second + [LF] + [];
    NextLine(log, [], first, second + [LF]);
    NextLine(log, first + [LF], second, []);
    NothingAfter(log);
  }

  lemma NothingAfter(log: seq<Byte>)
    ensures EndedLines(log, |log|) == []
  {
  }

  lemma ConsumedTwo(classify: seq<Byte> -> LineClass, a: RawLine, b: RawLine, limit: nat)
    ensures ConsumedAll(EMPTY_TALLY, classify, [a, b])
            == Consumed(Consumed(EMPTY_TALLY, classify(a.bytes), a.byteOffset), classify(b.bytes), b.byteOffset)
    ensures SearchedAll(classify, [a, b], limit)
            == Searched(Searched(NOTHING_FOUND, classify(a.bytes), 1, a.byteOffset, limit), classify(b.bytes), 2,
                        b.byteOffset, limit)
  {
    assert [a, b] == [] + [a] + [b];
    ConsumedOneMore(EMPTY_TALLY, classify, [], a);
    ConsumedOneMore(EMPTY_TALLY, classify, [] + [a], b);
    SearchedOneMore(classify, [], a, limit);
    SearchedOneMore(classify, [] + [a], b, limit);
    hide Consumed, Searched;
  }

  lemma ExampleNames()
    ensures !Blank([0x61]) && Trim([0x61]) == [0x61] && Blank([SPACE])
  {
    var blank := [SPACE];
    assert Space(blank[0]) && blank[1..] == [];
    assert TrimStart(blank) == TrimStart([]);
  }

  /** A named failure before a blank one: both name it. */
  lemma NamedFirstAgrees(classify: seq<Byte> -> LineClass, limit: nat)
    requires ReadsExamples(classify) && limit > 0
    ensures var log := NAMED_LINE + [LF] + BLANK_LINE + [LF];
            var t, s := TallyOf(classify, log), SearchedAll(classify, VisitedLines(log, 0), limit);
            t.firstFailure == Some(FirstFailure([0x61], 0)) && SameFirst(t, s)
  {
    hide ConsumedAll, SearchedAll, VisitedLines, EndedLines, Blank, Trim, BoundedName;
    TwoLines(NAMED_LINE, BLANK_LINE);
    ConsumedTwo(classify, RawLine(NAMED_LINE, 0), RawLine(BLANK_LINE, 12), limit);
    ExampleNames();
  }

  /** A blank failure before a named one: the counter passes it over, the locator names it. */
  lemma BlankFirstDiffers(classify: seq<Byte> -> LineClass, limit: nat)
    requires ReadsExamples(classify) && limit > 0
    ensures var log := BLANK_LINE + [LF] + NAMED_LINE + [LF];
            var t, s := TallyOf(classify, log), SearchedAll(classify, VisitedLines(log, 0), limit);
            && t.firstFailure == Some(FirstFailure([0x61], 12)) && s.failures != [] && s.failures[0].byteOffset == 0
            && !SameFirst(t, s)
  {
    hide ConsumedAll, SearchedAll, VisitedLines, EndedLines, Blank, Trim, BoundedName;
    TwoLines(BLANK_LINE, NAMED_LINE);
    ConsumedTwo(classify, RawLine(BLANK_LINE, 0), RawLine(NAMED_LINE, 12), limit);
    ExampleNames();
  }

  /** A failing node line after the number of tests: the counter names it, the locator nothing. */
  lemma FailureAfterTestsDiffers(classify: seq<Byte> -> LineClass, limit: nat)
    requires ReadsExamples(classify) && limit > 0
    ensures var log := TESTS_LINE + [LF] + NAMED_LINE + [LF];
            var t, s := TallyOf(classify, log), SearchedAll(classify, VisitedLines(log, 0), limit);
            t.firstFailure == Some(FirstFailure([0x61], 12)) && s.failures == [] && !SameFirst(t, s)
  {
    hide ConsumedAll, SearchedAll, VisitedLines, EndedLines, Blank, Trim, BoundedName;
    TwoLines(TESTS_LINE, NAMED_LINE);
    ConsumedTwo(classify, RawLine(TESTS_LINE, 0), RawLine(NAMED_LINE, 12), limit);
    ExampleNames();
  }
}
