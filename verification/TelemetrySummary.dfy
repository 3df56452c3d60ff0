/** The summary of a telemetry text, which may have been cut anywhere. */
module TelemetrySummary {

  import opened Encoding
  import opened Json
  import opened Results
  import opened Sorting
  import opened Telemetry
  import opened Text

  datatype SummaryError =
    | NotUtf8
    | OptionInvalid
    | TooManyBytes
    | TooManyRecords
    | LineTooLong(line: nat)
    | Malformed(line: nat)
    | FooterInvalid(line: nat)
    | RecordInvalid(line: nat)
    | SequenceGap(line: nat)
    | BytesAfterFooter

  datatype OutcomeCounts = OutcomeCounts(passed: nat, notPassed: nat, skipped: nat, todo: nat)

  datatype FileTiming = FileTiming(
    file: Option<Utf16>, testNodeCount: nat, outcomeCounts: OutcomeCounts, totalNodeMicros: int)

  /** A summary; its telemetry digest is stood for by the bytes that are digested. */
  datatype Summary = Summary(
    partial: bool, footerComplete: bool, telemetry: seq<Byte>, telemetryBytes: nat, testNodeCount: nat, fileCount: nat,
    outcomeCounts: OutcomeCounts, observedFiles: seq<Utf16>, unattributedTestNodeCount: nat, files: seq<FileTiming>,
    topSlowTestNodes: seq<Record>)

  const TOP_SLOW_LIMIT := 20

  // ----- lines

  predicate EndsWithNewline(t: Utf16) {
    t != [] && t[|t| - 1] == NEWLINE
  }

  function FirstNewline(t: Utf16): (n: nat)
    ensures n <= |t| && (n < |t| ==> t[n] == NEWLINE)
  {
    if t == [] || t[0] == NEWLINE then 0 else 1 + FirstNewline(t[1..])
  }

  /** The newline-complete lines of a text; an unterminated last piece is none. */
  function CompleteLines(t: Utf16): seq<Utf16>
    decreases |t|
  {
    var n := FirstNewline(t);
    if n == |t| then [] else [t[..n]] + CompleteLines(t[n + 1..])
  }

  // ----- one line

  function FieldOf(fields: seq<Field>, key: Utf16): Option<Json> {
    if HasKey(fields, key) then Some(fields[Place(fields, key)].value) else None
  }

  /** Exactly these keys, in any order. */
  predicate ExactKeys(fields: seq<Field>, keys: seq<Utf16>) {
    |fields| == |keys| && forall i :: 0 <= i < |keys| ==> HasKey(fields, keys[i])
  }

  const RECORD_KEYS: seq<Utf16> := [DURATION_MS, FILE, KIND, LINE, NAME, NESTING, OUTCOME, SEQUENCE, TEST_NUMBER]

  function ReadInteger(j: Option<Json>): Option<int> {
    if j.Some? && j.value.Num? && Nonnegative(j.value.number) then Some(j.value.number) else None
  }

  function ReadNullableInteger(j: Option<Json>): Option<Option<int>> {
    if j == Some(Null) then Some(None)
    else
      match ReadInteger(j)
      case Some(n) => Some(Some(n))
      case None => None
  }

  function ReadText(j: Option<Json>, shown: Utf16 -> Utf16): Option<Utf16> {
    if j.Some? && j.value.Str? then Some(shown(j.value.text)) else None
  }

  function ReadNullableText(j: Option<Json>, shown: Utf16 -> Utf16): Option<Option<Utf16>> {
    if j == Some(Null) then Some(None)
    else
      match ReadText(j, shown)
      case Some(t) => Some(Some(t))
      case None => None
  }

  function ReadOutcome(j: Option<Json>): Option<Outcome> {
    if j == Some(Str(PASSED)) then Some(Passed)
    else if j == Some(Str(NOT_PASSED)) then Some(NotPassed)
    else if j == Some(Str(SKIPPED)) then Some(SkippedTest)
    else if j == Some(Str(TODO)) then Some(TodoTest)
    else None
  }

  function ReadDuration(j: Option<Json>): Option<int> {
    if j.Some? && j.value.Num? && j.value.number >= 0 then Some(j.value.number) else None
  }

  /** `parseRecord`; `shown` is the normalisation and escaping of texts. */
  function ParseRecord(candidate: Json, shown: Utf16 -> Utf16): Option<Record> {
    if !candidate.Obj? || !ExactKeys(candidate.fields, RECORD_KEYS) then None
    else
      var fields := candidate.fields;
      if FieldOf(fields, KIND) != Some(Str(TELEMETRY_KIND)) then None
      else
        match (ReadOutcome(FieldOf(fields, OUTCOME)), ReadInteger(FieldOf(fields, SEQUENCE)),
               ReadNullableInteger(FieldOf(fields, TEST_NUMBER)), ReadNullableText(FieldOf(fields, FILE), shown))
        case (Some(outcome), Some(sequence), Some(testNumber), Some(file)) =>
          (match (ReadNullableInteger(FieldOf(fields, LINE)), ReadText(FieldOf(fields, NAME), shown),
                  ReadInteger(FieldOf(fields, NESTING)), ReadDuration(FieldOf(fields, DURATION_MS)))
           case (Some(line), Some(name), Some(nesting), Some(durationMicros)) =>
             if sequence == 0 then None
             else Some(Record(sequence, testNumber, file, line, name, nesting, outcome, durationMicros))
           case _ => None)
        case _ => None
  }

  predicate IsFooter(candidate: Json) {
    candidate.Obj? && FieldOf(candidate.fields, KIND) == Some(Str(TELEMETRY_END_KIND))
  }

  predicate FooterOk(candidate: Json, count: nat)
    requires candidate.Obj?
  {
    ExactKeys(candidate.fields, [KIND, RECORD_COUNT]) && FieldOf(candidate.fields, RECORD_COUNT) == Some(Num(count))
  }

  /** One line, after `count` records: a record, or the footer, which must be the last line. */
  function ReadLine(line: Utf16, lineNumber: nat, last: bool, count: nat, shown: Utf16 -> Utf16)
    : Result<Option<Record>, SummaryError>
  {
    if Utf8Length(line + [NEWLINE]) > MAX_RECORD_BYTES then Err(LineTooLong(lineNumber))
    else
      match Parse(line)
      case None => Err(Malformed(lineNumber))
      case Some(candidate) =>
        if IsFooter(candidate) then
          if last && FooterOk(candidate, count) then Ok(None) else Err(FooterInvalid(lineNumber))
        else
          match ParseRecord(candidate, shown)
          case None => Err(RecordInvalid(lineNumber))
          case Some(record) => if record.sequence == count + 1 then Ok(Some(record)) else Err(SequenceGap(lineNumber))
  }

  datatype Read = Read(records: seq<Record>, footerSeen: bool)

  /** The first n lines. */
  function ReadLines(lines: seq<Utf16>, n: nat, shown: Utf16 -> Utf16): Result<Read, SummaryError>
    requires n <= |lines|
  {
    if n == 0 then Ok(Read([], false))
    else
      match ReadLines(lines, n - 1, shown)
      case Err(e) => Err(e)
      case Ok(read) =>
        match ReadLine(lines[n - 1], n, n == |lines|, |read.records|, shown)
        case Err(e) => Err(e)
        case Ok(None) => Ok(Read(read.records, true))
        case Ok(Some(record)) => Ok(Read(read.records + [record], read.footerSeen))
  }

  // ----- the figures

  function Tallied(c: OutcomeCounts, o: Outcome): OutcomeCounts {
    match o
    case Passed => c.(passed := c.passed + 1)
    case NotPassed => c.(notPassed := c.notPassed + 1)
    case SkippedTest => c.(skipped := c.skipped + 1)
    case TodoTest => c.(todo := c.todo + 1)
  }

  const NO_OUTCOMES := OutcomeCounts(0, 0, 0, 0)

  function Outcomes(records: seq<Record>): OutcomeCounts {
    if records == [] then NO_OUTCOMES
    else Tallied(Outcomes(records[..|records| - 1]), records[|records| - 1].outcome)
  }

  /** Where a file stands in the list, or the list's length. */
  function IndexOfFile(timings: seq<FileTiming>, file: Option<Utf16>): (i: nat)
    ensures i <= |timings|
    ensures i < |timings| ==> timings[i].file == file
    ensures i == |timings| ==> forall k :: 0 <= k < |timings| ==> timings[k].file != file
  {
    if timings == [] || timings[0].file == file then 0 else 1 + IndexOfFile(timings[1..], file)
  }

  function TimedMore(t: FileTiming, r: Record): FileTiming {
    FileTiming(t.file, t.testNodeCount + 1, Tallied(t.outcomeCounts, r.outcome), t.totalNodeMicros + r.durationMicros)
  }

  /** The map of timings, in the order its files were first met, after one more record. */
  function TimingsMore(timings: seq<FileTiming>, r: Record): seq<FileTiming> {
    var i := IndexOfFile(timings, r.file);
    if i < |timings| then timings[i := TimedMore(timings[i], r)]
    else timings + [TimedMore(FileTiming(r.file, 0, NO_OUTCOMES, 0), r)]
  }

  function Timings(records: seq<Record>): seq<FileTiming> {
    if records == [] then [] else TimingsMore(Timings(records[..|records| - 1]), records[|records| - 1])
  }

  /** Null files after the named ones. */
  predicate FileAtMost(l: Option<Utf16>, r: Option<Utf16>) {
    match (l, r)
    case (Some(x), Some(y)) => AtMost(x, y)
    case (_, None) => true
    case (None, Some(_)) => false
  }

  predicate SlowerFile(l: FileTiming, r: FileTiming) {
    l.totalNodeMicros > r.totalNodeMicros || (l.totalNodeMicros == r.totalNodeMicros && FileAtMost(l.file, r.file))
  }

  predicate SlowerNode(l: Record, r: Record) {
    l.durationMicros > r.durationMicros || (l.durationMicros == r.durationMicros && l.sequence <= r.sequence)
  }

  function Files(records: seq<Record>): seq<Utf16> {
    if records == [] then []
    else
      var front, last := Files(records[..|records| - 1]), records[|records| - 1];
      if last.file.Some? && last.file.value !in front then front + [last.file.value] else front
  }

  function Unattributed(records: seq<Record>): nat {
    if records == [] then 0
    else Unattributed(records[..|records| - 1]) + if records[|records| - 1].file.None? then 1 else 0
  }

  function Slowest(records: seq<Record>): seq<Record> {
    var sorted := Sort(records, SlowerNode);
    if |sorted| <= TOP_SLOW_LIMIT then sorted else sorted[..TOP_SLOW_LIMIT]
  }

  function SummaryOf(records: seq<Record>, partial: bool, telemetry: seq<Byte>): Summary {
    var files := Sort(Timings(records), SlowerFile);
    Summary(partial, !partial, telemetry, |telemetry|, |records|, |files|, Outcomes(records),
            Sort(Files(records), AtMost), Unattributed(records), files, Slowest(records))
  }

  /** `summarizeRecords` */
  method SummarizeRecords(records: seq<Record>, partial: bool, telemetry: seq<Byte>) returns (s: Summary)
    ensures s == SummaryOf(records, partial, telemetry)
  {
    hide TimingsMore, Tallied;
    var byFile: seq<FileTiming> := [];
    for i := 0 to |records|
      invariant byFile == Timings(records[..i])
    {
      assert records[..i + 1][..i] == records[..i];
      byFile := TimingsMore(byFile, records[i]);
    }
    var outcomeCounts, unattributed: nat, observed: seq<Utf16> := NO_OUTCOMES, 0, [];
    for i := 0 to |records|
      invariant outcomeCounts == Outcomes(records[..i]) && unattributed == Unattributed(records[..i])
      invariant observed == Files(records[..i])
    {
      assert records[..i + 1][..i] == records[..i];
      outcomeCounts := Tallied(outcomeCounts, records[i].outcome);
      match records[i].file {
        case None => unattributed := unattributed + 1;
        case Some(file) =>
          if file !in observed {
            observed := observed + [file];
          }
      }
    }
    assert records[..|records|] == records;
    var files := Sort(byFile, SlowerFile);
    return Summary(partial, !partial, telemetry, |telemetry|, |records|, |files|, outcomeCounts,
                   Sort(observed, AtMost), unattributed, files, Slowest(records));
  }

  /** `summarizeFullGateTelemetryText`: the text is read, the bytes are bounded and digested. */
  function Summarized(jsonl: Utf16, telemetry: seq<Byte>, maxBytes: int, maxRecords: int, shown: Utf16 -> Utf16)
    : Result<Summary, SummaryError>
  {
    var lines := CompleteLines(jsonl);
    var unterminated := jsonl != [] && !EndsWithNewline(jsonl);
    if maxBytes <= 0 || maxRecords <= 0 then Err(OptionInvalid)
    else if |telemetry| > maxBytes then Err(TooManyBytes)
    else if |lines| > maxRecords + 1 then Err(TooManyRecords)
    else
      match ReadLines(lines, |lines|, shown)
      case Err(e) => Err(e)
      case Ok(read) =>
        if read.footerSeen && unterminated then Err(BytesAfterFooter)
        else Ok(SummaryOf(read.records, unterminated || !read.footerSeen, telemetry))
  }

  method SummarizeFullGateTelemetryText(jsonl: Utf16, telemetry: seq<Byte>, maxBytes: int, maxRecords: int,
                                        shown: Utf16 -> Utf16) returns (r: Result<Summary, SummaryError>)
    ensures r == Summarized(jsonl, telemetry, maxBytes, maxRecords, shown)
  {
    hide SummaryOf, ReadLine, CompleteLines;
    if maxBytes <= 0 || maxRecords <= 0 {
      return Err(OptionInvalid);
    }
    if |telemetry| > maxBytes {
      return Err(TooManyBytes);
    }
    var unterminated := |jsonl| > 0 && !EndsWithNewline(jsonl);
    var lines := CompleteLines(jsonl);
    if |lines| > maxRecords + 1 {
      return Err(TooManyRecords);
    }
    var records: seq<Record>, footerSeen := [], false;
    for index := 0 to |lines|
      invariant ReadLines(lines, index, shown) == Ok(Read(records, footerSeen))
    {
      var read := ReadLine(lines[index], index + 1, index + 1 == |lines|, |records|, shown);
      match read {
        case Err(e) =>
          ErrorStays(lines, index + 1, shown);
          return Err(e);
        case Ok(None) => footerSeen := true;
        case Ok(Some(record)) => records := records + [record];
      }
    }
    if footerSeen && unterminated {
      return Err(BytesAfterFooter);
    }
    var summary := SummarizeRecords(records, unterminated || !footerSeen, telemetry);
    return Ok(summary);
  }

  /** What the byte entry point makes of telemetry: bytes that are not UTF-8 are refused. */
  function SummarizedBytes(telemetry: seq<Byte>, maxBytes: int, maxRecords: int, shown: Utf16 -> Utf16)
    : Result<Summary, SummaryError>
  {
    match DecodeUtf8(telemetry)
    case None => Err(NotUtf8)
    case Some(jsonl) => Summarized(jsonl, telemetry, maxBytes, maxRecords, shown)
  }

  /** `summarizeFullGateTelemetry` */
  method SummarizeFullGateTelemetry(telemetry: seq<Byte>, maxBytes: int, maxRecords: int, shown: Utf16 -> Utf16)
    returns (r: Result<Summary, SummaryError>)
    ensures r == SummarizedBytes(telemetry, maxBytes, maxRecords, shown)
  {
    hide Summarized;
    var jsonl := DecodeUtf8(telemetry);
    match jsonl {
      case None => return Err(NotUtf8);
      case Some(text) => r := SummarizeFullGateTelemetryText(text, telemetry, maxBytes, maxRecords, shown);
    }
  }

  /** `summarizeFullGateTelemetryJsonl` */
  method SummarizeFullGateTelemetryJsonl(jsonl: Utf16, maxBytes: int, maxRecords: int, shown: Utf16 -> Utf16)
    returns (r: Result<Summary, SummaryError>)
    ensures r == Summarized(jsonl, Utf8(jsonl), maxBytes, maxRecords, shown)
  {
    r := SummarizeFullGateTelemetryText(jsonl, Utf8(jsonl), maxBytes, maxRecords, shown);
  }

  /** The first error is the one reported. */
  lemma {:induction false} ErrorStays(lines: seq<Utf16>, n: nat, shown: Utf16 -> Utf16)
    requires n <= |lines| && ReadLines(lines, n, shown).Err?
    ensures ReadLines(lines, |lines|, shown) == ReadLines(lines, n, shown)
    decreases |lines| - n
  {
    if n < |lines| {
      ErrorStays(lines, n + 1, shown);
    }
  }

  /** A summary is of the very bytes it was given. */
  lemma SummaryOfItsBytes(telemetry: seq<Byte>, maxBytes: int, maxRecords: int, shown: Utf16 -> Utf16)
    ensures var r := SummarizedBytes(telemetry, maxBytes, maxRecords, shown);
            r.Ok? ==> r.value.telemetry == telemetry && r.value.telemetryBytes == |telemetry|
  {
    hide DecodeUtf8, CompleteLines, ReadLines, EndsWithNewline;
  }

  /** A summary's files are sorted already. */
  lemma ObservedAscend(telemetry: seq<Byte>, maxBytes: int, maxRecords: int, shown: Utf16 -> Utf16)
    ensures var r := SummarizedBytes(telemetry, maxBytes, maxRecords, shown);
            r.Ok? ==> Sort(r.value.observedFiles, AtMost) == r.value.observedFiles
  {
    hide DecodeUtf8, CompleteLines, ReadLines, EndsWithNewline, Files, Timings, Slowest, Outcomes, Unattributed, Sort;
    AtMostIsTotalOrder();
    forall s: seq<Utf16> ensures Sort(Sort(s, AtMost), AtMost) == Sort(s, AtMost) {
      SortOfPermutation(Sort(s, AtMost), s, AtMost);
    }
  }

  // ----- the figures add up

  function CountOf(c: OutcomeCounts, o: Outcome): nat {
    match o
    case Passed => c.passed
    case NotPassed => c.notPassed
    case SkippedTest => c.skipped
    case TodoTest => c.todo
  }

  function Nodes(t: FileTiming): int {
    t.testNodeCount
  }

  function Micros(t: FileTiming): int {
    t.totalNodeMicros
  }

  function WithOutcome(o: Outcome): FileTiming -> int {
    (t: FileTiming) => CountOf(t.outcomeCounts, o)
  }

  function Durations(records: seq<Record>): int {
    if records == [] then 0 else Durations(records[..|records| - 1]) + records[|records| - 1].durationMicros
  }

  /** One more record raises each sum by what it brings. */
  lemma SumOneMore(timings: seq<FileTiming>, r: Record, weigh: FileTiming -> int, gain: int)
    requires forall t: FileTiming :: weigh(TimedMore(t, r)) == weigh(t) + gain
    requires weigh(FileTiming(r.file, 0, NO_OUTCOMES, 0)) == 0
    ensures Sum(TimingsMore(timings, r), weigh) == Sum(timings, weigh) + gain
  {
    hide TimedMore;
    var i := IndexOfFile(timings, r.file);
    if i < |timings| {
      var more := TimedMore(timings[i], r);
      assert timings == timings[..i] + ([timings[i]] + timings[i + 1..]);
      assert timings[i := more] == timings[..i] + ([more] + timings[i + 1..]);
      SumAppend(timings[..i], [timings[i]] + timings[i + 1..], weigh);
      SumAppend(timings[..i], [more] + timings[i + 1..], weigh);
      assert ([timings[i]] + timings[i + 1..])[1..] == timings[i + 1..];
      assert ([more] + timings[i + 1..])[1..] == timings[i + 1..];
    } else {
      var first := TimedMore(FileTiming(r.file, 0, NO_OUTCOMES, 0), r);
      SumAppend(timings, [first], weigh);
      assert [first][1..] == [];
    }
  }

  lemma {:induction false} TimingsAddUp(records: seq<Record>, o: Outcome)
    ensures Sum(Timings(records), Nodes) == |records|
    ensures Sum(Timings(records), Micros) == Durations(records)
    ensures Sum(Timings(records), WithOutcome(o)) == CountOf(Outcomes(records), o)
  {
    hide TimingsMore;
    if records != [] {
      var front, last := records[..|records| - 1], records[|records| - 1];
      TimingsAddUp(front, o);
      SumOneMore(Timings(front), last, Nodes, 1);
      SumOneMore(Timings(front), last, Micros, last.durationMicros);
      SumOneMore(Timings(front), last, WithOutcome(o), if last.outcome == o then 1 else 0);
    }
  }

  /** The per-file figures of a summary add up to its totals, outcome by outcome. */
  lemma FiguresAddUp(records: seq<Record>, partial: bool, telemetry: seq<Byte>, o: Outcome)
    ensures var s := SummaryOf(records, partial, telemetry);
            && Sum(s.files, Nodes) == s.testNodeCount
            && Sum(s.files, WithOutcome(o)) == CountOf(s.outcomeCounts, o)
            && Sum(s.files, Micros) == Durations(records)
            && s.outcomeCounts.passed + s.outcomeCounts.notPassed + s.outcomeCounts.skipped + s.outcomeCounts.todo
               == s.testNodeCount
  {
    hide Timings, Outcomes, Sort, SlowerFile, Utf8Length, Slowest, Files;
    TimingsAddUp(records, o);
    SumSorted(Timings(records), SlowerFile, Nodes);
    SumSorted(Timings(records), SlowerFile, Micros);
    SumSorted(Timings(records), SlowerFile, WithOutcome(o));
    OutcomesAddUp(records);
  }

  lemma {:induction false} OutcomesAddUp(records: seq<Record>)
    ensures var c := Outcomes(records); c.passed + c.notPassed + c.skipped + c.todo == |records|
  {
    if records != [] {
      OutcomesAddUp(records[..|records| - 1]);
    }
  }

  /** The records about one file. */
  function About(records: seq<Record>, file: Option<Utf16>): seq<Record> {
    if records == [] then []
    else
      About(records[..|records| - 1], file)
      + if records[|records| - 1].file == file then [records[|records| - 1]] else []
  }

  ghost predicate FilesDiffer(timings: seq<FileTiming>) {
    forall i, j :: 0 <= i < j < |timings| ==> timings[i].file != timings[j].file
  }

  /** The timing is the figures of the records about its file. */
  ghost predicate Exact(t: FileTiming, records: seq<Record>) {
    var about := About(records, t.file);
    t == FileTiming(t.file, |about|, Outcomes(about), Durations(about))
  }

  ghost predicate HasTiming(timings: seq<FileTiming>, file: Option<Utf16>) {
    exists k :: 0 <= k < |timings| && timings[k].file == file
  }

  /** Every file has one timing, and it is the figures of the records about that file. */
  lemma {:induction false} TimingsAreExact(records: seq<Record>)
    ensures FilesDiffer(Timings(records))
    ensures forall k :: 0 <= k < |Timings(records)| ==> Exact(Timings(records)[k], records)
    ensures forall f :: HasTiming(Timings(records), f) <==> About(records, f) != []
  {
    if records != [] {
      var front, last := records[..|records| - 1], records[|records| - 1];
      TimingsAreExact(front);
      assert records == front + [last];
      hide Exact, About;
      var timings, more := Timings(front), Timings(records);
      var i := IndexOfFile(timings, last.file);
      forall k | 0 <= k < |more| ensures Exact(more[k], records) {
        if k == |timings| {
          NoneAbout(front, last.file, timings);
        }
        StaysExact(front, last, if k < |timings| then timings[k] else FileTiming(last.file, 0, NO_OUTCOMES, 0));
      }
      forall f ensures HasTiming(more, f) <==> About(records, f) != [] {
        AboutOneMore(front, last, f);
        MoreTimings(timings, last, f);
      }
    }
  }

  lemma MoreTimings(timings: seq<FileTiming>, r: Record, f: Option<Utf16>)
    ensures HasTiming(TimingsMore(timings, r), f) <==> HasTiming(timings, f) || f == r.file
    ensures FilesDiffer(timings) ==> FilesDiffer(TimingsMore(timings, r))
  {
    var more := TimingsMore(timings, r);
    var i := IndexOfFile(timings, r.file);
    assert more[i].file == r.file;
    assert forall k :: 0 <= k < |timings| ==> more[k].file == timings[k].file;
    if HasTiming(timings, f) {
      var k :| 0 <= k < |timings| && timings[k].file == f;
      assert more[k].file == f;
    }
    if HasTiming(more, f) && f != r.file {
      var k :| 0 <= k < |more| && more[k].file == f;
      assert timings[k].file == f;
    }
  }

  lemma NoneAbout(front: seq<Record>, file: Option<Utf16>, timings: seq<FileTiming>)
    requires !HasTiming(timings, file) ==> About(front, file) == []
    requires IndexOfFile(timings, file) == |timings|
    ensures Exact(FileTiming(file, 0, NO_OUTCOMES, 0), front)
  {
  }

  lemma AboutOneMore(front: seq<Record>, last: Record, file: Option<Utf16>)
    ensures About(front + [last], file) == About(front, file) + if last.file == file then [last] else []
  {
    assert (front + [last])[..|front|] == front;
  }

  lemma FiguresOneMore(records: seq<Record>, r: Record)
    ensures Outcomes(records + [r]) == Tallied(Outcomes(records), r.outcome)
    ensures Durations(records + [r]) == Durations(records) + r.durationMicros
  {
    assert (records + [r])[..|records|] == records;
  }

  lemma StaysExact(front: seq<Record>, last: Record, t: FileTiming)
    requires Exact(t, front)
    ensures Exact(if t.file == last.file then TimedMore(t, last) else t, front + [last])
  {
    hide About, Outcomes, Durations, Tallied;
    AboutOneMore(front, last, t.file);
    FiguresOneMore(About(front, t.file), last);
    assert About(front, t.file) + [] == About(front, t.file);
  }
}
