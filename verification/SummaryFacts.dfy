/** What a telemetry summary says of the records it sums up. */
module SummaryFacts {

  import opened Encoding
  import opened Json
  import opened Results
  import opened Sorting
  import opened Telemetry
  import opened TelemetrySummary
  import opened Text

  // ----- counted record by record

  /** How many records have this outcome. */
  function With(records: seq<Record>, o: Outcome): (places: set<int>) {
    set k | 0 <= k < |records| && records[k].outcome == o
  }

  function WithoutFile(records: seq<Record>): set<int> {
    set k | 0 <= k < |records| && records[k].file.None?
  }

  lemma {:induction false} OutcomesAre(records: seq<Record>)
    ensures var c := Outcomes(records);
            && c.passed == |With(records, Passed)| && c.notPassed == |With(records, NotPassed)|
            && c.skipped == |With(records, SkippedTest)| && c.todo == |With(records, TodoTest)|
  {
    if records == [] {
      forall o ensures With(records, o) == {} {
      }
    } else {
      var n := |records| - 1;
      OutcomesAre(records[..n]);
      forall o ensures |With(records, o)| == |With(records[..n], o)| + if records[n].outcome == o then 1 else 0 {
        WithOneMore(records, o);
      }
    }
  }

  lemma WithOneMore(records: seq<Record>, o: Outcome)
    requires records != []
    ensures var n := |records| - 1;
            |With(records, o)| == |With(records[..n], o)| + if records[n].outcome == o then 1 else 0
  {
    var n := |records| - 1;
    var front := With(records[..n], o);
    forall k | 0 <= k < n ensures records[..n][k] == records[k] {
    }
    assert With(records, o) == if records[n].outcome == o then front + {n} else front;
    assert n !in front;
  }

  lemma {:induction false} UnattributedIs(records: seq<Record>)
    ensures Unattributed(records) == |WithoutFile(records)|
  {
    if records == [] {
      assert WithoutFile(records) == {};
    } else {
      var n := |records| - 1;
      UnattributedIs(records[..n]);
      assert WithoutFile(records) == WithoutFile(records[..n]) + if records[n].file.None? then {n} else {};
      assert n !in WithoutFile(records[..n]);
    }
  }

  /** The files, each once. */
  lemma {:induction false} FilesAre(records: seq<Record>)
    ensures Distinct(Files(records))
    ensures forall f :: f in Files(records) <==> exists k :: 0 <= k < |records| && records[k].file == Some(f)
  {
    if records != [] {
      var n := |records| - 1;
      var front, last := records[..n], records[n];
      FilesAre(front);
      if last.file.Some? && last.file.value !in Files(front) {
        DistinctAppend(Files(front), last.file.value);
      }
      forall f ensures f in Files(records) <==> exists k :: 0 <= k < |records| && records[k].file == Some(f) {
        if k :| 0 <= k < |front| && front[k].file == Some(f) {
          assert records[k].file == Some(f);
        }
        if k :| 0 <= k < |records| && records[k].file == Some(f) {
          assert k == n || front[k].file == Some(f);
        }
      }
    }
  }

  // ----- orders

  lemma OrdersRank()
    ensures Ranks(AtMost) && Ranks(SlowerFile) && Ranks(SlowerNode)
  {
    AtMostIsTotalOrder();
    hide AtMost;
  }

  /** A slower record, and of equally slow ones the earlier. */
  predicate Ahead(x: Record, y: Record) {
    x.durationMicros > y.durationMicros || (x.durationMicros == y.durationMicros && x.sequence <= y.sequence)
  }

  /** The top list holds as many records as there are, up to twenty, and none left out is ahead of one
      that is kept. */
  lemma SlowestIs(records: seq<Record>)
    ensures var top, left := Slowest(records), multiset(records) - multiset(Slowest(records));
            && |top| == (if |records| <= 20 then |records| else 20) && multiset(top) <= multiset(records)
            && (forall i, j :: 0 <= i < j < |top| ==> Ahead(top[i], top[j]))
            && (forall t, r :: t in top && r in left ==> Ahead(t, r))
  {
    hide Sort;
    OrdersRank();
    SortSorts(records, SlowerNode);
    var sorted := Sort(records, SlowerNode);
    TopOfSorted(sorted, |Slowest(records)|);
  }

  /** The first n of a sorted list are ahead of each other in turn, and of all the others. */
  lemma TopOfSorted(sorted: seq<Record>, n: nat)
    requires n <= |sorted| && Sorted(sorted, SlowerNode)
    ensures var top, left := sorted[..n], multiset(sorted) - multiset(sorted[..n]);
            && multiset(top) <= multiset(sorted)
            && (forall i, j :: 0 <= i < j < |top| ==> Ahead(top[i], top[j]))
            && (forall t, r :: t in top && r in left ==> Ahead(t, r))
  {
    var top, rest := sorted[..n], sorted[n..];
    assert sorted == top + rest;
    assert multiset(sorted) - multiset(top) == multiset(rest);
    forall i, j | 0 <= i < j < |top| ensures Ahead(top[i], top[j]) {
      assert SlowerNode(sorted[i], sorted[j]);
    }
    forall t, r | t in top && r in multiset(rest) ensures Ahead(t, r) {
      var i :| 0 <= i < |top| && top[i] == t;
      var j :| 0 <= j < |rest| && rest[j] == r;
      assert SlowerNode(sorted[i], sorted[n + j]);
    }
  }

  /** The per-file list falls in total duration; of equal totals the earlier file name comes first, and
      what no file is named for last. */
  predicate FileAhead(x: FileTiming, y: FileTiming) {
    || x.totalNodeMicros > y.totalNodeMicros
    || (x.totalNodeMicros == y.totalNodeMicros
        && (y.file.None? || (x.file.Some? && AtMost(x.file.value, y.file.value))))
  }

  /** Every figure of a summary, told from the records alone. */
  lemma SummaryMeans(records: seq<Record>, partial: bool, telemetry: seq<Byte>)
    ensures var s := SummaryOf(records, partial, telemetry);
            && s.partial == partial && s.footerComplete == !partial
            && s.telemetry == telemetry && s.telemetryBytes == |telemetry| && s.testNodeCount == |records|
            && (forall i, j :: 0 <= i < j < |s.observedFiles| ==>
                  s.observedFiles[i] != s.observedFiles[j] && AtMost(s.observedFiles[i], s.observedFiles[j]))
            && (forall f :: f in s.observedFiles <==> exists k :: 0 <= k < |records| && records[k].file == Some(f))
            && s.unattributedTestNodeCount == |WithoutFile(records)|
            && s.outcomeCounts.passed == |With(records, Passed)|
            && s.outcomeCounts.notPassed == |With(records, NotPassed)|
            && s.outcomeCounts.skipped == |With(records, SkippedTest)|
            && s.outcomeCounts.todo == |With(records, TodoTest)|
    ensures var top := SummaryOf(records, partial, telemetry).topSlowTestNodes;
            && |top| == (if |records| <= 20 then |records| else 20) && multiset(top) <= multiset(records)
            && (forall i, j :: 0 <= i < j < |top| ==> Ahead(top[i], top[j]))
            && (forall t, r :: t in top && r in multiset(records) - multiset(top) ==> Ahead(t, r))
    ensures var files := SummaryOf(records, partial, telemetry).files;
            && SummaryOf(records, partial, telemetry).fileCount == |files|
            && multiset(files) == multiset(Timings(records))
            && forall i, j :: 0 <= i < j < |files| ==> FileAhead(files[i], files[j])
  {
    hide Files, Outcomes, Unattributed, Timings, Slowest, With, WithoutFile, Sort, AtMost;
    OutcomesAre(records);
    UnattributedIs(records);
    FilesAre(records);
    SlowestIs(records);
    OrdersRank();
    SortSorts(Files(records), AtMost);
    SortSorts(Timings(records), SlowerFile);
    PermutationKeepsDistinct(Files(records), Sort(Files(records), AtMost));
    var files := Sort(Timings(records), SlowerFile);
    forall i, j | 0 <= i < j < |files| ensures FileAhead(files[i], files[j]) {
      assert SlowerFile(files[i], files[j]);
    }
  }

  // ----- what is accepted

  predicate SafeInteger(n: int) {
    0 <= n <= 9007199254740991
  }

  predicate SaysNumber(j: Option<Json>, n: Option<int>) {
    match n
    case None => j == Some(Null)
    case Some(n) => SafeInteger(n) && j == Some(Num(n))
  }

  predicate SaysText(j: Option<Json>, t: Utf16, shown: Utf16 -> Utf16) {
    j.Some? && j.value.Str? && t == shown(j.value.text)
  }

  predicate SaysOutcome(j: Option<Json>, o: Outcome) {
    match o
    case Passed => j == Some(Str(Ascii("passed")))
    case NotPassed => j == Some(Str(Ascii("not-passed")))
    case SkippedTest => j == Some(Str(Ascii("skipped")))
    case TodoTest => j == Some(Str(Ascii("todo")))
  }

  /** An object of exactly the nine properties, each saying what the record holds. */
  predicate SaysRecord(j: Json, r: Record, shown: Utf16 -> Utf16) {
    && j.Obj? && |j.fields| == 9
    && FieldOf(j.fields, KIND) == Some(Str(Ascii("workflow-full-gate-test-telemetry.v1")))
    && SaysNumber(FieldOf(j.fields, SEQUENCE), Some(r.sequence))
    && SaysNumber(FieldOf(j.fields, TEST_NUMBER), r.testNumber)
    && (if r.file.None? then FieldOf(j.fields, FILE) == Some(Null)
        else SaysText(FieldOf(j.fields, FILE), r.file.value, shown))
    && SaysNumber(FieldOf(j.fields, LINE), r.line)
    && SaysText(FieldOf(j.fields, NAME), r.name, shown)
    && SaysNumber(FieldOf(j.fields, NESTING), Some(r.nesting))
    && SaysOutcome(FieldOf(j.fields, OUTCOME), r.outcome)
    && r.durationMicros >= 0 && FieldOf(j.fields, DURATION_MS) == Some(Num(r.durationMicros))
  }

  predicate SaysFooter(j: Json, count: nat) {
    && j.Obj? && |j.fields| == 2
    && FieldOf(j.fields, KIND) == Some(Str(Ascii("workflow-full-gate-test-telemetry-end.v1")))
    && FieldOf(j.fields, RECORD_COUNT) == Some(Num(count))
  }

  /** What a record's or a footer's value is read as. */
  lemma ValueMeans(j: Json, r: Record, count: nat, shown: Utf16 -> Utf16)
    ensures !IsFooter(j) && ParseRecord(j, shown) == Some(r) <==> r.sequence >= 1 && SaysRecord(j, r, shown)
    ensures IsFooter(j) && FooterOk(j, count) <==> SaysFooter(j, count)
  {
    hide HasKey, FieldOf;
    assert |TELEMETRY_KIND| != |TELEMETRY_END_KIND|;
    OutcomeNames();
    if j.Obj? {
      KeysHeld(j.fields);
    }
  }

  lemma OutcomeNames()
    ensures PASSED == Ascii("passed") && NOT_PASSED == Ascii("not-passed")
    ensures SKIPPED == Ascii("skipped") && TODO == Ascii("todo")
  {
  }

  /** The names of the properties. */
  lemma PropertyNames()
    ensures KIND == Ascii("kind") && SEQUENCE == Ascii("sequence") && TEST_NUMBER == Ascii("testNumber")
    ensures FILE == Ascii("file") && LINE == Ascii("line") && NAME == Ascii("name") && NESTING == Ascii("nesting")
    ensures OUTCOME == Ascii("outcome") && DURATION_MS == Ascii("durationMs")
    ensures RECORD_COUNT == Ascii("recordCount")
  {
  }

  lemma KeysHeld(fields: seq<Field>)
    ensures forall key :: FieldOf(fields, key).Some? <==> HasKey(fields, key)
    ensures ExactKeys(fields, RECORD_KEYS)
            <==> |fields| == 9 && forall key :: key in RECORD_KEYS ==> HasKey(fields, key)
  {
    hide HasKey;
    forall i | 0 <= i < |RECORD_KEYS| ensures RECORD_KEYS[i] in RECORD_KEYS {
    }
  }

  /** A line is read as a record exactly when it is within its bound, says that record, and numbers it
      next; as the footer exactly when it is the last line and counts the records before it. */
  lemma LineMeans(line: Utf16, lineNumber: nat, last: bool, count: nat, shown: Utf16 -> Utf16, r: Record)
    ensures ReadLine(line, lineNumber, last, count, shown) == Ok(Some(r)) <==>
              && |Utf8(line + [NEWLINE])| <= 16_384 && Parse(line).Some?
              && SaysRecord(Parse(line).value, r, shown) && r.sequence == count + 1
    ensures ReadLine(line, lineNumber, last, count, shown) == Ok(None) <==>
              && |Utf8(line + [NEWLINE])| <= 16_384 && Parse(line).Some?
              && last && SaysFooter(Parse(line).value, count)
  {
    hide Parse, ParseRecord, FooterOk, IsFooter, SaysRecord, SaysFooter, Utf8;
    var read := ReadLine(line, lineNumber, last, count, shown);
    if Parse(line).Some? {
      var j := Parse(line).value;
      ValueMeans(j, r, count, shown);
      FooterIsObject(j);
      if read == Ok(Some(r)) {
        assert !IsFooter(j) && ParseRecord(j, shown) == Some(r);
      }
    }
  }

  lemma FooterIsObject(j: Json)
    ensures IsFooter(j) ==> j.Obj?
  {
  }

  /** Line i is accepted as the line after i records. */
  predicate Accepted(lines: seq<Utf16>, i: nat, shown: Utf16 -> Utf16)
    requires i < |lines|
  {
    ReadLine(lines[i], i + 1, i + 1 == |lines|, i, shown).Ok?
  }

  predicate EndsInFooter(lines: seq<Utf16>, shown: Utf16 -> Utf16) {
    lines != [] && ReadLine(lines[|lines| - 1], |lines|, true, |lines| - 1, shown) == Ok(None)
  }

  /** The lines are accepted exactly when each is; all are records but for a footer at the end. */
  lemma {:induction false} LinesMean(lines: seq<Utf16>, n: nat, shown: Utf16 -> Utf16)
    requires n <= |lines|
    ensures ReadLines(lines, n, shown).Ok? <==> forall i: nat :: i < n ==> Accepted(lines, i, shown)
    ensures ReadLines(lines, n, shown).Ok? ==>
              var read := ReadLines(lines, n, shown).value;
              && (read.footerSeen <==> n == |lines| && EndsInFooter(lines, shown))
              && |read.records| == n - (if read.footerSeen then 1 else 0)
              && forall i: nat :: i < |read.records| ==>
                   ReadLine(lines[i], i + 1, i + 1 == |lines|, i, shown) == Ok(Some(read.records[i]))
  {
    hide ReadLine;
    if n > 0 {
      LinesMean(lines, n - 1, shown);
      OnlyLastIsFooter(lines[n - 1], n, n == |lines|, n - 1, shown);
      assert Accepted(lines, n - 1, shown) <==> ReadLine(lines[n - 1], n, n == |lines|, n - 1, shown).Ok?;
    }
  }

  /** The error reported is that of the first line that is not accepted. */
  lemma {:induction false} FirstErrorReported(lines: seq<Utf16>, n: nat, i: nat, shown: Utf16 -> Utf16)
    requires i < n <= |lines| && !Accepted(lines, i, shown) && forall k: nat :: k < i ==> Accepted(lines, k, shown)
    ensures ReadLines(lines, n, shown)
            == Err(ReadLine(lines[i], i + 1, i + 1 == |lines|, i, shown).error)
  {
    hide ReadLine;
    if n > i + 1 {
      FirstErrorReported(lines, n - 1, i, shown);
    } else {
      LinesMean(lines, i, shown);
      assert |ReadLines(lines, n - 1, shown).value.records| == i;
    }
  }

  lemma OnlyLastIsFooter(line: Utf16, lineNumber: nat, last: bool, count: nat, shown: Utf16 -> Utf16)
    ensures ReadLine(line, lineNumber, last, count, shown) == Ok(None) ==> last
  {
    hide Parse, ParseRecord, FooterOk, IsFooter, Utf8Length;
  }

  function Terminated(lines: seq<Utf16>): Utf16 {
    if lines == [] then [] else lines[0] + [0x0A] + Terminated(lines[1..])
  }

  /** The complete lines, each with its newline, are the text up to its last newline. */
  lemma {:induction false} CompleteLinesAre(t: Utf16)
    ensures var lines := CompleteLines(t);
            && Terminated(lines) <= t && 0x0A !in t[|Terminated(lines)|..]
            && forall i :: 0 <= i < |lines| ==> 0x0A !in lines[i]
    decreases |t|
  {
    FirstNewlineIsFirst(t);
    var n := FirstNewline(t);
    hide FirstNewline;
    if n < |t| {
      CompleteLinesAre(t[n + 1..]);
      LineThenLines(t[..n], CompleteLines(t[n + 1..]), t[n + 1..]);
      assert t == t[..n] + [0x0A] + t[n + 1..];
    }
  }

  lemma LineThenLines(line: Utf16, lines: seq<Utf16>, text: Utf16)
    requires Terminated(lines) <= text
    ensures var joined, all := Terminated([line] + lines), line + [0x0A] + text;
            joined <= all && all[|joined|..] == text[|Terminated(lines)|..]
  {
    assert ([line] + lines)[1..] == lines;
  }

  lemma {:induction false} FirstNewlineIsFirst(t: Utf16)
    ensures 0x0A !in t[..FirstNewline(t)]
  {
    if t != [] && t[0] != NEWLINE {
      FirstNewlineIsFirst(t[1..]);
      assert t[..FirstNewline(t)] == [t[0]] + t[1..][..FirstNewline(t[1..])];
    }
  }

  /** Telemetry is summarised exactly when it is within its bounds, each line is accepted, and nothing
      follows the footer; it is complete exactly when its last line is the footer and ends. */
  lemma TextMeans(jsonl: Utf16, telemetry: seq<Byte>, maxBytes: int, maxRecords: int, shown: Utf16 -> Utf16)
    ensures var (lines, r) := (CompleteLines(jsonl), Summarized(jsonl, telemetry, maxBytes, maxRecords, shown));
            var footer := EndsInFooter(lines, shown);
            && (r.Ok? <==>
                  && 0 < maxBytes && |telemetry| <= maxBytes && 0 < maxRecords && |lines| <= maxRecords + 1
                  && (forall i: nat :: i < |lines| ==> Accepted(lines, i, shown))
                  && (footer ==> jsonl == [] || jsonl[|jsonl| - 1] == 0x0A))
            && (r.Ok? ==>
                  && (r.value.footerComplete <==> footer)
                  && r.value.testNodeCount == |lines| - (if footer then 1 else 0))
  {
    hide ReadLine, CompleteLines, ReadLines, Accepted, EndsInFooter;
    var lines := CompleteLines(jsonl);
    LinesMean(lines, |lines|, shown);
    forall records, partial ensures var s := SummaryOf(records, partial, telemetry);
                                    s.footerComplete == !partial && s.testNodeCount == |records|
    {
    }
    hide SummaryOf;
  }
}
