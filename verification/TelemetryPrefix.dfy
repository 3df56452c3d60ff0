/** A summary of telemetry cut short. */
module TelemetryPrefix {
  // Every prefix of what the reporter writes is accepted, and says exactly what the whole lines in
  // it say.

  import opened Encoding
  import opened Json
  import opened Results
  import opened Telemetry
  import opened TelemetrySummary
  import opened Text

  // ----- lines of a cut text

  /** Lines, each with its newline. */
  function Unlines(lines: seq<Utf16>): Utf16 {
    if lines == [] then [] else lines[0] + [NEWLINE] + Unlines(lines[1..])
  }

  /** How many of the lines are whole, newline included, in the first n units. */
  function WholeLines(lines: seq<Utf16>, n: nat): (k: nat)
    ensures k <= |lines|
  {
    if lines == [] || n <= |lines[0]| then 0 else 1 + WholeLines(lines[1..], n - |lines[0]| - 1)
  }

  predicate NoNewline(t: Utf16) {
    forall i :: 0 <= i < |t| ==> t[i] != NEWLINE
  }

  lemma {:induction false} FirstNewlineAfter(line: Utf16, rest: Utf16)
    requires NoNewline(line) && (rest == [] || rest[0] == NEWLINE)
    ensures FirstNewline(line + rest) == |line|
  {
    if line == [] {
      assert line + rest == rest;
    } else {
      assert (line + rest)[1..] == line[1..] + rest;
      FirstNewlineAfter(line[1..], rest);
    }
  }

  lemma NoWholeLine(piece: Utf16)
    requires NoNewline(piece)
    ensures CompleteLines(piece) == []
  {
    FirstNewlineAfter(piece, []);
    assert piece + [] == piece;
  }

  lemma OneWholeLine(line: Utf16, rest: Utf16)
    requires NoNewline(line)
    ensures CompleteLines(line + [NEWLINE] + rest) == [line] + CompleteLines(rest)
  {
    var text := line + [NEWLINE] + rest;
    assert text == line + ([NEWLINE] + rest);
    FirstNewlineAfter(line, [NEWLINE] + rest);
    assert text[..|line|] == line && text[|line| + 1..] == rest;
  }

  lemma {:induction false} CompleteLinesOfCut(lines: seq<Utf16>, n: nat)
    requires (forall i :: 0 <= i < |lines| ==> NoNewline(lines[i])) && n <= |Unlines(lines)|
    ensures CompleteLines(Unlines(lines)[..n]) == lines[..WholeLines(lines, n)]
  {
    hide CompleteLines, NoNewline;
    if lines == [] {
      NothingComplete();
    } else {
      var line, later := lines[0], Unlines(lines[1..]);
      var cut := Unlines(lines)[..n];
      if n <= |line| {
        assert cut == line[..n];
        PieceHasNoNewline(line, n);
        NoWholeLine(cut);
      } else {
        var m := n - |line| - 1;
        assert cut == line + [NEWLINE] + later[..m];
        OneWholeLine(line, later[..m]);
        CompleteLinesOfCut(lines[1..], m);
      }
    }
  }

  lemma NothingComplete()
    ensures CompleteLines([]) == []
  {
  }

  lemma PieceHasNoNewline(line: Utf16, n: nat)
    requires NoNewline(line) && n <= |line|
    ensures NoNewline(line[..n])
  {
  }

  /** A cut text ends in the middle of a line unless it ends at the end of one. */
  lemma {:induction false} CutEnds(lines: seq<Utf16>, n: nat)
    requires (forall i :: 0 <= i < |lines| ==> NoNewline(lines[i])) && n <= |Unlines(lines)|
    ensures var cut := Unlines(lines)[..n];
            && (WholeLines(lines, n) == |lines| <==> n == |Unlines(lines)|)
            && (n == |Unlines(lines)| ==> cut == [] || EndsWithNewline(cut))
    decreases |lines|
  {
    if lines != [] {
      var line, later := lines[0], Unlines(lines[1..]);
      if n > |line| {
        var m := n - |line| - 1;
        CutEnds(lines[1..], m);
        var cut := Unlines(lines)[..n];
        assert cut == line + [NEWLINE] + later[..m];
        if m > 0 {
          assert cut[n - 1] == later[..m][m - 1];
        } else {
          assert cut[n - 1] == NEWLINE;
        }
      }
    }
  }

  lemma {:induction false} UnlinesAppend(a: seq<Utf16>, b: seq<Utf16>)
    ensures Unlines(a + b) == Unlines(a) + Unlines(b)
  {
    if a == [] {
      assert a + b == b;
    } else {
      UnlinesAppend(a[1..], b);
      assert (a + b)[1..] == a[1..] + b;
    }
  }

  // ----- the reporter's lines

  function RecordLines(records: seq<Record>): (lines: seq<Utf16>)
    ensures |lines| == |records| && forall i :: 0 <= i < |lines| ==> lines[i] == RecordLine(records[i])
  {
    seq(|records|, i requires 0 <= i < |records| => RecordLine(records[i]))
  }

  function ReportLines(records: seq<Record>): seq<Utf16> {
    RecordLines(records) + [FooterLine(|records|)]
  }

  lemma {:induction false} RecordsTextIsLines(records: seq<Record>)
    ensures RecordsText(records) == Unlines(RecordLines(records))
  {
    hide RecordLine;
    if records != [] {
      var front, last := records[..|records| - 1], records[|records| - 1];
      RecordsTextIsLines(front);
      assert RecordLines(records) == RecordLines(front) + [RecordLine(last)];
      UnlinesAppend(RecordLines(front), [RecordLine(last)]);
      OneLine(RecordLine(last));
    }
  }

  lemma OneLine(line: Utf16)
    ensures Unlines([line]) == line + [NEWLINE]
  {
    assert [line][1..] == [];
  }

  lemma ReportIsLines(records: seq<Record>)
    ensures Report(records) == Unlines(ReportLines(records))
  {
    hide RecordLine, FooterLine;
    RecordsTextIsLines(records);
    UnlinesAppend(RecordLines(records), [FooterLine(|records|)]);
    OneLine(FooterLine(|records|));
  }

  lemma PrintedHasNoNewline(j: Json)
    ensures NoNewline(Print(j))
  {
    PrintPrintable(j);
  }

  lemma ReportLinesHaveNoNewline(records: seq<Record>)
    ensures forall i :: 0 <= i < |ReportLines(records)| ==> NoNewline(ReportLines(records)[i])
  {
    hide NoNewline, Print;
    var lines := ReportLines(records);
    forall i | 0 <= i < |lines| ensures NoNewline(lines[i]) {
      if i < |records| {
        PrintedHasNoNewline(Obj(RecordFields(records[i])));
      } else {
        PrintedHasNoNewline(Obj(FooterFields(|records|)));
      }
    }
  }

  // ----- reading a line back

  /** A record as the summary shows it. */
  function Shown(r: Record, shown: Utf16 -> Utf16): Record {
    r.(file := match r.file
               case Some(file) => Some(shown(file))
               case None => None,
       name := shown(r.name))
  }

  lemma FieldAt(fields: seq<Field>, i: nat)
    requires DistinctKeys(fields) && i < |fields|
    ensures HasKey(fields, fields[i].key) && FieldOf(fields, fields[i].key) == Some(fields[i].value)
  {
    PlaceOf(fields, i);
  }

  lemma RecordFieldsFound(r: Record)
    ensures var fields := RecordFields(r);
            && ExactKeys(fields, RECORD_KEYS)
            && FieldOf(fields, KIND) == Some(Str(TELEMETRY_KIND)) && FieldOf(fields, SEQUENCE) == Some(Num(r.sequence))
            && FieldOf(fields, TEST_NUMBER) == Some(NullableNumber(r.testNumber))
            && FieldOf(fields, FILE) == Some(NullableText(r.file))
            && FieldOf(fields, LINE) == Some(NullableNumber(r.line))
            && FieldOf(fields, NAME) == Some(Str(r.name)) && FieldOf(fields, NESTING) == Some(Num(r.nesting))
            && FieldOf(fields, OUTCOME) == Some(Str(OutcomeText(r.outcome)))
            && FieldOf(fields, DURATION_MS) == Some(Num(r.durationMicros))
  {
    RecordKeysDiffer(r);
    hide DistinctKeys, HasKey, FieldOf;
    var fields := RecordFields(r);
    FieldAt(fields, 0);
    FieldAt(fields, 1);
    FieldAt(fields, 2);
    FieldAt(fields, 3);
    FieldAt(fields, 4);
    FieldAt(fields, 5);
    FieldAt(fields, 6);
    FieldAt(fields, 7);
    FieldAt(fields, 8);
  }

  lemma OutcomesDiffer()
    ensures PASSED != NOT_PASSED && PASSED != SKIPPED && PASSED != TODO
    ensures NOT_PASSED != SKIPPED && NOT_PASSED != TODO && SKIPPED != TODO
  {
    assert |PASSED| == 6 && |NOT_PASSED| == 10 && |SKIPPED| == 7 && |TODO| == 4;
  }

  lemma OutcomeReadsBack(o: Outcome)
    ensures ReadOutcome(Some(Str(OutcomeText(o)))) == Some(o)
  {
    OutcomesDiffer();
  }

  lemma NumbersReadBack(r: Record)
    requires Serializable(r)
    ensures ReadInteger(Some(Num(r.sequence))) == Some(r.sequence) && r.sequence != 0
    ensures ReadNullableInteger(Some(NullableNumber(r.testNumber))) == Some(r.testNumber)
    ensures ReadNullableInteger(Some(NullableNumber(r.line))) == Some(r.line)
    ensures ReadInteger(Some(Num(r.nesting))) == Some(r.nesting)
    ensures ReadDuration(Some(Num(r.durationMicros))) == Some(r.durationMicros)
  {
    hide RecordLine, Utf8Length;
  }

  lemma TextsReadBack(r: Record, shown: Utf16 -> Utf16)
    ensures ReadNullableText(Some(NullableText(r.file)), shown) == Some(Shown(r, shown).file)
    ensures ReadText(Some(Str(r.name)), shown) == Some(Shown(r, shown).name)
  {
  }

  lemma KindsDiffer()
    ensures TELEMETRY_KIND != TELEMETRY_END_KIND
  {
    assert |TELEMETRY_KIND| == 36 && |TELEMETRY_END_KIND| == 40;
  }

  /** Parsing undoes what the reporter serializes, but for what the summary does to texts. */
  lemma RecordReadsBack(r: Record, shown: Utf16 -> Utf16)
    requires Serializable(r)
    ensures !IsFooter(Obj(RecordFields(r)))
    ensures ParseRecord(Obj(RecordFields(r)), shown) == Some(Shown(r, shown))
  {
    hide FieldOf, ExactKeys, RecordFields, OutcomeText, ReadOutcome, Serializable, NullableNumber, NullableText,
      ReadInteger, ReadNullableInteger, ReadText, ReadNullableText, ReadDuration;
    RecordFieldsFound(r);
    OutcomeReadsBack(r.outcome);
    NumbersReadBack(r);
    TextsReadBack(r, shown);
    KindsDiffer();
  }

  lemma FooterReadsBack(count: nat)
    ensures IsFooter(Obj(FooterFields(count))) && FooterOk(Obj(FooterFields(count)), count)
  {
    FooterKeysDiffer(count);
    hide DistinctKeys, HasKey, FieldOf;
    var fields := FooterFields(count);
    FieldAt(fields, 0);
    FieldAt(fields, 1);
  }

  // ----- the footer always fits

  function Power(k: nat): nat {
    if k == 0 then 1 else 10 * Power(k - 1)
  }

  lemma {:induction false} DigitsShort(n: nat, k: nat)
    requires k >= 1 && n < Power(k)
    ensures |Digits(n)| <= k
  {
    assert Power(1) == 10;
    if n >= 10 {
      DigitsShort(n / 10, k - 1);
    }
  }

  lemma SafeDigitsShort(n: nat)
    requires n <= MAX_SAFE_INTEGER
    ensures |Digits(n)| <= 16
  {
    assert Power(2) == 100;
    assert Power(4) == 10_000;
    assert Power(6) == 1_000_000;
    assert Power(8) == 100_000_000;
    assert Power(10) == 10_000_000_000;
    assert Power(12) == 1_000_000_000_000;
    assert Power(14) == 100_000_000_000_000;
    assert Power(16) == 10_000_000_000_000_000;
    DigitsShort(n, 16);
  }

  lemma {:induction false} EscapeShort(s: Utf16)
    ensures |Escape(s)| <= 6 * |s|
    decreases |s|
  {
    if s == [] {
    } else if Paired(s) {
      EscapeShort(s[2..]);
    } else {
      EscapeShort(s[1..]);
    }
  }

  lemma {:induction false} Utf8Short(t: Utf16)
    ensures Utf8Length(t) <= 3 * |t|
    decreases |t|
  {
    if t == [] {
    } else if Paired(t) {
      Utf8Short(t[2..]);
    } else {
      Utf8Short(t[1..]);
    }
  }

  lemma PrintedPair(a: Field, b: Field)
    ensures |Print(Obj([a, b]))| == 3 + |PrintField(a)| + |PrintField(b)|
  {
    hide Print, Quote;
    PrintedObject([a, b]);
    var parts := PrintFields([a, b]);
    assert parts[1..] == [PrintField(b)];
  }

  lemma PrintedObject(fields: seq<Field>)
    ensures Print(Obj(fields)) == [OPEN_BRACE] + Join(PrintFields(fields)) + [CLOSE_BRACE]
  {
    assert PrintFields(fields)
        == seq(|fields|, i requires 0 <= i < |fields| => Quote(fields[i].key) + [COLON] + Print(fields[i].value));
  }

  lemma FooterFits(count: nat)
    requires count <= MAX_SAFE_INTEGER
    ensures Utf8Length(FooterLine(count) + [NEWLINE]) <= MAX_RECORD_BYTES
  {
    var fields := FooterFields(count);
    PrintedPair(fields[0], fields[1]);
    EscapeShort(KIND);
    EscapeShort(TELEMETRY_END_KIND);
    EscapeShort(RECORD_COUNT);
    SafeDigitsShort(count);
    assert |TELEMETRY_END_KIND| == 40;
    Utf8Short(FooterLine(count) + [NEWLINE]);
    hide Escape, Utf8Length, Digits;
  }

  // ----- reading whole lines

  function ShownAll(records: seq<Record>, shown: Utf16 -> Utf16): (r: seq<Record>)
    ensures |r| == |records| && forall i :: 0 <= i < |r| ==> r[i] == Shown(records[i], shown)
  {
    seq(|records|, i requires 0 <= i < |records| => Shown(records[i], shown))
  }

  lemma RecordLineReads(r: Record, lineNumber: nat, last: bool, count: nat, shown: Utf16 -> Utf16)
    requires Serializable(r) && r.sequence == count + 1
    ensures ReadLine(RecordLine(r), lineNumber, last, count, shown) == Ok(Some(Shown(r, shown)))
  {
    ParsePrinted(Obj(RecordFields(r)));
    RecordReadsBack(r, shown);
    hide Parse, ParseRecord, IsFooter, Utf8Length, Print;
  }

  lemma FooterLineReads(count: nat, lineNumber: nat, shown: Utf16 -> Utf16)
    requires count <= MAX_SAFE_INTEGER
    ensures ReadLine(FooterLine(count), lineNumber, true, count, shown) == Ok(None)
  {
    ParsePrinted(Obj(FooterFields(count)));
    FooterReadsBack(count);
    FooterFits(count);
    hide Parse, IsFooter, FooterOk, Utf8Length, Print;
  }

  lemma ReadOneMore(lines: seq<Utf16>, n: nat, read: Read, shown: Utf16 -> Utf16)
    requires 0 < n <= |lines| && ReadLines(lines, n - 1, shown) == Ok(read)
    ensures match ReadLine(lines[n - 1], n, n == |lines|, |read.records|, shown)
            case Ok(Some(record)) => ReadLines(lines, n, shown) == Ok(Read(read.records + [record], read.footerSeen))
            case Ok(None) => ReadLines(lines, n, shown) == Ok(Read(read.records, true))
            case Err(e) => ReadLines(lines, n, shown) == Err(e)
  {
    hide ReadLine;
  }

  lemma ReportLineAt(records: seq<Record>, lines: seq<Utf16>, i: nat)
    requires lines <= ReportLines(records) && i < |lines|
    ensures i < |records| ==> lines[i] == RecordLine(records[i])
    ensures i == |records| ==> lines[i] == FooterLine(|records|)
  {
    hide RecordLine, FooterLine;
  }

  lemma NumberedAt(records: seq<Record>, i: nat)
    requires Numbered(records) && i < |records|
    ensures records[i].sequence == i + 1 && Serializable(records[i])
  {
    hide Serializable;
  }

  lemma ReadNone(lines: seq<Utf16>, shown: Utf16 -> Utf16)
    ensures ReadLines(lines, 0, shown) == Ok(Read([], false))
  {
  }

  lemma ShownOneMore(records: seq<Record>, n: nat, shown: Utf16 -> Utf16)
    requires 0 < n <= |records|
    ensures ShownAll(records[..n], shown) == ShownAll(records[..n - 1], shown) + [Shown(records[n - 1], shown)]
  {
    hide Shown;
  }

  /** The first n lines of a report, none of them the footer. */
  lemma {:induction false} RecordLinesRead(records: seq<Record>, lines: seq<Utf16>, n: nat, shown: Utf16 -> Utf16)
    requires Numbered(records) && n <= |records| && n <= |lines| && lines <= ReportLines(records)
    ensures ReadLines(lines, n, shown) == Ok(Read(ShownAll(records[..n], shown), false))
  {
    hide ReadLine, ReadLines, RecordLine, Serializable, Numbered, ReportLines, Shown, ShownAll;
    if n == 0 {
      ReadNone(lines, shown);
      assert ShownAll(records[..0], shown) == [];
    } else {
      RecordLinesRead(records, lines, n - 1, shown);
      ReportLineAt(records, lines, n - 1);
      NumberedAt(records, n - 1);
      RecordLineReads(records[n - 1], n, n == |lines|, n - 1, shown);
      ReadOneMore(lines, n, Read(ShownAll(records[..n - 1], shown), false), shown);
      ShownOneMore(records, n, shown);
    }
  }

  lemma WholeReportReads(records: seq<Record>, shown: Utf16 -> Utf16)
    requires Numbered(records) && |records| <= MAX_SAFE_INTEGER
    ensures var lines := ReportLines(records);
            ReadLines(lines, |lines|, shown) == Ok(Read(ShownAll(records, shown), true))
  {
    hide ReadLine, ReadLines, FooterLine, Numbered, ReportLines;
    var lines := ReportLines(records);
    ReportLinesCount(records);
    RecordLinesRead(records, lines, |records|, shown);
    assert records[..|records|] == records;
    ReportLineAt(records, lines, |records|);
    FooterLineReads(|records|, |records| + 1, shown);
    ReadOneMore(lines, |records| + 1, Read(ShownAll(records, shown), false), shown);
  }

  function Smaller(a: nat, b: nat): nat {
    if a <= b then a else b
  }

  /** The summary of the first n units of a report, whatever bytes it is charged with. */
  lemma CutIsSummarized(records: seq<Record>, n: nat, telemetry: seq<Byte>, maxBytes: int, maxRecords: int,
                        shown: Utf16 -> Utf16)
    requires Numbered(records) && |records| <= maxRecords <= MAX_SAFE_INTEGER && maxRecords > 0
    requires n <= |Report(records)| && |telemetry| <= maxBytes && maxBytes > 0
    ensures var text := Report(records)[..n];
            var whole := Smaller(WholeLines(ReportLines(records), n), |records|);
            Summarized(text, telemetry, maxBytes, maxRecords, shown)
            == Ok(SummaryOf(ShownAll(records[..whole], shown), n < |Report(records)|, telemetry))
  {
    hide Report, ReportLines, SummaryOf, CompleteLines, ReadLines, WholeLines, Unlines, Numbered, EndsWithNewline;
    var lines, report := ReportLines(records), Report(records);
    var text, k := report[..n], WholeLines(lines, n);
    ReportIsLines(records);
    ReportLinesHaveNoNewline(records);
    CompleteLinesOfCut(lines, n);
    CutEnds(lines, n);
    ReportLinesCount(records);
    if k == |lines| {
      assert lines[..k] == lines && records[..|records|] == records;
      WholeReportReads(records, shown);
    } else {
      RecordLinesRead(records, lines[..k], k, shown);
    }
  }

  /** Whatever the cut, the text the reporter writes is accepted; the summary is that of the records
      whose lines are whole, and it is complete only for the whole text. */
  lemma EveryPrefixIsSummarized(records: seq<Record>, n: nat, maxBytes: int, maxRecords: int, shown: Utf16 -> Utf16)
    requires Numbered(records) && |records| <= maxRecords <= MAX_SAFE_INTEGER && maxRecords > 0
    requires n <= |Report(records)| && 0 < Utf8Length(Report(records)) <= maxBytes
    ensures var text := Report(records)[..n];
            var whole := Smaller(WholeLines(ReportLines(records), n), |records|);
            Summarized(text, Utf8(text), maxBytes, maxRecords, shown)
            == Ok(SummaryOf(ShownAll(records[..whole], shown), n < |Report(records)|, Utf8(text)))
  {
    hide Report, ReportLines, SummaryOf, Summarized, WholeLines, Numbered, Utf8Length;
    Utf8LengthOfPrefix(Report(records), n);
    CutIsSummarized(records, n, Utf8(Report(records)[..n]), maxBytes, maxRecords, shown);
  }

  lemma ReportLinesCount(records: seq<Record>)
    ensures |ReportLines(records)| == |records| + 1
  {
  }
}
