/** A summary of telemetry cut short at any byte. */
module TelemetryBytes {
  // A cut between characters is summarised by its whole lines; a cut inside one is refused.

  import opened Encoding
  import opened Json
  import opened Results
  import opened Telemetry
  import opened TelemetryPrefix
  import opened TelemetrySummary
  import opened Text

  // ----- what is printed has no surrogate without its partner

  lemma {:induction false} PlainIsSound(t: Utf16)
    requires forall i :: 0 <= i < |t| ==> !Surrogate(t[i])
    ensures Sound(t)
  {
    if t != [] {
      PlainIsSound(t[1..]);
    }
  }

  lemma EscapeUnitPlain(c: CodeUnit)
    ensures forall i :: 0 <= i < |EscapeUnit(c)| ==> !Surrogate(EscapeUnit(c)[i])
  {
  }

  lemma {:induction false} EscapeSound(s: Utf16)
    ensures Sound(Escape(s))
    decreases |s|
  {
    hide EscapeUnit;
    if s == [] {
    } else if Paired(s) {
      EscapeSound(s[2..]);
      assert Escape(s)[2..] == Escape(s[2..]);
    } else {
      EscapeSound(s[1..]);
      EscapeUnitPlain(s[0]);
      PlainIsSound(EscapeUnit(s[0]));
      SoundAppend(EscapeUnit(s[0]), Escape(s[1..]));
    }
  }

  lemma QuoteSound(s: Utf16)
    ensures Sound(Quote(s))
  {
    EscapeSound(s);
    SoundAround([QUOTE], Escape(s), [QUOTE]);
  }

  /** Sound text between units that are no surrogates. */
  lemma SoundAround(before: Utf16, t: Utf16, after: Utf16)
    requires Sound(t) && |before| == |after| == 1 && !Surrogate(before[0]) && !Surrogate(after[0])
    ensures Sound(before + t + after) && Sound(before + t) && Sound(t + after)
  {
    PlainIsSound(before);
    PlainIsSound(after);
    SoundAppend(t, after);
    SoundAppend(before, t);
    SoundAppend(before + t, after);
  }

  lemma {:induction false} DigitsPlain(n: nat)
    ensures forall i :: 0 <= i < |Digits(n)| ==> !Surrogate(Digits(n)[i])
  {
    if n >= 10 {
      DigitsPlain(n / 10);
    }
  }

  lemma NumberSound(n: int)
    ensures Sound(PrintNumber(n))
  {
    DigitsPlain(if n < 0 then -n else n);
    PlainIsSound(PrintNumber(n));
  }

  lemma {:induction false} JoinSound(parts: seq<Utf16>)
    requires forall i :: 0 <= i < |parts| ==> Sound(parts[i])
    ensures Sound(Join(parts))
  {
    if |parts| > 1 {
      JoinSound(parts[1..]);
      SoundAround([COMMA], Join(parts[1..]), [COMMA]);
      SoundAppend(parts[0], [COMMA] + Join(parts[1..]));
      assert Join(parts) == parts[0] + ([COMMA] + Join(parts[1..]));
    }
  }

  lemma WordsSound()
    ensures Sound(NULL_TEXT) && Sound(TRUE_TEXT) && Sound(FALSE_TEXT)
  {
    PlainIsSound(NULL_TEXT);
    PlainIsSound(TRUE_TEXT);
    PlainIsSound(FALSE_TEXT);
  }

  lemma FieldSound(f: Field)
    requires Sound(Print(f.value))
    ensures Sound(PrintField(f))
  {
    hide Sound, Print, Quote;
    QuoteSound(f.key);
    SoundAround([COLON], Print(f.value), [COLON]);
    SoundAppend(Quote(f.key), [COLON] + Print(f.value));
    assert PrintField(f) == Quote(f.key) + ([COLON] + Print(f.value));
  }

  lemma {:induction false} PrintSound(j: Json)
    ensures Sound(Print(j))
  {
    hide Sound, Quote, PrintNumber, Join, PrintField;
    match j {
      case Num(n) => NumberSound(n);
      case Str(s) => QuoteSound(s);
      case Arr(items) =>
        var parts := PrintAll(items);
        forall i | 0 <= i < |items| ensures Sound(parts[i]) {
          PrintSound(items[i]);
        }
        JoinSound(parts);
        SoundAround([OPEN_BRACKET], Join(parts), [CLOSE_BRACKET]);
        assert Print(j) == [OPEN_BRACKET] + Join(parts) + [CLOSE_BRACKET];
      case Obj(fields) =>
        var parts := PrintFields(fields);
        forall i | 0 <= i < |fields| ensures Sound(parts[i]) {
          PrintSound(fields[i].value);
          FieldSound(fields[i]);
        }
        JoinSound(parts);
        SoundAround([OPEN_BRACE], Join(parts), [CLOSE_BRACE]);
        PrintedObject(fields);
      case _ => WordsSound();
    }
  }

  // ----- whole lines in a number of bytes

  /** How many of the lines are whole, newline included, in the first n bytes. */
  function WholeLinesIn(lines: seq<Utf16>, n: nat): (k: nat)
    ensures k <= |lines|
  {
    if lines == [] || n <= |Utf8(lines[0])| then 0
    else 1 + WholeLinesIn(lines[1..], n - |Utf8(lines[0])| - 1)
  }

  lemma NewlineIsOneByte(line: Utf16, rest: Utf16)
    requires Sound(line)
    ensures Utf8Length(line + [NEWLINE] + rest) == Utf8Length(line) + 1 + Utf8Length(rest)
    ensures Sound(line + [NEWLINE] + rest) <==> Sound(rest)
  {
    PlainIsSound([NEWLINE]);
    SoundAppend(line, [NEWLINE]);
    SoundAppend(line + [NEWLINE], rest);
    Utf8Append(line, [NEWLINE]);
    Utf8Append(line + [NEWLINE], rest);
    assert [NEWLINE][1..] == [] && Utf8Length([NEWLINE]) == 1;
    hide Sound, Utf8Length;
  }

  /** Units and bytes of a cut agree on the lines that are whole. */
  lemma {:induction false} WholeLinesAgree(lines: seq<Utf16>, m: nat)
    requires (forall i :: 0 <= i < |lines| ==> Sound(lines[i])) && m <= |Unlines(lines)|
    ensures WholeLinesIn(lines, Utf8Length(Unlines(lines)[..m])) == WholeLines(lines, m)
    decreases |lines|
  {
    hide Sound, Utf8Length;
    if lines != [] {
      var line, later := lines[0], Unlines(lines[1..]);
      var cut := Unlines(lines)[..m];
      if m <= |line| {
        assert cut == line[..m];
        Utf8LengthOfPrefix(line, m);
      } else {
        var more := m - |line| - 1;
        assert cut == line + [NEWLINE] + later[..more];
        NewlineIsOneByte(line, later[..more]);
        WholeLinesAgree(lines[1..], more);
      }
    }
  }

  lemma {:induction false} UnlinesSound(lines: seq<Utf16>)
    requires forall i :: 0 <= i < |lines| ==> Sound(lines[i])
    ensures Sound(Unlines(lines))
  {
    hide Sound;
    if lines == [] {
      PlainIsSound([]);
    } else {
      UnlinesSound(lines[1..]);
      NewlineIsOneByte(lines[0], Unlines(lines[1..]));
    }
  }

  lemma ReportLinesSound(records: seq<Record>)
    ensures forall i :: 0 <= i < |ReportLines(records)| ==> Sound(ReportLines(records)[i])
    ensures Sound(Report(records))
  {
    hide Sound, Print, Report, RecordFields, FooterFields, Unlines;
    var lines := ReportLines(records);
    forall i | 0 <= i < |lines| ensures Sound(lines[i]) {
      if i < |records| {
        PrintSound(Obj(RecordFields(records[i])));
      } else {
        PrintSound(Obj(FooterFields(|records|)));
      }
    }
    UnlinesSound(lines);
    ReportIsLines(records);
  }

  // ----- no byte order mark

  lemma LineBegins(fields: seq<Field>)
    ensures Print(Obj(fields)) != [] && Print(Obj(fields))[0] == OPEN_BRACE
  {
  }

  lemma ReportBegins(records: seq<Record>)
    ensures Report(records) != [] && Report(records)[0] == OPEN_BRACE
  {
    hide Print, Report, RecordFields, FooterFields;
    ReportIsLines(records);
    var lines := ReportLines(records);
    if records != [] {
      LineBegins(RecordFields(records[0]));
    } else {
      LineBegins(FooterFields(0));
    }
    assert Unlines(lines) == lines[0] + [NEWLINE] + Unlines(lines[1..]);
  }

  lemma FirstByte(t: Utf16)
    requires t != [] && t[0] == OPEN_BRACE
    ensures Utf8(t) != [] && Utf8(t)[0] == 0x7B
  {
    assert FirstBytes(t) == [0x7B];
    hide UnitBytes, PairBytes;
  }

  lemma NoMark(b: seq<Byte>, n: nat)
    requires b != [] && b[0] == 0x7B && n <= |b|
    ensures DecodeUtf8(b[..n]) == ReadCharacters(b[..n])
  {
    hide ReadCharacters;
    assert n > 0 ==> b[..n][0] != BYTE_ORDER_MARK[0];
  }

  // ----- every cut

  /** Wherever the bytes of a report are cut, they are accepted exactly when the cut parts no
      character; the summary is then that of the records whose lines are whole, of the bytes that are
      left, and complete only for the whole report. */
  lemma EveryByteCutIsDecided(records: seq<Record>, n: nat, maxBytes: int, maxRecords: int, shown: Utf16 -> Utf16)
    requires Numbered(records) && |records| <= maxRecords <= MAX_SAFE_INTEGER && maxRecords > 0
    requires n <= |Utf8(Report(records))| <= maxBytes
    ensures var bytes := Utf8(Report(records));
            var whole := Smaller(WholeLinesIn(ReportLines(records), n), |records|);
            SummarizedBytes(bytes[..n], maxBytes, maxRecords, shown)
            == if n == |bytes| || !Continuation(bytes[n])
               then Ok(SummaryOf(ShownAll(records[..whole], shown), n < |bytes|, bytes[..n]))
               else Err(NotUtf8)
  {
    hide Report, ReportLines, SummaryOf, Summarized, WholeLines, WholeLinesIn, Numbered, Utf8Length, DecodeUtf8,
      ReadCharacters, Sound, Unlines;
    var report := Report(records);
    ReportBegins(records);
    ReportLinesSound(records);
    FirstByte(report);
    NoMark(Utf8(report), n);
    var m := CutReads(report, n);
    if Between(Utf8(report), n) {
      SomeBytes(report);
      CutIsSummarized(records, m, Utf8(report)[..n], maxBytes, maxRecords, shown);
      ReportIsLines(records);
      WholeLinesAgree(ReportLines(records), m);
    }
  }

  lemma SomeBytes(t: Utf16)
    requires t != []
    ensures |Utf8(t)| > 0
  {
  }

  // ----- which reports have a cut that is refused

  lemma FirstCharacterToPart(t: Utf16, i: nat)
    requires t != [] && Sound(t) && i < FirstUnits(t) && t[i] >= 0x80
    ensures |FirstBytes(t)| > 1 && Continuation(FirstBytes(t)[1])
    ensures t[i] < 0x800 ==> FirstBytes(t) == UnitBytes(t[i]) && |FirstBytes(t)| == 2
  {
    hide UnitBytes, PairBytes, ReadCharacter, Announced;
    SoundFirst(t);
    FirstReadsBack(t);
  }

  lemma Shifted(a: seq<Byte>, b: seq<Byte>, n: nat)
    requires 0 < n < |b|
    ensures (a + b)[|a| + n] == b[n] && (a + b)[|a| + n - 1..|a| + n + 1] == b[n - 1..n + 1]
  {
  }

  /** A unit beyond ASCII belongs to a character of more than one byte. */
  lemma {:induction false} CharacterToPart(t: Utf16, i: nat) returns (n: nat)
    requires Sound(t) && i < |t| && t[i] >= 0x80
    ensures 0 < n < |Utf8(t)| && Continuation(Utf8(t)[n])
    ensures t[i] < 0x800 ==> Utf8(t)[n - 1..n + 1] == UnitBytes(t[i])
    decreases |t|
  {
    hide UnitBytes, Utf8Length, FirstBytes, Continuation, Sound;
    SoundFirst(t);
    var k, first := FirstUnits(t), FirstBytes(t);
    var rest := Utf8(t[k..]);
    assert Utf8(t) == first + rest;
    if i < k {
      n := 1;
      FirstCharacterToPart(t, i);
      assert t[i] < 0x800 ==> Utf8(t)[0..2] == first;
    } else {
      var m := CharacterToPart(t[k..], i - k);
      Shifted(first, rest, m);
      n := |first| + m;
    }
  }

  lemma {:induction false} AsciiBytes(t: Utf16)
    requires forall i :: 0 <= i < |t| ==> t[i] < 0x80
    ensures forall n :: 0 <= n < |Utf8(t)| ==> !Continuation(Utf8(t)[n])
  {
    if t != [] {
      AsciiBytes(t[1..]);
      assert FirstBytes(t) == [t[0] as int as Byte];
    }
  }

  /** A report has a cut that is refused exactly when it holds a character beyond ASCII. */
  lemma RefusedCuts(records: seq<Record>, maxBytes: int, maxRecords: int, shown: Utf16 -> Utf16)
    requires Numbered(records) && |records| <= maxRecords <= MAX_SAFE_INTEGER && maxRecords > 0
    requires |Utf8(Report(records))| <= maxBytes
    ensures var bytes := Utf8(Report(records));
            (exists n :: 0 <= n <= |bytes| && SummarizedBytes(bytes[..n], maxBytes, maxRecords, shown) == Err(NotUtf8))
            <==> exists i :: 0 <= i < |Report(records)| && Report(records)[i] >= 0x80
  {
    hide Report, ReportLines, SummaryOf, SummarizedBytes, Numbered, Utf8Length, Sound, WholeLinesIn;
    var report, bytes := Report(records), Utf8(Report(records));
    ReportLinesSound(records);
    if i :| 0 <= i < |report| && report[i] >= 0x80 {
      var n := CharacterToPart(report, i);
      EveryByteCutIsDecided(records, n, maxBytes, maxRecords, shown);
    } else {
      AsciiBytes(report);
      forall n | 0 <= n <= |bytes| ensures SummarizedBytes(bytes[..n], maxBytes, maxRecords, shown) != Err(NotUtf8) {
        EveryByteCutIsDecided(records, n, maxBytes, maxRecords, shown);
      }
    }
  }

  // ----- a name with an accent

  const ACCENTED := Record(1, None, None, None, [0xE9], 0, Passed, 0)

  lemma {:induction false} JoinHolds(parts: seq<Utf16>, i: nat, c: CodeUnit)
    requires i < |parts| && c in parts[i]
    ensures c in Join(parts)
  {
    if |parts| > 1 && i > 0 {
      JoinHolds(parts[1..], i - 1, c);
    }
  }

  lemma NameIsPrinted(r: Record, c: CodeUnit)
    requires c in Escape(r.name)
    ensures c in RecordLine(r)
  {
    hide Escape, Join;
    var fields := RecordFields(r);
    assert PrintField(fields[5]) == Quote(NAME) + [COLON] + Quote(r.name);
    assert c in Quote(r.name);
    assert c in PrintFields(fields)[5];
    JoinHolds(PrintFields(fields), 5, c);
    PrintedObject(fields);
  }

  lemma {:induction false} JoinShort(parts: seq<Utf16>, most: nat)
    requires forall i :: 0 <= i < |parts| ==> |parts[i]| <= most
    ensures |Join(parts)| <= |parts| * (most + 1)
  {
    if |parts| > 1 {
      JoinShort(parts[1..], most);
    }
  }

  lemma FieldShort(f: Field)
    requires |f.key| <= 11
    requires match f.value
             case Str(s) => |s| <= 40
             case Num(n) => 0 <= n < 10
             case Null => true
             case _ => false
    ensures |PrintField(f)| <= 311
  {
    EscapeShort(f.key);
    if f.value.Str? {
      EscapeShort(f.value.text);
    }
    hide Escape;
  }

  lemma AccentedFits()
    ensures Numbered([ACCENTED])
  {
    var fields := RecordFields(ACCENTED);
    assert |TELEMETRY_KIND| == 36 && |PASSED| == 6;
    forall i | 0 <= i < |fields| ensures |PrintFields(fields)[i]| <= 311 {
      FieldShort(fields[i]);
    }
    JoinShort(PrintFields(fields), 311);
    PrintedObject(fields);
    Utf8Short(RecordLine(ACCENTED) + [NEWLINE]);
    hide Print, Join, Utf8Length, RecordFields, PrintField;
  }

  lemma AccentedReport()
    ensures 0xE9 in Report([ACCENTED])
  {
    assert Escape([0xE9]) == [0xE9];
    NameIsPrinted(ACCENTED, 0xE9);
    hide RecordLine, FooterLine;
    assert RecordsText([ACCENTED]) == RecordLine(ACCENTED) + [NEWLINE];
  }

  /** The report of one test named by a letter with an accent, cut after that letter's first byte, is
      refused. */
  lemma CutInsideNameIsRefused(maxBytes: int, maxRecords: int, shown: Utf16 -> Utf16) returns (n: nat)
    requires 0 < maxRecords <= MAX_SAFE_INTEGER && |Utf8(Report([ACCENTED]))| <= maxBytes
    ensures Numbered([ACCENTED])
    ensures var bytes := Utf8(Report([ACCENTED]));
            && 0 < n < |bytes| && bytes[n - 1..n + 1] == Utf8(ACCENTED.name)
            && SummarizedBytes(bytes[..n], maxBytes, maxRecords, shown) == Err(NotUtf8)
  {
    hide Report, SummarizedBytes, Numbered, Utf8Length, WholeLinesIn, SummaryOf;
    AccentedFits();
    AccentedReport();
    ReportLinesSound([ACCENTED]);
    var i :| 0 <= i < |Report([ACCENTED])| && Report([ACCENTED])[i] == 0xE9;
    n := CharacterToPart(Report([ACCENTED]), i);
    AccentedName();
    EveryByteCutIsDecided([ACCENTED], n, maxBytes, maxRecords, shown);
  }

  lemma AccentedName()
    ensures Utf8(ACCENTED.name) == UnitBytes(0xE9)
  {
    assert ACCENTED.name[1..] == [];
  }
}
