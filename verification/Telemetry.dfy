/** Test telemetry as the reporter writes it. */
module Telemetry {
  // One JSON line per completed test node, then a footer.

  import opened Encoding
  import opened Json
  import opened Results
  import opened Text

  datatype Outcome = Passed | NotPassed | SkippedTest | TodoTest

  /** A telemetry record; durations are whole microseconds. */
  datatype Record = Record(
    sequence: int, testNumber: Option<int>, file: Option<Utf16>, line: Option<int>, name: Utf16, nesting: int,
    outcome: Outcome, durationMicros: int)

  datatype ReportError = RecordBound | FieldInvalid | LineBound

  const TELEMETRY_KIND: Utf16 := Ascii("workflow-full-gate-test-telemetry.v1")
  const TELEMETRY_END_KIND: Utf16 := Ascii("workflow-full-gate-test-telemetry-end.v1")
  const MAX_RECORD_BYTES := 16384
  const MAX_SAFE_INTEGER := 0x1F_FFFF_FFFF_FFFF

  // property names, as code units
  const KIND: Utf16 := [0x6B, 0x69, 0x6E, 0x64]
  const SEQUENCE: Utf16 := [0x73, 0x65, 0x71, 0x75, 0x65, 0x6E, 0x63, 0x65]
  const TEST_NUMBER: Utf16 := [0x74, 0x65, 0x73, 0x74, 0x4E, 0x75, 0x6D, 0x62, 0x65, 0x72]
  const FILE: Utf16 := [0x66, 0x69, 0x6C, 0x65]
  const LINE: Utf16 := [0x6C, 0x69, 0x6E, 0x65]
  const NAME: Utf16 := [0x6E, 0x61, 0x6D, 0x65]
  const NESTING: Utf16 := [0x6E, 0x65, 0x73, 0x74, 0x69, 0x6E, 0x67]
  const OUTCOME: Utf16 := [0x6F, 0x75, 0x74, 0x63, 0x6F, 0x6D, 0x65]
  const DURATION_MS: Utf16 := [0x64, 0x75, 0x72, 0x61, 0x74, 0x69, 0x6F, 0x6E, 0x4D, 0x73]
  const RECORD_COUNT: Utf16 := [0x72, 0x65, 0x63, 0x6F, 0x72, 0x64, 0x43, 0x6F, 0x75, 0x6E, 0x74]

  // outcome names, as code units
  const PASSED: Utf16 := [0x70, 0x61, 0x73, 0x73, 0x65, 0x64]
  const NOT_PASSED: Utf16 := [0x6E, 0x6F, 0x74, 0x2D, 0x70, 0x61, 0x73, 0x73, 0x65, 0x64]
  const SKIPPED: Utf16 := [0x73, 0x6B, 0x69, 0x70, 0x70, 0x65, 0x64]
  const TODO: Utf16 := [0x74, 0x6F, 0x64, 0x6F]

  // ----- a record as JSON

  function OutcomeText(o: Outcome): Utf16 {
    match o
    case Passed => PASSED
    case NotPassed => NOT_PASSED
    case SkippedTest => SKIPPED
    case TodoTest => TODO
  }

  function NullableNumber(n: Option<int>): Json {
    match n
    case Some(value) => Num(value)
    case None => Null
  }

  function NullableText(t: Option<Utf16>): Json {
    match t
    case Some(value) => Str(value)
    case None => Null
  }

  /** The properties in the order the reporter writes them. */
  function RecordFields(r: Record): (fields: seq<Field>)
    ensures |fields| == 9
  {
    [Field(KIND, Str(TELEMETRY_KIND)), Field(SEQUENCE, Num(r.sequence)),
     Field(TEST_NUMBER, NullableNumber(r.testNumber)),
     Field(FILE, NullableText(r.file)), Field(LINE, NullableNumber(r.line)), Field(NAME, Str(r.name)),
     Field(NESTING, Num(r.nesting)), Field(OUTCOME, Str(OutcomeText(r.outcome))),
     Field(DURATION_MS, Num(r.durationMicros))]
  }

  function FooterFields(count: nat): seq<Field> {
    [Field(KIND, Str(TELEMETRY_END_KIND)), Field(RECORD_COUNT, Num(count))]
  }

  function RecordLine(r: Record): Utf16 {
    Print(Obj(RecordFields(r)))
  }

  function FooterLine(count: nat): Utf16 {
    Print(Obj(FooterFields(count)))
  }

  predicate Nonnegative(n: int) {
    0 <= n <= MAX_SAFE_INTEGER
  }

  predicate NullableNonnegative(n: Option<int>) {
    n.Some? ==> Nonnegative(n.value)
  }

  /** What the serializer demands of a record's numbers, and of the length of its line. */
  predicate Serializable(r: Record) {
    && r.sequence >= 1 && Nonnegative(r.sequence) && NullableNonnegative(r.testNumber) && NullableNonnegative(r.line)
    && Nonnegative(r.nesting) && r.durationMicros >= 0
    && Utf8Length(RecordLine(r) + [NEWLINE]) <= MAX_RECORD_BYTES
  }

  // ----- the reporter

  /** What the projector looks at in an event of the test runner; texts are already made safe and
      bounded, and a file is None when it is not inside the repository. */
  datatype TestEvent =
    | Completed(pass: bool, suite: bool, testNumber: Option<int>, file: Option<Utf16>, line: Option<int>, name: Utf16,
                nesting: int, skip: bool, todo: bool, durationMicros: int)
    | OtherEvent

  function TerminalOutcome(event: TestEvent): Outcome
    requires event.Completed?
  {
    if event.skip then SkippedTest
    else if event.todo then TodoTest
    else if event.pass then Passed
    else NotPassed
  }

  function SafeOrNone(n: Option<int>): Option<int> {
    if n.Some? && Nonnegative(n.value) then n else None
  }

  function Projected(event: TestEvent, sequence: int): Record
    requires event.Completed?
  {
    Record(sequence, SafeOrNone(event.testNumber), event.file, SafeOrNone(event.line), event.name, event.nesting,
           TerminalOutcome(event), event.durationMicros)
  }

  /** A record says of an event what happened: skipped before todo, todo before the result; numbers
      that are no safe nonnegative integers are dropped. */
  predicate Records(event: TestEvent, record: Record) {
    && event.Completed?
    && record.file == event.file && record.name == event.name
    && record.nesting == event.nesting && record.durationMicros == event.durationMicros
    && (record.outcome.SkippedTest? <==> event.skip)
    && (record.outcome.TodoTest? <==> !event.skip && event.todo)
    && (record.outcome.Passed? <==> !event.skip && !event.todo && event.pass)
    && (record.outcome.NotPassed? <==> !event.skip && !event.todo && !event.pass)
    && (forall n: nat :: n <= 9007199254740991 ==> (record.testNumber == Some(n) <==> event.testNumber == Some(n)))
    && (forall n: nat :: n <= 9007199254740991 ==> (record.line == Some(n) <==> event.line == Some(n)))
    && (record.testNumber.Some? ==> 0 <= record.testNumber.value <= 9007199254740991)
    && (record.line.Some? ==> 0 <= record.line.value <= 9007199254740991)
  }

  lemma ProjectedRecords(event: TestEvent, sequence: int)
    requires event.Completed? && 1 <= sequence <= MAX_SAFE_INTEGER
    ensures var record := Projected(event, sequence);
            && Records(event, record) && record.sequence == sequence
            && (Serializable(record) <==>
                  && 0 <= record.nesting <= MAX_SAFE_INTEGER && record.durationMicros >= 0
                  && Utf8Length(RecordLine(record) + [NEWLINE]) <= MAX_RECORD_BYTES)
  {
    hide RecordLine, Utf8Length;
  }

  function RecordsText(records: seq<Record>): Utf16 {
    if records == [] then []
    else RecordsText(records[..|records| - 1]) + RecordLine(records[|records| - 1]) + [NEWLINE]
  }

  /** Everything the reporter writes for some records when its source is exhausted. */
  function Report(records: seq<Record>): Utf16 {
    RecordsText(records) + FooterLine(|records|) + [NEWLINE]
  }

  /** Records numbered from one, each fit to be written. */
  predicate Numbered(records: seq<Record>) {
    forall i :: 0 <= i < |records| ==> records[i].sequence == i + 1 && Serializable(records[i])
  }

  class FullGateReporter {
    const maxRecords: nat
    var projected: seq<Record>
    /** The sidecar's text. */
    var written: Utf16

    constructor (maxRecords: nat)
      requires 0 < maxRecords <= MAX_SAFE_INTEGER
      ensures Valid() && projected == [] && this.maxRecords == maxRecords
    {
      this.maxRecords := maxRecords;
      projected, written := [], [];
    }

    ghost predicate Valid()
      reads this
    {
      && maxRecords <= MAX_SAFE_INTEGER && |projected| <= maxRecords
      && Numbered(projected) && written == RecordsText(projected)
    }

    /** One event: a completed test node becomes a record, which is written; nothing else does, and
        an event that cannot be written changes nothing. */
    method Observe(event: TestEvent) returns (r: Result<Option<Record>, ReportError>)
      requires Valid()
      modifies this
      ensures Valid()
      ensures r.Err? || r.value.None? ==> projected == old(projected)
      ensures r.Ok? && r.value.Some? ==> projected == old(projected) + [r.value.value]
      ensures r.Ok? ==> (r.value.Some? <==> event.Completed? && !event.suite)
      ensures r.Ok? && r.value.Some? ==> r.value.value == Projected(event, |old(projected)| + 1)
      ensures r.Ok? && r.value.Some? ==> Records(event, r.value.value)
      ensures r.Ok? && r.value.Some? ==> r.value.value.sequence == |old(projected)| + 1
      ensures r.Err? <==> event.Completed? && !event.suite
                          && (|old(projected)| >= maxRecords || !Serializable(Projected(event, |old(projected)| + 1)))
    {
      hide Print, Utf8Length, RecordLine, Records, Projected, Serializable;
      if event.OtherEvent? || event.suite {
        return Ok(None);
      }
      if |projected| >= maxRecords {
        return Err(RecordBound);
      }
      var record := Projected(event, |projected| + 1);
      ProjectedRecords(event, |projected| + 1);
      if record.nesting < 0 || record.nesting > MAX_SAFE_INTEGER || record.durationMicros < 0 {
        return Err(FieldInvalid);
      }
      var line := RecordLine(record) + [NEWLINE];
      if Utf8Length(line) > MAX_RECORD_BYTES {
        return Err(LineBound);
      }
      projected := projected + [record];
      written := written + line;
      assert projected[..|projected| - 1] == old(projected);
      return Ok(Some(record));
    }

    /** What is written when the source is exhausted. */
    method Finish()
      requires Valid()
      modifies `written
      ensures written == Report(projected)
    {
      written := written + FooterLine(|projected|) + [NEWLINE];
    }
  }

  // ----- property names differ

  lemma RecordKeysDiffer(r: Record)
    ensures DistinctKeys(RecordFields(r))
  {
    var fields := RecordFields(r);
    forall i | 0 <= i < 9 ensures Mark(fields[i].key) == RECORD_MARKS[i] {
    }
    forall i, j | 0 <= i < j < 9 ensures fields[i].key != fields[j].key {
      assert RECORD_MARKS[i] != RECORD_MARKS[j];
    }
  }

  /** A key's length and first unit, enough to tell the keys of a record apart. */
  function Mark(key: Utf16): (nat, int) {
    (|key|, if key == [] then 0 else key[0] as int)
  }

  const RECORD_MARKS: seq<(nat, int)> :=
    [(4, 0x6B), (8, 0x73), (10, 0x74), (4, 0x66), (4, 0x6C), (4, 0x6E), (7, 0x6E), (7, 0x6F), (10, 0x64)]

  lemma FooterKeysDiffer(count: nat)
    ensures DistinctKeys(FooterFields(count))
  {
    assert |KIND| != |RECORD_COUNT|;
  }
}
