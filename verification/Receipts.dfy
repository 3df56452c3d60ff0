/** Receipts of full-gate runs: when one is passed, and for what evidence it can be used again. */
module Receipts {

  import opened Results
  import opened Sorting
  import opened TapCounter
  import opened Telemetry
  import opened TelemetrySummary
  import opened TestPaths
  import opened Text
  import M = ShardManifest

  const DEFAULT_MAX_BYTES := 64 * 1024 * 1024
  const DEFAULT_MAX_RECORDS := 100_000

  /** Digests are symbolic: what they are of, or something else. */
  datatype FileSetDigest = FileSet(files: seq<Utf16>) | OtherFileSet(n: nat)

  datatype BytesDigest = BytesOf(bytes: seq<Byte>) | OtherBytes(n: nat)

  datatype IdentityDigest = BindingsOf(bindings: Bindings) | OtherBindings(n: nat)

  datatype ReceiptDigest = ReceiptOf(claims: Claims) | OtherReceipt(n: nat)

  // ----- identity

  datatype Bindings = Bindings(
    projectedTreeOid: Utf16, generatedArtifactsDigest: nat, command: seq<Utf16>, workingDirectory: Utf16,
    nodeVersion: Utf16, platform: Utf16)

  datatype Identity = Identity(bindings: Bindings, digest: IdentityDigest)

  predicate Hexadecimal(c: CodeUnit) {
    0x30 <= c <= 0x39 || 0x61 <= c <= 0x66
  }

  predicate GitObjectId(s: Utf16) {
    (|s| == 40 || |s| == 64) && forall i :: 0 <= i < |s| ==> Hexadecimal(s[i])
  }

  predicate BreaksLine(c: CodeUnit) {
    c == 0 || c == 0x0D || c == 0x0A
  }

  predicate Plain(s: Utf16) {
    s != [] && forall i :: 0 <= i < |s| ==> !BreaksLine(s[i])
  }

  predicate Separator(c: CodeUnit) {
    c == 0x2F || c == 0x5C
  }

  /** Some segment between separators is `..`. */
  predicate HasParentSegment(s: Utf16, segment: Utf16) {
    if s == [] then segment == [DOT, DOT]
    else if Separator(s[0]) then segment == [DOT, DOT] || HasParentSegment(s[1..], [])
    else HasParentSegment(s[1..], segment + [s[0]])
  }

  predicate Letter(c: CodeUnit) {
    0x41 <= c <= 0x5A || 0x61 <= c <= 0x7A
  }

  predicate AbsoluteOrEscaping(s: Utf16) {
    || s == [] || s[0] == SLASH
    || (|s| >= 3 && Letter(s[0]) && s[1] == 0x3A && Separator(s[2]))
    || HasParentSegment(s, [])
    || exists i :: 0 <= i < |s| && BreaksLine(s[i])
  }

  /** `isFullGateIdentityShape` */
  predicate IdentityShape(identity: Identity) {
    var b := identity.bindings;
    && GitObjectId(b.projectedTreeOid)
    && b.command != [] && (forall i :: 0 <= i < |b.command| ==> Plain(b.command[i]))
    && !AbsoluteOrEscaping(b.workingDirectory) && b.nodeVersion != [] && b.platform != []
  }

  /** `..` stands at i between separators or ends of the path. */
  predicate ParentAt(s: Utf16, i: int) {
    && 0 <= i <= |s| - 2 && s[i] == 0x2E && s[i + 1] == 0x2E
    && (i == 0 || Separator(s[i - 1])) && (i + 2 == |s| || Separator(s[i + 2]))
  }

  /** The rest of a path from at, where the segment begun at start is still open. */
  lemma {:induction false} ParentFrom(s: Utf16, start: nat, at: nat)
    requires start <= at <= |s| && (forall k :: start <= k < at ==> !Separator(s[k]))
    requires start == 0 || Separator(s[start - 1])
    ensures HasParentSegment(s[at..], s[start..at]) <==> exists i :: start <= i && ParentAt(s, i)
    decreases |s| - at
  {
    hide HasParentSegment;
    ParentStep(s[at..], s[start..at]);
    if at == |s| || Separator(s[at]) {
      SegmentEnds(s, start, at);
    }
    if at < |s| {
      assert s[at..][1..] == s[at + 1..] && s[start..at] + [s[at]] == s[start..at + 1];
      if Separator(s[at]) {
        ParentFrom(s, at + 1, at + 1);
        assert s[at + 1..at + 1] == [];
      } else {
        ParentFrom(s, start, at + 1);
      }
    }
  }

  /** A segment that ends at a separator is `..` or has none from its start on. */
  lemma SegmentEnds(s: Utf16, start: nat, at: nat)
    requires start <= at <= |s| && (forall k :: start <= k < at ==> !Separator(s[k]))
    requires (start == 0 || Separator(s[start - 1])) && (at == |s| || Separator(s[at]))
    ensures s[start..at] == [DOT, DOT] <==> ParentAt(s, start) && at == start + 2
    ensures forall i :: start <= i <= at && ParentAt(s, i) ==> i == start && at == start + 2
  {
    forall i | start <= i <= at && ParentAt(s, i) ensures i == start && at == start + 2 {
    }
  }

  lemma ParentStep(s: Utf16, segment: Utf16)
    ensures HasParentSegment(s, segment) <==>
              if s == [] then segment == [DOT, DOT]
              else if Separator(s[0]) then segment == [DOT, DOT] || HasParentSegment(s[1..], [])
              else HasParentSegment(s[1..], segment + [s[0]])
  {
  }

  predicate OneLine(s: Utf16) {
    0x00 !in s && 0x0A !in s && 0x0D !in s
  }

  /** The tree is named by 40 or 64 lower-case hexadecimal digits, the command by lines that are not
      empty, the directory by a relative path of one line without `..`. */
  ghost predicate SoundBindings(b: Bindings) {
    && |b.projectedTreeOid| in {40, 64}
    && (forall c :: c in b.projectedTreeOid ==> 0x30 <= c <= 0x39 || 0x61 <= c <= 0x66)
    && b.command != [] && (forall a :: a in b.command ==> a != [] && OneLine(a))
    && Relative(b.workingDirectory) && b.nodeVersion != [] && b.platform != []
  }

  ghost predicate Relative(s: Utf16) {
    s != [] && s[0] != 0x2F && !HasDrive(s) && OneLine(s) && forall i :: !ParentAt(s, i)
  }

  /** `/^[A-Za-z]:[\\/]/` */
  predicate HasDrive(s: Utf16) {
    && |s| > 2 && (0x41 <= s[0] <= 0x5A || 0x61 <= s[0] <= 0x7A) && s[1] == 0x3A && (s[2] == 0x2F || s[2] == 0x5C)
  }

  lemma IdentityShapeMeans(identity: Identity)
    ensures IdentityShape(identity) <==> SoundBindings(identity.bindings)
  {
    hide GitObjectId, Plain, OneLine, AbsoluteOrEscaping, Relative;
    var b := identity.bindings;
    GitObjectIdMeans(b.projectedTreeOid);
    CommandMeans(b.command);
    RelativeMeans(b.workingDirectory);
  }

  lemma CommandMeans(command: seq<Utf16>)
    ensures (forall i :: 0 <= i < |command| ==> Plain(command[i]))
            <==> forall a :: a in command ==> a != [] && OneLine(a)
  {
    hide Plain, OneLine;
    forall i | 0 <= i < |command| ensures command[i] in command {
      PlainMeans(command[i]);
    }
    forall a | a in command ensures Plain(a) <==> a != [] && OneLine(a) {
      PlainMeans(a);
    }
  }

  lemma RelativeMeans(s: Utf16)
    ensures AbsoluteOrEscaping(s) <==> !Relative(s)
  {
    hide HasParentSegment, OneLine, ParentAt;
    PlainMeans(s);
    ParentFrom(s, 0, 0);
    assert s[0..] == s && s[0..0] == [];
    forall i | ParentAt(s, i) ensures 0 <= i {
      ParentWithin(s, i);
    }
  }

  lemma ParentWithin(s: Utf16, i: int)
    requires ParentAt(s, i)
    ensures 0 <= i
  {
  }

  lemma GitObjectIdMeans(s: Utf16)
    ensures GitObjectId(s) <==> |s| in {40, 64} && forall c :: c in s ==> 0x30 <= c <= 0x39 || 0x61 <= c <= 0x66
  {
    forall i | 0 <= i < |s| ensures s[i] in s {
    }
  }

  lemma PlainMeans(s: Utf16)
    ensures Plain(s) <==> s != [] && OneLine(s)
    ensures (exists i :: 0 <= i < |s| && BreaksLine(s[i])) <==> !OneLine(s)
  {
  }

  // ----- coverage

  datatype Expectation = Expectation(
    inventoryDigest: nat, expectedFiles: seq<Utf16>, expectedFileSetDigest: FileSetDigest)

  datatype Coverage = Coverage(
    inventoryDigest: nat, expectedFileCount: nat, expectedFileSetDigest: FileSetDigest, observedFileCount: nat,
    observedFileSetDigest: FileSetDigest, fileSetMatches: bool, telemetryDigest: BytesDigest, telemetryBytes: nat,
    footerComplete: bool, testNodeCount: nat, unattributedTestNodeCount: nat, outcomeCounts: OutcomeCounts)

  datatype CoverageError = ExpectedFiles | ExpectedDigest | TelemetryRejected(error: SummaryError) | ObservedFiles

  predicate FileSetOk(files: seq<Utf16>) {
    Distinct(files) && forall i :: 0 <= i < |files| ==> IsTestPath(files[i])
  }

  /** `validateFullGateCoverage` */
  function CoverageOf(telemetry: seq<Byte>, expectation: Expectation, shown: Utf16 -> Utf16)
    : Result<Coverage, CoverageError>
  {
    var expected := Sort(expectation.expectedFiles, AtMost);
    if !FileSetOk(expectation.expectedFiles) then Err(ExpectedFiles)
    else if expectation.expectedFileSetDigest != FileSet(expected) then Err(ExpectedDigest)
    else
      match SummarizedBytes(telemetry, DEFAULT_MAX_BYTES, DEFAULT_MAX_RECORDS, shown)
      case Err(e) => Err(TelemetryRejected(e))
      case Ok(summary) =>
        if !FileSetOk(summary.observedFiles) then Err(ObservedFiles)
        else
          var observed := Sort(summary.observedFiles, AtMost);
          Ok(Coverage(expectation.inventoryDigest, |expected|, FileSet(expected), |summary.observedFiles|,
                      FileSet(observed), expected == summary.observedFiles && expected == observed,
                      BytesOf(summary.telemetry),
                      summary.telemetryBytes, summary.footerComplete, summary.testNodeCount,
                      summary.unattributedTestNodeCount, summary.outcomeCounts))
  }

  method ValidateFullGateCoverage(telemetry: seq<Byte>, expectation: Expectation, shown: Utf16 -> Utf16)
    returns (r: Result<Coverage, CoverageError>)
    ensures r == CoverageOf(telemetry, expectation, shown)
  {
    hide IsTestPath, Distinct, Sort, SummarizedBytes;
    var digested := DigestedFileSet(expectation.expectedFiles);
    FileSetOkIs(expectation.expectedFiles);
    if digested.Err? {
      return Err(ExpectedFiles);
    }
    if expectation.expectedFileSetDigest != FileSet(digested.value) {
      return Err(ExpectedDigest);
    }
    var canonicalExpectedFiles := Sort(expectation.expectedFiles, AtMost);
    var summarized := SummarizeFullGateTelemetry(telemetry, DEFAULT_MAX_BYTES, DEFAULT_MAX_RECORDS, shown);
    match summarized {
      case Err(error) => return Err(TelemetryRejected(error));
      case Ok(summary) =>
        var observed := DigestedFileSet(summary.observedFiles);
        FileSetOkIs(summary.observedFiles);
        if observed.Err? {
          return Err(ObservedFiles);
        }
        var fileSetMatches :=
          canonicalExpectedFiles == summary.observedFiles && canonicalExpectedFiles == observed.value;
        return Ok(Coverage(expectation.inventoryDigest, |canonicalExpectedFiles|, FileSet(digested.value),
                           |summary.observedFiles|, FileSet(observed.value), fileSetMatches, BytesOf(summary.telemetry),
                           summary.telemetryBytes, summary.footerComplete, summary.testNodeCount,
                           summary.unattributedTestNodeCount, summary.outcomeCounts));
    }
  }

  /** Coverage matches exactly when the summary's files are the expected ones, in whatever order those
      were given, and repeats the summary's other figures. */
  lemma CoverageMeans(telemetry: seq<Byte>, expectation: Expectation, shown: Utf16 -> Utf16)
    requires CoverageOf(telemetry, expectation, shown).Ok?
    ensures var summary := SummarizedBytes(telemetry, DEFAULT_MAX_BYTES, DEFAULT_MAX_RECORDS, shown);
            summary.Ok? &&
            var (c, s) := (CoverageOf(telemetry, expectation, shown).value, summary.value);
            && (c.fileSetMatches <==> forall f :: f in s.observedFiles <==> f in expectation.expectedFiles)
            && (c.fileSetMatches <==> c.observedFileSetDigest == c.expectedFileSetDigest)
            && c.expectedFileCount == |expectation.expectedFiles| && c.observedFileCount == |s.observedFiles|
            && c.telemetryDigest == BytesOf(telemetry) && c.telemetryBytes == |telemetry|
            && c.footerComplete == s.footerComplete && c.testNodeCount == s.testNodeCount
            && c.unattributedTestNodeCount == s.unattributedTestNodeCount && c.outcomeCounts == s.outcomeCounts
            && c.inventoryDigest == expectation.inventoryDigest
            && c.expectedFileSetDigest == expectation.expectedFileSetDigest
  {
    hide SummarizedBytes, Sort, IsTestPath, Distinct, AtMost;
    SummaryOfItsBytes(telemetry, DEFAULT_MAX_BYTES, DEFAULT_MAX_RECORDS, shown);
    ObservedAscend(telemetry, DEFAULT_MAX_BYTES, DEFAULT_MAX_RECORDS, shown);
    var s := SummarizedBytes(telemetry, DEFAULT_MAX_BYTES, DEFAULT_MAX_RECORDS, shown).value;
    SameFiles(s.observedFiles, expectation.expectedFiles);
  }

  lemma SameFiles(a: seq<Utf16>, b: seq<Utf16>)
    requires Distinct(a) && Distinct(b)
    ensures Sort(a, AtMost) == Sort(b, AtMost) <==> forall f :: f in a <==> f in b
  {
    AtMostIsTotalOrder();
    hide AtMost;
    if Sort(a, AtMost) == Sort(b, AtMost) {
      forall f ensures f in a <==> f in b {
        assert f in a <==> f in multiset(a);
        assert f in b <==> f in multiset(b);
      }
    }
    if forall f :: f in a <==> f in b {
      SameElements(a, b);
      SortOfPermutation(a, b, AtMost);
    }
  }

  lemma FileSetOkIs(files: seq<Utf16>)
    ensures FileSetOk(files) <==> Distinct(files) && forall f :: f in files ==> IsTestPath(f)
  {
    hide IsTestPath, Distinct;
    if forall i :: 0 <= i < |files| ==> IsTestPath(files[i]) {
      forall f | f in files ensures IsTestPath(f) {
        var i :| 0 <= i < |files| && files[i] == f;
      }
    }
    forall i | 0 <= i < |files| ensures files[i] in files {
    }
  }

  predicate PositiveSafe(n: nat) {
    0 < n <= MAX_SAFE_INTEGER
  }

  predicate OutcomesCanonical(c: OutcomeCounts, total: nat) {
    && c.passed <= MAX_SAFE_INTEGER && c.notPassed <= MAX_SAFE_INTEGER && c.skipped <= MAX_SAFE_INTEGER
    && c.todo <= MAX_SAFE_INTEGER
    && c.passed + c.notPassed + c.skipped + c.todo == total
  }

  /** `fullGateCoverageMatchesProgress` */
  predicate CoverageMatchesProgress(coverage: Coverage, progress: Progress) {
    var outcomes := coverage.outcomeCounts;
    && PositiveSafe(coverage.expectedFileCount) && PositiveSafe(coverage.observedFileCount)
    && PositiveSafe(coverage.telemetryBytes) && PositiveSafe(coverage.testNodeCount)
    && coverage.unattributedTestNodeCount == 0
    && coverage.footerComplete && coverage.fileSetMatches
    && coverage.expectedFileCount == coverage.observedFileCount
    && coverage.expectedFileSetDigest == coverage.observedFileSetDigest
    && OutcomesCanonical(outcomes, coverage.testNodeCount)
    && progress.total.Some? && progress.total.value > 0
    && progress.completed == progress.total.value
    && coverage.testNodeCount == progress.total.value
    && outcomes.passed == progress.pass
    && outcomes.notPassed == progress.fail + progress.cancelled
    && outcomes.skipped == progress.skipped
    && outcomes.todo == progress.todo
  }

  // ----- receipts

  datatype RunOutcome = PassedRun | FailedRun | InterruptedRun

  /** Everything in a receipt but its own digest; its constant fields are left out. */
  datatype Claims = Claims(
    runId: Utf16, identity: Identity, headCommit: Utf16, completedHeadCommit: Option<Utf16>,
    completedIdentityDigest: Option<IdentityDigest>, identityStable: bool, reason: Option<Utf16>, outcome: RunOutcome,
    exitCode: Option<int>, signal: Option<Utf16>, progress: Progress, rawLogDigest: BytesDigest, rawLogBytes: nat,
    standardErrorDigest: BytesDigest, standardErrorBytes: nat, coverage: Coverage, completedAt: int)

  datatype Receipt = Receipt(claims: Claims, digest: ReceiptDigest)

  /** How a run ended. */
  datatype Run = Run(
    runId: Utf16, identity: Identity, headCommit: Utf16, completedHeadCommit: Option<Utf16>,
    completedIdentityDigest: Option<IdentityDigest>, identityStable: bool, reason: Option<Utf16>, exitCode: Option<int>,
    signal: Option<Utf16>, rawLog: seq<Byte>, standardError: seq<Byte>, coverage: Coverage, completedAt: int)

  function OutcomeOf(run: Run, progress: Progress): RunOutcome {
    if run.signal.Some? || run.exitCode.None? then InterruptedRun
    else if && run.identityStable && run.completedHeadCommit == Some(run.headCommit)
            && run.completedIdentityDigest == Some(run.identity.digest) && run.exitCode == Some(0)
            && progress.total.Some? && progress.total.value > 0 && progress.fail == 0 && progress.cancelled == 0
            && CoverageMatchesProgress(run.coverage, progress)
    then PassedRun
    else FailedRun
  }

  function ReceiptFor(run: Run, classify: seq<Byte> -> LineClass): Receipt {
    var progress := TallyOf(classify, run.rawLog).progress;
    var claims := Claims(
      run.runId, run.identity, run.headCommit, run.completedHeadCommit, run.completedIdentityDigest, run.identityStable,
      run.reason, OutcomeOf(run, progress), run.exitCode, run.signal, progress, BytesOf(run.rawLog), |run.rawLog|,
      BytesOf(run.standardError), |run.standardError|, run.coverage, run.completedAt);
    Receipt(claims, ReceiptOf(claims))
  }

  /** `createFullGateReceipt` */
  method CreateFullGateReceipt(run: Run, classify: seq<Byte> -> LineClass) returns (receipt: Receipt)
    ensures receipt == ReceiptFor(run, classify)
  {
    hide TallyOf, CoverageMatchesProgress;
    var counter := new FullGateTapCounter(classify);
    counter.Push(run.rawLog);
    assert [] + run.rawLog == run.rawLog;
    var progress := counter.TakeProgress();
    var claims := Claims(
      run.runId, run.identity, run.headCommit, run.completedHeadCommit, run.completedIdentityDigest, run.identityStable,
      run.reason, OutcomeOf(run, progress), run.exitCode, run.signal, progress, BytesOf(run.rawLog), |run.rawLog|,
      BytesOf(run.standardError), |run.standardError|, run.coverage, run.completedAt);
    return Receipt(claims, ReceiptOf(claims));
  }

  // ----- reuse

  datatype Evidence = Evidence(
    rawLog: seq<Byte>, standardError: seq<Byte>, telemetry: seq<Byte>, expectation: Expectation)

  predicate SafeProgress(p: Progress) {
    && p.completed <= MAX_SAFE_INTEGER && p.pass <= MAX_SAFE_INTEGER && p.fail <= MAX_SAFE_INTEGER
    && p.total.Some? && p.total.value <= MAX_SAFE_INTEGER && p.cancelled <= MAX_SAFE_INTEGER
    && p.skipped <= MAX_SAFE_INTEGER && p.todo <= MAX_SAFE_INTEGER
  }

  /** `isReusableReceiptShape`, but for exact keys and the form of digests and timestamps. */
  predicate ReusableShape(c: Claims) {
    && M.WellFormedRunId(c.runId) && IdentityShape(c.identity) && GitObjectId(c.headCommit)
    && c.completedHeadCommit.Some? && GitObjectId(c.completedHeadCommit.value) && c.completedIdentityDigest.Some?
    && c.identityStable && c.outcome.PassedRun? && c.exitCode == Some(0) && c.signal.None?
    && SafeProgress(c.progress)
    && c.rawLogBytes <= MAX_SAFE_INTEGER && c.standardErrorBytes <= MAX_SAFE_INTEGER
    && OutcomesCanonical(c.coverage.outcomeCounts, c.coverage.testNodeCount)
  }

  predicate ClaimsMatch(receipt: Receipt, identity: Identity, evidence: Evidence) {
    var c := receipt.claims;
    && ReusableShape(c)
    && c.completedHeadCommit == Some(c.headCommit) && c.completedIdentityDigest == Some(identity.digest)
    && c.identity.digest == identity.digest && c.identity.bindings == identity.bindings
    && receipt.digest == ReceiptOf(c)
    && c.rawLogBytes == |evidence.rawLog| && c.rawLogDigest == BytesOf(evidence.rawLog)
    && c.standardErrorBytes == |evidence.standardError| && c.standardErrorDigest == BytesOf(evidence.standardError)
  }

  predicate ProgressConfirmed(c: Claims, observed: Progress, coverage: Coverage) {
    && observed.total.Some? && observed.total == c.progress.total && observed.pass == c.progress.pass
    && observed.fail == 0 && observed.cancelled == 0
    && CoverageMatchesProgress(coverage, observed)
    && observed == c.progress
  }

  predicate Reusable(receipt: Receipt, identity: Identity, evidence: Evidence, classify: seq<Byte> -> LineClass,
                     shown: Utf16 -> Utf16)
  {
    var coverage := CoverageOf(evidence.telemetry, evidence.expectation, shown);
    && ClaimsMatch(receipt, identity, evidence)
    && coverage == Ok(receipt.claims.coverage)
    && ProgressConfirmed(receipt.claims, TallyOf(classify, evidence.rawLog).progress, receipt.claims.coverage)
  }

  /** `canReuseFullGateReceipt` */
  method CanReuseFullGateReceipt(receipt: Receipt, identity: Identity, evidence: Evidence,
                                 classify: seq<Byte> -> LineClass, shown: Utf16 -> Utf16) returns (reusable: bool)
    ensures reusable <==> Reusable(receipt, identity, evidence, classify, shown)
  {
    hide ClaimsMatch, CoverageOf, TallyOf, ProgressConfirmed;
    if !ClaimsMatch(receipt, identity, evidence) {
      return false;
    }
    var observedCoverage := ValidateFullGateCoverage(evidence.telemetry, evidence.expectation, shown);
    if observedCoverage.Err? {
      return false;
    }
    if observedCoverage.value != receipt.claims.coverage {
      return false;
    }
    var counter := new FullGateTapCounter(classify);
    counter.Push(evidence.rawLog);
    assert [] + evidence.rawLog == evidence.rawLog;
    var observed := counter.TakeProgress();
    return ProgressConfirmed(receipt.claims, observed, observedCoverage.value);
  }

  // ----- what acceptance means

  /** An accepted receipt has no failed or cancelled tests, accounts for every test, and was made by
      a run that observed exactly the expected files. */
  lemma AcceptedReceiptMeans(receipt: Receipt, identity: Identity, evidence: Evidence,
                             classify: seq<Byte> -> LineClass, shown: Utf16 -> Utf16)
    requires Reusable(receipt, identity, evidence, classify, shown)
    ensures var p := receipt.claims.progress;
            && p == TallyOf(classify, evidence.rawLog).progress
            && p.fail == 0 && p.cancelled == 0 && p.total == Some(p.pass + p.skipped + p.todo)
            && p.completed == p.pass + p.skipped + p.todo
    ensures receipt.claims.outcome.PassedRun? && receipt.claims.identity == identity
    ensures var summary := SummarizedBytes(evidence.telemetry, DEFAULT_MAX_BYTES, DEFAULT_MAX_RECORDS, shown);
            && summary.Ok? && summary.value.footerComplete && summary.value.unattributedTestNodeCount == 0
            && summary.value.observedFiles == Sort(evidence.expectation.expectedFiles, AtMost)
            && summary.value.testNodeCount == receipt.claims.progress.completed
    ensures var c := receipt.claims;
            && receipt.digest == ReceiptOf(c)
            && c.completedHeadCommit == Some(c.headCommit) && c.completedIdentityDigest == Some(identity.digest)
            && c.identityStable && c.exitCode == Some(0) && c.signal.None?
            && M.WellFormedRunId(c.runId) && GitObjectId(c.headCommit) && SoundBindings(c.identity.bindings)
            && c.rawLogBytes <= 9007199254740991 && c.standardErrorBytes <= 9007199254740991
            && c.rawLogDigest == BytesOf(evidence.rawLog) && c.rawLogBytes == |evidence.rawLog|
            && c.standardErrorDigest == BytesOf(evidence.standardError)
            && c.standardErrorBytes == |evidence.standardError|
    ensures var (c, p) := (receipt.claims.coverage, receipt.claims.progress);
            && c.telemetryDigest == BytesOf(evidence.telemetry) && c.telemetryBytes == |evidence.telemetry|
            && c.inventoryDigest == evidence.expectation.inventoryDigest
            && c.expectedFileSetDigest == c.observedFileSetDigest == evidence.expectation.expectedFileSetDigest
            && c.expectedFileCount == c.observedFileCount == |evidence.expectation.expectedFiles|
            && c.outcomeCounts == OutcomeCounts(p.pass, 0, p.skipped, p.todo)
  {
    hide SummarizedBytes, TallyOf, Sort, FileSetOk, M.WellFormedRunId, GitObjectId, IdentityShape, SoundBindings;
    IdentityShapeMeans(receipt.claims.identity);
    SummaryOfItsBytes(evidence.telemetry, DEFAULT_MAX_BYTES, DEFAULT_MAX_RECORDS, shown);
  }

  /** Complete coverage of the expected files by n tests, all figures within 2^53 - 1. */
  predicate CoverageCounts(c: Coverage, n: nat) {
    && c.fileSetMatches && c.footerComplete && c.unattributedTestNodeCount == 0
    && c.expectedFileSetDigest == c.observedFileSetDigest
    && 1 <= c.expectedFileCount == c.observedFileCount <= 9007199254740991
    && 1 <= c.telemetryBytes <= 9007199254740991
    && 1 <= n == c.testNodeCount <= 9007199254740991
    && c.outcomeCounts.passed + c.outcomeCounts.notPassed + c.outcomeCounts.skipped + c.outcomeCounts.todo == n
  }

  /** What a run's receipt calls it: interrupted by a signal or for want of an exit code, and
      otherwise passed exactly when everything agrees. */
  lemma OutcomeMeans(run: Run, classify: seq<Byte> -> LineClass)
    ensures var (c, p) := (ReceiptFor(run, classify).claims, TallyOf(classify, run.rawLog).progress);
            && c.progress == p
            && (c.outcome.InterruptedRun? <==> run.signal.Some? || run.exitCode.None?)
            && (c.outcome.PassedRun? <==>
                  && run.signal.None? && run.exitCode == Some(0) && run.identityStable
                  && run.completedHeadCommit == Some(run.headCommit)
                  && run.completedIdentityDigest == Some(run.identity.digest)
                  && CoverageCounts(run.coverage, p.completed)
                  && p.total == Some(p.completed) && p.fail == 0 && p.cancelled == 0
                  && run.coverage.outcomeCounts == OutcomeCounts(p.pass, 0, p.skipped, p.todo))
  {
    hide TallyOf;
  }

  /** A run whose inputs have the forms a receipt must have. */
  predicate WellFormedRun(run: Run) {
    && M.WellFormedRunId(run.runId) && IdentityShape(run.identity) && GitObjectId(run.headCommit)
    && |run.rawLog| <= MAX_SAFE_INTEGER && |run.standardError| <= MAX_SAFE_INTEGER
  }

  /** The same expectation: the same inventory and the same files, in any order. */
  predicate SameExpectation(a: Expectation, b: Expectation) {
    && a.inventoryDigest == b.inventoryDigest && a.expectedFileSetDigest == b.expectedFileSetDigest
    && FileSetOk(a.expectedFiles) && FileSetOk(b.expectedFiles)
    && Sort(a.expectedFiles, AtMost) == Sort(b.expectedFiles, AtMost)
  }

  /** The evidence of a run, and its identity. */
  ghost predicate Matches(run: Run, telemetry: seq<Byte>, expectation: Expectation, identity: Identity,
                          evidence: Evidence)
  {
    && identity == run.identity
    && evidence.rawLog == run.rawLog && evidence.standardError == run.standardError && evidence.telemetry == telemetry
    && SameExpectation(evidence.expectation, expectation)
  }

  /** A receipt created as passed, its coverage validated from the run's telemetry, can be reused for
      an identity and evidence exactly when the run was well formed and they are that run's own. */
  lemma ReusableExactlyForItsEvidence(run: Run, telemetry: seq<Byte>, expectation: Expectation, identity: Identity,
                                      evidence: Evidence, classify: seq<Byte> -> LineClass, shown: Utf16 -> Utf16)
    requires CoverageOf(telemetry, expectation, shown) == Ok(run.coverage)
    requires ReceiptFor(run, classify).claims.outcome.PassedRun?
    ensures Reusable(ReceiptFor(run, classify), identity, evidence, classify, shown)
            <==> WellFormedRun(run) && Matches(run, telemetry, expectation, identity, evidence)
  {
    hide SummarizedBytes, TallyOf, Sort, FileSetOk, M.WellFormedRunId, IdentityShape, GitObjectId;
    var receipt := ReceiptFor(run, classify);
    PassedIsSafe(run, TallyOf(classify, run.rawLog).progress);
    if Reusable(receipt, identity, evidence, classify, shown) {
      CoverageFixesEvidence(telemetry, expectation, evidence.telemetry, evidence.expectation, shown);
    }
    if Matches(run, telemetry, expectation, identity, evidence) {
      SameCoverage(telemetry, expectation, evidence.expectation, shown);
    }
  }

  lemma PassedIsSafe(run: Run, progress: Progress)
    requires OutcomeOf(run, progress).PassedRun?
    ensures SafeProgress(progress) && OutcomesCanonical(run.coverage.outcomeCounts, run.coverage.testNodeCount)
  {
  }

  lemma SameCoverage(telemetry: seq<Byte>, a: Expectation, b: Expectation, shown: Utf16 -> Utf16)
    requires SameExpectation(a, b) || SameExpectation(b, a)
    ensures CoverageOf(telemetry, a, shown) == CoverageOf(telemetry, b, shown)
  {
    hide SummarizedBytes, Sort, FileSetOk;
  }

  /** Equal coverage comes from equal telemetry and the same expectation. */
  lemma CoverageFixesEvidence(telemetry: seq<Byte>, a: Expectation, other: seq<Byte>, b: Expectation,
                              shown: Utf16 -> Utf16)
    requires CoverageOf(telemetry, a, shown).Ok?
    requires CoverageOf(telemetry, a, shown) == CoverageOf(other, b, shown)
    ensures telemetry == other && SameExpectation(a, b) && SameExpectation(b, a)
  {
    hide SummarizedBytes, Sort, FileSetOk;
    SummaryOfItsBytes(telemetry, DEFAULT_MAX_BYTES, DEFAULT_MAX_RECORDS, shown);
    SummaryOfItsBytes(other, DEFAULT_MAX_BYTES, DEFAULT_MAX_RECORDS, shown);
  }
}
