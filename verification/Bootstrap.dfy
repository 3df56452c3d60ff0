/** Initial bootstrap of the built-in supervisor, as a plan. */
module Bootstrap {
  // What it writes, in which order, and the states a stopped run can leave behind.

  import opened Results

  type Path = string

  type Bytes = nat

  /** One file of the artifact, the directories above it within the closure, and its bytes. */
  datatype ArtifactEntry = ArtifactEntry(path: Path, parents: seq<Path>, bytes: Bytes)

  /** What is fixed by the repository's provenance: identities, digests and the artifact's files in
      the order they are materialized. */
  datatype Plan = Plan(
    provenance: nat, repositoryId: string, closureDigest: nat, manifestDigest: nat, activeArtifact: nat,
    entries: seq<ArtifactEntry>)
  {
    predicate Ok() {
      forall i, j :: 0 <= i < j < |entries| ==> entries[i].path != entries[j].path
    }
  }

  datatype Phase = Prepared | ArtifactMaterialized | SupervisorPublished

  /** Digests are symbolic: a record holds what its digests are of. */
  datatype SupervisorState = SupervisorState(repositoryId: string, activeArtifact: nat, updatedAt: int)

  datatype JournalRecord = JournalRecord(
    phase: Phase, provenance: nat, initializedAt: int, closureDigest: nat, manifestDigest: nat, activeArtifact: nat,
    supervisor: SupervisorState, previous: Option<JournalRecord>)

  datatype Content =
    | JournalBytes(record: JournalRecord)
    | ArtifactBytes(bytes: Bytes)
    | SupervisorBytes(state: SupervisorState)

  datatype File = JournalFile(phase: Phase) | ArtifactFile(path: Path) | SupervisorFile

  datatype Directory = JournalDirectory | ArtifactsDirectory | ArtifactDirectory | ClosureDirectory | Below(path: Path)

  // ----- the records

  function InitialState(plan: Plan, at: int): SupervisorState {
    SupervisorState(plan.repositoryId, plan.activeArtifact, at)
  }

  function RecordOf(phase: Phase, plan: Plan, at: int, previous: Option<JournalRecord>): JournalRecord {
    JournalRecord(phase, plan.provenance, at, plan.closureDigest, plan.manifestDigest, plan.activeArtifact,
                  InitialState(plan, at), previous)
  }

  /** Each phase's record names the one before it. */
  function Journal(plan: Plan, at: int, phase: Phase): JournalRecord
    decreases phase.SupervisorPublished?, phase.ArtifactMaterialized?
  {
    match phase
    case Prepared => RecordOf(Prepared, plan, at, None)
    case ArtifactMaterialized => RecordOf(ArtifactMaterialized, plan, at, Some(Journal(plan, at, Prepared)))
    case SupervisorPublished => RecordOf(SupervisorPublished, plan, at, Some(Journal(plan, at, ArtifactMaterialized)))
  }

  // ----- everything that is published, in order

  datatype Publication = Publication(file: File, content: Content)

  function Publications(plan: Plan, at: int): (p: seq<Publication>)
    ensures |p| == |plan.entries| + 4
    ensures p[0] == Publication(JournalFile(Prepared), JournalBytes(Journal(plan, at, Prepared)))
    ensures forall i :: 0 <= i < |plan.entries| ==>
              p[i + 1] == Publication(ArtifactFile(plan.entries[i].path), ArtifactBytes(plan.entries[i].bytes))
    ensures var m := |plan.entries|;
            && p[m + 1] == Publication(JournalFile(ArtifactMaterialized),
                                       JournalBytes(Journal(plan, at, ArtifactMaterialized)))
            && p[m + 2] == Publication(SupervisorFile, SupervisorBytes(InitialState(plan, at)))
            && p[m + 3] == Publication(JournalFile(SupervisorPublished),
                                       JournalBytes(Journal(plan, at, SupervisorPublished)))
  {
    [Publication(JournalFile(Prepared), JournalBytes(Journal(plan, at, Prepared)))]
    + seq(|plan.entries|, i requires 0 <= i < |plan.entries| =>
            Publication(ArtifactFile(plan.entries[i].path), ArtifactBytes(plan.entries[i].bytes)))
    + [Publication(JournalFile(ArtifactMaterialized), JournalBytes(Journal(plan, at, ArtifactMaterialized))),
       Publication(SupervisorFile, SupervisorBytes(InitialState(plan, at))),
       Publication(JournalFile(SupervisorPublished), JournalBytes(Journal(plan, at, SupervisorPublished)))]
  }

  lemma PublicationsDiffer(plan: Plan, at: int, i: nat, j: nat)
    requires plan.Ok() && i < |Publications(plan, at)| && j < |Publications(plan, at)| && i != j
    ensures Publications(plan, at)[i].file != Publications(plan, at)[j].file
  {
    var p, m := Publications(plan, at), |plan.entries|;
    assert 1 <= i <= m ==> p[i] == p[(i - 1) + 1];
    assert 1 <= j <= m ==> p[j] == p[(j - 1) + 1];
  }

  function FilesAfter(p: seq<Publication>, k: nat): map<File, Content>
    requires k <= |p|
  {
    if k == 0 then map[] else FilesAfter(p, k - 1)[p[k - 1].file := p[k - 1].content]
  }

  predicate FilesDiffer(p: seq<Publication>) {
    forall i, j :: 0 <= i < j < |p| ==> p[i].file != p[j].file
  }

  lemma {:induction false} FilesAfterHas(p: seq<Publication>, k: nat, i: nat)
    requires k <= |p| && i < |p| && FilesDiffer(p)
    ensures p[i].file in FilesAfter(p, k) <==> i < k
    ensures i < k ==> FilesAfter(p, k)[p[i].file] == p[i].content
  {
    if k > 0 {
      FilesAfterHas(p, k - 1, i);
    }
  }

  /** All directories of a complete artifact, and the journal's. */
  function BaseDirectories(): set<Directory> {
    {ArtifactsDirectory, ArtifactDirectory, ClosureDirectory}
  }

  function ParentsOf(parents: seq<Path>): set<Directory> {
    set i | 0 <= i < |parents| :: Below(parents[i])
  }

  /** The directories of the first n entries. */
  function DirectoriesFor(entries: seq<ArtifactEntry>, n: nat): set<Directory>
    requires n <= |entries|
  {
    if n == 0 then BaseDirectories() else DirectoriesFor(entries, n - 1) + ParentsOf(entries[n - 1].parents)
  }

  function AllDirectories(plan: Plan): set<Directory> {
    {JournalDirectory} + DirectoriesFor(plan.entries, |plan.entries|)
  }

  // ----- the disk

  /** Final files, their `.pending` siblings and the directories. */
  datatype Disk = Disk(files: map<File, Content>, pending: map<File, Content>, directories: set<Directory>)

  const EMPTY_DISK := Disk(map[], map[], {})

  /** Nothing has been prepared: at most the journal's directory is there. */
  predicate Untouched(disk: Disk) {
    disk.files == map[] && disk.pending == map[] && disk.directories <= {JournalDirectory}
  }

  /** The first k publications are final, the next one may be pending, nothing else is there. */
  ghost predicate Standing(disk: Disk, plan: Plan, at: int, k: nat, next: bool) {
    var p, m := Publications(plan, at), |plan.entries|;
    && k <= |p| && (next ==> k < |p|)
    && disk.files == FilesAfter(p, k)
    && disk.pending == (if next then map[p[k].file := p[k].content] else map[])
    && JournalDirectory in disk.directories && disk.directories <= AllDirectories(plan)
    && (k == 0 ==> disk.directories == {JournalDirectory})
    && (k > m + 1 || (k == m + 1 && next) ==> disk.directories == AllDirectories(plan))
  }

  /** The states stopped runs leave, with the timestamp they have settled on, if any. */
  ghost predicate Left(disk: Disk, plan: Plan, settled: Option<int>) {
    match settled
    case None => Untouched(disk)
    case Some(at) => exists k, next :: (k > 0 || next) && Standing(disk, plan, at, k, next)
  }

  /** The one state a finished bootstrap leaves. */
  function FinishedDisk(plan: Plan, at: int): Disk {
    var p := Publications(plan, at);
    Disk(FilesAfter(p, |p|), map[], AllDirectories(plan))
  }

  lemma FinishedIsLast(disk: Disk, plan: Plan, at: int)
    ensures Standing(disk, plan, at, |plan.entries| + 4, false) <==> disk == FinishedDisk(plan, at)
  {
    hide FilesAfter;
    DirectoriesOfNone(plan);
  }

  lemma DirectoriesOfNone(plan: Plan)
    ensures JournalDirectory in AllDirectories(plan)
  {
  }

  lemma UntouchedStands(disk: Disk, plan: Plan, at: int)
    requires Untouched(disk) && JournalDirectory in disk.directories
    ensures Standing(disk, plan, at, 0, false)
  {
    hide FilesAfter;
    NothingPublished(plan, at);
    DirectoriesOfNone(plan);
  }

  lemma NothingPublished(plan: Plan, at: int)
    ensures FilesAfter(Publications(plan, at), 0) == map[]
  {
  }

  lemma AllFilesDiffer(plan: Plan, at: int)
    requires plan.Ok()
    ensures FilesDiffer(Publications(plan, at))
  {
    var p := Publications(plan, at);
    forall i, j | 0 <= i < j < |p| ensures p[i].file != p[j].file {
      PublicationsDiffer(plan, at, i, j);
    }
  }

  /** Where a publication is: final before the k-th, pending at it, nowhere after. */
  lemma StandingHas(disk: Disk, plan: Plan, at: int, k: nat, next: bool, i: nat)
    requires plan.Ok() && Standing(disk, plan, at, k, next) && i < |plan.entries| + 4
    ensures var p := Publications(plan, at)[i];
            && (p.file in disk.files <==> i < k) && (i < k ==> disk.files[p.file] == p.content)
            && (p.file in disk.pending <==> next && i == k)
            && (next && i == k ==> disk.pending[p.file] == p.content)
  {
    hide FilesAfter, Publications, AllDirectories;
    var p := Publications(plan, at);
    AllFilesDiffer(plan, at);
    FilesAfterHas(p, k, i);
    if next && i != k {
      PublicationsDiffer(plan, at, i, k);
    }
  }

  /** The k-th publication becomes pending, and then final. */
  lemma NextPending(disk: Disk, plan: Plan, at: int, k: nat)
    requires Standing(disk, plan, at, k, false) && k < |plan.entries| + 4
    requires k == |plan.entries| + 1 ==> disk.directories == AllDirectories(plan)
    ensures var p := Publications(plan, at)[k];
            Standing(disk.(pending := disk.pending[p.file := p.content]), plan, at, k, true)
  {
    hide FilesAfter, AllDirectories;
  }

  lemma NextFinal(disk: Disk, plan: Plan, at: int, k: nat)
    requires Standing(disk, plan, at, k, true)
    requires k == |plan.entries| + 1 ==> disk.directories == AllDirectories(plan)
    ensures var p := Publications(plan, at)[k];
            var after := disk.(files := disk.files[p.file := p.content], pending := disk.pending - {p.file});
            Standing(after, plan, at, k + 1, false)
  {
    hide AllDirectories;
  }

  /** Directories of the artifact appear only once the first phase is recorded. */
  lemma MoreDirectories(disk: Disk, plan: Plan, at: int, k: nat, next: bool, more: set<Directory>)
    requires Standing(disk, plan, at, k, next) && k > 0 && more <= AllDirectories(plan)
    ensures Standing(disk.(directories := disk.directories + more), plan, at, k, next)
  {
    hide FilesAfter, AllDirectories;
  }

  // ----- the journal's inventory

  const PHASES: seq<Phase> := [Prepared, ArtifactMaterialized, SupervisorPublished]

  lemma PhaseListed(phase: Phase)
    ensures exists i :: 0 <= i < 3 && PHASES[i] == phase
  {
    assert PHASES[0] == Prepared && PHASES[1] == ArtifactMaterialized && PHASES[2] == SupervisorPublished;
  }

  /** Where a phase's record stands among the publications. */
  function PlaceOf(plan: Plan, phase: Phase): nat {
    match phase
    case Prepared => 0
    case ArtifactMaterialized => |plan.entries| + 1
    case SupervisorPublished => |plan.entries| + 3
  }

  lemma PhasePublication(plan: Plan, at: int, phase: Phase)
    ensures PlaceOf(plan, phase) < |plan.entries| + 4
    ensures Publications(plan, at)[PlaceOf(plan, phase)]
            == Publication(JournalFile(phase), JournalBytes(Journal(plan, at, phase)))
  {
  }

  /** Phases whose record is final when k publications are. */
  function CompletedPhases(plan: Plan, k: nat): nat {
    (if k > 0 then 1 else 0) + (if k > |plan.entries| + 1 then 1 else 0) + if k > |plan.entries| + 3 then 1 else 0
  }

  function PendingPhase(plan: Plan, k: nat, next: bool): Option<Phase> {
    if !next then None
    else if k == 0 then Some(Prepared)
    else if k == |plan.entries| + 1 then Some(ArtifactMaterialized)
    else if k == |plan.entries| + 3 then Some(SupervisorPublished)
    else None
  }

  datatype Inventory = Inventory(completed: nat, pendingCount: nat, pendingPhase: Option<Phase>)

  /** One turn of the inventory loop, or None for a corrupt journal. */
  function Inventoried(disk: Disk, inventory: Inventory, index: nat): Option<Inventory>
    requires index < 3
  {
    var file := JournalFile(PHASES[index]);
    var hasFinal, hasPending := file in disk.files, file in disk.pending;
    if hasFinal && hasPending then None
    else if hasFinal then
      if index != inventory.completed || inventory.pendingCount != 0 then None
      else Some(inventory.(completed := inventory.completed + 1))
    else if hasPending then
      if index != inventory.completed || inventory.pendingCount != 0 then None
      else Some(inventory.(pendingCount := inventory.pendingCount + 1, pendingPhase := Some(PHASES[index])))
    else Some(inventory)
  }

  /** The first c phases are recorded, the next one may be pending, and no other is. */
  predicate JournalStands(disk: Disk, c: nat, pending: Option<Phase>) {
    && c <= 3 && (pending.Some? ==> c < 3 && pending.value == PHASES[c])
    && forall i :: 0 <= i < 3 ==>
         && (JournalFile(PHASES[i]) in disk.files <==> i < c)
         && (JournalFile(PHASES[i]) in disk.pending <==> pending.Some? && i == c)
  }

  /** Nothing is there that the recorded phases do not account for. */
  predicate Accounted(disk: Disk, c: nat) {
    && (c == 0 ==> ArtifactsDirectory !in disk.directories)
    && (c < 2 ==> SupervisorFile !in disk.files && SupervisorFile !in disk.pending)
  }

  /** What the loop has found of the first n phases. */
  predicate StandsUpTo(disk: Disk, n: nat, inventory: Inventory)
    requires n <= 3
  {
    var pending := inventory.pendingPhase;
    && inventory.completed <= n && inventory.pendingCount == (if pending.Some? then 1 else 0)
    && (pending.Some? ==> inventory.completed < n && pending.value == PHASES[inventory.completed])
    && forall i :: 0 <= i < n ==>
         && (JournalFile(PHASES[i]) in disk.files <==> i < inventory.completed)
         && (JournalFile(PHASES[i]) in disk.pending <==> pending.Some? && i == inventory.completed)
  }

  /** The loop goes on while the phases so far stand, and stops only when no reading stands. */
  lemma InventoryStep(disk: Disk, inventory: Inventory, n: nat)
    requires n < 3 && StandsUpTo(disk, n, inventory)
    ensures match Inventoried(disk, inventory, n)
            case Some(more) => StandsUpTo(disk, n + 1, more)
            case None => forall c: nat, pending :: !JournalStands(disk, c, pending)
  {
    var file, c := JournalFile(PHASES[n]), inventory.completed;
    assert c < n ==>
      JournalFile(PHASES[c]) !in disk.files
          && (JournalFile(PHASES[c]) in disk.pending <==> inventory.pendingPhase.Some?);
  }

  /** A journal stands in one way at most. */
  lemma OneReading(disk: Disk, inventory: Inventory)
    requires StandsUpTo(disk, 3, inventory)
    ensures JournalStands(disk, inventory.completed, inventory.pendingPhase)
    ensures forall c: nat, pending :: JournalStands(disk, c, pending) ==>
              c == inventory.completed && pending == inventory.pendingPhase
  {
    forall c: nat, pending | JournalStands(disk, c, pending)
      ensures c == inventory.completed && pending == inventory.pendingPhase
    {
      assert c < 3 ==> JournalFile(PHASES[c]) !in disk.files;
      assert inventory.completed < 3 ==> JournalFile(PHASES[inventory.completed]) !in disk.files;
    }
  }

  /** The journal of a disk that stopped runs left stands, and accounts for what is there. */
  lemma StandingJournal(disk: Disk, plan: Plan, at: int, k: nat, next: bool)
    requires plan.Ok() && Standing(disk, plan, at, k, next)
    ensures JournalStands(disk, CompletedPhases(plan, k), PendingPhase(plan, k, next))
    ensures Accounted(disk, CompletedPhases(plan, k))
  {
    SupervisorStands(disk, plan, at, k, next);
    hide Standing, Publications;
    forall i | 0 <= i < 3
      ensures JournalFile(PHASES[i]) in disk.files <==> i < CompletedPhases(plan, k)
      ensures JournalFile(PHASES[i]) in disk.pending
              <==> PendingPhase(plan, k, next).Some? && i == CompletedPhases(plan, k)
    {
      PhasePublication(plan, at, PHASES[i]);
      StandingHas(disk, plan, at, k, next, PlaceOf(plan, PHASES[i]));
    }
  }

  /** The supervisor's file and the artifact appear only after the phases that lead to them. */
  lemma SupervisorStands(disk: Disk, plan: Plan, at: int, k: nat, next: bool)
    requires plan.Ok() && Standing(disk, plan, at, k, next)
    ensures SupervisorFile in disk.files || SupervisorFile in disk.pending ==> CompletedPhases(plan, k) >= 2
    ensures k == 0 ==> ArtifactsDirectory !in disk.directories
    ensures SupervisorFile in disk.files <==> k > |plan.entries| + 2
    ensures SupervisorFile in disk.files ==> disk.files[SupervisorFile] == SupervisorBytes(InitialState(plan, at))
  {
    StandingHas(disk, plan, at, k, next, |plan.entries| + 2);
  }

  // ----- the artifact

  function ArtifactFiles(plan: Plan): set<File> {
    set i | 0 <= i < |plan.entries| :: ArtifactFile(plan.entries[i].path)
  }

  /** The artifact is there: its directories, exactly its files, none pending, with their bytes. */
  predicate Materialized(disk: Disk, plan: Plan) {
    && BaseDirectories() <= disk.directories
    && (set f | f in disk.files && f.ArtifactFile?) == ArtifactFiles(plan)
    && (set f | f in disk.pending && f.ArtifactFile?) == {}
    && forall i :: 0 <= i < |plan.entries| ==>
         var f := ArtifactFile(plan.entries[i].path);
         f in disk.files && disk.files[f] == ArtifactBytes(plan.entries[i].bytes)
  }

  lemma {:induction false} FilesAfterOnly(p: seq<Publication>, k: nat, f: File)
    requires k <= |p| && f in FilesAfter(p, k)
    ensures exists i :: 0 <= i < k && p[i].file == f
  {
    if k > 0 && f != p[k - 1].file {
      FilesAfterOnly(p, k - 1, f);
    }
  }

  lemma ArtifactPublication(plan: Plan, at: int, i: nat)
    requires i < |plan.entries| + 4
    ensures var f := Publications(plan, at)[i].file;
            f.ArtifactFile? <==> 1 <= i <= |plan.entries|
    ensures 1 <= i <= |plan.entries| ==>
              Publications(plan, at)[i]
              == Publication(ArtifactFile(plan.entries[i - 1].path), ArtifactBytes(plan.entries[i - 1].bytes))
  {
    if 1 <= i <= |plan.entries| {
      assert Publications(plan, at)[(i - 1) + 1].file.ArtifactFile?;
    }
  }

  lemma ArtifactStands(disk: Disk, plan: Plan, at: int, k: nat, next: bool)
    requires plan.Ok() && Standing(disk, plan, at, k, next) && k > |plan.entries|
    requires BaseDirectories() <= disk.directories
    ensures Materialized(disk, plan)
  {
    hide Publications, FilesAfter, AllDirectories, BaseDirectories;
    var p := Publications(plan, at);
    forall i | 0 <= i < |plan.entries|
      ensures var f := ArtifactFile(plan.entries[i].path);
              f in disk.files && disk.files[f] == ArtifactBytes(plan.entries[i].bytes)
    {
      ArtifactPublication(plan, at, i + 1);
      StandingHas(disk, plan, at, k, next, i + 1);
    }
    forall f | f in disk.files && f.ArtifactFile? ensures f in ArtifactFiles(plan) {
      FilesAfterOnly(p, k, f);
      var i :| 0 <= i < k && p[i].file == f;
      ArtifactPublication(plan, at, i);
    }
    if next {
      ArtifactPublication(plan, at, k);
    }
  }

  lemma {:induction false} DirectoriesGrow(entries: seq<ArtifactEntry>, n: nat)
    requires n <= |entries|
    ensures BaseDirectories() <= DirectoriesFor(entries, n) <= DirectoriesFor(entries, |entries|)
    decreases |entries| - n
  {
    hide BaseDirectories, ParentsOf;
    if n < |entries| {
      DirectoriesGrow(entries, n + 1);
    }
    BaseIsThere(entries, n);
  }

  lemma {:induction false} BaseIsThere(entries: seq<ArtifactEntry>, n: nat)
    requires n <= |entries|
    ensures BaseDirectories() <= DirectoriesFor(entries, n)
  {
    if n > 0 {
      BaseIsThere(entries, n - 1);
    }
  }

  /** Once every directory of the artifact is there, all directories are. */
  lemma DirectoriesComplete(disk: Disk, plan: Plan, at: int, k: nat, next: bool)
    requires Standing(disk, plan, at, k, next) && DirectoriesFor(plan.entries, |plan.entries|) <= disk.directories
    ensures disk.directories == AllDirectories(plan)
  {
    hide Publications, FilesAfter, DirectoriesFor;
  }

  lemma AllIncludeBase(plan: Plan)
    ensures BaseDirectories() <= AllDirectories(plan)
  {
    BaseIsThere(plan.entries, |plan.entries|);
  }
}
