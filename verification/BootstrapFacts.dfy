/** What the initial bootstrap leaves on disk, file by file, and in which order it appears. */
module BootstrapFacts {

  import opened Bootstrap
  import opened Results

  /** A journal record of a phase, in all its fields. */
  predicate RecordSays(r: JournalRecord, phase: Phase, plan: Plan, at: int, previous: Option<JournalRecord>) {
    && r.phase == phase && r.previous == previous && r.initializedAt == at
    && r.provenance == plan.provenance && r.closureDigest == plan.closureDigest
    && r.manifestDigest == plan.manifestDigest && r.activeArtifact == plan.activeArtifact
    && r.supervisor.repositoryId == plan.repositoryId && r.supervisor.activeArtifact == plan.activeArtifact
    && r.supervisor.updatedAt == at
  }

  predicate HasJournal(files: map<File, Content>, phase: Phase, plan: Plan, at: int, previous: Option<JournalRecord>) {
    var f := JournalFile(phase);
    f in files && files[f].JournalBytes? && RecordSays(files[f].record, phase, plan, at, previous)
  }

  predicate HasArtifact(files: map<File, Content>, plan: Plan) {
    forall i :: 0 <= i < |plan.entries| ==>
      var f := ArtifactFile(plan.entries[i].path);
      f in files && files[f] == ArtifactBytes(plan.entries[i].bytes)
  }

  predicate HasSupervisor(files: map<File, Content>, plan: Plan, at: int) {
    && SupervisorFile in files && files[SupervisorFile].SupervisorBytes?
    && files[SupervisorFile].state.repositoryId == plan.repositoryId
    && files[SupervisorFile].state.activeArtifact == plan.activeArtifact
    && files[SupervisorFile].state.updatedAt == at
  }

  /** Three journal records, each naming the one before it, the artifact, the supervisor, and nothing
      else, all of one time. */
  ghost predicate Complete(disk: Disk, plan: Plan, at: int) {
    && disk.pending == map[]
    && HasJournal(disk.files, Prepared, plan, at, None)
    && HasJournal(disk.files, ArtifactMaterialized, plan, at, Some(disk.files[JournalFile(Prepared)].record))
    && HasJournal(disk.files, SupervisorPublished, plan, at, Some(disk.files[JournalFile(ArtifactMaterialized)].record))
    && HasArtifact(disk.files, plan) && HasSupervisor(disk.files, plan, at)
    && (forall f :: f in disk.files && f.ArtifactFile? ==>
          exists i :: 0 <= i < |plan.entries| && plan.entries[i].path == f.path)
    && forall d :: d in disk.directories <==>
         d == JournalDirectory || d == ArtifactsDirectory || d == ArtifactDirectory || d == ClosureDirectory
         || exists i :: 0 <= i < |plan.entries| && IsParent(plan.entries[i], d)
  }

  predicate IsParent(entry: ArtifactEntry, d: Directory) {
    d.Below? && d.path in entry.parents
  }

  lemma {:induction false} DirectoriesAre(entries: seq<ArtifactEntry>, n: nat, d: Directory)
    requires n <= |entries|
    ensures d in DirectoriesFor(entries, n) <==>
              || d == ArtifactsDirectory || d == ArtifactDirectory || d == ClosureDirectory
              || exists i :: 0 <= i < n && IsParent(entries[i], d)
  {
    if n > 0 {
      DirectoriesAre(entries, n - 1, d);
      assert d in ParentsOf(entries[n - 1].parents) <==> IsParent(entries[n - 1], d);
    }
  }

  /** The state a finished bootstrap leaves is the one complete disk. */
  lemma FinishedIsComplete(plan: Plan, at: int)
    requires plan.Ok()
    ensures Complete(FinishedDisk(plan, at), plan, at)
  {
    hide FilesAfter, Publications, DirectoriesFor, Journal, RecordSays;
    var disk, n := FinishedDisk(plan, at), |plan.entries| + 4;
    FinishedIsLast(disk, plan, at);
    JournalSays(plan, at);
    PhasesStand(disk, plan, at, n, false);
    forall f | f in disk.files && f.ArtifactFile?
      ensures exists i :: 0 <= i < |plan.entries| && plan.entries[i].path == f.path
    {
      FilesAfterOnly(Publications(plan, at), n, f);
      var i :| 0 <= i < n && Publications(plan, at)[i].file == f;
      ArtifactPublication(plan, at, i);
      assert plan.entries[i - 1].path == f.path;
    }
    forall d ensures d in DirectoriesFor(plan.entries, |plan.entries|) <==>
                       || d == ArtifactsDirectory || d == ArtifactDirectory || d == ClosureDirectory
                       || exists i :: 0 <= i < |plan.entries| && IsParent(plan.entries[i], d)
    {
      DirectoriesAre(plan.entries, |plan.entries|, d);
    }
  }

  lemma JournalSays(plan: Plan, at: int)
    ensures RecordSays(Journal(plan, at, Prepared), Prepared, plan, at, None)
    ensures RecordSays(Journal(plan, at, ArtifactMaterialized), ArtifactMaterialized, plan, at,
                       Some(Journal(plan, at, Prepared)))
    ensures RecordSays(Journal(plan, at, SupervisorPublished), SupervisorPublished, plan, at,
                       Some(Journal(plan, at, ArtifactMaterialized)))
  {
  }

  /** What is there when a phase's record, or the supervisor, is final. */
  lemma PhasesStand(disk: Disk, plan: Plan, at: int, k: nat, next: bool)
    requires plan.Ok() && Standing(disk, plan, at, k, next)
    ensures forall phase :: JournalFile(phase) in disk.files ==>
              disk.files[JournalFile(phase)] == JournalBytes(Journal(plan, at, phase))
    ensures k > 0 ==> JournalFile(Prepared) in disk.files
    ensures k > |plan.entries| ==> HasArtifact(disk.files, plan)
    ensures k > |plan.entries| + 1 <==> JournalFile(ArtifactMaterialized) in disk.files
    ensures k > |plan.entries| + 2 <==> SupervisorFile in disk.files
    ensures k > |plan.entries| + 2 ==> HasSupervisor(disk.files, plan, at)
    ensures k > |plan.entries| + 3 <==> JournalFile(SupervisorPublished) in disk.files
    ensures (exists i :: 0 <= i < |plan.entries| && ArtifactFile(plan.entries[i].path) in disk.files) ==> k > 0
  {
    hide Standing, Publications, Journal;
    forall phase ensures JournalFile(phase) in disk.files <==> PlaceOf(plan, phase) < k
                 ensures JournalFile(phase) in disk.files ==>
                           disk.files[JournalFile(phase)] == JournalBytes(Journal(plan, at, phase))
    {
      PhasePublication(plan, at, phase);
      StandingHas(disk, plan, at, k, next, PlaceOf(plan, phase));
    }
    SupervisorStands(disk, plan, at, k, next);
    forall i | 0 <= i < |plan.entries|
      ensures var f := ArtifactFile(plan.entries[i].path);
              && (f in disk.files <==> i + 1 < k)
              && (f in disk.files ==> disk.files[f] == ArtifactBytes(plan.entries[i].bytes))
    {
      ArtifactPublication(plan, at, i + 1);
      StandingHas(disk, plan, at, k, next, i + 1);
    }
  }

  /** Whatever stopped runs left: an artifact file or a later record is there only after the prepared
      record, the materialized record only with the whole artifact, the supervisor only after that
      record, and the last record only with the supervisor, all of the settled time. */
  lemma LeftInOrder(disk: Disk, plan: Plan, settled: Option<int>)
    requires plan.Ok() && Left(disk, plan, settled)
    ensures disk.files != map[] ==> settled.Some? && HasJournal(disk.files, Prepared, plan, settled.value, None)
    ensures JournalFile(ArtifactMaterialized) in disk.files ==>
              && settled.Some? && HasArtifact(disk.files, plan) && JournalFile(Prepared) in disk.files
              && HasJournal(disk.files, ArtifactMaterialized, plan, settled.value,
                            Some(disk.files[JournalFile(Prepared)].record))
    ensures SupervisorFile in disk.files ==>
              && settled.Some? && HasSupervisor(disk.files, plan, settled.value)
              && JournalFile(ArtifactMaterialized) in disk.files
    ensures JournalFile(SupervisorPublished) in disk.files ==>
              && settled.Some? && SupervisorFile in disk.files && JournalFile(ArtifactMaterialized) in disk.files
              && HasJournal(disk.files, SupervisorPublished, plan, settled.value,
                            Some(disk.files[JournalFile(ArtifactMaterialized)].record))
  {
    hide Publications, Journal, RecordSays, FilesAfter, AllDirectories, HasArtifact, HasSupervisor;
    if settled.Some? {
      var at := settled.value;
      var k, next :| (k > 0 || next) && Standing(disk, plan, at, k, next);
      JournalSays(plan, at);
      PhasesStand(disk, plan, at, k, next);
      NothingPublished(plan, at);
    }
  }
}
