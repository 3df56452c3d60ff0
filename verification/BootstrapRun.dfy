/** Running the initial bootstrap on a disk: it may stop before any change, and be run again. */
module BootstrapRun {

  import opened Bootstrap
  import opened Results

  /** `NotEmpty`: something is there although nothing was ever prepared. */
  datatype Outcome<+T> = Value(value: T) | Stopped | Corrupt | NotEmpty

  class Storage {
    var disk: Disk
    /** How many more changes to the disk are made before the run stops; None for no stop. */
    var stopAfter: Option<nat>

    constructor ()
      ensures disk == EMPTY_DISK && stopAfter == None
    {
      disk, stopAfter := EMPTY_DISK, None;
    }

    /** Asked before every change. */
    method MayChange() returns (go: bool)
      modifies `stopAfter
      ensures old(stopAfter).None? ==> go && stopAfter == None
      ensures old(stopAfter).Some? ==> (go <==> old(stopAfter).value > 0)
      ensures old(stopAfter).Some? && go ==> stopAfter == Some(old(stopAfter).value - 1)
    {
      match stopAfter {
        case None => return true;
        case Some(n) =>
          if n == 0 {
            return false;
          }
          stopAfter := Some(n - 1);
          return true;
      }
    }

    /** `publishExactPrivateFile`: a `.pending` sibling, written at once, then renamed. */
    method PublishExactPrivateFile(file: File, content: Content) returns (r: Outcome<()>)
      modifies this
      ensures old(stopAfter).None? ==> !r.Stopped? && stopAfter == None
      ensures disk.directories == old(disk.directories)
      ensures var before := old(disk);
              var pending := before.(pending := before.pending[file := content]);
              if file in before.files then
                disk == before
                && r == if file in before.pending || before.files[file] != content then Corrupt else Value(())
              else if file in before.pending && before.pending[file] != content then disk == before && r == Corrupt
              else
                !r.Corrupt? && !r.NotEmpty?
                && (r.Value? ==>
                      disk == before.(files := before.files[file := content], pending := pending.pending - {file}))
                && (r.Stopped? ==> disk == before || disk == pending)
                && (r.Stopped? && old(stopAfter) != Some(0) ==> disk == pending)
                && (old(stopAfter) == Some(0) ==> r.Stopped? && disk == before)
    {
      if file in disk.files {
        if file in disk.pending {
          return Corrupt;
        }
        if disk.files[file] != content {
          return Corrupt;
        }
        return Value(());
      }
      if file in disk.pending {
        if disk.pending[file] != content {
          return Corrupt;
        }
        assert disk.pending[file := content] == disk.pending;
        var go := MayChange();
        if !go {
          return Stopped;
        }
        disk := disk.(files := disk.files[file := content], pending := disk.pending - {file});
        return Value(());
      }
      var go := MayChange();
      if !go {
        return Stopped;
      }
      disk := disk.(pending := disk.pending[file := content]);
      go := MayChange();
      if !go {
        return Stopped;
      }
      disk := disk.(files := disk.files[file := content], pending := disk.pending - {file});
      return Value(());
    }

    /** Publishing the i-th of the bootstrap's files when those before it are out. */
    method PublishNext(plan: Plan, at: int, i: nat, ghost k: nat, ghost next: bool)
      returns (r: Outcome<()>, ghost k2: nat, ghost next2: bool)
      requires plan.Ok() && Standing(disk, plan, at, k, next) && i <= k && i < |plan.entries| + 4
      requires i == |plan.entries| + 1 ==> disk.directories == AllDirectories(plan)
      modifies this
      ensures old(stopAfter).None? ==> r.Value? && stopAfter == None
      ensures !r.Corrupt? && !r.NotEmpty? && Standing(disk, plan, at, k2, next2)
              && disk.directories == old(disk.directories)
      ensures r.Value? ==> k2 == (if i < k then k else i + 1) && (next2 <==> i < k && next)
      ensures (k > 0 || next ==> k2 > 0 || next2) && k2 >= k
      ensures !next && !(k2 > 0 || next2) ==> disk == old(disk)
      ensures i == k && old(stopAfter) != Some(0) ==> k2 > k || next2
      ensures i == k && old(stopAfter) == Some(0) ==> r.Stopped? && k2 == k && next2 == next
    {
      hide Standing, Publications, AllDirectories, FilesAfter;
      StandingHas(disk, plan, at, k, next, i);
      k2, next2 := k, next;
      if i == k {
        if next {
          NextFinal(disk, plan, at, k);
          assert disk.pending[Publications(plan, at)[i].file := Publications(plan, at)[i].content] == disk.pending;
        } else {
          NextPending(disk, plan, at, k);
          NextFinal(disk.(pending := disk.pending[Publications(plan, at)[i].file := Publications(plan, at)[i].content]),
                    plan, at, k);
        }
      }
      r := PublishExactPrivateFile(Publications(plan, at)[i].file, Publications(plan, at)[i].content);
      if i == k {
        if r.Value? {
          k2, next2 := k + 1, false;
        } else if disk != old(disk) || old(stopAfter) != Some(0) {
          next2 := true;
        }
      }
    }

    /** `assertInitialBootstrapJournalInventory`: on any disk, accepted exactly when the phases' records
        form a prefix, at most the last one pending, and account for everything that is there. */
    method AssertInventory() returns (r: Outcome<(nat, Option<Phase>)>)
      ensures !r.Stopped?
      ensures r.NotEmpty? ==> JournalStands(disk, 0, None)
      ensures forall c: nat, pending :: JournalStands(disk, c, pending) ==>
                r == if Accounted(disk, c) then Value((c, pending))
                     else if c == 0 && pending.None? then NotEmpty
                     else Corrupt
      ensures r.Value? ==> JournalStands(disk, r.value.0, r.value.1)
    {
      var inventory := Inventory(0, 0, None);
      for index := 0 to 3
        invariant StandsUpTo(disk, index, inventory)
      {
        InventoryStep(disk, inventory, index);
        var more := Inventoried(disk, inventory, index);
        if more.None? {
          return Corrupt;
        }
        inventory := more.value;
      }
      OneReading(disk, inventory);
      assert PHASES[0] == Prepared;
      var preparedExists := JournalFile(Prepared) in disk.files || JournalFile(Prepared) in disk.pending;
      var artifactExists := ArtifactsDirectory in disk.directories;
      var supervisorExists := SupervisorFile in disk.files;
      var supervisorPendingExists := SupervisorFile in disk.pending;
      if !preparedExists && (artifactExists || supervisorExists || supervisorPendingExists) {
        return NotEmpty;
      }
      if inventory.pendingPhase == Some(Prepared) && (artifactExists || supervisorExists || supervisorPendingExists) {
        return Corrupt;
      }
      if inventory.completed < 2 && (supervisorExists || supervisorPendingExists) {
        return Corrupt;
      }
      return Value((inventory.completed, inventory.pendingPhase));
    }

    /** The record of a phase, final or pending. */
    function Candidate(phase: Phase): Option<Content>
      reads this
    {
      var file := JournalFile(phase);
      if file in disk.files then Some(disk.files[file])
      else if file in disk.pending then Some(disk.pending[file])
      else None
    }

    /** On a disk that stopped runs left, the records are those of the phases begun so far. */
    lemma CandidatesStand(plan: Plan, at: int, k: nat, next: bool)
      requires plan.Ok() && Standing(disk, plan, at, k, next)
      ensures forall phase :: Candidate(phase)
                == var i := PlaceOf(plan, phase);
                   if i < k || (i == k && next) then Some(JournalBytes(Journal(plan, at, phase))) else None
    {
      hide Standing, Publications, Journal;
      forall phase
        ensures Candidate(phase)
                == var i := PlaceOf(plan, phase);
                   if i < k || (i == k && next) then Some(JournalBytes(Journal(plan, at, phase))) else None
      {
        PhasePublication(plan, at, phase);
        StandingHas(disk, plan, at, k, next, PlaceOf(plan, phase));
      }
    }

    /** `resolveInitialBootstrapTimestamp`: that of the prepared record, if there is one; corruption
        exactly when what is there is the prepared record of no timestamp. */
    method ResolveTimestamp(plan: Plan, requested: int) returns (r: Outcome<int>)
      ensures !r.Stopped? && !r.NotEmpty? && (Candidate(Prepared).None? ==> r == Value(requested))
      ensures Candidate(Prepared).Some? ==>
                forall at :: r == Value(at) <==> Candidate(Prepared).value == JournalBytes(Journal(plan, at, Prepared))
    {
      match Candidate(Prepared) {
        case None => return Value(requested);
        case Some(JournalBytes(record)) =>
          if record != RecordOf(Prepared, plan, record.initializedAt, None) {
            return Corrupt;
          }
          return Value(record.initializedAt);
        case _ => return Corrupt;
      }
    }

    /** `assertExistingInitialBootstrapJournalRecords` */
    method AssertExistingRecords(plan: Plan, at: int) returns (ok: bool)
      ensures ok <==> forall phase ::
                        Candidate(phase).Some? ==> Candidate(phase).value == JournalBytes(Journal(plan, at, phase))
    {
      hide Journal;
      for index := 0 to 3
        invariant forall i :: 0 <= i < index && Candidate(PHASES[i]).Some? ==>
                    Candidate(PHASES[i]).value == JournalBytes(Journal(plan, at, PHASES[i]))
      {
        var phase := PHASES[index];
        var candidate := Candidate(phase);
        if candidate.Some? && candidate.value != JournalBytes(Journal(plan, at, phase)) {
          return false;
        }
      }
      forall phase: Phase
        ensures Candidate(phase).Some? ==> Candidate(phase).value == JournalBytes(Journal(plan, at, phase))
      {
        PhaseListed(phase);
      }
      return true;
    }

    /** `ensurePrivateArtifactDirectory` for each of some directories. */
    method EnsureDirectories(wanted: seq<Directory>) returns (r: Outcome<()>)
      modifies this
      ensures !r.Corrupt? && !r.NotEmpty? && (old(stopAfter).None? ==> r.Value? && stopAfter == None)
      ensures exists more :: more <= Wanted(wanted) && disk == old(disk).(directories := old(disk).directories + more)
      ensures r.Value? ==> Wanted(wanted) <= disk.directories
    {
      ghost var more: set<Directory> := {};
      assert old(disk).directories + {} == old(disk).directories;
      for i := 0 to |wanted|
        invariant old(stopAfter).None? ==> stopAfter == None
        invariant more <= Wanted(wanted) && disk == old(disk).(directories := old(disk).directories + more)
        invariant forall k :: 0 <= k < i ==> wanted[k] in disk.directories
      {
        if wanted[i] !in disk.directories {
          var go := MayChange();
          if !go {
            return Stopped;
          }
          more := more + {wanted[i]};
          assert old(disk).directories + more == disk.directories + {wanted[i]};
          disk := disk.(directories := disk.directories + {wanted[i]});
        }
      }
      return Value(());
    }

    /** `materializeBuiltInClosure`: the directories and files of the artifact, one after another. */
    method Materialize(plan: Plan, at: int, ghost k: nat, ghost next: bool)
      returns (r: Outcome<()>, ghost k2: nat, ghost next2: bool)
      requires plan.Ok() && Standing(disk, plan, at, k, next) && k > 0
      modifies this
      ensures old(stopAfter).None? ==> r.Value? && stopAfter == None
      ensures !r.Corrupt? && !r.NotEmpty? && Standing(disk, plan, at, k2, next2) && k2 >= k
      ensures r.Value? ==> k2 == (if k > |plan.entries| then k else |plan.entries| + 1)
      ensures r.Value? ==> (next2 <==> next && k > |plan.entries|)
      ensures r.Value? ==> disk.directories == AllDirectories(plan)
    {
      hide Standing, Publications, AllDirectories, DirectoriesFor, ParentsOf, Wanted, BaseDirectories, Materialized;
      k2, next2 := k, next;
      WantedBase(plan);
      r := EnsureDirectories([ArtifactsDirectory, ArtifactDirectory, ClosureDirectory]);
      EnsuredDirectories(old(disk), disk, plan, at, k2, next2,
                         [ArtifactsDirectory, ArtifactDirectory, ClosureDirectory]);
      if !r.Value? {
        return;
      }
      for i := 0 to |plan.entries|
        invariant old(stopAfter).None? ==> stopAfter == None
        invariant Standing(disk, plan, at, k2, next2) && k2 >= k && k2 > 0
        invariant k2 == (if k > i then k else i + 1) && (next2 <==> next && k > i)
        invariant DirectoriesFor(plan.entries, i) <= disk.directories
      {
        ghost var before := disk;
        WantedParents(plan, i);
        r := EnsureDirectories(Parents(plan.entries[i]));
        EnsuredDirectories(before, disk, plan, at, k2, next2, Parents(plan.entries[i]));
        if !r.Value? {
          return;
        }
        DirectoriesStep(plan.entries, i, disk.directories);
        r, k2, next2 := PublishNext(plan, at, i + 1, k2, next2);
        if !r.Value? {
          return;
        }
      }
      DirectoriesComplete(disk, plan, at, k2, next2);
      AllIncludeBase(plan);
      ArtifactStands(disk, plan, at, k2, next2);
      if !Materialized(disk, plan) {
        return Corrupt, k2, next2;
      }
      return Value(()), k2, next2;
    }

    /** `readSupervisor` */
    function ReadSupervisor(): Option<SupervisorState>
      reads this
    {
      if SupervisorFile in disk.files && disk.files[SupervisorFile].SupervisorBytes? then
        Some(disk.files[SupervisorFile].state)
      else None
    }

    /** The supervisor's file and the last phase, once the artifact's phase is recorded. */
    method PublishSupervisor(plan: Plan, at: int, completed: nat, pendingPhase: Option<Phase>, ghost k: nat,
                             ghost next: bool)
      returns (r: Outcome<SupervisorState>, ghost k2: nat, ghost next2: bool)
      requires plan.Ok() && Standing(disk, plan, at, k, next) && k > |plan.entries| + 1
      requires disk.directories == AllDirectories(plan)
      requires completed >= 3 || pendingPhase == Some(SupervisorPublished) ==> k > |plan.entries| + 2
      modifies this
      ensures old(stopAfter).None? ==> r.Value? && stopAfter == None
      ensures !r.Corrupt? && !r.NotEmpty? && Standing(disk, plan, at, k2, next2) && k2 >= k
      ensures r.Value? ==> r.value == InitialState(plan, at) && k2 == |plan.entries| + 4 && !next2
    {
      hide Standing, Publications, AllDirectories, FilesAfter, Materialized;
      k2, next2 := k, next;
      SupervisorStands(disk, plan, at, k, next);
      var state := InitialState(plan, at);
      if completed >= 3 || pendingPhase == Some(SupervisorPublished) {
        if ReadSupervisor() != Some(state) {
          return Corrupt, k2, next2;
        }
      }
      SupervisorPublication(plan, at);
      var step;
      step, k2, next2 := PublishNext(plan, at, |plan.entries| + 2, k2, next2);
      if !step.Value? {
        return Stopped, k2, next2;
      }
      SupervisorStands(disk, plan, at, k2, next2);
      if ReadSupervisor() != Some(state) {
        return Corrupt, k2, next2;
      }
      step, k2, next2 := PublishNext(plan, at, |plan.entries| + 3, k2, next2);
      if !step.Value? {
        return Stopped, k2, next2;
      }
      AtTheEnd(disk, plan, at, k2, next2);
      return Value(state), k2, next2;
    }

    /** `initializeBuiltInControlPlaneSupervisor`, from a disk with the journal's directory. */
    method Continue(plan: Plan, now: int, ghost at: int, ghost k: nat, ghost next: bool)
      returns (r: Outcome<SupervisorState>, ghost k2: nat, ghost next2: bool)
      requires plan.Ok() && Standing(disk, plan, at, k, next) && (at == now || k > 0 || next)
      modifies this
      ensures old(stopAfter).None? ==> r.Value?
      ensures !r.Corrupt? && !r.NotEmpty? && Standing(disk, plan, at, k2, next2)
      ensures k2 > 0 || next2 <==> k > 0 || next || old(stopAfter) != Some(0)
      ensures !(k2 > 0 || next2) ==> disk == old(disk)
      ensures r.Value? ==> r.value == InitialState(plan, at) && k2 == |plan.entries| + 4 && !next2
    {
      hide Standing, Publications, AllDirectories, FilesAfter, Materialized, Journal;
      k2, next2 := k, next;
      StandingJournal(disk, plan, at, k, next);
      var progress := AssertInventory();
      if !progress.Value? {
        return if progress.NotEmpty? then NotEmpty else Corrupt, k2, next2;
      }
      var (completed, pendingPhase) := progress.value;
      CandidatesStand(plan, at, k, next);
      var resolved := ResolveTimestamp(plan, now);
      if !resolved.Value? {
        return Corrupt, k2, next2;
      }
      var initializedAt := resolved.value;
      assert initializedAt == at;
      var ok := AssertExistingRecords(plan, initializedAt);
      if !ok {
        return Corrupt, k2, next2;
      }
      var step;
      step, k2, next2 := PublishNext(plan, initializedAt, 0, k2, next2);
      if !step.Value? {
        return Stopped, k2, next2;
      }
      if completed >= 2 || pendingPhase == Some(ArtifactMaterialized) || pendingPhase == Some(SupervisorPublished) {
        ArtifactIsThere(disk, plan, at, k2, next2);
        if !Materialized(disk, plan) {
          return Corrupt, k2, next2;
        }
      } else {
        step, k2, next2 := Materialize(plan, initializedAt, k2, next2);
        if !step.Value? {
          return Stopped, k2, next2;
        }
      }
      step, k2, next2 := PublishNext(plan, initializedAt, |plan.entries| + 1, k2, next2);
      if !step.Value? {
        return Stopped, k2, next2;
      }
      r, k2, next2 := PublishSupervisor(plan, initializedAt, completed, pendingPhase, k2, next2);
      if !r.Value? {
        return r, k2, next2;
      }
      StandingJournal(disk, plan, at, k2, next2);
      CandidatesStand(plan, at, k2, next2);
      var finished := AssertInventory();
      var complete := AssertExistingRecords(plan, initializedAt);
      ArtifactIsThere(disk, plan, at, k2, next2);
      if finished != Value((3, None)) || !complete || !Materialized(disk, plan) {
        return Corrupt, k2, next2;
      }
    }

    /** One run of the bootstrap. Whatever earlier runs left, it never reports corruption; it keeps
        the timestamp they settled on, and settles on its own exactly when it is the first to reach
        preparing; and when it is not stopped, the disk it leaves is the one an uninterrupted run at
        that timestamp leaves. */
    method InitializeBuiltInControlPlaneSupervisor(plan: Plan, now: int, ghost settled: Option<int>)
      returns (r: Outcome<SupervisorState>, ghost after: Option<int>)
      requires plan.Ok() && Left(disk, plan, settled)
      modifies this
      ensures !r.Corrupt? && !r.NotEmpty? && Left(disk, plan, after)
      ensures var prepares := Prepares(Attempt(now, old(stopAfter)), JournalDirectory in old(disk).directories);
              after == if settled.Some? || !prepares then settled else Some(now)
      ensures r.Value? ==>
                && after.Some? && disk == FinishedDisk(plan, after.value)
                && r.value == InitialState(plan, after.value)
      ensures old(stopAfter).None? ==> r.Value?
      ensures JournalDirectory in disk.directories
              <==> JournalDirectory in old(disk).directories || old(stopAfter) != Some(0)
    {
      hide Standing, FinishedDisk, Journal;
      after := settled;
      ghost var at, k, next := now, 0, false;
      if JournalDirectory !in disk.directories {
        EarlyStart(disk, plan, settled);
        var go := MayChange();
        if !go {
          return Stopped, after;
        }
        disk := disk.(directories := disk.directories + {JournalDirectory});
      }
      if settled.Some? {
        at := settled.value;
        k, next :| (k > 0 || next) && Standing(disk, plan, at, k, next);
      } else {
        UntouchedStands(disk, plan, now);
      }
      r, k, next := Continue(plan, now, at, k, next);
      StandingBesideJournal(disk, plan, at, k, next);
      if k > 0 || next {
        after := Some(at);
      }
      if r.Value? {
        FinishedIsLast(disk, plan, at);
      }
    }
  }

  function Wanted(wanted: seq<Directory>): set<Directory> {
    set d | d in wanted
  }

  function Parents(entry: ArtifactEntry): seq<Directory> {
    seq(|entry.parents|, i requires 0 <= i < |entry.parents| => Below(entry.parents[i]))
  }

  lemma WantedBase(plan: Plan)
    ensures Wanted([ArtifactsDirectory, ArtifactDirectory, ClosureDirectory]) == DirectoriesFor(plan.entries, 0)
    ensures DirectoriesFor(plan.entries, 0) <= AllDirectories(plan)
  {
    DirectoriesGrow(plan.entries, 0);
  }

  lemma WantedParents(plan: Plan, i: nat)
    requires i < |plan.entries|
    ensures Wanted(Parents(plan.entries[i])) == ParentsOf(plan.entries[i].parents)
    ensures Wanted(Parents(plan.entries[i])) <= AllDirectories(plan)
  {
    DirectoriesGrow(plan.entries, i + 1);
    var parents := Parents(plan.entries[i]);
    assert forall k :: 0 <= k < |parents| ==> parents[k] == Below(plan.entries[i].parents[k]);
  }

  lemma DirectoriesStep(entries: seq<ArtifactEntry>, i: nat, directories: set<Directory>)
    requires i < |entries| && DirectoriesFor(entries, i) <= directories && ParentsOf(entries[i].parents) <= directories
    ensures DirectoriesFor(entries, i + 1) <= directories
  {
    hide ParentsOf;
  }

  lemma EnsuredDirectories(before: Disk, after: Disk, plan: Plan, at: int, k: nat, next: bool, wanted: seq<Directory>)
    requires Standing(before, plan, at, k, next) && k > 0 && Wanted(wanted) <= AllDirectories(plan)
    requires exists more :: more <= Wanted(wanted) && after == before.(directories := before.directories + more)
    ensures Standing(after, plan, at, k, next) && before.directories <= after.directories
  {
    hide Standing, AllDirectories;
    var more :| more <= Wanted(wanted) && after == before.(directories := before.directories + more);
    MoreDirectories(before, plan, at, k, next, more);
  }

  lemma SupervisorPublication(plan: Plan, at: int)
    ensures Publications(plan, at)[|plan.entries| + 2]
            == Publication(SupervisorFile, SupervisorBytes(InitialState(plan, at)))
  {
  }

  /** Nothing follows the last publication. */
  lemma AtTheEnd(disk: Disk, plan: Plan, at: int, k: nat, next: bool)
    requires Standing(disk, plan, at, k, next) && k >= |plan.entries| + 4
    ensures k == |plan.entries| + 4 && !next
  {
  }

  /** From the second phase on, pending or final, the artifact is complete. */
  lemma ArtifactIsThere(disk: Disk, plan: Plan, at: int, k: nat, next: bool)
    requires plan.Ok() && Standing(disk, plan, at, k, next)
    requires k > |plan.entries| + 1 || (k == |plan.entries| + 1 && next)
    ensures Materialized(disk, plan) && disk.directories == AllDirectories(plan)
  {
    hide Materialized, FilesAfter, AllDirectories;
    AllIncludeBase(plan);
    ArtifactStands(disk, plan, at, k, next);
  }

  lemma StandingBesideJournal(disk: Disk, plan: Plan, at: int, k: nat, next: bool)
    requires Standing(disk, plan, at, k, next)
    ensures JournalDirectory in disk.directories
  {
  }

  /** Without the journal's directory nothing has begun. */
  lemma EarlyStart(disk: Disk, plan: Plan, settled: Option<int>)
    requires Left(disk, plan, settled) && JournalDirectory !in disk.directories
    ensures settled.None?
  {
  }

  /** A run that may be stopped: its clock, and after how many changes. */
  datatype Attempt = Attempt(now: int, stopAfter: Option<nat>)

  /** Whether an attempt makes enough changes to prepare: the journal's directory, if it is not there
      yet, and the prepared record. */
  predicate Prepares(attempt: Attempt, directory: bool) {
    attempt.stopAfter.None? || attempt.stopAfter.value >= if directory then 1 else 2
  }

  /** The clock of the first attempt that prepares, the journal's directory being there or not. */
  function FirstToPrepare(attempts: seq<Attempt>, directory: bool): Option<int> {
    if attempts == [] then None
    else if Prepares(attempts[0], directory) then Some(attempts[0].now)
    else FirstToPrepare(attempts[1..], directory || attempts[0].stopAfter != Some(0))
  }

  /** From an empty disk, after any attempts stopped anywhere, a run that is not stopped finishes,
      and leaves the very disk an uninterrupted run would have left at the clock of the first attempt
      that prepared. */
  method BootstrapAfterStops(plan: Plan, attempts: seq<Attempt>, now: int)
    returns (state: SupervisorState, disk: Disk)
    requires plan.Ok()
    ensures disk == FinishedDisk(plan, state.updatedAt) && state == InitialState(plan, state.updatedAt)
    ensures FirstToPrepare(attempts + [Attempt(now, None)], false) == Some(state.updatedAt)
  {
    hide FinishedDisk;
    var storage := new Storage();
    ghost var all, settled: Option<int> := attempts + [Attempt(now, None)], None;
    for i := 0 to |attempts|
      invariant Left(storage.disk, plan, settled)
      invariant FirstToPrepare(all, false)
                == FirstAfter(settled, all[i..], JournalDirectory in storage.disk.directories)
    {
      assert all[i..][0] == attempts[i] && all[i..][1..] == all[i + 1..];
      storage.stopAfter := attempts[i].stopAfter;
      var r;
      r, settled := storage.InitializeBuiltInControlPlaneSupervisor(plan, attempts[i].now, settled);
    }
    assert all[|attempts|..] == [Attempt(now, None)];
    storage.stopAfter := None;
    var r;
    r, settled := storage.InitializeBuiltInControlPlaneSupervisor(plan, now, settled);
    return r.value, storage.disk;
  }

  /** What is settled already, or else by the attempts to come. */
  function FirstAfter(settled: Option<int>, attempts: seq<Attempt>, directory: bool): Option<int> {
    if settled.Some? then settled else FirstToPrepare(attempts, directory)
  }
}
