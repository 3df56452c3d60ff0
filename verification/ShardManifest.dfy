/** The shard manifest and its validator. */
module ShardManifest {

  import opened Lists
  import opened LongestProcessingTime
  import opened Results
  import opened ShardTheorems
  import opened Shards
  import opened Sorting
  import opened TestPaths
  import opened Text

  /** Everything a manifest's own digest covers; its constant header fields are left out. */
  datatype Payload = Payload(
    sourceTelemetryRunId: Utf16, sourceTelemetryDigest: nat, physicalFileCount: int, executionUnitCount: int,
    shards: seq<Shard>)

  /** Digests are symbolic: the digest of a payload, or some other digest. */
  datatype Digest = DigestOf(payload: Payload) | OtherDigest(n: nat)

  datatype Manifest = Manifest(payload: Payload, inventoryDigest: Digest)

  datatype ManifestError =
    | HeaderInvalid
    | ShardCount
    | ShardIdentity(number: int)
    | NotCanonicalPath(file: Utf16)
    | DuplicateEntrypoint(file: Utf16)
    | OrdinalInvalid(file: Utf16)
    | Unordered(number: int)
    | UnitDuration(file: Utf16)
    | OwnsNothing(file: Utf16)
    | NotCanonicalOwnership(file: Utf16)
    | EntrypointNotOwned(file: Utf16)
    | DuplicateOwnership(file: Utf16)
    | ShardDuration(number: int)
    | NotContiguous
    | CountsDiffer
    | AssignmentDrifted
    | DigestDrifted
    | MissingFiles
    | UnknownFiles
    | TopologyDrifted(file: Utf16)
    | MissingUnits

  predicate HexOrDash(c: CodeUnit) {
    0x30 <= c <= 0x39 || 0x61 <= c <= 0x66 || c == 0x2D
  }

  /** `run-`, seventeen digits, a dash, thirty-six hexadecimal digits or dashes. */
  predicate WellFormedRunId(id: Utf16) {
    && |id| == 58
    && id[..4] == [0x72, 0x75, 0x6E, 0x2D] && id[21] == 0x2D
    && (forall i :: 4 <= i < 21 ==> 0x30 <= id[i] <= 0x39)
    && (forall i :: 22 <= i < 58 ==> HexOrDash(id[i]))
  }

  // ----- what a valid manifest is

  predicate UnitOk(u: Unit) {
    && IsTestPath(u.entrypoint) && u.legacyOrdinal >= 1 && u.durationMicros >= 0
    && u.ownedPhysicalFiles != [] && u.ownedPhysicalFiles == Sort(u.ownedPhysicalFiles, AtMost)
    && u.entrypoint in u.ownedPhysicalFiles
    && Distinct(u.ownedPhysicalFiles) && (forall f :: f in u.ownedPhysicalFiles ==> IsTestPath(f))
  }

  predicate Compatible(u: Unit, v: Unit) {
    && u.entrypoint != v.entrypoint && u.legacyOrdinal != v.legacyOrdinal
    && forall f :: f in u.ownedPhysicalFiles ==> f !in v.ownedPhysicalFiles
  }

  predicate AllCompatible(units: seq<Unit>) {
    && (forall i :: 0 <= i < |units| ==> UnitOk(units[i]))
    && (forall i, j :: 0 <= i < j < |units| ==> Compatible(units[i], units[j]))
  }

  function Ordinals(units: seq<Unit>): (r: seq<int>)
    ensures |r| == |units| && forall i :: 0 <= i < |r| ==> r[i] == units[i].legacyOrdinal
  {
    seq(|units|, i requires 0 <= i < |units| => units[i].legacyOrdinal)
  }

  /** Every number from 1 to the number of units is some unit's ordinal. */
  predicate Contiguous(units: seq<Unit>) {
    forall k :: 1 <= k <= |units| ==> k in Ordinals(units)
  }

  /** The physical files the units own, each counted once. */
  function OwnedSet(units: seq<Unit>): set<Utf16> {
    set i, f | 0 <= i < |units| && f in units[i].ownedPhysicalFiles :: f
  }

  function AllUnits(shards: seq<Shard>): seq<Unit> {
    Flatten(UnitsOf(shards))
  }

  /** Identities, order within a shard and shard durations need no clause of their own: they follow
      from the shards being the assignment of their units. */
  ghost predicate ValidManifest(m: Manifest) {
    var p := m.payload;
    var units := AllUnits(p.shards);
    && WellFormedRunId(p.sourceTelemetryRunId) && p.executionUnitCount >= 1 && p.physicalFileCount >= 1
    && AllCompatible(units) && Contiguous(units)
    && p.executionUnitCount == |units| && p.physicalFileCount == |OwnedSet(units)|
    && Assign(units) == Ok(p.shards)
    && m.inventoryDigest == DigestOf(p)
  }

  // ----- the validator, unit by unit

  /** What the validator has met: an owner for each physical file, entrypoints, ordinals. */
  datatype Seen = Seen(owners: map<Utf16, Utf16>, entrypoints: set<Utf16>, ordinals: seq<int>)

  ghost predicate EntrypointsOf(done: seq<Unit>, entrypoints: set<Utf16>) {
    forall e :: e in entrypoints <==> exists i :: 0 <= i < |done| && done[i].entrypoint == e
  }

  ghost predicate Saw(done: seq<Unit>, seen: Seen) {
    && seen.owners.Keys == OwnedSet(done)
    && EntrypointsOf(done, seen.entrypoints) && |seen.entrypoints| == |done|
    && seen.ordinals == Ordinals(done)
  }

  method AddFiles(unit: Unit, owners: map<Utf16, Utf16>) returns (r: Result<map<Utf16, Utf16>, ManifestError>)
    ensures var files := unit.ownedPhysicalFiles;
            && (r.Ok? <==> Distinct(files) && forall f :: f in files ==> IsTestPath(f) && f !in owners)
            && (r.Ok? ==> r.value.Keys == owners.Keys + Members(files))
  {
    hide IsTestPath, Distinct, Members, Added;
    var files := unit.ownedPhysicalFiles;
    var more := owners;
    NothingAdded(files, owners);
    for i := 0 to |files|
      invariant Added(owners, files, i, more)
    {
      AddedOneMore(owners, files, i, more, unit.entrypoint);
      if !IsTestPath(files[i]) {
        return Err(NotCanonicalPath(files[i]));
      }
      if files[i] in more {
        return Err(DuplicateOwnership(files[i]));
      }
      more := more[files[i] := unit.entrypoint];
    }
    AllAdded(owners, files, more);
    return Ok(more);
  }

  /** The first n files were test paths and new, and are in the map. */
  ghost predicate Added(owners: map<Utf16, Utf16>, files: seq<Utf16>, n: nat, more: map<Utf16, Utf16>)
    requires n <= |files|
  {
    && (forall f :: f in more <==> f in owners || f in Members(files[..n]))
    && Distinct(files[..n])
    && forall k :: 0 <= k < n ==> IsTestPath(files[k]) && files[k] !in owners
  }

  lemma NothingAdded(files: seq<Utf16>, owners: map<Utf16, Utf16>)
    ensures Added(owners, files, 0, owners)
  {
  }

  lemma MembersOneMore(files: seq<Utf16>, n: nat)
    requires n < |files|
    ensures Members(files[..n + 1]) == Members(files[..n]) + {files[n]}
    ensures Distinct(files[..n + 1]) <==> Distinct(files[..n]) && files[n] !in Members(files[..n])
    ensures Distinct(files) ==> Distinct(files[..n + 1])
  {
    hide Distinct;
    assert files[..n + 1] == files[..n] + [files[n]];
    DistinctAppend(files[..n], files[n]);
    if Distinct(files) {
      DistinctPrefix(files, n + 1);
    }
  }

  lemma AddedOneMore(owners: map<Utf16, Utf16>, files: seq<Utf16>, n: nat, more: map<Utf16, Utf16>, owner: Utf16)
    requires n < |files| && Added(owners, files, n, more)
    ensures files[n] in files
    ensures IsTestPath(files[n]) && files[n] !in more ==> Added(owners, files, n + 1, more[files[n] := owner])
    ensures files[n] in more ==> files[n] in owners || !Distinct(files)
  {
    hide IsTestPath, Distinct, Members;
    MembersOneMore(files, n);
  }

  lemma AllAdded(owners: map<Utf16, Utf16>, files: seq<Utf16>, more: map<Utf16, Utf16>)
    requires Added(owners, files, |files|, more)
    ensures Distinct(files) && forall f :: f in files ==> IsTestPath(f) && f !in owners
    ensures more.Keys == owners.Keys + Members(files)
  {
    hide IsTestPath, Distinct, Members;
    assert files[..|files|] == files;
  }

  method CheckUnit(unit: Unit, number: int, prior: int, ghost done: seq<Unit>, seen: Seen)
    returns (r: Result<Seen, ManifestError>)
    requires Saw(done, seen)
    ensures r.Ok? <==> unit.legacyOrdinal > prior && UnitOk(unit)
                       && forall i :: 0 <= i < |done| ==> Compatible(done[i], unit)
    ensures r.Ok? ==> Saw(done + [unit], r.value)
  {
    hide IsTestPath, Sort, Distinct, OwnedSet, EntrypointsOf, Members, Saw, Compatible;
    MetBefore(done, seen, unit);
    if !IsTestPath(unit.entrypoint) {
      return Err(NotCanonicalPath(unit.entrypoint));
    }
    if unit.entrypoint in seen.entrypoints {
      return Err(DuplicateEntrypoint(unit.entrypoint));
    }
    if unit.legacyOrdinal < 1 || unit.legacyOrdinal in seen.ordinals {
      return Err(OrdinalInvalid(unit.entrypoint));
    }
    if unit.legacyOrdinal <= prior {
      return Err(Unordered(number));
    }
    if unit.durationMicros < 0 {
      return Err(UnitDuration(unit.entrypoint));
    }
    if |unit.ownedPhysicalFiles| == 0 {
      return Err(OwnsNothing(unit.entrypoint));
    }
    if unit.ownedPhysicalFiles != Sort(unit.ownedPhysicalFiles, AtMost) {
      return Err(NotCanonicalOwnership(unit.entrypoint));
    }
    if unit.entrypoint !in unit.ownedPhysicalFiles {
      return Err(EntrypointNotOwned(unit.entrypoint));
    }
    var owners := AddFiles(unit, seen.owners);
    if owners.Err? {
      return Err(owners.error);
    }
    var more := Seen(owners.value, seen.entrypoints + {unit.entrypoint}, seen.ordinals + [unit.legacyOrdinal]);
    SawOneMore(done, seen, unit, more);
    return Ok(more);
  }

  /** What the three records tell about a unit and those before it. */
  lemma MetBefore(done: seq<Unit>, seen: Seen, unit: Unit)
    requires Saw(done, seen)
    ensures (unit.entrypoint !in seen.entrypoints && unit.legacyOrdinal !in seen.ordinals
             && forall f :: f in unit.ownedPhysicalFiles ==> f !in seen.owners)
            <==> forall i :: 0 <= i < |done| ==> Compatible(done[i], unit)
  {
    forall i | 0 <= i < |done| ensures Ordinals(done)[i] == done[i].legacyOrdinal {
    }
    if forall i :: 0 <= i < |done| ==> Compatible(done[i], unit) {
      forall f | f in unit.ownedPhysicalFiles ensures f !in seen.owners {
        forall i | 0 <= i < |done| ensures f !in done[i].ownedPhysicalFiles {
          assert Compatible(done[i], unit);
        }
      }
    }
  }

  lemma SawOneMore(done: seq<Unit>, seen: Seen, unit: Unit, more: Seen)
    requires Saw(done, seen) && unit.entrypoint !in seen.entrypoints
    requires more.owners.Keys == seen.owners.Keys + Members(unit.ownedPhysicalFiles)
    requires more.entrypoints == seen.entrypoints + {unit.entrypoint}
    requires more.ordinals == seen.ordinals + [unit.legacyOrdinal]
    ensures Saw(done + [unit], more)
  {
    hide EntrypointsOf, Members, OwnedSet, Ordinals;
    OrdinalsOneMore(done, unit);
    OwnersOneMore(done, unit);
    EntrypointsOneMore(done, unit, seen.entrypoints);
  }

  lemma OrdinalsOneMore(done: seq<Unit>, unit: Unit)
    ensures Ordinals(done + [unit]) == Ordinals(done) + [unit.legacyOrdinal]
  {
  }

  lemma OwnersOneMore(done: seq<Unit>, unit: Unit)
    ensures OwnedSet(done + [unit]) == OwnedSet(done) + Members(unit.ownedPhysicalFiles)
  {
    var all := done + [unit];
    forall f | f in OwnedSet(done) + Members(unit.ownedPhysicalFiles) ensures f in OwnedSet(all) {
      if f in OwnedSet(done) {
        var i :| 0 <= i < |done| && f in done[i].ownedPhysicalFiles;
        assert all[i] == done[i];
      } else {
        assert all[|done|] == unit;
      }
    }
    forall f | f in OwnedSet(all) ensures f in OwnedSet(done) + Members(unit.ownedPhysicalFiles) {
      var i :| 0 <= i < |all| && f in all[i].ownedPhysicalFiles;
      if i < |done| {
        assert done[i] == all[i];
      }
    }
  }

  lemma EntrypointsOneMore(done: seq<Unit>, unit: Unit, entrypoints: set<Utf16>)
    requires EntrypointsOf(done, entrypoints)
    ensures EntrypointsOf(done + [unit], entrypoints + {unit.entrypoint})
  {
    var all := done + [unit];
    forall e | e in entrypoints + {unit.entrypoint} ensures exists i :: 0 <= i < |all| && all[i].entrypoint == e {
      if e in entrypoints {
        var i :| 0 <= i < |done| && done[i].entrypoint == e;
        assert all[i] == done[i];
      } else {
        assert all[|done|] == unit;
      }
    }
    forall i | 0 <= i < |all| ensures all[i].entrypoint in entrypoints + {unit.entrypoint} {
      if i < |done| {
        assert done[i] == all[i];
      }
    }
  }

  // ----- shard by shard

  /** What the validator demands of one shard by itself. */
  predicate ShardOk(shard: Shard, number: nat)
    requires 1 <= number <= SHARD_COUNT
  {
    && shard.shardNumber == number && shard.id == ShardId(number) && shard.wrapper == ShardWrapper(number)
    && Rising(shard.units)
    && shard.durationMicros == TotalDuration(shard.units)
  }

  /** Ordinals rise from unit to unit, starting above zero. */
  predicate Rising(units: seq<Unit>) {
    forall i :: 0 <= i < |units| ==> RisesAt(units, i)
  }

  predicate RisesAt(units: seq<Unit>, i: nat)
    requires i < |units|
  {
    units[i].legacyOrdinal > if i == 0 then 0 else units[i - 1].legacyOrdinal
  }

  lemma CompatibleOneMore(done: seq<Unit>, unit: Unit)
    requires AllCompatible(done)
    ensures AllCompatible(done + [unit])
            <==> UnitOk(unit) && forall i :: 0 <= i < |done| ==> Compatible(done[i], unit)
  {
    hide UnitOk, Compatible;
    var all := done + [unit];
    if AllCompatible(all) {
      forall i | 0 <= i < |done| ensures Compatible(done[i], unit) {
        assert Compatible(all[i], all[|done|]);
      }
      assert UnitOk(all[|done|]);
    }
  }

  lemma CompatiblePrefix(units: seq<Unit>, n: nat)
    requires n <= |units| && AllCompatible(units)
    ensures AllCompatible(units[..n])
  {
    hide UnitOk, Compatible;
  }

  method CheckShard(shard: Shard, number: nat, ghost done: seq<Unit>, seen: Seen)
    returns (r: Result<Seen, ManifestError>)
    requires 1 <= number <= SHARD_COUNT && Saw(done, seen) && AllCompatible(done)
    ensures r.Ok? <==> ShardOk(shard, number) && AllCompatible(done + shard.units)
    ensures r.Ok? ==> Saw(done + shard.units, r.value)
  {
    hide Saw, AllCompatible, UnitOk, Compatible, ShardId, ShardWrapper, TotalDuration;
    if shard.shardNumber != number || shard.id != ShardId(number) || shard.wrapper != ShardWrapper(number) {
      return Err(ShardIdentity(number));
    }
    var units := shard.units;
    var priorOrdinal, durationMicros, more := 0, 0, seen;
    assert units[..0] == [] && done + [] == done;
    NoDuration();
    for i := 0 to |units|
      invariant Saw(done + units[..i], more) && AllCompatible(done + units[..i])
      invariant durationMicros == TotalDuration(units[..i])
      invariant priorOrdinal == if i == 0 then 0 else units[i - 1].legacyOrdinal
      invariant Rising(units[..i])
    {
      ghost var before := done + units[..i];
      NextUnit(done, units, i);
      var checked := CheckUnit(units[i], number, priorOrdinal, before, more);
      if checked.Err? {
        return Err(checked.error);
      }
      priorOrdinal := units[i].legacyOrdinal;
      durationMicros := durationMicros + units[i].durationMicros;
      more := checked.value;
    }
    assert units[..|units|] == units;
    if durationMicros != shard.durationMicros {
      return Err(ShardDuration(number));
    }
    return Ok(more);
  }

  lemma NoDuration()
    ensures TotalDuration([]) == 0
  {
  }

  lemma NextUnit(done: seq<Unit>, units: seq<Unit>, i: nat)
    requires i < |units| && AllCompatible(done + units[..i]) && Rising(units[..i])
    ensures done + units[..i + 1] == (done + units[..i]) + [units[i]]
    ensures TotalDuration(units[..i + 1]) == TotalDuration(units[..i]) + units[i].durationMicros
    ensures var before := done + units[..i];
            AllCompatible(done + units[..i + 1])
            <==> UnitOk(units[i]) && forall k :: 0 <= k < |before| ==> Compatible(before[k], units[i])
    ensures AllCompatible(done + units) ==> AllCompatible(done + units[..i + 1])
    ensures Rising(units[..i + 1]) <==> RisesAt(units, i)
    ensures Rising(units) ==> Rising(units[..i + 1])
  {
    hide AllCompatible, UnitOk, Compatible, Rising;
    var all := done + units;
    assert units[..i + 1] == units[..i] + [units[i]] && units[..i + 1][..i] == units[..i];
    assert done + units[..i + 1] == (done + units[..i]) + [units[i]];
    CompatibleOneMore(done + units[..i], units[i]);
    RisingOneMore(units, i);
    if Rising(units) {
      RisingPrefix(units, i + 1);
    }
    if AllCompatible(all) {
      CompatiblePrefix(all, |done| + i + 1);
      assert all[..|done| + i + 1] == done + units[..i + 1];
    }
  }

  lemma RisingOneMore(units: seq<Unit>, i: nat)
    requires i < |units| && Rising(units[..i])
    ensures Rising(units[..i + 1]) <==> RisesAt(units, i)
  {
    var more := units[..i + 1];
    assert RisesAt(more, i) <==> RisesAt(units, i);
    forall k | 0 <= k < i ensures RisesAt(more, k) {
      assert RisesAt(units[..i], k);
    }
  }

  lemma RisingPrefix(units: seq<Unit>, n: nat)
    requires n <= |units| && Rising(units)
    ensures Rising(units[..n])
  {
    forall k | 0 <= k < n ensures RisesAt(units[..n], k) {
      assert RisesAt(units, k);
    }
  }

  // ----- the clauses that follow from the assignment

  lemma FlattenPrefix(groups: seq<seq<Unit>>, n: nat)
    requires n <= |groups|
    ensures Flatten(groups[..n]) <= Flatten(groups)
  {
    assert groups == groups[..n] + groups[n..];
    FlattenAppend(groups[..n], groups[n..]);
  }

  /** The units of the first n shards. */
  function UnitsBefore(shards: seq<Shard>, n: nat): seq<Unit>
    requires n <= |shards|
  {
    Flatten(UnitsOf(shards)[..n])
  }

  lemma UnitsBeforeStep(shards: seq<Shard>, n: nat)
    requires n < |shards|
    ensures UnitsBefore(shards, n + 1) == UnitsBefore(shards, n) + shards[n].units
    ensures UnitsBefore(shards, n + 1) <= AllUnits(shards)
  {
    FlattenLast(UnitsOf(shards)[..n + 1]);
    assert UnitsOf(shards)[..n + 1][..n] == UnitsOf(shards)[..n];
    FlattenPrefix(UnitsOf(shards), n + 1);
  }

  /** In an assignment, every shard has its identity, its units' ordinals rise, and its duration is
      the sum of theirs. */
  lemma AssignedShardOk(shards: seq<Shard>, t: nat)
    requires var units := AllUnits(shards); AllCompatible(units) && Assign(units) == Ok(shards)
    requires t < |shards|
    ensures |shards| == SHARD_COUNT && ShardOk(shards[t], t + 1)
  {
    hide AllUnits, UnitsBefore, AllCompatible, Flatten, Rising, TotalDuration, Sorted, ByOrdinal;
    var units := AllUnits(shards);
    AssignedIs(units, shards);
    AssignConserves(units);
    ShardRises(units, t);
    UnitsBeforeStep(shards, t);
    var before, more := UnitsBefore(shards, t), UnitsBefore(shards, t + 1);
    assert units[..|more|] == more;
    CompatiblePrefix(units, |more|);
    SortedRises(before, shards[t].units);
  }

  lemma AssignedIs(units: seq<Unit>, shards: seq<Shard>)
    requires Assign(units) == Ok(shards)
    ensures shards == ShardsOf(units)
    ensures forall t :: 0 <= t < SHARD_COUNT ==>
              && shards[t].shardNumber == t + 1 && shards[t].id == ShardId(t + 1)
              && shards[t].wrapper == ShardWrapper(t + 1)
  {
    hide Greedy, Sort, Chosen, Load, ShardId, ShardWrapper;
  }

  lemma ShardRises(units: seq<Unit>, t: nat)
    requires t < SHARD_COUNT
    ensures Sorted(ShardsOf(units)[t].units, ByOrdinal)
  {
    OrdersRank();
    var ordered := Sort(units, LongestFirst);
    SortSorts(Chosen(ordered, Greedy(ordered), t), ByOrdinal);
  }

  lemma SortedRises(before: seq<Unit>, units: seq<Unit>)
    requires AllCompatible(before + units) && Sorted(units, ByOrdinal)
    ensures Rising(units)
  {
    hide IsTestPath, Distinct, AtMost, Sort;
    var all := before + units;
    forall i | 0 <= i < |units| ensures RisesAt(units, i) {
      assert all[|before| + i] == units[i];
      assert UnitOk(all[|before| + i]);
      if i > 0 {
        assert all[|before| + i - 1] == units[i - 1];
        assert Compatible(all[|before| + i - 1], all[|before| + i]);
        assert ByOrdinal(units[i - 1], units[i]);
      }
    }
  }

  // ----- the ordinals

  predicate IntAtMost(x: int, y: int) {
    x <= y
  }

  lemma IntsDiffer(s: seq<int>, i: nat, j: nat)
    requires Distinct(s) && i < j < |s|
    ensures s[i] != s[j]
  {
  }

  lemma {:induction false} CountedUp(sorted: seq<int>, n: nat)
    requires n <= |sorted| && Distinct(sorted) && Sorted(sorted, IntAtMost)
    requires forall k :: 1 <= k <= |sorted| ==> k in sorted
    requires forall i :: 0 <= i < |sorted| ==> sorted[i] >= 1
    ensures forall i :: 0 <= i < n ==> sorted[i] == i + 1
  {
    hide Distinct;
    if n > 0 {
      CountedUp(sorted, n - 1);
      assert n in sorted;
      var p :| 0 <= p < |sorted| && sorted[p] == n;
      assert p >= n - 1;
      if n > 1 {
        IntsDiffer(sorted, n - 2, n - 1);
        assert IntAtMost(sorted[n - 2], sorted[n - 1]);
      }
      assert p == n - 1 || IntAtMost(sorted[n - 1], sorted[p]);
    }
  }

  /** The sorted distinct ordinals are 1, 2, ... exactly when none of these is missing. */
  lemma SortedOrdinals(ordinals: seq<int>)
    requires Distinct(ordinals) && forall i :: 0 <= i < |ordinals| ==> ordinals[i] >= 1
    ensures |Sort(ordinals, IntAtMost)| == |ordinals|
    ensures (forall i :: 0 <= i < |ordinals| ==> Sort(ordinals, IntAtMost)[i] == i + 1)
            <==> forall k :: 1 <= k <= |ordinals| ==> k in ordinals
  {
    hide Sort, Distinct;
    var sorted := Sort(ordinals, IntAtMost);
    SortSorts(ordinals, IntAtMost);
    PermutationKeepsDistinct(ordinals, sorted);
    forall i | 0 <= i < |sorted| ensures sorted[i] >= 1 {
      assert sorted[i] in ordinals;
    }
    if forall i :: 0 <= i < |ordinals| ==> sorted[i] == i + 1 {
      forall k | 1 <= k <= |ordinals| ensures k in ordinals {
        assert sorted[k - 1] == k;
        assert k in sorted;
      }
    } else if forall k :: 1 <= k <= |ordinals| ==> k in ordinals {
      forall k | 1 <= k <= |sorted| ensures k in sorted {
        assert k in ordinals;
      }
      CountedUp(sorted, |sorted|);
    }
  }

  lemma OrdinalsDistinct(units: seq<Unit>)
    requires AllCompatible(units)
    ensures Distinct(Ordinals(units)) && forall i :: 0 <= i < |units| ==> Ordinals(units)[i] >= 1
  {
    hide IsTestPath, Sort;
    forall i, j | 0 <= i < j < |units| ensures Ordinals(units)[i] != Ordinals(units)[j] {
      assert Compatible(units[i], units[j]);
    }
    forall i | 0 <= i < |units| ensures Ordinals(units)[i] >= 1 {
      assert UnitOk(units[i]);
    }
  }

  /** The shards, one by one, with what has been met so far. */
  method CheckShards(shards: seq<Shard>) returns (r: Result<Seen, ManifestError>)
    ensures r.Ok? <==> |shards| == SHARD_COUNT && AllCompatible(AllUnits(shards))
                       && forall t :: 0 <= t < |shards| ==> ShardOk(shards[t], t + 1)
    ensures r.Ok? ==> Saw(AllUnits(shards), r.value)
  {
    hide Saw, AllCompatible, ShardOk, AllUnits, UnitsBefore;
    if |shards| != SHARD_COUNT {
      return Err(ShardCount);
    }
    var seen := Seen(map[], {}, []);
    NothingSeen(shards);
    for t := 0 to |shards|
      invariant Saw(UnitsBefore(shards, t), seen) && AllCompatible(UnitsBefore(shards, t))
      invariant forall k :: 0 <= k < t ==> ShardOk(shards[k], k + 1)
    {
      UnitsBeforeStep(shards, t);
      ghost var more := UnitsBefore(shards, t + 1);
      if AllCompatible(AllUnits(shards)) {
        CompatiblePrefix(AllUnits(shards), |more|);
        assert AllUnits(shards)[..|more|] == more;
      }
      var checked := CheckShard(shards[t], t + 1, UnitsBefore(shards, t), seen);
      if checked.Err? {
        return checked;
      }
      seen := checked.value;
    }
    AllSeen(shards);
    return Ok(seen);
  }

  lemma NothingSeen(shards: seq<Shard>)
    ensures UnitsBefore(shards, 0) == [] && AllCompatible([]) && Saw([], Seen(map[], {}, []))
  {
  }

  lemma AllSeen(shards: seq<Shard>)
    ensures UnitsBefore(shards, |shards|) == AllUnits(shards)
  {
    assert UnitsOf(shards)[..|shards|] == UnitsOf(shards);
  }

  /** The ordinals and counts at the end. */
  method CheckCounts(p: Payload, seen: Seen) returns (r: Option<ManifestError>)
    requires Saw(AllUnits(p.shards), seen) && AllCompatible(AllUnits(p.shards))
    ensures var units := AllUnits(p.shards);
            r.None? <==>
              Contiguous(units) && p.executionUnitCount == |units| && p.physicalFileCount == |OwnedSet(units)|
  {
    ghost var units := AllUnits(p.shards);
    assert SawCounts(units, seen);
    OrdinalsDistinct(units);
    hide Saw, AllCompatible, AllUnits, OwnedSet, Sort, Distinct;
    SortedOrdinals(seen.ordinals);
    var allOrdinals := Sort(seen.ordinals, IntAtMost);
    if |allOrdinals| != p.executionUnitCount || exists i :: 0 <= i < |allOrdinals| && allOrdinals[i] != i + 1 {
      return Some(NotContiguous);
    }
    if |seen.entrypoints| != p.executionUnitCount || |seen.owners.Keys| != p.physicalFileCount {
      return Some(CountsDiffer);
    }
    return None;
  }

  ghost predicate SawCounts(units: seq<Unit>, seen: Seen) {
    && seen.owners.Keys == OwnedSet(units) && |seen.entrypoints| == |units|
    && seen.ordinals == Ordinals(units)
  }

  /** `validateWorkflowTestShardManifest` without a repository: accepts exactly the valid manifests. */
  method Validate(m: Manifest) returns (r: Result<Seen, ManifestError>)
    ensures r.Ok? <==> ValidManifest(m)
    ensures r.Ok? ==> Saw(AllUnits(m.payload.shards), r.value)
  {
    hide Saw, AllCompatible, ShardOk, AllUnits, Assign, Contiguous, OwnedSet, WellFormedRunId;
    var p := m.payload;
    if !WellFormedRunId(p.sourceTelemetryRunId) || p.physicalFileCount < 1 || p.executionUnitCount < 1 {
      return Err(HeaderInvalid);
    }
    var checked := CheckShards(p.shards);
    if checked.Err? {
      if ValidManifest(m) {
        AssignedShardsOk(p.shards);
      }
      return Err(checked.error);
    }
    var bad := CheckCounts(p, checked.value);
    if bad.Some? {
      return Err(bad.value);
    }
    var projectedShards := AssignWorkflowTestUnitsToShards(AllUnits(p.shards));
    if projectedShards != Ok(p.shards) {
      return Err(AssignmentDrifted);
    }
    if m.inventoryDigest != DigestOf(p) {
      return Err(DigestDrifted);
    }
    return checked;
  }

  lemma AssignedShardsOk(shards: seq<Shard>)
    requires var units := AllUnits(shards); AllCompatible(units) && Assign(units) == Ok(shards)
    ensures |shards| == SHARD_COUNT && forall t :: 0 <= t < |shards| ==> ShardOk(shards[t], t + 1)
  {
    hide AllCompatible, ShardOk, AllUnits, Assign;
    AssignedToEight(shards);
    forall t | 0 <= t < |shards| ensures ShardOk(shards[t], t + 1) {
      AssignedShardOk(shards, t);
    }
  }

  lemma AssignedToEight(shards: seq<Shard>)
    requires Assign(AllUnits(shards)) == Ok(shards)
    ensures |shards| == SHARD_COUNT
  {
  }
}
