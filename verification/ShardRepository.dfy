/** The validator's comparison of a manifest with the repository it is kept in. */
module ShardRepository {

  import opened ImportGraph
  import opened Lists
  import opened Results
  import opened ShardGeneration
  import opened ShardManifest
  import opened Shards
  import opened Sorting
  import opened Text
  import T = Topology

  predicate Matches(u: Unit, v: T.Unit) {
    u.entrypoint == v.entrypoint && u.ownedPhysicalFiles == v.ownedPhysicalFiles
  }

  ghost predicate MatchedIn(u: Unit, discovered: seq<T.Unit>) {
    exists k :: 0 <= k < |discovered| && Matches(u, discovered[k])
  }

  ghost predicate MatchedBy(v: T.Unit, units: seq<Unit>) {
    exists i :: 0 <= i < |units| && Matches(units[i], v)
  }

  /** The manifest's units are the topology's, with the same ownership. */
  ghost predicate SameUnits(units: seq<Unit>, discovered: seq<T.Unit>) {
    && (forall i :: 0 <= i < |units| ==> MatchedIn(units[i], discovered))
    && (forall k :: 0 <= k < |discovered| ==> MatchedBy(discovered[k], units))
  }

  ghost predicate EntrypointsDiffer(discovered: seq<T.Unit>) {
    forall i, j :: 0 <= i < j < |discovered| ==> discovered[i].entrypoint != discovered[j].entrypoint
  }

  /** `new Map(topology.units.map((unit) => [unit.entrypoint, unit.ownedPhysicalFiles]))` */
  method ByEntrypoint(discovered: seq<T.Unit>) returns (m: map<File, seq<File>>)
    requires EntrypointsDiffer(discovered)
    ensures forall k :: 0 <= k < |discovered| ==>
              discovered[k].entrypoint in m && m[discovered[k].entrypoint] == discovered[k].ownedPhysicalFiles
    ensures forall e :: e in m ==> exists k :: 0 <= k < |discovered| && discovered[k].entrypoint == e
  {
    m := map[];
    for i := 0 to |discovered|
      invariant forall k :: 0 <= k < i ==>
                  discovered[k].entrypoint in m && m[discovered[k].entrypoint] == discovered[k].ownedPhysicalFiles
      invariant forall e :: e in m ==> exists k :: 0 <= k < i && discovered[k].entrypoint == e
    {
      m := m[discovered[i].entrypoint := discovered[i].ownedPhysicalFiles];
    }
  }

  /** The entrypoints of the first n units are gone from the map, the others still there. */
  ghost predicate Left(units: seq<Unit>, n: nat, all: map<File, seq<File>>, left: map<File, seq<File>>)
    requires n <= |units|
  {
    && (forall e :: e in left ==> e in all && left[e] == all[e])
    && (forall e :: e in all ==> (e !in left <==> exists i :: 0 <= i < n && units[i].entrypoint == e))
    && (forall i :: 0 <= i < n ==>
          units[i].entrypoint in all && all[units[i].entrypoint] == units[i].ownedPhysicalFiles)
  }

  lemma LeftOneMore(units: seq<Unit>, n: nat, all: map<File, seq<File>>, left: map<File, seq<File>>)
    requires n < |units| && Left(units, n, all, left)
    requires forall i :: 0 <= i < n ==> units[i].entrypoint != units[n].entrypoint
    ensures var e := units[n].entrypoint;
            && (e in left <==> e in all)
            && (e in left && left[e] == units[n].ownedPhysicalFiles ==> Left(units, n + 1, all, left - {e}))
  {
  }

  /** The comparison unit by unit: every unit is found and taken out, and none is left. */
  method CompareUnits(units: seq<Unit>, discovered: seq<T.Unit>) returns (r: Option<ManifestError>)
    requires AllCompatible(units) && EntrypointsDiffer(discovered)
    ensures r.None? <==> SameUnits(units, discovered)
  {
    hide UnitOk, Left, SameUnits, EntrypointsDiffer;
    var all := ByEntrypoint(discovered);
    var left := all;
    NoneTaken(units, all);
    for i := 0 to |units|
      invariant Left(units, i, all, left)
    {
      forall k | 0 <= k < i ensures units[k].entrypoint != units[i].entrypoint {
        assert Compatible(units[k], units[i]);
      }
      LeftOneMore(units, i, all, left);
      var entrypoint := units[i].entrypoint;
      if entrypoint !in left || left[entrypoint] != units[i].ownedPhysicalFiles {
        UnmatchedUnit(units, i, discovered, all, left);
        return Some(TopologyDrifted(entrypoint));
      }
      left := left - {entrypoint};
    }
    AllTaken(units, discovered, all, left);
    if |left.Keys| > 0 {
      return Some(MissingUnits);
    }
    return None;
  }

  lemma NoneTaken(units: seq<Unit>, all: map<File, seq<File>>)
    ensures Left(units, 0, all, all)
  {
  }

  lemma UnmatchedUnit(units: seq<Unit>, i: nat, discovered: seq<T.Unit>, all: map<File, seq<File>>,
                      left: map<File, seq<File>>)
    requires i < |units| && Left(units, i, all, left)
    requires forall k :: 0 <= k < |discovered| ==>
               discovered[k].entrypoint in all && all[discovered[k].entrypoint] == discovered[k].ownedPhysicalFiles
    requires var e := units[i].entrypoint;
             (e in left <==> e in all) && (e !in left || left[e] != units[i].ownedPhysicalFiles)
    ensures !SameUnits(units, discovered)
  {
    assert !MatchedIn(units[i], discovered);
  }

  lemma AllTaken(units: seq<Unit>, discovered: seq<T.Unit>, all: map<File, seq<File>>, left: map<File, seq<File>>)
    requires Left(units, |units|, all, left)
    requires forall k :: 0 <= k < |discovered| ==>
               discovered[k].entrypoint in all && all[discovered[k].entrypoint] == discovered[k].ownedPhysicalFiles
    requires forall e :: e in all ==> exists k :: 0 <= k < |discovered| && discovered[k].entrypoint == e
    ensures left.Keys == {} <==> SameUnits(units, discovered)
  {
    forall i | 0 <= i < |units| ensures MatchedIn(units[i], discovered) {
      var e := units[i].entrypoint;
      assert e in all;
      var k :| 0 <= k < |discovered| && discovered[k].entrypoint == e;
      assert Matches(units[i], discovered[k]);
    }
    if left.Keys == {} {
      forall k | 0 <= k < |discovered| ensures MatchedBy(discovered[k], units) {
        assert discovered[k].entrypoint in all && discovered[k].entrypoint !in left;
        var i :| 0 <= i < |units| && units[i].entrypoint == discovered[k].entrypoint;
        assert Matches(units[i], discovered[k]);
      }
    } else {
      var e :| e in left.Keys;
      var k :| 0 <= k < |discovered| && discovered[k].entrypoint == e;
      assert !MatchedBy(discovered[k], units);
    }
  }

  /** The manifest is about this topology. */
  ghost predicate Describes(m: Manifest, t: T.Topology) {
    var units := AllUnits(m.payload.shards);
    OwnedSet(units) == Members(t.physicalFiles) && SameUnits(units, t.units)
  }

  ghost predicate ManifestGives(units: seq<Unit>, entrypoint: File, files: seq<File>) {
    exists i :: 0 <= i < |units| && units[i].entrypoint == entrypoint && units[i].ownedPhysicalFiles == files
  }

  ghost predicate TopologyGives(discovered: seq<T.Unit>, entrypoint: File, files: seq<File>) {
    T.Unit(entrypoint, files) in discovered
  }

  ghost predicate SomeUnitOwns(units: seq<Unit>, f: File) {
    exists i :: 0 <= i < |units| && f in units[i].ownedPhysicalFiles
  }

  /** The entrypoints of a manifest's units, each with the files it owns, are those of the topology, and
      together they own exactly its files. */
  lemma DescribesMeans(m: Manifest, t: T.Topology)
    ensures var units := AllUnits(m.payload.shards);
            Describes(m, t) <==>
              && (forall f :: f in t.physicalFiles <==> SomeUnitOwns(units, f))
              && (forall e, files :: ManifestGives(units, e, files) <==> TopologyGives(t.units, e, files))
  {
    var units := AllUnits(m.payload.shards);
    hide AllUnits, SameUnits, ManifestGives, TopologyGives;
    forall f ensures f in OwnedSet(units) <==> SomeUnitOwns(units, f) {
    }
    SameUnitsMeans(units, t.units);
  }

  lemma SameUnitsMeans(units: seq<Unit>, discovered: seq<T.Unit>)
    ensures SameUnits(units, discovered) <==>
              forall e, files :: ManifestGives(units, e, files) <==> TopologyGives(discovered, e, files)
  {
    hide ManifestGives, TopologyGives, MatchedIn, MatchedBy;
    forall i | 0 <= i < |units|
      ensures ManifestGives(units, units[i].entrypoint, units[i].ownedPhysicalFiles)
      ensures MatchedIn(units[i], discovered)
              <==> TopologyGives(discovered, units[i].entrypoint, units[i].ownedPhysicalFiles)
    {
      MatchedInMeans(units, i, discovered);
    }
    forall k | 0 <= k < |discovered|
      ensures TopologyGives(discovered, discovered[k].entrypoint, discovered[k].ownedPhysicalFiles)
      ensures MatchedBy(discovered[k], units)
              <==> ManifestGives(units, discovered[k].entrypoint, discovered[k].ownedPhysicalFiles)
    {
      MatchedByMeans(units, discovered, k);
    }
    forall e, files | ManifestGives(units, e, files)
      ensures exists i :: 0 <= i < |units| && units[i].entrypoint == e && units[i].ownedPhysicalFiles == files
    {
      GivenByUnit(units, e, files);
    }
    forall e, files | TopologyGives(discovered, e, files)
      ensures exists k :: 0 <= k < |discovered| && discovered[k] == T.Unit(e, files)
    {
      GivenByTopology(discovered, e, files);
    }
  }

  lemma MatchedInMeans(units: seq<Unit>, i: nat, discovered: seq<T.Unit>)
    requires i < |units|
    ensures ManifestGives(units, units[i].entrypoint, units[i].ownedPhysicalFiles)
    ensures MatchedIn(units[i], discovered)
            <==> TopologyGives(discovered, units[i].entrypoint, units[i].ownedPhysicalFiles)
  {
    if T.Unit(units[i].entrypoint, units[i].ownedPhysicalFiles) in discovered {
      var k :| 0 <= k < |discovered| && discovered[k] == T.Unit(units[i].entrypoint, units[i].ownedPhysicalFiles);
      MatchIn(units[i], discovered, k);
    }
  }

  lemma MatchedByMeans(units: seq<Unit>, discovered: seq<T.Unit>, k: nat)
    requires k < |discovered|
    ensures TopologyGives(discovered, discovered[k].entrypoint, discovered[k].ownedPhysicalFiles)
    ensures MatchedBy(discovered[k], units)
            <==> ManifestGives(units, discovered[k].entrypoint, discovered[k].ownedPhysicalFiles)
  {
    assert discovered[k] == T.Unit(discovered[k].entrypoint, discovered[k].ownedPhysicalFiles);
    if ManifestGives(units, discovered[k].entrypoint, discovered[k].ownedPhysicalFiles) {
      var i :| 0 <= i < |units| && units[i].entrypoint == discovered[k].entrypoint
               && units[i].ownedPhysicalFiles == discovered[k].ownedPhysicalFiles;
      MatchBy(discovered[k], units, i);
    }
  }

  lemma GivenByUnit(units: seq<Unit>, e: File, files: seq<File>)
    requires ManifestGives(units, e, files)
    ensures exists i :: 0 <= i < |units| && units[i].entrypoint == e && units[i].ownedPhysicalFiles == files
  {
  }

  lemma GivenByTopology(discovered: seq<T.Unit>, e: File, files: seq<File>)
    requires TopologyGives(discovered, e, files)
    ensures exists k :: 0 <= k < |discovered| && discovered[k] == T.Unit(e, files)
  {
  }

  /** `validateWorkflowTestShardManifest` with a repository, whose wrappers are left out. */
  method ValidateInRepository(m: Manifest, t: T.Topology) returns (r: Option<ManifestError>)
    requires ValidTopology(t)
    ensures r.None? <==> ValidManifest(m) && Describes(m, t)
  {
    hide ValidTopology, AllCompatible, SameUnits, AllUnits, OwnedSet, EntrypointsOf, Contiguous, Assign,
      WellFormedRunId;
    var validated := Validate(m);
    if validated.Err? {
      return Some(validated.error);
    }
    var observed := validated.value.owners.Keys;
    if exists i :: 0 <= i < |t.physicalFiles| && t.physicalFiles[i] !in observed {
      return Some(MissingFiles);
    }
    if exists f :: f in observed && f !in t.physicalFiles {
      return Some(UnknownFiles);
    }
    assert observed == Members(t.physicalFiles);
    WeighedDistinct([], t);
    r := CompareUnits(AllUnits(m.payload.shards), t.units);
  }

  /** A manifest built from a topology describes it: permuting the units loses none. */
  lemma BuiltDescribes(runId: Utf16, telemetryDigest: nat, observations: seq<Observation>, t: T.Topology)
    requires ValidTopology(t)
    ensures var p := PayloadOf(runId, telemetryDigest, observations, t); Describes(Manifest(p, DigestOf(p)), t)
  {
    hide ValidTopology, AllCompatible, AllUnits, OwnedSet, Assign, ShardsOf, ValidManifest, MatchedIn, MatchedBy,
      EarlierSeen, Sort;
    var ranked := RankedUnits(observations, t.units);
    var units := AllUnits(PayloadOf(runId, telemetryDigest, observations, t).shards);
    BuiltIsValid(runId, telemetryDigest, observations, t);
    RankedUnitsCompatible(observations, t);
    CompatiblePermutation(ranked, units);
    RankedUnitsOwn(observations, t);
    forall i | 0 <= i < |units| ensures MatchedIn(units[i], t.units) {
      assert units[i] in multiset(ranked);
      var k :| 0 <= k < |ranked| && ranked[k] == units[i];
      WeighKeepsFiles(observations, t.units[k]);
      MatchIn(units[i], t.units, k);
    }
    forall k | 0 <= k < |t.units| ensures MatchedBy(t.units[k], units) {
      assert ranked[k] in multiset(units);
      var i :| 0 <= i < |units| && units[i] == ranked[k];
      WeighKeepsFiles(observations, t.units[k]);
      MatchBy(t.units[k], units, i);
    }
  }

  lemma MatchIn(u: Unit, discovered: seq<T.Unit>, k: nat)
    requires k < |discovered| && Matches(u, discovered[k])
    ensures MatchedIn(u, discovered)
  {
  }

  lemma MatchBy(v: T.Unit, units: seq<Unit>, i: nat)
    requires i < |units| && Matches(units[i], v)
    ensures MatchedBy(v, units)
  {
  }

  /** A generated manifest passes the whole validator over the repository it was generated from. */
  method GenerateThenValidate(observations: seq<Observation>, t: T.Topology, runId: Utf16, telemetryDigest: nat)
    returns (generated: Result<Manifest, GenerateError>, refused: Option<ManifestError>)
    requires ValidTopology(t)
    ensures generated.Ok? <==> Known(observations, t.physicalFiles) && WellFormedRunId(runId)
    ensures refused.None?
  {
    hide ValidTopology, ValidManifest, Describes, Known, WellFormedRunId, PayloadOf;
    generated := BuildWorkflowTestShardManifest(observations, t, runId, telemetryDigest);
    match generated {
      case Err(_) => return generated, None;
      case Ok(m) =>
        BuiltDescribes(runId, telemetryDigest, observations, t);
        ValidDigest(m);
        refused := ValidateInRepository(m, t);
    }
  }

  lemma ValidDigest(m: Manifest)
    requires ValidManifest(m)
    ensures m == Manifest(m.payload, DigestOf(m.payload))
  {
  }
}
