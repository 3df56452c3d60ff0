/** Which unit gets which ordinal: the order in which telemetry first saw them. */
module ShardOrdinals {

  import opened ShardGeneration
  import opened Sorting
  import opened Text
  import T = Topology

  /** Record k came before every outermost record about these files. */
  ghost predicate Precedes(observations: seq<Observation>, k: nat, files: seq<Utf16>)
    requires k < |observations|
  {
    forall m :: 0 <= m < |observations| && observations[m].nesting == 0 && observations[m].file in files ==>
      observations[k].sequence < observations[m].sequence
  }

  /** Some outermost record about these files came before every outermost record about those. */
  ghost predicate SeenBefore(observations: seq<Observation>, these: seq<Utf16>, those: seq<Utf16>) {
    exists k: nat :: k < |observations| && observations[k].nesting == 0 && observations[k].file in these
                     && Precedes(observations, k, those)
  }

  /** The first sequence is that of some record about the files, and no record about them has less. */
  lemma {:induction false} FirstSequenceIs(observations: seq<Observation>, files: seq<Utf16>)
    ensures match FirstSequence(observations, files)
            case Some(first) =>
              && (exists k: nat ::
                    k < |observations| && About(observations[k], files) && observations[k].sequence == first)
              && (forall k: nat :: k < |observations| && About(observations[k], files) ==>
                    first <= observations[k].sequence)
            case None => forall k :: 0 <= k < |observations| ==> !About(observations[k], files)
  {
    if observations != [] {
      var n := |observations| - 1;
      FirstSequenceIs(observations[..n], files);
      if FirstSequence(observations[..n], files).Some? {
        var k :| 0 <= k < n && About(observations[..n][k], files)
                 && observations[..n][k].sequence == FirstSequence(observations[..n], files).value;
        assert About(observations[k], files);
      }
      forall k | 0 <= k < n && About(observations[k], files)
        ensures FirstSequence(observations[..n], files).Some?
                && FirstSequence(observations[..n], files).value <= observations[k].sequence
      {
        assert About(observations[..n][k], files);
      }
    }
  }

  lemma SeenBeforeIs(observations: seq<Observation>, these: seq<Utf16>, those: seq<Utf16>)
    ensures var x, y := FirstSequence(observations, these), FirstSequence(observations, those);
            SeenBefore(observations, these, those) <==> x.Some? && (y.None? || x.value < y.value)
  {
    FirstSequenceIs(observations, these);
    FirstSequenceIs(observations, those);
    hide FirstSequence;
    var x, y := FirstSequence(observations, these), FirstSequence(observations, those);
    if x.Some? && (y.None? || x.value < y.value) {
      var k: nat :| k < |observations| && About(observations[k], these) && observations[k].sequence == x.value;
      forall m | 0 <= m < |observations| && observations[m].nesting == 0 && observations[m].file in those
        ensures observations[k].sequence < observations[m].sequence
      {
        assert About(observations[m], those);
      }
      assert Precedes(observations, k, those);
    }
    if SeenBefore(observations, these, those) {
      var k: nat :| k < |observations| && observations[k].nesting == 0 && observations[k].file in these
                    && Precedes(observations, k, those);
      assert About(observations[k], these);
      if y.Some? {
        var m: nat :| m < |observations| && About(observations[m], those) && observations[m].sequence == y.value;
        assert observations[k].sequence < observations[m].sequence;
      }
    }
  }

  lemma EarlierSeenRanks()
    ensures Ranks(EarlierSeen)
  {
    AtMostIsTotalOrder();
    hide AtMost;
  }

  /** In a sorted order the place of one unit before another's is the order of the two. */
  lemma PlacesAreOrdered(observations: seq<Observation>, t: T.Topology, i: nat, j: nat)
    requires ValidTopology(t) && i < |t.units| && j < |t.units| && i != j
    ensures var ranked := RankedUnits(observations, t.units);
            ranked[i].legacyOrdinal < ranked[j].legacyOrdinal
            ==> EarlierSeen(Weigh(observations, t.units[i]), Weigh(observations, t.units[j]))
    ensures RankedUnits(observations, t.units)[i].legacyOrdinal != RankedUnits(observations, t.units)[j].legacyOrdinal
  {
    hide ValidTopology, Sort, Weigh, EarlierSeen;
    var weighted := WeighAll(observations, t.units);
    var order := Sort(weighted, EarlierSeen);
    EarlierSeenRanks();
    SortSorts(weighted, EarlierSeen);
    var ranked := RankedUnits(observations, t.units);
    RankedAt(observations, t, i);
    RankedAt(observations, t, j);
    WeighedDistinct(observations, t);
    WeighKeepsEntrypoint(observations, t.units[i]);
    WeighKeepsEntrypoint(observations, t.units[j]);
  }

  /** A unit's ordinal is its place in the order. */
  lemma RankedAt(observations: seq<Observation>, t: T.Topology, i: nat)
    requires ValidTopology(t) && i < |t.units|
    ensures var order, k := Sort(WeighAll(observations, t.units), EarlierSeen),
                            RankedUnits(observations, t.units)[i].legacyOrdinal;
            1 <= k <= |order| && order[k - 1] == Weigh(observations, t.units[i])
  {
    hide ValidTopology, Sort, Weigh, EarlierSeen;
    var weighted := WeighAll(observations, t.units);
    var order := Sort(weighted, EarlierSeen);
    var ranked := RankedUnits(observations, t.units);
    var k := ranked[i].legacyOrdinal;
    WeighKeepsEntrypoint(observations, t.units[i]);
    assert ranked[i] == RankUnit(order, weighted[i]);
    assert order[k - 1].entrypoint == t.units[i].entrypoint;
    assert order[k - 1] in multiset(weighted);
    var p :| 0 <= p < |weighted| && weighted[p] == order[k - 1];
    WeighKeepsEntrypoint(observations, t.units[p]);
    WeighedDistinct(observations, t);
    assert p == i;
  }

  lemma WeighedAs(observations: seq<Observation>, unit: T.Unit)
    ensures Weigh(observations, unit).firstSequence == FirstSequence(observations, unit.ownedPhysicalFiles)
    ensures Weigh(observations, unit).entrypoint == unit.entrypoint
  {
  }

  /** One unit has the smaller ordinal exactly when telemetry saw it first, or saw neither before the
      other and its entrypoint comes first. */
  lemma OrdinalsFollowTelemetry(observations: seq<Observation>, t: T.Topology, i: nat, j: nat)
    requires ValidTopology(t) && i < |t.units| && j < |t.units| && i != j
    ensures var ranked, these, those := RankedUnits(observations, t.units), t.units[i].ownedPhysicalFiles,
                                        t.units[j].ownedPhysicalFiles;
            ranked[i].legacyOrdinal < ranked[j].legacyOrdinal <==>
              || SeenBefore(observations, these, those)
              || (!SeenBefore(observations, these, those) && !SeenBefore(observations, those, these)
                  && t.units[i].entrypoint != t.units[j].entrypoint
                  && AtMost(t.units[i].entrypoint, t.units[j].entrypoint))
  {
    PlacesAreOrdered(observations, t, i, j);
    PlacesAreOrdered(observations, t, j, i);
    SeenBeforeIs(observations, t.units[i].ownedPhysicalFiles, t.units[j].ownedPhysicalFiles);
    SeenBeforeIs(observations, t.units[j].ownedPhysicalFiles, t.units[i].ownedPhysicalFiles);
    WeighedAs(observations, t.units[i]);
    WeighedAs(observations, t.units[j]);
    WeighedDistinct(observations, t);
    AtMostIsTotalOrder();
    hide ValidTopology, Weigh, SeenBefore, FirstSequence, AtMost, RankedUnits;
  }

  /** The durations of the outermost records about some files, added up. */
  function OutermostMicros(observations: seq<Observation>, files: seq<Utf16>): nat {
    if observations == [] then 0
    else
      (if observations[0].nesting == 0 && observations[0].file in files then observations[0].durationMicros else 0)
      + OutermostMicros(observations[1..], files)
  }

  lemma {:induction false} OutermostLast(observations: seq<Observation>, files: seq<Utf16>)
    requires observations != []
    ensures var n := |observations| - 1;
            OutermostMicros(observations, files)
            == OutermostMicros(observations[..n], files) + OutermostMicros([observations[n]], files)
  {
    var n := |observations| - 1;
    if n > 0 {
      OutermostLast(observations[1..], files);
      assert observations[1..][..n - 1] == observations[..n][1..];
    } else {
      assert observations == [observations[0]] && observations[..0] == [];
    }
  }

  lemma {:induction false} MicrosAre(observations: seq<Observation>, files: seq<Utf16>)
    ensures Micros(observations, files) == OutermostMicros(observations, files)
  {
    if observations != [] {
      var n := |observations| - 1;
      MicrosAre(observations[..n], files);
      OutermostLast(observations, files);
      assert [observations[n]][1..] == [];
    }
  }

  /** A ranked unit is the topology's, with the duration of the outermost records about its files. */
  lemma RankedUnitSays(observations: seq<Observation>, t: T.Topology, i: nat)
    requires ValidTopology(t) && i < |t.units|
    ensures var unit := RankedUnits(observations, t.units)[i];
            && unit.entrypoint == t.units[i].entrypoint
            && unit.ownedPhysicalFiles == t.units[i].ownedPhysicalFiles
            && unit.durationMicros == OutermostMicros(observations, t.units[i].ownedPhysicalFiles)
  {
    MicrosAre(observations, t.units[i].ownedPhysicalFiles);
    RankedAt(observations, t, i);
  }
}
