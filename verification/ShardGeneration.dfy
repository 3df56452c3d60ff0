/** The generator of shard manifests: telemetry gives each unit its duration and its ordinal, and the
    manifest made of them always passes the validator, with and without the repository. */
module ShardGeneration {
  import opened ImportForest
  import opened ImportGraph
  import opened Lists
  import opened Results
  import opened ShardManifest
  import opened ShardTheorems
  import opened Shards
  import opened Sorting
  import opened TestPaths
  import opened Text
  import T = Topology

  /** One record of source telemetry. */
  datatype Observation = Observation(sequence: int, file: File, nesting: nat, durationMicros: nat)

  datatype Timing = Timing(durationMicros: int, firstSequence: int)

  /** A unit with its telemetry; the source's infinite first sequence is None. */
  datatype Weighted = Weighted(
    entrypoint: File, ownedPhysicalFiles: seq<File>, durationMicros: int, firstSequence: Option<int>)

  datatype GenerateError = UnknownPhysicalTest(file: File) | Rejected(error: ManifestError)

  // ----- what telemetry says of some files

  predicate About(o: Observation, files: seq<File>) {
    o.nesting == 0 && o.file in files
  }

  function Micros(observations: seq<Observation>, files: seq<File>): nat {
    if observations == [] then 0
    else
      var last := observations[|observations| - 1];
      Micros(observations[..|observations| - 1], files) + if About(last, files) then last.durationMicros else 0
  }

  function Earlier(a: Option<int>, b: Option<int>): Option<int> {
    match (a, b)
    case (Some(x), Some(y)) => Some(if x <= y then x else y)
    case (Some(x), None) => a
    case (None, _) => b
  }

  function FirstSequence(observations: seq<Observation>, files: seq<File>): Option<int> {
    if observations == [] then None
    else
      var last := observations[|observations| - 1];
      Earlier(FirstSequence(observations[..|observations| - 1], files),
              if About(last, files) then Some(last.sequence) else None)
  }

  lemma {:induction false} NoFiles(observations: seq<Observation>)
    ensures Micros(observations, []) == 0 && FirstSequence(observations, []) == None
  {
    if observations != [] {
      NoFiles(observations[..|observations| - 1]);
    }
  }

  /** What is said of a list of files is what is said of its front and of its last file. */
  lemma {:induction false} OneMoreFile(observations: seq<Observation>, files: seq<File>, f: File)
    requires f !in files
    ensures Micros(observations, files + [f]) == Micros(observations, files) + Micros(observations, [f])
    ensures FirstSequence(observations, files + [f])
            == Earlier(FirstSequence(observations, files), FirstSequence(observations, [f]))
  {
    if observations != [] {
      OneMoreFile(observations[..|observations| - 1], files, f);
    }
  }

  /** A file is in the timing map exactly when something was said of it. */
  ghost predicate Timed(observations: seq<Observation>, timing: map<File, Timing>) {
    forall f: File ::
      match FirstSequence(observations, [f])
      case Some(first) => f in timing && timing[f] == Timing(Micros(observations, [f]), first)
      case None => f !in timing && Micros(observations, [f]) == 0
  }

  lemma TimedMore(observations: seq<Observation>, n: nat, timing: map<File, Timing>)
    requires n < |observations| && Timed(observations[..n], timing)
    ensures observations[n].nesting != 0 ==> Timed(observations[..n + 1], timing)
    ensures var o := observations[n];
            o.nesting == 0 ==>
              var current := if o.file in timing then timing[o.file] else Timing(0, o.sequence);
              Timed(observations[..n + 1],
                    timing[o.file := Timing(current.durationMicros + o.durationMicros,
                                            if current.firstSequence <= o.sequence then current.firstSequence
                                            else o.sequence)])
  {
    assert observations[..n + 1][..n] == observations[..n];
  }

  ghost predicate Known(observations: seq<Observation>, files: seq<File>) {
    forall i :: 0 <= i < |observations| && observations[i].nesting == 0 ==> observations[i].file in files
  }

  method AggregateTiming(observations: seq<Observation>, physicalFiles: seq<File>)
    returns (r: Result<map<File, Timing>, GenerateError>)
    ensures r.Ok? <==> Known(observations, physicalFiles)
    ensures r.Ok? ==> Timed(observations, r.value)
  {
    hide Timed;
    var timing: map<File, Timing> := map[];
    NothingTimed(observations);
    for i := 0 to |observations|
      invariant Timed(observations[..i], timing)
      invariant forall k :: 0 <= k < i && observations[k].nesting == 0 ==> observations[k].file in physicalFiles
    {
      TimedMore(observations, i, timing);
      var o := observations[i];
      if o.nesting == 0 {
        if o.file !in physicalFiles {
          return Err(UnknownPhysicalTest(o.file));
        }
        var current := if o.file in timing then timing[o.file] else Timing(0, o.sequence);
        timing := timing[o.file := Timing(current.durationMicros + o.durationMicros,
                                          if current.firstSequence <= o.sequence then current.firstSequence
                                          else o.sequence)];
      }
    }
    assert observations[..|observations|] == observations;
    return Ok(timing);
  }

  lemma NothingTimed(observations: seq<Observation>)
    ensures Timed(observations[..0], map[])
  {
  }

  function Weigh(observations: seq<Observation>, unit: T.Unit): Weighted {
    Weighted(unit.entrypoint, unit.ownedPhysicalFiles, Micros(observations, unit.ownedPhysicalFiles),
             FirstSequence(observations, unit.ownedPhysicalFiles))
  }

  method WeighUnit(ghost observations: seq<Observation>, timing: map<File, Timing>, unit: T.Unit) returns (w: Weighted)
    requires Timed(observations, timing) && Distinct(unit.ownedPhysicalFiles)
    ensures w == Weigh(observations, unit)
  {
    hide Timed, Distinct;
    var files := unit.ownedPhysicalFiles;
    var durationMicros, firstSequence := 0, None;
    NoFiles(observations);
    assert files[..0] == [];
    for i := 0 to |files|
      invariant durationMicros == Micros(observations, files[..i])
      invariant firstSequence == FirstSequence(observations, files[..i])
    {
      assert files[..i + 1] == files[..i] + [files[i]];
      DistinctPrefix(files, i + 1);
      DistinctAppend(files[..i], files[i]);
      OneMoreFile(observations, files[..i], files[i]);
      TimingOf(observations, timing, files[i]);
      if files[i] in timing {
        var observed := timing[files[i]];
        durationMicros := durationMicros + observed.durationMicros;
        firstSequence := Earlier(firstSequence, Some(observed.firstSequence));
      }
    }
    assert files[..|files|] == files;
    return Weighted(unit.entrypoint, files, durationMicros, firstSequence);
  }

  lemma TimingOf(observations: seq<Observation>, timing: map<File, Timing>, f: File)
    requires Timed(observations, timing)
    ensures match FirstSequence(observations, [f])
            case Some(first) => f in timing && timing[f] == Timing(Micros(observations, [f]), first)
            case None => f !in timing && Micros(observations, [f]) == 0
  {
  }

  // ----- ordinals

  /** Units seen in telemetry come first, by their first record, then the rest; ties by entrypoint. */
  predicate EarlierSeen(l: Weighted, r: Weighted) {
    match (l.firstSequence, r.firstSequence)
    case (Some(x), Some(y)) => x < y || (x == y && AtMost(l.entrypoint, r.entrypoint))
    case (Some(_), None) => true
    case (None, Some(_)) => false
    case (None, None) => AtMost(l.entrypoint, r.entrypoint)
  }

  function WeighAll(observations: seq<Observation>, units: seq<T.Unit>): (w: seq<Weighted>)
    ensures |w| == |units| && forall i :: 0 <= i < |w| ==> w[i] == Weigh(observations, units[i])
  {
    seq(|units|, i requires 0 <= i < |units| => Weigh(observations, units[i]))
  }

  predicate Names(order: seq<Weighted>, entrypoint: File) {
    exists i :: 0 <= i < |order| && order[i].entrypoint == entrypoint
  }

  /** A unit's place in the legacy order, counted from one. */
  function Ordinal(order: seq<Weighted>, entrypoint: File): (k: nat)
    requires Names(order, entrypoint)
    ensures 1 <= k <= |order| && order[k - 1].entrypoint == entrypoint
  {
    if order[|order| - 1].entrypoint == entrypoint then |order|
    else
      assert Names(order[..|order| - 1], entrypoint) by {
        var i :| 0 <= i < |order| && order[i].entrypoint == entrypoint;
        assert order[..|order| - 1][i] == order[i];
      }
      Ordinal(order[..|order| - 1], entrypoint)
  }

  function RankUnit(order: seq<Weighted>, w: Weighted): Unit
    requires Names(order, w.entrypoint)
  {
    Unit(w.entrypoint, w.ownedPhysicalFiles, Ordinal(order, w.entrypoint), w.durationMicros)
  }

  lemma OrderNames(weighted: seq<Weighted>)
    ensures forall i :: 0 <= i < |weighted| ==> Names(Sort(weighted, EarlierSeen), weighted[i].entrypoint)
  {
    var order := Sort(weighted, EarlierSeen);
    forall i | 0 <= i < |weighted| ensures Names(order, weighted[i].entrypoint) {
      assert weighted[i] in multiset(order);
      assert weighted[i] in order;
    }
  }

  /** The units the generator hands to the assignment. */
  function RankedUnits(observations: seq<Observation>, units: seq<T.Unit>): (r: seq<Unit>)
    ensures |r| == |units|
    ensures var weighted := WeighAll(observations, units);
            var order := Sort(weighted, EarlierSeen);
            forall i :: 0 <= i < |r| ==>
              Names(order, units[i].entrypoint) && r[i] == RankUnit(order, weighted[i])
  {
    var weighted := WeighAll(observations, units);
    var order := Sort(weighted, EarlierSeen);
    OrderNames(weighted);
    seq(|weighted|, i requires 0 <= i < |weighted| && Names(order, weighted[i].entrypoint) =>
          RankUnit(order, weighted[i]))
  }

  /** `new Map(legacyOrder.map((unit, index) => [unit.entrypoint, index + 1]))` */
  method LegacyOrdinals(order: seq<Weighted>) returns (ordinals: map<File, nat>)
    ensures forall e :: e in ordinals <==> Names(order, e)
    ensures forall e :: e in ordinals ==> ordinals[e] == Ordinal(order, e)
  {
    ordinals := map[];
    for i := 0 to |order|
      invariant forall e :: e in ordinals <==> Names(order[..i], e)
      invariant forall e :: e in ordinals ==> ordinals[e] == Ordinal(order[..i], e)
    {
      var front, more := order[..i], order[..i + 1];
      assert more[..i] == front && more[i] == order[i];
      forall e ensures Names(more, e) <==> Names(front, e) || e == order[i].entrypoint {
        if Names(front, e) {
          var k :| 0 <= k < |front| && front[k].entrypoint == e;
          assert more[k].entrypoint == e;
        }
        if e == order[i].entrypoint {
          assert more[i].entrypoint == e;
        }
        if k :| 0 <= k < |more| && more[k].entrypoint == e {
          assert k == i || front[k].entrypoint == e;
        }
      }
      ordinals := ordinals[order[i].entrypoint := i + 1];
    }
    assert order[..|order|] == order;
  }

  method RankUnits(observations: seq<Observation>, timing: map<File, Timing>, units: seq<T.Unit>)
    returns (r: seq<Unit>)
    requires Timed(observations, timing) && forall i :: 0 <= i < |units| ==> Distinct(units[i].ownedPhysicalFiles)
    ensures r == RankedUnits(observations, units)
  {
    hide Timed, Distinct, Sort, Weigh, EarlierSeen;
    var weighted: seq<Weighted> := [];
    for i := 0 to |units|
      invariant |weighted| == i && forall k :: 0 <= k < i ==> weighted[k] == Weigh(observations, units[k])
    {
      var w := WeighUnit(observations, timing, units[i]);
      weighted := weighted + [w];
    }
    assert weighted == WeighAll(observations, units);
    var legacyOrder := Sort(weighted, EarlierSeen);
    var legacyOrdinal := LegacyOrdinals(legacyOrder);
    OrderNames(weighted);
    r := [];
    for i := 0 to |weighted|
      invariant |r| == i && forall k :: 0 <= k < i ==>
                  Names(legacyOrder, weighted[k].entrypoint) && r[k] == RankUnit(legacyOrder, weighted[k])
    {
      var w := weighted[i];
      assert Names(legacyOrder, w.entrypoint);
      r := r + [Unit(w.entrypoint, w.ownedPhysicalFiles, legacyOrdinal[w.entrypoint], w.durationMicros)];
    }
    RankedFrom(observations, units, weighted, r);
  }

  lemma RankedFrom(observations: seq<Observation>, units: seq<T.Unit>, weighted: seq<Weighted>, r: seq<Unit>)
    requires weighted == WeighAll(observations, units) && |r| == |weighted|
    requires var order := Sort(weighted, EarlierSeen);
             forall k :: 0 <= k < |r| ==> Names(order, weighted[k].entrypoint) && r[k] == RankUnit(order, weighted[k])
    ensures r == RankedUnits(observations, units)
  {
    hide Sort, EarlierSeen;
    var ranked := RankedUnits(observations, units);
    forall k | 0 <= k < |r| ensures r[k] == ranked[k] {
    }
  }

  // ----- a valid topology gives a valid manifest

  /** What discovery returns: units of sorted test paths, each holding its entrypoint, that split the
      physical files. */
  ghost predicate ValidTopology(t: T.Topology) {
    && t.units != [] && Distinct(t.physicalFiles)
    && (forall i :: 0 <= i < |t.units| ==>
          var u := t.units[i];
          u.entrypoint in u.ownedPhysicalFiles && Sorted(u.ownedPhysicalFiles, AtMost))
    && Distinct(Flatten(T.OwnedFiles(t.units)))
    && (forall f :: f in Flatten(T.OwnedFiles(t.units)) <==> f in t.physicalFiles)
    && (forall f :: f in t.physicalFiles ==> IsTestPath(f))
  }

  lemma DiscoveredIsValid(listing: seq<File>, graph: Graph, roots: seq<File>, t: T.Topology)
    requires roots != [] && Distinct(listing) && t.physicalFiles == Sort(listing, AtMost)
    requires T.DescribeUnits(roots, graph, t.units)
    requires var owned := Flatten(T.OwnedFiles(t.units));
             && Distinct(owned) && (forall f :: f in owned <==> f in listing)
             && forall f :: f in owned ==> IsTestPath(f)
    ensures ValidTopology(t)
  {
    hide IsTestPath, Distinct, Sort, Flatten, AtMost, Sorted, Entrypoints;
    PermutationKeepsDistinct(listing, t.physicalFiles);
    forall i | 0 <= i < |t.units|
      ensures t.units[i].entrypoint in t.units[i].ownedPhysicalFiles && Sorted(t.units[i].ownedPhysicalFiles, AtMost)
    {
      DescribedUnit(roots, graph, t.units, i);
    }
  }

  lemma DescribedUnit(roots: seq<File>, graph: Graph, units: seq<T.Unit>, i: nat)
    requires T.DescribeUnits(roots, graph, units) && i < |units|
    ensures units[i].entrypoint in units[i].ownedPhysicalFiles && Sorted(units[i].ownedPhysicalFiles, AtMost)
  {
    hide AtMost, Entrypoints, Distinct;
    UnitIs(roots, graph, T.OwnedFiles(units), i);
    ReachesSelf(graph, units[i].entrypoint);
  }

  /** What `discoverWorkflowTestTopology` returns is valid. */
  method DiscoverValid(listing: seq<File>, sources: map<File, T.Source>, roots: seq<T.Root>)
    returns (r: Result<T.Topology, T.TopologyError>)
    requires roots != [] && Distinct(listing) && Members(listing) == sources.Keys
    requires Distinct(T.Paths(roots)) && forall i :: 0 <= i < |roots| ==> IsTestPath(roots[i].path)
    ensures r.Ok? ==> ValidTopology(r.value)
  {
    hide IsTestPath, Distinct, Sort, Flatten, ValidTopology, T.DescribeUnits, T.Admissible;
    r := T.Discover(listing, sources, roots);
    if r.Ok? {
      DiscoveredIsValid(listing, T.ImportGraphOf(sources, roots), T.Paths(roots), r.value);
    }
  }

  lemma {:induction false} FlattenApart(lists: seq<seq<File>>, i: nat, j: nat, f: File)
    requires Distinct(Flatten(lists)) && i < j < |lists| && f in lists[i]
    ensures f !in lists[j]
  {
    var head, tail := lists[0], Flatten(lists[1..]);
    var all := head + tail;
    assert Flatten(lists) == all;
    if i == 0 {
      FlattenHolds(lists[1..]);
      var p :| 0 <= p < |head| && head[p] == f;
      forall q | 0 <= q < |tail| ensures tail[q] != f {
        assert all[p] == f && all[|head| + q] == tail[q];
      }
      assert f !in tail;
      assert f !in lists[1..][j - 1];
    } else {
      forall p, q | 0 <= p < q < |tail| ensures tail[p] != tail[q] {
        assert all[|head| + p] == tail[p] && all[|head| + q] == tail[q];
      }
      FlattenApart(lists[1..], i - 1, j - 1, f);
    }
  }

  lemma {:induction false} FlattenPartDistinct(lists: seq<seq<File>>, i: nat)
    requires Distinct(Flatten(lists)) && i < |lists|
    ensures Distinct(lists[i])
  {
    var head, tail := lists[0], Flatten(lists[1..]);
    var all := head + tail;
    assert Flatten(lists) == all;
    if i == 0 {
      forall p, q | 0 <= p < q < |head| ensures head[p] != head[q] {
        assert all[p] == head[p] && all[q] == head[q];
      }
    } else {
      forall p, q | 0 <= p < q < |tail| ensures tail[p] != tail[q] {
        assert all[|head| + p] == tail[p] && all[|head| + q] == tail[q];
      }
      FlattenPartDistinct(lists[1..], i - 1);
    }
  }

  lemma TopologyUnit(t: T.Topology, i: nat)
    requires ValidTopology(t) && i < |t.units|
    ensures var u := t.units[i];
            && Distinct(u.ownedPhysicalFiles) && Sorted(u.ownedPhysicalFiles, AtMost)
            && u.entrypoint in u.ownedPhysicalFiles
            && forall f :: f in u.ownedPhysicalFiles ==> f in t.physicalFiles && IsTestPath(f)
  {
    hide IsTestPath, Distinct, Flatten, AtMost;
    var lists := T.OwnedFiles(t.units);
    FlattenPartDistinct(lists, i);
    FlattenHolds(lists);
    forall f | f in t.units[i].ownedPhysicalFiles ensures f in t.physicalFiles && IsTestPath(f) {
      assert f in lists[i];
    }
  }

  lemma TopologyUnitsApart(t: T.Topology, i: nat, j: nat, f: File)
    requires ValidTopology(t) && i < |t.units| && j < |t.units| && i != j && f in t.units[i].ownedPhysicalFiles
    ensures f !in t.units[j].ownedPhysicalFiles
    ensures t.units[i].entrypoint != t.units[j].entrypoint
  {
    hide IsTestPath, Distinct, Flatten, AtMost;
    var lists := T.OwnedFiles(t.units);
    assert t.units[i].entrypoint in lists[i] && t.units[j].entrypoint in lists[j];
    if i < j {
      FlattenApart(lists, i, j, f);
      FlattenApart(lists, i, j, t.units[i].entrypoint);
    } else {
      FlattenApart(lists, j, i, t.units[j].entrypoint);
      if f in t.units[j].ownedPhysicalFiles {
        FlattenApart(lists, j, i, f);
      }
    }
  }

  lemma SortedStays(files: seq<File>)
    requires Sorted(files, AtMost)
    ensures Sort(files, AtMost) == files
  {
    AtMostIsTotalOrder();
    SortSorts(files, AtMost);
    SortedUnique(files, Sort(files, AtMost), AtMost);
  }

  lemma WeighedDistinct(observations: seq<Observation>, t: T.Topology)
    requires ValidTopology(t)
    ensures Distinct(WeighAll(observations, t.units))
    ensures forall i, j :: 0 <= i < j < |t.units| ==> t.units[i].entrypoint != t.units[j].entrypoint
  {
    hide ValidTopology, Weigh;
    forall i, j | 0 <= i < j < |t.units|
      ensures t.units[i].entrypoint != t.units[j].entrypoint
      ensures Weigh(observations, t.units[i]) != Weigh(observations, t.units[j])
    {
      TopologyUnit(t, i);
      TopologyUnitsApart(t, i, j, t.units[i].entrypoint);
      WeighKeepsEntrypoint(observations, t.units[i]);
      WeighKeepsEntrypoint(observations, t.units[j]);
    }
  }

  lemma WeighKeepsEntrypoint(observations: seq<Observation>, unit: T.Unit)
    ensures Weigh(observations, unit).entrypoint == unit.entrypoint
  {
  }

  /** No two places of the legacy order hold one entrypoint. */
  lemma OrderDistinct(observations: seq<Observation>, t: T.Topology, p: nat, q: nat)
    requires ValidTopology(t)
    requires p < |t.units| && q < |t.units|
    ensures var order := Sort(WeighAll(observations, t.units), EarlierSeen);
            |order| == |t.units| && (p != q ==> order[p].entrypoint != order[q].entrypoint)
  {
    hide ValidTopology, Sort, EarlierSeen, Weigh, Distinct;
    WeighedDistinct(observations, t);
    var weighted := WeighAll(observations, t.units);
    var order := Sort(weighted, EarlierSeen);
    PermutationKeepsDistinct(weighted, order);
    if p != q {
      WeighedDiffer(order, p, q);
      assert order[p] in weighted && order[q] in weighted;
      var i :| 0 <= i < |weighted| && weighted[i] == order[p];
      var j :| 0 <= j < |weighted| && weighted[j] == order[q];
      WeighKeepsEntrypoint(observations, t.units[i]);
      WeighKeepsEntrypoint(observations, t.units[j]);
    }
  }

  lemma WeighedDiffer(order: seq<Weighted>, p: nat, q: nat)
    requires Distinct(order) && p < |order| && q < |order| && p != q
    ensures order[p] != order[q]
  {
  }

  /** The ranked units of a valid topology. */
  lemma RankedUnitsCompatible(observations: seq<Observation>, t: T.Topology)
    requires ValidTopology(t)
    ensures AllCompatible(RankedUnits(observations, t.units))
  {
    hide ValidTopology, Sort, EarlierSeen, Distinct, IsTestPath, AtMost, Compatible, UnitOk, Weigh;
    var ranked := RankedUnits(observations, t.units);
    WeighedDistinct(observations, t);
    forall i | 0 <= i < |ranked| ensures UnitOk(ranked[i]) {
      TopologyUnit(t, i);
      SortedStays(t.units[i].ownedPhysicalFiles);
      WeighKeepsFiles(observations, t.units[i]);
      RankedUnitOk(t.units[i], ranked[i]);
    }
    forall i, j | 0 <= i < j < |ranked| ensures Compatible(ranked[i], ranked[j]) {
      RankedPairApart(observations, t, i, j);
    }
  }

  lemma WeighKeepsFiles(observations: seq<Observation>, unit: T.Unit)
    ensures var w := Weigh(observations, unit);
            w.entrypoint == unit.entrypoint && w.ownedPhysicalFiles == unit.ownedPhysicalFiles && w.durationMicros >= 0
  {
  }

  lemma RankedPairApart(observations: seq<Observation>, t: T.Topology, i: nat, j: nat)
    requires ValidTopology(t) && i < j < |t.units| && t.units[i].entrypoint != t.units[j].entrypoint
    ensures var ranked := RankedUnits(observations, t.units); Compatible(ranked[i], ranked[j])
  {
    hide ValidTopology, Sort, EarlierSeen, Weigh;
    var ranked := RankedUnits(observations, t.units);
    WeighKeepsFiles(observations, t.units[i]);
    WeighKeepsFiles(observations, t.units[j]);
    forall f | f in ranked[i].ownedPhysicalFiles ensures f !in ranked[j].ownedPhysicalFiles {
      TopologyUnitsApart(t, i, j, f);
    }
  }

  lemma RankedUnitOk(unit: T.Unit, ranked: Unit)
    requires var files := unit.ownedPhysicalFiles;
             && Distinct(files) && Sort(files, AtMost) == files && unit.entrypoint in files
             && forall f :: f in files ==> IsTestPath(f)
    requires ranked.entrypoint == unit.entrypoint && ranked.ownedPhysicalFiles == unit.ownedPhysicalFiles
    requires ranked.legacyOrdinal >= 1 && ranked.durationMicros >= 0
    ensures UnitOk(ranked)
  {
    hide IsTestPath, Sort, Distinct;
  }

  lemma RankedUnitsContiguous(observations: seq<Observation>, t: T.Topology)
    requires ValidTopology(t)
    ensures Contiguous(RankedUnits(observations, t.units))
  {
    hide ValidTopology, Sort, EarlierSeen, Weigh;
    var ranked, weighted := RankedUnits(observations, t.units), WeighAll(observations, t.units);
    var order := Sort(weighted, EarlierSeen);
    forall k | 1 <= k <= |ranked| ensures k in Ordinals(ranked) {
      OrderDistinct(observations, t, k - 1, k - 1);
      assert order[k - 1] in multiset(weighted);
      var i :| 0 <= i < |weighted| && weighted[i] == order[k - 1];
      OrderDistinct(observations, t, k - 1, Ordinal(order, weighted[i].entrypoint) - 1);
      WeighKeepsEntrypoint(observations, t.units[i]);
      assert Ordinals(ranked)[i] == k;
    }
  }

  /** Order does not matter to what the validator demands of the units together. */
  lemma CompatiblePermutation(units: seq<Unit>, shuffled: seq<Unit>)
    requires AllCompatible(units) && multiset(units) == multiset(shuffled)
    ensures AllCompatible(shuffled) && OwnedSet(shuffled) == OwnedSet(units)
    ensures Contiguous(units) ==> Contiguous(shuffled)
  {
    hide UnitOk;
    assert |units| == |multiset(units)| == |shuffled|;
    assert Distinct(units);
    PermutationKeepsDistinct(units, shuffled);
    hide Distinct;
    forall i, j | 0 <= i < j < |shuffled| ensures Compatible(shuffled[i], shuffled[j]) {
      assert shuffled[i] in units && shuffled[j] in units;
      UnitsDiffer(shuffled, i, j);
      var p :| 0 <= p < |units| && units[p] == shuffled[i];
      var q :| 0 <= q < |units| && units[q] == shuffled[j];
      assert if p < q then Compatible(units[p], units[q]) else Compatible(units[q], units[p]);
    }
    forall i | 0 <= i < |shuffled| ensures UnitOk(shuffled[i]) {
      assert shuffled[i] in units;
    }
    OwnedByEither(units, shuffled);
    OwnedByEither(shuffled, units);
    if Contiguous(units) {
      forall k | 1 <= k <= |shuffled| ensures k in Ordinals(shuffled) {
        assert k in Ordinals(units);
        var i :| 0 <= i < |units| && Ordinals(units)[i] == k;
        assert units[i] in shuffled;
        var j :| 0 <= j < |shuffled| && shuffled[j] == units[i];
        assert Ordinals(shuffled)[j] == k;
      }
    }
  }

  lemma UnitsDiffer(units: seq<Unit>, i: nat, j: nat)
    requires Distinct(units) && i < j < |units|
    ensures units[i] != units[j]
  {
  }

  lemma OwnedByEither(units: seq<Unit>, others: seq<Unit>)
    requires forall u :: u in units ==> u in others
    ensures OwnedSet(units) <= OwnedSet(others)
  {
    forall f | f in OwnedSet(units) ensures f in OwnedSet(others) {
      var i :| 0 <= i < |units| && f in units[i].ownedPhysicalFiles;
      assert units[i] in others;
      var j :| 0 <= j < |others| && others[j] == units[i];
    }
  }

  lemma {:induction false} MembersCount(files: seq<File>)
    requires Distinct(files)
    ensures |Members(files)| == |files|
  {
    if files != [] {
      var front, last := files[..|files| - 1], files[|files| - 1];
      DistinctAppend(front, last);
      assert files == front + [last];
      MembersCount(front);
      assert Members(files) == Members(front) + {last};
    }
  }

  lemma RankedUnitsOwn(observations: seq<Observation>, t: T.Topology)
    requires ValidTopology(t)
    ensures OwnedSet(RankedUnits(observations, t.units)) == Members(t.physicalFiles)
  {
    hide IsTestPath, Distinct, Flatten, Sort, EarlierSeen;
    var ranked, lists := RankedUnits(observations, t.units), T.OwnedFiles(t.units);
    FlattenHolds(lists);
    forall f ensures f in OwnedSet(ranked) <==> f in Members(t.physicalFiles) {
      if f in OwnedSet(ranked) {
        var i :| 0 <= i < |ranked| && f in ranked[i].ownedPhysicalFiles;
        assert f in lists[i];
      }
      if f in t.physicalFiles {
        var i :| 0 <= i < |lists| && f in lists[i];
        assert f in ranked[i].ownedPhysicalFiles;
      }
    }
  }

  // ----- the manifest

  function PayloadOf(runId: Utf16, telemetryDigest: nat, observations: seq<Observation>, t: T.Topology): Payload {
    Payload(runId, telemetryDigest, |t.physicalFiles|, |t.units|, ShardsOf(RankedUnits(observations, t.units)))
  }

  /** Everything but the run id is always in order. */
  lemma BuiltIsValid(runId: Utf16, telemetryDigest: nat, observations: seq<Observation>, t: T.Topology)
    requires ValidTopology(t)
    ensures var p := PayloadOf(runId, telemetryDigest, observations, t);
            && (WellFormedRunId(runId) <==> ValidManifest(Manifest(p, DigestOf(p))))
            && Assign(RankedUnits(observations, t.units)) == Ok(p.shards)
            && multiset(AllUnits(p.shards)) == multiset(RankedUnits(observations, t.units))
  {
    var units := RankedUnits(observations, t.units);
    var shards := ShardsOf(units);
    RankedUnitsCompatible(observations, t);
    RankedUnitsContiguous(observations, t);
    RankedUnitsOwn(observations, t);
    MembersCount(t.physicalFiles);
    OwnsSomething(t);
    CompatibleFacts(units);
    AssignConserves(units);
    AssignIdempotent(units);
    assert multiset(AllUnits(shards)) == multiset(units);
    CompatiblePermutation(units, AllUnits(shards));
    hide ValidTopology, AllCompatible, Contiguous, AllUnits, Assign, ShardsOf, RankedUnits, OwnedSet, WellFormedRunId,
      ValidDurations, DistinctOrdinals;
    assert |units| == |multiset(units)| == |AllUnits(shards)|;
  }

  lemma CompatibleFacts(units: seq<Unit>)
    requires AllCompatible(units)
    ensures ValidDurations(units) && DistinctOrdinals(units)
  {
    hide IsTestPath, Sort, Distinct;
    forall i | 0 <= i < |units| ensures units[i].durationMicros >= 0 {
      assert UnitOk(units[i]);
    }
    forall i, j | 0 <= i < j < |units| ensures units[i].legacyOrdinal != units[j].legacyOrdinal {
      assert Compatible(units[i], units[j]);
    }
  }

  lemma OwnsSomething(t: T.Topology)
    requires ValidTopology(t)
    ensures |t.physicalFiles| >= 1 && |t.units| >= 1
  {
    TopologyUnit(t, 0);
  }

  /** `buildWorkflowTestShardManifest`: from a valid topology it fails only on telemetry of unknown
      files or a malformed run id; otherwise what it returns is a valid manifest of the ranked units. */
  method BuildWorkflowTestShardManifest(observations: seq<Observation>, t: T.Topology, runId: Utf16,
                                        telemetryDigest: nat)
    returns (r: Result<Manifest, GenerateError>)
    requires ValidTopology(t)
    ensures r.Ok? <==> Known(observations, t.physicalFiles) && WellFormedRunId(runId)
    ensures r.Ok? ==> ValidManifest(r.value) && r.value.payload == PayloadOf(runId, telemetryDigest, observations, t)
  {
    hide ValidTopology, Known, WellFormedRunId, ValidManifest, RankedUnits, Assign, Timed, Distinct;
    var timing := AggregateTiming(observations, t.physicalFiles);
    if timing.Err? {
      return Err(timing.error);
    }
    forall i | 0 <= i < |t.units| ensures Distinct(t.units[i].ownedPhysicalFiles) {
      TopologyUnit(t, i);
    }
    var units := RankUnits(observations, timing.value, t.units);
    BuiltIsValid(runId, telemetryDigest, observations, t);
    var shards := AssignWorkflowTestUnitsToShards(units);
    match shards {
      case Err(error) =>
        assert false;
      case Ok(chosen) =>
        var payload := Payload(runId, telemetryDigest, |t.physicalFiles|, |t.units|, chosen);
        var manifest := Manifest(payload, DigestOf(payload));
        var validated := Validate(manifest);
        if validated.Err? {
          return Err(Rejected(validated.error));
        }
        return Ok(manifest);
    }
  }

  // ----- conservation of telemetry

  /** The durations of all records at nesting zero. */
  function Total(observations: seq<Observation>): nat {
    if observations == [] then 0
    else
      var last := observations[|observations| - 1];
      Total(observations[..|observations| - 1]) + if last.nesting == 0 then last.durationMicros else 0
  }

  function MicrosOfAll(observations: seq<Observation>, lists: seq<seq<File>>): nat {
    if lists == [] then 0
    else MicrosOfAll(observations, lists[..|lists| - 1]) + Micros(observations, lists[|lists| - 1])
  }

  /** How many of the lists hold a file. */
  function Holders(lists: seq<seq<File>>, f: File): nat {
    if lists == [] then 0
    else Holders(lists[..|lists| - 1], f) + if f in lists[|lists| - 1] then 1 else 0
  }

  lemma {:induction false} NothingObserved(lists: seq<seq<File>>)
    ensures MicrosOfAll([], lists) == 0
  {
    if lists != [] {
      NothingObserved(lists[..|lists| - 1]);
    }
  }

  lemma {:induction false} OneMoreObservation(observations: seq<Observation>, o: Observation, lists: seq<seq<File>>)
    ensures MicrosOfAll(observations + [o], lists)
            == MicrosOfAll(observations, lists)
                + (if o.nesting == 0 then Holders(lists, o.file) * o.durationMicros else 0)
  {
    assert (observations + [o])[..|observations|] == observations;
    if lists != [] {
      OneMoreObservation(observations, o, lists[..|lists| - 1]);
      var before := Holders(lists[..|lists| - 1], o.file);
      assert (before + 1) * o.durationMicros == before * o.durationMicros + o.durationMicros;
    }
  }

  lemma {:induction false} OneHolder(lists: seq<seq<File>>, k: nat, f: File)
    requires k < |lists| && f in lists[k]
    requires forall i :: 0 <= i < |lists| && i != k ==> f !in lists[i]
    ensures Holders(lists, f) == 1
  {
    if k == |lists| - 1 {
      NoHolder(lists[..k], f);
    } else {
      OneHolder(lists[..|lists| - 1], k, f);
    }
  }

  lemma {:induction false} NoHolder(lists: seq<seq<File>>, f: File)
    requires forall i :: 0 <= i < |lists| ==> f !in lists[i]
    ensures Holders(lists, f) == 0
  {
    if lists != [] {
      NoHolder(lists[..|lists| - 1], f);
    }
  }

  lemma OwnedOnce(t: T.Topology, f: File)
    requires ValidTopology(t) && f in t.physicalFiles
    ensures Holders(T.OwnedFiles(t.units), f) == 1
  {
    hide IsTestPath, Distinct, AtMost;
    var lists := T.OwnedFiles(t.units);
    FlattenHolds(lists);
    assert f in Flatten(lists);
    hide Flatten;
    var k :| 0 <= k < |lists| && f in lists[k];
    forall i | 0 <= i < |lists| && i != k ensures f !in lists[i] {
      TopologyUnitsApart(t, k, i, f);
    }
    OneHolder(lists, k, f);
  }

  lemma {:induction false} UnitsTakeAll(observations: seq<Observation>, t: T.Topology)
    requires ValidTopology(t) && Known(observations, t.physicalFiles)
    ensures MicrosOfAll(observations, T.OwnedFiles(t.units)) == Total(observations)
  {
    hide ValidTopology;
    var lists := T.OwnedFiles(t.units);
    if observations == [] {
      NothingObserved(lists);
    } else {
      var front, last := observations[..|observations| - 1], observations[|observations| - 1];
      UnitsTakeAll(front, t);
      assert observations == front + [last];
      OneMoreObservation(front, last, lists);
      if last.nesting == 0 {
        OwnedOnce(t, last.file);
      }
    }
  }

  lemma {:induction false} RankedTotal(observations: seq<Observation>, units: seq<Unit>, lists: seq<seq<File>>)
    requires |units| == |lists|
    requires forall i :: 0 <= i < |units| ==> units[i].durationMicros == Micros(observations, lists[i])
    ensures TotalDuration(units) == MicrosOfAll(observations, lists)
  {
    if units != [] {
      RankedTotal(observations, units[..|units| - 1], lists[..|lists| - 1]);
    }
  }

  /** No telemetry is lost or counted twice: the units' durations add up to all of it. */
  lemma TelemetryConserved(observations: seq<Observation>, t: T.Topology)
    requires ValidTopology(t) && Known(observations, t.physicalFiles)
    ensures TotalDuration(RankedUnits(observations, t.units)) == Total(observations)
  {
    hide ValidTopology, Known, Sort, EarlierSeen;
    RankedTotal(observations, RankedUnits(observations, t.units), T.OwnedFiles(t.units));
    UnitsTakeAll(observations, t);
  }
}
