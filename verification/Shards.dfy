/** Assignment of workflow test units to eight shards (scripts/workflow-test-inventory.ts). */
module Shards {
  import opened LongestProcessingTime
  import opened Results
  import opened Sorting
  import opened Text

  /** One execution unit; durations are whole microseconds. */
  datatype Unit = Unit(
    entrypoint: Utf16, ownedPhysicalFiles: seq<Utf16>, legacyOrdinal: int, durationMicros: int)

  datatype Shard = Shard(
    shardNumber: int, id: Utf16, wrapper: Utf16, durationMicros: int, units: seq<Unit>)

  /** A shard while it is being filled. */
  datatype Placement = Placement(shardNumber: int, durationMicros: int, units: seq<Unit>)

  datatype AssignError = DurationInvalid(entrypoint: Utf16)

  // ----- the three orders the assignment sorts by

  predicate LongestFirst(l: Unit, r: Unit) {
    l.durationMicros > r.durationMicros
    || (l.durationMicros == r.durationMicros
        && (l.legacyOrdinal < r.legacyOrdinal
            || (l.legacyOrdinal == r.legacyOrdinal && AtMost(l.entrypoint, r.entrypoint))))
  }

  predicate ByOrdinal(l: Unit, r: Unit) {
    l.legacyOrdinal < r.legacyOrdinal
    || (l.legacyOrdinal == r.legacyOrdinal && AtMost(l.entrypoint, r.entrypoint))
  }

  predicate LeastLoadedFirst(l: Placement, r: Placement) {
    l.durationMicros < r.durationMicros
    || (l.durationMicros == r.durationMicros && l.shardNumber <= r.shardNumber)
  }

  predicate ByNumber(l: Placement, r: Placement) {
    l.shardNumber <= r.shardNumber
  }

  lemma OrdersRank()
    ensures Ranks(LongestFirst) && Ranks(ByOrdinal) && Ranks(LeastLoadedFirst) && Ranks(ByNumber)
  {
    AtMostIsTotalOrder();
  }

  // ----- specification

  predicate ValidDurations(units: seq<Unit>) {
    forall i :: 0 <= i < |units| ==> 0 <= units[i].durationMicros
  }

  function FirstInvalid(units: seq<Unit>): (r: nat)
    requires !ValidDurations(units)
    ensures r < |units| && units[r].durationMicros < 0 && ValidDurations(units[..r])
  {
    if units[0].durationMicros < 0 then 0 else 1 + FirstInvalid(units[1..])
  }

  function Weights(units: seq<Unit>): (w: seq<int>)
    ensures |w| == |units|
    ensures forall i :: 0 <= i < |w| ==> w[i] == units[i].durationMicros
  {
    seq(|units|, i requires 0 <= i < |units| => units[i].durationMicros)
  }

  /** The units an assignment gives to shard t, in placement order. */
  function Chosen(units: seq<Unit>, a: seq<nat>, t: nat): seq<Unit>
    requires |a| <= |units|
  {
    if a == [] then []
    else
      var n := |a| - 1;
      Chosen(units, a[..n], t) + if a[n] == t then [units[n]] else []
  }

  function ShardId(number: nat): Utf16
    requires 1 <= number <= SHARD_COUNT
  {
    Ascii("shard-0") + [48 + number as CodeUnit]
  }

  function ShardWrapper(number: nat): Utf16
    requires 1 <= number <= SHARD_COUNT
  {
    Ascii("packages/workflow-engine/test/shards/") + ShardId(number) + Ascii(".ts")
  }

  function ShardAt(units: seq<Unit>, a: seq<nat>, t: nat): Shard
    requires |a| <= |units| && t < SHARD_COUNT
  {
    Shard(t + 1, ShardId(t + 1), ShardWrapper(t + 1), Load(Weights(units), a, t),
          Sort(Chosen(units, a, t), ByOrdinal))
  }

  function Greedy(units: seq<Unit>): (a: seq<nat>)
    ensures |a| == |units|
    ensures forall i :: 0 <= i < |a| ==> a[i] < SHARD_COUNT
  {
    Place(Weights(units), |units|)
  }

  function ShardsOf(units: seq<Unit>): (shards: seq<Shard>)
    ensures |shards| == SHARD_COUNT
    ensures var ordered := Sort(units, LongestFirst);
            forall t :: 0 <= t < SHARD_COUNT ==> shards[t] == ShardAt(ordered, Greedy(ordered), t)
  {
    var ordered := Sort(units, LongestFirst);
    seq(SHARD_COUNT, t requires 0 <= t < SHARD_COUNT => ShardAt(ordered, Greedy(ordered), t))
  }

  function Assign(units: seq<Unit>): Result<seq<Shard>, AssignError> {
    if ValidDurations(units) then Ok(ShardsOf(units))
    else Err(DurationInvalid(units[FirstInvalid(units)].entrypoint))
  }

  // ----- the assignment itself

  /** The eight placements after the units assigned by a, in shard order. */
  function Placements(units: seq<Unit>, a: seq<nat>): (p: seq<Placement>)
    requires |a| <= |units|
    ensures |p| == SHARD_COUNT
    ensures forall t :: 0 <= t < SHARD_COUNT ==>
              p[t] == Placement(t + 1, Load(Weights(units), a, t), Chosen(units, a, t))
  {
    seq(SHARD_COUNT, t requires 0 <= t < SHARD_COUNT =>
      Placement(t + 1, Load(Weights(units), a, t), Chosen(units, a, t)))
  }

  /** Sorting placements by load puts the least loaded, lowest numbered shard in front. */
  lemma FrontIsLeast(units: seq<Unit>, a: seq<nat>, p: seq<Placement>)
    requires |a| <= |units|
    requires multiset(p) == multiset(Placements(units, a)) && Sorted(p, LeastLoadedFirst)
    ensures |p| == SHARD_COUNT
    ensures p[0] == Placements(units, a)[Least(Loads(Weights(units), a))]
  {
    var q, loads := Placements(units, a), Loads(Weights(units), a);
    var s := Least(loads);
    assert |p| == |multiset(p)| == |multiset(q)| == |q|;
    assert q[s] in multiset(p) && p[0] in multiset(q);
    var i, t :| 0 <= i < |p| && p[i] == q[s] && 0 <= t < |q| && p[0] == q[t];
    assert LeastLoadedFirst(p[0], p[i]);
    assert loads[s] <= loads[t];
  }

  function Fill(p: Placement, unit: Unit): Placement {
    Placement(p.shardNumber, p.durationMicros + unit.durationMicros, p.units + [unit])
  }

  /** Filling the chosen placement is one greedy step. */
  lemma FillIsStep(units: seq<Unit>, n: nat, p: seq<Placement>)
    requires n < |units|
    requires var a := Place(Weights(units), n);
             && multiset(p) == multiset(Placements(units, a)) && Sorted(p, LeastLoadedFirst)
    ensures p != []
    ensures multiset(p[0 := Fill(p[0], units[n])])
         == multiset(Placements(units, Place(Weights(units), n + 1)))
  {
    var w := Weights(units);
    var a, b := Place(w, n), Place(w, n + 1);
    var q, s := Placements(units, a), Least(Loads(w, a));
    FrontIsLeast(units, a, p);
    var filled := Fill(p[0], units[n]);
    assert b == a + [s] && b[..n] == a;
    forall t | 0 <= t < SHARD_COUNT ensures Placements(units, b)[t] == q[s := filled][t] {
      assert Load(w, b, t) == Load(w, a, t) + if t == s then w[n] else 0;
    }
    assert Placements(units, b) == q[s := filled];
  }

  function EmptyPlacements(): (p: seq<Placement>)
    ensures |p| == SHARD_COUNT
  {
    seq(SHARD_COUNT, t requires 0 <= t < SHARD_COUNT => Placement(t + 1, 0, []))
  }

  lemma NothingPlaced(units: seq<Unit>)
    ensures EmptyPlacements() == Placements(units, Place(Weights(units), 0))
  {
  }

  lemma {:induction false} FirstInvalidUnique(units: seq<Unit>, i: nat)
    requires i < |units| && units[i].durationMicros < 0 && ValidDurations(units[..i])
    ensures !ValidDurations(units) && FirstInvalid(units) == i
  {
    if i > 0 {
      assert 0 <= units[..i][0].durationMicros;
      var before := units[1..][..i - 1];
      forall j | 0 <= j < |before| ensures 0 <= before[j].durationMicros {
        assert before[j] == units[..i][j + 1];
      }
      FirstInvalidUnique(units[1..], i - 1);
    }
  }

  lemma PlacementsByNumber(units: seq<Unit>, a: seq<nat>, p: seq<Placement>)
    requires |a| <= |units|
    requires multiset(p) == multiset(Placements(units, a))
    ensures Sort(p, ByNumber) == Placements(units, a)
  {
    OrdersRank();
    SortSorts(p, ByNumber);
    var q := Placements(units, a);
    var r := Sort(p, ByNumber);
    forall x, y | x in r && y in r && ByNumber(x, y) && ByNumber(y, x) ensures x == y {
      assert x in multiset(q) && y in multiset(q);
      assert x in q && y in q;
    }
    SortedUnique(r, q, ByNumber);
  }

  function ShardFrom(p: Placement): Shard
    requires 1 <= p.shardNumber <= SHARD_COUNT
  {
    Shard(p.shardNumber, ShardId(p.shardNumber), ShardWrapper(p.shardNumber), p.durationMicros,
          Sort(p.units, ByOrdinal))
  }

  /** Gives the units to the shards one at a time, re-sorting the placements before each. */
  method PlaceInOrder(ordered: seq<Unit>) returns (placements: seq<Placement>)
    ensures placements == Placements(ordered, Greedy(ordered))
  {
    hide Sort, Least, Chosen, Load, ByNumber, LeastLoadedFirst, Place, Placements, EmptyPlacements;
    ghost var w := Weights(ordered);
    placements := EmptyPlacements();
    NothingPlaced(ordered);
    OrdersRank();
    for n := 0 to |ordered|
      invariant multiset(placements) == multiset(Placements(ordered, Place(w, n)))
    {
      SortSorts(placements, LeastLoadedFirst);
      placements := Sort(placements, LeastLoadedFirst);
      FillIsStep(ordered, n, placements);
      placements := placements[0 := Fill(placements[0], ordered[n])];
    }
    PlacementsByNumber(ordered, Place(w, |ordered|), placements);
    placements := Sort(placements, ByNumber);
  }

  method AssignWorkflowTestUnitsToShards(units: seq<Unit>)
    returns (r: Result<seq<Shard>, AssignError>)
    ensures r == Assign(units)
    ensures r.Ok? <==> forall k :: 0 <= k < |units| ==> units[k].durationMicros >= 0
    ensures forall k :: 0 <= k < |units| && units[k].durationMicros < 0
                        && (forall j :: 0 <= j < k ==> units[j].durationMicros >= 0) ==>
                          r == Err(DurationInvalid(units[k].entrypoint))
  {
    var i := 0;
    while i < |units|
      invariant 0 <= i <= |units| && ValidDurations(units[..i])
    {
      if units[i].durationMicros < 0 {
        FirstInvalidUnique(units, i);
        return Err(DurationInvalid(units[i].entrypoint));
      }
      i := i + 1;
    }
    assert units[..i] == units;
    var placements := PlaceInOrder(Sort(units, LongestFirst));
    var shards := seq(SHARD_COUNT, t requires 0 <= t < SHARD_COUNT => ShardFrom(placements[t]));
    assert shards == ShardsOf(units);
    r := Ok(shards);
  }
}
