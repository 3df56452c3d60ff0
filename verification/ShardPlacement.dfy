/** Where each unit goes, without the sorts and the greedy function. */
module ShardPlacement {
  // Units are taken longest first, among equally long ones by ordinal; each goes to the shard with
  // the least so far, among equally loaded ones to the lowest numbered; each shard lists its units
  // by ordinal.

  import opened LongestProcessingTime
  import opened Shards
  import opened Sorting
  import opened Text

  ghost predicate LongestThenOrdinal(ordered: seq<Unit>) {
    forall i, j :: 0 <= i < j < |ordered| ==>
      && ordered[i].durationMicros >= ordered[j].durationMicros
      && (ordered[i].durationMicros == ordered[j].durationMicros ==>
            ordered[i].legacyOrdinal <= ordered[j].legacyOrdinal)
      && (ordered[i].durationMicros == ordered[j].durationMicros
          && ordered[i].legacyOrdinal == ordered[j].legacyOrdinal ==>
            AtMost(ordered[i].entrypoint, ordered[j].entrypoint))
  }

  ghost predicate InOrdinalOrder(units: seq<Unit>) {
    forall i, j :: 0 <= i < j < |units| ==>
      && units[i].legacyOrdinal <= units[j].legacyOrdinal
      && (units[i].legacyOrdinal == units[j].legacyOrdinal ==> AtMost(units[i].entrypoint, units[j].entrypoint))
  }

  /** The duration on shard t when the first n units are placed, unit i on shard goes[i]. */
  function Filled(ordered: seq<Unit>, goes: seq<nat>, n: nat, t: nat): int
    requires n <= |ordered| && |goes| == |ordered|
  {
    if n == 0 then 0
    else Filled(ordered, goes, n - 1, t) + if goes[n - 1] == t then ordered[n - 1].durationMicros else 0
  }

  /** The units on shard t when the first n units are placed. */
  ghost function Holding(ordered: seq<Unit>, goes: seq<nat>, n: nat, t: nat): multiset<Unit>
    requires n <= |ordered| && |goes| == |ordered|
  {
    if n == 0 then multiset{}
    else Holding(ordered, goes, n - 1, t) + if goes[n - 1] == t then multiset{ordered[n - 1]} else multiset{}
  }

  /** Unit n goes to the least loaded shard, the lowest numbered of several. */
  ghost predicate GoesToLeast(ordered: seq<Unit>, goes: seq<nat>, n: nat)
    requires n < |ordered| && |goes| == |ordered|
  {
    && goes[n] < 8
    && forall t: nat :: t < 8 ==>
         var (own, other) := (Filled(ordered, goes, n, goes[n]), Filled(ordered, goes, n, t));
         own < other || (own == other && goes[n] <= t)
  }

  ghost predicate ShardHolds(shard: Shard, ordered: seq<Unit>, goes: seq<nat>, t: nat)
    requires t < 8 && |goes| == |ordered|
  {
    && shard.shardNumber == t + 1
    && shard.id == Ascii("shard-0") + [0x31 + t as CodeUnit]
    && shard.wrapper == Ascii("packages/workflow-engine/test/shards/") + shard.id + Ascii(".ts")
    && shard.durationMicros == Filled(ordered, goes, |ordered|, t)
    && multiset(shard.units) == Holding(ordered, goes, |ordered|, t)
    && InOrdinalOrder(shard.units)
  }

  /** Taking the units in this order and sending them where goes says leaves these shards. */
  ghost predicate PlacedSo(units: seq<Unit>, shards: seq<Shard>, ordered: seq<Unit>, goes: seq<nat>) {
    && multiset(ordered) == multiset(units) && LongestThenOrdinal(ordered) && |goes| == |ordered|
    && (forall n: nat :: n < |ordered| ==> GoesToLeast(ordered, goes, n))
    && |shards| == 8 && forall t: nat :: t < 8 ==> ShardHolds(shards[t], ordered, goes, t)
  }

  /** The shards are those of placing the longest unit first on the least loaded shard. */
  lemma AssignPlacesSo(units: seq<Unit>)
    requires forall i :: 0 <= i < |units| ==> units[i].durationMicros >= 0
    ensures Assign(units).Ok? && exists ordered, goes :: PlacedSo(units, Assign(units).value, ordered, goes)
  {
    hide Sort, Load, Chosen, Place;
    var ordered, shards := Sort(units, LongestFirst), ShardsOf(units);
    var goes := Greedy(ordered);
    LongestFirstOrders(units);
    forall n: nat | n < |ordered| ensures GoesToLeast(ordered, goes, n) {
      GreedyGoesToLeast(ordered, n);
    }
    forall t: nat | t < 8 ensures ShardHolds(shards[t], ordered, goes, t) {
      ShardAtHolds(ordered, t);
    }
    assert PlacedSo(units, shards, ordered, goes);
  }

  lemma LongestFirstOrders(units: seq<Unit>)
    ensures LongestThenOrdinal(Sort(units, LongestFirst))
  {
    var ordered := Sort(units, LongestFirst);
    OrdersRank();
    SortSorts(units, LongestFirst);
    forall i, j | 0 <= i < j < |ordered| ensures LongestFirst(ordered[i], ordered[j]) {
    }
  }

  lemma ByOrdinalOrders(units: seq<Unit>)
    ensures InOrdinalOrder(Sort(units, ByOrdinal))
  {
    var sorted := Sort(units, ByOrdinal);
    OrdersRank();
    SortSorts(units, ByOrdinal);
    forall i, j | 0 <= i < j < |sorted| ensures ByOrdinal(sorted[i], sorted[j]) {
    }
  }

  lemma {:induction false} LoadIsFilled(ordered: seq<Unit>, goes: seq<nat>, n: nat, t: nat)
    requires n <= |ordered| && |goes| == |ordered|
    ensures Load(Weights(ordered), goes[..n], t) == Filled(ordered, goes, n, t)
  {
    if n > 0 {
      LoadIsFilled(ordered, goes, n - 1, t);
      assert goes[..n][..n - 1] == goes[..n - 1];
    }
  }

  lemma {:induction false} ChosenIsHeld(ordered: seq<Unit>, goes: seq<nat>, n: nat, t: nat)
    requires n <= |ordered| && |goes| == |ordered|
    ensures multiset(Chosen(ordered, goes[..n], t)) == Holding(ordered, goes, n, t)
  {
    if n > 0 {
      ChosenIsHeld(ordered, goes, n - 1, t);
      assert goes[..n][..n - 1] == goes[..n - 1];
    }
  }

  lemma {:induction false} PlacePrefix(w: seq<int>, m: nat, n: nat)
    requires n <= m <= |w|
    ensures Place(w, m)[..n] == Place(w, n)
  {
    if n < m {
      PlacePrefix(w, m - 1, n);
      assert Place(w, m)[..m - 1] == Place(w, m - 1);
      assert Place(w, m)[..n] == Place(w, m)[..m - 1][..n];
    }
  }

  lemma GreedyGoesToLeast(ordered: seq<Unit>, n: nat)
    requires n < |ordered|
    ensures GoesToLeast(ordered, Greedy(ordered), n)
  {
    hide Load;
    var w, goes := Weights(ordered), Greedy(ordered);
    PlacePrefix(w, |ordered|, n);
    PlacePrefix(w, |ordered|, n + 1);
    assert goes[n] == goes[..n + 1][n];
    forall t: nat | t < 8 ensures Loads(w, goes[..n])[t] == Filled(ordered, goes, n, t) {
      LoadIsFilled(ordered, goes, n, t);
    }
  }

  lemma ShardAtHolds(ordered: seq<Unit>, t: nat)
    requires t < 8
    ensures ShardHolds(ShardAt(ordered, Greedy(ordered), t), ordered, Greedy(ordered), t)
  {
    hide Load, Chosen, Sort, InOrdinalOrder;
    var goes := Greedy(ordered);
    assert goes[..|ordered|] == goes;
    LoadIsFilled(ordered, goes, |ordered|, t);
    ChosenIsHeld(ordered, goes, |ordered|, t);
    ByOrdinalOrders(Chosen(ordered, goes, t));
  }
}
