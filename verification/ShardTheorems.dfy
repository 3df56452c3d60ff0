/** What every shard assignment satisfies: nothing lost, order of input irrelevant, near-optimal. */
module ShardTheorems {
  import opened Lists
  import opened LongestProcessingTime
  import opened Results
  import opened Shards
  import opened Sorting

  function UnitsOf(shards: seq<Shard>): (g: seq<seq<Unit>>)
    ensures |g| == |shards|
    ensures forall t :: 0 <= t < |g| ==> g[t] == shards[t].units
  {
    seq(|shards|, t requires 0 <= t < |shards| => shards[t].units)
  }

  function TotalDuration(units: seq<Unit>): int {
    if units == [] then 0
    else TotalDuration(units[..|units| - 1]) + units[|units| - 1].durationMicros
  }

  ghost predicate DistinctOrdinals(units: seq<Unit>) {
    forall i, j :: 0 <= i < j < |units| ==> units[i].legacyOrdinal != units[j].legacyOrdinal
  }

  // ----- sequences without one element

  function Without<T>(s: seq<T>, j: nat): seq<T>
    requires j < |s|
  {
    s[..j] + s[j + 1..]
  }

  lemma MultisetWithout<T>(s: seq<T>, j: nat)
    requires j < |s|
    ensures multiset(s) == multiset(Without(s, j)) + multiset{s[j]}
  {
    assert s == s[..j] + [s[j]] + s[j + 1..];
  }

  lemma Cancel<T>(a: multiset<T>, b: multiset<T>, x: T)
    requires a + multiset{x} == b + multiset{x}
    ensures a == b
  {
    assert a == a + multiset{x} - multiset{x};
    assert b == b + multiset{x} - multiset{x};
  }

  lemma {:induction false} TotalAppend(s: seq<Unit>, t: seq<Unit>)
    ensures TotalDuration(s + t) == TotalDuration(s) + TotalDuration(t)
  {
    if t == [] {
      assert s + t == s;
    } else {
      TotalAppend(s, t[..|t| - 1]);
      assert (s + t)[..|s + t| - 1] == s + t[..|t| - 1];
    }
  }

  lemma TotalOfOne(x: Unit)
    ensures TotalDuration([x]) == x.durationMicros
  {
    assert [x][..0] == [];
  }

  lemma TotalWithout(s: seq<Unit>, j: nat)
    requires j < |s|
    ensures TotalDuration(s) == TotalDuration(Without(s, j)) + s[j].durationMicros
  {
    hide TotalDuration;
    var before, after := s[..j], s[j + 1..];
    assert s == before + ([s[j]] + after);
    TotalAppend(before, [s[j]] + after);
    TotalAppend([s[j]], after);
    TotalAppend(before, after);
    TotalOfOne(s[j]);
  }

  lemma {:induction false} TotalOfPermutation(s: seq<Unit>, t: seq<Unit>)
    requires multiset(s) == multiset(t)
    ensures TotalDuration(s) == TotalDuration(t)
  {
    if s == [] {
      assert |multiset(t)| == 0;
    } else {
      var n := |s| - 1;
      assert s[n] in multiset(t);
      var j :| 0 <= j < |t| && t[j] == s[n];
      assert s == s[..n] + [s[n]];
      MultisetWithout(t, j);
      Cancel(multiset(s[..n]), multiset(Without(t, j)), s[n]);
      TotalOfPermutation(s[..n], Without(t, j));
      TotalWithout(t, j);
    }
  }

  // ----- conservation

  lemma {:induction false} LoadIsDuration(units: seq<Unit>, a: seq<nat>, t: nat)
    requires |a| <= |units|
    ensures Load(Weights(units), a, t) == TotalDuration(Chosen(units, a, t))
  {
    if a != [] {
      var n := |a| - 1;
      LoadIsDuration(units, a[..n], t);
      TotalAppend(Chosen(units, a[..n], t), [units[n]]);
      TotalOfOne(units[n]);
      assert Chosen(units, a[..n], t) + [] == Chosen(units, a[..n], t);
    }
  }

  function ChosenBelow(units: seq<Unit>, a: seq<nat>, m: nat): seq<Unit>
    requires |a| <= |units|
  {
    if m == 0 then [] else ChosenBelow(units, a, m - 1) + Chosen(units, a, m - 1)
  }

  lemma ChosenStep(units: seq<Unit>, a: seq<nat>, t: nat)
    requires 0 < |a| <= |units|
    ensures var n := |a| - 1;
            multiset(Chosen(units, a, t)) == multiset(Chosen(units, a[..n], t)) + Only(units[n], a[n] == t)
  {
  }

  lemma Rearrange<T>(p: multiset<T>, q: multiset<T>, r: multiset<T>, s: multiset<T>)
    ensures (p + q) + (r + s) == (p + r) + (q + s)
  {
  }

  function Only(x: Unit, present: bool): multiset<Unit> {
    if present then multiset{x} else multiset{}
  }

  lemma OnlyBelow(x: Unit, t: nat, m: nat)
    ensures Only(x, t < m) + Only(x, t == m) == Only(x, t < m + 1)
  {
  }

  lemma ChosenBelowLast(units: seq<Unit>, a: seq<nat>, m: nat)
    requires |a| <= |units| && m > 0
    ensures multiset(ChosenBelow(units, a, m))
            == multiset(ChosenBelow(units, a, m - 1)) + multiset(Chosen(units, a, m - 1))
  {
    hide Chosen;
  }

  lemma {:induction false} ChosenBelowStep(units: seq<Unit>, a: seq<nat>, m: nat)
    requires 0 < |a| <= |units|
    ensures var n := |a| - 1;
            multiset(ChosenBelow(units, a, m)) == multiset(ChosenBelow(units, a[..n], m)) + Only(units[n], a[n] < m)
    decreases m
  {
    hide Chosen, ChosenBelow, Only;
    var n := |a| - 1;
    if m == 0 {
      ChosenBelowZero(units, a);
    } else {
      ChosenBelowStep(units, a, m - 1);
      ChosenStep(units, a, m - 1);
      ChosenBelowLast(units, a, m);
      ChosenBelowLast(units, a[..n], m);
      Rearrange(multiset(ChosenBelow(units, a[..n], m - 1)), Only(units[n], a[n] < m - 1),
                multiset(Chosen(units, a[..n], m - 1)), Only(units[n], a[n] == m - 1));
      OnlyBelow(units[n], a[n], m - 1);
    }
  }

  lemma ChosenBelowZero(units: seq<Unit>, a: seq<nat>)
    requires 0 < |a| <= |units|
    ensures var n := |a| - 1;
            multiset(ChosenBelow(units, a, 0)) == multiset(ChosenBelow(units, a[..n], 0)) + Only(units[n], a[n] < 0)
  {
  }

  lemma {:induction false} ChosenBelowNone(units: seq<Unit>, m: nat)
    ensures ChosenBelow(units, [], m) == []
  {
    if m > 0 {
      ChosenBelowNone(units, m - 1);
    }
  }

  lemma {:induction false} ChosenCovers(units: seq<Unit>, a: seq<nat>)
    requires |a| <= |units|
    requires forall i :: 0 <= i < |a| ==> a[i] < SHARD_COUNT
    ensures multiset(ChosenBelow(units, a, SHARD_COUNT)) == multiset(units[..|a|])
  {
    hide Chosen, ChosenBelow;
    if a == [] {
      ChosenBelowNone(units, SHARD_COUNT);
    } else {
      var n := |a| - 1;
      ChosenCovers(units, a[..n]);
      ChosenBelowStep(units, a, SHARD_COUNT);
      assert units[..n + 1] == units[..n] + [units[n]];
    }
  }

  lemma {:induction false} FlattenShards(units: seq<Unit>, a: seq<nat>, groups: seq<seq<Unit>>)
    requires |a| <= |units| && |groups| <= SHARD_COUNT
    requires forall t :: 0 <= t < |groups| ==> multiset(groups[t]) == multiset(Chosen(units, a, t))
    ensures multiset(Flatten(groups)) == multiset(ChosenBelow(units, a, |groups|))
  {
    if groups != [] {
      FlattenShards(units, a, groups[..|groups| - 1]);
      FlattenLast(groups);
    }
  }

  /** Each unit lands in exactly one shard, and a shard's duration is the sum of its units'. */
  lemma AssignConserves(units: seq<Unit>)
    ensures multiset(Flatten(UnitsOf(ShardsOf(units)))) == multiset(units)
    ensures forall t :: 0 <= t < SHARD_COUNT ==>
              ShardsOf(units)[t].durationMicros == TotalDuration(ShardsOf(units)[t].units)
  {
    var ordered := Sort(units, LongestFirst);
    var a, shards := Greedy(ordered), ShardsOf(units);
    forall t: nat | t < SHARD_COUNT
      ensures shards[t].durationMicros == TotalDuration(shards[t].units)
    {
      LoadIsDuration(ordered, a, t);
      TotalOfPermutation(shards[t].units, Chosen(ordered, a, t));
    }
    FlattenShards(ordered, a, UnitsOf(shards));
    ChosenCovers(ordered, a);
    assert ordered[..|ordered|] == ordered;
  }

  // ----- the input's order does not matter

  lemma AssignOfPermutation(units: seq<Unit>, shuffled: seq<Unit>)
    requires multiset(units) == multiset(shuffled) && DistinctOrdinals(units)
    ensures ShardsOf(units) == ShardsOf(shuffled)
  {
    OrdersRank();
    SortOfPermutation(units, shuffled, LongestFirst);
  }

  /** Assigning the flattened shards again gives the same shards. */
  lemma AssignIdempotent(units: seq<Unit>)
    requires ValidDurations(units) && DistinctOrdinals(units)
    ensures Assign(Flatten(UnitsOf(ShardsOf(units)))) == Ok(ShardsOf(units)) == Assign(units)
  {
    var again := Flatten(UnitsOf(ShardsOf(units)));
    AssignConserves(units);
    AssignOfPermutation(units, again);
    forall i | 0 <= i < |again| ensures 0 <= again[i].durationMicros {
      assert again[i] in multiset(units);
    }
  }

  // ----- the bound against any rival

  /** Any other way of dividing the same units over eight shards. */
  ghost predicate Divides(rival: seq<seq<Unit>>, units: seq<Unit>) {
    |rival| == SHARD_COUNT && multiset(Flatten(rival)) == multiset(units)
  }

  function LargestTotal(groups: seq<seq<Unit>>): (m: int)
    requires groups != []
    ensures forall t :: 0 <= t < |groups| ==> TotalDuration(groups[t]) <= m
    ensures exists t :: 0 <= t < |groups| && TotalDuration(groups[t]) == m
  {
    var n := |groups| - 1;
    if n == 0 then TotalDuration(groups[0])
    else
      var m := LargestTotal(groups[..n]);
      if m < TotalDuration(groups[n]) then TotalDuration(groups[n]) else m
  }

  lemma FindInGroups(groups: seq<seq<Unit>>, x: Unit) returns (t: nat, j: nat)
    requires x in Flatten(groups)
    ensures t < |groups| && j < |groups[t]| && groups[t][j] == x
  {
    FlattenHolds(groups);
    t :| 0 <= t < |groups| && x in groups[t];
    j :| 0 <= j < |groups[t]| && groups[t][j] == x;
  }

  lemma FlattenWithout(groups: seq<seq<Unit>>, t: nat, j: nat)
    requires t < |groups| && j < |groups[t]|
    ensures multiset(Flatten(groups))
         == multiset(Flatten(groups[t := Without(groups[t], j)])) + multiset{groups[t][j]}
  {
    var fewer := groups[t := Without(groups[t], j)];
    MultisetWithout(groups[t], j);
    FlattenAround(groups, t);
    FlattenAround(fewer, t);
    assert fewer[..t] == groups[..t] && fewer[t + 1..] == groups[t + 1..];
    hide Flatten, Without;
  }

  lemma FlattenAround(groups: seq<seq<Unit>>, t: nat)
    requires t < |groups|
    ensures multiset(Flatten(groups))
         == multiset(Flatten(groups[..t])) + multiset(groups[t]) + multiset(Flatten(groups[t + 1..]))
  {
    assert groups == groups[..t] + groups[t..];
    FlattenAppend(groups[..t], groups[t..]);
    assert groups[t..][0] == groups[t] && groups[t..][1..] == groups[t + 1..];
  }

  /** A rival division, written as an assignment of the ordered units. */
  lemma {:induction false} RivalAsAssignment(ordered: seq<Unit>, rival: seq<seq<Unit>>)
    returns (b: seq<nat>)
    requires Divides(rival, ordered)
    ensures |b| == |ordered|
    ensures forall i :: 0 <= i < |b| ==> b[i] < SHARD_COUNT
    ensures forall t :: 0 <= t < SHARD_COUNT ==>
              Load(Weights(ordered), b, t) == TotalDuration(rival[t])
  {
    if ordered == [] {
      b := [];
      forall t | 0 <= t < SHARD_COUNT ensures rival[t] == [] {
        FlattenEmpty(rival, t);
      }
    } else {
      var n := |ordered| - 1;
      var s, fewer := OneFewer(ordered, rival);
      var c := RivalAsAssignment(ordered[..n], fewer);
      b := c + [s];
      assert b[..n] == c;
      forall t | 0 <= t < SHARD_COUNT ensures Load(Weights(ordered), b, t) == TotalDuration(rival[t]) {
        LoadOfSmaller(ordered, n, c, t);
      }
    }
  }

  /** Takes the last ordered unit out of the rival shard that holds it. */
  lemma OneFewer(ordered: seq<Unit>, rival: seq<seq<Unit>>) returns (s: nat, fewer: seq<seq<Unit>>)
    requires ordered != [] && Divides(rival, ordered)
    ensures s < SHARD_COUNT && Divides(fewer, ordered[..|ordered| - 1])
    ensures forall t :: 0 <= t < SHARD_COUNT ==>
              var taken := if t == s then ordered[|ordered| - 1].durationMicros else 0;
              TotalDuration(rival[t]) == TotalDuration(fewer[t]) + taken
  {
    var n := |ordered| - 1;
    var x := ordered[n];
    assert ordered == ordered[..n] + [x];
    assert x in multiset(Flatten(rival));
    var j;
    s, j := FindInGroups(rival, x);
    fewer := rival[s := Without(rival[s], j)];
    FlattenWithout(rival, s, j);
    TotalWithout(rival[s], j);
    Cancel(multiset(ordered[..n]), multiset(Flatten(fewer)), x);
  }

  lemma {:induction false} LoadOfSmaller(units: seq<Unit>, n: nat, a: seq<nat>, t: nat)
    requires |a| <= n <= |units|
    ensures Load(Weights(units), a, t) == Load(Weights(units[..n]), a, t)
  {
    if a != [] {
      LoadOfSmaller(units, n, a[..|a| - 1], t);
    }
  }

  lemma FlattenEmpty(groups: seq<seq<Unit>>, t: nat)
    requires t < |groups| && multiset(Flatten(groups)) == multiset{}
    ensures groups[t] == []
  {
    FlattenAround(groups, t);
    assert |multiset(groups[t])| == |groups[t]|;
    assert multiset(groups[t]) <= multiset(Flatten(groups));
  }

  lemma OrderedWeightsDescend(units: seq<Unit>)
    requires ValidDurations(units)
    ensures Descending(Weights(Sort(units, LongestFirst)))
  {
    var ordered := Sort(units, LongestFirst);
    OrdersRank();
    SortSorts(units, LongestFirst);
    forall i | 0 <= i < |ordered| ensures 0 <= ordered[i].durationMicros {
      assert ordered[i] in multiset(units);
    }
    forall i, j | 0 <= i < j < |ordered| ensures ordered[j].durationMicros <= ordered[i].durationMicros {
      assert LongestFirst(ordered[i], ordered[j]);
    }
  }

  lemma DividesOrdered(units: seq<Unit>, rival: seq<seq<Unit>>)
    requires Divides(rival, units)
    ensures |rival| == SHARD_COUNT && Divides(rival, Sort(units, LongestFirst))
  {
  }

  /** The largest shard is at most 31/24 of the largest shard of any division of the same units
      over eight shards, the optimal one included. */
  lemma AssignNearOptimal(units: seq<Unit>, rival: seq<seq<Unit>>)
    requires ValidDurations(units) && Divides(rival, units)
    ensures rival != [] && 24 * LargestTotal(UnitsOf(ShardsOf(units))) <= 31 * LargestTotal(rival)
  {
    hide Sort, Weights, Chosen, Load, TotalDuration, Divides, Descending, Flatten;
    var ordered := Sort(units, LongestFirst);
    DividesOrdered(units, rival);
    var groups, best := UnitsOf(ShardsOf(units)), LargestTotal(rival);
    OrderedWeightsDescend(units);
    var b := RivalAsAssignment(ordered, rival);
    AssignConserves(units);
    var s: nat :| s < |groups| && TotalDuration(groups[s]) == LargestTotal(groups);
    PlacementBound(Weights(ordered), |ordered|, best, b, s);
  }
}
