/** Longest-processing-time placement against the best placement. */
module LongestProcessingTime {
  // An assignment gives each of the first |a| weights a shard; weights are in whole microseconds.

  const SHARD_COUNT: nat := 8

  function Load(w: seq<int>, a: seq<nat>, t: nat): int
    requires |a| <= |w|
  {
    if a == [] then 0
    else
      var n := |a| - 1;
      Load(w, a[..n], t) + if a[n] == t then w[n] else 0
  }

  /** The first position holding the least value: what sorting by (load, number) puts in front. */
  function Least(loads: seq<int>): (r: nat)
    requires loads != []
    ensures r < |loads|
    ensures forall t :: 0 <= t < |loads| ==> loads[r] <= loads[t]
    ensures forall t :: 0 <= t < r ==> loads[r] < loads[t]
  {
    var n := |loads| - 1;
    if n == 0 then 0
    else
      var r := Least(loads[..n]);
      if loads[n] < loads[r] then n else r
  }

  function Loads(w: seq<int>, a: seq<nat>): (r: seq<int>)
    requires |a| <= |w|
    ensures |r| == SHARD_COUNT
    ensures forall t :: 0 <= t < SHARD_COUNT ==> r[t] == Load(w, a, t)
  {
    seq(SHARD_COUNT, t requires 0 <= t < SHARD_COUNT => Load(w, a, t))
  }

  /** Places the first n weights in order, each on the least loaded shard. */
  function Place(w: seq<int>, n: nat): (a: seq<nat>)
    requires n <= |w|
    ensures |a| == n
    ensures forall i :: 0 <= i < n ==> a[i] < SHARD_COUNT
  {
    if n == 0 then []
    else
      var a := Place(w, n - 1);
      a + [Least(Loads(w, a))]
  }

  // ----- sums over shards

  function Sum(w: seq<int>, n: nat): int
    requires n <= |w|
  {
    if n == 0 then 0 else Sum(w, n - 1) + w[n - 1]
  }

  function Total(w: seq<int>, a: seq<nat>, m: nat): int
    requires |a| <= |w|
  {
    if m == 0 then 0 else Total(w, a, m - 1) + Load(w, a, m - 1)
  }

  lemma {:induction false} TotalOfNone(w: seq<int>, m: nat)
    ensures Total(w, [], m) == 0
  {
    if m > 0 {
      TotalOfNone(w, m - 1);
    }
  }

  lemma {:induction false} TotalStep(w: seq<int>, a: seq<nat>, m: nat)
    requires 0 < |a| <= |w|
    ensures Total(w, a, m) == Total(w, a[..|a| - 1], m) + if a[|a| - 1] < m then w[|a| - 1] else 0
  {
    if m > 0 {
      TotalStep(w, a, m - 1);
    }
  }

  /** Load is conserved: the shard loads of any assignment add up to all the weights placed. */
  lemma {:induction false} LoadConserved(w: seq<int>, a: seq<nat>)
    requires |a| <= |w|
    requires forall i :: 0 <= i < |a| ==> a[i] < SHARD_COUNT
    ensures Total(w, a, SHARD_COUNT) == Sum(w, |a|)
  {
    if a == [] {
      TotalOfNone(w, SHARD_COUNT);
    } else {
      TotalStep(w, a, SHARD_COUNT);
      LoadConserved(w, a[..|a| - 1]);
    }
  }

  lemma {:induction false} TotalAtMost(w: seq<int>, a: seq<nat>, m: nat, bound: int)
    requires |a| <= |w|
    requires forall t :: 0 <= t < m ==> Load(w, a, t) <= bound
    ensures Total(w, a, m) <= m * bound
  {
    if m > 0 {
      TotalAtMost(w, a, m - 1, bound);
    }
  }

  lemma {:induction false} TotalAtLeast(w: seq<int>, a: seq<nat>, m: nat, bound: int)
    requires |a| <= |w|
    requires forall t :: 0 <= t < m ==> bound <= Load(w, a, t)
    ensures m * bound <= Total(w, a, m)
  {
    if m > 0 {
      TotalAtLeast(w, a, m - 1, bound);
    }
  }

  lemma {:induction false} LoadOfPrefix(w: seq<int>, b: seq<nat>, t: nat, n: nat)
    requires n <= |b| <= |w|
    requires forall i :: 0 <= i < |w| ==> 0 <= w[i]
    ensures 0 <= Load(w, b[..n], t) <= Load(w, b, t)
  {
    if |b| == n {
      assert b[..n] == b;
      if n > 0 {
        LoadOfPrefix(w, b[..n - 1], t, n - 1);
        assert b[..n - 1][..n - 1] == b[..n - 1];
      }
    } else {
      LoadOfPrefix(w, b[..|b| - 1], t, n);
      assert b[..|b| - 1][..n] == b[..n];
    }
  }

  // ----- the bound

  ghost predicate Descending(w: seq<int>) {
    && (forall i :: 0 <= i < |w| ==> 0 <= w[i])
    && (forall i, j :: 0 <= i < j < |w| ==> w[j] <= w[i])
  }

  /** Counts weight i twice when it cannot share a shard of size `best` with weight k. */
  function Value(w: seq<int>, k: nat, best: int): (v: seq<int>)
    requires k < |w|
    ensures |v| == k + 1
    ensures forall i :: 0 <= i <= k ==> v[i] == if w[i] + w[k] > best then 2 else 1
  {
    seq(k + 1, i requires 0 <= i <= k => if w[i] + w[k] > best then 2 else 1)
  }

  /** When three weights overfill a shard, a shard whose units are worth three is overfull. */
  lemma {:induction false} ValuablePacking(w: seq<int>, k: nat, best: int, b: seq<nat>, t: nat)
    requires Descending(w) && k < |w| && |b| <= k + 1
    requires 3 * w[k] > best
    ensures var v := Value(w, k, best);
            && 0 <= Load(v, b, t)
            && 0 <= Load(w, b, t)
            && (1 <= Load(v, b, t) ==> w[k] <= Load(w, b, t))
            && (2 <= Load(v, b, t) ==> Load(w, b, t) + w[k] > best)
            && (3 <= Load(v, b, t) ==> Load(w, b, t) > best)
  {
    if b != [] {
      ValuablePacking(w, k, best, b[..|b| - 1], t);
      assert w[k] <= w[|b| - 1];
    }
  }

  /** A shard whose units are worth less than two has room for weight k. */
  lemma {:induction false} CheapShardHasRoom(w: seq<int>, k: nat, best: int, a: seq<nat>, t: nat)
    requires Descending(w) && k < |w| && |a| <= k && w[k] <= best
    requires Load(Value(w, k, best), a, t) < 2
    ensures Load(w, a, t) + w[k] <= best
    ensures 0 <= Load(Value(w, k, best), a, t)
    ensures Load(Value(w, k, best), a, t) == 0 ==> Load(w, a, t) == 0
  {
    var v := Value(w, k, best);
    if a != [] {
      var n := |a| - 1;
      LoadOfPrefix(v, a, t, n);
      CheapShardHasRoom(w, k, best, a[..n], t);
    }
  }

  /** In the rival's shards the first k + 1 weights are worth two each at most. */
  lemma RivalWorth(w: seq<int>, k: nat, best: int, b: seq<nat>)
    requires Descending(w) && k < |w| == |b|
    requires forall i :: 0 <= i < |b| ==> b[i] < SHARD_COUNT
    requires forall t :: 0 <= t < SHARD_COUNT ==> Load(w, b, t) <= best
    requires 3 * w[k] > best
    ensures Sum(Value(w, k, best), k + 1) <= 2 * SHARD_COUNT
  {
    var v, c := Value(w, k, best), b[..k + 1];
    forall t | 0 <= t < SHARD_COUNT ensures Load(v, c, t) <= 2 {
      LoadOfPrefix(w, b, t, k + 1);
      ValuablePacking(w, k, best, c, t);
    }
    TotalAtMost(v, c, SHARD_COUNT, 2);
    LoadConserved(v, c);
  }

  /** So some shard of the first k weights is worth less than two. */
  lemma CheapShard(w: seq<int>, k: nat, best: int, a: seq<nat>) returns (t: nat)
    requires k < |w| && |a| == k && forall i :: 0 <= i < |a| ==> a[i] < SHARD_COUNT
    requires Sum(Value(w, k, best), k + 1) <= 2 * SHARD_COUNT
    ensures t < SHARD_COUNT && Load(Value(w, k, best), a, t) < 2
  {
    var v := Value(w, k, best);
    LoadConserved(v, a);
    if forall t: nat :: t < SHARD_COUNT ==> 2 <= Load(v, a, t) {
      TotalAtLeast(v, a, SHARD_COUNT, 2);
      assert false;
    } else {
      t :| t < SHARD_COUNT && Load(v, a, t) < 2;
    }
  }

  /** If the last unit is too big for averaging, some shard still has room for it. */
  lemma BigUnitFits(w: seq<int>, k: nat, best: int, b: seq<nat>)
    requires Descending(w) && k < |w| == |b|
    requires forall i :: 0 <= i < |b| ==> b[i] < SHARD_COUNT
    requires forall t :: 0 <= t < SHARD_COUNT ==> Load(w, b, t) <= best
    requires 3 * w[k] > best
    ensures Load(w, Place(w, k), Least(Loads(w, Place(w, k)))) + w[k] <= best
  {
    hide Load, Sum, Value;
    var a := Place(w, k);
    UnitFits(w, b, k);
    RivalWorth(w, k, best, b);
    var t := CheapShard(w, k, best, a);
    CheapShardHasRoom(w, k, best, a, t);
    assert Loads(w, a)[t] == Load(w, a, t);
  }

  lemma {:induction false} UnitFits(w: seq<int>, b: seq<nat>, k: nat)
    requires k < |b| <= |w|
    requires forall i :: 0 <= i < |w| ==> 0 <= w[i]
    ensures w[k] <= Load(w, b, b[k])
  {
    LoadOfPrefix(w, b, b[k], k + 1);
    LoadOfPrefix(w, b[..k + 1], b[k], k);
    assert b[..k + 1][..k] == b[..k];
  }

  lemma LeastLoadAtMostAverage(w: seq<int>, a: seq<nat>)
    requires |a| <= |w|
    requires forall i :: 0 <= i < |a| ==> a[i] < SHARD_COUNT
    ensures 8 * Loads(w, a)[Least(Loads(w, a))] <= Sum(w, |a|)
  {
    var loads := Loads(w, a);
    var least := loads[Least(loads)];
    forall t | 0 <= t < 8 ensures least <= Load(w, a, t) {
      assert least <= loads[t];
    }
    TotalAtLeast(w, a, 8, least);
    LoadConserved(w, a);
  }

  lemma PrefixFitsEightShards(w: seq<int>, b: seq<nat>, n: nat, best: int)
    requires Descending(w) && n <= |b| <= |w|
    requires forall i :: 0 <= i < |b| ==> b[i] < SHARD_COUNT
    requires forall t :: 0 <= t < SHARD_COUNT ==> Load(w, b, t) <= best
    ensures Sum(w, n) <= 8 * best
  {
    forall t | 0 <= t < 8 ensures Load(w, b[..n], t) <= best {
      LoadOfPrefix(w, b, t, n);
    }
    TotalAtMost(w, b[..n], 8, best);
    LoadConserved(w, b[..n]);
  }

  /** One placement keeps 24 times the load below 31 times any rival's largest load. */
  lemma PlacementStep(w: seq<int>, k: nat, best: int, b: seq<nat>)
    requires Descending(w) && k < |w| == |b|
    requires forall i :: 0 <= i < |b| ==> b[i] < SHARD_COUNT
    requires forall t :: 0 <= t < SHARD_COUNT ==> Load(w, b, t) <= best
    ensures 24 * (Load(w, Place(w, k), Least(Loads(w, Place(w, k)))) + w[k]) <= 31 * best
  {
    var least := Load(w, Place(w, k), Least(Loads(w, Place(w, k))));
    if 3 * w[k] > best {
      BigUnitFits(w, k, best, b);
      assert 0 <= best by {
        UnitFits(w, b, k);
      }
    } else {
      LeastLoadAtMostAverage(w, Place(w, k));
      PrefixFitsEightShards(w, b, k + 1, best);
    }
  }

  /** The 4/3 - 1/24 bound: on descending weights, no shard of the greedy placement exceeds 31/24
      of the largest shard of any other assignment of the same weights. */
  lemma {:induction false} PlacementBound(w: seq<int>, n: nat, best: int, b: seq<nat>, s: nat)
    requires Descending(w) && n <= |w| == |b| && s < SHARD_COUNT
    requires forall i :: 0 <= i < |b| ==> b[i] < SHARD_COUNT
    requires forall t :: 0 <= t < SHARD_COUNT ==> Load(w, b, t) <= best
    ensures 24 * Load(w, Place(w, n), s) <= 31 * best
  {
    if n == 0 {
      LoadOfPrefix(w, b, s, 0);
    } else {
      var a := Place(w, n - 1);
      assert Place(w, n)[..n - 1] == a;
      PlacementBound(w, n - 1, best, b, s);
      PlacementStep(w, n - 1, best, b);
    }
  }
}
