/** The language's stable `sort`, as a specification. */
module Sorting {
  // Insertion from the right, an element going before those it does not exceed. Any stable sort
  // returns this sequence.

  function Insert<T>(x: T, s: seq<T>, atMost: (T, T) -> bool): (r: seq<T>)
    ensures |r| == |s| + 1
    ensures multiset(r) == multiset(s) + multiset{x}
  {
    if s == [] then [x]
    else if atMost(x, s[0]) then [x] + s
    else
      assert s == [s[0]] + s[1..];
      [s[0]] + Insert(x, s[1..], atMost)
  }

  function Sort<T>(s: seq<T>, atMost: (T, T) -> bool): (r: seq<T>)
    ensures |r| == |s|
    ensures multiset(r) == multiset(s)
  {
    if s == [] then []
    else
      assert s == [s[0]] + s[1..];
      Insert(s[0], Sort(s[1..], atMost), atMost)
  }

  ghost predicate Sorted<T>(s: seq<T>, atMost: (T, T) -> bool) {
    forall i, j :: 0 <= i < j < |s| ==> atMost(s[i], s[j])
  }

  /** A comparator that ranks any two values and does so transitively. */
  ghost predicate Ranks<T(!new)>(atMost: (T, T) -> bool) {
    && (forall x, y :: atMost(x, y) || atMost(y, x))
    && (forall x, y, z :: atMost(x, y) && atMost(y, z) ==> atMost(x, z))
  }

  lemma {:induction false} InsertSorts<T(!new)>(x: T, s: seq<T>, atMost: (T, T) -> bool)
    requires Ranks(atMost) && Sorted(s, atMost)
    ensures Sorted(Insert(x, s, atMost), atMost)
  {
    if s == [] || atMost(x, s[0]) {
    } else {
      InsertSorts(x, s[1..], atMost);
      var r := Insert(x, s[1..], atMost);
      forall j | 0 <= j < |r| ensures atMost(s[0], r[j]) {
        assert r[j] in multiset(r);
        assert r[j] == x || r[j] in multiset(s[1..]);
        assert r[j] == x || r[j] in s[1..];
      }
    }
  }

  lemma {:induction false} SortSorts<T(!new)>(s: seq<T>, atMost: (T, T) -> bool)
    requires Ranks(atMost)
    ensures Sorted(Sort(s, atMost), atMost)
  {
    if s != [] {
      SortSorts(s[1..], atMost);
      InsertSorts(s[0], Sort(s[1..], atMost), atMost);
    }
  }

  /** The elements that tie with x, in order. */
  function Tied<T>(s: seq<T>, x: T, atMost: (T, T) -> bool): seq<T> {
    if s == [] then []
    else (if atMost(x, s[0]) && atMost(s[0], x) then [s[0]] else []) + Tied(s[1..], x, atMost)
  }

  lemma TiedFirst<T>(y: T, s: seq<T>, x: T, atMost: (T, T) -> bool)
    ensures Tied([y] + s, x, atMost) == (if atMost(x, y) && atMost(y, x) then [y] else []) + Tied(s, x, atMost)
  {
    assert ([y] + s)[1..] == s;
  }

  /** Two elements that do not both tie with x may change places. */
  lemma TiedSwap<T>(y: T, z: T, s: seq<T>, x: T, atMost: (T, T) -> bool)
    requires !(atMost(x, y) && atMost(y, x)) || !(atMost(x, z) && atMost(z, x))
    ensures Tied([y] + ([z] + s), x, atMost) == Tied([z] + ([y] + s), x, atMost)
  {
    hide Tied;
    TiedFirst(y, [z] + s, x, atMost);
    TiedFirst(z, s, x, atMost);
    TiedFirst(z, [y] + s, x, atMost);
    TiedFirst(y, s, x, atMost);
  }

  lemma {:induction false} InsertIsStable<T(!new)>(y: T, s: seq<T>, x: T, atMost: (T, T) -> bool)
    requires Ranks(atMost)
    ensures Tied(Insert(y, s, atMost), x, atMost) == Tied([y] + s, x, atMost)
  {
    hide Tied;
    if s != [] && !atMost(y, s[0]) {
      var z, rest := s[0], s[1..];
      InsertIsStable(y, rest, x, atMost);
      TiedFirst(z, Insert(y, rest, atMost), x, atMost);
      TiedFirst(z, [y] + rest, x, atMost);
      TiedSwap(y, z, rest, x, atMost);
      assert s == [z] + rest;
    } else if s == [] {
      assert [y] + s == [y];
    }
  }

  /** Sorting keeps the order of elements that tie. */
  lemma {:induction false} SortIsStable<T(!new)>(s: seq<T>, x: T, atMost: (T, T) -> bool)
    requires Ranks(atMost)
    ensures Tied(Sort(s, atMost), x, atMost) == Tied(s, x, atMost)
  {
    if s != [] {
      hide Tied;
      var first, rest := s[0], s[1..];
      SortIsStable(rest, x, atMost);
      InsertIsStable(first, Sort(rest, atMost), x, atMost);
      TiedFirst(first, Sort(rest, atMost), x, atMost);
      TiedFirst(first, rest, x, atMost);
      assert s == [first] + rest;
    }
  }

  lemma FrontsAgree<T>(s: seq<T>, t: seq<T>, atMost: (T, T) -> bool)
    requires s != [] && Sorted(s, atMost) && Sorted(t, atMost) && multiset(s) == multiset(t)
    requires forall x, y :: x in s && y in s && atMost(x, y) && atMost(y, x) ==> x == y
    ensures t != [] && s[0] == t[0]
  {
    assert s[0] in multiset(t);
    assert s[0] in t;
    assert t[0] in multiset(s);
    assert t[0] in s;
    var i :| 0 <= i < |t| && t[i] == s[0];
    var j :| 0 <= j < |s| && s[j] == t[0];
    assert i == 0 || atMost(t[0], t[i]);
    assert j == 0 || atMost(s[0], s[j]);
  }

  lemma RestsAgree<T>(s: seq<T>, t: seq<T>)
    requires s != [] && t != [] && s[0] == t[0] && multiset(s) == multiset(t)
    ensures multiset(s[1..]) == multiset(t[1..])
  {
    assert s == [s[0]] + s[1..] && t == [t[0]] + t[1..];
    assert multiset(s[1..]) == multiset(s) - multiset{s[0]};
    assert multiset(t[1..]) == multiset(t) - multiset{t[0]};
  }

  /** Two sorted arrangements of the same elements agree when no two distinct ones tie. */
  lemma {:induction false} SortedUnique<T>(s: seq<T>, t: seq<T>, atMost: (T, T) -> bool)
    requires Sorted(s, atMost) && Sorted(t, atMost)
    requires multiset(s) == multiset(t)
    requires forall x, y :: x in s && y in s && atMost(x, y) && atMost(y, x) ==> x == y
    ensures s == t
  {
    if s == [] {
      assert |multiset(t)| == 0;
    } else {
      FrontsAgree(s, t, atMost);
      RestsAgree(s, t);
      SortedUnique(s[1..], t[1..], atMost);
      assert s == [s[0]] + s[1..] && t == [t[0]] + t[1..];
    }
  }

  lemma SortOfPermutation<T(!new)>(s: seq<T>, t: seq<T>, atMost: (T, T) -> bool)
    requires Ranks(atMost)
    requires multiset(s) == multiset(t)
    requires forall x, y :: x in s && y in s && atMost(x, y) && atMost(y, x) ==> x == y
    ensures Sort(s, atMost) == Sort(t, atMost)
  {
    SortSorts(s, atMost);
    SortSorts(t, atMost);
    var r := Sort(s, atMost);
    forall x | x in r ensures x in s {
      assert x in multiset(r);
    }
    SortedUnique(r, Sort(t, atMost), atMost);
  }

  // ----- lists without repetition

  predicate Distinct<T(==)>(s: seq<T>) {
    forall i, j :: 0 <= i < j < |s| ==> s[i] != s[j]
  }

  lemma DistinctAppend<T>(s: seq<T>, x: T)
    ensures Distinct(s + [x]) <==> Distinct(s) && x !in s
  {
    var t := s + [x];
    if Distinct(t) {
      forall i | 0 <= i < |s| ensures s[i] != x {
        assert t[i] == s[i] && t[|s|] == x;
      }
      forall i, j | 0 <= i < j < |s| ensures s[i] != s[j] {
        assert t[i] == s[i] && t[j] == s[j];
      }
    }
  }

  lemma DistinctPrefix<T>(s: seq<T>, n: nat)
    requires n <= |s| && Distinct(s)
    ensures Distinct(s[..n])
  {
  }

  lemma {:induction false} DistinctIsOnce<T>(s: seq<T>)
    ensures Distinct(s) <==> forall x :: x in s ==> multiset(s)[x] == 1
  {
    if s != [] {
      var front, last := s[..|s| - 1], s[|s| - 1];
      DistinctIsOnce(front);
      assert s == front + [last];
      assert last in s;
      if Distinct(s) {
        assert Distinct(front) && last !in front;
        forall x | x in s ensures multiset(s)[x] == 1 {
          assert x == last || x in front;
        }
      } else if forall x :: x in s ==> multiset(s)[x] == 1 {
        assert last !in multiset(front);
        forall x | x in front ensures multiset(front)[x] == 1 {
          assert x in s;
        }
      }
    }
  }

  lemma PermutationKeepsDistinct<T>(s: seq<T>, t: seq<T>)
    requires multiset(s) == multiset(t) && Distinct(s)
    ensures Distinct(t) && forall x :: x in s <==> x in t
  {
    DistinctIsOnce(s);
    DistinctIsOnce(t);
    forall x ensures x in s <==> x in t {
      assert x in multiset(s) <==> x in multiset(t);
    }
  }

  lemma SameElements<T>(s: seq<T>, t: seq<T>)
    requires Distinct(s) && Distinct(t) && forall x :: x in s <==> x in t
    ensures multiset(s) == multiset(t)
  {
    DistinctIsOnce(s);
    DistinctIsOnce(t);
    forall x ensures multiset(s)[x] == multiset(t)[x] {
      assert x in multiset(s) <==> x in s;
      assert x in multiset(t) <==> x in t;
    }
  }

  // ----- sums over a list

  function Sum<T>(s: seq<T>, weigh: T -> int): int {
    if s == [] then 0 else weigh(s[0]) + Sum(s[1..], weigh)
  }

  lemma {:induction false} SumInserted<T>(x: T, s: seq<T>, atMost: (T, T) -> bool, weigh: T -> int)
    ensures Sum(Insert(x, s, atMost), weigh) == weigh(x) + Sum(s, weigh)
  {
    if s == [] || atMost(x, s[0]) {
      assert ([x] + s)[1..] == s;
    } else {
      SumInserted(x, s[1..], atMost, weigh);
      var r := Insert(x, s[1..], atMost);
      assert ([s[0]] + r)[1..] == r;
    }
  }

  /** Sorting changes no sum. */
  lemma {:induction false} SumSorted<T>(s: seq<T>, atMost: (T, T) -> bool, weigh: T -> int)
    ensures Sum(Sort(s, atMost), weigh) == Sum(s, weigh)
  {
    if s != [] {
      SumSorted(s[1..], atMost, weigh);
      SumInserted(s[0], Sort(s[1..], atMost), atMost, weigh);
    }
  }

  lemma {:induction false} SumAppend<T>(s: seq<T>, t: seq<T>, weigh: T -> int)
    ensures Sum(s + t, weigh) == Sum(s, weigh) + Sum(t, weigh)
  {
    if s == [] {
      assert s + t == t;
    } else {
      SumAppend(s[1..], t, weigh);
      assert (s + t)[1..] == s[1..] + t;
    }
  }
}
