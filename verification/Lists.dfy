/** Lists as sets of their members, and lists of lists end to end. */
module Lists {

  function Members<T(==)>(s: seq<T>): set<T> {
    set x | x in s
  }

  function Flatten<T>(lists: seq<seq<T>>): seq<T> {
    if lists == [] then [] else lists[0] + Flatten(lists[1..])
  }

  lemma {:induction false} FlattenAppend<T>(a: seq<seq<T>>, b: seq<seq<T>>)
    ensures Flatten(a + b) == Flatten(a) + Flatten(b)
  {
    if a == [] {
      assert a + b == b;
    } else {
      FlattenAppend(a[1..], b);
      assert (a + b)[1..] == a[1..] + b;
    }
  }

  lemma FlattenLast<T>(lists: seq<seq<T>>)
    requires lists != []
    ensures Flatten(lists) == Flatten(lists[..|lists| - 1]) + lists[|lists| - 1]
  {
    var front, last := lists[..|lists| - 1], [lists[|lists| - 1]];
    assert lists == front + last;
    FlattenAppend(front, last);
    assert last[1..] == [];
  }

  lemma {:induction false} FlattenHolds<T>(lists: seq<seq<T>>)
    ensures forall x :: x in Flatten(lists) <==> exists i :: 0 <= i < |lists| && x in lists[i]
  {
    if lists != [] {
      var rest := lists[1..];
      FlattenHolds(rest);
      forall x ensures x in Flatten(lists) <==> exists i :: 0 <= i < |lists| && x in lists[i] {
        if x in Flatten(rest) {
          var i :| 0 <= i < |rest| && x in rest[i];
          assert x in lists[i + 1];
        }
        if i :| 0 <= i < |lists| && x in lists[i] {
          if i > 0 {
            assert x in rest[i - 1];
          }
        }
      }
    }
  }
}
