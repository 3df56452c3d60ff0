/** The serializer over the program's objects. */
module CanonicalJson {
  // References may be shared or may form cycles; a set of ancestors, added to and restored around
  // each container, decides when to refuse.

  import opened Json
  import opened Results
  import opened Sorting
  import opened Text

  /** What a slot or property holds; NotData stands for undefined, functions, symbols, big
      integers, NaN and the infinities. */
  datatype Value =
    | NullValue
    | BoolValue(truth: bool)
    | NumberValue(number: int)
    | StringValue(text: Utf16)
    | NotData
    | Reference(address: nat)

  datatype Entry = Entry(key: Utf16, value: Value)

  /** An array may have holes; an object of a class of its own is not plain. */
  datatype Container =
    | ArrayObject(slots: seq<Option<Value>>)
    | PlainObject(entries: seq<Entry>)
    | OtherObject

  type Memory = map<nat, Container>

  datatype TypeError = NotCanonicalJsonData

  ghost predicate Closed(memory: Memory, v: Value) {
    v.Reference? ==> v.address in memory
  }

  /** References lead somewhere, and no object holds a key twice. */
  ghost predicate Sound(memory: Memory) {
    forall a :: a in memory ==>
      match memory[a]
      case ArrayObject(slots) => forall i :: 0 <= i < |slots| && slots[i].Some? ==> Closed(memory, slots[i].value)
      case PlainObject(entries) =>
        && (forall i :: 0 <= i < |entries| ==> Closed(memory, entries[i].value))
        && (forall i, k :: 0 <= i < k < |entries| ==> entries[i].key != entries[k].key)
      case OtherObject => true
  }

  /** j is the finite tree found by following v, through no container of `avoiding`. */
  ghost predicate Denotes(memory: Memory, v: Value, j: Json, avoiding: set<nat>)
    decreases j
  {
    match v
    case NullValue => j == Null
    case BoolValue(truth) => j == Bool(truth)
    case NumberValue(number) => j == Num(number)
    case StringValue(text) => j == Str(text)
    case NotData => false
    case Reference(a) =>
      a in memory && a !in avoiding &&
      match memory[a]
      case ArrayObject(slots) =>
        j.Arr? && |j.items| == |slots|
        && forall i :: 0 <= i < |slots| ==> slots[i].Some? && Denotes(memory, slots[i].value, j.items[i], avoiding)
      case PlainObject(entries) =>
        j.Obj? && |j.fields| == |entries|
        && forall i :: 0 <= i < |entries| ==>
             j.fields[i].key == entries[i].key && Denotes(memory, entries[i].value, j.fields[i].value, avoiding)
      case OtherObject => false
  }

  lemma {:induction false} DenotesOne(memory: Memory, v: Value, j: Json, k: Json, p: set<nat>, q: set<nat>)
    requires Denotes(memory, v, j, p) && Denotes(memory, v, k, q)
    ensures j == k
    decreases j
  {
    match j {
      case Arr(items) =>
        forall i | 0 <= i < |items| ensures items[i] == k.items[i] {
          DenotesOne(memory, memory[v.address].slots[i].value, items[i], k.items[i], p, q);
        }
        assert items == k.items;
      case Obj(fields) =>
        forall i | 0 <= i < |fields| ensures fields[i] == k.fields[i] {
          DenotesOne(memory, memory[v.address].entries[i].value, fields[i].value, k.fields[i].value, p, q);
        }
        assert fields == k.fields;
      case _ =>
    }
  }

  lemma {:induction false} AvoidingLess(memory: Memory, v: Value, j: Json, more: set<nat>, less: set<nat>)
    requires Denotes(memory, v, j, more) && less <= more
    ensures Denotes(memory, v, j, less)
    decreases j
  {
    match j {
      case Arr(items) =>
        forall i | 0 <= i < |items| ensures Denotes(memory, memory[v.address].slots[i].value, items[i], less) {
          AvoidingLess(memory, memory[v.address].slots[i].value, items[i], more, less);
        }
      case Obj(fields) =>
        forall i | 0 <= i < |fields|
          ensures Denotes(memory, memory[v.address].entries[i].value, fields[i].value, less)
        {
          AvoidingLess(memory, memory[v.address].entries[i].value, fields[i].value, more, less);
        }
      case _ =>
    }
  }

  /** A part of a finite tree never leads back to the whole. */
  lemma {:induction false} PartAvoidsWhole(memory: Memory, v: Value, j: Json, a: nat, whole: Json, avoiding: set<nat>)
    requires Denotes(memory, v, j, avoiding) && Denotes(memory, Reference(a), whole, {}) && j < whole
    ensures Denotes(memory, v, j, avoiding + {a})
    decreases j
  {
    if v == Reference(a) {
      DenotesOne(memory, v, j, whole, avoiding, {});
    } else {
      match j {
        case Arr(items) =>
          forall i | 0 <= i < |items|
            ensures Denotes(memory, memory[v.address].slots[i].value, items[i], avoiding + {a})
          {
            PartAvoidsWhole(memory, memory[v.address].slots[i].value, items[i], a, whole, avoiding);
          }
        case Obj(fields) =>
          forall i | 0 <= i < |fields|
            ensures Denotes(memory, memory[v.address].entries[i].value, fields[i].value, avoiding + {a})
          {
            PartAvoidsWhole(memory, memory[v.address].entries[i].value, fields[i].value, a, whole, avoiding);
          }
        case _ =>
      }
    }
  }

  /** The parts of a container's tree avoid the container as well. */
  lemma ItemDenotes(memory: Memory, a: nat, j: Json, i: nat, avoiding: set<nat>)
    requires Denotes(memory, Reference(a), j, avoiding) && memory[a].ArrayObject? && i < |memory[a].slots|
    ensures memory[a].slots[i].Some?
    ensures Denotes(memory, memory[a].slots[i].value, j.items[i], avoiding + {a})
  {
    AvoidingLess(memory, Reference(a), j, avoiding, {});
    PartAvoidsWhole(memory, memory[a].slots[i].value, j.items[i], a, j, avoiding);
  }

  lemma EntryDenotes(memory: Memory, a: nat, j: Json, i: nat, avoiding: set<nat>)
    requires Denotes(memory, Reference(a), j, avoiding) && memory[a].PlainObject? && i < |memory[a].entries|
    ensures exists part :: Denotes(memory, memory[a].entries[i].value, part, avoiding + {a})
  {
    AvoidingLess(memory, Reference(a), j, avoiding, {});
    PartAvoidsWhole(memory, memory[a].entries[i].value, j.fields[i].value, a, j, avoiding);
  }

  // ----- the text of a container from the texts of its parts

  lemma CanonicalArray(items: seq<Json>, parts: seq<Utf16>)
    requires |parts| == |items| && forall i :: 0 <= i < |items| ==> parts[i] == Canonical(items[i])
    ensures Canonical(Arr(items)) == [OPEN_BRACKET] + Join(parts) + [CLOSE_BRACKET]
  {
    var normal := Normal(Arr(items)).items;
    assert seq(|normal|, i requires 0 <= i < |normal| => Print(normal[i])) == parts;
  }

  predicate EntryAtMost(x: Entry, y: Entry) {
    AtMost(x.key, y.key)
  }

  /** An entry with its value's tree, keys sorted. */
  function NormalField(trees: map<Entry, Json>, e: Entry): Field {
    Field(e.key, if e in trees then Normal(trees[e]) else Null)
  }

  function NormalEntries(trees: map<Entry, Json>, entries: seq<Entry>): (r: seq<Field>)
    ensures |r| == |entries|
    ensures forall i :: 0 <= i < |r| ==> r[i] == NormalField(trees, entries[i])
  {
    seq(|entries|, i requires 0 <= i < |entries| => NormalField(trees, entries[i]))
  }

  lemma NormalFieldKey(trees: map<Entry, Json>, e: Entry, entries: seq<Entry>)
    ensures forall i :: 0 <= i < |entries| ==>
              (EntryAtMost(e, entries[i]) <==> KeyAtMost(NormalField(trees, e), NormalField(trees, entries[i])))
  {
    hide AtMost;
  }

  lemma NormalFirst(trees: map<Entry, Json>, e: Entry, entries: seq<Entry>)
    ensures NormalEntries(trees, [e] + entries) == [NormalField(trees, e)] + NormalEntries(trees, entries)
  {
    hide NormalField;
  }

  lemma NormalRest(trees: map<Entry, Json>, entries: seq<Entry>)
    requires entries != []
    ensures NormalEntries(trees, entries) != []
    ensures NormalEntries(trees, entries)[0] == NormalField(trees, entries[0])
    ensures NormalEntries(trees, entries)[1..] == NormalEntries(trees, entries[1..])
  {
    hide NormalField;
  }

  lemma {:induction false} InsertEntry(trees: map<Entry, Json>, e: Entry, entries: seq<Entry>)
    ensures NormalEntries(trees, Insert(e, entries, EntryAtMost))
            == Insert(NormalField(trees, e), NormalEntries(trees, entries), KeyAtMost)
  {
    hide AtMost, NormalField, NormalEntries, KeyAtMost, EntryAtMost;
    if entries == [] {
      NormalNone(trees);
      NormalFirst(trees, e, []);
      assert [e] + [] == [e] && [NormalField(trees, e)] + [] == [NormalField(trees, e)];
    } else {
      NormalFieldKey(trees, e, entries);
      NormalRest(trees, entries);
      if EntryAtMost(e, entries[0]) {
        NormalFirst(trees, e, entries);
      } else {
        InsertEntry(trees, e, entries[1..]);
        NormalFirst(trees, entries[0], Insert(e, entries[1..], EntryAtMost));
      }
    }
  }

  lemma NormalNone(trees: map<Entry, Json>)
    ensures NormalEntries(trees, []) == []
  {
  }

  /** Sorting the keys first and serializing each value after gives the same order as sorting the
      serialized entries. */
  lemma {:induction false} SortEntries(trees: map<Entry, Json>, entries: seq<Entry>)
    ensures NormalEntries(trees, Sort(entries, EntryAtMost)) == Sort(NormalEntries(trees, entries), KeyAtMost)
  {
    hide AtMost, Insert, NormalField, NormalEntries;
    if entries != [] {
      SortEntries(trees, entries[1..]);
      InsertEntry(trees, entries[0], Sort(entries[1..], EntryAtMost));
      assert NormalEntries(trees, entries)[1..] == NormalEntries(trees, entries[1..]);
    }
  }

  lemma CanonicalObject(trees: map<Entry, Json>, entries: seq<Entry>, fields: seq<Field>, parts: seq<Utf16>)
    requires |fields| == |entries| == |parts|
    requires forall i :: 0 <= i < |entries| ==>
             entries[i] in trees && fields[i] == Field(entries[i].key, trees[entries[i]])
    requires var sorted := Sort(entries, EntryAtMost);
             forall i :: 0 <= i < |sorted| ==>
               sorted[i] in trees && parts[i] == Quote(sorted[i].key) + [COLON] + Canonical(trees[sorted[i]])
    ensures Canonical(Obj(fields)) == [OPEN_BRACE] + Join(parts) + [CLOSE_BRACE]
  {
    hide Sort, EntryAtMost, KeyAtMost, Join, Quote;
    var sorted := Sort(entries, EntryAtMost);
    SortEntries(trees, entries);
    assert NormalEntries(trees, entries) == NormalFields(fields);
    NormalObject(fields);
    var normal := Normal(Obj(fields)).fields;
    assert normal == NormalEntries(trees, sorted);
    assert seq(|normal|, i requires 0 <= i < |normal| => Quote(normal[i].key) + [COLON] + Print(normal[i].value))
        == parts;
  }

  class Ancestors {
    var members: set<nat>

    constructor ()
      ensures members == {}
    {
      members := {};
    }
  }

  /** Serializes exactly the values that unfold to a finite tree of plain data, as the canonical
      text of that tree, and leaves the ancestors as they were. */
  method Serialize(memory: Memory, value: Value, ancestors: Ancestors) returns (r: Result<Utf16, TypeError>)
    requires Sound(memory) && Closed(memory, value)
    modifies ancestors
    ensures ancestors.members == old(ancestors.members)
    ensures r.Ok? ==> exists j :: Denotes(memory, value, j, ancestors.members) && r.value == Canonical(j)
    ensures r.Err? ==> forall j :: !Denotes(memory, value, j, ancestors.members)
    decreases memory.Keys - ancestors.members, 1
  {
    match value {
      case NullValue =>
        assert Denotes(memory, value, Null, ancestors.members);
        return Ok(NULL_TEXT);
      case BoolValue(truth) =>
        assert Denotes(memory, value, Bool(truth), ancestors.members);
        return Ok(if truth then TRUE_TEXT else FALSE_TEXT);
      case NumberValue(number) =>
        assert Denotes(memory, value, Num(number), ancestors.members);
        return Ok(PrintNumber(number));
      case StringValue(text) =>
        assert Denotes(memory, value, Str(text), ancestors.members);
        return Ok(Quote(text));
      case NotData =>
        return Err(NotCanonicalJsonData);
      case Reference(a) =>
        if a in ancestors.members {
          return Err(NotCanonicalJsonData);
        }
        match memory[a] {
          case ArrayObject(slots) =>
            ancestors.members := ancestors.members + {a};
            r := SerializeSlots(memory, a, ancestors);
            ancestors.members := ancestors.members - {a};
          case PlainObject(entries) =>
            ancestors.members := ancestors.members + {a};
            r := SerializeEntries(memory, a, ancestors);
            ancestors.members := ancestors.members - {a};
          case OtherObject =>
            return Err(NotCanonicalJsonData);
        }
    }
  }

  method SerializeSlots(memory: Memory, a: nat, ancestors: Ancestors) returns (r: Result<Utf16, TypeError>)
    requires Sound(memory) && a in memory && memory[a].ArrayObject? && a in ancestors.members
    modifies ancestors
    ensures ancestors.members == old(ancestors.members)
    ensures r.Ok? ==> exists j :: Denotes(memory, Reference(a), j, ancestors.members - {a}) && r.value == Canonical(j)
    ensures r.Err? ==> forall j :: !Denotes(memory, Reference(a), j, ancestors.members - {a})
    decreases memory.Keys - ancestors.members, 2
  {
    var slots := memory[a].slots;
    ghost var within, around := ancestors.members, ancestors.members - {a};
    assert around + {a} == within;
    var parts: seq<Utf16> := [];
    ghost var items: seq<Json> := [];
    for index := 0 to |slots|
      invariant ancestors.members == within
      invariant |parts| == |items| == index
      invariant forall i :: 0 <= i < index ==>
                  slots[i].Some? && Denotes(memory, slots[i].value, items[i], around) && parts[i] == Canonical(items[i])
    {
      if slots[index].None? {
        return Err(NotCanonicalJsonData);
      }
      var part := Serialize(memory, slots[index].value, ancestors);
      if part.Err? {
        forall j ensures !Denotes(memory, Reference(a), j, around) {
          if Denotes(memory, Reference(a), j, around) {
            ItemDenotes(memory, a, j, index, around);
          }
        }
        return part;
      }
      ghost var item :| Denotes(memory, slots[index].value, item, within) && part.value == Canonical(item);
      AvoidingLess(memory, slots[index].value, item, within, around);
      parts, items := parts + [part.value], items + [item];
    }
    CanonicalArray(items, parts);
    assert Denotes(memory, Reference(a), Arr(items), around);
    return Ok([OPEN_BRACKET] + Join(parts) + [CLOSE_BRACKET]);
  }

  /** The first n entries have been serialized: `trees` holds what each denotes. */
  ghost predicate Serialized(memory: Memory, sorted: seq<Entry>, trees: map<Entry, Json>, parts: seq<Utf16>,
                             avoiding: set<nat>, n: nat)
    requires n <= |sorted|
  {
    |parts| == n
    && forall i :: 0 <= i < n ==>
         && sorted[i] in trees && Denotes(memory, sorted[i].value, trees[sorted[i]], avoiding)
         && parts[i] == Quote(sorted[i].key) + [COLON] + Canonical(trees[sorted[i]])
  }

  lemma SerializedOneMore(memory: Memory, sorted: seq<Entry>, trees: map<Entry, Json>, parts: seq<Utf16>,
                          avoiding: set<nat>, n: nat, tree: Json)
    requires n < |sorted| && Serialized(memory, sorted, trees, parts, avoiding, n)
    requires Denotes(memory, sorted[n].value, tree, avoiding)
    ensures Serialized(memory, sorted, trees[sorted[n] := tree],
                       parts + [Quote(sorted[n].key) + [COLON] + Canonical(tree)], avoiding, n + 1)
  {
    hide Denotes, Quote, Canonical;
    if sorted[n] in trees {
      forall i | 0 <= i < n && sorted[i] == sorted[n] ensures trees[sorted[i]] == tree {
        DenotesOne(memory, sorted[i].value, trees[sorted[i]], tree, avoiding, avoiding);
      }
    }
  }

  lemma AllSerialized(memory: Memory, a: nat, trees: map<Entry, Json>, parts: seq<Utf16>, avoiding: set<nat>)
      returns (j: Json)
    requires a in memory && memory[a].PlainObject? && a !in avoiding
    requires var sorted := Sort(memory[a].entries, EntryAtMost);
             Serialized(memory, sorted, trees, parts, avoiding, |sorted|)
    ensures Denotes(memory, Reference(a), j, avoiding)
    ensures Canonical(j) == [OPEN_BRACE] + Join(parts) + [CLOSE_BRACE]
  {
    hide Canonical, Join, Quote, Sort, EntryAtMost;
    var entries := memory[a].entries;
    var sorted := Sort(entries, EntryAtMost);
    var fields := seq(|entries|, i requires 0 <= i < |entries| =>
                        Field(entries[i].key, if entries[i] in trees then trees[entries[i]] else Null));
    forall i | 0 <= i < |entries|
      ensures entries[i] in trees && Denotes(memory, entries[i].value, fields[i].value, avoiding)
    {
      assert entries[i] in multiset(sorted);
      var p :| 0 <= p < |sorted| && sorted[p] == entries[i];
    }
    CanonicalObject(trees, entries, fields, parts);
    j := Obj(fields);
  }

  method SerializeEntries(memory: Memory, a: nat, ancestors: Ancestors) returns (r: Result<Utf16, TypeError>)
    requires Sound(memory) && a in memory && memory[a].PlainObject? && a in ancestors.members
    modifies ancestors
    ensures ancestors.members == old(ancestors.members)
    ensures r.Ok? ==> exists j :: Denotes(memory, Reference(a), j, ancestors.members - {a}) && r.value == Canonical(j)
    ensures r.Err? ==> forall j :: !Denotes(memory, Reference(a), j, ancestors.members - {a})
    decreases memory.Keys - ancestors.members, 2
  {
    hide Denotes, Canonical, Join, Quote, Serialized, Sort, EntryAtMost;
    var entries := memory[a].entries;
    var sorted := Sort(entries, EntryAtMost);
    ghost var within, around := ancestors.members, ancestors.members - {a};
    assert around + {a} == within;
    var parts: seq<Utf16> := [];
    ghost var trees: map<Entry, Json> := map[];
    NothingSerialized(memory, sorted, around);
    for index := 0 to |sorted|
      invariant ancestors.members == within
      invariant Serialized(memory, sorted, trees, parts, around, index)
    {
      assert sorted[index] in multiset(entries);
      ghost var place :| 0 <= place < |entries| && entries[place] == sorted[index];
      var part := Serialize(memory, sorted[index].value, ancestors);
      if part.Err? {
        forall j ensures !Denotes(memory, Reference(a), j, around) {
          if Denotes(memory, Reference(a), j, around) {
            EntryDenotes(memory, a, j, place, around);
          }
        }
        return part;
      }
      ghost var tree :| Denotes(memory, sorted[index].value, tree, within) && part.value == Canonical(tree);
      AvoidingLess(memory, sorted[index].value, tree, within, around);
      SerializedOneMore(memory, sorted, trees, parts, around, index, tree);
      parts := parts + [Quote(sorted[index].key) + [COLON] + part.value];
      trees := trees[sorted[index] := tree];
    }
    ghost var j := AllSerialized(memory, a, trees, parts, around);
    return Ok([OPEN_BRACE] + Join(parts) + [CLOSE_BRACE]);
  }

  lemma NothingSerialized(memory: Memory, sorted: seq<Entry>, avoiding: set<nat>)
    ensures Serialized(memory, sorted, map[], [], avoiding, 0)
  {
  }

  lemma {:induction false} DenotedWellFormed(memory: Memory, v: Value, j: Json)
    requires Sound(memory) && Denotes(memory, v, j, {})
    ensures WellFormed(j)
    decreases j
  {
    match j {
      case Arr(items) =>
        forall i | 0 <= i < |items| ensures WellFormed(items[i]) {
          DenotedWellFormed(memory, memory[v.address].slots[i].value, items[i]);
        }
      case Obj(fields) =>
        forall i | 0 <= i < |fields| ensures WellFormed(fields[i].value) {
          DenotedWellFormed(memory, memory[v.address].entries[i].value, fields[i].value);
        }
      case _ =>
    }
  }

  /** `canonicalJson`: text for exactly the values that are finite trees of plain data. */
  method CanonicalText(memory: Memory, value: Value) returns (r: Result<Utf16, TypeError>)
    requires Sound(memory) && Closed(memory, value)
    ensures r.Ok? <==> exists j :: Denotes(memory, value, j, {})
    ensures forall j :: Denotes(memory, value, j, {}) ==> WellFormed(j) && r == Ok(Canonical(j))
  {
    var ancestors := new Ancestors();
    r := Serialize(memory, value, ancestors);
    forall j | Denotes(memory, value, j, {}) ensures WellFormed(j) && r == Ok(Canonical(j)) {
      DenotedWellFormed(memory, value, j);
      var k :| Denotes(memory, value, k, {}) && r.value == Canonical(k);
      DenotesOne(memory, value, j, k, {}, {});
    }
  }
}
