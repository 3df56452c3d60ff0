/** When imports form a forest below the roots, the closures of the roots' imports split the files. */
module ImportForest {

  import opened ImportGraph
  import opened Lists
  import opened Sorting

  /** Every import is of one of the files, none leads back, no file has two importers, roots have
      none, and every other file has one. */
  ghost predicate Forest(files: set<File>, roots: set<File>, graph: Graph) {
    && graph.Keys == files && roots <= files
    && AllKnown(graph, files) && Acyclic(graph, files)
    && (forall f :: f in files ==> Distinct(graph[f]))
    && OneOwner(graph)
    && (forall f, r :: r in Imports(graph, f) ==> r !in roots)
    && (forall c :: c in files && c !in roots ==> Owned(graph, c))
  }

  ghost predicate OneOwner(graph: Graph) {
    forall f, g, c :: c in Imports(graph, f) && c in Imports(graph, g) ==> f == g
  }

  ghost predicate Owned(graph: Graph, c: File) {
    exists f :: c in Imports(graph, f)
  }

  /** A file a root imports: where an execution unit begins. */
  ghost predicate Entrypoint(roots: set<File>, graph: Graph, entry: File) {
    exists r :: r in roots && entry in Imports(graph, r)
  }

  lemma ReachesLastStep(graph: Graph, f: File, g: File) returns (o: File)
    requires Reaches(graph, f, g) && f != g
    ensures Reaches(graph, f, o) && g in Imports(graph, o)
  {
    var p :| p != [] && Path(graph, p) && p[0] == f && p[|p| - 1] == g;
    o := p[|p| - 2];
    var q := p[..|p| - 1];
    assert Path(graph, q) && q[0] == f && q[|q| - 1] == o;
    assert p[|p| - 2 + 1] in Imports(graph, p[|p| - 2]);
  }

  lemma ReachableIsFile(files: set<File>, graph: Graph, f: File, g: File)
    requires AllKnown(graph, files) && f in files && Reaches(graph, f, g)
    ensures g in files
  {
    var p :| p != [] && Path(graph, p) && p[0] == f && p[|p| - 1] == g;
    FilesPath(files, graph, p);
  }

  lemma {:induction false} FilesPath(files: set<File>, graph: Graph, p: seq<File>)
    requires AllKnown(graph, files) && p != [] && Path(graph, p) && p[0] in files
    ensures p[|p| - 1] in files
  {
    if |p| > 1 {
      assert p[1] in Imports(graph, p[0]);
      assert Path(graph, p[1..]);
      FilesPath(files, graph, p[1..]);
    }
  }

  /** Nothing that is imported reaches a root. */
  lemma ImportedAvoidsRoots(files: set<File>, roots: set<File>, graph: Graph, o: File, c: File, r: File)
    requires Forest(files, roots, graph) && c in Imports(graph, o) && r in roots
    ensures !Reaches(graph, c, r)
  {
    if Reaches(graph, c, r) && c != r {
      var last := ReachesLastStep(graph, c, r);
    }
  }

  ghost function Ahead(files: set<File>, graph: Graph, f: File): set<File> {
    set g | g in files && !Reaches(graph, f, g)
  }

  lemma OwnerReachesMore(files: set<File>, graph: Graph, o: File, f: File)
    requires AllKnown(graph, files) && Acyclic(graph, files) && o in files && f in Imports(graph, o)
    ensures Ahead(files, graph, o) < Ahead(files, graph, f)
  {
    forall g | g in Ahead(files, graph, o) ensures g in Ahead(files, graph, f) {
      if Reaches(graph, f, g) {
        ReachesStep(graph, o, f, g);
      }
    }
    ReachesSelf(graph, o);
    assert o in Ahead(files, graph, f) && o !in Ahead(files, graph, o);
  }

  /** Following importers from any file but a root leads to an entrypoint. */
  lemma {:induction false} EveryFileHasEntrypoint(files: set<File>, roots: set<File>, graph: Graph, f: File)
      returns (entry: File)
    requires Forest(files, roots, graph) && f in files && f !in roots
    ensures Entrypoint(roots, graph, entry) && Reaches(graph, entry, f)
    decreases Ahead(files, graph, f)
  {
    hide Reaches, Acyclic, AllKnown;
    assert Owned(graph, f);
    var o :| f in Imports(graph, o);
    ReachesSelf(graph, f);
    if o in roots {
      entry := f;
    } else {
      OwnerReachesMore(files, graph, o, f);
      entry := EveryFileHasEntrypoint(files, roots, graph, o);
      ReachesStep(graph, o, f, f);
      ReachesTransitive(graph, entry, o, f);
    }
  }

  /** Two entrypoints that reach one file are one entrypoint. */
  lemma {:induction false} OneEntrypoint(files: set<File>, roots: set<File>, graph: Graph, p: seq<File>, q: seq<File>)
    requires Forest(files, roots, graph)
    requires p != [] && Path(graph, p) && Entrypoint(roots, graph, p[0])
    requires q != [] && Path(graph, q) && Entrypoint(roots, graph, q[0])
    requires p[|p| - 1] == q[|q| - 1]
    ensures p[0] == q[0]
    decreases |p|
  {
    hide Reaches, Acyclic, AllKnown;
    if |p| > 1 && |q| > 1 {
      assert p[|p| - 2 + 1] in Imports(graph, p[|p| - 2]);
      assert q[|q| - 2 + 1] in Imports(graph, q[|q| - 2]);
      OneEntrypoint(files, roots, graph, p[..|p| - 1], q[..|q| - 1]);
    } else if |p| > 1 {
      LongerPathEndsElsewhere(files, roots, graph, p, q[0]);
    } else if |q| > 1 {
      LongerPathEndsElsewhere(files, roots, graph, q, p[0]);
    }
  }

  lemma LongerPathEndsElsewhere(files: set<File>, roots: set<File>, graph: Graph, p: seq<File>, entry: File)
    requires Forest(files, roots, graph)
    requires |p| > 1 && Path(graph, p) && Entrypoint(roots, graph, p[0]) && Entrypoint(roots, graph, entry)
    ensures p[|p| - 1] != entry
  {
    hide Acyclic, AllKnown;
    var owner := p[|p| - 2];
    assert p[|p| - 2 + 1] in Imports(graph, owner);
    if p[|p| - 1] == entry {
      var r :| r in roots && entry in Imports(graph, r);
      assert owner == r;
      var q := p[..|p| - 1];
      assert Path(graph, q) && q[0] == p[0] && q[|q| - 1] == r;
      assert Reaches(graph, p[0], r);
      var s :| s in roots && p[0] in Imports(graph, s);
      ImportedAvoidsRoots(files, roots, graph, s, p[0], r);
    }
  }

  lemma EntrypointsDisjoint(files: set<File>, roots: set<File>, graph: Graph, a: File, b: File, f: File)
    requires Forest(files, roots, graph)
    requires Entrypoint(roots, graph, a) && Entrypoint(roots, graph, b)
    requires Reaches(graph, a, f) && Reaches(graph, b, f)
    ensures a == b
  {
    hide Forest, Entrypoint;
    var p :| p != [] && Path(graph, p) && p[0] == a && p[|p| - 1] == f;
    var q :| q != [] && Path(graph, q) && q[0] == b && q[|q| - 1] == f;
    OneEntrypoint(files, roots, graph, p, q);
  }

  // ----- the units

  /** The entrypoints in the order the units are made: root by root, import by import. */
  function Entrypoints(roots: seq<File>, graph: Graph): seq<File> {
    if roots == [] then [] else Imports(graph, roots[0]) + Entrypoints(roots[1..], graph)
  }

  lemma {:induction false} FlattenDistinct(lists: seq<seq<File>>)
    requires forall i :: 0 <= i < |lists| ==> Distinct(lists[i])
    requires forall i, j, f :: 0 <= i < j < |lists| && f in lists[i] ==> f !in lists[j]
    ensures Distinct(Flatten(lists))
  {
    if lists != [] {
      var rest := lists[1..];
      FlattenDistinct(rest);
      FlattenHolds(rest);
      var head, tail := lists[0], Flatten(rest);
      forall f | f in head ensures f !in tail {
        forall i | 0 <= i < |rest| ensures f !in rest[i] {
          assert f in lists[0] && rest[i] == lists[i + 1];
        }
      }
      var all := head + tail;
      forall i, j | 0 <= i < j < |all| ensures all[i] != all[j] {
        if i < |head| <= j {
          assert all[i] in head && all[j] in tail;
        }
      }
    }
  }

  lemma {:induction false} EntrypointsAre(roots: seq<File>, graph: Graph)
    ensures forall e ::
              e in Entrypoints(roots, graph) <==> exists i :: 0 <= i < |roots| && e in Imports(graph, roots[i])
  {
    if roots != [] {
      EntrypointsAre(roots[1..], graph);
      forall e
        ensures e in Entrypoints(roots, graph) <==> exists i :: 0 <= i < |roots| && e in Imports(graph, roots[i])
      {
        if e in Entrypoints(roots[1..], graph) {
          var i :| 0 <= i < |roots[1..]| && e in Imports(graph, roots[1..][i]);
          assert e in Imports(graph, roots[i + 1]);
        }
        if i :| 0 <= i < |roots| && e in Imports(graph, roots[i]) {
          if i > 0 {
            assert e in Imports(graph, roots[1..][i - 1]);
          } else {
            assert e in Imports(graph, roots[0]);
          }
        }
      }
    }
  }

  lemma {:induction false} EntrypointsDistinct(roots: seq<File>, graph: Graph)
    requires Distinct(roots) && OneOwner(graph) && forall r :: r in roots ==> Distinct(Imports(graph, r))
    ensures Distinct(Entrypoints(roots, graph))
  {
    if roots != [] {
      var rest := roots[1..];
      EntrypointsDistinct(rest, graph);
      EntrypointsAre(rest, graph);
      var head, tail := Imports(graph, roots[0]), Entrypoints(rest, graph);
      assert Distinct(head);
      forall e | e in head ensures e !in tail {
        forall i | 0 <= i < |rest| ensures e !in Imports(graph, rest[i]) {
          assert rest[i] == roots[i + 1] && roots[i + 1] != roots[0];
        }
      }
      var all := head + tail;
      forall i, j | 0 <= i < j < |all| ensures all[i] != all[j] {
        if i < |head| <= j {
          assert all[i] in head && all[j] in tail;
        }
      }
    }
  }

  /** The files of every unit, in order: each root alone, then each entrypoint's closure. */
  ghost predicate AreUnits(roots: seq<File>, graph: Graph, units: seq<seq<File>>) {
    var entries := Entrypoints(roots, graph);
    && |units| == |roots| + |entries|
    && (forall i :: 0 <= i < |roots| ==> units[i] == [roots[i]])
    && (forall i :: 0 <= i < |entries| ==> IsClosure(graph, entries[i], units[|roots| + i]))
  }

  lemma EntrypointsAreEntrypoints(roots: seq<File>, graph: Graph, e: File)
    ensures e in Entrypoints(roots, graph) <==> Entrypoint(Members(roots), graph, e)
  {
    EntrypointsAre(roots, graph);
    if i :| 0 <= i < |roots| && e in Imports(graph, roots[i]) {
      assert roots[i] in Members(roots);
    }
    if r :| r in Members(roots) && e in Imports(graph, r) {
      var i :| 0 <= i < |roots| && roots[i] == r;
    }
  }

  lemma ReachableFromEntry(files: set<File>, roots: set<File>, graph: Graph, entry: File, f: File)
    requires Forest(files, roots, graph) && Entrypoint(roots, graph, entry) && Reaches(graph, entry, f)
    ensures f in files && f !in roots
  {
    var r :| r in roots && entry in Imports(graph, r);
    ReachableIsFile(files, graph, entry, f);
    if f in roots {
      ImportedAvoidsRoots(files, roots, graph, r, entry, f);
    }
  }

  lemma UnitIs(roots: seq<File>, graph: Graph, units: seq<seq<File>>, i: nat)
    requires AreUnits(roots, graph, units) && i < |units|
    ensures |units| == |roots| + |Entrypoints(roots, graph)|
    ensures if i < |roots| then units[i] == [roots[i]]
            else
              var entry := Entrypoints(roots, graph)[i - |roots|];
              IsClosure(graph, entry, units[i]) && entry in Entrypoints(roots, graph)
  {
    hide IsClosure, Entrypoints;
    if i >= |roots| {
      assert units[|roots| + (i - |roots|)] == units[i];
    }
  }

  lemma RootsAreFiles(files: set<File>, roots: set<File>, graph: Graph)
    requires Forest(files, roots, graph)
    ensures roots <= files
  {
  }

  /** A unit holds its root, or the files its entrypoint reaches, none of them a root. */
  lemma UnitFile(files: set<File>, roots: seq<File>, graph: Graph, units: seq<seq<File>>, i: nat, f: File)
    requires Forest(files, Members(roots), graph) && AreUnits(roots, graph, units)
    requires i < |units| && f in units[i]
    ensures f in files && |units| == |roots| + |Entrypoints(roots, graph)|
    ensures if i < |roots| then f == roots[i]
            else
              var entry := Entrypoints(roots, graph)[i - |roots|];
              Entrypoint(Members(roots), graph, entry) && Reaches(graph, entry, f) && f !in Members(roots)
  {
    hide Forest, AreUnits, Entrypoints, Reaches;
    UnitIs(roots, graph, units, i);
    RootsAreFiles(files, Members(roots), graph);
    if i < |roots| {
      assert roots[i] in Members(roots);
    } else {
      var entry := Entrypoints(roots, graph)[i - |roots|];
      EntrypointsAreEntrypoints(roots, graph, entry);
      ReachableFromEntry(files, Members(roots), graph, entry, f);
    }
  }

  lemma UnitsHold(files: set<File>, roots: seq<File>, graph: Graph, units: seq<seq<File>>, f: File)
    requires Forest(files, Members(roots), graph) && AreUnits(roots, graph, units)
    ensures f in files <==> exists i :: 0 <= i < |units| && f in units[i]
  {
    hide Forest, Reaches;
    var entries := Entrypoints(roots, graph);
    if f in files && f !in Members(roots) {
      var entry := EveryFileHasEntrypoint(files, Members(roots), graph, f);
      EntrypointsAreEntrypoints(roots, graph, entry);
      var i :| 0 <= i < |entries| && entries[i] == entry;
      assert f in units[|roots| + i];
    } else if f in files {
      var i :| 0 <= i < |roots| && roots[i] == f;
      assert f in units[i];
    }
    if i :| 0 <= i < |units| && f in units[i] {
      UnitFile(files, roots, graph, units, i, f);
    }
  }

  lemma UnitsDisjoint(files: set<File>, roots: seq<File>, graph: Graph, units: seq<seq<File>>, i: nat, j: nat, f: File)
    requires Distinct(roots) && Forest(files, Members(roots), graph) && AreUnits(roots, graph, units)
    requires i < j < |units| && f in units[i]
    ensures f !in units[j]
  {
    hide Forest, Distinct, Reaches, AreUnits, Entrypoint, Entrypoints, Members;
    RootsImportDistinct(files, roots, graph);
    EntrypointsDistinct(roots, graph);
    UnitIs(roots, graph, units, i);
    UnitIs(roots, graph, units, j);
    var entries, n := Entrypoints(roots, graph), |roots|;
    if j < n {
      DistinctAt(roots, i, j);
    } else if i < n {
      RootIsMember(roots, i);
      if f in units[j] {
        UnitFile(files, roots, graph, units, j, f);
      }
    } else {
      DistinctAt(entries, i - n, j - n);
      UnitFile(files, roots, graph, units, i, f);
      if f in units[j] {
        UnitFile(files, roots, graph, units, j, f);
        EntrypointsDisjoint(files, Members(roots), graph, entries[i - n], entries[j - n], f);
      }
    }
  }

  lemma RootIsMember(roots: seq<File>, i: nat)
    requires i < |roots|
    ensures roots[i] in Members(roots)
  {
  }

  lemma RootsImportDistinct(files: set<File>, roots: seq<File>, graph: Graph)
    requires Forest(files, Members(roots), graph)
    ensures OneOwner(graph) && forall r :: r in roots ==> Distinct(Imports(graph, r))
  {
    assert forall r :: r in roots ==> r in Members(roots);
  }

  lemma DistinctAt(s: seq<File>, i: nat, j: nat)
    requires Distinct(s) && i < j < |s|
    ensures s[i] != s[j]
  {
  }

  /** The units split the files: in all, every file is owned and none twice. */
  lemma UnitsPartitionFiles(files: seq<File>, roots: seq<File>, graph: Graph, units: seq<seq<File>>)
    requires Distinct(files) && Distinct(roots)
    requires Forest(Members(files), Members(roots), graph) && AreUnits(roots, graph, units)
    ensures var owned := Flatten(units);
            && Distinct(owned) && (forall f :: f in owned <==> f in files)
            && |owned| == |files|
  {
    var fileSet := Members(files);
    hide Forest, Flatten;
    FlattenHolds(units);
    forall i | 0 <= i < |units| ensures Distinct(units[i]) {
      if i >= |roots| {
        assert IsClosure(graph, Entrypoints(roots, graph)[i - |roots|], units[|roots| + (i - |roots|)]);
      }
    }
    forall i, j, f | 0 <= i < j < |units| && f in units[i] ensures f !in units[j] {
      UnitsDisjoint(fileSet, roots, graph, units, i, j, f);
    }
    FlattenDistinct(units);
    var owned := Flatten(units);
    forall f ensures f in owned <==> f in files {
      UnitsHold(fileSet, roots, graph, units, f);
      assert f in fileSet <==> f in files;
    }
    SameElements(owned, files);
    assert |multiset(owned)| == |owned| && |multiset(files)| == |files|;
  }
}
