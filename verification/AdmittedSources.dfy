/** What discovery admits, source by source. */
module AdmittedSources {

  import opened ImportForest
  import opened ImportGraph
  import opened Lists
  import opened Sorting
  import opened TestPaths
  import opened Topology

  /** Relative imports of different test files. */
  ghost predicate PlainImports(specifiers: seq<Specifier>) {
    && (forall i :: 0 <= i < |specifiers| ==>
          specifiers[i].Relative? && IsTestPath(specifiers[i].target))
    && forall i, j :: 0 <= i < j < |specifiers| ==> specifiers[i] != specifiers[j]
  }

  /** A root's source imports nothing, gates its family and keeps its own tests; its loader is nothing
      but imports. */
  ghost predicate SoundRoot(sources: map<File, Source>, root: Root) {
    && root.path in sources && sources[root.path].specifiers == []
    && sources[root.path].gatesFamily && sources[root.path].ownTests == root.ownTests
    && root.loader.onlyImports && PlainImports(root.loader.specifiers)
  }

  /** One file brings in another: a root by its loader, any other by its own imports. */
  ghost predicate BringsIn(sources: map<File, Source>, roots: seq<Root>, f: File, c: File) {
    || (exists i :: 0 <= i < |roots| && RootBringsIn(roots[i], f, c))
    || (NoRoot(roots, f) && f in sources && Relative(c) in sources[f].specifiers)
  }

  ghost predicate RootBringsIn(root: Root, f: File, c: File) {
    root.path == f && Relative(c) in root.loader.specifiers
  }

  ghost predicate NoRoot(roots: seq<Root>, f: File) {
    forall i :: 0 <= i < |roots| ==> roots[i].path != f
  }

  lemma PlainImportsParse(specifiers: seq<Specifier>)
    ensures ImportsParse(specifiers) <==> PlainImports(specifiers)
    ensures ImportsParse(specifiers) ==> forall c :: c in Targets(specifiers) <==> Relative(c) in specifiers
  {
    hide IsTestPath;
    var targets := Targets(specifiers);
    if ImportsParse(specifiers) || PlainImports(specifiers) {
      forall i | 0 <= i < |specifiers| ensures specifiers[i] == Relative(targets[i]) {
      }
    }
    if ImportsParse(specifiers) {
      forall c ensures c in targets <==> Relative(c) in specifiers {
        if c in targets {
          var i :| 0 <= i < |targets| && targets[i] == c;
          assert specifiers[i] == Relative(c);
        }
        if Relative(c) in specifiers {
          var i :| 0 <= i < |specifiers| && specifiers[i] == Relative(c);
          assert targets[i] == c;
        }
      }
    }
  }

  /** The graph's edges are what the files bring in. */
  lemma {:induction false} EdgesAre(sources: map<File, Source>, roots: seq<Root>, f: File, c: File)
    requires SourcesParse(sources, roots) && Distinct(Paths(roots))
    ensures c in Imports(ImportGraphOf(sources, roots), f) <==> BringsIn(sources, roots, f, c)
    decreases roots
  {
    hide ImportsParse, IsTestPath;
    if roots == [] {
      if f in sources {
        PlainImportsParse(sources[f].specifiers);
      }
    } else {
      var n := |roots| - 1;
      var front, last := roots[..n], roots[n];
      FrontParses(sources, roots);
      EdgesAre(sources, front, f, c);
      PlainImportsParse(last.loader.specifiers);
      LastRoot(sources, roots, f, c);
    }
  }

  lemma FrontParses(sources: map<File, Source>, roots: seq<Root>)
    requires roots != [] && SourcesParse(sources, roots) && Distinct(Paths(roots))
    ensures SourcesParse(sources, roots[..|roots| - 1]) && Distinct(Paths(roots[..|roots| - 1]))
    ensures ImportsParse(roots[|roots| - 1].loader.specifiers)
  {
    hide ImportsParse, RootOk;
    var n := |roots| - 1;
    forall i, j | 0 <= i < j < n ensures Paths(roots[..n])[i] != Paths(roots[..n])[j] {
      assert Paths(roots)[i] != Paths(roots)[j];
    }
  }

  lemma LastRoot(sources: map<File, Source>, roots: seq<Root>, f: File, c: File)
    requires roots != [] && Distinct(Paths(roots))
    ensures var n := |roots| - 1;
            BringsIn(sources, roots, f, c) <==>
              if roots[n].path == f then Relative(c) in roots[n].loader.specifiers
              else BringsIn(sources, roots[..n], f, c)
  {
    var n := |roots| - 1;
    var front, last := roots[..n], roots[n];
    forall i | 0 <= i < n ensures front[i].path != last.path {
      assert Paths(roots)[i] != Paths(roots)[n];
    }
    forall i | 0 <= i < n ensures roots[i].path != last.path {
      assert roots[i] == front[i];
    }
    if last.path == f {
      assert Relative(c) in last.loader.specifiers ==> RootBringsIn(roots[n], f, c);
      assert !NoRoot(roots, f);
    } else {
      assert NoRoot(roots, f) <==> NoRoot(front, f);
      if i :| 0 <= i < |roots| && RootBringsIn(roots[i], f, c) {
        assert RootBringsIn(front[i], f, c);
      }
      if i :| 0 <= i < |front| && RootBringsIn(front[i], f, c) {
        assert RootBringsIn(roots[i], f, c);
      }
    }
  }

  /** Imports lead from the first file of the path to the last, one step at a time. */
  ghost predicate Chain(sources: map<File, Source>, roots: seq<Root>, path: seq<File>) {
    forall i :: 0 <= i < |path| - 1 ==> BringsIn(sources, roots, path[i], path[i + 1])
  }

  /** Each source and each root is in order. */
  ghost predicate SourcesInOrder(sources: map<File, Source>, roots: seq<Root>) {
    && (forall f :: f in sources ==> sources[f].safeScratch && PlainImports(sources[f].specifiers))
    && forall i :: 0 <= i < |roots| ==> SoundRoot(sources, roots[i])
  }

  /** Every file but a root is brought in by exactly one file and a root by none, what is brought in is
      a file with text, and no file brings itself in by any way. */
  ghost predicate ImportsInOrder(sources: map<File, Source>, roots: seq<Root>) {
    && (forall f, c :: BringsIn(sources, roots, f, c) ==> c in sources && sources[c].text != [] && NoRoot(roots, c))
    && (forall f, g, c :: BringsIn(sources, roots, f, c) && BringsIn(sources, roots, g, c) ==> f == g)
    && (forall c :: c in sources && NoRoot(roots, c) ==> exists f :: BringsIn(sources, roots, f, c))
    && forall path :: |path| > 1 && path[0] == path[|path| - 1] ==> !Chain(sources, roots, path)
  }

  lemma SourcesParseMeans(sources: map<File, Source>, roots: seq<Root>)
    ensures SourcesParse(sources, roots) <==> SourcesInOrder(sources, roots)
  {
    hide ImportsParse, PlainImports;
    forall specifiers: seq<Specifier> ensures ImportsParse(specifiers) <==> PlainImports(specifiers) {
      PlainImportsParse(specifiers);
    }
    NoImportsParse();
    if SourcesParse(sources, roots) {
      forall i | 0 <= i < |roots| ensures SoundRoot(sources, roots[i]) {
        assert RootOk(sources, roots[i]);
      }
    }
    if forall i :: 0 <= i < |roots| ==> SoundRoot(sources, roots[i]) {
      forall i | 0 <= i < |roots| ensures RootOk(sources, roots[i]) && roots[i].loader.onlyImports {
        assert SoundRoot(sources, roots[i]);
      }
    }
  }

  lemma NoImportsParse()
    ensures PlainImports([])
  {
  }

  lemma PathsAre(roots: seq<Root>, f: File)
    ensures f in Members(Paths(roots)) <==> !NoRoot(roots, f)
  {
    if i :| 0 <= i < |roots| && roots[i].path == f {
      assert Paths(roots)[i] in Paths(roots);
    }
  }

  lemma CircleLeadsBack(graph: Graph, path: seq<File>)
    requires |path| > 1 && path[0] == path[|path| - 1] && Path(graph, path)
    ensures path[1] in Imports(graph, path[0]) && Reaches(graph, path[1], path[0])
  {
    var p := path[1..];
    assert Path(graph, p) && p != [] && p[0] == path[1] && p[|p| - 1] == path[0];
  }

  lemma LeadsBackInCircle(graph: Graph, f: File, c: File)
    requires c in Imports(graph, f) && Reaches(graph, c, f)
    ensures exists path :: |path| > 1 && path[0] == path[|path| - 1] && Path(graph, path)
  {
    var p: seq<File> :| p != [] && Path(graph, p) && p[0] == c && p[|p| - 1] == f;
    var path := [f] + p;
    assert Path(graph, path) && |path| > 1 && path[0] == path[|path| - 1];
  }

  /** A circular path is a file that one of its imports leads back to. */
  lemma CyclesAre(sources: map<File, Source>, roots: seq<Root>, graph: Graph)
    requires graph.Keys == sources.Keys
    requires forall f, c :: c in Imports(graph, f) <==> BringsIn(sources, roots, f, c)
    ensures Acyclic(graph, sources.Keys) <==>
              forall path :: |path| > 1 && path[0] == path[|path| - 1] ==> !Chain(sources, roots, path)
  {
    hide BringsIn, Reaches;
    forall path: seq<File> ensures Path(graph, path) <==> Chain(sources, roots, path) {
    }
    hide Chain, Path;
    forall path | |path| > 1 && path[0] == path[|path| - 1] && Path(graph, path)
      ensures !Acyclic(graph, sources.Keys)
    {
      CircleLeadsBack(graph, path);
    }
    forall f, c | c in Imports(graph, f) && Reaches(graph, c, f)
      ensures exists path :: |path| > 1 && path[0] == path[|path| - 1] && Path(graph, path)
    {
      LeadsBackInCircle(graph, f, c);
    }
  }

  /** Discovery admits exactly the sources that are in order. */
  lemma AdmissibleMeans(sources: map<File, Source>, roots: seq<Root>)
    requires Distinct(Paths(roots))
    ensures Admissible(sources, roots) <==> SourcesInOrder(sources, roots) && ImportsInOrder(sources, roots)
  {
    hide ImportGraphOf, SourcesParse, SourcesInOrder, ImportsInOrder, Forest, ImportedHaveText, Paths;
    SourcesParseMeans(sources, roots);
    if SourcesParse(sources, roots) {
      GraphMeans(sources, roots);
    }
  }

  lemma GraphMeans(sources: map<File, Source>, roots: seq<Root>)
    requires Distinct(Paths(roots)) && SourcesParse(sources, roots)
    ensures var graph := ImportGraphOf(sources, roots);
            Forest(sources.Keys, Members(Paths(roots)), graph) && ImportedHaveText(sources, graph)
            <==> ImportsInOrder(sources, roots)
  {
    hide ImportGraphOf, SourcesParse, Chain, NoRoot, Acyclic, BringsIn, Paths, Forest, ImportedHaveText;
    var graph := ImportGraphOf(sources, roots);
    forall f, c ensures c in Imports(graph, f) <==> BringsIn(sources, roots, f, c) {
      EdgesAre(sources, roots, f, c);
    }
    forall f ensures f in Members(Paths(roots)) <==> !NoRoot(roots, f) {
      PathsAre(roots, f);
    }
    GraphParses(sources, roots);
    CyclesAre(sources, roots, graph);
    RootsAreFiles(sources, roots);
    ForestIs(sources, roots, graph);
  }

  lemma RootsAreFiles(sources: map<File, Source>, roots: seq<Root>)
    requires SourcesParse(sources, roots)
    ensures Members(Paths(roots)) <= sources.Keys
  {
    forall f | f in Members(Paths(roots)) ensures f in sources {
      var i :| 0 <= i < |roots| && Paths(roots)[i] == f;
      assert RootOk(sources, roots[i]);
    }
  }

  lemma ForestIs(sources: map<File, Source>, roots: seq<Root>, graph: Graph)
    requires graph.Keys == sources.Keys && Members(Paths(roots)) <= sources.Keys
    requires forall f :: f in graph ==> Distinct(graph[f])
    requires forall f, c :: c in Imports(graph, f) <==> BringsIn(sources, roots, f, c)
    requires forall f :: f in Members(Paths(roots)) <==> !NoRoot(roots, f)
    ensures Forest(sources.Keys, Members(Paths(roots)), graph) && ImportedHaveText(sources, graph) <==>
              && Acyclic(graph, sources.Keys)
              && (forall f, c :: BringsIn(sources, roots, f, c) ==>
                    c in sources && sources[c].text != [] && NoRoot(roots, c))
              && (forall f, g, c :: BringsIn(sources, roots, f, c) && BringsIn(sources, roots, g, c) ==> f == g)
              && forall c :: c in sources && NoRoot(roots, c) ==> exists f :: BringsIn(sources, roots, f, c)
  {
    hide BringsIn, NoRoot, Members, Paths, Acyclic, Distinct;
    OwnedIs(sources, roots, graph);
    if ImportedHaveText(sources, graph) {
      forall f, c | BringsIn(sources, roots, f, c) ensures c in sources && sources[c].text != [] {
        assert c in Imports(graph, f) && f in sources;
      }
    }
  }

  lemma OwnedIs(sources: map<File, Source>, roots: seq<Root>, graph: Graph)
    requires forall f, c :: c in Imports(graph, f) <==> BringsIn(sources, roots, f, c)
    ensures forall c :: Owned(graph, c) <==> exists f :: BringsIn(sources, roots, f, c)
  {
    hide BringsIn;
  }
}
