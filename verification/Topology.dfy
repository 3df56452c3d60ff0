/** Discovery of the workflow-test topology: which sources are admitted, and the execution units
    they give. */
module Topology {

  import opened ImportForest
  import opened ImportGraph
  import opened Lists
  import opened Results
  import opened Sorting
  import opened TestPaths
  import opened Text

  /** An import of a test file: the path it resolves to, or a specifier that is not relative. */
  datatype Specifier = Relative(target: File) | NotRelative(name: Utf16)

  /** What discovery looks at in a test source: its text, the test files it imports, and the outcome
      of the textual checks. */
  datatype Source = Source(text: Utf16, specifiers: seq<Specifier>, safeScratch: bool, gatesFamily: bool, ownTests: nat)

  /** A root, how many tests of its own it must keep, and its family loader. */
  datatype Root = Root(path: File, ownTests: nat, loader: Loader)

  datatype Loader = Loader(onlyImports: bool, specifiers: seq<Specifier>)

  datatype Unit = Unit(entrypoint: File, ownedPhysicalFiles: seq<File>)

  datatype Topology = Topology(physicalFiles: seq<File>, units: seq<Unit>)

  datatype TopologyError =
    | CheckoutScratch(file: File)
    | RootMissing(root: File)
    | RootImports(root: File)
    | RootNotGated(root: File)
    | RootTestCount(root: File)
    | NonRelativeImport
    | ImportedPath(file: File)
    | DuplicateImports
    | LoaderStatements
    | ImportsFailed(imports: ImportError)
    | UnknownPhysicalTest(owner: File, imported: File)
    | DuplicateOwners(imported: File, prior: File, owner: File)
    | RootImported(root: File)
    | AbsentFromFamilies(files: seq<File>)
    | OwnedSet(owned: FileSetError)
    | NotExactInventory

  /** Errors raised before the units are made. */
  predicate Early(e: TopologyError) {
    !e.OwnedSet? && !e.NotExactInventory?
  }

  /** Errors not raised by the search for owners. */
  predicate NotOfOwners(e: TopologyError) {
    Early(e) && !e.UnknownPhysicalTest? && !e.DuplicateOwners?
  }

  // ----- imports of one source

  predicate ImportsParse(specifiers: seq<Specifier>) {
    && (forall i :: 0 <= i < |specifiers| ==> specifiers[i].Relative? && IsTestPath(specifiers[i].target))
    && Distinct(Targets(specifiers))
  }

  function Targets(specifiers: seq<Specifier>): (r: seq<File>)
    ensures |r| == |specifiers|
    ensures forall i :: 0 <= i < |r| && specifiers[i].Relative? ==> r[i] == specifiers[i].target
  {
    seq(|specifiers|, i requires 0 <= i < |specifiers| =>
          match specifiers[i]
          case Relative(target) => target
          case NotRelative(name) => name)
  }

  /** `parseTestImports`, after the text has been split into import specifiers. */
  method ParseTestImports(specifiers: seq<Specifier>) returns (r: Result<seq<File>, TopologyError>)
    ensures r.Ok? <==> ImportsParse(specifiers)
    ensures r.Err? ==> NotOfOwners(r.error)
    ensures r.Ok? ==> r.value == Targets(specifiers)
  {
    hide IsTestPath, Distinct;
    var imports: seq<File> := [];
    for i := 0 to |specifiers|
      invariant forall k :: 0 <= k < i ==> specifiers[k].Relative? && IsTestPath(specifiers[k].target)
      invariant |imports| == i && forall k :: 0 <= k < i ==> imports[k] == Targets(specifiers)[k]
    {
      if specifiers[i].NotRelative? {
        return Err(NonRelativeImport);
      }
      if !IsTestPath(specifiers[i].target) {
        return Err(ImportedPath(specifiers[i].target));
      }
      imports := imports + [specifiers[i].target];
    }
    assert imports == Targets(specifiers);
    if !Distinct(imports) {
      return Err(DuplicateImports);
    }
    return Ok(imports);
  }

  // ----- what is admitted

  function Paths(roots: seq<Root>): (r: seq<File>)
    ensures |r| == |roots| && forall i :: 0 <= i < |r| ==> r[i] == roots[i].path
  {
    seq(|roots|, i requires 0 <= i < |roots| => roots[i].path)
  }

  predicate RootOk(sources: map<File, Source>, root: Root) {
    root.path in sources &&
    var source := sources[root.path];
    ImportsParse(source.specifiers) && source.specifiers == [] && source.gatesFamily && source.ownTests == root.ownTests
  }

  /** The imports of each file, a root's being those of its loader. */
  function ImportGraphOf(sources: map<File, Source>, roots: seq<Root>): Graph
    decreases roots
  {
    if roots == [] then map f | f in sources :: Targets(sources[f].specifiers)
    else
      var last := roots[|roots| - 1];
      ImportGraphOf(sources, roots[..|roots| - 1])[last.path := Targets(last.loader.specifiers)]
  }

  predicate SourcesParse(sources: map<File, Source>, roots: seq<Root>) {
    && (forall f :: f in sources ==> sources[f].safeScratch && ImportsParse(sources[f].specifiers))
    && (forall i :: 0 <= i < |roots| ==>
          RootOk(sources, roots[i]) && roots[i].loader.onlyImports && ImportsParse(roots[i].loader.specifiers))
  }

  /** An imported file has a source that is not the empty text: the source tests `!sources[imported]`. */
  predicate ImportedHaveText(sources: map<File, Source>, graph: Graph) {
    forall f, c :: f in sources && c in Imports(graph, f) ==> c in sources && sources[c].text != []
  }

  /** `sources[file]` is truthy. */
  predicate HasText(sources: map<File, Source>, file: File) {
    file in sources && sources[file].text != []
  }

  /** What the search for owners can refuse: an import without text, or with two importers. */
  predicate OwnersFail(sources: map<File, Source>, graph: Graph, e: TopologyError) {
    match e
    case UnknownPhysicalTest(owner, imported) => imported in Imports(graph, owner) && !HasText(sources, imported)
    case DuplicateOwners(imported, prior, owner) =>
      prior != owner && imported in Imports(graph, prior) && imported in Imports(graph, owner)
    case _ => false
  }

  /** An import refused as unknown although its file is there, with the empty text. */
  predicate EmptyImport(sources: map<File, Source>, graph: Graph, e: TopologyError) {
    e.UnknownPhysicalTest? && e.imported in Imports(graph, e.owner)
    && e.imported in sources && sources[e.imported].text == []
  }

  ghost predicate Admissible(sources: map<File, Source>, roots: seq<Root>) {
    var graph := ImportGraphOf(sources, roots);
    && SourcesParse(sources, roots)
    && Forest(sources.Keys, Members(Paths(roots)), graph)
    && ImportedHaveText(sources, graph)
  }

  /** Everything up to the owners is in order, but some import has no text. */
  ghost predicate OnlyTextMissing(sources: map<File, Source>, roots: seq<Root>) {
    var graph := ImportGraphOf(sources, roots);
    && SourcesParse(sources, roots) && AllKnown(graph, sources.Keys) && Acyclic(graph, sources.Keys) && OneOwner(graph)
    && !ImportedHaveText(sources, graph)
  }

  // ----- the parts of discovery

  method CheckRoot(sources: map<File, Source>, root: Root) returns (r: Option<TopologyError>)
    ensures r.None? <==> RootOk(sources, root)
    ensures r.Some? ==> NotOfOwners(r.value)
  {
    hide ImportsParse;
    if root.path !in sources {
      return Some(RootMissing(root.path));
    }
    var source := sources[root.path];
    var imports := ParseTestImports(source.specifiers);
    if imports.Err? {
      return Some(imports.error);
    }
    if |imports.value| > 0 {
      return Some(RootImports(root.path));
    }
    if !source.gatesFamily {
      return Some(RootNotGated(root.path));
    }
    if source.ownTests != root.ownTests {
      return Some(RootTestCount(root.path));
    }
    return None;
  }

  method CheckSources(physicalFiles: seq<File>, sources: map<File, Source>, roots: seq<Root>)
    returns (r: Option<TopologyError>)
    requires Members(physicalFiles) == sources.Keys
    ensures r.None? <==> (forall f :: f in sources ==> sources[f].safeScratch)
                         && (forall i :: 0 <= i < |roots| ==> RootOk(sources, roots[i]))
    ensures r.Some? ==> NotOfOwners(r.value)
  {
    hide RootOk;
    for i := 0 to |physicalFiles|
      invariant forall k :: 0 <= k < i ==> physicalFiles[k] in sources && sources[physicalFiles[k]].safeScratch
    {
      assert physicalFiles[i] in Members(physicalFiles);
      if !sources[physicalFiles[i]].safeScratch {
        return Some(CheckoutScratch(physicalFiles[i]));
      }
    }
    forall f | f in sources ensures sources[f].safeScratch {
      assert f in Members(physicalFiles);
    }
    for i := 0 to |roots|
      invariant forall k :: 0 <= k < i ==> RootOk(sources, roots[k])
    {
      var bad := CheckRoot(sources, roots[i]);
      if bad.Some? {
        return bad;
      }
    }
    return None;
  }

  /** The graph before the roots' loaders are added. */
  method ReadImports(physicalFiles: seq<File>, sources: map<File, Source>) returns (r: Result<Graph, TopologyError>)
    requires Members(physicalFiles) == sources.Keys
    ensures r.Ok? <==> forall f :: f in sources ==> ImportsParse(sources[f].specifiers)
    ensures r.Ok? ==> r.value == map f | f in sources :: Targets(sources[f].specifiers)
    ensures r.Err? ==> NotOfOwners(r.error)
  {
    hide ImportsParse, Targets;
    var graph: Graph := map[];
    for i := 0 to |physicalFiles|
      invariant graph.Keys == Members(physicalFiles[..i])
      invariant forall f :: f in graph ==>
                  f in sources && ImportsParse(sources[f].specifiers) && graph[f] == Targets(sources[f].specifiers)
    {
      assert physicalFiles[i] in Members(physicalFiles);
      var imports := ParseTestImports(sources[physicalFiles[i]].specifiers);
      if imports.Err? {
        return Err(imports.error);
      }
      graph := graph[physicalFiles[i] := imports.value];
      assert physicalFiles[..i + 1] == physicalFiles[..i] + [physicalFiles[i]];
    }
    assert physicalFiles[..|physicalFiles|] == physicalFiles;
    return Ok(graph);
  }

  method ReadSources(physicalFiles: seq<File>, sources: map<File, Source>, roots: seq<Root>)
    returns (r: Result<Graph, TopologyError>)
    requires Members(physicalFiles) == sources.Keys
    ensures r.Ok? <==> SourcesParse(sources, roots)
    ensures r.Ok? ==> r.value == ImportGraphOf(sources, roots)
    ensures r.Err? ==> NotOfOwners(r.error)
  {
    hide ImportsParse, RootOk, Targets;
    var bad := CheckSources(physicalFiles, sources, roots);
    if bad.Some? {
      return Err(bad.value);
    }
    var read := ReadImports(physicalFiles, sources);
    if read.Err? {
      return read;
    }
    var graph := read.value;
    assert roots[..0] == [];
    for i := 0 to |roots|
      invariant graph == ImportGraphOf(sources, roots[..i])
      invariant forall k :: 0 <= k < i ==> roots[k].loader.onlyImports && ImportsParse(roots[k].loader.specifiers)
    {
      if !roots[i].loader.onlyImports {
        return Err(LoaderStatements);
      }
      var imports := ParseTestImports(roots[i].loader.specifiers);
      if imports.Err? {
        return Err(imports.error);
      }
      graph := graph[roots[i].path := imports.value];
      assert roots[..i + 1][..i] == roots[..i];
    }
    assert roots[..|roots|] == roots;
    return Ok(graph);
  }

  /** Every import list of the graph is one that parsed. */
  lemma {:induction false} GraphParses(sources: map<File, Source>, roots: seq<Root>)
    requires SourcesParse(sources, roots)
    ensures var graph := ImportGraphOf(sources, roots);
            && graph.Keys == sources.Keys
            && forall f :: f in graph ==> Distinct(graph[f]) && forall c :: c in graph[f] ==> IsTestPath(c)
    decreases roots
  {
    hide IsTestPath, Distinct;
    if roots == [] {
      forall f | f in sources
        ensures Distinct(Targets(sources[f].specifiers))
        ensures forall c :: c in Targets(sources[f].specifiers) ==> IsTestPath(c)
      {
        assert ImportsParse(sources[f].specifiers);
      }
    } else {
      var front, last := roots[..|roots| - 1], roots[|roots| - 1];
      assert RootOk(sources, last) && ImportsParse(last.loader.specifiers);
      GraphParses(sources, front);
      forall c | c in Targets(last.loader.specifiers) ensures IsTestPath(c) {
        var i :| 0 <= i < |last.loader.specifiers| && Targets(last.loader.specifiers)[i] == c;
      }
    }
  }

  /** One owner's turn of the loop over the graph: its imports get their importer. */
  method AddOwner(owner: File, imports: seq<File>, sources: map<File, Source>, incoming: map<File, File>)
    returns (r: Result<map<File, File>, TopologyError>)
    requires Distinct(imports)
    ensures r.Ok? <==> forall c :: c in imports ==> c in sources && sources[c].text != [] && c !in incoming
    ensures r.Err? ==>
              match r.error
              case UnknownPhysicalTest(o, c) => o == owner && c in imports && !HasText(sources, c)
              case DuplicateOwners(c, prior, o) => o == owner && c in imports && c in incoming && prior == incoming[c]
              case _ => false
    ensures r.Ok? ==> r.value.Keys == incoming.Keys + Members(imports)
    ensures r.Ok? ==> forall c :: c in r.value ==> r.value[c] == if c in incoming then incoming[c] else owner
  {
    var more := incoming;
    for i := 0 to |imports|
      invariant more.Keys == incoming.Keys + Members(imports[..i])
      invariant forall c :: c in more ==> more[c] == if c in incoming then incoming[c] else owner
      invariant forall k :: 0 <= k < i ==>
                  imports[k] in sources && sources[imports[k]].text != [] && imports[k] !in incoming
    {
      var imported := imports[i];
      assert imported in imports && imported !in imports[..i];
      if imported !in sources || sources[imported].text == [] {
        return Err(UnknownPhysicalTest(owner, imported));
      }
      if imported in more {
        return Err(DuplicateOwners(imported, more[imported], owner));
      }
      more := more[imported := owner];
      assert imports[..i + 1] == imports[..i] + [imported];
    }
    assert imports[..|imports|] == imports;
    return Ok(more);
  }

  /** The imports of the first n files have their importer in `incoming`, and nothing else has. */
  ghost predicate OwnersOf(files: seq<File>, n: nat, sources: map<File, Source>, graph: Graph,
                           incoming: map<File, File>)
    requires n <= |files|
  {
    && (forall c :: c in incoming ==> incoming[c] in files[..n] && c in Imports(graph, incoming[c]))
    && (forall f, c :: f in files[..n] && c in Imports(graph, f) ==>
          c in incoming && incoming[c] == f && c in sources && sources[c].text != [])
  }

  lemma OwnersOfOneMore(files: seq<File>, n: nat, sources: map<File, Source>, graph: Graph,
                        incoming: map<File, File>, more: map<File, File>)
    requires n < |files| && Distinct(files) && OwnersOf(files, n, sources, graph, incoming)
    requires var imports := Imports(graph, files[n]);
             && (forall c :: c in imports ==> c in sources && sources[c].text != [] && c !in incoming)
             && more.Keys == incoming.Keys + Members(imports)
             && (forall c :: c in more ==> more[c] == if c in incoming then incoming[c] else files[n])
    ensures OwnersOf(files, n + 1, sources, graph, more)
  {
    hide Imports, Distinct;
    assert files[..n + 1] == files[..n] + [files[n]];
    forall f, c | f in files[..n + 1] && c in Imports(graph, f)
      ensures c in more && more[c] == f && c in sources && sources[c].text != []
    {
      if f !in files[..n] {
        assert f == files[n];
      }
    }
  }

  lemma OwnersRefuted(files: seq<File>, n: nat, sources: map<File, Source>, graph: Graph, incoming: map<File, File>)
    requires n < |files| && Distinct(files) && OwnersOf(files, n, sources, graph, incoming)
    requires Members(files) == sources.Keys
    requires !(forall c :: c in Imports(graph, files[n]) ==> c in sources && sources[c].text != [] && c !in incoming)
    ensures !(ImportedHaveText(sources, graph) && OneOwner(graph))
    ensures forall c :: c in Imports(graph, files[n]) && c in incoming ==>
              incoming[c] != files[n] && c in Imports(graph, incoming[c])
  {
    hide Imports;
    assert files[n] in Members(files) && files[n] !in files[..n];
  }

  /** The importer of every imported file: refuses an import without text or with two importers. */
  method FindOwners(physicalFiles: seq<File>, sources: map<File, Source>, graph: Graph)
    returns (r: Result<map<File, File>, TopologyError>)
    requires Distinct(physicalFiles) && Members(physicalFiles) == sources.Keys == graph.Keys
    requires forall f :: f in graph ==> Distinct(graph[f])
    ensures r.Ok? <==> ImportedHaveText(sources, graph) && OneOwner(graph)
    ensures r.Err? ==> Early(r.error) && OwnersFail(sources, graph, r.error)
    ensures r.Ok? ==> forall c :: c in r.value <==> Owned(graph, c)
  {
    hide ImportedHaveText, OneOwner, Owned, OwnersOf, Distinct;
    var incoming: map<File, File> := map[];
    NoOwners(physicalFiles, sources, graph);
    for i := 0 to |physicalFiles|
      invariant OwnersOf(physicalFiles, i, sources, graph, incoming)
    {
      assert physicalFiles[i] in Members(physicalFiles);
      var more := AddOwner(physicalFiles[i], graph[physicalFiles[i]], sources, incoming);
      if more.Err? {
        OwnersRefuted(physicalFiles, i, sources, graph, incoming);
        return Err(more.error);
      }
      OwnersOfOneMore(physicalFiles, i, sources, graph, incoming, more.value);
      incoming := more.value;
    }
    AllOwners(physicalFiles, sources, graph, incoming);
    return Ok(incoming);
  }

  lemma NoOwners(files: seq<File>, sources: map<File, Source>, graph: Graph)
    ensures OwnersOf(files, 0, sources, graph, map[])
  {
  }

  lemma AllOwners(files: seq<File>, sources: map<File, Source>, graph: Graph, incoming: map<File, File>)
    requires Members(files) == sources.Keys == graph.Keys
    requires OwnersOf(files, |files|, sources, graph, incoming)
    ensures ImportedHaveText(sources, graph) && OneOwner(graph)
    ensures forall c :: c in incoming <==> Owned(graph, c)
  {
    assert files[..|files|] == files;
    forall f, c | c in Imports(graph, f) ensures f in files && c in incoming && incoming[c] == f && Owned(graph, c) {
      assert f in Members(files);
    }
    forall f, g, c | c in Imports(graph, f) && c in Imports(graph, g) ensures f == g {
      assert incoming[c] == f;
    }
  }

  function OwnedFiles(units: seq<Unit>): (r: seq<seq<File>>)
    ensures |r| == |units| && forall i :: 0 <= i < |r| ==> r[i] == units[i].ownedPhysicalFiles
  {
    seq(|units|, i requires 0 <= i < |units| => units[i].ownedPhysicalFiles)
  }

  /** The units of a graph: their entrypoints, and what each owns. */
  ghost predicate DescribeUnits(roots: seq<File>, graph: Graph, units: seq<Unit>) {
    && AreUnits(roots, graph, OwnedFiles(units))
    && forall i :: 0 <= i < |units| ==> units[i].entrypoint == (roots + Entrypoints(roots, graph))[i]
  }

  method UnitOf(entrypoint: File, graph: Graph) returns (unit: Unit)
    ensures unit.entrypoint == entrypoint && IsClosure(graph, entrypoint, unit.ownedPhysicalFiles)
  {
    var collected := CollectClosure(entrypoint, graph);
    SortedFiles(collected);
    return Unit(entrypoint, Sort(collected, AtMost));
  }

  ghost predicate UnitFor(graph: Graph, entry: File, unit: Unit) {
    unit.entrypoint == entry && IsClosure(graph, entry, unit.ownedPhysicalFiles)
  }

  /** The roots' units and those of the entrypoints so far. */
  ghost predicate UnitsSoFar(roots: seq<File>, graph: Graph, units: seq<Unit>, entries: seq<File>) {
    && |units| == |roots| + |entries|
    && (forall k :: 0 <= k < |roots| ==> units[k] == Unit(roots[k], [roots[k]]))
    && (forall k :: 0 <= k < |entries| ==> UnitFor(graph, entries[k], units[|roots| + k]))
  }

  lemma OneMoreUnit(roots: seq<File>, graph: Graph, units: seq<Unit>, entries: seq<File>, unit: Unit)
    requires UnitsSoFar(roots, graph, units, entries)
    requires IsClosure(graph, unit.entrypoint, unit.ownedPhysicalFiles)
    ensures UnitsSoFar(roots, graph, units + [unit], entries + [unit.entrypoint])
  {
    hide IsClosure;
  }

  method AddEntrypoints(roots: seq<File>, graph: Graph, imports: seq<File>, units: seq<Unit>, ghost entries: seq<File>)
    returns (more: seq<Unit>)
    requires UnitsSoFar(roots, graph, units, entries)
    ensures UnitsSoFar(roots, graph, more, entries + imports)
  {
    hide UnitsSoFar, IsClosure;
    more := units;
    assert entries + imports[..0] == entries;
    for j := 0 to |imports|
      invariant UnitsSoFar(roots, graph, more, entries + imports[..j])
    {
      var unit := UnitOf(imports[j], graph);
      OneMoreUnit(roots, graph, more, entries + imports[..j], unit);
      more := more + [unit];
      assert entries + imports[..j] + [imports[j]] == entries + imports[..j + 1];
    }
    assert imports[..|imports|] == imports;
  }

  method BuildUnits(roots: seq<File>, graph: Graph) returns (units: seq<Unit>)
    ensures DescribeUnits(roots, graph, units)
  {
    units := [];
    for i := 0 to |roots|
      invariant |units| == i && forall k :: 0 <= k < i ==> units[k] == Unit(roots[k], [roots[k]])
    {
      units := units + [Unit(roots[i], [roots[i]])];
    }
    ghost var entries: seq<File> := [];
    assert UnitsSoFar(roots, graph, units, entries);
    hide UnitsSoFar, IsClosure;
    assert roots[0..] == roots;
    for i := 0 to |roots|
      invariant entries + Entrypoints(roots[i..], graph) == Entrypoints(roots, graph)
      invariant UnitsSoFar(roots, graph, units, entries)
    {
      assert roots[i..][1..] == roots[i + 1..];
      var imports := Imports(graph, roots[i]);
      units := AddEntrypoints(roots, graph, imports, units, entries);
      entries := entries + imports;
    }
    assert entries == Entrypoints(roots, graph);
    AreDescribed(roots, graph, units);
  }

  lemma AreDescribed(roots: seq<File>, graph: Graph, units: seq<Unit>)
    requires UnitsSoFar(roots, graph, units, Entrypoints(roots, graph))
    ensures DescribeUnits(roots, graph, units)
  {
    hide IsClosure, Entrypoints;
    var entries := Entrypoints(roots, graph);
    forall i | 0 <= i < |units| ensures units[i].entrypoint == (roots + entries)[i] {
      if i >= |roots| {
        assert UnitFor(graph, entries[i - |roots|], units[|roots| + (i - |roots|)]);
      }
    }
  }

  /** What the later checks of discovery demand of the graph. */
  ghost predicate Rooted(files: seq<File>, roots: seq<File>, graph: Graph) {
    && (forall i :: 0 <= i < |roots| ==> !Owned(graph, roots[i]))
    && (forall i :: 0 <= i < |files| && files[i] !in roots ==> Owned(graph, files[i]))
  }

  method CheckRooted(physicalFiles: seq<File>, roots: seq<File>, ghost graph: Graph, incoming: map<File, File>)
    returns (r: Option<TopologyError>)
    requires forall c :: c in incoming <==> Owned(graph, c)
    ensures r.None? <==> Rooted(physicalFiles, roots, graph)
    ensures r.Some? ==> NotOfOwners(r.value)
  {
    hide Owned;
    for i := 0 to |roots|
      invariant forall k :: 0 <= k < i ==> roots[k] !in incoming
    {
      if roots[i] in incoming {
        return Some(RootImported(roots[i]));
      }
    }
    var unowned: seq<File> := [];
    for i := 0 to |physicalFiles|
      invariant unowned == [] <==> forall k :: 0 <= k < i && physicalFiles[k] !in roots ==> physicalFiles[k] in incoming
    {
      if physicalFiles[i] !in roots && physicalFiles[i] !in incoming {
        unowned := unowned + [physicalFiles[i]];
      }
    }
    if |unowned| > 0 {
      return Some(AbsentFromFamilies(unowned));
    }
    return None;
  }

  lemma RootedIsForest(files: seq<File>, sources: map<File, Source>, roots: seq<Root>)
    requires Members(files) == sources.Keys && SourcesParse(sources, roots)
    ensures var graph := ImportGraphOf(sources, roots);
            Forest(sources.Keys, Members(Paths(roots)), graph)
            <==> AllKnown(graph, sources.Keys) && Acyclic(graph, sources.Keys) && OneOwner(graph)
                 && Rooted(files, Paths(roots), graph)
  {
    GraphParses(sources, roots);
    var graph, paths := ImportGraphOf(sources, roots), Paths(roots);
    forall i | 0 <= i < |roots| ensures paths[i] in sources {
      assert RootOk(sources, roots[i]);
    }
    hide ImportGraphOf, SourcesParse, AllKnown, Acyclic, OneOwner, Distinct, IsTestPath;
    if Forest(sources.Keys, Members(paths), graph) {
      forall i | 0 <= i < |files| && files[i] !in paths ensures Owned(graph, files[i]) {
        assert files[i] in Members(files);
      }
      forall i | 0 <= i < |paths| ensures !Owned(graph, paths[i]) {
        assert paths[i] in Members(paths);
      }
    }
    if Rooted(files, paths, graph) {
      forall c | c in sources && c !in Members(paths) ensures Owned(graph, c) {
        assert c in Members(files);
      }
      forall f, r | r in Imports(graph, f) ensures r !in Members(paths) {
        assert Owned(graph, r);
        assert forall i :: 0 <= i < |paths| ==> paths[i] != r;
      }
    }
  }

  /** In an admissible topology the two exactness checks at the end pass. */
  lemma UnitsAreExact(files: seq<File>, sources: map<File, Source>, roots: seq<Root>, units: seq<Unit>)
    requires Distinct(files) && Members(files) == sources.Keys
    requires Distinct(Paths(roots)) && forall i :: 0 <= i < |roots| ==> IsTestPath(roots[i].path)
    requires Admissible(sources, roots) && DescribeUnits(Paths(roots), ImportGraphOf(sources, roots), units)
    ensures var owned := Flatten(OwnedFiles(units));
            && Distinct(owned) && |owned| == |files| && (forall f :: f in owned <==> f in files)
            && forall f :: f in owned ==> IsTestPath(f)
  {
    hide IsTestPath, Distinct, Forest, AreUnits, Flatten, ImportGraphOf;
    var graph, paths := ImportGraphOf(sources, roots), Paths(roots);
    UnitsPartitionFiles(files, paths, graph, OwnedFiles(units));
    GraphParses(sources, roots);
    forall f | f in files ensures IsTestPath(f) {
      if f in paths {
        var i :| 0 <= i < |paths| && paths[i] == f;
      } else {
        ForestOwns(sources.Keys, Members(paths), graph, f);
      }
    }
  }

  lemma ForestOwns(files: set<File>, roots: set<File>, graph: Graph, f: File)
    requires Forest(files, roots, graph) && f in files && f !in roots
    ensures exists o :: o in graph && f in graph[o]
  {
    assert Owned(graph, f);
    var o :| f in Imports(graph, o);
    assert o in graph && f in graph[o];
  }

  lemma OwnersFailWithoutText(sources: map<File, Source>, graph: Graph, e: TopologyError)
    requires OwnersFail(sources, graph, e)
    ensures OneOwner(graph) ==> e.UnknownPhysicalTest?
    ensures AllKnown(graph, sources.Keys) && graph.Keys == sources.Keys && e.UnknownPhysicalTest? ==>
              EmptyImport(sources, graph, e)
  {
  }

  /** The checks of discovery up to the units. */
  method Admit(physicalFiles: seq<File>, sources: map<File, Source>, roots: seq<Root>)
    returns (r: Result<Graph, TopologyError>)
    requires Distinct(physicalFiles) && Members(physicalFiles) == sources.Keys
    ensures r.Ok? <==> Admissible(sources, roots)
    ensures r.Ok? ==> r.value == ImportGraphOf(sources, roots)
    ensures r.Err? ==> Early(r.error)
    ensures var graph := ImportGraphOf(sources, roots);
            && (r.Err? && r.error.UnknownPhysicalTest? ==> EmptyImport(sources, graph, r.error))
            && (OnlyTextMissing(sources, roots) ==> r.Err? && r.error.UnknownPhysicalTest?)
  {
    hide Distinct, IsTestPath, SourcesParse, Forest, AllKnown, Acyclic, OneOwner, ImportedHaveText, Owned, Rooted,
      ImportGraphOf, Explained, IsClosure;
    var read := ReadSources(physicalFiles, sources, roots);
    if read.Err? {
      return Err(read.error);
    }
    var graph := read.value;
    GraphParses(sources, roots);
    RootedIsForest(physicalFiles, sources, roots);
    var closures := WorkflowTestImportClosures(physicalFiles, graph);
    if closures.Err? {
      return Err(ImportsFailed(closures.error));
    }
    var incoming := FindOwners(physicalFiles, sources, graph);
    if incoming.Err? {
      OwnersFailWithoutText(sources, graph, incoming.error);
      return Err(incoming.error);
    }
    var bad := CheckRooted(physicalFiles, Paths(roots), graph, incoming.value);
    if bad.Some? {
      return Err(bad.value);
    }
    return Ok(graph);
  }

  /** `discoverWorkflowTestTopology`: succeeds exactly on the sources it admits, and then the units
      own every physical file exactly once; neither exactness check at the end ever fails. An import
      is called unknown only when its file is there and empty, and it is when all else is in order. */
  method Discover(listing: seq<File>, sources: map<File, Source>, roots: seq<Root>)
    returns (r: Result<Topology, TopologyError>)
    requires Distinct(listing) && Members(listing) == sources.Keys
    requires Distinct(Paths(roots)) && forall i :: 0 <= i < |roots| ==> IsTestPath(roots[i].path)
    ensures r.Ok? <==> Admissible(sources, roots)
    ensures r.Ok? ==>
              && r.value.physicalFiles == Sort(listing, AtMost)
              && DescribeUnits(Paths(roots), ImportGraphOf(sources, roots), r.value.units)
              && var owned := Flatten(OwnedFiles(r.value.units));
                 && Distinct(owned) && (forall f :: f in owned <==> f in listing)
                 && forall f :: f in owned ==> IsTestPath(f)
    ensures r.Err? ==> !r.error.OwnedSet? && !r.error.NotExactInventory?
    ensures r.Err? && r.error.UnknownPhysicalTest? ==> EmptyImport(sources, ImportGraphOf(sources, roots), r.error)
    ensures OnlyTextMissing(sources, roots) ==> r.Err? && r.error.UnknownPhysicalTest?
  {
    var physicalFiles := Sort(listing, AtMost);
    PermutationKeepsDistinct(listing, physicalFiles);
    assert Members(physicalFiles) == Members(listing);
    hide Distinct, IsTestPath, Admissible, ImportGraphOf, DescribeUnits, Flatten, Sort;
    var admitted := Admit(physicalFiles, sources, roots);
    if admitted.Err? {
      return Err(admitted.error);
    }
    var units := BuildUnits(Paths(roots), admitted.value);
    UnitsAreExact(physicalFiles, sources, roots, units);
    var owned := Flatten(OwnedFiles(units));
    var digested := DigestedFileSet(owned);
    match digested {
      case Err(error) => return Err(OwnedSet(error));
      case Ok(_) =>
    }
    if |owned| != |physicalFiles| {
      return Err(NotExactInventory);
    }
    return Ok(Topology(physicalFiles, units));
  }

  // ----- an import whose file is empty

  /** A root with one loader import, of a file with the empty text. */
  function WithEmptyImport(root: File, imported: File): map<File, Source> {
    map[root := Source([0x61], [], true, true, 0), imported := Source([], [], true, false, 0)]
  }

  function LoaderOf(root: File, imported: File): Root {
    Root(root, 0, Loader(true, [Relative(imported)]))
  }

  lemma GraphWithEmptyImport(root: File, imported: File)
    requires root != imported
    ensures ImportGraphOf(WithEmptyImport(root, imported), [LoaderOf(root, imported)])
            == map[root := [imported], imported := []]
  {
    var sources, roots, none: seq<Specifier> := WithEmptyImport(root, imported), [LoaderOf(root, imported)], [];
    assert roots[..0] == [] && Targets(none) == [] && Targets([Relative(imported)]) == [imported];
    assert ImportGraphOf(sources, []) == map[root := [], imported := []];
  }

  lemma ParsesWithEmptyImport(root: File, imported: File)
    requires IsTestPath(imported) && root != imported
    ensures SourcesParse(WithEmptyImport(root, imported), [LoaderOf(root, imported)])
  {
    hide IsTestPath;
    assert Targets([Relative(imported)]) == [imported];
  }

  lemma OneEdge(root: File, imported: File, graph: Graph)
    requires root != imported && graph == map[root := [imported], imported := []]
    ensures Acyclic(graph, {root, imported}) && AllKnown(graph, {root, imported}) && OneOwner(graph)
    ensures forall f, c :: c in Imports(graph, f) <==> f == root && c == imported
  {
    forall f, c ensures c in Imports(graph, f) <==> f == root && c == imported {
    }
    if Reaches(graph, imported, root) {
      var c := ReachesFirstStep(graph, imported, root);
    }
    hide Imports, Reaches;
  }

  lemma OnlyTextIsMissing(root: File, imported: File)
    requires IsTestPath(root) && IsTestPath(imported) && root != imported
    ensures OnlyTextMissing(WithEmptyImport(root, imported), [LoaderOf(root, imported)])
    ensures forall e :: EmptyImport(WithEmptyImport(root, imported),
                                    ImportGraphOf(WithEmptyImport(root, imported), [LoaderOf(root, imported)]), e) ==>
              e == UnknownPhysicalTest(root, imported)
  {
    hide IsTestPath, ImportGraphOf, SourcesParse, AllKnown, Acyclic, OneOwner, Imports;
    var sources := WithEmptyImport(root, imported);
    GraphWithEmptyImport(root, imported);
    ParsesWithEmptyImport(root, imported);
    OneEdge(root, imported, ImportGraphOf(sources, [LoaderOf(root, imported)]));
    assert sources.Keys == {root, imported};
  }

  const LOADING_ROOT: File := TEST_ROOT_PREFIX + [0x72] + TEST_SUFFIX
  const EMPTY_TEST: File := TEST_ROOT_PREFIX + [0x65] + TEST_SUFFIX

  lemma {:induction false} NamesOnlyBefore(segment: Utf16, before: Utf16, rest: Utf16)
    requires forall i :: 0 <= i < |segment| ==> segment[i] != SLASH
    ensures NamesOnly(segment + rest, before) == NamesOnly(rest, before + segment)
  {
    if segment == [] {
      assert segment + rest == rest && before + segment == before;
    } else {
      assert (segment + rest)[1..] == segment[1..] + rest;
      assert before + [segment[0]] + segment[1..] == before + segment;
      NamesOnlyBefore(segment[1..], before + [segment[0]], rest);
    }
  }

  /** A directory's name and the slash after it. */
  lemma NamesOnlyBelow(path: Utf16, n: nat)
    requires 2 < n < |path| && path[n] == SLASH && forall i :: 0 <= i < n ==> path[i] != SLASH
    ensures NamesOnly(path, []) == NamesOnly(path[n + 1..], [])
  {
    NamesOnlyBefore(path[..n], [], path[n..]);
    assert path[..n] + path[n..] == path && [] + path[..n] == path[..n];
    assert path[n..][1..] == path[n + 1..];
  }

  /** Where the slashes are, and that nothing is forbidden. */
  lemma PrefixUnits()
    ensures |TEST_ROOT_PREFIX| == 30
    ensures forall i :: 0 <= i < 30 ==>
              !Forbidden(TEST_ROOT_PREFIX[i]) && (TEST_ROOT_PREFIX[i] == SLASH <==> i == 8 || i == 24 || i == 29)
  {
  }

  lemma SuffixUnits()
    ensures |TEST_SUFFIX| == 8
    ensures forall i :: 0 <= i < 8 ==> !Forbidden(TEST_SUFFIX[i]) && TEST_SUFFIX[i] != SLASH
  {
  }

  lemma TestNameOnly(prefix: Utf16, name: Utf16)
    requires |prefix| == 30 && |name| > 2 && forall i :: 0 <= i < |name| ==> name[i] != SLASH
    requires forall i :: 0 <= i < 30 ==> (prefix[i] == SLASH <==> i == 8 || i == 24 || i == 29)
    ensures NamesOnly(prefix + name, [])
  {
    hide NamesOnly;
    var path := prefix + name;
    NamesOnlyBelow(path, 8);
    NamesOnlyBelow(path[9..], 15);
    assert path[9..][16..] == path[25..];
    NamesOnlyBelow(path[25..], 4);
    assert path[25..][5..] == name;
    PlainName(name);
  }

  lemma PlainName(name: Utf16)
    requires |name| > 2 && forall i :: 0 <= i < |name| ==> name[i] != SLASH
    ensures NamesOnly(name, [])
  {
    NamesOnlyBefore(name, [], []);
    assert name + [] == name && [] + name == name;
  }

  /** `packages/workflow-engine/test/<letter>.test.ts` */
  lemma ShortTestPath(letter: CodeUnit)
    requires 0x61 <= letter <= 0x7A
    ensures IsTestPath(TEST_ROOT_PREFIX + [letter] + TEST_SUFFIX)
  {
    PrefixUnits();
    SuffixUnits();
    hide TEST_ROOT_PREFIX, TEST_SUFFIX, NamesOnly;
    var name := [letter] + TEST_SUFFIX;
    var path := TEST_ROOT_PREFIX + [letter] + TEST_SUFFIX;
    assert path == TEST_ROOT_PREFIX + name;
    TestNameOnly(TEST_ROOT_PREFIX, name);
    assert path[|path| - 8..] == TEST_SUFFIX;
  }

  lemma ExamplePaths()
    ensures IsTestPath(LOADING_ROOT) && IsTestPath(EMPTY_TEST) && LOADING_ROOT != EMPTY_TEST
  {
    hide IsTestPath, TEST_ROOT_PREFIX, TEST_SUFFIX;
    ShortTestPath(0x72);
    ShortTestPath(0x65);
    assert LOADING_ROOT[|TEST_ROOT_PREFIX|] != EMPTY_TEST[|TEST_ROOT_PREFIX|];
  }

  lemma TwoFiles(root: File, imported: File)
    requires root != imported
    ensures Distinct([root, imported]) && Members([root, imported]) == WithEmptyImport(root, imported).Keys
    ensures Distinct(Paths([LoaderOf(root, imported)]))
  {
  }

  /** Whatever the two paths, the imported test is refused as unknown. */
  method DiscoverEmptyImport(root: File, imported: File) returns (r: Result<Topology, TopologyError>)
    requires IsTestPath(root) && IsTestPath(imported) && root != imported
    ensures r == Err(UnknownPhysicalTest(root, imported))
  {
    hide IsTestPath, OnlyTextMissing, EmptyImport, ImportGraphOf, Admissible, DescribeUnits, Distinct, Members,
      WithEmptyImport, Flatten, Sort;
    OnlyTextIsMissing(root, imported);
    TwoFiles(root, imported);
    var files, sources, roots := [root, imported], WithEmptyImport(root, imported), [LoaderOf(root, imported)];
    assert IsTestPath(roots[0].path);
    r := Discover(files, sources, roots);
  }

  /** Discovery refuses a test that is there, but empty, as unknown. */
  method EmptyImportIsUnknown() returns (r: Result<Topology, TopologyError>)
    ensures EMPTY_TEST in WithEmptyImport(LOADING_ROOT, EMPTY_TEST)
    ensures r == Err(UnknownPhysicalTest(LOADING_ROOT, EMPTY_TEST))
  {
    ExamplePaths();
    hide IsTestPath, LOADING_ROOT, EMPTY_TEST;
    r := DiscoverEmptyImport(LOADING_ROOT, EMPTY_TEST);
  }
}
