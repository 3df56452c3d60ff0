/** The import graph: reachability, closures and cycles. */
module ImportGraph {
  // The memoised depth-first search computes every file's closure or finds a cycle; the plain
  // collection computes one closure. Both are tied to reachability.

  import opened Lists
  import opened Results
  import opened Sorting
  import opened Text

  type File = Utf16

  type Graph = map<File, seq<File>>

  /** `graph.get(file) ?? []` */
  function Imports(graph: Graph, file: File): seq<File> {
    if file in graph then graph[file] else []
  }

  predicate Path(graph: Graph, p: seq<File>) {
    forall i :: 0 <= i < |p| - 1 ==> p[i + 1] in Imports(graph, p[i])
  }

  /** Zero or more import steps lead from one file to another. */
  ghost predicate Reaches(graph: Graph, from: File, to: File) {
    exists p: seq<File> :: p != [] && Path(graph, p) && p[0] == from && p[|p| - 1] == to
  }

  /** No file of the set imports, directly or not, itself. */
  ghost predicate Acyclic(graph: Graph, files: set<File>) {
    forall f, c :: f in files && c in Imports(graph, f) ==> !Reaches(graph, c, f)
  }

  lemma ReachesSelf(graph: Graph, f: File)
    ensures Reaches(graph, f, f)
  {
    assert Path(graph, [f]) && [f] != [] && [f][0] == f && [f][|[f]| - 1] == f;
  }

  lemma ReachesStep(graph: Graph, f: File, c: File, g: File)
    requires c in Imports(graph, f) && Reaches(graph, c, g)
    ensures Reaches(graph, f, g)
  {
    var p :| p != [] && Path(graph, p) && p[0] == c && p[|p| - 1] == g;
    var q := [f] + p;
    assert Path(graph, q) && q[0] == f && q[|q| - 1] == g;
  }

  lemma ReachesFirstStep(graph: Graph, f: File, g: File) returns (c: File)
    requires Reaches(graph, f, g) && f != g
    ensures c in Imports(graph, f) && Reaches(graph, c, g)
  {
    var p :| p != [] && Path(graph, p) && p[0] == f && p[|p| - 1] == g;
    c := p[1];
    var q := p[1..];
    assert Path(graph, q) && q[0] == c && q[|q| - 1] == g;
  }

  lemma ReachesTransitive(graph: Graph, f: File, g: File, h: File)
    requires Reaches(graph, f, g) && Reaches(graph, g, h)
    ensures Reaches(graph, f, h)
  {
    var p :| p != [] && Path(graph, p) && p[0] == f && p[|p| - 1] == g;
    var q :| q != [] && Path(graph, q) && q[0] == g && q[|q| - 1] == h;
    var r := p + q[1..];
    assert Path(graph, r) && r[0] == f && r[|r| - 1] == h;
  }

  /** What a set closed under imports contains, it contains with everything reachable. */
  lemma {:induction false} ClosedReaches(graph: Graph, s: seq<File>, f: File, g: File)
    requires forall x, c :: x in s && c in Imports(graph, x) ==> c in s
    requires f in s && Reaches(graph, f, g)
    ensures g in s
  {
    var p :| p != [] && Path(graph, p) && p[0] == f && p[|p| - 1] == g;
    PathStays(graph, s, p);
  }

  lemma {:induction false} PathStays(graph: Graph, s: seq<File>, p: seq<File>)
    requires forall x, c :: x in s && c in Imports(graph, x) ==> c in s
    requires p != [] && Path(graph, p) && p[0] in s
    ensures p[|p| - 1] in s
  {
    if |p| > 1 {
      assert p[1] in Imports(graph, p[0]);
      assert Path(graph, p[1..]);
      PathStays(graph, s, p[1..]);
    }
  }

  // ----- the closure of a file

  /** The files a file reaches, each once, sorted. */
  ghost predicate IsClosure(graph: Graph, f: File, closure: seq<File>) {
    && Distinct(closure) && Sorted(closure, AtMost)
    && forall g :: g in closure <==> Reaches(graph, f, g)
  }

  lemma SortedFiles(files: seq<File>)
    requires Distinct(files)
    ensures var s := Sort(files, AtMost);
            Distinct(s) && Sorted(s, AtMost) && forall g :: g in s <==> g in files
  {
    AtMostIsTotalOrder();
    SortSorts(files, AtMost);
    PermutationKeepsDistinct(files, Sort(files, AtMost));
  }

  lemma ClosureIsUnique(graph: Graph, f: File, a: seq<File>, b: seq<File>)
    requires IsClosure(graph, f, a) && IsClosure(graph, f, b)
    ensures a == b
  {
    AtMostIsTotalOrder();
    SameElements(a, b);
    SortedUnique(a, b, AtMost);
  }

  /** `set.add` for each of the files, in insertion order. */
  method AddAll(closure: seq<File>, files: seq<File>) returns (r: seq<File>)
    requires Distinct(closure)
    ensures Distinct(r) && forall g :: g in r <==> g in closure || g in files
  {
    r := closure;
    for i := 0 to |files|
      invariant Distinct(r) && forall g :: g in r <==> g in closure || g in files[..i]
    {
      assert files[..i + 1] == files[..i] + [files[i]];
      if files[i] !in r {
        r := r + [files[i]];
      }
    }
    assert files[..|files|] == files;
  }

  // ----- the memoised search

  datatype Mark = Visiting | Visited

  datatype ImportError = UnknownImport(file: File) | ImportCycle(path: seq<File>)

  /** The error is about the graph: an import of a known file is unknown, or the reported path ends
      where it has been before. */
  ghost predicate Explained(known: set<File>, graph: Graph, e: ImportError) {
    match e
    case UnknownImport(file) => file !in known && exists f :: f in known && file in Imports(graph, f)
    case ImportCycle(path) =>
      |path| >= 2 && Path(graph, path) && path[|path| - 1] in path[..|path| - 1]
      && forall i :: 0 <= i < |path| ==> path[i] in known
  }

  /** Every finished file has its closure, its imports are finished, and none of them leads back. */
  ghost predicate Finished(known: set<File>, graph: Graph, closures: map<File, seq<File>>) {
    forall f :: f in closures ==>
      && f in known && IsClosure(graph, f, closures[f])
      && forall c :: c in Imports(graph, f) ==> c in closures && !Reaches(graph, c, f)
  }

  /** The stack is the import path now being followed: its files are the ones marked visiting. */
  ghost predicate Following(known: set<File>, graph: Graph, state: map<File, Mark>, closures: map<File, seq<File>>,
                            stack: seq<File>)
  {
    && Path(graph, stack)
    && (forall f :: f in stack ==> f in known)
    && (forall f :: f in stack <==> f in state && state[f] == Visiting)
    && (forall f :: f in closures <==> f in state && state[f] == Visited)
  }

  lemma ReachedAreFinished(known: set<File>, graph: Graph, closures: map<File, seq<File>>, f: File, g: File)
    requires Finished(known, graph, closures) && f in closures && Reaches(graph, f, g)
    ensures g in closures
  {
    var p :| p != [] && Path(graph, p) && p[0] == f && p[|p| - 1] == g;
    FinishedPath(known, graph, closures, p);
  }

  lemma {:induction false} FinishedPath(known: set<File>, graph: Graph, closures: map<File, seq<File>>, p: seq<File>)
    requires Finished(known, graph, closures) && p != [] && Path(graph, p) && p[0] in closures
    ensures p[|p| - 1] in closures
  {
    if |p| > 1 {
      assert p[1] in Imports(graph, p[0]);
      assert Path(graph, p[1..]);
      FinishedPath(known, graph, closures, p[1..]);
    }
  }

  /** The set being collected for `file` once its first n imports have been visited. */
  ghost predicate Collected(graph: Graph, file: File, n: nat, closure: seq<File>)
    requires n <= |Imports(graph, file)|
  {
    Distinct(closure)
    && forall g :: g in closure <==>
         g == file || exists i :: 0 <= i < n && Reaches(graph, Imports(graph, file)[i], g)
  }

  lemma CollectedOneMore(graph: Graph, file: File, n: nat, closure: seq<File>, nested: seq<File>, more: seq<File>)
    requires n < |Imports(graph, file)| && Collected(graph, file, n, closure)
    requires IsClosure(graph, Imports(graph, file)[n], nested)
    requires Distinct(more) && forall g :: g in more <==> g in closure || g in nested
    ensures Collected(graph, file, n + 1, more)
  {
    hide Reaches, Distinct, Sorted;
  }

  lemma CollectedAll(graph: Graph, file: File, closure: seq<File>)
    requires Collected(graph, file, |Imports(graph, file)|, closure)
    ensures IsClosure(graph, file, Sort(closure, AtMost))
  {
    SortedFiles(closure);
    var imports := Imports(graph, file);
    ReachesSelf(graph, file);
    hide Reaches, Sort;
    forall g | g in closure ensures Reaches(graph, file, g) {
      if g != file {
        var i :| 0 <= i < |imports| && Reaches(graph, imports[i], g);
        ReachesStep(graph, file, imports[i], g);
      }
    }
    forall g | Reaches(graph, file, g) ensures g in closure {
      if g != file {
        var c := ReachesFirstStep(graph, file, g);
        var i :| 0 <= i < |imports| && imports[i] == c;
      }
    }
  }

  lemma UnknownIsExplained(known: set<File>, graph: Graph, stack: seq<File>, file: File)
    requires forall f :: f in stack ==> f in known
    requires file !in known && stack != [] && file in Imports(graph, stack[|stack| - 1])
    ensures Explained(known, graph, UnknownImport(file))
  {
    assert stack[|stack| - 1] in known;
  }

  lemma RepeatIsExplained(known: set<File>, graph: Graph, stack: seq<File>, file: File)
    requires Path(graph, stack) && (forall f :: f in stack ==> f in known)
    requires file in stack && file in Imports(graph, stack[|stack| - 1])
    ensures Explained(known, graph, ImportCycle(stack + [file]))
  {
    var path := stack + [file];
    assert path[..|path| - 1] == stack;
    assert forall i :: 0 <= i < |path| ==> path[i] == file || path[i] in stack;
  }

  lemma EnterFile(known: set<File>, graph: Graph, state: map<File, Mark>, closures: map<File, seq<File>>,
                  stack: seq<File>, file: File)
    requires Following(known, graph, state, closures, stack)
    requires file in known && file !in stack && file !in closures
    requires stack != [] ==> file in Imports(graph, stack[|stack| - 1])
    ensures Following(known, graph, state[file := Visiting], closures, stack + [file])
    ensures known - Members(stack + [file]) < known - Members(stack)
  {
    hide Imports;
    var more := stack + [file];
    forall i | 0 <= i < |more| - 1 ensures more[i + 1] in Imports(graph, more[i]) {
      if i == |stack| - 1 {
        assert more[i + 1] == file && more[i] == stack[|stack| - 1];
      }
    }
    assert forall f :: f in more <==> f in stack || f == file;
    assert file in known - Members(stack) && file !in known - Members(more);
  }

  lemma LeaveFile(known: set<File>, graph: Graph, state: map<File, Mark>, closures: map<File, seq<File>>,
                  stack: seq<File>, file: File, closure: seq<File>)
    requires Following(known, graph, state, closures, stack + [file]) && Finished(known, graph, closures)
    requires file !in stack && IsClosure(graph, file, closure)
    requires forall c :: c in Imports(graph, file) ==> c in closures
    ensures Following(known, graph, state[file := Visited], closures[file := closure], stack)
    ensures Finished(known, graph, closures[file := closure])
  {
    var more := stack + [file];
    assert forall f :: f in more <==> f in stack || f == file;
    assert file in known && file !in closures;
    assert Path(graph, stack) by {
      forall i | 0 <= i < |stack| - 1 ensures stack[i + 1] in Imports(graph, stack[i]) {
        assert more[i + 1] == stack[i + 1] && more[i] == stack[i];
      }
    }
    hide IsClosure, Reaches, Imports;
    forall c | c in Imports(graph, file) ensures !Reaches(graph, c, file) {
      if Reaches(graph, c, file) {
        ReachedAreFinished(known, graph, closures, c, file);
      }
    }
  }

  class ClosureSearch {
    const known: set<File>
    const graph: Graph
    var state: map<File, Mark>
    var closures: map<File, seq<File>>

    constructor (known: set<File>, graph: Graph)
      ensures this.known == known && this.graph == graph
      ensures Finished(known, graph, closures) && Following(known, graph, state, closures, [])
    {
      this.known, this.graph := known, graph;
      state, closures := map[], map[];
    }

    ghost predicate Valid(stack: seq<File>)
      reads this
    {
      Finished(known, graph, closures) && Following(known, graph, state, closures, stack)
    }

    /** The inner `visit`. */
    method Visit(file: File, stack: seq<File>) returns (r: Result<seq<File>, ImportError>)
      requires Valid(stack)
      requires if stack == [] then file in known else file in Imports(graph, stack[|stack| - 1])
      modifies this
      ensures r.Ok? ==> Valid(stack) && file in closures && r.value == closures[file]
      ensures r.Ok? ==> old(closures.Keys) <= closures.Keys
      ensures r.Err? ==> Explained(known, graph, r.error)
      decreases known - Members(stack), 0
    {
      assert Marked(stack);
      hide Finished, Following, Explained, Imports, Path, IsClosure;
      if file !in known {
        UnknownIsExplained(known, graph, stack, file);
        return Err(UnknownImport(file));
      }
      if file in state && state[file] == Visiting {
        RepeatIsExplained(known, graph, stack, file);
        return Err(ImportCycle(stack + [file]));
      }
      if file in closures {
        return Ok(closures[file]);
      }
      EnterFile(known, graph, state, closures, stack, file);
      state := state[file := Visiting];
      assert (stack + [file])[|stack|] == file;
      r := VisitImports(file, stack + [file]);
      if r.Ok? {
        LeaveFile(known, graph, state, closures, stack, file, r.value);
        state := state[file := Visited];
        closures := closures[file := r.value];
      }
    }

    /** The closure of the file on top of the stack, from those of its imports. */
    method VisitImports(file: File, following: seq<File>) returns (r: Result<seq<File>, ImportError>)
      requires Valid(following) && following != [] && following[|following| - 1] == file
      modifies this
      ensures r.Ok? ==> Valid(following) && IsClosure(graph, file, r.value)
      ensures r.Ok? ==> old(closures.Keys) <= closures.Keys && forall c :: c in Imports(graph, file) ==> c in closures
      ensures r.Err? ==> Explained(known, graph, r.error)
      decreases known - Members(following), 1
    {
      hide Finished, Following, Explained, Imports, Path, IsClosure, Collected, Sort;
      var closure: seq<File> := [file];
      var imports := Imports(graph, file);
      NothingCollected(graph, file);
      for i := 0 to |imports|
        invariant Valid(following) && old(closures.Keys) <= closures.Keys
        invariant Collected(graph, file, i, closure)
        invariant forall k :: 0 <= k < i ==> imports[k] in closures
      {
        var nested := Visit(imports[i], following);
        if nested.Err? {
          return nested;
        }
        FinishedClosure(known, graph, closures, imports[i]);
        ghost var before := closure;
        CollectedDistinct(graph, file, i, closure);
        closure := AddAll(closure, nested.value);
        CollectedOneMore(graph, file, i, before, nested.value, closure);
      }
      CollectedAll(graph, file, closure);
      return Ok(Sort(closure, AtMost));
    }

    ghost predicate Marked(stack: seq<File>)
      reads this
    {
      && Path(graph, stack) && (forall f :: f in stack ==> f in known)
      && (forall f :: f in stack <==> f in state && state[f] == Visiting)
    }
  }

  lemma NothingCollected(graph: Graph, file: File)
    ensures Collected(graph, file, 0, [file])
  {
  }

  lemma CollectedDistinct(graph: Graph, file: File, n: nat, closure: seq<File>)
    requires n <= |Imports(graph, file)| && Collected(graph, file, n, closure)
    ensures Distinct(closure)
  {
  }

  lemma FinishedClosure(known: set<File>, graph: Graph, closures: map<File, seq<File>>, file: File)
    requires Finished(known, graph, closures) && file in closures
    ensures IsClosure(graph, file, closures[file])
  {
  }

  lemma CycleRefutesAcyclic(known: set<File>, graph: Graph, path: seq<File>)
    requires Explained(known, graph, ImportCycle(path))
    ensures !Acyclic(graph, known)
  {
    var last := |path| - 1;
    var k :| 0 <= k < last && path[k] == path[last];
    var q := path[k + 1..];
    assert Path(graph, q) && q[0] == path[k + 1] && q[|q| - 1] == path[last];
    assert path[k] in known && path[k + 1] in Imports(graph, path[k]) && Reaches(graph, path[k + 1], path[k]);
  }

  predicate AllKnown(graph: Graph, known: set<File>) {
    forall f, c :: f in known && c in Imports(graph, f) ==> c in known
  }

  lemma ErrorRefutes(known: set<File>, graph: Graph, e: ImportError)
    requires Explained(known, graph, e)
    ensures !(AllKnown(graph, known) && Acyclic(graph, known))
  {
    if e.ImportCycle? {
      CycleRefutesAcyclic(known, graph, e.path);
    }
  }

  lemma AllFinished(known: set<File>, graph: Graph, closures: map<File, seq<File>>)
    requires Finished(known, graph, closures) && forall f :: f in known ==> f in closures
    ensures AllKnown(graph, known) && Acyclic(graph, known)
    ensures closures.Keys == known && forall f :: f in known ==> IsClosure(graph, f, closures[f])
  {
    hide IsClosure, Reaches;
  }

  /** `workflowTestImportClosures` over the files of `sources`: succeeds exactly when every import is
      known and the imports form no cycle, with every file's closure; otherwise the error names an
      import that is unknown or a path that is a cycle. */
  method WorkflowTestImportClosures(sources: seq<File>, graph: Graph)
    returns (r: Result<map<File, seq<File>>, ImportError>)
    ensures var known := Members(sources);
            && (r.Ok? <==> AllKnown(graph, known) && Acyclic(graph, known))
            && (r.Ok? ==> r.value.Keys == known && forall f :: f in known ==> IsClosure(graph, f, r.value[f]))
            && (r.Err? ==> Explained(known, graph, r.error))
  {
    hide AllKnown, Acyclic, IsClosure, Explained, Finished, Following, Sort;
    var known := Members(sources);
    var search := new ClosureSearch(known, graph);
    var files := Sort(sources, AtMost);
    forall f ensures f in files <==> f in known {
      assert f in multiset(files) <==> f in multiset(sources);
    }
    for i := 0 to |files|
      invariant search.known == known && search.graph == graph && search.Valid([])
      invariant forall k :: 0 <= k < i ==> files[k] in search.closures
    {
      var visited := search.Visit(files[i], []);
      if visited.Err? {
        ErrorRefutes(known, graph, visited.error);
        return Err(visited.error);
      }
    }
    AllFinished(known, graph, search.closures);
    return Ok(search.closures);
  }

  // ----- one closure without memory

  /** Every file the graph mentions. */
  ghost function Mentioned(graph: Graph): set<File> {
    graph.Keys + set f, c | f in graph && c in graph[f] :: c
  }

  class Collector {
    const graph: Graph
    var result: seq<File>

    constructor (graph: Graph)
      ensures this.graph == graph && result == []
    {
      this.graph := graph;
      result := [];
    }

    /** The inner `visit`: adds the file and everything it reaches that is not there yet. */
    method Visit(file: File)
      requires Distinct(result)
      modifies this
      ensures Distinct(result) && old(result) <= result && file in result
      ensures forall x :: x in result && x !in old(result) ==> Reaches(graph, file, x)
      ensures ImportsWithin(graph, old(result), result)
      decreases Mentioned(graph) + {file} - Members(result)
    {
      hide Reaches, Mentioned, ImportsWithin, Imports;
      NothingAdded(graph, result);
      if file in result {
        return;
      }
      ReachesSelf(graph, file);
      ghost var before := result;
      result := result + [file];
      ghost var added := result;
      assert result[|before|] == file;
      NothingAdded(graph, added);
      var imports := Imports(graph, file);
      for i := 0 to |imports|
        invariant Distinct(result) && added <= result && file in result
        invariant forall k :: 0 <= k < i ==> imports[k] in result
        invariant forall x :: x in result && x !in before ==> Reaches(graph, file, x)
        invariant ImportsWithin(graph, added, result)
      {
        ghost var earlier := result;
        ImportIsMentioned(graph, file, imports[i]);
        FewerLeft(Mentioned(graph), before, earlier, file, imports[i]);
        Visit(imports[i]);
        WithinMore(graph, added, earlier, result);
        assert imports[i] in Imports(graph, file);
        forall x | x in result && x !in earlier ensures Reaches(graph, file, x) {
          ReachesStep(graph, file, imports[i], x);
        }
      }
      WithinFirst(graph, file, before, result);
    }
  }

  lemma NothingAdded(graph: Graph, files: seq<File>)
    ensures ImportsWithin(graph, files, files)
  {
  }

  lemma WithinFirst(graph: Graph, file: File, before: seq<File>, result: seq<File>)
    requires ImportsWithin(graph, before + [file], result)
    requires forall k :: 0 <= k < |Imports(graph, file)| ==> Imports(graph, file)[k] in result
    ensures ImportsWithin(graph, before, result)
  {
  }

  /** Whatever was added between the two moments has its imports there too. */
  ghost predicate ImportsWithin(graph: Graph, before: seq<File>, after: seq<File>) {
    forall x, c :: x in after && x !in before && c in Imports(graph, x) ==> c in after
  }

  lemma WithinMore(graph: Graph, added: seq<File>, earlier: seq<File>, result: seq<File>)
    requires ImportsWithin(graph, added, earlier) && ImportsWithin(graph, earlier, result) && earlier <= result
    ensures ImportsWithin(graph, added, result)
  {
    forall x, c | x in result && x !in added && c in Imports(graph, x) ensures c in result {
      if x in earlier {
        assert c in earlier;
      }
    }
  }

  lemma FewerLeft(mentioned: set<File>, before: seq<File>, later: seq<File>, file: File, c: File)
    requires before <= later && file !in before && file in later && c in mentioned
    ensures mentioned + {c} - Members(later) < mentioned + {file} - Members(before)
  {
    assert file in mentioned + {file} - Members(before);
    assert file !in mentioned + {c} - Members(later);
  }

  lemma ImportIsMentioned(graph: Graph, file: File, c: File)
    requires c in Imports(graph, file)
    ensures c in Mentioned(graph)
  {
    assert file in graph && c in graph[file];
  }

  /** `collectClosure`: each reachable file once, whether or not the imports form a cycle. */
  method CollectClosure(entrypoint: File, graph: Graph) returns (r: seq<File>)
    ensures Distinct(r) && forall g :: g in r <==> Reaches(graph, entrypoint, g)
  {
    var collector := new Collector(graph);
    collector.Visit(entrypoint);
    r := collector.result;
    forall g | Reaches(graph, entrypoint, g) ensures g in r {
      ClosedReaches(graph, r, entrypoint, g);
    }
  }

  /** Sorted, what the plain collection finds is the closure the memoised search computed. */
  lemma CollectedIsClosure(graph: Graph, entrypoint: File, collected: seq<File>, closure: seq<File>)
    requires Distinct(collected) && forall g :: g in collected <==> Reaches(graph, entrypoint, g)
    requires IsClosure(graph, entrypoint, closure)
    ensures Sort(collected, AtMost) == closure
  {
    SortedFiles(collected);
    ClosureIsUnique(graph, entrypoint, Sort(collected, AtMost), closure);
  }
}
