/** The files a file being built may use: its dependencies and everything they import
    publicly, found by a depth-first walk that may meet cycles. */
module PublicImports {
  import opened Options

  type File = nat

  /** For each file, its public imports; one that failed to load is missing. */
  type Imports = map<File, seq<Option<File>>>

  /** Every import that did load is itself a file of the graph. */
  ghost predicate Closed(imports: Imports) {
    forall f | f in imports :: forall d | d in imports[f] && d.Some? :: d.value in imports
  }

  ghost predicate Edge(imports: Imports, f: File, g: File) {
    f in imports && Some(g) in imports[f]
  }

  ghost predicate Path(imports: Imports, path: seq<File>) {
    path != [] && forall i | 0 <= i < |path| - 1 :: Edge(imports, path[i], path[i + 1])
  }

  ghost predicate PathTo(imports: Imports, roots: seq<Option<File>>, path: seq<File>, f: File) {
    Path(imports, path) && Some(path[0]) in roots && path[|path| - 1] == f
  }

  /** Some chain of public imports leads from a root to the file. */
  ghost predicate Reachable(imports: Imports, roots: seq<Option<File>>, f: File) {
    exists path :: PathTo(imports, roots, path, f)
  }

  lemma RootReachable(imports: Imports, roots: seq<Option<File>>, f: File)
    requires Some(f) in roots
    ensures Reachable(imports, roots, f)
  {
    assert PathTo(imports, roots, [f], f);
  }

  lemma StepReachable(imports: Imports, roots: seq<Option<File>>, f: File, g: File)
    requires Reachable(imports, roots, f) && Edge(imports, f, g)
    ensures Reachable(imports, roots, g)
  {
    var path :| PathTo(imports, roots, path, f);
    var longer := path + [g];
    forall i | 0 <= i < |longer| - 1 ensures Edge(imports, longer[i], longer[i + 1]) {
      assert i < |path| - 1 ==> Edge(imports, path[i], path[i + 1]);
    }
    assert PathTo(imports, roots, longer, g);
  }

  /** Every public import of these files is in the set. */
  ghost predicate ImportsIn(imports: Imports, some: set<File>, all: set<File>) {
    forall f, g | f in some && Edge(imports, f, g) :: g in all
  }

  ghost predicate AllReachable(imports: Imports, roots: seq<Option<File>>, some: set<File>) {
    forall f | f in some :: Reachable(imports, roots, f)
  }

  lemma ReachableAdded(imports: Imports, roots: seq<Option<File>>, some: set<File>, f: File)
    requires AllReachable(imports, roots, some) && Reachable(imports, roots, f)
    ensures AllReachable(imports, roots, some + {f})
  {
    hide Reachable;
  }

  /** Two complete parts, seen from a set that only grew, are complete together. */
  lemma ImportsJoined(imports: Imports, a: set<File>, b: set<File>, before: set<File>, all: set<File>)
    requires ImportsIn(imports, a, before) && ImportsIn(imports, b, all) && before <= all
    ensures ImportsIn(imports, a + b, all)
  {
    hide Edge;
  }

  lemma ImportsOf(imports: Imports, f: File, all: set<File>)
    requires f in imports && forall j | 0 <= j < |imports[f]| && imports[f][j].Some? :: imports[f][j].value in all
    ensures ImportsIn(imports, {f}, all)
  {
  }

  /** A set that holds the roots and the public imports of its own files holds every chain. */
  lemma {:induction false} ClosedHoldsPath(imports: Imports, roots: seq<Option<File>>, all: set<File>, path: seq<File>,
      n: nat)
    requires forall f | Some(f) in roots :: f in all
    requires ImportsIn(imports, all, all)
    requires Path(imports, path) && Some(path[0]) in roots && n < |path|
    ensures path[n] in all
  {
    if n > 0 {
      ClosedHoldsPath(imports, roots, all, path, n - 1);
      assert Edge(imports, path[n - 1], path[n]);
    }
  }

  class Dependencies {
    const imports: Imports
    var dependencies: set<File>

    constructor (imports: Imports)
      ensures this.imports == imports && dependencies == {}
    {
      this.imports := imports;
      dependencies := {};
    }

    /** Adds the file and everything it reaches that is not there yet. What was there before may
        still be waiting for its own imports, so only what is new is known to be complete. */
    method RecordPublicDependencies(file: Option<File>, ghost roots: seq<Option<File>>)
      requires Closed(imports) && dependencies <= imports.Keys
      requires file.Some? ==> file.value in imports && Reachable(imports, roots, file.value)
      requires AllReachable(imports, roots, dependencies)
      modifies this`dependencies
      ensures old(dependencies) <= dependencies <= imports.Keys
      ensures file.Some? ==> file.value in dependencies
      ensures ImportsIn(imports, dependencies - old(dependencies), dependencies)
      ensures AllReachable(imports, roots, dependencies)
      decreases |imports.Keys - dependencies|
    {
      hide Closed, Edge, Reachable, AllReachable, ImportsIn;
      if file == None || file.value in dependencies {
        NothingImported(imports, dependencies);
        assert dependencies - old(dependencies) == {};
        return;
      }
      var f := file.value;
      FewerLeft(imports.Keys, dependencies, f);
      ReachableAdded(imports, roots, dependencies, f);
      dependencies := dependencies + {f};
      ghost var first := dependencies;
      NothingImported(imports, dependencies);
      assert dependencies - first == {};
      var i := 0;
      while i < |imports[f]|
        invariant i <= |imports[f]| && first <= dependencies <= imports.Keys
        invariant forall j | 0 <= j < i && imports[f][j].Some? :: imports[f][j].value in dependencies
        invariant ImportsIn(imports, dependencies - first, dependencies)
        invariant AllReachable(imports, roots, dependencies)
      {
        ghost var before := dependencies;
        var next := imports[f][i];
        ImportStep(imports, roots, f, i);
        SubsetSmaller(imports.Keys - dependencies, imports.Keys - first);
        RecordPublicDependencies(next, roots);
        ImportsJoined(imports, before - first, dependencies - before, before, dependencies);
        assert dependencies - first == (before - first) + (dependencies - before);
        i := i + 1;
      }
      ImportsOf(imports, f, dependencies);
      ImportsJoined(imports, dependencies - first, {f}, dependencies, dependencies);
      assert dependencies - old(dependencies) == (dependencies - first) + {f};
    }

    /** The dependencies of a file being built: exactly the files reached from its direct
        dependencies by public imports, whatever cycles there are. */
    method RecordAll(direct: seq<Option<File>>)
      requires Closed(imports) && forall d | d in direct && d.Some? :: d.value in imports
      modifies this`dependencies
      ensures forall f :: f in dependencies <==> Reachable(imports, direct, f)
    {
      hide Closed;
      dependencies := {};
      var i := 0;
      while i < |direct|
        invariant i <= |direct| && dependencies <= imports.Keys
        invariant forall j | 0 <= j < i && direct[j].Some? :: direct[j].value in dependencies
        invariant ImportsIn(imports, dependencies, dependencies)
        invariant AllReachable(imports, direct, dependencies)
      {
        hide Reachable, AllReachable, ImportsIn;
        ghost var before := dependencies;
        if direct[i].Some? {
          RootReachable(imports, direct, direct[i].value);
        }
        RecordPublicDependencies(direct[i], direct);
        ImportsJoined(imports, before, dependencies - before, before, dependencies);
        assert dependencies == before + (dependencies - before);
        i := i + 1;
      }
      forall f | Reachable(imports, direct, f) ensures f in dependencies {
        var path :| PathTo(imports, direct, path, f);
        ClosedHoldsPath(imports, direct, dependencies, path, |path| - 1);
      }
    }
  }

  lemma ImportStep(imports: Imports, roots: seq<Option<File>>, f: File, i: nat)
    requires Closed(imports) && f in imports && i < |imports[f]|
    ensures var next := imports[f][i];
      next.Some? ==> next.value in imports && (Reachable(imports, roots, f) ==> Reachable(imports, roots, next.value))
  {
    hide Reachable;
    var next := imports[f][i];
    if next.Some? {
      assert next in imports[f];
      if Reachable(imports, roots, f) {
        StepReachable(imports, roots, f, next.value);
      }
    }
  }

  lemma NothingImported(imports: Imports, all: set<File>)
    ensures ImportsIn(imports, {}, all)
  {
  }

  lemma FewerLeft(all: set<File>, some: set<File>, f: File)
    requires f in all && f !in some
    ensures |all - (some + {f})| < |all - some|
  {
    assert all - (some + {f}) == all - some - {f};
  }

  lemma SubsetSmaller(a: set<File>, b: set<File>)
    requires a <= b
    ensures |a| <= |b|
  {
    if a != b {
      assert |b - a| + |a| == |b| by { assert (b - a) + a == b; }
    }
  }
}
