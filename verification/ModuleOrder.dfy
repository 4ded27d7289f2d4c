/** What a whole run of the module loader guarantees. */
module ModuleOrder {
  import opened Options
  import opened ModuleLoader

  lemma EmptyInvariant(fs: Files)
    ensures Invariant(fs, Empty, []) && Complete(fs, Empty)
  {
  }

  /** In a state with nothing in progress, whatever a finished module reaches is finished. */
  lemma {:induction false} ClosedUnderReach(fs: Files, st: State, u: Path, p: seq<Path>, v: Path)
    requires Invariant(fs, st, []) && Complete(fs, st) && u in st.ordered && WalksFromTo(fs, p, u, v)
    ensures v in st.ordered
    decreases |p|
  {
    if |p| > 1 {
      var q := p[..|p| - 1];
      var w := q[|q| - 1];
      assert WalksFromTo(fs, q, u, w);
      ClosedUnderReach(fs, st, u, q, w);
      assert Imports(fs, p[|p| - 2], p[|p| - 1]);
      var m :| m in fs.sources[w].imports && Resolve(fs, TargetFile(fs, m)) == Some(v);
      assert Registered(fs, m, st);
    }
  }

  /**
   * A successful load from the empty loader lists exactly the modules reachable from the
   * entry, each once; each import of a module stands before it or leads back to it.
   */
  lemma LoadOrder(fs: Files, path: Path)
    requires Load(fs, Empty, path, 0).1.EXIT_OK?
    ensures var (st, _) := Load(fs, Empty, path, 0);
            && Resolve(fs, path).Some?
            && (forall v :: v in st.ordered <==> Reaches(fs, Resolve(fs, path).value, v))
            && Distinct(st.ordered) && Placed(fs, st.ordered)
            && (forall v :: v in st.units <==> v in st.ordered)
  {
    EmptyInvariant(fs);
    LoadKeeps(fs, Empty, path, 0, []);
    var (st, _) := Load(fs, Empty, path, 0);
    var root := Resolve(fs, path).value;
    assert st.ordered + [] == st.ordered;
    forall v
      ensures v in st.ordered <==> Reaches(fs, root, v)
    {
      if Reaches(fs, root, v) {
        var p :| WalksFromTo(fs, p, root, v);
        ClosedUnderReach(fs, st, root, p, v);
      }
    }
  }

  /** Without import cycles the order is topological. */
  lemma TopologicalOrder(fs: Files, path: Path)
    requires Acyclic(fs) && Load(fs, Empty, path, 0).1.EXIT_OK?
    ensures var ordered := Load(fs, Empty, path, 0).0.ordered;
            forall i, v :: 0 <= i < |ordered| && Imports(fs, ordered[i], v) ==> v in ordered[..i]
  {
    LoadOrder(fs, path);
  }

  /** Any sequence of top-level calls, failing or not. */
  function LoadEach(fs: Files, st: State, paths: seq<Path>): State
    decreases |paths|
  {
    if paths == [] then st else LoadEach(fs, Load(fs, st, paths[0], 0).0, paths[1..])
  }

  /** After every top-level call nothing is left in progress: only finished modules are registered. */
  lemma {:induction false} NothingLeftInProgress(fs: Files, st: State, paths: seq<Path>)
    requires Invariant(fs, st, [])
    ensures var r := LoadEach(fs, st, paths);
            && Invariant(fs, r, []) && st.ordered <= r.ordered
            && forall v :: v in r.units <==> v in r.ordered
    decreases |paths|
  {
    if paths != [] {
      LoadKeeps(fs, st, paths[0], 0, []);
      NothingLeftInProgress(fs, Load(fs, st, paths[0], 0).0, paths[1..]);
    }
  }

  // ---------- When loading succeeds ----------

  ghost predicate Loadable(fs: Files, u: Path)
  {
    && u in fs.sources && fs.sources[u].Parsed?
    && forall m :: m in fs.sources[u].imports ==> Resolve(fs, TargetFile(fs, m)).Some?
  }

  /** The entry and everything it reaches can be read, parsed and resolved. */
  ghost predicate AllLoadable(fs: Files, path: Path)
  {
    && Resolve(fs, path).Some?
    && forall v :: Reaches(fs, Resolve(fs, path).value, v) ==> Loadable(fs, v)
  }

  /**
   * No chain of imports from `root` gets past 256 steps before it meets a module again: the
   * modules of such a chain but the last are distinct.
   */
  ghost predicate Shallow(fs: Files, root: Path)
  {
    forall p :: p != [] && p[0] == root && IsWalk(fs, p) && Distinct(p[..|p| - 1]) ==> |p| <= MAX_RECURSION_DEPTH + 1
  }

  lemma OneStepOn(fs: Files, stack: seq<Path>, abs: Path)
    requires IsWalk(fs, stack) && (stack != [] ==> Imports(fs, stack[|stack| - 1], abs))
    ensures var p := stack + [abs];
            IsWalk(fs, p) && p[..|p| - 1] == stack && p[0] == if stack == [] then abs else stack[0]
  {
  }

  /** The modules in progress and the one they lead to are such a chain. */
  lemma StackFits(fs: Files, st: State, stack: seq<Path>, abs: Path)
    requires Invariant(fs, st, stack) && Shallow(fs, if stack == [] then abs else stack[0])
    requires stack != [] ==> Imports(fs, stack[|stack| - 1], abs)
    ensures |stack| <= MAX_RECURSION_DEPTH
  {
    var all, n := st.ordered + stack, |st.ordered|;
    assert forall i :: 0 <= i < |stack| ==> stack[i] == all[n + i];
    assert Distinct(stack);
    OneStepOn(fs, stack, abs);
    assert Shallow(fs, (stack + [abs])[0]);
  }

  lemma {:induction false} LoadSucceeds(fs: Files, st: State, path: Path, depth: nat, stack: seq<Path>)
    requires |stack| == depth <= MAX_RECURSION_DEPTH + 1 && Invariant(fs, st, stack)
    requires stack != [] && Resolve(fs, path).Some? ==> Imports(fs, stack[|stack| - 1], Resolve(fs, path).value)
    requires AllLoadable(fs, path) && Shallow(fs, if stack == [] then Resolve(fs, path).value else stack[0])
    ensures Load(fs, st, path, depth).1.EXIT_OK?
    decreases MAX_RECURSION_DEPTH + 1 - depth, 0
  {
    var abs := Resolve(fs, path).value;
    StackFits(fs, st, stack, abs);
    ReachesSelf(fs, abs);
    if abs !in st.units {
      Enter(fs, st, abs, stack);
      var imports := fs.sources[abs].imports;
      assert (stack + [abs])[0] == if stack == [] then abs else stack[0];
      LoadAllSucceeds(fs, st.(units := st.units[abs := imports]), imports, depth, stack + [abs]);
    }
  }

  lemma {:induction false} LoadAllSucceeds(fs: Files, st: State, imports: seq<Path>, depth: nat, stack: seq<Path>)
    requires |stack| == depth + 1 && depth <= MAX_RECURSION_DEPTH && Invariant(fs, st, stack) && Shallow(fs, stack[0])
    requires Loadable(fs, stack[depth]) && forall m :: m in imports ==> m in fs.sources[stack[depth]].imports
    requires forall v :: Reaches(fs, stack[depth], v) ==> Loadable(fs, v)
    ensures LoadAll(fs, st, imports, depth).1.EXIT_OK?
    decreases MAX_RECURSION_DEPTH - depth, 1 + |imports|
  {
    if imports != [] {
      var u, file := stack[depth], TargetFile(fs, imports[0]);
      var v := Resolve(fs, file).value;
      assert Imports(fs, u, v);
      forall w | Reaches(fs, v, w)
        ensures Reaches(fs, u, w)
      {
        var p :| WalksFromTo(fs, p, v, w);
        ReachesSelf(fs, u);
        ReachesThen(fs, u, u, v);
        ReachesTransitive(fs, u, v, p, w);
      }
      LoadSucceeds(fs, st, file, depth + 1, stack);
      LoadKeeps(fs, st, file, depth + 1, stack);
      LoadAllSucceeds(fs, Load(fs, st, file, depth + 1).0, imports[1..], depth, stack);
    }
  }

  /**
   * Unless a chain of more than 256 imports through distinct modules starts at the entry,
   * loading succeeds if and only if the entry and every module it reaches exists, lexes,
   * parses and has imports that resolve.
   */
  lemma LoadSucceedsIff(fs: Files, path: Path)
    requires Resolve(fs, path).Some? ==> Shallow(fs, Resolve(fs, path).value)
    ensures Load(fs, Empty, path, 0).1.EXIT_OK? <==> AllLoadable(fs, path)
  {
    EmptyInvariant(fs);
    if AllLoadable(fs, path) {
      LoadSucceeds(fs, Empty, path, 0, []);
    }
    if Load(fs, Empty, path, 0).1.EXIT_OK? {
      LoadedIsLoadable(fs, path);
    }
  }

  /** However deep the imports, success is never wrong. */
  lemma LoadedIsLoadable(fs: Files, path: Path)
    requires Load(fs, Empty, path, 0).1.EXIT_OK?
    ensures AllLoadable(fs, path)
  {
    EmptyInvariant(fs);
    LoadOrder(fs, path);
    LoadKeeps(fs, Empty, path, 0, []);
    var st := Load(fs, Empty, path, 0).0;
    forall v | Reaches(fs, Resolve(fs, path).value, v)
      ensures Loadable(fs, v)
    {
      assert v in st.ordered;
      forall m | m in fs.sources[v].imports
        ensures Resolve(fs, TargetFile(fs, m)).Some?
      {
        assert Registered(fs, m, st);
      }
    }
  }
}
