/**
 * Module loading: a depth-first search over import declarations that registers a
 * module before its imports and appends it to the processing order after them.
 * The file system is a value: what resolves, what is a regular file, and what
 * lexing and parsing the file behind an absolute path yields.
 */
module ModuleLoader {
  import opened Options

  type Path = string

  /** Result of reading a file; `imports` are the module paths of its import declarations, in order. */
  datatype Source = Unlexable | Unparsable | Parsed(imports: seq<Path>)

  datatype Files = Files(realpath: map<Path, Path>, regular: set<Path>, sources: map<Path, Source>)

  datatype Exit = EXIT_OK | EXIT_IO | EXIT_LEX | EXIT_PARSE

  const MAX_RECURSION_DEPTH: nat := 256

  /** Absolute path of a file, or of the `module.nt` inside a directory. */
  function Resolve(fs: Files, path: Path): Option<Path>
  {
    if path in fs.realpath then Some(fs.realpath[path])
    else if path + "/module.nt" in fs.realpath then Some(fs.realpath[path + "/module.nt"])
    else None
  }

  /** The file an import refers to: `m.nt` if that is a regular file, else `m/module.nt`. */
  function TargetFile(fs: Files, m: Path): Path
  {
    if m + ".nt" in fs.regular then m + ".nt" else m + "/module.nt"
  }

  /** `units` maps a registered module to its imports; `ordered` lists the finished ones. */
  datatype State = State(units: map<Path, seq<Path>>, ordered: seq<Path>)

  const Empty: State := State(map[], [])

  function Load(fs: Files, st: State, path: Path, depth: nat): (State, Exit)
    requires depth <= MAX_RECURSION_DEPTH + 1
    decreases MAX_RECURSION_DEPTH + 1 - depth, 0
  {
    if depth > MAX_RECURSION_DEPTH then (st, EXIT_IO)
    else
      match Resolve(fs, path)
      case None => (st, EXIT_IO)
      case Some(abs) =>
        if abs in st.units then (st, EXIT_OK)
        else if abs !in fs.sources then (st, EXIT_IO)
        else
          match fs.sources[abs]
          case Unlexable => (st, EXIT_LEX)
          case Unparsable => (st, EXIT_PARSE)
          case Parsed(imports) =>
            var (st1, e) := LoadAll(fs, st.(units := st.units[abs := imports]), imports, depth);
            if e.EXIT_OK? then (st1.(ordered := st1.ordered + [abs]), e)
            else (st1.(units := st1.units - {abs}), e)
  }

  /** Loads the given imports of a module at `depth`, up to the first that fails. */
  function LoadAll(fs: Files, st: State, imports: seq<Path>, depth: nat): (State, Exit)
    requires depth <= MAX_RECURSION_DEPTH
    decreases MAX_RECURSION_DEPTH - depth, 1 + |imports|
  {
    if imports == [] then (st, EXIT_OK)
    else
      var (st1, e) := Load(fs, st, TargetFile(fs, imports[0]), depth + 1);
      if e.EXIT_OK? then LoadAll(fs, st1, imports[1..], depth) else (st1, e)
  }

  /** The loader as the code keeps it. */
  class Loader {
    var units: map<Path, seq<Path>>
    var unitsOrdered: seq<Path>

    ghost function View(): State
      reads this
    {
      State(units, unitsOrdered)
    }

    constructor ()
      ensures View() == Empty
    {
      units, unitsOrdered := map[], [];
    }

    method LoadModuleRecursive(fs: Files, path: Path, depth: nat) returns (exit: Exit)
      requires depth <= MAX_RECURSION_DEPTH + 1
      modifies this
      ensures (View(), exit) == Load(fs, old(View()), path, depth)
      decreases MAX_RECURSION_DEPTH + 1 - depth
    {
      if depth > MAX_RECURSION_DEPTH {
        return EXIT_IO;
      }
      var resolved := Resolve(fs, path);
      if resolved.None? {
        return EXIT_IO;
      }
      var absPath := resolved.value;
      if absPath in units {
        return EXIT_OK;
      }
      if absPath !in fs.sources {
        return EXIT_IO;
      }
      if fs.sources[absPath].Unlexable? {
        return EXIT_LEX;
      }
      if fs.sources[absPath].Unparsable? {
        return EXIT_PARSE;
      }
      var imports := fs.sources[absPath].imports;
      units := units[absPath := imports];
      ghost var all := LoadAll(fs, View(), imports, depth);
      assert imports[0..] == imports;
      for i := 0 to |imports|
        invariant LoadAll(fs, View(), imports[i..], depth) == all
      {
        assert imports[i..][1..] == imports[i + 1..];
        exit := LoadModuleRecursive(fs, TargetFile(fs, imports[i]), depth + 1);
        if !exit.EXIT_OK? {
          units := units - {absPath};
          return;
        }
      }
      unitsOrdered := unitsOrdered + [absPath];
      return EXIT_OK;
    }
  }

  // ---------- The import graph ----------

  /** Module `u` imports module `v`. */
  ghost predicate Imports(fs: Files, u: Path, v: Path)
  {
    && u in fs.sources && fs.sources[u].Parsed?
    && exists m :: m in fs.sources[u].imports && Resolve(fs, TargetFile(fs, m)) == Some(v)
  }

  ghost predicate IsWalk(fs: Files, p: seq<Path>)
  {
    forall i :: 0 <= i < |p| - 1 ==> Imports(fs, p[i], p[i + 1])
  }

  ghost predicate WalksFromTo(fs: Files, p: seq<Path>, u: Path, v: Path)
  {
    p != [] && IsWalk(fs, p) && p[0] == u && p[|p| - 1] == v
  }

  /** `v` is `u` or is imported, directly or not, by `u`. */
  ghost predicate Reaches(fs: Files, u: Path, v: Path)
  {
    exists p :: WalksFromTo(fs, p, u, v)
  }

  ghost predicate Acyclic(fs: Files)
  {
    forall u, v :: Imports(fs, u, v) ==> !Reaches(fs, v, u)
  }

  lemma ReachesSelf(fs: Files, u: Path)
    ensures Reaches(fs, u, u)
  {
    assert WalksFromTo(fs, [u], u, u);
  }

  lemma ReachesThen(fs: Files, u: Path, v: Path, w: Path)
    requires Reaches(fs, u, v) && Imports(fs, v, w)
    ensures Reaches(fs, u, w)
  {
    var p :| WalksFromTo(fs, p, u, v);
    assert WalksFromTo(fs, p + [w], u, w);
  }

  lemma {:induction false} ReachesTransitive(fs: Files, u: Path, v: Path, p: seq<Path>, w: Path)
    requires Reaches(fs, u, v) && WalksFromTo(fs, p, v, w)
    ensures Reaches(fs, u, w)
    decreases |p|
  {
    if |p| > 1 {
      var q := p[..|p| - 1];
      assert WalksFromTo(fs, q, v, q[|q| - 1]);
      ReachesTransitive(fs, u, v, q, q[|q| - 1]);
      assert Imports(fs, p[|p| - 2], p[|p| - 1]);
      ReachesThen(fs, u, q[|q| - 1], w);
    }
  }

  // ---------- The invariant of the search ----------

  ghost predicate Distinct(s: seq<Path>)
  {
    forall i, j :: 0 <= i < j < |s| ==> s[i] != s[j]
  }

  /** Every import of a finished module is finished before it, or leads back to it. */
  ghost predicate Placed(fs: Files, ordered: seq<Path>)
  {
    forall i, v :: 0 <= i < |ordered| && Imports(fs, ordered[i], v) ==>
      v in ordered[..i] || Reaches(fs, v, ordered[i])
  }

  /**
   * The registered modules are the finished ones and the disjoint stack of those in
   * progress; the stack is a walk in the import graph.
   */
  ghost predicate Invariant(fs: Files, st: State, stack: seq<Path>)
  {
    && Distinct(st.ordered + stack)
    && (forall u :: u in st.units <==> u in st.ordered || u in stack)
    && (forall u :: u in st.units ==> u in fs.sources && fs.sources[u] == Parsed(st.units[u]))
    && IsWalk(fs, stack)
    && Placed(fs, st.ordered)
  }

  /** The import path `m` leads to a registered module. */
  ghost predicate Registered(fs: Files, m: Path, st: State)
  {
    var v := Resolve(fs, TargetFile(fs, m));
    v.Some? && v.value in st.units
  }

  /** Every import of a finished module resolves to a registered one. */
  ghost predicate Complete(fs: Files, st: State)
  {
    forall u, m :: u in st.ordered && u in st.units && m in st.units[u] ==> Registered(fs, m, st)
  }

  /** What loading from `st` to `r` below the module `root` keeps and adds. */
  ghost predicate Extends(fs: Files, st: State, r: State, root: Path)
  {
    && st.ordered <= r.ordered
    && (forall i :: |st.ordered| <= i < |r.ordered| ==> Reaches(fs, root, r.ordered[i]))
  }

  lemma {:induction false} StackReaches(fs: Files, stack: seq<Path>, i: nat)
    requires i < |stack| && IsWalk(fs, stack)
    ensures Reaches(fs, stack[i], stack[|stack| - 1])
  {
    assert WalksFromTo(fs, stack[i..], stack[i], stack[|stack| - 1]);
  }

  lemma {:induction false} LoadKeeps(fs: Files, st: State, path: Path, depth: nat, stack: seq<Path>)
    requires |stack| == depth <= MAX_RECURSION_DEPTH + 1 && Invariant(fs, st, stack)
    requires stack != [] && Resolve(fs, path).Some? ==> Imports(fs, stack[|stack| - 1], Resolve(fs, path).value)
    ensures var (r, e) := Load(fs, st, path, depth);
            && Invariant(fs, r, stack) && st.ordered <= r.ordered
            && (Resolve(fs, path).Some? ==> Extends(fs, st, r, Resolve(fs, path).value))
            && (e.EXIT_OK? ==> Resolve(fs, path).Some? && Resolve(fs, path).value in r.units)
            && (e.EXIT_OK? && Complete(fs, st) ==> Complete(fs, r))
    decreases MAX_RECURSION_DEPTH + 1 - depth, 0
  {
    if depth <= MAX_RECURSION_DEPTH && Resolve(fs, path).Some? {
      var abs := Resolve(fs, path).value;
      if abs !in st.units && abs in fs.sources && fs.sources[abs].Parsed? {
        var imports := fs.sources[abs].imports;
        var st0 := st.(units := st.units[abs := imports]);
        Enter(fs, st, abs, stack);
        LoadAllKeeps(fs, st0, imports, depth, stack + [abs]);
        var (st1, e) := LoadAll(fs, st0, imports, depth);
        assert (stack + [abs])[|stack|] == abs;
        if e.EXIT_OK? {
          Finish(fs, st1, abs, stack);
          ReachesSelf(fs, abs);
        } else {
          Abandon(fs, st1, abs, stack);
        }
      }
    }
  }

  /** Registering a module in progress. */
  lemma Enter(fs: Files, st: State, abs: Path, stack: seq<Path>)
    requires Invariant(fs, st, stack) && abs !in st.units && abs in fs.sources && fs.sources[abs].Parsed?
    requires stack != [] ==> Imports(fs, stack[|stack| - 1], abs)
    ensures Invariant(fs, st.(units := st.units[abs := fs.sources[abs].imports]), stack + [abs])
    ensures Complete(fs, st) ==> Complete(fs, st.(units := st.units[abs := fs.sources[abs].imports]))
  {
    var r := st.(units := st.units[abs := fs.sources[abs].imports]);
    if Complete(fs, st) {
      forall u, m | u in r.ordered && u in r.units && m in r.units[u]
        ensures Registered(fs, m, r)
      {
        assert u in st.ordered && Registered(fs, m, st);
      }
    }
    assert st.ordered + (stack + [abs]) == (st.ordered + stack) + [abs];
    assert abs !in st.ordered + stack;
  }

  /** Where the element at `i` was before the last of `len` elements moved to `n`. */
  function Moved(i: nat, n: nat, len: nat): int
  {
    if i < n then i else if i == n then len - 1 else i - 1
  }

  /** Finishing the module on top of the stack, once its imports are registered. */
  lemma Finish(fs: Files, st: State, abs: Path, stack: seq<Path>)
    requires Invariant(fs, st, stack + [abs]) && abs in st.units
    requires forall m :: m in st.units[abs] ==> Registered(fs, m, st)
    ensures Invariant(fs, st.(ordered := st.ordered + [abs]), stack)
    ensures Complete(fs, st) ==> Complete(fs, st.(ordered := st.ordered + [abs]))
  {
    var r, n := st.(ordered := st.ordered + [abs]), |st.ordered|;
    var before, after := st.ordered + (stack + [abs]), r.ordered + stack;
    forall i, j | 0 <= i < j < |after|
      ensures after[i] != after[j]
    {
      assert after[i] == before[Moved(i, n, |before|)] && after[j] == before[Moved(j, n, |before|)];
    }
    forall i, v | 0 <= i < |r.ordered| && Imports(fs, r.ordered[i], v)
      ensures v in r.ordered[..i] || Reaches(fs, v, r.ordered[i])
    {
      assert r.ordered[..i] == st.ordered[..i];
      if i == n {
        if v !in st.ordered {
          var j :| 0 <= j < |stack + [abs]| && (stack + [abs])[j] == v;
          StackReaches(fs, stack + [abs], j);
        }
      }
    }
    assert IsWalk(fs, stack) by {
      assert forall i :: 0 <= i < |stack| ==> (stack + [abs])[i] == stack[i];
    }
    if Complete(fs, st) {
      forall u, m | u in r.ordered && u in r.units && m in r.units[u]
        ensures Registered(fs, m, r)
      {
        assert Registered(fs, m, st);
      }
    }
  }

  /** Removing the module on top of the stack after one of its imports has failed. */
  lemma Abandon(fs: Files, st: State, abs: Path, stack: seq<Path>)
    requires Invariant(fs, st, stack + [abs])
    ensures Invariant(fs, st.(units := st.units - {abs}), stack)
  {
    var before, after := st.ordered + (stack + [abs]), st.ordered + stack;
    assert before == after + [abs];
    assert forall i :: 0 <= i < |after| ==> before[i] == after[i] && before[i] != before[|after|];
    assert abs !in after;
    assert IsWalk(fs, stack) by {
      assert forall i :: 0 <= i < |stack| ==> (stack + [abs])[i] == stack[i];
    }
  }

  lemma {:induction false} LoadAllKeeps(fs: Files, st: State, imports: seq<Path>, depth: nat, stack: seq<Path>)
    requires |stack| == depth + 1 && depth <= MAX_RECURSION_DEPTH && Invariant(fs, st, stack)
    requires var u := stack[|stack| - 1];
             u in fs.sources && fs.sources[u].Parsed? && forall m :: m in imports ==> m in fs.sources[u].imports
    ensures var (r, e) := LoadAll(fs, st, imports, depth);
            && Invariant(fs, r, stack) && Extends(fs, st, r, stack[|stack| - 1])
            && (e.EXIT_OK? ==> forall m :: m in imports ==> Registered(fs, m, r))
            && (e.EXIT_OK? && Complete(fs, st) ==> Complete(fs, r))
    decreases MAX_RECURSION_DEPTH - depth, 1 + |imports|
  {
    if imports != [] {
      var u, m := stack[|stack| - 1], imports[0];
      var (st1, e1) := Load(fs, st, TargetFile(fs, m), depth + 1);
      LoadKeeps(fs, st, TargetFile(fs, m), depth + 1, stack);
      ExtendsFrom(fs, st, st1, u, Resolve(fs, TargetFile(fs, m)));
      if e1.EXIT_OK? {
        LoadAllKeeps(fs, st1, imports[1..], depth, stack);
        var (r, e) := LoadAll(fs, st1, imports[1..], depth);
        if e.EXIT_OK? {
          StaysRegistered(fs, st1, r, stack, m);
        }
      }
    }
  }

  lemma StaysRegistered(fs: Files, st: State, r: State, stack: seq<Path>, m: Path)
    requires Invariant(fs, st, stack) && Invariant(fs, r, stack) && st.ordered <= r.ordered && Registered(fs, m, st)
    ensures Registered(fs, m, r)
  {
  }

  lemma ExtendsFrom(fs: Files, st: State, r: State, u: Path, v: Option<Path>)
    requires v.Some? ==> Imports(fs, u, v.value) && Extends(fs, st, r, v.value)
    requires v.None? ==> r == st
    ensures Extends(fs, st, r, u)
  {
    if v.Some? {
      ReachesSelf(fs, u);
      ReachesThen(fs, u, u, v.value);
      forall i | |st.ordered| <= i < |r.ordered|
        ensures Reaches(fs, u, r.ordered[i])
      {
        var p :| WalksFromTo(fs, p, v.value, r.ordered[i]);
        ReachesTransitive(fs, u, v.value, p, r.ordered[i]);
      }
    }
  }
}
