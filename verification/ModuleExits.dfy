/** What the exit code of a load says about the modules that the entry reaches. */
module ModuleExits {
  import opened Options
  import opened ModuleLoader
  import opened ModuleOrder

  // ---------- what is wrong with a module ----------

  /** What loading finds wrong with the module at `v` itself. */
  ghost predicate Faulty(fs: Files, v: Path, e: Exit)
  {
    match e
    case EXIT_OK => false
    case EXIT_LEX => v in fs.sources && fs.sources[v].Unlexable?
    case EXIT_PARSE => v in fs.sources && fs.sources[v].Unparsable?
    case EXIT_IO =>
      || v !in fs.sources
      || (fs.sources[v].Parsed? && exists m :: m in fs.sources[v].imports && Resolve(fs, TargetFile(fs, m)).None?)
  }

  /** Some module that `root` reaches is faulty in that way. */
  ghost predicate ReachesFault(fs: Files, root: Path, e: Exit)
  {
    exists v :: Reaches(fs, root, v) && Faulty(fs, v, e)
  }

  /** A reason for the exit code, in the files alone. */
  ghost predicate Explains(fs: Files, path: Path, e: Exit)
  {
    match Resolve(fs, path)
    case None => e == EXIT_IO
    case Some(root) => ReachesFault(fs, root, e) || (e == EXIT_IO && !Shallow(fs, root))
  }

  // ---------- every failure has its reason ----------

  /** The modules in progress and the next one: a chain that has become too long. */
  lemma TooLong(fs: Files, st: State, stack: seq<Path>, abs: Path)
    requires Invariant(fs, st, stack) && |stack| == MAX_RECURSION_DEPTH + 1
    requires Imports(fs, stack[|stack| - 1], abs)
    ensures !Shallow(fs, stack[0])
  {
    if Shallow(fs, stack[0]) {
      StackFits(fs, st, stack, abs);
    }
  }

  lemma {:induction false} LoadFails(fs: Files, st: State, path: Path, depth: nat, stack: seq<Path>, root: Path)
    requires |stack| == depth <= MAX_RECURSION_DEPTH + 1 && Invariant(fs, st, stack)
    requires stack != [] && Resolve(fs, path).Some? ==> Imports(fs, stack[|stack| - 1], Resolve(fs, path).value)
    requires stack != [] ==> stack[0] == root && Reaches(fs, root, stack[|stack| - 1])
    requires stack == [] ==> Resolve(fs, path) == Some(root)
    ensures var e := Load(fs, st, path, depth).1;
            || e.EXIT_OK? || ReachesFault(fs, root, e)
            || (e.EXIT_IO? && (Resolve(fs, path).None? || !Shallow(fs, root)))
    decreases MAX_RECURSION_DEPTH + 1 - depth, 0
  {
    if Resolve(fs, path).Some? {
      var abs := Resolve(fs, path).value;
      if depth > MAX_RECURSION_DEPTH {
        TooLong(fs, st, stack, abs);
      } else if abs !in st.units {
        ReachesSelf(fs, root);
        if stack != [] {
          ReachesThen(fs, root, stack[|stack| - 1], abs);
        }
        assert Reaches(fs, root, abs);
        if abs in fs.sources && fs.sources[abs].Parsed? {
          var imports := fs.sources[abs].imports;
          Enter(fs, st, abs, stack);
          assert (stack + [abs])[0] == root;
          LoadAllFails(fs, st.(units := st.units[abs := imports]), imports, depth, stack + [abs], root);
        } else {
          assert Faulty(fs, abs, Load(fs, st, path, depth).1);
        }
      }
    }
  }

  lemma {:induction false} LoadAllFails(fs: Files, st: State, imports: seq<Path>, depth: nat, stack: seq<Path>,
                                        root: Path)
    requires |stack| == depth + 1 && depth <= MAX_RECURSION_DEPTH && Invariant(fs, st, stack)
    requires stack[0] == root && Reaches(fs, root, stack[depth])
    requires var u := stack[depth];
             u in fs.sources && fs.sources[u].Parsed? && forall m :: m in imports ==> m in fs.sources[u].imports
    ensures var e := LoadAll(fs, st, imports, depth).1;
            e.EXIT_OK? || ReachesFault(fs, root, e) || (e.EXIT_IO? && !Shallow(fs, root))
    decreases MAX_RECURSION_DEPTH - depth, 1 + |imports|
  {
    if imports != [] {
      var u, file := stack[depth], TargetFile(fs, imports[0]);
      if Resolve(fs, file).None? {
        assert Faulty(fs, u, EXIT_IO);
      }
      LoadFails(fs, st, file, depth + 1, stack, root);
      LoadKeeps(fs, st, file, depth + 1, stack);
      if Load(fs, st, file, depth + 1).1.EXIT_OK? {
        LoadAllFails(fs, Load(fs, st, file, depth + 1).0, imports[1..], depth, stack, root);
      }
    }
  }

  /**
   * EXIT_LEX only if the entry reaches a module that does not lex, EXIT_PARSE only if it
   * reaches one that does not parse, and EXIT_IO only if it reaches one that cannot be read or
   * whose imports do not all resolve, or lies at the start of a chain beyond the depth limit.
   */
  lemma FailureIsExplained(fs: Files, path: Path)
    requires !Load(fs, Empty, path, 0).1.EXIT_OK?
    ensures Explains(fs, path, Load(fs, Empty, path, 0).1)
  {
    EmptyInvariant(fs);
    if Resolve(fs, path).Some? {
      LoadFails(fs, Empty, path, 0, [], Resolve(fs, path).value);
    }
  }

  /** A reachable fault is never passed over. */
  lemma FaultIsNotMissed(fs: Files, path: Path, e: Exit)
    requires Resolve(fs, path).Some? && ReachesFault(fs, Resolve(fs, path).value, e)
    ensures !Load(fs, Empty, path, 0).1.EXIT_OK?
  {
    if Load(fs, Empty, path, 0).1.EXIT_OK? {
      LoadedIsLoadable(fs, path);
    }
  }

  /**
   * Where all that is wrong is of one kind, that kind is the exit code; where nothing is
   * wrong, the load succeeds.
   */
  lemma ExitIsTheFault(fs: Files, path: Path)
    requires Resolve(fs, path).Some? && Shallow(fs, Resolve(fs, path).value)
    ensures var root, exit := Resolve(fs, path).value, Load(fs, Empty, path, 0).1;
            && (exit.EXIT_OK? <==> forall e :: !ReachesFault(fs, root, e))
            && forall e :: ReachesFault(fs, root, e) && (forall f :: f != e ==> !ReachesFault(fs, root, f)) ==>
                 exit == e
  {
    var root, exit := Resolve(fs, path).value, Load(fs, Empty, path, 0).1;
    if exit.EXIT_OK? {
      forall e
        ensures !ReachesFault(fs, root, e)
      {
        if ReachesFault(fs, root, e) {
          FaultIsNotMissed(fs, path, e);
        }
      }
    } else {
      FailureIsExplained(fs, path);
      assert ReachesFault(fs, root, exit);
    }
  }

  // ---------- which file an import means ----------

  /**
   * An import means the regular file of its name, whether or not there is a directory beside
   * it; and the `module.nt` of the directory only where there is no such file.
   */
  lemma ImportFinds(fs: Files, m: Path)
    ensures m + ".nt" in fs.regular && m + ".nt" in fs.realpath ==>
              Resolve(fs, TargetFile(fs, m)) == Some(fs.realpath[m + ".nt"])
    ensures m + ".nt" !in fs.regular && m + "/module.nt" in fs.realpath ==>
              Resolve(fs, TargetFile(fs, m)) == Some(fs.realpath[m + "/module.nt"])
    ensures (forall p :: p in fs.realpath ==> !(m <= p)) ==> Resolve(fs, TargetFile(fs, m)).None?
  {
    assert m <= m + ".nt" && m <= m + "/module.nt";
    assert m <= m + ".nt" + "/module.nt" && m <= m + "/module.nt" + "/module.nt";
  }

  /** An entry that does not exist as it is written is looked for as a directory with a `module.nt`. */
  lemma EntryFinds(fs: Files, path: Path)
    ensures path in fs.realpath ==> Resolve(fs, path) == Some(fs.realpath[path])
    ensures path !in fs.realpath && path + "/module.nt" in fs.realpath ==>
              Resolve(fs, path) == Some(fs.realpath[path + "/module.nt"])
    ensures Resolve(fs, path).None? <==> path !in fs.realpath && path + "/module.nt" !in fs.realpath
  {
  }
}
