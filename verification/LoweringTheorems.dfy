/**
 * The emitted code against the manual: which functions are well formed, which keep
 * their meaning, and where and how the lowering departs from the manual.
 */
module LoweringTheorems {
  import opened Options
  import opened StatementSemantics
  import opened EmittedSemantics
  import opened ControlFlowGraph
  import opened StatementLowering
  import opened LoweringFrame
  import opened LoweringShape
  import opened LoweringReturns
  import LoweringTargets
  import opened LoweringCorrect

  /** Every block ends with its only terminator if and only if the body is sound; every jump has a destination. */
  lemma FunctionWellFormed(kind: ReturnKind, body: Stmt)
    requires TidyBranch(body)
    ensures AllBlocksClosed(LowerFunction(kind, body).blocks) <==> Sound(body, false)
    ensures LoweringTargets.AllBelow(LowerFunction(kind, body).blocks, |LowerFunction(kind, body).blocks|)
  {
    FunctionClosed(kind, body);
    LoweringTargets.LowerTargets(EntryContext(kind), body);
    LoweringTargets.EmitTargets(Lower(EntryContext(kind), body), if kind.ReturnsDirect? then RetNull else RetVoid);
  }

  // ---------- The fragment ----------

  ghost predicate NoDefer(s: Stmt)
    decreases s, 1
  {
    match s
    case Block(stmts) => NoDeferSeq(stmts)
    case If(_, thn, els) => NoDefer(thn) && (els.Some? ==> NoDefer(els.value))
    case While(_, body) => NoDefer(body)
    case For(init, _, _, body) => (init.Some? ==> NoDefer(init.value)) && NoDefer(body)
    case Defer(_) => false
    case _ => true
  }

  ghost predicate NoDeferSeq(stmts: seq<Stmt>)
    decreases stmts, 0
  {
    stmts == [] || (NoDefer(stmts[0]) && NoDeferSeq(stmts[1..]))
  }

  /**
   * `clean`: no cleanup is active.  `jump`: there is an innermost loop, and no cleanup
   * was active when it was entered, so that every active cleanup belongs to its body.
   * Then `break` and `continue` occur only where `jump` holds, no deferred body contains
   * a `defer`, and no `for` is initialised by one.
   */
  ghost predicate Inside(s: Stmt, clean: bool, jump: bool)
    decreases s, 1
  {
    match s
    case Block(stmts) => InsideSeq(stmts, clean, jump)
    case If(_, thn, els) => Inside(thn, clean, jump) && (els.Some? ==> Inside(els.value, clean, jump))
    case While(_, body) => Inside(body, clean, clean)
    case For(init, _, _, body) =>
      (init.Some? ==> Inside(init.value, clean, jump) && !Pushes(init.value)) && Inside(body, clean, clean)
    case Break => jump
    case Continue => jump
    case Defer(body) => NoDefer(body) && Inside(body, false, jump)
    case _ => true
  }

  ghost predicate InsideSeq(stmts: seq<Stmt>, clean: bool, jump: bool)
    decreases stmts, 0
  {
    stmts == [] ||
    (Inside(stmts[0], clean, jump) && InsideSeq(stmts[1..], clean && !stmts[0].Defer?, jump))
  }

  /** Bodies that are compiled, and whose jumps and deferred bodies the lowering handles as the manual says. */
  ghost predicate InFragment(body: Stmt, kind: ReturnKind)
  {
    Compiles(body, kind) && Inside(body, true, false)
  }

  // ---------- There the emitted meaning is the manual's ----------

  ghost predicate Matches(e: CodeResult, m: Result, jump: bool)
  {
    match m
    case TimeOut => e.CodeTimeOut?
    case Finished(o, st) => e.CodeFinished? && e.outcome == o && e.st == st && (o.Broke? || o.Continued? ==> jump)
  }

  /** Under a cleanup, what has no `defer` leaves exit_dest alone unless it jumps. */
  ghost predicate Keeps(e: CodeResult, clean: bool, noDefer: bool, dest: int)
  {
    Falls(e) && !clean && noDefer ==> e.dest == dest
  }

  predicate DefersFirst(s: Stmt) { s.Block? && s.stmts != [] && s.stmts[0].Defer? }

  lemma {:induction false} Agrees(world: World, kind: ReturnKind, s: Stmt, clean: bool, jump: bool, inLoop: bool,
                                  fuel: nat, st: State, dest: int)
    requires Inside(s, clean, jump) && (jump ==> inLoop)
    ensures var e := Emitted(world, kind, s, clean, inLoop, fuel, st, dest);
            && Matches(e, Exec(world, kind, s, fuel, st), jump) && Keeps(e, clean, NoDefer(s), dest)
            && (DefersFirst(s) && Falls(e) ==> e.dest == Code(Natural))
    decreases fuel, Size(s), 2
  {
    match s
    case Block(stmts) => AgreesBlock(world, kind, s, clean, jump, inLoop, fuel, st, dest);
    case If(cond, thn, els) =>
      if world(cond, st.history) != 0 {
        Agrees(world, kind, thn, clean, jump, inLoop, fuel, st.Then(cond), dest);
      } else if els.Some? {
        Agrees(world, kind, els.value, clean, jump, inLoop, fuel, st.Then(cond), dest);
      }
    case While(_, _) => AgreesWhile(world, kind, s, clean, fuel, st, dest);
    case For(init, _, _, _) =>
      if init.Some? {
        Agrees(world, kind, init.value, clean, jump, inLoop, fuel, st, dest);
        var e := Emitted(world, kind, init.value, clean, inLoop, fuel, st, dest);
        if Falls(e) {
          AgreesFor(world, kind, s, clean, fuel, e.st, e.dest);
        }
      } else {
        AgreesFor(world, kind, s, clean, fuel, st, dest);
      }
    case _ =>
  }

  lemma {:induction false} AgreesWhile(world: World, kind: ReturnKind, s: Stmt, clean: bool, fuel: nat, st: State,
                                       dest: int)
    requires s.While? && Inside(s.body, clean, clean)
    ensures var e := EmittedWhile(world, kind, s, clean, fuel, st, dest);
            Matches(e, ExecWhile(world, kind, s, fuel, st), false) && Keeps(e, clean, NoDefer(s.body), dest)
    decreases fuel, Size(s), 1
  {
    if fuel > 0 && world(s.cond, st.history) != 0 {
      Agrees(world, kind, s.body, clean, clean, true, fuel, st.Then(s.cond), dest);
      var e := Emitted(world, kind, s.body, clean, true, fuel, st.Then(s.cond), dest);
      if e.CodeFinished? && Repeats(clean, e.outcome) {
        AgreesWhile(world, kind, s, clean, fuel - 1, e.st, e.dest);
      }
    }
  }

  lemma {:induction false} AgreesFor(world: World, kind: ReturnKind, s: Stmt, clean: bool, fuel: nat, st: State,
                                     dest: int)
    requires s.For? && Inside(s.body, clean, clean)
    ensures var e := EmittedFor(world, kind, s, clean, fuel, st, dest);
            Matches(e, ExecFor(world, kind, s, fuel, st), false) && Keeps(e, clean, NoDefer(s.body), dest)
    decreases fuel, Size(s), 1
  {
    var st0 := AfterOptional(s.test, st);
    if fuel > 0 && (s.test.None? || world(s.test.value, st.history) != 0) {
      Agrees(world, kind, s.body, clean, clean, true, fuel, st0, dest);
      var e := Emitted(world, kind, s.body, clean, true, fuel, st0, dest);
      if e.CodeFinished? && Repeats(clean, e.outcome) {
        AgreesFor(world, kind, s, clean, fuel - 1, AfterOptional(s.post, e.st), e.dest);
      }
    }
  }

  /** A block: its statements, then the stack of deferred bodies. */
  function ThenDefers(world: World, kind: ReturnKind, res: BlockResult, fuel: nat, ghost bound: nat): Result
    requires res.BlockFinished? ==> Below(res.stack, bound)
  {
    match res
    case BlockTimeOut => TimeOut
    case BlockFinished(o, st, stack) => RunDefers(world, kind, stack, fuel, o, st, bound)
  }

  lemma ExecBlock(world: World, kind: ReturnKind, s: Stmt, fuel: nat, st: State)
    requires s.Block?
    ensures Exec(world, kind, s, fuel, st) ==
            ThenDefers(world, kind, ExecSeq(world, kind, s.stmts, fuel, st, [], Size(s)), fuel, Size(s))
  {
  }

  lemma {:induction false} AgreesBlock(world: World, kind: ReturnKind, s: Stmt, clean: bool, jump: bool, inLoop: bool,
                                       fuel: nat, st: State, dest: int)
    requires s.Block? && Inside(s, clean, jump) && (jump ==> inLoop)
    ensures var e := Emitted(world, kind, s, clean, inLoop, fuel, st, dest);
            && Matches(e, Exec(world, kind, s, fuel, st), jump) && Keeps(e, clean, NoDefer(s), dest)
            && (DefersFirst(s) && Falls(e) ==> e.dest == Code(Natural))
    decreases fuel, Size(s), 1
  {
    ExecBlock(world, kind, s, fuel, st);
    EmittedBlock(world, kind, s, clean, inLoop, fuel, st, dest);
    AgreesSeq(world, kind, s.stmts, clean, jump, inLoop, fuel, st, dest, [], Size(s));
    var res := EmittedSeq(world, kind, s.stmts, clean, inLoop, fuel, st, dest);
    var m := ExecSeq(world, kind, s.stmts, fuel, st, [], Size(s));
    assert m.BlockFinished? ==> [] + res.pushed == res.pushed;
    AgreesEnd(world, kind, res, m, jump, inLoop, fuel, Size(s));
  }

  /** The end of a block, with the actions it has registered. */
  lemma {:induction false} AgreesEnd(world: World, kind: ReturnKind, res: CodeBlockResult, m: BlockResult, jump: bool,
                                     inLoop: bool, fuel: nat, bound: nat)
    requires if m.BlockTimeOut? then res.CodeBlockTimeOut?
             else res.CodeBlockFinished? && res.outcome == m.outcome && res.st == m.st && m.stack == res.pushed
                  && (m.outcome.Broke? || m.outcome.Continued? ==> jump) && Deferred(res.pushed, jump)
    requires (jump ==> inLoop) && (m.BlockFinished? ==> Below(m.stack, bound))
    ensures var e := AfterSeq(world, kind, res, inLoop, fuel, bound);
            && Matches(e, ThenDefers(world, kind, m, fuel, bound), jump)
            && (Falls(e) && res.pushed == [] ==> res.outcome.Natural? && e.dest == res.dest)
            && (Falls(e) && res.pushed != [] ==> e.dest == Code(Natural))
    decreases fuel, bound, 0, if res.CodeBlockFinished? then |res.pushed| + 1 else 0
  {
    if res.CodeBlockFinished? && res.pushed != [] {
      AgreesChain(world, kind, res.pushed, jump, inLoop, fuel, res.outcome, res.st, bound);
      DispatchAgrees(EmittedChain(world, kind, res.pushed, inLoop, fuel, res.st, Code(res.outcome), bound),
                     RunDefers(world, kind, m.stack, fuel, m.outcome, m.st, bound), jump, inLoop);
    }
  }

  lemma DispatchAgrees(e: CodeResult, m: Result, jump: bool, inLoop: bool)
    requires ChainMatches(e, m, jump) && (jump ==> inLoop)
    ensures var d := Dispatch(inLoop, e);
            Matches(d, m, jump) && (Falls(d) ==> d.dest == Code(Natural))
  {
  }

  /** Behind a chain exit_dest tells what is pending. */
  ghost predicate ChainMatches(e: CodeResult, m: Result, jump: bool)
  {
    match m
    case TimeOut => e.CodeTimeOut?
    case Finished(o, st) => e.CodeFinished? && e.st == st && e.dest == Code(o) && (o.Broke? || o.Continued? ==> jump)
  }

  /** Bodies that may be deferred. */
  ghost predicate Deferred(bodies: seq<Stmt>, jump: bool)
  {
    forall i :: 0 <= i < |bodies| ==> NoDefer(bodies[i]) && Inside(bodies[i], false, jump)
  }

  ghost predicate SeqMatches(e: CodeBlockResult, m: BlockResult, stack: seq<Stmt>, jump: bool)
  {
    match m
    case BlockTimeOut => e.CodeBlockTimeOut?
    case BlockFinished(o, st, stack1) =>
      && e.CodeBlockFinished? && e.outcome == o && e.st == st && stack1 == stack + e.pushed
      && (o.Broke? || o.Continued? ==> jump) && Deferred(e.pushed, jump)
  }

  lemma {:induction false} AgreesSeq(world: World, kind: ReturnKind, stmts: seq<Stmt>, clean: bool, jump: bool,
                                     inLoop: bool, fuel: nat, st: State, dest: int, stack: seq<Stmt>, bound: nat)
    requires InsideSeq(stmts, clean, jump) && (jump ==> inLoop) && SizeSeq(stmts) < bound && Below(stack, bound)
    ensures var e := EmittedSeq(world, kind, stmts, clean, inLoop, fuel, st, dest);
            && SeqMatches(e, ExecSeq(world, kind, stmts, fuel, st, stack, bound), stack, jump)
            && (e.CodeBlockFinished? && NoDeferSeq(stmts) ==>
                  e.pushed == [] && (e.outcome.Natural? && !clean ==> e.dest == dest))
            && (e.CodeBlockFinished? && stmts != [] && stmts[0].Defer? ==> e.pushed != [])
    decreases fuel, SizeSeq(stmts), 3
  {
    if stmts == [] {
      assert stack + [] == stack;
    } else {
      var s, rest := stmts[0], stmts[1..];
      Agrees(world, kind, s, clean, jump, inLoop, fuel, st, dest);
      OnlyDefersPush(s, clean, jump);
      SeqStep(world, kind, stmts, clean, inLoop, fuel, st, dest);
      var e := Emitted(world, kind, s, clean, inLoop, fuel, st, dest);
      AgreesNext(world, kind, stmts, fuel, st, e, stack, bound);
      if Falls(e) {
        AgreesSeq(world, kind, rest, clean && !s.Defer?, jump, inLoop, fuel, e.st, e.dest, stack + PushedBy(s), bound);
        JoinMatches(PushedBy(s), EmittedSeq(world, kind, rest, clean && !s.Defer?, inLoop, fuel, e.st, e.dest),
                    ExecSeq(world, kind, rest, fuel, e.st, stack + PushedBy(s), bound), stack, jump);
      } else {
        assert stack + [] == stack;
      }
    }
  }

  lemma OnlyDefersPush(s: Stmt, clean: bool, jump: bool)
    requires Inside(s, clean, jump)
    ensures PushedBy(s) == (if s.Defer? then [s.body] else []) && Deferred(PushedBy(s), jump)
  {
  }

  lemma JoinMatches(bodies: seq<Stmt>, e: CodeBlockResult, m: BlockResult, stack: seq<Stmt>, jump: bool)
    requires SeqMatches(e, m, stack + bodies, jump) && Deferred(bodies, jump)
    ensures SeqMatches(Behind(bodies, e), m, stack, jump)
  {
    if e.CodeBlockFinished? {
      assert stack + bodies + e.pushed == stack + (bodies + e.pushed);
    }
  }

  /** One step of the manual's sequence. */
  lemma AgreesNext(world: World, kind: ReturnKind, stmts: seq<Stmt>, fuel: nat, st: State, e: CodeResult,
                   stack: seq<Stmt>, bound: nat)
    requires stmts != [] && SizeSeq(stmts) < bound && Below(stack, bound)
    requires Matches(e, Exec(world, kind, stmts[0], fuel, st), true)
    requires PushedBy(stmts[0]) == if stmts[0].Defer? then [stmts[0].body] else []
    requires stmts[0].Defer? ==> Falls(e) && e.st == st
    ensures Below(stack + PushedBy(stmts[0]), bound)
    ensures ExecSeq(world, kind, stmts, fuel, st, stack, bound) ==
            if e.CodeTimeOut? then BlockTimeOut
            else if e.outcome.Natural? then ExecSeq(world, kind, stmts[1..], fuel, e.st, stack + PushedBy(stmts[0]),
                                                    bound)
            else BlockFinished(e.outcome, e.st, stack)
  {
    assert stack + [] == stack;
  }

  lemma {:induction false} AgreesChain(world: World, kind: ReturnKind, bodies: seq<Stmt>, jump: bool, inLoop: bool,
                                       fuel: nat, pending: Outcome, st: State, bound: nat)
    requires Deferred(bodies, jump) && Below(bodies, bound) && (jump ==> inLoop)
    requires pending.Broke? || pending.Continued? ==> jump
    ensures ChainMatches(EmittedChain(world, kind, bodies, inLoop, fuel, st, Code(pending), bound),
                         RunDefers(world, kind, bodies, fuel, pending, st, bound), jump)
    decreases fuel, bound, 0, |bodies|
  {
    if bodies != [] {
      var last, rest := bodies[|bodies| - 1], bodies[..|bodies| - 1];
      Agrees(world, kind, last, false, jump, inLoop, fuel, st, Code(pending));
      var e := Emitted(world, kind, last, false, inLoop, fuel, st, Code(pending));
      if e.CodeFinished? {
        AgreesChain(world, kind, rest, jump, inLoop, fuel, Override(pending, e.outcome), e.st, bound);
      }
    }
  }

  /** The body finishes, with some bound on its loops, and shows `seen`. */
  ghost predicate Shows(world: World, kind: ReturnKind, body: Stmt, st: State, seen: Observed)
  {
    exists fuel: nat :: Finishes(world, kind, body, fuel, st, seen)
  }

  predicate Finishes(world: World, kind: ReturnKind, body: Stmt, fuel: nat, st: State, seen: Observed)
  {
    var res := Exec(world, kind, body, fuel, st);
    res.Finished? && Observe(kind, res.outcome, res.st) == seen
  }

  /**
   * Main theorem: the blocks of the lowered function are well formed and return as the
   * function does, and they halt with an observation if and only if the structured function
   * finishes with it by the manual.  In particular one diverges if the other does.
   */
  lemma LoweringPreservesMeaning(world: World, kind: ReturnKind, body: Stmt, st: State, dest: int, tmp: int,
                                 seen: Observed)
    requires InFragment(body, kind)
    ensures AllBlocksClosed(LowerFunction(kind, body).blocks) && AllSuit(kind, LowerFunction(kind, body).blocks)
    ensures Shows(world, kind, body, st, seen)
            <==> Halts(world, LowerFunction(kind, body).blocks, Entry(st, dest, tmp), seen)
  {
    LoweringMeans(world, kind, body, st, dest, tmp, seen);
    forall fuel: nat
      ensures Finishes(world, kind, body, fuel, st, seen) == EmittedFinishes(world, kind, body, fuel, st, dest, seen)
    {
      Agrees(world, kind, body, true, false, false, fuel, st, dest);
    }
    if Shows(world, kind, body, st, seen) {
      var fuel: nat :| Finishes(world, kind, body, fuel, st, seen);
      assert EmittedFinishes(world, kind, body, fuel, st, dest, seen);
    }
    if EmittedShows(world, kind, body, st, dest, seen) {
      var fuel: nat :| EmittedFinishes(world, kind, body, fuel, st, dest, seen);
      assert Finishes(world, kind, body, fuel, st, seen);
    }
  }

  /** A lowered function halts with one observation at most. */
  lemma HaltsWithOne(world: World, g: seq<Block>, k: Config, seen1: Observed, seen2: Observed)
    requires Halts(world, g, k, seen1) && Halts(world, g, k, seen2)
    ensures seen1 == seen2
  {
    var m: nat :| Run(world, g, m, k) == Halted(seen1);
    var n: nat :| Run(world, g, n, k) == Halted(seen2);
    HaltsOnce(world, g, m, n, k);
  }

  // ---------- Limit: a deferred body that itself defers ----------

  /** `{ defer d; return e; }` */
  function DeferThenReturn(d: Stmt, e: Expr): Stmt
  {
    Block([Defer(d)] + [Return(Some(e))])
  }

  /**
   * A deferred body that itself begins with a `defer` and falls through overwrites
   * exit_dest by 3.  The pending return is lost: the function returns zero, where the
   * manual has it return the saved value.  So the two agree exactly if that value is zero.
   */
  lemma NestedDeferLosesReturn(world: World, d: Stmt, e: Expr, fuel: nat, st: State, dest: int, tmp: int)
    requires Compiles(DeferThenReturn(d, e), ReturnsDirect) && Inside(d, false, false) && DefersFirst(d)
    requires NaturalFrom(world, ReturnsDirect, d, fuel, SetSlot(world, ReturnsDirect, Some(e), st))
    ensures var st2 := Exec(world, ReturnsDirect, d, fuel, SetSlot(world, ReturnsDirect, Some(e), st)).st;
            var g, manual := LowerFunction(ReturnsDirect, DeferThenReturn(d, e)).blocks, Observed(st2, Some(st2.slot));
            && Shows(world, ReturnsDirect, DeferThenReturn(d, e), st, manual)
            && Halts(world, g, Entry(st, dest, tmp), Observed(st2, Some(0)))
            && (Halts(world, g, Entry(st, dest, tmp), manual) <==> st2.slot == 0)
  {
    var s, st1 := DeferThenReturn(d, e), SetSlot(world, ReturnsDirect, Some(e), st);
    var st2 := Exec(world, ReturnsDirect, d, fuel, st1).st;
    var g, manual, lowered := LowerFunction(ReturnsDirect, s).blocks, Observed(st2, Some(st2.slot)),
        Observed(st2, Some(0));
    OneDefer(world, ReturnsDirect, d, [Return(Some(e))], fuel, st);
    assert ExecSeq(world, ReturnsDirect, [Return(Some(e))], fuel, st, [d], Size(s))
           == BlockFinished(Returned, st1, [d]);
    RunOne(world, ReturnsDirect, d, fuel, Returned, st1, Size(s));
    assert Finishes(world, ReturnsDirect, s, fuel, st, manual);
    Agrees(world, ReturnsDirect, d, false, false, false, fuel, st1, Code(Returned));
    EmittedOneDefer(world, ReturnsDirect, d, [Return(Some(e))], fuel, st, dest);
    assert EmittedFinishes(world, ReturnsDirect, s, fuel, st, dest, lowered);
    LoweringMeans(world, ReturnsDirect, s, st, dest, tmp, lowered);
    if Halts(world, g, Entry(st, dest, tmp), manual) {
      HaltsWithOne(world, g, Entry(st, dest, tmp), manual, lowered);
    }
  }

  /** By the manual: a block that begins with a `defer`. */
  lemma OneDefer(world: World, kind: ReturnKind, d: Stmt, rest: seq<Stmt>, fuel: nat, st: State)
    ensures Size(Block([Defer(d)] + rest)) > SizeSeq(rest) + Size(d)
    ensures Exec(world, kind, Block([Defer(d)] + rest), fuel, st) ==
            ThenDefers(world, kind, ExecSeq(world, kind, rest, fuel, st, [d], Size(Block([Defer(d)] + rest))), fuel,
                       Size(Block([Defer(d)] + rest)))
  {
    var s := Block([Defer(d)] + rest);
    assert s.stmts[1..] == rest && [] + [d] == [d] && Size(Defer(d)) > Size(d);
    ExecBlock(world, kind, s, fuel, st);
  }

  lemma RunOne(world: World, kind: ReturnKind, d: Stmt, fuel: nat, pending: Outcome, st: State, bound: nat)
    requires Size(d) < bound && NaturalFrom(world, kind, d, fuel, st)
    ensures RunDefers(world, kind, [d], fuel, pending, st, bound)
            == Finished(pending, Exec(world, kind, d, fuel, st).st)
  {
    assert [d][..0] == [];
  }

  /** As emitted: the same block, if the rest registers nothing before it leaves. */
  lemma EmittedOneDefer(world: World, kind: ReturnKind, d: Stmt, rest: seq<Stmt>, fuel: nat, st: State, dest: int)
    requires var res := EmittedSeq(world, kind, rest, false, false, fuel, st, dest);
             res.CodeBlockFinished? && res.pushed == []
    ensures var res := EmittedSeq(world, kind, rest, false, false, fuel, st, dest);
            Emitted(world, kind, Block([Defer(d)] + rest), true, false, fuel, st, dest) ==
            Dispatch(false, Emitted(world, kind, d, false, false, fuel, res.st, Code(res.outcome)))
  {
    var s, res := Block([Defer(d)] + rest), EmittedSeq(world, kind, rest, false, false, fuel, st, dest);
    assert s.stmts[1..] == rest && [d] + [] == [d] && Size(Defer(d)) > Size(d);
    assert EmittedSeq(world, kind, s.stmts, true, false, fuel, st, dest) == res.(pushed := [d]);
    assert [d][..0] == [];
    var first := Emitted(world, kind, d, false, false, fuel, res.st, Code(res.outcome));
    assert EmittedChain(world, kind, [d], false, fuel, res.st, Code(res.outcome), Size(s))
        == if first.CodeTimeOut? then CodeTimeOut else CodeFinished(Natural, first.st, first.dest);
  }

  // ---------- Limit: a loop under an active cleanup ----------

  /** `{ defer d; while (cond) { break; } rest }`, or the same with `continue`. */
  function LoopUnderDefer(d: Stmt, cond: Expr, jump: Stmt, rest: seq<Stmt>): Stmt
  {
    Block([Defer(d)] + ([While(cond, Block([jump]))] + rest))
  }

  /**
   * A loop under an active cleanup: its `break` or `continue` enters the cleanup of the
   * enclosing block and leaves the function.  The manual has the loop end, or go on, and
   * the rest of the block run before the deferred body.
   *
   * `st2` is where the manual's loop and rest come to.  The code never gets there: if that
   * takes any action beyond the first test of the loop, and the deferred body performs as
   * many actions from there as from behind the first test, then no run of the code shows
   * what the manual shows.  If it takes none, the code does what the manual says.
   */
  lemma JumpUnderDeferSkipsRest(world: World, kind: ReturnKind, d: Stmt, cond: Expr, jump: Stmt, rest: seq<Stmt>,
                                fuel: nat, st: State, dest: int, tmp: int, o: Outcome, st2: State)
    requires Compiles(LoopUnderDefer(d, cond, jump, rest), kind) && (jump == Break || jump == Continue)
    requires NoDefer(d) && Inside(d, false, false) && fuel > 0 && world(cond, st.history) != 0
    requires ByManual(world, kind, d, cond, jump, rest, fuel, st, o, st2)
    requires NaturalFrom(world, kind, d, fuel, st.Then(cond)) && NaturalFrom(world, kind, d, fuel, st2)
    ensures var s := LoopUnderDefer(d, cond, jump, rest);
            var g := LowerFunction(kind, s).blocks;
            var early, late := Exec(world, kind, d, fuel, st.Then(cond)).st, Exec(world, kind, d, fuel, st2).st;
            && Shows(world, kind, s, st, Observe(kind, o, late))
            && Halts(world, g, Entry(st, dest, tmp), Observe(kind, Natural, early))
            && (st2 == st.Then(cond) && o.Natural? ==> Halts(world, g, Entry(st, dest, tmp), Observe(kind, o, late)))
            && (|st2.history| > |st.history| + 1
                && |late.history| - |st2.history| == |early.history| - |st.history| - 1 ==>
                  !Halts(world, g, Entry(st, dest, tmp), Observe(kind, o, late)))
  {
    var s, g := LoopUnderDefer(d, cond, jump, rest), LowerFunction(kind, LoopUnderDefer(d, cond, jump, rest)).blocks;
    var early, late := Exec(world, kind, d, fuel, st.Then(cond)).st, Exec(world, kind, d, fuel, st2).st;
    ManualRunsRest(world, kind, d, cond, jump, rest, fuel, st, o, st2);
    JumpEntersCleanup(world, kind, d, cond, jump, rest, fuel, st, dest);
    assert EmittedFinishes(world, kind, s, fuel, st, dest, Observe(kind, Natural, early));
    LoweringMeans(world, kind, s, st, dest, tmp, Observe(kind, Natural, early));
    if Halts(world, g, Entry(st, dest, tmp), Observe(kind, o, late)) {
      HaltsWithOne(world, g, Entry(st, dest, tmp), Observe(kind, o, late), Observe(kind, Natural, early));
    }
  }

  predicate NaturalFrom(world: World, kind: ReturnKind, d: Stmt, fuel: nat, st: State)
  {
    var res := Exec(world, kind, d, fuel, st);
    res.Finished? && res.outcome.Natural?
  }

  /** The loop and the rest of the block by the manual, if they register nothing more. */
  ghost predicate ByManual(world: World, kind: ReturnKind, d: Stmt, cond: Expr, jump: Stmt, rest: seq<Stmt>, fuel: nat,
                           st: State, o: Outcome, st2: State)
  {
    OneDefer(world, kind, d, [While(cond, Block([jump]))] + rest, fuel, st);
    var stmts := [While(cond, Block([jump]))] + rest;
    ExecSeq(world, kind, stmts, fuel, st, [d], Size(LoopUnderDefer(d, cond, jump, rest))) == BlockFinished(o, st2, [d])
  }

  lemma ManualRunsRest(world: World, kind: ReturnKind, d: Stmt, cond: Expr, jump: Stmt, rest: seq<Stmt>, fuel: nat,
                       st: State, o: Outcome, st2: State)
    requires ByManual(world, kind, d, cond, jump, rest, fuel, st, o, st2) && NaturalFrom(world, kind, d, fuel, st2)
    ensures Finishes(world, kind, LoopUnderDefer(d, cond, jump, rest), fuel, st,
                     Observe(kind, o, Exec(world, kind, d, fuel, st2).st))
  {
    OneDefer(world, kind, d, [While(cond, Block([jump]))] + rest, fuel, st);
    RunOne(world, kind, d, fuel, o, st2, Size(LoopUnderDefer(d, cond, jump, rest)));
  }

  /**
   * As emitted, the jump is the end of the block's statements, and exit_dest still tells of a jump
   * behind the cleanup.
   */
  lemma JumpEntersCleanup(world: World, kind: ReturnKind, d: Stmt, cond: Expr, jump: Stmt, rest: seq<Stmt>, fuel: nat,
                          st: State, dest: int)
    requires (jump == Break || jump == Continue) && fuel > 0 && world(cond, st.history) != 0
    requires NoDefer(d) && Inside(d, false, false) && NaturalFrom(world, kind, d, fuel, st.Then(cond))
    ensures var res := Emitted(world, kind, LoopUnderDefer(d, cond, jump, rest), true, false, fuel, st, dest);
            res.CodeFinished? && res.outcome.Natural? && res.st == Exec(world, kind, d, fuel, st.Then(cond)).st
  {
    var loop, o, st1 := While(cond, Block([jump])), if jump == Break then Broke else Continued, st.Then(cond);
    assert Emitted(world, kind, jump, false, true, fuel, st1, dest) == CodeFinished(o, st1, Code(o));
    assert EmittedSeq(world, kind, [jump], false, true, fuel, st1, dest) == CodeBlockFinished(o, st1, Code(o), []);
    assert Emitted(world, kind, Block([jump]), false, true, fuel, st1, dest) == CodeFinished(o, st1, Code(o));
    assert Emitted(world, kind, loop, false, false, fuel, st, dest) == CodeFinished(o, st1, Code(o));
    var stmts := [loop] + rest;
    assert EmittedSeq(world, kind, stmts, false, false, fuel, st, dest) == CodeBlockFinished(o, st1, Code(o), []);
    EmittedOneDefer(world, kind, d, stmts, fuel, st, dest);
    Agrees(world, kind, d, false, false, false, fuel, st1, Code(o));
  }
}
