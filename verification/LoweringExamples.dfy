/** Small functions that meet, or miss, the conditions of the theorems about the lowering. */
module LoweringExamples {
  import opened Options
  import opened StatementSemantics
  import opened ControlFlowGraph
  import opened StatementLowering
  import opened LoweringFrame
  import opened LoweringShape
  import opened LoweringReturns
  import opened LoweringCorrect
  import opened LoweringTheorems
  import opened JumpLimits
  import opened Histories

  const A: Expr := Valued(1)
  const B: Expr := Valued(2)
  const C: Expr := Valued(3)

  function Constantly(v: int): Oracle
  {
    (e, h) => v
  }

  // ---------- What the parser and the type checker accept and LLVM refuses ----------

  lemma OneStatement(s: Stmt, inLoop: bool)
    ensures TidySeq([s]) <==> Tidy(s)
    ensures SeqSound([s], inLoop) <==> Sound(s, inLoop)
    ensures DefersSound([s], inLoop) <==> (Pushes(s) ==> BodySound(PushedBy(s)[0], inLoop))
  {
    assert [s][1..] == [] && SeqSound([], inLoop) && DefersSound([], inLoop) && TidySeq([]);
  }

  /** `for (return A; ; ) { }` ends the block that the jump to the test goes into. */
  lemma ReturnAsInitialiser(kind: ReturnKind)
    ensures var body := Block([For(Some(Return(Some(A))), None, None, Block([]))]);
            TidyBranch(body) && !Sound(body, false) && !AllBlocksClosed(LowerFunction(kind, body).blocks)
  {
    var init := Return(Some(A));
    var s := For(Some(init), None, None, Block([]));
    assert Ends(init, false) && TidySeq([]) && Tidy(init) && TidyBranch(Block([]));
    OneStatement(s, false);
    assert !Sound(s, false);
    FunctionWellFormed(kind, Block([s]));
  }

  /** `defer defer A;` registers an action whose block is never filled. */
  lemma DeferredDefer(kind: ReturnKind)
    ensures var body := Block([Defer(Defer(ExprStmt(A)))]);
            TidyBranch(body) && !Sound(body, false) && !AllBlocksClosed(LowerFunction(kind, body).blocks)
  {
    var d := Defer(ExprStmt(A));
    var s := Defer(d);
    assert PushedBy(s) == [d] && Pushes(d) && !BodySound(d, false);
    assert Tidy(d);
    OneStatement(s, false);
    FunctionWellFormed(kind, Block([s]));
  }

  /**
   * `return f();` with an `f` that returns nothing is typed in a function that returns nothing,
   * and refused as a return with an operand; behind a `defer` it is not, and nor is a `print`.
   */
  lemma ReturnOfVoidCall(d: Stmt, f: Expr)
    requires f.Valued? && TidyBranch(d)
    ensures !AllSuit(ReturnsVoid, LowerFunction(ReturnsVoid, Block([Return(Some(f))])).blocks)
    ensures AllSuit(ReturnsVoid, LowerFunction(ReturnsVoid, DeferThenReturn(d, f)).blocks)
    ensures AllSuit(ReturnsVoid, LowerFunction(ReturnsVoid, Block([Return(Some(Silent(f.id)))])).blocks)
  {
    var bare, covered, silent := Return(Some(f)), DeferThenReturn(d, f), Return(Some(Silent(f.id)));
    assert TidySeq([]) && TidySeq([bare]) && TidySeq([silent]);
    assert covered.stmts[1..] == [bare] && TidySeq(covered.stmts);
    assert !SeqReturnsSuit([bare], ReturnsVoid, false) && SeqReturnsSuit([silent], ReturnsVoid, false);
    BehindDeferSuits(d, [bare], ReturnsVoid);
    ReturnsFit(ReturnsVoid, Block([bare]));
    ReturnsFit(ReturnsVoid, covered);
    ReturnsFit(ReturnsVoid, Block([silent]));
  }

  lemma BehindDeferSuits(d: Stmt, rest: seq<Stmt>, kind: ReturnKind)
    ensures ReturnsSuit(Block([Defer(d)] + rest), kind, false)
  {
    var stmts := [Defer(d)] + rest;
    assert stmts[0] == Defer(d) && ReturnsSuit(Defer(d), kind, false);
    assert SeqReturnsSuit(stmts, kind, false);
  }

  // ---------- What is compiled ----------

  ghost predicate SeqCompiles(stmts: seq<Stmt>, inLoop: bool)
  {
    TidySeq(stmts) && SeqSound(stmts, inLoop) && DefersSound(stmts, inLoop)
  }

  lemma Prepend(s: Stmt, rest: seq<Stmt>, inLoop: bool)
    requires Tidy(s) && Sound(s, inLoop) && (Pushes(s) ==> BodySound(PushedBy(s)[0], inLoop))
    requires SeqCompiles(rest, inLoop)
    ensures SeqCompiles([s] + rest, inLoop)
  {
    assert ([s] + rest)[1..] == rest;
  }

  lemma OneActionCompiles()
    ensures Compiles(LoopUnderDefer(ExprStmt(A), C, Break, [ExprStmt(B)]), ReturnsVoid)
  {
    var loop := While(C, Block([Break]));
    Prepend(Break, [], true);
    Prepend(ExprStmt(B), [], false);
    assert [Break] + [] == [Break] && [ExprStmt(B)] + [] == [ExprStmt(B)];
    Prepend(loop, [ExprStmt(B)], false);
    Prepend(Defer(ExprStmt(A)), [loop] + [ExprStmt(B)], false);
    BehindDeferSuits(ExprStmt(A), [loop] + [ExprStmt(B)], ReturnsVoid);
  }

  lemma NestedDeferCompiles()
    ensures Compiles(DeferThenReturn(Block([Defer(ExprStmt(A))]), B), ReturnsDirect)
  {
    var d, ret := Block([Defer(ExprStmt(A))]), Return(Some(B));
    assert [Defer(ExprStmt(A))] + [] == [Defer(ExprStmt(A))] && [ret] + [] == [ret];
    Prepend(Defer(ExprStmt(A)), [], false);
    assert Tidy(d) && Sound(d, false) && !Pushes(d);
    Prepend(ret, [], false);
    Prepend(Defer(d), [ret], false);
    BehindDeferSuits(d, [ret], ReturnsDirect);
  }

  // ---------- Where the code departs from the manual ----------

  /** `{ defer A; while (C) { break; } B; }`: the manual performs C, B, A, the code C and A. */
  lemma BreakSkipsOneAction(st: State)
    ensures var body, w := LoopUnderDefer(ExprStmt(A), C, Break, [ExprStmt(B)]), Constantly(1);
            var manual := Observed(st.Then(C).Then(B).Then(A), None);
            && Shows(w, ReturnsVoid, body, st, manual)
            && Halts(w, LowerFunction(ReturnsVoid, body).blocks, Entry(st, 0, 0), Observed(st.Then(C).Then(A), None))
            && !Halts(w, LowerFunction(ReturnsVoid, body).blocks, Entry(st, 0, 0), manual)
  {
    OneActionCompiles();
    OneActionByManual(st);
    JumpUnderDeferSkipsRest(Constantly(1), ReturnsVoid, ExprStmt(A), C, Break, [ExprStmt(B)], 1, st, 0, 0, Natural,
                            st.Then(C).Then(B));
  }

  lemma OneActionByManual(st: State)
    ensures ByManual(Constantly(1), ReturnsVoid, ExprStmt(A), C, Break, [ExprStmt(B)], 1, st, Natural,
                     st.Then(C).Then(B))
  {
    var w, d, rest := Constantly(1), ExprStmt(A), [ExprStmt(B)];
    var loop := While(C, Block([Break]));
    assert ExecSeq(w, ReturnsVoid, [Break], 1, st.Then(C), [], Size(Block([Break])))
           == BlockFinished(Broke, st.Then(C), []);
    assert Exec(w, ReturnsVoid, loop, 1, st) == Finished(Natural, st.Then(C));
    assert ([loop] + rest)[1..] == rest && rest[1..] == [];
    var bound := Size(LoopUnderDefer(d, C, Break, rest));
    assert Size(LoopUnderDefer(d, C, Break, rest)) > SizeSeq(rest) + Size(d) by {
      OneDefer(w, ReturnsVoid, d, [loop] + rest, 1, st);
    }
    assert ExecSeq(w, ReturnsVoid, rest, 1, st.Then(C), [d], bound)
        == BlockFinished(Natural, st.Then(C).Then(B), [d]) by {
      assert Exec(w, ReturnsVoid, ExprStmt(B), 1, st.Then(C)) == Finished(Natural, st.Then(C).Then(B));
    }
    OneDefer(w, ReturnsVoid, d, [loop] + rest, 1, st);
  }

  /** `{ defer { defer A; } return B; }` returns zero, where the manual returns the value of B. */
  lemma NestedDeferReturnsZero(v: int, st: State)
    ensures var body, w := DeferThenReturn(Block([Defer(ExprStmt(A))]), B), Constantly(v);
            && Shows(w, ReturnsDirect, body, st, Observed(State(st.history + [B] + [A], v), Some(v)))
            && Halts(w, LowerFunction(ReturnsDirect, body).blocks, Entry(st, 0, 0),
                     Observed(State(st.history + [B] + [A], v), Some(0)))
  {
    InnerDeferByManual(Constantly(v), ReturnsDirect, State(st.history + [B], v));
    NestedDeferCompiles();
    NestedDeferLosesReturn(Constantly(v), Block([Defer(ExprStmt(A))]), B, 0, st, 0, 0);
  }

  lemma InnerDeferByManual(w: World, kind: ReturnKind, st: State)
    ensures var d := Block([Defer(ExprStmt(A))]);
            Exec(w, kind, d, 0, st) == Finished(Natural, st.Then(A)) && Inside(d, false, false) && DefersFirst(d)
  {
    var a, inner := ExprStmt(A), [Defer(ExprStmt(A))];
    InnerDeferInside();
    assert [Defer(a)] + [] == inner;
    OneDefer(w, kind, a, [], 0, st);
    assert ExecSeq(w, kind, [], 0, st, [a], Size(Block(inner))) == BlockFinished(Natural, st, [a]);
    RunOne(w, kind, a, 0, Natural, st, Size(Block(inner)));
  }

  lemma InnerDeferInside()
    ensures Inside(Block([Defer(ExprStmt(A))]), false, false)
  {
    var d, inner := Defer(ExprStmt(A)), [Defer(ExprStmt(A))];
    assert inner[0] == d && inner[1..] == [];
    assert InsideSeq([], false, false) && Inside(d, false, false);
    assert InsideSeq(inner, false, false);
  }

  // ---------- A jump further inside ----------

  const D: Expr := Valued(4)
  const E: Expr := Valued(5)

  /** `while (C) { defer A; if (D) { while (E) { break; } } B; }` */
  const SURROUNDED: Site :=
    Site([InWhile(C)], [Defer(ExprStmt(A))], [InThen(D, None), InBlock([], [])], While(E, Block([Break])),
         [ExprStmt(B)])

  lemma SurroundedBody()
    ensures var loop := While(E, Block([Break]));
            SURROUNDED.Body() == While(C, Block([Defer(ExprStmt(A)), If(D, Block([loop]), None), ExprStmt(B)]))
  {
    var loop, inner := While(E, Block([Break])), SURROUNDED.inner;
    assert inner[1..] == [InBlock([], [])] && inner[1..][1..] == [] && [] + ([loop] + []) == [loop];
    assert Plug([], loop) == loop && Plug([InBlock([], [])], loop) == Block([loop]);
    assert Plug(inner, loop) == If(D, Block([loop]), None);
    var x := Plug(inner, loop);
    assert [Defer(ExprStmt(A))] + ([x] + [ExprStmt(B)]) == [Defer(ExprStmt(A)), x, ExprStmt(B)];
    var owner := Fill(SURROUNDED.Owner(), x);
    assert owner == Block([Defer(ExprStmt(A)), x, ExprStmt(B)]);
    assert SURROUNDED.outer[1..] == [] && Plug([], owner) == owner && Plug(SURROUNDED.outer, owner) == While(C, owner);
  }

  lemma SurroundedCompiles()
    ensures Compiles(SURROUNDED.Body(), ReturnsVoid)
  {
    var a, b, loop := Defer(ExprStmt(A)), ExprStmt(B), While(E, Block([Break]));
    var x := If(D, Block([loop]), None);
    SurroundedBody();
    OneStatement(Break, true);
    OneStatement(loop, true);
    assert Tidy(loop) && Tidy(Block([loop])) && Sound(loop, true) && Sound(Block([loop]), true);
    assert Tidy(x) && Sound(x, true);
    Prepend(b, [], true);
    assert [b] + [] == [b] && [x] + [b] == [x, b] && [a] + [x, b] == [a, x, b];
    Prepend(x, [b], true);
    Prepend(a, [x, b], true);
    BehindDeferSuits(ExprStmt(A), [x, b], ReturnsVoid);
    assert SeqReturnsSuit([a, x, b], ReturnsVoid, true);
    var block := Block([a, x, b]);
    assert Tidy(block) && Sound(block, true) && ReturnsSuit(block, ReturnsVoid, true);
  }

  lemma SurroundedTaken(world: World, st: State) returns (trip: Trip)
    requires world(C, st.history) != 0 && world(D, st.Then(C).history) != 0 && world(E, st.Then(C).Then(D).history) != 0
    ensures Taken(world, ReturnsVoid, SURROUNDED, 1, st, trip) && trip.q.stack == [ExprStmt(A)]
    ensures trip.o == Broke && trip.st2 == st.Then(C).Then(D).Then(E)
  {
    var loop, st1, st2, st3 := While(E, Block([Break])), st.Then(C), st.Then(C).Then(D), st.Then(C).Then(D).Then(E);
    var top, p := Place(st, true, false, false, []), Place(st1, true, true, true, []);
    var q := Place(st1, false, true, true, [ExprStmt(A)]);
    var r1, r := Place(st2, false, true, true, []), Place(st2, false, true, true, []);
    trip := Trip(p, q, r, st2, Broke, st3);
    assert SURROUNDED.outer[1..] == [] && Enter(world, ReturnsVoid, InWhile(C), 1, top) == Some(p);
    var before, inner := [Defer(ExprStmt(A))], SURROUNDED.inner;
    assert before[1..] == [] && [] + [ExprStmt(A)] == [ExprStmt(A)];
    assert InsideSeq([], false, true) && InsideSeq([], true, true) && InsideSeq(before, true, true);
    assert ExecSeq(world, ReturnsVoid, before, 1, st1, [], SizeSeq(before) + 1)
        == BlockFinished(Natural, st1, [ExprStmt(A)]);
    assert Enter(world, ReturnsVoid, SURROUNDED.Owner(), 1, p) == Some(q);
    assert inner[1..] == [InBlock([], [])] && inner[1..][1..] == [];
    assert Enter(world, ReturnsVoid, inner[0], 1, q) == Some(r1);
    assert Enter(world, ReturnsVoid, InBlock([], []), 1, r1) == Some(r);
    assert Reaches(world, ReturnsVoid, inner[1..], 1, r1, r, true);
    BreakByManual(world, st3);
    assert [Break][1..] == [] && InsideSeq([Break], false, true);
  }

  lemma BreakByManual(world: World, st: State)
    ensures Exec(world, ReturnsVoid, Block([Break]), 1, st) == Finished(Broke, st)
  {
    assert ExecSeq(world, ReturnsVoid, [Break], 1, st, [], Size(Block([Break]))) == BlockFinished(Broke, st, []);
    ExecBlock(world, ReturnsVoid, Block([Break]), 1, st);
  }

  /** The manual goes on with B behind the inner loop, the code with A. */
  lemma SurroundedDiffers(world: World, st: State, seen: Observed)
    requires world(C, st.history) != 0 && world(D, st.Then(C).history) != 0 && world(E, st.Then(C).Then(D).history) != 0
    ensures Shows(world, ReturnsVoid, SURROUNDED.Body(), st, seen) ==>
              st.history + [C] + [D] + [E] + [B] <= seen.st.history
    ensures Halts(world, LowerFunction(ReturnsVoid, SURROUNDED.Body()).blocks, Entry(st, 0, 0), seen) ==>
              st.history + [C] + [D] + [E] + [A] <= seen.st.history
  {
    var trip := SurroundedTaken(world, st);
    SurroundedCompiles();
    assert SURROUNDED.inner[1..] == [InBlock([], [])] && SURROUNDED.inner[1..][1..] == [];
    assert GoOn([]) == Passes && GoOn([InBlock([], [])]) == Passes && GoOn(SURROUNDED.inner) == Passes;
    assert FirstSeq([ExprStmt(B)]) == Acts(B);
    JumpUnderCleanupDiffers(world, ReturnsVoid, SURROUNDED, 1, st, 0, 0, trip, seen);
  }

  // ---------- What comes back ----------

  /** A function that falls off its end returns zero if it returns anything. */
  lemma FallingOffReturnsZero(world: World, kind: ReturnKind, st: State, dest: int, tmp: int)
    ensures Halts(world, LowerFunction(kind, Block([])).blocks, Entry(st, dest, tmp),
                  Observed(st, if kind.ReturnsDirect? then Some(0) else None))
  {
    var c, g := EntryContext(kind), LowerFunction(kind, Block([])).blocks;
    assert LowerSeq(c.EnterScope(), []) == c.EnterScope();
    assert Lower(c, Block([])) == LowerBlock(c, Block([])) == c;
    var last := if kind.ReturnsDirect? then RetNull else RetVoid;
    assert [] + [last] == [last];
    assert g == [[last]];
    assert Run(world, g, 1, Entry(st, dest, tmp)) == Step(world, g, Entry(st, dest, tmp));
  }

  /** `if (c) { return a; } else { return b; }` */
  function Choice(c: Expr, a: Expr, b: Expr): Stmt
  {
    Block([If(c, Block([Return(Some(a))]), Some(Block([Return(Some(b))])))])
  }

  lemma ChoiceInFragment(kind: ReturnKind, c: Expr, a: Expr, b: Expr)
    requires !kind.ReturnsVoid? && a.Valued? && b.Valued?
    ensures InFragment(Choice(c, a, b), kind)
  {
    var x, y := Return(Some(a)), Return(Some(b));
    var s := If(c, Block([x]), Some(Block([y])));
    OneStatement(x, false);
    OneStatement(y, false);
    OneStatement(s, false);
    OneInside(x, kind);
    OneInside(y, kind);
    OneInside(s, kind);
  }

  lemma OneInside(s: Stmt, kind: ReturnKind)
    requires Inside(s, true, false) && ReturnsSuit(s, kind, false)
    ensures InsideSeq([s], true, false) && SeqReturnsSuit([s], kind, false)
  {
    assert [s][1..] == [] && InsideSeq([], true, false) && InsideSeq([], false, false);
    assert SeqReturnsSuit([], kind, false);
  }

  lemma ChoiceByManual(world: World, kind: ReturnKind, c: Expr, a: Expr, b: Expr, st: State)
    requires !kind.ReturnsVoid? && a.Valued? && b.Valued?
    ensures var e := if world(c, st.history) == 0 then b else a;
            Exec(world, kind, Choice(c, a, b), 0, st)
            == Finished(Returned, State(st.history + [c] + [e], world(e, st.history + [c])))
  {
    var x := Return(Some(if world(c, st.history) == 0 then b else a));
    var s := Choice(c, a, b).stmts[0];
    OneReturn(world, kind, x, st.Then(c));
    assert Exec(world, kind, s, 0, st) == Exec(world, kind, Block([x]), 0, st.Then(c));
    assert ExecSeq(world, kind, [s], 0, st, [], Size(Choice(c, a, b)))
           == BlockFinished(Returned, Exec(world, kind, s, 0, st).st, []);
  }

  lemma OneReturn(world: World, kind: ReturnKind, x: Stmt, st: State)
    requires x.Return?
    ensures Exec(world, kind, Block([x]), 0, st) == Finished(Returned, SetSlot(world, kind, x.result, st))
  {
    assert Exec(world, kind, x, 0, st) == Finished(Returned, SetSlot(world, kind, x.result, st));
    assert Size(Block([x])) == 1 + SizeSeq([x]);
    assert ExecSeq(world, kind, [x], 0, st, [], Size(Block([x])))
           == BlockFinished(Returned, SetSlot(world, kind, x.result, st), []);
  }

  /**
   * The code takes the first branch unless the condition is zero, evaluates the expression there
   * once, leaves its value in the slot, and returns it unless the caller passed the slot.
   */
  lemma ChoiceReturns(world: World, kind: ReturnKind, c: Expr, a: Expr, b: Expr, st: State, dest: int, tmp: int)
    requires !kind.ReturnsVoid? && a.Valued? && b.Valued?
    ensures var e := if world(c, st.history) == 0 then b else a;
            var v := world(e, st.history + [c]);
            Halts(world, LowerFunction(kind, Choice(c, a, b)).blocks, Entry(st, dest, tmp),
                  Observed(State(st.history + [c] + [e], v), if kind.ReturnsDirect? then Some(v) else None))
  {
    var e := if world(c, st.history) == 0 then b else a;
    var v := world(e, st.history + [c]);
    var seen := Observed(State(st.history + [c] + [e], v), if kind.ReturnsDirect? then Some(v) else None);
    ChoiceInFragment(kind, c, a, b);
    ChoiceByManual(world, kind, c, a, b, st);
    assert Finishes(world, kind, Choice(c, a, b), 0, st, seen);
    LoweringPreservesMeaning(world, kind, Choice(c, a, b), st, dest, tmp, seen);
  }
}
