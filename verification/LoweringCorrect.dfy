/**
 * The lowered blocks do what EmittedSemantics says: for every body whose blocks are
 * well formed, the emitted graph halts exactly when the emitted meaning finishes, with
 * the same history, the same return slot and the same returned value.
 */
module LoweringCorrect {
  import opened Options
  import opened StatementSemantics
  import opened EmittedSemantics
  import opened ControlFlowGraph
  import opened StatementLowering
  import opened LoweringFrame
  import opened LoweringShape
  import opened LoweringReturns

  // ---------- Which bodies ----------

  /**
   * A statement of a function whose graph is `g`: its blocks are well formed, and the graph returns
   * as the function does.
   */
  ghost predicate Member(s: Stmt, g: seq<Block>, kind: ReturnKind, inLoop: bool)
  {
    Tidy(s) && Sound(s, inLoop) && AllSuit(kind, g)
  }

  ghost predicate MemberSeq(stmts: seq<Stmt>, g: seq<Block>, kind: ReturnKind, inLoop: bool)
  {
    TidySeq(stmts) && SeqSound(stmts, inLoop) && AllSuit(kind, g)
  }

  // ---------- Running the graph ----------

  type World = Oracle

  /** Every block so far is a prefix of the finished graph's block. */
  ghost predicate Within(x: seq<Block>, g: seq<Block>)
  {
    |x| <= |g| && forall b :: 0 <= b < |x| ==> x[b] <= g[b]
  }

  lemma KeepsWithin(e: Label, x: seq<Block>, y: seq<Block>, g: seq<Block>)
    requires Keeps(|x|, e, x, y) && Within(y, g)
    ensures Within(x, g)
  {
  }

  lemma Fetch(x: seq<Block>, g: seq<Block>, b: Label, i: nat)
    requires Within(x, g) && b < |x| && i < |x[b]|
    ensures b < |g| && i < |g[b]| && g[b][i] == x[b][i]
  {
  }

  /** A context in which a statement is about to be lowered. */
  ghost predicate Fits(c: Context, clean: bool, inLoop: bool)
  {
    c.Ok() && c.cleanup.None? == clean && InLoop(c, inLoop) && Straight(c.blocks[c.cur])
  }

  ghost predicate Stands(b: Label, i: nat, st: State, dest: int, k: Config)
  {
    k.Running? && k.at == b && k.next == i && k.st == st && k.dest == dest
  }

  /** The machine is about to run what will be appended to the builder's block. */
  ghost predicate Here(c: Context, st: State, dest: int, k: Config)
    requires c.Ok()
  {
    !c.Ended() && Stands(c.cur, |c.blocks[c.cur]|, st, dest, k)
  }

  /** Where an abrupt exit leads: to the active cleanup, else to the target of the jump. */
  function ExitBlock(c: Context, o: Outcome): Option<Label>
  {
    if c.cleanup.Some? then c.cleanup
    else if o.Broke? then c.loopEnd
    else if o.Continued? then c.loopCond
    else None
  }

  ghost predicate Exits(c: Context, o: Outcome, st: State, k: Config)
  {
    var b := ExitBlock(c, o);
    if b.Some? then Stands(b.value, 0, st, Code(o), k)
    else o.Returned? && k == Halted(Observe(c.kind, Returned, st))
  }

  /** After `n` steps: still running if out of fuel, at `b` if natural, else out by the exit. */
  ghost predicate Leads(c: Context, res: CodeResult, fuel: nat, b: Label, i: nat, n: nat, k: Config)
  {
    match res
    case CodeTimeOut => n >= fuel && k.Running?
    case CodeFinished(o, st, dest) => if o.Natural? then Stands(b, i, st, dest, k) else Exits(c, o, st, k)
  }

  predicate Falls(res: CodeResult) { res.CodeFinished? && res.outcome.Natural? }

  lemma RunMore(world: World, g: seq<Block>, m: nat, n: nat, k: Config)
    ensures Run(world, g, m + n, k) == Run(world, g, n, Run(world, g, m, k))
  {
    RunAdd(world, g, m, n, k);
  }

  lemma RunFew(world: World, g: seq<Block>, k: Config)
    ensures Run(world, g, 1, k) == Step(world, g, k)
    ensures Run(world, g, 2, k) == Step(world, g, Step(world, g, k))
    ensures Run(world, g, 3, k) == Step(world, g, Step(world, g, Step(world, g, k)))
    ensures Run(world, g, 4, k) == Step(world, g, Step(world, g, Step(world, g, Step(world, g, k))))
  {
    RunMore(world, g, 1, 1, k);
    RunMore(world, g, 2, 1, k);
    RunMore(world, g, 3, 1, k);
  }

  /** A few steps in front of a longer run. */
  lemma LeadsAfter(world: World, g: seq<Block>, c: Context, res: CodeResult, fuel: nat, b: Label, i: nat, m: nat,
                   n: nat, k: Config)
    requires Leads(c, res, fuel, b, i, n, Run(world, g, n, Run(world, g, m, k)))
    ensures Leads(c, res, fuel, b, i, m + n, Run(world, g, m + n, k))
  {
    RunMore(world, g, m, n, k);
  }

  /** The exits of two contexts that differ only in what they have built are the same. */
  lemma LeadsElsewhere(c: Context, d: Context, res: CodeResult, fuel: nat, b: Label, i: nat, n: nat, k: Config)
    requires d.cleanup == c.cleanup && SameTargets(c, d) && Leads(d, res, fuel, b, i, n, k)
    ensures Leads(c, res, fuel, b, i, n, k)
  {
  }

  // ---------- Statements ----------

  lemma {:induction false} Simulate(world: World, g: seq<Block>, c: Context, s: Stmt, clean: bool, inLoop: bool,
                                    fuel: nat, st: State, dest: int, k: Config) returns (n: nat)
    requires Fits(c, clean, inLoop) && Member(s, g, c.kind, inLoop) && Here(c, st, dest, k)
    requires Within(Lower(c, s).blocks, g)
    ensures var r, res := Lower(c, s), Emitted(world, c.kind, s, clean, inLoop, fuel, st, dest);
            && Leads(r, res, fuel, r.cur, |r.blocks[r.cur]|, n, Run(world, g, n, k))
            && (Falls(res) ==> !r.Ended())
    decreases fuel, Size(s), 2
  {
    match s
    case Block(_) => n := SimulateBlock(world, g, c, s, clean, inLoop, fuel, st, dest, k);
    case If(_, _, _) => n := SimulateIf(world, g, c, s, clean, inLoop, fuel, st, dest, k);
    case While(_, _) => n := SimulateLoop(world, g, c, s, clean, inLoop, fuel, st, dest, k);
    case For(_, _, _, _) => n := SimulateLoop(world, g, c, s, clean, inLoop, fuel, st, dest, k);
    case _ => n := SimulateSimple(world, g, c, s, clean, inLoop, fuel, st, dest, k);
  }

  lemma {:induction false} SimulateLoop(world: World, g: seq<Block>, c: Context, s: Stmt, clean: bool, inLoop: bool,
                                        fuel: nat, st: State, dest: int, k: Config) returns (n: nat)
    requires s.While? || s.For?
    requires Fits(c, clean, inLoop) && Member(s, g, c.kind, inLoop) && Here(c, st, dest, k)
    requires Within(Lower(c, s).blocks, g)
    ensures var r, res := Lower(c, s), Emitted(world, c.kind, s, clean, inLoop, fuel, st, dest);
            Leads(r, res, fuel, r.cur, |r.blocks[r.cur]|, n, Run(world, g, n, k)) && !r.Ended()
    decreases fuel, Size(s), 1, 1
  {
    if s.While? {
      n := SimulateWhile(world, g, c, s, clean, inLoop, fuel, st, dest, k);
    } else {
      n := SimulateFor(world, g, c, s, clean, inLoop, fuel, st, dest, k);
    }
  }

  /** Statements without statements in them, and `defer`. */
  lemma SimulateSimple(world: World, g: seq<Block>, c: Context, s: Stmt, clean: bool, inLoop: bool, fuel: nat,
                       st: State, dest: int, k: Config) returns (n: nat)
    requires !s.Block? && !s.If? && !s.While? && !s.For?
    requires Fits(c, clean, inLoop) && AllSuit(c.kind, g) && Here(c, st, dest, k) && Within(Lower(c, s).blocks, g)
    ensures var r, res := Lower(c, s), Emitted(world, c.kind, s, clean, inLoop, fuel, st, dest);
            && Leads(r, res, fuel, r.cur, |r.blocks[r.cur]|, n, Run(world, g, n, k))
            && (Falls(res) ==> !r.Ended())
  {
    match s
    case ExprStmt(e) => n := SimulateExpression(world, g, c, Some(e), st, dest, k);
    case VarDecl(x, value) => n := SimulateDeclaration(world, g, c, x, value, st, dest, k);
    case Return(_) => n := SimulateReturn(world, g, c, s, st, dest, k);
    case Break => n := SimulateJump(world, g, c, Broke, c.loopEnd, st, dest, k);
    case Continue => n := SimulateJump(world, g, c, Continued, c.loopCond, st, dest, k);
    case Defer(body) => n := SimulateDefer(world, g, c, body, st, dest, k);
  }

  lemma SimulateExpression(world: World, g: seq<Block>, c: Context, value: Option<Expr>, st: State, dest: int,
                           k: Config)
    returns (n: nat)
    requires c.Ok() && Here(c, st, dest, k) && Within(c.EmitOptional(value).blocks, g)
    ensures Here(c.EmitOptional(value), AfterOptional(value, st), dest, Run(world, g, n, k))
  {
    var p := |c.blocks[c.cur]|;
    n := 0;
    if value.Some? {
      var r := c.Emit(Eval(value.value));
      RunFew(world, g, k);
      assert r.blocks[c.cur] == c.blocks[c.cur] + [Eval(value.value)];
      assert r.blocks[c.cur][p] == Eval(value.value);
      Fetch(r.blocks, g, c.cur, p);
      n := 1;
    }
  }

  lemma SimulateDeclaration(world: World, g: seq<Block>, c: Context, x: Name, value: Option<Expr>, st: State, dest: int,
                            k: Config) returns (n: nat)
    requires c.Ok() && Here(c, st, dest, k) && Within(c.Declare(x).EmitOptional(value).blocks, g)
    ensures Here(c.Declare(x).EmitOptional(value), AfterOptional(value, st), dest, Run(world, g, n, k))
  {
    n := SimulateExpression(world, g, c.Declare(x), value, st, dest, k);
  }

  /** A `defer` is registered, nothing runs. */
  lemma SimulateDefer(world: World, g: seq<Block>, c: Context, body: Stmt, st: State, dest: int, k: Config)
    returns (n: nat)
    requires c.Ok() && Here(c, st, dest, k)
    ensures Here(LowerDefer(c, body), st, dest, Run(world, g, n, k))
  {
    n := 0;
    assert LowerDefer(c, body).blocks[c.cur] == c.blocks[c.cur];
  }

  lemma SimulateReturn(world: World, g: seq<Block>, c: Context, s: Stmt, st: State, dest: int, k: Config)
    returns (n: nat)
    requires c.Ok() && s.Return? && AllSuit(c.kind, g) && Here(c, st, dest, k)
    requires Within(LowerReturn(c, s.result).blocks, g)
    ensures Exits(c, Returned, SetSlot(world, c.kind, s.result, st), Run(world, g, n, k))
  {
    var r, p := LowerReturn(c, s.result), |c.blocks[c.cur]|;
    RunFew(world, g, k);
    Fetch(r.blocks, g, c.cur, p);
    Fetch(r.blocks, g, c.cur, p + 1);
    n := 2;
    if s.result.Some? {
      Fetch(r.blocks, g, c.cur, p + 2);
      n := 3;
      if Yields(s.result) && !c.kind.ReturnsVoid? {
        Fetch(r.blocks, g, c.cur, p + 3);
        n := 4;
      }
    }
    assert BlockSuits(c.kind, g[c.cur]);
    assert Suits(c.kind, g[c.cur][p + n - 1]);
  }

  /** Outside a loop `break` and `continue` do nothing. */
  lemma SimulateJump(world: World, g: seq<Block>, c: Context, o: Outcome, target: Option<Label>, st: State, dest: int,
                     k: Config) returns (n: nat)
    requires c.Ok() && Here(c, st, dest, k)
    requires (o == Broke && target == c.loopEnd) || (o == Continued && target == c.loopCond)
    requires Within(LowerJump(c, Code(o), target).blocks, g)
    ensures if target.Some? then Exits(c, o, st, Run(world, g, n, k)) else Here(c, st, dest, Run(world, g, n, k))
  {
    n := 0;
    if target.Some? {
      var r, p := LowerJump(c, Code(o), target), |c.blocks[c.cur]|;
      RunFew(world, g, k);
      Fetch(r.blocks, g, c.cur, p);
      Fetch(r.blocks, g, c.cur, p + 1);
      n := 2;
    }
  }

  /** A statement followed by the jump that joins it to `target`. */
  lemma {:induction false} SimulateBranch(world: World, g: seq<Block>, c: Context, s: Stmt, clean: bool, inLoop: bool,
                                          fuel: nat, st: State, dest: int, k: Config, target: Label, next: Label)
    returns (n: nat)
    requires Fits(c, clean, inLoop) && Member(s, g, c.kind, inLoop) && !Pushes(s) && Here(c, st, dest, k)
    requires next < |c.blocks| && Within(JoinThen(Lower(c, s), target, next).blocks, g)
    ensures Leads(c, Emitted(world, c.kind, s, clean, inLoop, fuel, st, dest), fuel, target, 0, n, Run(world, g, n, k))
    decreases fuel, Size(s), 3
  {
    var r := Lower(c, s);
    BranchRestores(c, s);
    JoinKeeps(|r.blocks|, r.cur, r.blocks, r, target, next);
    KeepsWithin(r.cur, r.blocks, JoinThen(r, target, next).blocks, g);
    n := Simulate(world, g, c, s, clean, inLoop, fuel, st, dest, k);
    n := JoinAfter(world, g, c, r, Emitted(world, c.kind, s, clean, inLoop, fuel, st, dest), fuel, target, next, n, k);
  }

  /** From the end of a statement to where it is joined. */
  lemma JoinAfter(world: World, g: seq<Block>, c: Context, r: Context, res: CodeResult, fuel: nat, target: Label,
                  next: Label, m: nat, k: Config) returns (n: nat)
    requires r.Ok() && next < |r.blocks| && r.cleanup == c.cleanup && SameTargets(c, r)
    requires Within(JoinThen(r, target, next).blocks, g)
    requires Leads(r, res, fuel, r.cur, |r.blocks[r.cur]|, m, Run(world, g, m, k)) && (Falls(res) ==> !r.Ended())
    ensures Leads(c, res, fuel, target, 0, n, Run(world, g, n, k))
  {
    n := m;
    if Falls(res) {
      Fetch(JoinThen(r, target, next).blocks, g, r.cur, |r.blocks[r.cur]|);
      RunFew(world, g, Run(world, g, m, k));
      RunMore(world, g, m, 1, k);
      n := m + 1;
    }
  }

  lemma EmittedIf(world: World, kind: ReturnKind, s: Stmt, clean: bool, inLoop: bool, fuel: nat, st: State, dest: int)
    requires s.If?
    ensures Emitted(world, kind, s, clean, inLoop, fuel, st, dest) ==
            if world(s.cond, st.history) != 0 then Emitted(world, kind, s.thn, clean, inLoop, fuel, st.Then(s.cond),
                                                           dest)
            else EmittedElse(world, kind, s.els, clean, inLoop, fuel, st.Then(s.cond), dest)
  {
  }

  function EmittedElse(world: World, kind: ReturnKind, els: Option<Stmt>, clean: bool, inLoop: bool, fuel: nat,
                       st: State, dest: int): CodeResult
  {
    if els.Some? then Emitted(world, kind, els.value, clean, inLoop, fuel, st, dest)
        else CodeFinished(Natural, st, dest)
  }

  lemma {:induction false} SimulateIf(world: World, g: seq<Block>, c: Context, s: Stmt, clean: bool, inLoop: bool,
                                      fuel: nat, st: State, dest: int, k: Config) returns (n: nat)
    requires s.If? && Fits(c, clean, inLoop) && Member(s, g, c.kind, inLoop) && Here(c, st, dest, k)
    requires Within(LowerIf(c, s).blocks, g)
    ensures var r := LowerIf(c, s);
            Leads(r, Emitted(world, c.kind, s, clean, inLoop, fuel, st, dest), fuel, r.cur, |r.blocks[r.cur]|, n,
                  Run(world, g, n, k))
            && !r.Ended()
    decreases fuel, Size(s), 1
  {
    var c1, c2 := IfWithin(c, s, g);
    n := SimulateIfFrom(world, g, c, c1, c2, LowerIf(c, s), s, clean, inLoop, fuel, st, dest, k);
  }

  /** An `if` whose branches are lowered from `c1` and `c2`. */
  lemma {:induction false} SimulateIfFrom(world: World, g: seq<Block>, c: Context, c1: Context, c2: Context,
                                          r: Context, s: Stmt, clean: bool, inLoop: bool, fuel: nat, st: State,
                                          dest: int, k: Config)
    returns (n: nat)
    requires s.If? && Fits(c, clean, inLoop) && Member(s, g, c.kind, inLoop) && Here(c, st, dest, k)
    requires var t := |c.blocks|;
             && t + 2 < |c1.blocks| && t + 2 < |c2.blocks| && c1.blocks[t] == [] && c2.Ok() && c2.cur == t + 1
             && c2.blocks[t + 1] == []
             && r.cleanup == c.cleanup && SameTargets(c, r)
             && c1 == c.(blocks := c1.blocks, cur := t)
             && c1.blocks[c.cur] == c.blocks[c.cur] + [Eval(s.cond), CondBr(t, t + 1)] && SameTargets(c, c2)
             && c2.cleanup == c.cleanup
             && Within(c1.blocks, g) && Within(JoinThen(Lower(c1, s.thn), t + 2, t + 1).blocks, g)
             && Within(JoinThen(LowerElse(c2, s.els), t + 2, t + 2).blocks, g)
    ensures Leads(r, Emitted(world, c.kind, s, clean, inLoop, fuel, st, dest), fuel, |c.blocks| + 2, 0, n,
                  Run(world, g, n, k))
    decreases fuel, Size(s), 1, 0
  {
    EmittedIf(world, c.kind, s, clean, inLoop, fuel, st, dest);
    SimulateTest(world, g, c, c1, s.cond, st, dest, k);
    if world(s.cond, st.history) != 0 {
      n := SimulateThen(world, g, r, c1, s, clean, inLoop, fuel, st.Then(s.cond), dest, |c.blocks|, k);
    } else {
      n := SimulateElsePart(world, g, r, c2, s, clean, inLoop, fuel, st.Then(s.cond), dest, |c.blocks|, k);
    }
  }

  lemma {:induction false} SimulateThen(world: World, g: seq<Block>, r: Context, c1: Context, s: Stmt, clean: bool,
                                        inLoop: bool, fuel: nat, st: State, dest: int, t: Label, k: Config)
    returns (n: nat)
    requires s.If? && Fits(c1, clean, inLoop) && Member(s.thn, g, c1.kind, inLoop) && !Pushes(s.thn)
    requires Here(c1, st, dest, Run(world, g, 2, k))
    requires r.cleanup == c1.cleanup && SameTargets(r, c1) && t + 1 < |c1.blocks|
    requires Within(JoinThen(Lower(c1, s.thn), t + 2, t + 1).blocks, g)
    ensures Leads(r, Emitted(world, c1.kind, s.thn, clean, inLoop, fuel, st, dest), fuel, t + 2, 0, n,
                  Run(world, g, n, k))
    decreases fuel, Size(s), 0
  {
    var k1, res := Run(world, g, 2, k), Emitted(world, c1.kind, s.thn, clean, inLoop, fuel, st, dest);
    n := SimulateBranch(world, g, c1, s.thn, clean, inLoop, fuel, st, dest, k1, t + 2, t + 1);
    LeadsElsewhere(r, c1, res, fuel, t + 2, 0, n, Run(world, g, n, k1));
    LeadsAfter(world, g, r, res, fuel, t + 2, 0, 2, n, k);
    n := 2 + n;
  }

  lemma {:induction false} SimulateElsePart(world: World, g: seq<Block>, r: Context, c2: Context, s: Stmt,
                                            clean: bool, inLoop: bool, fuel: nat, st: State, dest: int, t: Label,
                                            k: Config) returns (n: nat)
    requires s.If? && Fits(c2, clean, inLoop) && Here(c2, st, dest, Run(world, g, 2, k))
    requires s.els.Some? ==> Member(s.els.value, g, c2.kind, inLoop) && !Pushes(s.els.value)
    requires r.cleanup == c2.cleanup && SameTargets(r, c2) && t + 2 < |c2.blocks|
    requires Within(JoinThen(LowerElse(c2, s.els), t + 2, t + 2).blocks, g)
    ensures Leads(r, EmittedElse(world, c2.kind, s.els, clean, inLoop, fuel, st, dest), fuel, t + 2, 0, n,
                  Run(world, g, n, k))
    decreases fuel, Size(s), 0
  {
    var k1, res := Run(world, g, 2, k), EmittedElse(world, c2.kind, s.els, clean, inLoop, fuel, st, dest);
    n := SimulateElse(world, g, c2, s.els, clean, inLoop, fuel, st, dest, k1, t + 2);
    LeadsElsewhere(r, c2, res, fuel, t + 2, 0, n, Run(world, g, n, k1));
    LeadsAfter(world, g, r, res, fuel, t + 2, 0, 2, n, k);
    n := 2 + n;
  }

  /** The test of an `if`: two steps into the branch taken. */
  lemma SimulateTest(world: World, g: seq<Block>, c: Context, c1: Context, cond: Expr, st: State, dest: int, k: Config)
    requires c.Ok() && Here(c, st, dest, k) && Within(c1.blocks, g) && |c.blocks| <= |c1.blocks|
    requires c1.blocks[c.cur] == c.blocks[c.cur] + [Eval(cond), CondBr(|c.blocks|, |c.blocks| + 1)]
    ensures Stands(|c.blocks| + (if world(cond, st.history) != 0 then 0 else 1), 0, st.Then(cond), dest,
                   Run(world, g, 2, k))
  {
    Fetch(c1.blocks, g, c.cur, |c.blocks[c.cur]|);
    Fetch(c1.blocks, g, c.cur, |c.blocks[c.cur]| + 1);
    RunFew(world, g, k);
  }

  lemma {:induction false} SimulateElse(world: World, g: seq<Block>, c: Context, els: Option<Stmt>, clean: bool,
                                        inLoop: bool, fuel: nat, st: State, dest: int, k: Config, merge: Label)
    returns (n: nat)
    requires Fits(c, clean, inLoop) && Here(c, st, dest, k) && merge < |c.blocks|
    requires els.Some? ==> Member(els.value, g, c.kind, inLoop) && !Pushes(els.value)
    requires Within(JoinThen(LowerElse(c, els), merge, merge).blocks, g)
    ensures Leads(c, EmittedElse(world, c.kind, els, clean, inLoop, fuel, st, dest), fuel, merge, 0, n,
                  Run(world, g, n, k))
    decreases fuel, if els.Some? then Size(els.value) else 0, 4
  {
    if els.Some? {
      n := SimulateBranch(world, g, c, els.value, clean, inLoop, fuel, st, dest, k, merge, merge);
    } else {
      Fetch(JoinThen(c, merge, merge).blocks, g, c.cur, |c.blocks[c.cur]|);
      RunFew(world, g, k);
      n := 1;
    }
  }

  /** The contexts in which the two branches are lowered. */
  lemma IfWithin(c: Context, s: Stmt, g: seq<Block>) returns (c1: Context, c2: Context)
    requires s.If? && c.Ok() && Tidy(s) && Within(LowerIf(c, s).blocks, g)
    ensures var t, r := |c.blocks|, LowerIf(c, s);
            && t + 2 < |c1.blocks| && t + 2 < |c2.blocks| && c1.blocks[t] == [] && c2.Ok() && c2.cur == t + 1
            && c2.blocks[t + 1] == []
            && r.cur == t + 2 && r.blocks[t + 2] == [] && r.cleanup == c.cleanup && SameTargets(c, r)
            && c1 == c.(blocks := c1.blocks, cur := t)
            && c1.blocks[c.cur] == c.blocks[c.cur] + [Eval(s.cond), CondBr(t, t + 1)] && SameTargets(c, c2)
            && c2.cleanup == c.cleanup
            && Within(c1.blocks, g) && c2 == JoinThen(Lower(c1, s.thn), t + 2, t + 1) && Within(c2.blocks, g)
            && Within(JoinThen(LowerElse(c2, s.els), t + 2, t + 2).blocks, g)
  {
    c1, c2 := IfRestores(c, s);
    KeepsWithin(c2.cur, c2.blocks, LowerIf(c, s).blocks, g);
    KeepsWithin(c1.cur, c1.blocks, c2.blocks, g);
  }

  lemma {:induction false} SimulateWhile(world: World, g: seq<Block>, c: Context, s: Stmt, clean: bool, inLoop: bool,
                                         fuel: nat, st: State, dest: int, k: Config) returns (n: nat)
    requires s.While? && Fits(c, clean, inLoop) && Member(s, g, c.kind, inLoop) && Here(c, st, dest, k)
    requires Within(LowerWhile(c, s).blocks, g)
    ensures var r := LowerWhile(c, s);
            Leads(r, Emitted(world, c.kind, s, clean, inLoop, fuel, st, dest), fuel, r.cur, |r.blocks[r.cur]|, n,
                  Run(world, g, n, k))
            && !r.Ended()
    decreases fuel, Size(s), 1, 0
  {
    var t, r := |c.blocks|, LowerWhile(c, s);
    var c1 := WhileWithin(c, s, g);
    Fetch(c1.blocks, g, c.cur, |c.blocks[c.cur]|);
    RunFew(world, g, k);
    n := SimulateWhileLoop(world, g, c, c1, s, clean, fuel, st, dest, Run(world, g, 1, k));
    var res := EmittedWhile(world, c.kind, s, clean, fuel, st, dest);
    LeadsElsewhere(r, c, res, fuel, t + 2, 0, n, Run(world, g, n, Run(world, g, 1, k)));
    LeadsAfter(world, g, r, res, fuel, t + 2, 0, 1, n, k);
    n := 1 + n;
  }

  lemma WhileWithin(c: Context, s: Stmt, g: seq<Block>) returns (c1: Context)
    requires s.While? && c.Ok() && Tidy(s) && Within(LowerWhile(c, s).blocks, g)
    ensures var t, r := |c.blocks|, LowerWhile(c, s);
            && c1 == c.(blocks := c1.blocks, cur := t + 1, loopCond := Some(t), loopEnd := Some(t + 2))
            && |c1.blocks| == t + 3 && c1.blocks[t + 1] == [] && c1.blocks[t] == [Eval(s.cond), CondBr(t + 1, t + 2)]
            && c1.blocks[c.cur] == c.blocks[c.cur] + [Br(t)]
            && Within(c1.blocks, g) && Within(JoinThen(Lower(c1, s.body), t, t + 2).blocks, g)
            && r.cur == t + 2 && r.blocks[t + 2] == [] && r.cleanup == c.cleanup && SameTargets(c, r)
  {
    var t := |c.blocks|;
    c1 := OpenWhile(c, s.cond);
    OpenWhileKeeps(c, s.cond);
    BranchRestores(c1, s.body);
    BodyWithin(c1, Lower(c1, s.body), t, t + 2, g);
  }

  /** The blocks in front of a body are among those of the whole. */
  lemma BodyWithin(c1: Context, c2: Context, target: Label, next: Label, g: seq<Block>)
    requires Restored(c1, c2) && next < |c1.blocks| && Within(JoinThen(c2, target, next).blocks, g)
    ensures Within(c1.blocks, g) && (next != c1.cur ==> JoinThen(c2, target, next).blocks[next] == c1.blocks[next])
  {
    JoinKeeps(|c1.blocks|, c1.cur, c1.blocks, c2, target, next);
    KeepsWithin(c1.cur, c1.blocks, JoinThen(c2, target, next).blocks, g);
  }

  /** The context in a loop's body leaves by the loop's blocks, or by the cleanup around the loop. */
  lemma LoopExits(c: Context, c1: Context, clean: bool, res: CodeResult, fuel: nat, again: Label, end: Label, n: nat,
                  k: Config)
    requires c1.cleanup == c.cleanup && c1.kind == c.kind && c.cleanup.None? == clean
    requires c1.loopCond == Some(again) && c1.loopEnd == Some(end) && Leads(c1, res, fuel, again, 0, n, k)
    requires res.CodeFinished? && !res.outcome.Natural? ==> res.dest == Code(res.outcome)
    ensures if res.CodeFinished? && Repeats(clean, res.outcome) then Stands(again, 0, res.st, res.dest, k)
            else Leads(c, LeaveLoop(clean, res), fuel, end, 0, n, k)
  {
  }

  /** From the test of the loop, whose context is `c1`, to the block behind it. */
  lemma {:induction false} SimulateWhileLoop(world: World, g: seq<Block>, c: Context, c1: Context, s: Stmt, clean: bool,
                                             fuel: nat, st: State, dest: int, k: Config) returns (n: nat)
    requires s.While? && c.Ok() && c.cleanup.None? == clean && Member(s.body, g, c.kind, true) && !Pushes(s.body)
    requires c1 == c.(blocks := c1.blocks, cur := |c.blocks| + 1, loopCond := Some(|c.blocks|),
                      loopEnd := Some(|c.blocks| + 2))
    requires |c1.blocks| == |c.blocks| + 3 && c1.blocks[|c.blocks| + 1] == []
    requires c1.blocks[|c.blocks|] == [Eval(s.cond), CondBr(|c.blocks| + 1, |c.blocks| + 2)]
    requires Within(c1.blocks, g) && Within(JoinThen(Lower(c1, s.body), |c.blocks|, |c.blocks| + 2).blocks, g)
    requires Stands(|c.blocks|, 0, st, dest, k)
    ensures Leads(c, EmittedWhile(world, c.kind, s, clean, fuel, st, dest), fuel, |c.blocks| + 2, 0, n,
                  Run(world, g, n, k))
    decreases fuel, Size(s), 0
  {
    var t := |c.blocks|;
    n := 0;
    if fuel > 0 {
      Fetch(c1.blocks, g, t, 0);
      Fetch(c1.blocks, g, t, 1);
      RunFew(world, g, k);
      n := 2;
      if world(s.cond, st.history) != 0 {
        var k1, st1 := Run(world, g, 2, k), st.Then(s.cond);
        n := SimulateBranch(world, g, c1, s.body, clean, true, fuel, st1, dest, k1, t, t + 2);
        var res := Emitted(world, c.kind, s.body, clean, true, fuel, st1, dest);
        LoopExits(c, c1, clean, res, fuel, t, t + 2, n, Run(world, g, n, k1));
        if res.CodeFinished? && Repeats(clean, res.outcome) {
          var m := SimulateWhileLoop(world, g, c, c1, s, clean, fuel - 1, res.st, res.dest, Run(world, g, n, k1));
          RunMore(world, g, n, m, k1);
          n := n + m;
        }
        RunMore(world, g, 2, n, k);
        n := 2 + n;
      }
    }
  }

  lemma {:induction false} SimulateFor(world: World, g: seq<Block>, c: Context, s: Stmt, clean: bool, inLoop: bool,
                                       fuel: nat, st: State, dest: int, k: Config) returns (n: nat)
    requires s.For? && Fits(c, clean, inLoop) && Member(s, g, c.kind, inLoop) && Here(c, st, dest, k)
    requires Within(LowerFor(c, s).blocks, g)
    ensures var r := LowerFor(c, s);
            Leads(r, Emitted(world, c.kind, s, clean, inLoop, fuel, st, dest), fuel, r.cur, |r.blocks[r.cur]|, n,
                  Run(world, g, n, k))
            && !r.Ended()
    decreases fuel, Size(s), 1, 0
  {
    var c0, c1 := ForWithin(c, s, g);
    var r, t, res := LowerFor(c, s), |c0.blocks|, Emitted(world, c.kind, s, clean, inLoop, fuel, st, dest);
    if s.init.None? {
      n := SimulateForEntry(world, g, c0, c1, s, fuel, st, dest, k);
    } else {
      n := SimulateForInit(world, g, c, c0, c1, s, clean, inLoop, fuel, st, dest, k);
    }
    LeadsElsewhere(r, c0, res, fuel, t + 3, 0, n, Run(world, g, n, k));
  }

  /**
   * All that running a loop of the second kind relies on: its context `c1` follows from `c0`, in
   * which the initialiser ends.
   */
  ghost predicate ForReady(c0: Context, c1: Context, s: Stmt, g: seq<Block>)
  {
    && s.For? && c0.Ok() && c1.Ok() && Member(s.body, g, c0.kind, true) && !Pushes(s.body)
    && var t := |c0.blocks|;
       && c1 == c0.(blocks := c1.blocks, cur := t + 1, loopCond := Some(t + 2), loopEnd := Some(t + 3))
       && |c1.blocks| == t + 4 && c1.blocks[c0.cur] == c0.blocks[c0.cur] + [Br(t)]
       && c1.blocks[t] == ForTest(s.test, t) && c1.blocks[t + 1] == []
       && Within(c0.blocks, g) && Within(c1.blocks, g) && Within(JoinThen(Lower(c1, s.body), t + 2, t + 2).blocks, g)
       && t + 2 < |g| && ForPost(s.post, t) <= g[t + 2]
  }

  lemma BodyFits(c0: Context, c1: Context, s: Stmt, g: seq<Block>)
    requires ForReady(c0, c1, s, g)
    ensures var t := |c0.blocks|;
            && Fits(c1, c0.cleanup.None?, true) && Member(s.body, g, c1.kind, true) && !Pushes(s.body)
            && c1.blocks[t + 1] == []
            && c1.cur == t + 1 && t + 2 < |c1.blocks| && Within(JoinThen(Lower(c1, s.body), t + 2, t + 2).blocks, g)
            && c1.cleanup == c0.cleanup && c1.kind == c0.kind && c1.loopCond == Some(t + 2) && c1.loopEnd == Some(t + 3)
  {
  }

  lemma EmittedForInit(world: World, kind: ReturnKind, s: Stmt, clean: bool, inLoop: bool, fuel: nat, st: State,
                       dest: int)
    requires s.For? && s.init.Some?
    ensures var res := Emitted(world, kind, s.init.value, clean, inLoop, fuel, st, dest);
            Emitted(world, kind, s, clean, inLoop, fuel, st, dest) ==
            if Falls(res) then EmittedFor(world, kind, s, clean && !Pushes(s.init.value), fuel, res.st, res.dest)
            else res
  {
  }

  /** The initialiser first, which may also be the end. */
  lemma {:induction false} SimulateForInit(world: World, g: seq<Block>, c: Context, c0: Context, c1: Context, s: Stmt,
                                           clean: bool, inLoop: bool, fuel: nat, st: State, dest: int, k: Config)
    returns (n: nat)
    requires s.For? && s.init.Some? && Fits(c, clean, inLoop) && Member(s, g, c.kind, inLoop) && Here(c, st, dest, k)
    requires c0 == Lower(c.EnterScope(), s.init.value) && ForReady(c0, c1, s, g) && c0.kind == c.kind
    requires c0.cleanup.None? == (clean && !Pushes(s.init.value))
    ensures Leads(c0, Emitted(world, c.kind, s, clean, inLoop, fuel, st, dest), fuel, |c0.blocks| + 3, 0, n,
                  Run(world, g, n, k))
    decreases fuel, Size(s), 0, 2
  {
    var res := Emitted(world, c.kind, s.init.value, clean, inLoop, fuel, st, dest);
    n := Simulate(world, g, c.EnterScope(), s.init.value, clean, inLoop, fuel, st, dest, k);
    EmittedForInit(world, c.kind, s, clean, inLoop, fuel, st, dest);
    if Falls(res) {
      var k1 := Run(world, g, n, k);
      var m := SimulateForEntry(world, g, c0, c1, s, fuel, res.st, res.dest, k1);
      LeadsAfter(world, g, c0, EmittedFor(world, c.kind, s, c0.cleanup.None?, fuel, res.st, res.dest), fuel,
                 |c0.blocks| + 3, 0, n, m, k);
      n := n + m;
    }
  }

  /** From the end of the initialiser, `c0`, to the block behind the loop. */
  lemma {:induction false} SimulateForEntry(world: World, g: seq<Block>, c0: Context, c1: Context, s: Stmt, fuel: nat,
                                            st: State, dest: int, k: Config) returns (n: nat)
    requires ForReady(c0, c1, s, g) && Here(c0, st, dest, k)
    ensures Leads(c0, EmittedFor(world, c0.kind, s, c0.cleanup.None?, fuel, st, dest), fuel, |c0.blocks| + 3, 0,
                  n, Run(world, g, n, k))
    decreases fuel, Size(s), 0, 1
  {
    Fetch(c1.blocks, g, c0.cur, |c0.blocks[c0.cur]|);
    RunFew(world, g, k);
    n := SimulateForLoop(world, g, c0, c1, s, fuel, st, dest, Run(world, g, 1, k));
    LeadsAfter(world, g, c0, EmittedFor(world, c0.kind, s, c0.cleanup.None?, fuel, st, dest), fuel, |c0.blocks| + 3,
               0, 1, n, k);
    n := 1 + n;
  }

  function ForPost(post: Option<Expr>, t: Label): Block
  {
    if post.Some? then [Eval(post.value), Br(t)] else [Br(t)]
  }

  /** The contexts after the initialiser, `c0`, and in front of the body, `c1`. */
  lemma ForWithin(c: Context, s: Stmt, g: seq<Block>) returns (c0: Context, c1: Context)
    requires s.For? && c.Ok() && !c.Ended() && Tidy(s) && Within(LowerFor(c, s).blocks, g)
    ensures c0 == (if s.init.Some? then Lower(c.EnterScope(), s.init.value) else c.EnterScope())
    ensures Member(s.body, g, c.kind, true) ==> ForReady(c0, c1, s, g)
    ensures c0.Ok() && c0.cleanup.None? == (c.cleanup.None? && !Pushes(s)) && SameTargets(c, c0)
    ensures var r := LowerFor(c, s);
            r.cur == |c0.blocks| + 3 && r.blocks[r.cur] == [] && r.cleanup == c0.cleanup && SameTargets(c0, r)
  {
    var e := c.EnterScope();
    c0 := if s.init.Some? then Lower(e, s.init.value) else e;
    if s.init.Some? {
      LowerRestores(e, s.init.value);
    }
    c1 := OpenFor(c0, s.test);
    BranchRestores(c1, s.body);
    CleanBehind(e, c0, PushedBy(s));
    LoopWithin(c, c0, c1, Lower(c1, s.body), s, LowerFor(c, s), g);
  }

  lemma CleanBehind(e: Context, c0: Context, bodies: seq<Stmt>)
    requires Registers(e, c0, bodies)
    ensures c0.cleanup.None? == (e.cleanup.None? && bodies == [])
  {
  }

  lemma LoopWithin(c: Context, c0: Context, c1: Context, c2: Context, s: Stmt, r: Context, g: seq<Block>)
    requires s.For? && c.Ok() && Pending(c.EnterScope(), c0) && c1 == OpenFor(c0, s.test) && Restored(c1, c2)
    requires var c3 := CloseFor(c2, s.post, |c0.blocks|);
             r == c3.(loopCond := c0.loopCond, loopEnd := c0.loopEnd, locals := c3.locals[..|c.locals|])
    requires Within(r.blocks, g)
    ensures var t := |c0.blocks|;
            && c1 == c0.(blocks := c1.blocks, cur := t + 1, loopCond := Some(t + 2), loopEnd := Some(t + 3))
            && |c1.blocks| == t + 4 && c1.blocks[c0.cur] == c0.blocks[c0.cur] + [Br(t)]
            && c1.blocks[t] == ForTest(s.test, t) && c1.blocks[t + 1] == []
            && Within(c0.blocks, g) && Within(c1.blocks, g) && Within(JoinThen(c2, t + 2, t + 2).blocks, g)
            && t + 2 < |g| && ForPost(s.post, t) <= g[t + 2]
            && r.cur == t + 3 && r.blocks[r.cur] == [] && r.cleanup == c0.cleanup && SameTargets(c0, r)
            && SameTargets(c, c0)
  {
    ForFrame(c, c0, s.test, c1, c2, s.post, r);
    LoopPartsWithin(c0, c1, c2, s.post, g);
  }

  lemma LoopPartsWithin(c0: Context, c1: Context, c2: Context, post: Option<Expr>, g: seq<Block>)
    requires c0.Ok() && c1.Ok() && c2.Ok()
    requires Keeps(|c0.blocks|, c0.cur, c0.blocks, c1.blocks) && Keeps(|c1.blocks|, c1.cur, c1.blocks, c2.blocks)
    requires var t := |c0.blocks|;
             && t + 3 < |c2.blocks| && c2.blocks[t + 2] == [] && c2.cur != t + 2 && c2.cur != t + 3
             && Within(CloseFor(c2, post, t).blocks, g)
    ensures var t := |c0.blocks|;
            && Within(c0.blocks, g) && Within(c1.blocks, g) && Within(JoinThen(c2, t + 2, t + 2).blocks, g)
            && t + 2 < |g| && ForPost(post, t) <= g[t + 2] && CloseFor(c2, post, t).blocks[t + 3] == c2.blocks[t + 3]
  {
    CloseWithin(c2, post, |c0.blocks|, g);
    KeepsWithin(c1.cur, c1.blocks, c2.blocks, g);
    KeepsWithin(c0.cur, c0.blocks, c1.blocks, g);
  }

  lemma CloseWithin(c: Context, post: Option<Expr>, t: Label, g: seq<Block>)
    requires c.Ok() && t + 3 < |c.blocks| && c.blocks[t + 2] == [] && c.cur != t + 2 && c.cur != t + 3
    requires Within(CloseFor(c, post, t).blocks, g)
    ensures Within(c.blocks, g) && Within(JoinThen(c, t + 2, t + 2).blocks, g) && t + 2 < |g|
    ensures ForPost(post, t) <= g[t + 2]
    ensures CloseFor(c, post, t).blocks[t + 3] == c.blocks[t + 3]
  {
    var c3 := JoinThen(c, t + 2, t + 2);
    JoinKeeps(|c.blocks|, c.cur, c.blocks, c, t + 2, t + 2);
    CloseForWithin(c3, post, t, g);
    KeepsWithin(c.cur, c.blocks, c3.blocks, g);
  }

  lemma CloseForWithin(c: Context, post: Option<Expr>, t: Label, g: seq<Block>)
    requires c.Ok() && t + 3 < |c.blocks| && c.cur == t + 2 && c.blocks[t + 2] == []
    requires Within(JoinThen(c.EmitOptional(post), t, t + 3).blocks, g)
    ensures ForPost(post, t) <= g[t + 2] && Within(c.blocks, g)
    ensures JoinThen(c.EmitOptional(post), t, t + 3).blocks[t + 3] == c.blocks[t + 3]
  {
    var r := JoinThen(c.EmitOptional(post), t, t + 3);
    if post.Some? {
      assert [] + [Eval(post.value)] + [Br(t)] == ForPost(post, t);
    } else {
      assert [] + [Br(t)] == ForPost(post, t);
    }
    assert r.blocks == c.blocks[t + 2 := ForPost(post, t)];
  }

  /** From the test of the loop to the block behind it. */
  lemma {:induction false} SimulateForLoop(world: World, g: seq<Block>, c0: Context, c1: Context, s: Stmt, fuel: nat,
                                           st: State, dest: int, k: Config) returns (n: nat)
    requires ForReady(c0, c1, s, g) && Stands(|c0.blocks|, 0, st, dest, k)
    ensures Leads(c0, EmittedFor(world, c0.kind, s, c0.cleanup.None?, fuel, st, dest), fuel, |c0.blocks| + 3, 0,
                  n, Run(world, g, n, k))
    decreases fuel, Size(s), 0, 0
  {
    var t := |c0.blocks|;
    n := 0;
    if fuel > 0 {
      n := SimulateForTest(world, g, c1, t, s.test, st, dest, k);
      if s.test.None? || world(s.test.value, st.history) != 0 {
        var st0 := AfterOptional(s.test, st);
        var m := SimulateForRound(world, g, c0, c1, s, fuel, st0, dest, Run(world, g, n, k));
        LeadsAfter(world, g, c0, EmittedRound(world, c0.kind, s, c0.cleanup.None?, fuel, st0, dest), fuel, t + 3, 0,
                   n, m, k);
        n := n + m;
      }
    }
  }

  /** The body and all further rounds. */
  lemma {:induction false} SimulateForRound(world: World, g: seq<Block>, c0: Context, c1: Context, s: Stmt, fuel: nat,
                                            st: State, dest: int, k: Config) returns (n: nat)
    requires fuel > 0 && ForReady(c0, c1, s, g) && Stands(|c0.blocks| + 1, 0, st, dest, k)
    ensures Leads(c0, EmittedRound(world, c0.kind, s, c0.cleanup.None?, fuel, st, dest), fuel, |c0.blocks| + 3, 0,
                  n, Run(world, g, n, k))
    decreases fuel, Size(s.body), 4
  {
    var clean := c0.cleanup.None?;
    n := SimulateForBody(world, g, c0, c1, s, fuel, st, dest, k);
    var res := Emitted(world, c0.kind, s.body, clean, true, fuel, st, dest);
    if res.CodeFinished? && Repeats(clean, res.outcome) {
      n := SimulateForMore(world, g, c0, c1, s, fuel, res.st, res.dest, n, k);
    }
  }

  lemma {:induction false} SimulateForBody(world: World, g: seq<Block>, c0: Context, c1: Context, s: Stmt, fuel: nat,
                                           st: State, dest: int, k: Config) returns (n: nat)
    requires ForReady(c0, c1, s, g) && Stands(|c0.blocks| + 1, 0, st, dest, k)
    ensures var clean := c0.cleanup.None?;
            var res, k1 := Emitted(world, c0.kind, s.body, clean, true, fuel, st, dest), Run(world, g, n, k);
            if res.CodeFinished? && Repeats(clean, res.outcome) then Stands(|c0.blocks| + 2, 0, res.st, res.dest, k1)
            else Leads(c0, LeaveLoop(clean, res), fuel, |c0.blocks| + 3, 0, n, k1)
    decreases fuel, Size(s.body), 4, 0
  {
    var t, clean := |c0.blocks|, c0.cleanup.None?;
    BodyFits(c0, c1, s, g);
    n := SimulateBranch(world, g, c1, s.body, clean, true, fuel, st, dest, k, t + 2, t + 2);
    LoopExits(c0, c1, clean, Emitted(world, c0.kind, s.body, clean, true, fuel, st, dest), fuel, t + 2, t + 3, n,
              Run(world, g, n, k));
  }

  /** All rounds after the first. */
  lemma {:induction false} SimulateForMore(world: World, g: seq<Block>, c0: Context, c1: Context, s: Stmt, fuel: nat,
                                           st: State, dest: int, m: nat, k: Config) returns (n: nat)
    requires fuel > 0 && ForReady(c0, c1, s, g) && Stands(|c0.blocks| + 2, 0, st, dest, Run(world, g, m, k))
    ensures Leads(c0, EmittedFor(world, c0.kind, s, c0.cleanup.None?, fuel - 1, AfterOptional(s.post, st), dest), fuel,
                  |c0.blocks| + 3, 0, n, Run(world, g, n, k))
    decreases fuel - 1, Size(s), 2
  {
    var j := SimulateForAgain(world, g, c0, c1, s, fuel, st, dest, Run(world, g, m, k));
    LeadsAfter(world, g, c0, EmittedFor(world, c0.kind, s, c0.cleanup.None?, fuel - 1, AfterOptional(s.post, st),
                                        dest), fuel,
               |c0.blocks| + 3, 0, m, j, k);
    n := m + j;
  }

  /** The last clause of the loop and all further rounds. */
  lemma {:induction false} SimulateForAgain(world: World, g: seq<Block>, c0: Context, c1: Context, s: Stmt, fuel: nat,
                                            st: State, dest: int, k: Config) returns (n: nat)
    requires fuel > 0 && ForReady(c0, c1, s, g) && Stands(|c0.blocks| + 2, 0, st, dest, k)
    ensures Leads(c0, EmittedFor(world, c0.kind, s, c0.cleanup.None?, fuel - 1, AfterOptional(s.post, st), dest), fuel,
                  |c0.blocks| + 3, 0, n, Run(world, g, n, k))
    decreases fuel - 1, Size(s), 1
  {
    var j := SimulateForPost(world, g, |c0.blocks|, s.post, st, dest, k);
    var st1 := AfterOptional(s.post, st);
    n := SimulateForLoop(world, g, c0, c1, s, fuel - 1, st1, dest, Run(world, g, j, k));
    RunMore(world, g, j, n, k);
    n := j + n;
  }

  lemma SimulateForTest(world: World, g: seq<Block>, c1: Context, t: Label, test: Option<Expr>, st: State, dest: int,
                        k: Config) returns (n: nat)
    requires |c1.blocks| == t + 4 && c1.blocks[t] == ForTest(test, t) && Within(c1.blocks, g)
    requires Stands(t, 0, st, dest, k)
    ensures n > 0
    ensures Stands(if test.None? || world(test.value, st.history) != 0 then t + 1 else t + 3, 0,
                   AfterOptional(test, st), dest,
                   Run(world, g, n, k))
  {
    RunFew(world, g, k);
    Fetch(c1.blocks, g, t, 0);
    n := 1;
    if test.Some? {
      Fetch(c1.blocks, g, t, 1);
      n := 2;
    }
  }

  lemma SimulateForPost(world: World, g: seq<Block>, t: Label, post: Option<Expr>, st: State, dest: int, k: Config)
    returns (n: nat)
    requires t + 2 < |g| && ForPost(post, t) <= g[t + 2] && Stands(t + 2, 0, st, dest, k)
    ensures Stands(t, 0, AfterOptional(post, st), dest, Run(world, g, n, k))
    ensures n >= 1
  {
    RunFew(world, g, k);
    n := if post.Some? then 2 else 1;
    assert g[t + 2][0] == ForPost(post, t)[0];
    if post.Some? {
      assert g[t + 2][1] == ForPost(post, t)[1];
    }
  }

  // ---------- Blocks ----------

  function Bodies(infos: seq<DeferInfo>): (bodies: seq<Stmt>)
    ensures |bodies| == |infos| && forall i :: 0 <= i < |infos| ==> bodies[i] == infos[i].body
  {
    seq(|infos|, i requires 0 <= i < |infos| => infos[i].body)
  }

  lemma BodiesConcat(some: seq<DeferInfo>, more: seq<DeferInfo>)
    ensures Bodies(some + more) == Bodies(some) + Bodies(more)
  {
  }

  /** Where an abrupt exit enters a block's cleanup when the first `m` actions are registered. */
  function ChainEntry(outer: Option<Label>, infos: seq<DeferInfo>, m: nat): Option<Label>
    requires m <= |infos|
  {
    if m == 0 then outer else Some(infos[m - 1].bb)
  }

  /** What running a sequence from `c` to `r` leads to, where `infos` are the actions it registers. */
  ghost predicate SeqLeads(c: Context, r: Context, infos: seq<DeferInfo>, res: CodeBlockResult, fuel: nat, n: nat,
                           k: Config)
    requires r.Ok()
  {
    match res
    case CodeBlockTimeOut => n >= fuel && k.Running?
    case CodeBlockFinished(o, st, dest, pushed) =>
      && pushed <= Bodies(infos)
      && (if o.Natural? then pushed == Bodies(infos) && Here(r, st, dest, k)
          else Exits(c.(cleanup := ChainEntry(c.cleanup, infos, |pushed|)), o, st, k))
  }

  lemma {:induction false} SimulateSeq(world: World, g: seq<Block>, c: Context, stmts: seq<Stmt>, clean: bool,
                                       inLoop: bool, fuel: nat, st: State, dest: int, k: Config) returns (n: nat)
    requires Fits(c, clean, inLoop) && MemberSeq(stmts, g, c.kind, inLoop) && Here(c, st, dest, k)
    requires Within(LowerSeq(c, stmts).blocks, g)
    ensures |c.deferred| <= |LowerSeq(c, stmts).deferred|
    ensures SeqLeads(c, LowerSeq(c, stmts), New(c, LowerSeq(c, stmts)),
                     EmittedSeq(world, c.kind, stmts, clean, inLoop, fuel, st, dest), fuel, n, Run(world, g, n, k))
    decreases fuel, SizeSeq(stmts), 3
  {
    if stmts == [] {
      n := 0;
      assert New(c, c) == [];
    } else {
      FirstStatement(c, stmts, inLoop, g);
      n := SimulateNext(world, g, c, Lower(c, stmts[0]), LowerSeq(c, stmts), stmts, clean, inLoop, fuel, st, dest, k);
    }
  }

  lemma SeqStep(world: World, kind: ReturnKind, stmts: seq<Stmt>, clean: bool, inLoop: bool, fuel: nat, st: State,
                dest: int)
    requires stmts != []
    ensures EmittedSeq(world, kind, stmts, clean, inLoop, fuel, st, dest) ==
            match Emitted(world, kind, stmts[0], clean, inLoop, fuel, st, dest)
            case CodeTimeOut => CodeBlockTimeOut
            case CodeFinished(o, st1, dest1) =>
              if !o.Natural? then CodeBlockFinished(o, st1, dest1, PushedBy(stmts[0]))
              else Behind(PushedBy(stmts[0]),
                          EmittedSeq(world, kind, stmts[1..], clean && !Pushes(stmts[0]), inLoop, fuel, st1, dest1))
  {
  }

  function Behind(bodies: seq<Stmt>, res: CodeBlockResult): CodeBlockResult
  {
    match res
    case CodeBlockTimeOut => CodeBlockTimeOut
    case CodeBlockFinished(o, st, dest, pushed) => CodeBlockFinished(o, st, dest, bodies + pushed)
  }

  /** The statements behind one that has run, after n0 steps. */
  lemma {:induction false} SimulateRest(world: World, g: seq<Block>, c: Context, c1: Context, r: Context,
                                        stmts: seq<Stmt>, clean: bool, inLoop: bool, fuel: nat, st: State, dest: int,
                                        n0: nat, k: Config)
    returns (n: nat)
    requires stmts != [] && c.Ok() && c1.Ok() && r.Ok() && r == LowerSeq(c1, stmts[1..]) && SameTargets(c, c1)
    requires Fits(c1, clean, inLoop) && MemberSeq(stmts[1..], g, c1.kind, inLoop)
    requires Here(c1, st, dest, Run(world, g, n0, k))
    requires Within(r.blocks, g) && |c.deferred| <= |c1.deferred| <= |r.deferred| && c1.kind == c.kind
    requires New(c, r) == New(c, c1) + New(c1, r) && Bodies(New(c, c1)) == PushedBy(stmts[0])
    requires c1.cleanup == ChainEntry(c.cleanup, New(c, c1), |PushedBy(stmts[0])|)
    ensures SeqLeads(c, r, New(c, r),
                     Behind(PushedBy(stmts[0]), EmittedSeq(world, c.kind, stmts[1..], clean, inLoop, fuel, st, dest)),
                     fuel, n, Run(world, g, n, k))
    decreases fuel, SizeSeq(stmts), 1
  {
    n := SimulateSeq(world, g, c1, stmts[1..], clean, inLoop, fuel, st, dest, Run(world, g, n0, k));
    RunMore(world, g, n0, n, k);
    SeqLeadsThen(c, c1, r, New(c, c1), New(c1, r), PushedBy(stmts[0]),
                 EmittedSeq(world, c.kind, stmts[1..], clean, inLoop, fuel, st, dest), fuel, n, n0 + n,
                     Run(world, g, n0 + n, k));
    n := n0 + n;
  }

  lemma {:induction false} SimulateNext(world: World, g: seq<Block>, c: Context, c1: Context, r: Context,
                                        stmts: seq<Stmt>, clean: bool, inLoop: bool, fuel: nat, st: State, dest: int,
                                        k: Config)
    returns (n: nat)
    requires Fits(c, clean, inLoop) && MemberSeq(stmts, g, c.kind, inLoop) && Here(c, st, dest, k)
    requires stmts != [] && c1.Ok() && r.Ok() && c1 == Lower(c, stmts[0]) && r == LowerSeq(c1, stmts[1..])
    requires Within(c1.blocks, g) && Within(r.blocks, g) && CurGood(c1) && c1.Ended() == Ends(stmts[0], inLoop)
    requires InLoop(c1, inLoop) && SameTargets(c, c1) && |c.deferred| <= |c1.deferred| <= |r.deferred|
    requires New(c, r) == New(c, c1) + New(c1, r) && Bodies(New(c, c1)) == PushedBy(stmts[0])
    requires c1.cleanup == ChainEntry(c.cleanup, New(c, c1), |PushedBy(stmts[0])|)
    ensures SeqLeads(c, r, New(c, r), EmittedSeq(world, c.kind, stmts, clean, inLoop, fuel, st, dest), fuel, n,
                     Run(world, g, n, k))
    decreases fuel, SizeSeq(stmts), 2
  {
    var some, more := New(c, c1), New(c1, r);
    n := Simulate(world, g, c, stmts[0], clean, inLoop, fuel, st, dest, k);
    SeqStep(world, c.kind, stmts, clean, inLoop, fuel, st, dest);
    var res, k1 := Emitted(world, c.kind, stmts[0], clean, inLoop, fuel, st, dest), Run(world, g, n, k);
    if Falls(res) {
      n := SimulateRest(world, g, c, c1, r, stmts, clean && !Pushes(stmts[0]), inLoop, fuel, res.st, res.dest, n, k);
    } else if res.CodeFinished? {
      LeavesSeq(c, c1, some, more, PushedBy(stmts[0]), res.outcome, res.st, k1);
    }
  }

  /**
   * The blocks of the first statement are among those of the sequence, and the rest starts from a
   * context that fits.
   */
  lemma FirstStatement(c: Context, stmts: seq<Stmt>, inLoop: bool, g: seq<Block>)
    requires Ready(c, inLoop) && stmts != [] && TidySeq(stmts) && Within(LowerSeq(c, stmts).blocks, g)
    ensures var c1, r := Lower(c, stmts[0]), LowerSeq(c, stmts);
            && Within(c1.blocks, g) && CurGood(c1) && SameTargets(c, c1) && |c.deferred| <= |c1.deferred|
            && c1.Ended() == Ends(stmts[0], inLoop) && InLoop(c1, inLoop)
            && |c1.deferred| <= |r.deferred| && New(c, r) == New(c, c1) + New(c1, r)
            && Bodies(New(c, c1)) == PushedBy(stmts[0])
            && c1.cleanup == ChainEntry(c.cleanup, New(c, c1), |PushedBy(stmts[0])|)
  {
    var c1, r := Lower(c, stmts[0]), LowerSeq(c, stmts);
    LowerRestores(c, stmts[0]);
    LowerShape(c, stmts[0], inLoop);
    SeqPending(c1, stmts[1..]);
    NewConcat(c, c1, r);
    RegisteredBodies(c, c1, PushedBy(stmts[0]));
    KeepsWithin(c1.cur, c1.blocks, r.blocks, g);
  }

  lemma RegisteredBodies(c: Context, r: Context, bodies: seq<Stmt>)
    requires Registers(c, r, bodies)
    ensures Bodies(New(c, r)) == bodies && r.cleanup == ChainEntry(c.cleanup, New(c, r), |bodies|)
  {
    forall i | 0 <= i < |bodies|
      ensures New(c, r)[i].body == bodies[i]
    {
      assert New(c, r)[i] == r.deferred[|c.deferred| + i];
    }
  }

  /** A statement that falls through, in front of the rest. */
  lemma SeqLeadsThen(c: Context, c1: Context, r: Context, some: seq<DeferInfo>, more: seq<DeferInfo>, bodies: seq<Stmt>,
                     res: CodeBlockResult, fuel: nat, n1: nat, n: nat, k: Config)
    requires r.Ok() && SeqLeads(c1, r, more, res, fuel, n1, k) && n1 <= n && Bodies(some) == bodies
    requires c1.cleanup == ChainEntry(c.cleanup, some, |bodies|) && SameTargets(c, c1)
    ensures SeqLeads(c, r, some + more, Behind(bodies, res), fuel, n, k)
  {
    BodiesConcat(some, more);
    if res.CodeBlockFinished? {
      EntryOfBoth(c, c1, some, more, |res.pushed|);
    }
  }

  lemma EntryOfBoth(c: Context, c1: Context, some: seq<DeferInfo>, more: seq<DeferInfo>, m: nat)
    requires m <= |more| && c1.cleanup == ChainEntry(c.cleanup, some, |some|)
    ensures ChainEntry(c1.cleanup, more, m) == ChainEntry(c.cleanup, some + more, |some| + m)
  {
  }

  /** A statement that leaves the block. */
  lemma LeavesSeq(c: Context, c1: Context, some: seq<DeferInfo>, more: seq<DeferInfo>, bodies: seq<Stmt>, o: Outcome,
                  st: State, k: Config)
    requires Bodies(some) == bodies && c1.cleanup == ChainEntry(c.cleanup, some, |bodies|) && SameTargets(c, c1)
    requires !o.Natural? && Exits(c1, o, st, k)
    ensures bodies <= Bodies(some + more)
    ensures Exits(c.(cleanup := ChainEntry(c.cleanup, some + more, |bodies|)), o, st, k)
  {
    BodiesConcat(some, more);
    EntryOfBoth(c, c1, some, more, 0);
  }

  /** The deferred bodies of a block meet the conditions under which they are lowered. */
  ghost predicate Deferrable(infos: seq<DeferInfo>, g: seq<Block>, kind: ReturnKind, inLoop: bool)
  {
    forall i :: 0 <= i < |infos| ==> Member(infos[i].body, g, kind, inLoop) && !Pushes(infos[i].body)
  }

  /** From the cleanup block of the `m`-th action through the chain to "after_cleanup". */
  lemma {:induction false} SimulateDefers(world: World, g: seq<Block>, c: Context, infos: seq<DeferInfo>, after: Label,
                                          bound: nat, m: nat, inLoop: bool, fuel: nat, st: State, dest: int, k: Config)
    returns (n: nat)
    requires c.Ok() && InLoop(c, inLoop) && m <= |infos| && EmptyBlocks(infos, 0, c)
    requires Deferrable(infos, g, c.kind, inLoop)
    requires forall i :: 0 <= i < |infos| ==> Size(infos[i].body) < bound
    requires Within(LowerDefers(c, infos, after, bound).blocks, g)
    requires Stands(if m == 0 then after else infos[m - 1].bb, 0, st, dest, k)
    ensures ChainLeads(EmittedChain(world, c.kind, Bodies(infos[..m]), inLoop, fuel, st, dest, bound), fuel, after,
                       n, Run(world, g, n, k))
    decreases fuel, bound, 0, |infos|, 1
  {
    if m == 0 {
      assert Bodies(infos[..m]) == [];
      n := 0;
    } else {
      if m < |infos| {
        var c1, rest := DropLast(g, c, infos, after, bound, inLoop);
        Shorter(infos, m);
        n := SimulateDefers(world, g, c1, rest, after, bound, m, inLoop, fuel, st, dest, k);
      } else {
        assert infos[..m] == infos;
        n := SimulateAllDefers(world, g, c, infos, after, bound, inLoop, fuel, st, dest, k);
      }
    }
  }

  /** The chain without the action registered last. */
  lemma DropLast(g: seq<Block>, c: Context, infos: seq<DeferInfo>, after: Label, bound: nat, inLoop: bool)
    returns (c1: Context, rest: seq<DeferInfo>)
    requires c.Ok() && InLoop(c, inLoop) && infos != [] && EmptyBlocks(infos, 0, c)
    requires Deferrable(infos, g, c.kind, inLoop)
    requires forall i :: 0 <= i < |infos| ==> Size(infos[i].body) < bound
    ensures rest == infos[..|infos| - 1] && c1.Ok() && InLoop(c1, inLoop) && c1.kind == c.kind
    ensures EmptyBlocks(rest, 0, c1) && Deferrable(rest, g, c1.kind, inLoop)
    ensures forall i :: 0 <= i < |rest| ==> Size(rest[i].body) < bound
    ensures c1 == LowerLastDefer(c, infos, after, bound)
    ensures LowerDefers(c, infos, after, bound) == LowerDefers(c1, rest, after, bound)
  {
    LastDeferKeeps(0, c, infos, after, bound);
    c1, rest := LowerLastDefer(c, infos, after, bound), infos[..|infos| - 1];
  }

  lemma Shorter(infos: seq<DeferInfo>, m: nat)
    requires m < |infos|
    ensures infos[..|infos| - 1][..m] == infos[..m]
  {
  }

  ghost predicate ChainLeads(res: CodeResult, fuel: nat, after: Label, n: nat, k: Config)
  {
    match res
    case CodeTimeOut => n >= fuel && k.Running?
    case CodeFinished(_, st, dest) => Stands(after, 0, st, dest, k)
  }

  lemma ChainStep(world: World, kind: ReturnKind, infos: seq<DeferInfo>, inLoop: bool, fuel: nat, st: State,
                  dest: int, bound: nat)
    requires infos != [] && StatementSemantics.Below(Bodies(infos), bound)
    ensures StatementSemantics.Below(Bodies(infos[..|infos| - 1]), bound)
    ensures EmittedChain(world, kind, Bodies(infos), inLoop, fuel, st, dest, bound) ==
            match Emitted(world, kind, infos[|infos| - 1].body, false, inLoop, fuel, st, dest)
            case CodeTimeOut => CodeTimeOut
            case CodeFinished(_, st1, dest1) =>
              EmittedChain(world, kind, Bodies(infos[..|infos| - 1]), inLoop, fuel, st1, dest1, bound)
  {
    var bodies, rest := Bodies(infos), Bodies(infos[..|infos| - 1]);
    assert bodies[..|bodies| - 1] == rest;
  }

  /** A whole chain, entered after some steps. */
  lemma {:induction false} SimulateOthers(world: World, g: seq<Block>, c: Context, infos: seq<DeferInfo>, after: Label,
                                          bound: nat, inLoop: bool, fuel: nat, st: State, dest: int, n0: nat, k: Config)
    returns (n: nat)
    requires c.Ok() && InLoop(c, inLoop) && EmptyBlocks(infos, 0, c) && Deferrable(infos, g, c.kind, inLoop)
    requires forall i :: 0 <= i < |infos| ==> Size(infos[i].body) < bound
    requires Within(LowerDefers(c, infos, after, bound).blocks, g)
    requires Stands(if infos == [] then after else infos[|infos| - 1].bb, 0, st, dest, Run(world, g, n0, k))
    ensures n >= n0
    ensures ChainLeads(EmittedChain(world, c.kind, Bodies(infos), inLoop, fuel, st, dest, bound), fuel, after,
                       n, Run(world, g, n, k))
    decreases fuel, bound, 0, |infos|, 2
  {
    assert infos[..|infos|] == infos;
    n := SimulateDefers(world, g, c, infos, after, bound, |infos|, inLoop, fuel, st, dest, Run(world, g, n0, k));
    RunMore(world, g, n0, n, k);
    n := n0 + n;
  }

  /** The chain from its head: the body deferred last, then the others. */
  lemma {:induction false} SimulateAllDefers(world: World, g: seq<Block>, c: Context, infos: seq<DeferInfo>,
                                             after: Label, bound: nat, inLoop: bool, fuel: nat, st: State, dest: int,
                                             k: Config)
    returns (n: nat)
    requires c.Ok() && InLoop(c, inLoop) && infos != [] && EmptyBlocks(infos, 0, c)
    requires Deferrable(infos, g, c.kind, inLoop)
    requires forall i :: 0 <= i < |infos| ==> Size(infos[i].body) < bound
    requires Within(LowerDefers(c, infos, after, bound).blocks, g)
    requires Stands(infos[|infos| - 1].bb, 0, st, dest, k)
    ensures ChainLeads(EmittedChain(world, c.kind, Bodies(infos), inLoop, fuel, st, dest, bound), fuel, after,
                       n, Run(world, g, n, k))
    decreases fuel, bound, 0, |infos|, 0
  {
    var last := |infos| - 1;
    var c1, rest;
    c1, rest, n := SimulateHead(world, g, c, infos, after, bound, inLoop, fuel, st, dest, k);
    ChainStep(world, c.kind, infos, inLoop, fuel, st, dest, bound);
    var res := Emitted(world, c.kind, infos[|infos| - 1].body, false, inLoop, fuel, st, dest);
    if res.CodeFinished? {
      n := SimulateOthers(world, g, c1, rest, after, bound, inLoop, fuel, res.st, res.dest, n, k);
    }
  }

  /** The head of the chain, and the chain that is left behind it. */
  lemma {:induction false} SimulateHead(world: World, g: seq<Block>, c: Context, infos: seq<DeferInfo>, after: Label,
                                        bound: nat, inLoop: bool, fuel: nat, st: State, dest: int, k: Config)
    returns (c1: Context, rest: seq<DeferInfo>, n: nat)
    requires c.Ok() && InLoop(c, inLoop) && infos != [] && EmptyBlocks(infos, 0, c)
    requires Deferrable(infos, g, c.kind, inLoop)
    requires forall i :: 0 <= i < |infos| ==> Size(infos[i].body) < bound
    requires Within(LowerDefers(c, infos, after, bound).blocks, g)
    requires Stands(infos[|infos| - 1].bb, 0, st, dest, k)
    ensures rest == infos[..|infos| - 1] && c1.Ok() && InLoop(c1, inLoop) && c1.kind == c.kind
    ensures EmptyBlocks(rest, 0, c1) && Deferrable(rest, g, c1.kind, inLoop)
    ensures forall i :: 0 <= i < |rest| ==> Size(rest[i].body) < bound
    ensures Within(LowerDefers(c1, rest, after, bound).blocks, g)
    ensures ChainLeads(Emitted(world, c.kind, infos[|infos| - 1].body, false, inLoop, fuel, st, dest), fuel,
                       if rest == [] then after else rest[|rest| - 1].bb, n, Run(world, g, n, k))
    decreases fuel, bound, 0, 0, 1
  {
    c1, rest := DropLast(g, c, infos, after, bound, inLoop);
    DefersWithin(c1, rest, after, bound, g);
    n := SimulateLastDefer(world, g, c, infos, after, bound, inLoop, fuel, st, dest, k);
  }

  lemma DefersWithin(c: Context, infos: seq<DeferInfo>, after: Label, bound: nat, g: seq<Block>)
    requires c.Ok() && EmptyBlocks(infos, 0, c)
    requires forall i :: 0 <= i < |infos| ==> Size(infos[i].body) < bound
    requires Within(LowerDefers(c, infos, after, bound).blocks, g)
    ensures Within(c.blocks, g)
  {
    DefersKeep(c, infos, after, bound);
    forall b | 0 <= b < |c.blocks|
      ensures c.blocks[b] <= g[b]
    {
      if i :| 0 <= i < |infos| && infos[i].bb == b {
        assert c.blocks[b] == [];
      }
    }
  }

  /** One deferred body: from its own block to the next in the chain, whatever its outcome. */
  lemma {:induction false} SimulateLastDefer(world: World, g: seq<Block>, c: Context, infos: seq<DeferInfo>,
                                             after: Label, bound: nat, inLoop: bool, fuel: nat, st: State, dest: int,
                                             k: Config)
    returns (n: nat)
    requires c.Ok() && InLoop(c, inLoop) && infos != [] && EmptyBlocks(infos, 0, c)
    requires Member(infos[|infos| - 1].body, g, c.kind, inLoop) && !Pushes(infos[|infos| - 1].body)
    requires Size(infos[|infos| - 1].body) < bound
    requires Within(LowerLastDefer(c, infos, after, bound).blocks, g)
    requires Stands(infos[|infos| - 1].bb, 0, st, dest, k)
    ensures ChainLeads(Emitted(world, c.kind, infos[|infos| - 1].body, false, inLoop, fuel, st, dest), fuel,
                       if |infos| == 1 then after else infos[|infos| - 2].bb, n, Run(world, g, n, k))
    decreases fuel, bound, 0, 0, 0
  {
    var last := |infos| - 1;
    var target := if last == 0 then after else infos[last - 1].bb;
    var c0 := c.At(infos[last].bb).(cleanup := Some(target));
    LowerRestores(c0, infos[last].body);
    assert JoinThen(Lower(c0, infos[last].body), target, infos[last].bb).blocks
           == LowerLastDefer(c, infos, after, bound).blocks;
    n := SimulateBranch(world, g, c0, infos[last].body, false, inLoop, fuel, st, dest, k, target, infos[last].bb);
  }

  lemma {:induction false} SimulateBlock(world: World, g: seq<Block>, c: Context, s: Stmt, clean: bool, inLoop: bool,
                                         fuel: nat, st: State, dest: int, k: Config) returns (n: nat)
    requires s.Block? && Fits(c, clean, inLoop) && Member(s, g, c.kind, inLoop) && Here(c, st, dest, k)
    requires Within(LowerBlock(c, s).blocks, g)
    ensures var r, res := LowerBlock(c, s), Emitted(world, c.kind, s, clean, inLoop, fuel, st, dest);
            && Leads(r, res, fuel, r.cur, |r.blocks[r.cur]|, n, Run(world, g, n, k))
            && (Falls(res) ==> !r.Ended())
    decreases fuel, Size(s), 1
  {
    var e := c.EnterScope();
    var c1 := LowerSeq(e, s.stmts);
    n := SimulateSeq(world, g, e, s.stmts, clean, inLoop, fuel, st, dest, k) by {
      StatementsWithin(c, c1, s, g);
    }
    EmittedBlock(world, c.kind, s, clean, inLoop, fuel, st, dest);
    n := SimulateEnd(world, g, c, c1, s, EmittedSeq(world, c.kind, s.stmts, clean, inLoop, fuel, st, dest), inLoop,
                     fuel, n, k);
  }

  lemma EmittedBlock(world: World, kind: ReturnKind, s: Stmt, clean: bool, inLoop: bool, fuel: nat, st: State,
                     dest: int)
    requires s.Block?
    ensures Emitted(world, kind, s, clean, inLoop, fuel, st, dest) ==
            AfterSeq(world, kind, EmittedSeq(world, kind, s.stmts, clean, inLoop, fuel, st, dest), inLoop, fuel,
                     Size(s))
  {
  }

  lemma StatementsWithin(c: Context, c1: Context, s: Stmt, g: seq<Block>)
    requires s.Block? && c.Ok() && Tidy(s) && Within(LowerBlock(c, s).blocks, g)
    requires c1 == LowerSeq(c.EnterScope(), s.stmts)
    ensures Within(c1.blocks, g)
  {
    SeqPending(c.EnterScope(), s.stmts);
    if |c.deferred| < |c1.deferred| {
      CleanupWithin(c, c1, s, g);
    }
  }

  /** From the end of a block's statements to the end of the block. */
  lemma {:induction false} SimulateEnd(world: World, g: seq<Block>, c: Context, c1: Context, s: Stmt,
                                       res: CodeBlockResult, inLoop: bool, fuel: nat, n: nat, k: Config)
    returns (n2: nat)
    requires s.Block? && Ready(c, inLoop) && Member(s, g, c.kind, inLoop) && Within(LowerBlock(c, s).blocks, g)
    requires c1 == LowerSeq(c.EnterScope(), s.stmts) && |c.deferred| <= |c1.deferred|
    requires SeqLeads(c.EnterScope(), c1, New(c.EnterScope(), c1), res, fuel, n, Run(world, g, n, k))
    requires res.CodeBlockFinished? ==> StatementSemantics.Below(res.pushed, Size(s))
    requires res.CodeBlockFinished? && !res.outcome.Natural? ==> res.dest == Code(res.outcome)
    ensures var r, e := LowerBlock(c, s), AfterSeq(world, c.kind, res, inLoop, fuel, Size(s));
            && Leads(r, e, fuel, r.cur, |r.blocks[r.cur]|, n2, Run(world, g, n2, k))
            && (Falls(e) ==> !r.Ended())
    decreases fuel, Size(s), 1, 0
  {
    var r, infos := LowerBlock(c, s), New(c.EnterScope(), c1);
    if infos == [] {
      n2 := n;
      PlainEnd(c, c1, s);
      NothingPending(world, c, c1, r, res, inLoop, fuel, Size(s), n, Run(world, g, n, k));
    } else {
      CleanupReady(c, c1, s, inLoop, g);
      CleanupEnd(c, c1, s, infos);
      n2 := SimulateCleanup(world, g, c, c1, infos, Size(s), res, inLoop, r.cur, fuel, n, k);
      LeadsElsewhere(r, c, AfterSeq(world, c.kind, res, inLoop, fuel, Size(s)), fuel, r.cur, 0, n2,
                     Run(world, g, n2, k));
    }
  }

  lemma PlainEnd(c: Context, c1: Context, s: Stmt)
    requires s.Block? && c.Ok() && Tidy(s) && c1 == LowerSeq(c.EnterScope(), s.stmts) && |c.deferred| == |c1.deferred|
    ensures var r := LowerBlock(c, s);
            r.cur == c1.cur && r.blocks == c1.blocks && r.cleanup == c.cleanup && SameTargets(c, r)
  {
    SeqPending(c.EnterScope(), s.stmts);
  }

  lemma NothingPending(world: World, c: Context, c1: Context, r: Context, res: CodeBlockResult, inLoop: bool, fuel: nat,
                       bound: nat, n: nat, k: Config)
    requires c.Ok() && c1.Ok() && r.Ok() && SeqLeads(c.EnterScope(), c1, [], res, fuel, n, k)
    requires r.cur == c1.cur && r.blocks == c1.blocks && r.cleanup == c.cleanup && SameTargets(c, r)
    requires res.CodeBlockFinished? ==> StatementSemantics.Below(res.pushed, bound)
    ensures var e := AfterSeq(world, c.kind, res, inLoop, fuel, bound);
            Leads(r, e, fuel, r.cur, |r.blocks[r.cur]|, n, k) && (Falls(e) ==> !r.Ended())
  {
    assert Bodies([]) == [];
  }

  /** What a block comes to behind its statements. */
  function AfterSeq(world: World, kind: ReturnKind, res: CodeBlockResult, inLoop: bool, fuel: nat,
                    ghost bound: nat): CodeResult
    requires res.CodeBlockFinished? ==> StatementSemantics.Below(res.pushed, bound)
  {
    match res
    case CodeBlockTimeOut => CodeTimeOut
    case CodeBlockFinished(o, st, dest, pushed) =>
      if pushed == [] then CodeFinished(o, st, dest)
      else Dispatch(inLoop, EmittedChain(world, kind, pushed, inLoop, fuel, st, Code(o), bound))
  }

  /** What the end of a block with registered actions starts from, and what its chain leaves. */
  lemma CleanupFrames(c: Context, c1: Context, s: Stmt)
    requires s.Block? && c.Ok() && Tidy(s) && c1 == LowerSeq(c.EnterScope(), s.stmts) && |c.deferred| < |c1.deferred|
    ensures var infos, d := c1.deferred[|c.deferred|..], BeginCleanup(c1);
            var d3 := LowerDefers(d, infos, |c1.blocks|, Size(s));
            && EmptyBlocks(infos, 0, d) && SameTargets(c, d) && SameTargets(c, d3)
            && |c1.blocks| < |d3.blocks| && d3.blocks[|c1.blocks|] == []
            && Keeps(|c1.blocks|, c1.cur, c1.blocks, d.blocks) && |c1.blocks| < |d.blocks|
            && (forall i :: 0 <= i < |infos| ==> infos[i].bb != |c1.blocks|)
  {
    var e := c.EnterScope();
    SeqPending(e, s.stmts);
    PendingAtCleanup(e, c1);
    var infos, after, d := c1.deferred[|c.deferred|..], |c1.blocks|, BeginCleanup(c1);
    BeginCleanupKeeps(|c1.blocks|, c1.cur, c1.blocks, c1);
    AfterStaysEmpty(d, infos, after, Size(s));
    DefersKeep(d, infos, after, Size(s));
  }

  /** The graph contains the statements of a block, its chain of deferred bodies and its dispatch. */
  lemma CleanupWithin(c: Context, c1: Context, s: Stmt, g: seq<Block>)
    requires s.Block? && c.Ok() && Tidy(s) && Within(LowerBlock(c, s).blocks, g)
    requires c1 == LowerSeq(c.EnterScope(), s.stmts) && |c.deferred| < |c1.deferred|
    ensures var infos, d := c1.deferred[|c.deferred|..], BeginCleanup(c1);
            var d3 := LowerDefers(d, infos, |c1.blocks|, Size(s));
            && EmptyBlocks(infos, 0, d) && SameTargets(c, d) && SameTargets(c, d3)
            && |c1.blocks| < |d3.blocks| && d3.blocks[|c1.blocks|] == []
            && Within(c1.blocks, g) && Within(d.blocks, g) && Within(d3.blocks, g)
            && Within(LowerDispatch(d3, |c1.blocks|, c.cleanup).blocks, g)
  {
    CleanupFrames(c, c1, s);
    var infos, after, d := c1.deferred[|c.deferred|..], |c1.blocks|, BeginCleanup(c1);
    DispatchWithin(LowerDefers(d, infos, after, Size(s)), after, c.cleanup, g);
    DefersWithin(d, infos, after, Size(s), g);
    KeepsWithin(c1.cur, c1.blocks, d.blocks, g);
  }

  lemma CleanupEnd(c: Context, c1: Context, s: Stmt, infos: seq<DeferInfo>)
    requires s.Block? && c.Ok() && Tidy(s) && c1 == LowerSeq(c.EnterScope(), s.stmts)
    requires |c.deferred| < |c1.deferred| && infos == c1.deferred[|c.deferred|..]
    ensures var r, d3 := LowerBlock(c, s), LowerDefers(BeginCleanup(c1), infos, |c1.blocks|, Size(s));
            r.cur == |d3.blocks| && r.blocks[r.cur] == [] && r.cleanup == c.cleanup && SameTargets(c, r)
  {
    CleanupFrames(c, c1, s);
  }

  /** All that running the cleanup of a block relies on; behind it, a natural exit goes on at `natural`. */
  ghost predicate ChainReady(c: Context, c1: Context, infos: seq<DeferInfo>, bound: nat, inLoop: bool, natural: Label,
                             g: seq<Block>)
  {
    && c.Ok() && c1.Ok() && infos != [] && c1.cleanup == Some(infos[|infos| - 1].bb)
    && EmptyBlocks(infos, 0, BeginCleanup(c1)) && Deferrable(infos, g, c.kind, inLoop)
    && SameTargets(c, BeginCleanup(c1)) && InLoop(c, inLoop)
    && (forall i :: 0 <= i < |infos| ==> Size(infos[i].body) < bound)
    && Within(BeginCleanup(c1).blocks, g)
    && var d3 := LowerDefers(BeginCleanup(c1), infos, |c1.blocks|, bound);
       && Within(d3.blocks, g) && SameTargets(c, d3) && |c1.blocks| < |d3.blocks| && d3.blocks[|c1.blocks|] == []
       && Within(LowerDispatch(d3, |c1.blocks|, c.cleanup).blocks, g) && natural == |d3.blocks|
  }

  lemma CleanupReady(c: Context, c1: Context, s: Stmt, inLoop: bool, g: seq<Block>)
    requires s.Block? && Ready(c, inLoop) && Member(s, g, c.kind, inLoop) && Within(LowerBlock(c, s).blocks, g)
    requires c1 == LowerSeq(c.EnterScope(), s.stmts) && |c.deferred| < |c1.deferred|
    ensures ChainReady(c, c1, New(c, c1), Size(s), inLoop, LowerBlock(c, s).cur, g) && Within(c1.blocks, g)
  {
    SeqPending(c.EnterScope(), s.stmts);
    CleanupWithin(c, c1, s, g);
    CleanupEnd(c, c1, s, New(c, c1));
    ActionsDeferrable(g, c, c1, s, inLoop);
  }

  lemma ActionsDeferrable(g: seq<Block>, c: Context, c1: Context, s: Stmt, inLoop: bool)
    requires s.Block? && Ready(c, inLoop) && Member(s, g, c.kind, inLoop) && c1 == LowerSeq(c.EnterScope(), s.stmts)
    ensures |c.deferred| <= |c1.deferred| && Deferrable(New(c, c1), g, c.kind, inLoop)
  {
    var e := c.EnterScope();
    SeqPending(e, s.stmts);
    SeqShape(e, s.stmts, inLoop);
    assert New(c, c1) == New(e, c1) && BodiesSound(New(e, c1), inLoop);
  }

  /** A block that is left before it registers anything: its exit is the statement's. */
  lemma LeftEarly(world: World, c: Context, c1: Context, infos: seq<DeferInfo>, res: CodeBlockResult, inLoop: bool,
                  natural: Label, fuel: nat, bound: nat, n: nat, k: Config)
    requires c.Ok() && c1.Ok() && infos != [] && SeqLeads(c.EnterScope(), c1, infos, res, fuel, n, k)
    requires res.CodeBlockFinished? && res.pushed == []
    ensures Leads(c, AfterSeq(world, c.kind, res, inLoop, fuel, bound), fuel, natural, 0, n, k)
  {
    assert c.(cleanup := c.cleanup) == c;
  }

  /** A block with actions, from the end of its statements. */
  lemma {:induction false} SimulateCleanup(world: World, g: seq<Block>, c: Context, c1: Context,
                                           infos: seq<DeferInfo>, bound: nat, res: CodeBlockResult, inLoop: bool,
                                           natural: Label, fuel: nat, n: nat, k: Config)
    returns (n2: nat)
    requires ChainReady(c, c1, infos, bound, inLoop, natural, g)
    requires SeqLeads(c.EnterScope(), c1, infos, res, fuel, n, Run(world, g, n, k))
    requires res.CodeBlockFinished? ==> StatementSemantics.Below(res.pushed, bound)
    requires res.CodeBlockFinished? && !res.outcome.Natural? ==> res.dest == Code(res.outcome)
    ensures Leads(c, AfterSeq(world, c.kind, res, inLoop, fuel, bound), fuel,
                  natural, 0, n2, Run(world, g, n2, k))
    decreases fuel, bound, 0, |infos| + 2
  {
    n2 := n;
    match res
    case CodeBlockTimeOut =>
    case CodeBlockFinished(o, st, dest, pushed) =>
      if pushed == [] {
        LeftEarly(world, c, c1, infos, res, inLoop, natural, fuel, bound, n, Run(world, g, n, k));
      } else {
        PrefixBodies(infos, pushed);
        n2 := SimulateChain(world, g, c, c1, infos, bound, |pushed|, inLoop, natural, fuel, o, st, dest, n, k);
      }
  }

  lemma PrefixBodies(infos: seq<DeferInfo>, pushed: seq<Stmt>)
    requires pushed <= Bodies(infos)
    ensures |pushed| <= |infos| && pushed == Bodies(infos[..|pushed|])
  {
  }

  /** Into the chain, after some steps. */
  lemma StartChain(world: World, g: seq<Block>, c: Context, infos: seq<DeferInfo>, m: nat, o: Outcome, st: State,
                   dest: int, n0: nat, k: Config) returns (n: nat)
    requires 0 < m <= |infos| && c.Ok() && c.cleanup == Some(infos[|infos| - 1].bb) && Within(BeginCleanup(c).blocks, g)
    requires var k0 := Run(world, g, n0, k);
             if o.Natural? then m == |infos| && Here(c, st, dest, k0) else Stands(infos[m - 1].bb, 0, st, Code(o), k0)
    ensures Stands(infos[m - 1].bb, 0, st, Code(o), Run(world, g, n, k))
  {
    n := EnterChain(world, g, c, infos, m, o, st, dest, Run(world, g, n0, k));
    RunMore(world, g, n0, n, k);
    n := n0 + n;
  }

  /** From the end of a block's statements through the chain and the dispatch. */
  lemma {:induction false} SimulateChain(world: World, g: seq<Block>, c: Context, c1: Context, infos: seq<DeferInfo>,
                                         bound: nat, m: nat, inLoop: bool, natural: Label, fuel: nat, o: Outcome,
                                         st: State, dest: int, n0: nat, k: Config) returns (n: nat)
    requires ChainReady(c, c1, infos, bound, inLoop, natural, g) && 0 < m <= |infos|
    requires var k0 := Run(world, g, n0, k);
             if o.Natural? then m == |infos| && Here(c1, st, dest, k0) else Stands(infos[m - 1].bb, 0, st, Code(o), k0)
    ensures StatementSemantics.Below(Bodies(infos[..m]), bound)
    ensures Leads(c, Dispatch(inLoop, EmittedChain(world, c.kind, Bodies(infos[..m]), inLoop, fuel, st, Code(o),
                                                   bound)), fuel,
                  natural, 0, n, Run(world, g, n, k))
    decreases fuel, bound, 0, |infos| + 1
  {
    n := StartChain(world, g, c1, infos, m, o, st, dest, n0, k);
    var k1 := Run(world, g, n, k);
    var n1 := SimulateDefers(world, g, BeginCleanup(c1), infos, |c1.blocks|, bound, m, inLoop, fuel, st, Code(o), k1);
    var res := EmittedChain(world, c.kind, Bodies(infos[..m]), inLoop, fuel, st, Code(o), bound);
    n := LeaveChain(world, g, c, c1, infos, bound, res, inLoop, natural, fuel, n, n1, k);
  }

  /** The natural end of a block with actions stores 3 and enters the chain; an abrupt exit is already there. */
  lemma EnterChain(world: World, g: seq<Block>, c: Context, infos: seq<DeferInfo>, m: nat, o: Outcome, st: State,
                   dest: int, k: Config) returns (n: nat)
    requires 0 < m <= |infos| && c.Ok() && c.cleanup == Some(infos[|infos| - 1].bb) && Within(BeginCleanup(c).blocks, g)
    requires if o.Natural? then m == |infos| && Here(c, st, dest, k) else Stands(infos[m - 1].bb, 0, st, Code(o), k)
    ensures Stands(infos[m - 1].bb, 0, st, Code(o), Run(world, g, n, k))
  {
    n := 0;
    if o.Natural? {
      RunFew(world, g, k);
      var p := |c.blocks[c.cur]|;
      assert BeginCleanup(c).blocks[c.cur] == c.blocks[c.cur] + [SetDest(3), Br(c.cleanup.value)];
      Fetch(BeginCleanup(c).blocks, g, c.cur, p);
      Fetch(BeginCleanup(c).blocks, g, c.cur, p + 1);
      n := 2;
    }
  }

  /** From behind the chain, with the exit that is then pending. */
  lemma LeaveChain(world: World, g: seq<Block>, c: Context, c1: Context, infos: seq<DeferInfo>, bound: nat,
                   res: CodeResult, inLoop: bool, natural: Label, fuel: nat, n0: nat, n1: nat, k: Config)
    returns (n: nat)
    requires ChainReady(c, c1, infos, bound, inLoop, natural, g)
    requires ChainLeads(res, fuel, |c1.blocks|, n1, Run(world, g, n1, Run(world, g, n0, k)))
    ensures Leads(c, Dispatch(inLoop, res), fuel, natural, 0, n, Run(world, g, n, k))
  {
    n := n0 + n1;
    RunMore(world, g, n0, n1, k);
    if res.CodeFinished? {
      var d3 := LowerDefers(BeginCleanup(c1), infos, |c1.blocks|, bound);
      var m := SimulateDispatch(world, g, c, d3, |c1.blocks|, res, inLoop, fuel, Run(world, g, n, k));
      LeadsAfter(world, g, c, Dispatch(inLoop, res), fuel, |d3.blocks|, 0, n, m, k);
      n := n + m;
    }
  }

  lemma AfterStaysEmpty(c: Context, infos: seq<DeferInfo>, after: Label, bound: nat)
    requires c.Ok() && EmptyBlocks(infos, 0, c) && after < |c.blocks| && c.blocks[after] == []
    requires forall i :: 0 <= i < |infos| ==> Size(infos[i].body) < bound && infos[i].bb != after
    ensures var r := LowerDefers(c, infos, after, bound);
            |c.blocks| <= |r.blocks| && r.blocks[after] == []
  {
    DefersKeep(c, infos, after, bound);
  }

  lemma DispatchWithin(c: Context, after: Label, outer: Option<Label>, g: seq<Block>)
    requires c.Ok() && after < |c.blocks| && c.blocks[after] == []
    requires Within(LowerDispatch(c, after, outer).blocks, g)
    ensures Within(c.blocks, g)
  {
    var r := LowerDispatch(c, after, outer);
    assert forall b :: 0 <= b < |c.blocks| && b != after ==> r.blocks[b] == c.blocks[b];
  }

  /** The switch on exit_dest behind the chain. */
  lemma SimulateDispatch(world: World, g: seq<Block>, c: Context, d: Context, after: Label, res: CodeResult,
                         inLoop: bool, fuel: nat, k: Config) returns (n: nat)
    requires c.Ok() && d.Ok() && SameTargets(c, d) && InLoop(c, inLoop) && after < |d.blocks| && d.blocks[after] == []
    requires Within(LowerDispatch(d, after, c.cleanup).blocks, g)
    requires res.CodeFinished? && Stands(after, 0, res.st, res.dest, k)
    ensures Leads(c, Dispatch(inLoop, res), fuel, |d.blocks|, 0, n, Run(world, g, n, k))
  {
    var r := LowerDispatch(d, after, c.cleanup);
    RunFew(world, g, k);
    Fetch(r.blocks, g, after, 0);
    n := 1;
    if c.cleanup.None? && res.dest == Code(Returned) {
      Fetch(r.blocks, g, |d.blocks| + 1, 0);
      n := 2;
    }
  }

  // ---------- Whole functions ----------

  /** The machine at the entry of a function; the slot and the registers hold anything. */
  function Entry(st: State, dest: int, tmp: int): Config
  {
    Running(0, 0, st, dest, tmp)
  }

  lemma FunctionWithin(kind: ReturnKind, body: Stmt)
    ensures var r, g := Lower(EntryContext(kind), body), LowerFunction(kind, body).blocks;
            && Within(r.blocks, g) && Within(g, g)
            && (!r.Ended() ==> g[r.cur] == r.blocks[r.cur] + [if kind.ReturnsDirect? then RetNull else RetVoid])
  {
    var r, g := Lower(EntryContext(kind), body), LowerFunction(kind, body).blocks;
    EmitKeeps(|r.blocks|, r.cur, r.blocks, r, if kind.ReturnsDirect? then RetNull else RetVoid);
    assert Within(g, g);
    KeepsWithin(r.cur, r.blocks, g, g);
  }

  /** A body that is compiled: its blocks are well formed, and its return instructions fit the function. */
  ghost predicate Compiles(body: Stmt, kind: ReturnKind)
  {
    TidyBranch(body) && Sound(body, false) && ReturnsSuit(body, kind, false)
  }

  lemma SimulateFunction(world: World, kind: ReturnKind, body: Stmt, fuel: nat, st: State, dest: int, tmp: int)
    returns (n: nat)
    requires Compiles(body, kind)
    ensures var k := Run(world, LowerFunction(kind, body).blocks, n, Entry(st, dest, tmp));
            match Emitted(world, kind, body, true, false, fuel, st, dest)
            case CodeTimeOut => n >= fuel && k.Running?
            case CodeFinished(o, st1, _) => k == Halted(Observe(kind, o, st1))
  {
    var c := EntryContext(kind);
    var g, k := LowerFunction(kind, body).blocks, Entry(st, dest, tmp);
    var r := Lower(c, body);
    ReturnsFit(kind, body);
    FunctionWithin(kind, body);
    BranchRestores(c, body);
    n := Simulate(world, g, c, body, true, false, fuel, st, dest, k);
    n := FunctionEnd(world, g, c, r, Emitted(world, kind, body, true, false, fuel, st, dest), fuel, n, k);
  }

  /** Falling off the end of a function returns. */
  lemma FunctionEnd(world: World, g: seq<Block>, c: Context, r: Context, res: CodeResult, fuel: nat, m: nat, k: Config)
    returns (n: nat)
    requires r.Ok() && r.cleanup.None? && r.loopEnd.None? && r.loopCond.None? && r.kind == c.kind
    requires Within(r.blocks, g)
    requires !r.Ended() ==> g[r.cur] == r.blocks[r.cur] + [if c.kind.ReturnsDirect? then RetNull else RetVoid]
    requires Leads(r, res, fuel, r.cur, |r.blocks[r.cur]|, m, Run(world, g, m, k)) && (Falls(res) ==> !r.Ended())
    ensures var k1 := Run(world, g, n, k);
            match res
            case CodeTimeOut => n >= fuel && k1.Running?
            case CodeFinished(o, st, _) => k1 == Halted(Observe(c.kind, o, st))
  {
    n := m;
    if Falls(res) {
      RunFew(world, g, Run(world, g, m, k));
      RunMore(world, g, m, 1, k);
      n := m + 1;
    }
  }

  /** The emitted body finishes, with some bound on its loops, and shows `seen`. */
  ghost predicate EmittedShows(world: World, kind: ReturnKind, body: Stmt, st: State, dest: int, seen: Observed)
  {
    exists fuel: nat :: EmittedFinishes(world, kind, body, fuel, st, dest, seen)
  }

  predicate EmittedFinishes(world: World, kind: ReturnKind, body: Stmt, fuel: nat, st: State, dest: int, seen: Observed)
  {
    var res := Emitted(world, kind, body, true, false, fuel, st, dest);
    res.CodeFinished? && Observe(kind, res.outcome, res.st) == seen
  }

  ghost predicate Halts(world: World, g: seq<Block>, k: Config, seen: Observed)
  {
    exists n: nat :: Run(world, g, n, k) == Halted(seen)
  }

  /** Once the blocks have halted, the emitted meaning finishes with any fuel beyond their steps. */
  lemma FinishesBy(world: World, kind: ReturnKind, body: Stmt, st: State, dest: int, tmp: int, seen: Observed, m: nat,
                   fuel: nat)
    requires Compiles(body, kind) && fuel > m
    requires Run(world, LowerFunction(kind, body).blocks, m, Entry(st, dest, tmp)) == Halted(seen)
    ensures EmittedFinishes(world, kind, body, fuel, st, dest, seen)
  {
    var g, k := LowerFunction(kind, body).blocks, Entry(st, dest, tmp);
    var n := SimulateFunction(world, kind, body, fuel, st, dest, tmp);
    if Emitted(world, kind, body, true, false, fuel, st, dest).CodeTimeOut? {
      RunAdd(world, g, m, n - m, k);
      HaltedStays(world, g, n - m, Halted(seen));
    } else {
      HaltsOnce(world, g, m, n, k);
    }
  }

  /**
   * For every body that is compiled at all: its blocks are well formed and return as the
   * function does, and they halt with an observation if and only if the emitted meaning
   * finishes with it.  In particular one diverges if the other does.
   */
  lemma LoweringMeans(world: World, kind: ReturnKind, body: Stmt, st: State, dest: int, tmp: int, seen: Observed)
    requires Compiles(body, kind)
    ensures AllBlocksClosed(LowerFunction(kind, body).blocks) && AllSuit(kind, LowerFunction(kind, body).blocks)
    ensures EmittedShows(world, kind, body, st, dest, seen)
            <==> Halts(world, LowerFunction(kind, body).blocks, Entry(st, dest, tmp), seen)
  {
    FunctionClosed(kind, body);
    ReturnsFit(kind, body);
    var g, k := LowerFunction(kind, body).blocks, Entry(st, dest, tmp);
    if EmittedShows(world, kind, body, st, dest, seen) {
      var fuel: nat :| EmittedFinishes(world, kind, body, fuel, st, dest, seen);
      var n := SimulateFunction(world, kind, body, fuel, st, dest, tmp);
      assert Run(world, g, n, k) == Halted(seen);
    }
    if Halts(world, g, k, seen) {
      var m: nat :| Run(world, g, m, k) == Halted(seen);
      FinishesBy(world, kind, body, st, dest, tmp, seen, m, m + 1);
    }
  }
}
