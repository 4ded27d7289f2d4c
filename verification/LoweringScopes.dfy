/** Which names are in scope behind a statement: blocks and loops take theirs away again. */
module LoweringScopes {
  import opened StatementSemantics
  import opened ControlFlowGraph
  import opened StatementLowering
  import opened LoweringFrame
  import opened LoweringShape

  /** The names that a statement declares in the scope it stands in. */
  function Declared(s: Stmt): set<Name>
  {
    match s
    case VarDecl(x, _) => {x}
    case If(_, thn, els) => Declared(thn) + (if els.Some? then Declared(els.value) else {})
    case While(_, body) => Declared(body)
    case _ => {}
  }

  /** The names that a list of statements declares, up to the first that leaves it. */
  function SeqDeclared(stmts: seq<Stmt>, inLoop: bool): set<Name>
  {
    if stmts == [] then {}
    else Declared(stmts[0]) + if Ends(stmts[0], inLoop) then {} else SeqDeclared(stmts[1..], inLoop)
  }

  /** The innermost scope has these names in addition, and the others are as they were. */
  predicate Adds(c: Context, r: Context, names: set<Name>)
  {
    && c.locals != [] && |r.locals| == |c.locals|
    && r.locals[..|c.locals| - 1] == c.locals[..|c.locals| - 1]
    && r.locals[|c.locals| - 1] == c.locals[|c.locals| - 1] + names
  }

  lemma AddsThen(a: Context, b: Context, c: Context, m: set<Name>, n: set<Name>)
    requires Adds(a, b, m) && Adds(b, c, n)
    ensures Adds(a, c, m + n)
  {
    assert a.locals[|a.locals| - 1] + (m + n) == a.locals[|a.locals| - 1] + m + n;
  }

  /** What was a scope further in is given back whole. */
  lemma Truncated(c: Context, r: Context, locals: seq<set<Name>>)
    requires c.Ok() && |locals| == |c.locals| + 1 && locals[..|c.locals|] == c.locals
    requires r.locals == locals[..|c.locals|]
    ensures Adds(c, r, {})
  {
  }

  lemma {:induction false} BlockScope(c: Context, s: Stmt)
    requires c.Ok() && s.Block? && Tidy(s)
    ensures Adds(c, LowerBlock(c, s), {})
  {
    var k := c.EnterScope();
    var c1 := LowerSeq(k, s.stmts);
    SeqPending(k, s.stmts);
    assert k.locals[..|c.locals|] == c.locals;
    if |c1.deferred| > |c.deferred| {
      var infos := c1.deferred[|c.deferred|..];
      PendingAtCleanup(k, c1);
      FinishBlockKeeps(|c.blocks|, c1, infos, c.cleanup, Size(s));
      var r := LowerDispatch(LowerDefers(BeginCleanup(c1), infos, |c1.blocks|, Size(s)), |c1.blocks|, c.cleanup);
      Truncated(c, LowerBlock(c, s), r.locals);
    } else {
      Truncated(c, LowerBlock(c, s), c1.locals);
    }
  }

  lemma {:induction false} ForScope(c: Context, s: Stmt)
    requires c.Ok() && s.For? && Tidy(s)
    ensures Adds(c, LowerFor(c, s), {})
  {
    var e := c.EnterScope();
    var c0 := if s.init.Some? then Lower(e, s.init.value) else e;
    if s.init.Some? {
      LowerRestores(e, s.init.value);
    }
    assert e.locals[..|c.locals|] == c.locals;
    LoopScope(c, s, c0);
  }

  /** A loop from behind its initialiser. */
  lemma {:induction false} LoopScope(c: Context, s: Stmt, c0: Context)
    requires c.Ok() && c0.Ok() && s.For? && TidyBranch(s.body)
    requires |c0.locals| == |c.locals| + 1 && c0.locals[..|c.locals|] == c.locals
    ensures var r := CloseFor(Lower(OpenFor(c0, s.test), s.body), s.post, |c0.blocks|);
            |r.locals| == |c.locals| + 1 && r.locals[..|c.locals|] == c.locals
  {
    OpenForKeeps(c0, s.test);
    LowerRestores(OpenFor(c0, s.test), s.body);
  }

  /** Behind a statement exactly its own declarations have come into scope. */
  lemma {:induction false} ScopeBehind(c: Context, s: Stmt, inLoop: bool)
    requires Ready(c, inLoop) && Tidy(s)
    ensures Adds(c, Lower(c, s), Declared(s))
    decreases Size(s), 1
  {
    match s
    case Block(_) => BlockScope(c, s);
    case For(_, _, _, _) => ForScope(c, s);
    case If(_, _, _) => IfScope(c, s, inLoop);
    case While(_, _) => WhileScope(c, s);
    case _ =>
  }

  lemma IfOpens(c: Context, cond: Expr, inLoop: bool) returns (c1: Context)
    requires Ready(c, inLoop)
    ensures c1 == OpenIf(c, cond) && Ready(c1, inLoop) && c1.locals == c.locals && |c1.blocks| == |c.blocks| + 3
    ensures c1.cur == |c.blocks| && c1.blocks[|c.blocks| + 1] == [] && c1.blocks[|c.blocks| + 2] == []
    ensures Shaped(c, c1, true, {|c.blocks| + 1, |c.blocks| + 2})
  {
    c1 := OpenIf(c, cond);
    OpenIfShape(c, cond);
    OpenIfKeeps(c, cond);
  }

  lemma {:induction false} IfScope(c: Context, s: Stmt, inLoop: bool)
    requires Ready(c, inLoop) && s.If? && Tidy(s)
    ensures Adds(c, LowerIf(c, s), Declared(s))
    decreases Size(s), 0
  {
    var c1 := IfOpens(c, s.cond, inLoop);
    var c2 := ThenScope(c, c1, s.thn, inLoop, |c.blocks|);
    AddsThen(c, c1, c2, {}, Declared(s.thn));
    if s.els.Some? {
      ScopeBehind(c2, s.els.value, inLoop);
      AddsThen(c, c2, LowerElse(c2, s.els), Declared(s.thn), Declared(s.els.value));
    }
    IfEnds(c, s, c1, c2, LowerElse(c2, s.els));
  }

  lemma {:induction false} IfEnds(c: Context, s: Stmt, c1: Context, c2: Context, c3: Context)
    requires c.Ok() && s.If? && c1 == OpenIf(c, s.cond)
    requires c2 == JoinThen(Lower(c1, s.thn), |c.blocks| + 2, |c.blocks| + 1) && c3 == LowerElse(c2, s.els)
    ensures LowerIf(c, s).locals == c3.locals
  {
  }

  lemma {:induction false} ThenScope(c: Context, c1: Context, s: Stmt, inLoop: bool, t: Label) returns (c2: Context)
    requires c.Ok() && |c.blocks| <= |c1.blocks| && t + 2 < |c1.blocks| && Ready(c1, inLoop) && TidyBranch(s)
    requires Shaped(c, c1, true, {t + 1, t + 2}) && c1.cur == t && c1.blocks[t + 1] == [] && c1.blocks[t + 2] == []
    ensures c2 == JoinThen(Lower(c1, s), t + 2, t + 1) && Ready(c2, inLoop) && Adds(c1, c2, Declared(s))
    decreases Size(s), 2
  {
    ScopeBehind(c1, s, inLoop);
    c2 := ThenShape(c, c1, s, inLoop, t);
  }

  lemma {:induction false} WhileScope(c: Context, s: Stmt)
    requires c.Ok() && !c.Ended() && Straight(c.blocks[c.cur]) && s.While? && Tidy(s)
    ensures Adds(c, LowerWhile(c, s), Declared(s))
    decreases Size(s), 0
  {
    var c1 := OpenWhileShape(c, s.cond);
    ScopeBehind(c1, s.body, true);
  }

  /**
   * Behind the statements of a block the names in scope are those from outside and those that
   * were declared on the way, up to the statement that leaves the block.
   */
  lemma {:induction false} SeqScope(c: Context, stmts: seq<Stmt>, inLoop: bool)
    requires Ready(c, inLoop) && TidySeq(stmts)
    ensures Adds(c, LowerSeq(c, stmts), SeqDeclared(stmts, inLoop))
    decreases SizeSeq(stmts)
  {
    if stmts != [] {
      var c1 := Lower(c, stmts[0]);
      ScopeBehind(c, stmts[0], inLoop);
      LowerShape(c, stmts[0], inLoop);
      LowerRestores(c, stmts[0]);
      if Ends(stmts[0], inLoop) {
        EndedSeq(c1, stmts[1..]);
      } else {
        SeqScope(c1, stmts[1..], inLoop);
        AddsThen(c, c1, LowerSeq(c1, stmts[1..]), Declared(stmts[0]), SeqDeclared(stmts[1..], inLoop));
      }
    }
  }
}
