/**
 * Which return instructions the lowering emits.  The code returns whatever value the
 * expression of a `return` has, and nothing if it has none, whatever the function is
 * declared to return; the type checker lets through a `return;` where a result is due,
 * and the call of a function without a result where none is.  LLVM refuses both.
 */
module LoweringReturns {
  import opened Options
  import opened StatementSemantics
  import opened ControlFlowGraph
  import opened StatementLowering
  import opened LoweringFrame
  import opened LoweringShape

  /** The instruction may stand in a function of that kind. */
  predicate Suits(kind: ReturnKind, i: Instr)
  {
    match i
    case RetVoid => !kind.ReturnsDirect?
    case RetValue => kind.ReturnsDirect?
    case RetSlot => kind.ReturnsDirect?
    case RetNull => kind.ReturnsDirect?
    case _ => true
  }

  ghost predicate BlockSuits(kind: ReturnKind, b: Block)
  {
    forall i {:trigger Suits(kind, b[i])} :: 0 <= i < |b| ==> Suits(kind, b[i])
  }

  ghost predicate AllSuit(kind: ReturnKind, g: seq<Block>)
  {
    forall b {:trigger BlockSuits(kind, g[b])} :: 0 <= b < |g| ==> BlockSuits(kind, g[b])
  }

  predicate ResultSuits(kind: ReturnKind, result: Option<Expr>)
  {
    match kind
    case ReturnsVoid => !Yields(result)
    case ReturnsDirect => Yields(result)
    case ReturnsIndirect => true
  }

  /** Every `return` that is lowered while no cleanup is active, from where none is, suits the function. */
  predicate ReturnsSuit(s: Stmt, kind: ReturnKind, inLoop: bool)
    decreases s, 1
  {
    match s
    case Block(stmts) => SeqReturnsSuit(stmts, kind, inLoop)
    case If(_, thn, els) =>
      ReturnsSuit(thn, kind, inLoop) && (els.Some? ==> ReturnsSuit(els.value, kind, inLoop))
    case While(_, body) => ReturnsSuit(body, kind, true)
    case For(init, _, _, body) =>
      && (init.Some? ==> ReturnsSuit(init.value, kind, inLoop))
      && ((init.Some? && Pushes(init.value)) || ReturnsSuit(body, kind, true))
    case Return(result) => ResultSuits(kind, result)
    case _ => true
  }

  predicate SeqReturnsSuit(stmts: seq<Stmt>, kind: ReturnKind, inLoop: bool)
    decreases stmts, 0
  {
    stmts == [] ||
    (ReturnsSuit(stmts[0], kind, inLoop) &&
     (Ends(stmts[0], inLoop) || Pushes(stmts[0]) || SeqReturnsSuit(stmts[1..], kind, inLoop)))
  }

  // ---------- One instruction, one block ----------

  lemma PushSuits(kind: ReturnKind, b: Block, i: Instr)
    ensures BlockSuits(kind, b + [i]) <==> BlockSuits(kind, b) && Suits(kind, i)
  {
    if BlockSuits(kind, b + [i]) {
      assert (b + [i])[|b|] == i;
      forall k | 0 <= k < |b|
        ensures Suits(kind, b[k])
      {
        assert (b + [i])[k] == b[k];
      }
    }
  }

  lemma EmitSuits(c: Context, i: Instr)
    requires c.Ok()
    ensures AllSuit(c.kind, c.Emit(i).blocks) <==> AllSuit(c.kind, c.blocks) && Suits(c.kind, i)
  {
    var x, y := c.blocks, c.Emit(i).blocks;
    PushSuits(c.kind, x[c.cur], i);
    if AllSuit(c.kind, y) {
      assert BlockSuits(c.kind, y[c.cur]);
      forall b | 0 <= b < |x|
        ensures BlockSuits(c.kind, x[b])
      {
        assert b != c.cur ==> y[b] == x[b];
        assert BlockSuits(c.kind, y[b]);
      }
    }
  }

  lemma EmitOptionalSuits(c: Context, e: Option<Expr>)
    requires c.Ok()
    ensures AllSuit(c.kind, c.EmitOptional(e).blocks) <==> AllSuit(c.kind, c.blocks)
  {
    if e.Some? {
      EmitSuits(c, Eval(e.value));
    }
  }

  lemma NewBlocksSuit(c: Context, n: nat)
    requires c.Ok()
    ensures AllSuit(c.kind, c.NewBlocks(n).blocks) <==> AllSuit(c.kind, c.blocks)
  {
    var x, y := c.blocks, c.NewBlocks(n).blocks;
    if AllSuit(c.kind, y) {
      forall b | 0 <= b < |x|
        ensures BlockSuits(c.kind, x[b])
      {
        assert y[b] == x[b] && BlockSuits(c.kind, y[b]);
      }
    }
  }

  lemma JoinSuits(c: Context, target: Label, next: Label)
    requires c.Ok() && next < |c.blocks|
    ensures AllSuit(c.kind, JoinThen(c, target, next).blocks) <==> AllSuit(c.kind, c.blocks)
  {
    EmitSuits(c, Br(target));
  }

  lemma ReturnSuits(c: Context, result: Option<Expr>)
    requires c.Ok()
    ensures AllSuit(c.kind, LowerReturn(c, result).blocks) <==>
            AllSuit(c.kind, c.blocks) && (c.cleanup.None? ==> ResultSuits(c.kind, result))
  {
    EmitOptionalSuits(c, result);
    var c1 := c.EmitOptional(result);
    var c2 := if Yields(result) && !c.kind.ReturnsVoid? then c1.Emit(StoreSlot) else c1;
    EmitSuits(c1, StoreSlot);
    EmitSuits(c2, SetDest(0));
    EmitSuits(c2.Emit(SetDest(0)), LastOfReturn(c, result));
  }

  lemma JumpSuits(c: Context, code: int, target: Option<Label>)
    requires c.Ok()
    ensures AllSuit(c.kind, LowerJump(c, code, target).blocks) <==> AllSuit(c.kind, c.blocks)
  {
    EmitSuits(c, SetDest(code));
    if target.Some? {
      EmitSuits(c.Emit(SetDest(code)), Br(if c.cleanup.Some? then c.cleanup.value else target.value));
    }
  }

  lemma OpenIfSuits(c: Context, cond: Expr)
    requires c.Ok()
    ensures AllSuit(c.kind, OpenIf(c, cond).blocks) <==> AllSuit(c.kind, c.blocks)
  {
    EmitSuits(c, Eval(cond));
    NewBlocksSuit(c.Emit(Eval(cond)), 3);
    EmitSuits(c.Emit(Eval(cond)).NewBlocks(3), CondBr(|c.blocks|, |c.blocks| + 1));
  }

  lemma OpenWhileSuits(c: Context, cond: Expr)
    requires c.Ok()
    ensures AllSuit(c.kind, OpenWhile(c, cond).blocks) <==> AllSuit(c.kind, c.blocks)
  {
    var t := |c.blocks|;
    NewBlocksSuit(c, 3);
    EmitSuits(c.NewBlocks(3), Br(t));
    var c1 := c.NewBlocks(3).Emit(Br(t)).At(t);
    EmitSuits(c1, Eval(cond));
    EmitSuits(c1.Emit(Eval(cond)), CondBr(t + 1, t + 2));
  }

  lemma OpenForSuits(c: Context, test: Option<Expr>)
    requires c.Ok()
    ensures AllSuit(c.kind, OpenFor(c, test).blocks) <==> AllSuit(c.kind, c.blocks)
  {
    var t := |c.blocks|;
    NewBlocksSuit(c, 4);
    EmitSuits(c.NewBlocks(4), Br(t));
    var c1 := c.NewBlocks(4).Emit(Br(t)).At(t);
    if test.Some? {
      EmitSuits(c1, Eval(test.value));
      EmitSuits(c1.Emit(Eval(test.value)), CondBr(t + 1, t + 3));
    } else {
      EmitSuits(c1, Br(t + 1));
    }
  }

  lemma CloseForSuits(c: Context, post: Option<Expr>, t: Label)
    requires c.Ok() && t + 3 < |c.blocks|
    ensures AllSuit(c.kind, CloseFor(c, post, t).blocks) <==> AllSuit(c.kind, c.blocks)
  {
    JoinSuits(c, t + 2, t + 2);
    EmitOptionalSuits(JoinThen(c, t + 2, t + 2), post);
    JoinSuits(JoinThen(c, t + 2, t + 2).EmitOptional(post), t, t + 3);
  }

  lemma BeginCleanupSuits(c: Context)
    requires c.Ok() && c.cleanup.Some?
    ensures AllSuit(c.kind, BeginCleanup(c).blocks) <==> AllSuit(c.kind, c.blocks)
  {
    NewBlocksSuit(c, 1);
    EmitSuits(c.NewBlocks(1), SetDest(3));
    EmitSuits(c.NewBlocks(1).Emit(SetDest(3)), Br(c.cleanup.value));
  }

  /** The dispatch returns as the function is declared to. */
  lemma DispatchSuits(c: Context, after: Label, outer: Option<Label>)
    requires c.Ok() && after < |c.blocks|
    ensures AllSuit(c.kind, LowerDispatch(c, after, outer).blocks) <==> AllSuit(c.kind, c.blocks)
  {
    var n := if outer.Some? then 1 else 2;
    NewBlocksSuit(c.At(after), n);
    var c1 := c.At(after).NewBlocks(n);
    var i := SwitchDest(|c.blocks|, if outer.Some? then outer.value else |c.blocks| + 1,
                        if c.loopEnd.Some? then (if outer.Some? then outer else c.loopEnd) else None,
                        if c.loopCond.Some? then (if outer.Some? then outer else c.loopCond) else None);
    EmitSuits(c1, i);
    if outer.None? {
      EmitSuits(c1.Emit(i).At(|c.blocks| + 1), if c.kind.ReturnsDirect? then RetSlot else RetVoid);
    }
  }

  // ---------- Under an active cleanup ----------

  /** While a cleanup is active only branches are emitted for `return`. */
  lemma {:induction false} CoveredSuits(c: Context, s: Stmt)
    requires c.Ok() && c.cleanup.Some? && Tidy(s)
    ensures Lower(c, s).kind == c.kind
    ensures AllSuit(c.kind, Lower(c, s).blocks) <==> AllSuit(c.kind, c.blocks)
    decreases Size(s), 4
  {
    LowerRestores(c, s);
    if !c.Ended() {
      match s
      case ExprStmt(e) => EmitSuits(c, Eval(e));
      case VarDecl(x, value) => EmitOptionalSuits(c.Declare(x), value);
      case Block(_) => CoveredBlock(c, s);
      case If(_, _, _) => CoveredIf(c, s);
      case While(_, _) => CoveredWhile(c, s);
      case For(_, _, _, _) => CoveredFor(c, s);
      case Return(result) => ReturnSuits(c, result);
      case Break => JumpSuits(c, 1, c.loopEnd);
      case Continue => JumpSuits(c, 2, c.loopCond);
      case Defer(_) => NewBlocksSuit(c, 1);
    }
  }

  lemma {:induction false} CoveredIf(c: Context, s: Stmt)
    requires c.Ok() && c.cleanup.Some? && s.If? && Tidy(s)
    ensures AllSuit(c.kind, LowerIf(c, s).blocks) <==> AllSuit(c.kind, c.blocks)
    decreases Size(s), 1
  {
    OpenIfSuits(c, s.cond);
    CoveredBranches(OpenIf(c, s.cond), s, |c.blocks|);
  }

  lemma {:induction false} CoveredBranches(c: Context, s: Stmt, t: Label)
    requires c.Ok() && c.cleanup.Some? && s.If? && Tidy(s) && t + 2 < |c.blocks|
    ensures var r := JoinThen(LowerElse(JoinThen(Lower(c, s.thn), t + 2, t + 1), s.els), t + 2, t + 2);
            AllSuit(c.kind, r.blocks) <==> AllSuit(c.kind, c.blocks)
    decreases Size(s), 0
  {
    CoveredSuits(c, s.thn);
    JoinSuits(Lower(c, s.thn), t + 2, t + 1);
    var c2 := JoinThen(Lower(c, s.thn), t + 2, t + 1);
    if s.els.Some? {
      CoveredSuits(c2, s.els.value);
    }
    JoinSuits(LowerElse(c2, s.els), t + 2, t + 2);
  }

  lemma {:induction false} CoveredWhile(c: Context, s: Stmt)
    requires c.Ok() && c.cleanup.Some? && s.While? && Tidy(s)
    ensures AllSuit(c.kind, LowerWhile(c, s).blocks) <==> AllSuit(c.kind, c.blocks)
    decreases Size(s), 1
  {
    var c1 := OpenWhile(c, s.cond);
    OpenWhileSuits(c, s.cond);
    CoveredSuits(c1, s.body);
    JoinSuits(Lower(c1, s.body), |c.blocks|, |c.blocks| + 2);
  }

  lemma {:induction false} CoveredFor(c: Context, s: Stmt)
    requires c.Ok() && c.cleanup.Some? && s.For? && Tidy(s)
    ensures AllSuit(c.kind, LowerFor(c, s).blocks) <==> AllSuit(c.kind, c.blocks)
    decreases Size(s), 1
  {
    var e := c.EnterScope();
    var c0 := if s.init.Some? then Lower(e, s.init.value) else e;
    if s.init.Some? {
      CoveredSuits(e, s.init.value);
    }
    CoveredLoop(c0, s);
  }

  lemma {:induction false} CoveredLoop(c: Context, s: Stmt)
    requires c.Ok() && c.cleanup.Some? && s.For? && TidyBranch(s.body)
    ensures AllSuit(c.kind, CloseFor(Lower(OpenFor(c, s.test), s.body), s.post, |c.blocks|).blocks)
            <==> AllSuit(c.kind, c.blocks)
    decreases Size(s), 0
  {
    OpenForSuits(c, s.test);
    CoveredSuits(OpenFor(c, s.test), s.body);
    CloseForSuits(Lower(OpenFor(c, s.test), s.body), s.post, |c.blocks|);
  }

  lemma {:induction false} CoveredSeq(c: Context, stmts: seq<Stmt>)
    requires c.Ok() && c.cleanup.Some? && TidySeq(stmts)
    ensures LowerSeq(c, stmts).kind == c.kind
    ensures AllSuit(c.kind, LowerSeq(c, stmts).blocks) <==> AllSuit(c.kind, c.blocks)
    decreases SizeSeq(stmts), 5
  {
    if stmts != [] {
      CoveredSuits(c, stmts[0]);
      CoveredSeq(Lower(c, stmts[0]), stmts[1..]);
    }
  }

  lemma {:induction false} ChainSuits(c: Context, infos: seq<DeferInfo>, after: Label, bound: nat)
    requires c.Ok() && EmptyBlocks(infos, 0, c)
    requires forall i :: 0 <= i < |infos| ==> Size(infos[i].body) < bound
    ensures LowerDefers(c, infos, after, bound).kind == c.kind
    ensures AllSuit(c.kind, LowerDefers(c, infos, after, bound).blocks) <==> AllSuit(c.kind, c.blocks)
    decreases bound, 0, |infos|
  {
    if infos != [] {
      var n := |infos| - 1;
      var target := if n == 0 then after else infos[n - 1].bb;
      var c0 := c.At(infos[n].bb).(cleanup := Some(target));
      CoveredSuits(c0, infos[n].body);
      EmitSuits(Lower(c0, infos[n].body), Br(Lower(c0, infos[n].body).cleanup.value));
      LastDeferKeeps(0, c, infos, after, bound);
      ChainSuits(LowerLastDefer(c, infos, after, bound), infos[..n], after, bound);
    }
  }

  /** The end of a block: the chain of its deferred bodies and the dispatch. */
  lemma {:induction false} EndSuits(k: Context, c1: Context, infos: seq<DeferInfo>, outer: Option<Label>, bound: nat)
    requires Pending(k, c1) && |k.deferred| < |c1.deferred| && infos == c1.deferred[|k.deferred|..]
    requires c1.cleanup.Some? && forall i :: 0 <= i < |infos| ==> Size(infos[i].body) < bound
    requires EmptyBlocks(infos, 0, BeginCleanup(c1))
    ensures var r := LowerDispatch(LowerDefers(BeginCleanup(c1), infos, |c1.blocks|, bound), |c1.blocks|, outer);
            AllSuit(c1.kind, r.blocks) <==> AllSuit(c1.kind, c1.blocks)
    decreases bound, 1
  {
    BeginCleanupSuits(c1);
    ChainSuits(BeginCleanup(c1), infos, |c1.blocks|, bound);
    DispatchSuits(LowerDefers(BeginCleanup(c1), infos, |c1.blocks|, bound), |c1.blocks|, outer);
  }

  /** A block, once its statements are dealt with. */
  lemma {:induction false} BlockEndSuits(c: Context, s: Stmt)
    requires c.Ok() && s.Block? && Tidy(s)
    ensures var c1 := LowerSeq(c.EnterScope(), s.stmts);
            c1.kind == c.kind && (AllSuit(c.kind, LowerBlock(c, s).blocks) <==> AllSuit(c.kind, c1.blocks))
    decreases Size(s), 2
  {
    var k := c.EnterScope();
    var c1 := LowerSeq(k, s.stmts);
    SeqPending(k, s.stmts);
    if |c1.deferred| > |c.deferred| {
      PendingAtCleanup(k, c1);
      EndSuits(k, c1, c1.deferred[|c.deferred|..], c.cleanup, Size(s));
    }
  }

  lemma {:induction false} CoveredBlock(c: Context, s: Stmt)
    requires c.Ok() && c.cleanup.Some? && s.Block? && Tidy(s)
    ensures AllSuit(c.kind, LowerBlock(c, s).blocks) <==> AllSuit(c.kind, c.blocks)
    decreases Size(s), 3
  {
    CoveredSeq(c.EnterScope(), s.stmts);
    BlockEndSuits(c, s);
  }

  // ---------- Where no cleanup is active ----------

  lemma {:induction false} LowerSuits(c: Context, s: Stmt, inLoop: bool)
    requires Ready(c, inLoop) && c.cleanup.None? && Tidy(s)
    ensures AllSuit(c.kind, Lower(c, s).blocks) <==> AllSuit(c.kind, c.blocks) && ReturnsSuit(s, c.kind, inLoop)
    decreases Size(s), 2
  {
    match s
    case ExprStmt(e) => EmitSuits(c, Eval(e));
    case VarDecl(x, value) => EmitOptionalSuits(c.Declare(x), value);
    case Block(_) => BlockSuitsIff(c, s, inLoop);
    case If(_, _, _) => IfSuits(c, s, inLoop);
    case While(_, _) => WhileSuits(c, s, inLoop);
    case For(_, _, _, _) => ForSuits(c, s, inLoop);
    case Return(result) => ReturnSuits(c, result);
    case Break => JumpSuits(c, 1, c.loopEnd);
    case Continue => JumpSuits(c, 2, c.loopCond);
    case Defer(_) => NewBlocksSuit(c, 1);
  }

  lemma {:induction false} BlockSuitsIff(c: Context, s: Stmt, inLoop: bool)
    requires Ready(c, inLoop) && c.cleanup.None? && s.Block? && Tidy(s)
    ensures AllSuit(c.kind, LowerBlock(c, s).blocks) <==> AllSuit(c.kind, c.blocks) && ReturnsSuit(s, c.kind, inLoop)
    decreases Size(s), 1
  {
    SeqSuits(c.EnterScope(), s.stmts, inLoop);
    BlockEndSuits(c, s);
  }

  lemma {:induction false} SeqSuits(c: Context, stmts: seq<Stmt>, inLoop: bool)
    requires Ready(c, inLoop) && c.cleanup.None? && TidySeq(stmts)
    ensures AllSuit(c.kind, LowerSeq(c, stmts).blocks) <==>
            AllSuit(c.kind, c.blocks) && SeqReturnsSuit(stmts, c.kind, inLoop)
    decreases SizeSeq(stmts), 3
  {
    if stmts != [] {
      var c1 := Lower(c, stmts[0]);
      LowerSuits(c, stmts[0], inLoop);
      LowerShape(c, stmts[0], inLoop);
      LowerRestores(c, stmts[0]);
      if Ends(stmts[0], inLoop) {
        EndedSeq(c1, stmts[1..]);
      } else if Pushes(stmts[0]) {
        CoveredSeq(c1, stmts[1..]);
      } else {
        SeqSuits(c1, stmts[1..], inLoop);
      }
    }
  }

  lemma {:induction false} IfSuits(c: Context, s: Stmt, inLoop: bool)
    requires Ready(c, inLoop) && c.cleanup.None? && s.If? && Tidy(s)
    ensures AllSuit(c.kind, LowerIf(c, s).blocks) <==> AllSuit(c.kind, c.blocks) && ReturnsSuit(s, c.kind, inLoop)
    decreases Size(s), 1
  {
    var t := |c.blocks|;
    var c1 := IfOpens(c, s.cond, inLoop);
    BranchesSuit(c, c1, s, inLoop, t);
    assert LowerIf(c, s) == JoinThen(LowerElse(JoinThen(Lower(c1, s.thn), t + 2, t + 1), s.els), t + 2, t + 2);
  }

  /** What lowering the branches needs to know of the start of an `if`. */
  lemma IfOpens(c: Context, cond: Expr, inLoop: bool) returns (c1: Context)
    requires Ready(c, inLoop) && c.cleanup.None?
    ensures c1 == OpenIf(c, cond) && |c.blocks| + 2 < |c1.blocks| && Ready(c1, inLoop)
    ensures c1.cleanup.None? && c1.kind == c.kind && c1.cur == |c.blocks|
    ensures c1.blocks[|c.blocks| + 1] == [] && c1.blocks[|c.blocks| + 2] == []
    ensures Shaped(c, c1, true, {|c.blocks| + 1, |c.blocks| + 2})
    ensures AllSuit(c.kind, c1.blocks) <==> AllSuit(c.kind, c.blocks)
  {
    c1 := OpenIf(c, cond);
    OpenIfShape(c, cond);
    OpenIfKeeps(c, cond);
    OpenIfSuits(c, cond);
  }

  lemma {:induction false} BranchesSuit(c: Context, c1: Context, s: Stmt, inLoop: bool, t: Label)
    requires c.Ok() && |c.blocks| <= t && t + 2 < |c1.blocks| && Ready(c1, inLoop) && s.If? && Tidy(s)
    requires c1.cleanup.None? && c1.cur == t && c1.blocks[t + 1] == [] && c1.blocks[t + 2] == []
    requires Shaped(c, c1, true, {t + 1, t + 2})
    ensures var r := JoinThen(LowerElse(JoinThen(Lower(c1, s.thn), t + 2, t + 1), s.els), t + 2, t + 2);
            AllSuit(c1.kind, r.blocks) <==> AllSuit(c1.kind, c1.blocks) && ReturnsSuit(s, c1.kind, inLoop)
    decreases Size(s), 0
  {
    var c2 := ThenSuits(c, c1, s.thn, inLoop, t);
    ElseSuits(c2, s.els, inLoop, t + 2);
  }

  lemma {:induction false} ThenSuits(c: Context, c1: Context, s: Stmt, inLoop: bool, t: Label) returns (c2: Context)
    requires c.Ok() && |c.blocks| <= t && t + 2 < |c1.blocks| && Ready(c1, inLoop) && TidyBranch(s)
    requires c1.cleanup.None? && c1.cur == t && c1.blocks[t + 1] == [] && c1.blocks[t + 2] == []
    requires Shaped(c, c1, true, {t + 1, t + 2})
    ensures c2 == JoinThen(Lower(c1, s), t + 2, t + 1) && Ready(c2, inLoop) && t + 2 < |c2.blocks|
    ensures c2.cleanup.None? && c2.kind == c1.kind
    ensures AllSuit(c1.kind, c2.blocks) <==> AllSuit(c1.kind, c1.blocks) && ReturnsSuit(s, c1.kind, inLoop)
    decreases Size(s), 3
  {
    LowerSuits(c1, s, inLoop);
    LowerRestores(c1, s);
    JoinSuits(Lower(c1, s), t + 2, t + 1);
    c2 := ThenShape(c, c1, s, inLoop, t);
  }

  lemma {:induction false} ElseSuits(c: Context, els: Option<Stmt>, inLoop: bool, merge: Label)
    requires Ready(c, inLoop) && c.cleanup.None? && (els.Some? ==> Tidy(els.value)) && merge < |c.blocks|
    ensures AllSuit(c.kind, JoinThen(LowerElse(c, els), merge, merge).blocks) <==>
            AllSuit(c.kind, c.blocks) && (els.Some? ==> ReturnsSuit(els.value, c.kind, inLoop))
    decreases if els.Some? then Size(els.value) else 0, 3
  {
    if els.Some? {
      LowerSuits(c, els.value, inLoop);
      LowerRestores(c, els.value);
    }
    JoinSuits(LowerElse(c, els), merge, merge);
  }

  lemma {:induction false} WhileSuits(c: Context, s: Stmt, inLoop: bool)
    requires Ready(c, inLoop) && c.cleanup.None? && s.While? && Tidy(s)
    ensures AllSuit(c.kind, LowerWhile(c, s).blocks) <==> AllSuit(c.kind, c.blocks) && ReturnsSuit(s, c.kind, inLoop)
    decreases Size(s), 1
  {
    var c1 := OpenWhileShape(c, s.cond);
    OpenWhileSuits(c, s.cond);
    LowerSuits(c1, s.body, true);
    LowerRestores(c1, s.body);
    JoinSuits(Lower(c1, s.body), |c.blocks|, |c.blocks| + 2);
  }

  lemma {:induction false} ForSuits(c: Context, s: Stmt, inLoop: bool)
    requires Ready(c, inLoop) && c.cleanup.None? && s.For? && Tidy(s)
    ensures AllSuit(c.kind, LowerFor(c, s).blocks) <==> AllSuit(c.kind, c.blocks) && ReturnsSuit(s, c.kind, inLoop)
    decreases Size(s), 1
  {
    var e := c.EnterScope();
    var c0 := if s.init.Some? then Lower(e, s.init.value) else e;
    if s.init.Some? {
      LowerSuits(e, s.init.value, inLoop);
      LowerRestores(e, s.init.value);
    }
    if c0.cleanup.Some? {
      CoveredLoop(c0, s);
    } else {
      LoopSuits(c0, s);
    }
  }

  lemma {:induction false} LoopSuits(c: Context, s: Stmt)
    requires c.Ok() && c.cleanup.None? && s.For? && TidyBranch(s.body)
    ensures AllSuit(c.kind, CloseFor(Lower(OpenFor(c, s.test), s.body), s.post, |c.blocks|).blocks)
            <==> AllSuit(c.kind, c.blocks) && ReturnsSuit(s.body, c.kind, true)
    decreases Size(s), 0
  {
    var c1 := OpenFor(c, s.test);
    OpenForKeeps(c, s.test);
    OpenForSuits(c, s.test);
    LowerSuits(c1, s.body, true);
    LowerRestores(c1, s.body);
    CloseForSuits(Lower(c1, s.body), s.post, |c.blocks|);
  }

  /**
   * Every return instruction fits the function's kind if and only if no `return` that is
   * lowered outside an active cleanup lacks its value in a function that returns one, or
   * has one in a function that does not.
   */
  lemma ReturnsFit(kind: ReturnKind, body: Stmt)
    requires TidyBranch(body)
    ensures AllSuit(kind, LowerFunction(kind, body).blocks) <==> ReturnsSuit(body, kind, false)
  {
    var c := EntryContext(kind);
    LowerSuits(c, body, false);
    LowerRestores(c, body);
    EmitSuits(Lower(c, body), if kind.ReturnsDirect? then RetNull else RetVoid);
  }
}
