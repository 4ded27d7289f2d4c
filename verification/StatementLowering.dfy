/**
 * What one call of the statement lowering does to its context, as a function on
 * context values.  The class in StatementCodegen.dfy performs the same updates
 * in place and is proved equal to this function.
 */
module StatementLowering {
  import opened Options
  import opened StatementSemantics
  import opened ControlFlowGraph

  datatype DeferInfo = DeferInfo(body: Stmt, bb: Label)

  datatype Context = Context(
    blocks: seq<Block>,          // created blocks, in creation order
    cur: Label,                  // the builder's insertion block
    cleanup: Option<Label>,      // current_cleanup_bb
    loopCond: Option<Label>,     // loop_cond_bb
    loopEnd: Option<Label>,      // loop_end_bb
    deferred: seq<DeferInfo>,    // deferred_actions
    locals: seq<set<Name>>,      // scopes of declared names, innermost last
    kind: ReturnKind)
  {
    predicate Ok() { cur < |blocks| && locals != [] }

    predicate Ended() requires Ok() { Terminated(blocks[cur]) }

    function Emit(i: Instr): (c: Context)
      requires Ok()
      ensures c.Ok()
    {
      this.(blocks := blocks[cur := blocks[cur] + [i]])
    }

    function EmitUnlessEnded(i: Instr): (c: Context)
      requires Ok()
      ensures c.Ok()
    {
      if Ended() then this else Emit(i)
    }

    function NewBlocks(n: nat): (c: Context)
      requires Ok()
      ensures c.Ok() && |c.blocks| == |blocks| + n
    {
      this.(blocks := blocks + seq(n, _ => []))
    }

    function At(b: Label): (c: Context)
      requires Ok() && b < |blocks|
      ensures c.Ok()
    {
      this.(cur := b)
    }

    function EnterScope(): (c: Context)
      requires Ok()
      ensures c.Ok()
    {
      this.(locals := locals + [{}])
    }

    function Declare(x: Name): (c: Context)
      requires Ok()
      ensures c.Ok()
    {
      this.(locals := locals[|locals| - 1 := locals[|locals| - 1] + {x}])
    }

    function EmitOptional(e: Option<Expr>): (c: Context)
      requires Ok()
      ensures c.Ok()
    {
      if e.Some? then Emit(Eval(e.value)) else this
    }
  }

  /** Bodies deferred between `c` and `r` are smaller than `bound`. */
  ghost predicate Grown(c: Context, r: Context, bound: nat)
  {
    && r.Ok()
    && |c.blocks| <= |r.blocks|
    && |c.locals| <= |r.locals|
    && (c.cleanup.Some? ==> r.cleanup.Some?)
    && c.deferred <= r.deferred
    && (|c.deferred| < |r.deferred| ==> r.cleanup.Some?)
    && (forall i :: |c.deferred| <= i < |r.deferred| ==>
          Size(r.deferred[i].body) < bound && r.deferred[i].bb < |r.blocks|)
  }

  function LowerReturn(c: Context, result: Option<Expr>): (r: Context)
    requires c.Ok()
    ensures r.Ok()
  {
    var c1 := c.EmitOptional(result);
    var c2 := if Yields(result) && !c.kind.ReturnsVoid? then c1.Emit(StoreSlot) else c1;
    c2.Emit(SetDest(0)).Emit(LastOfReturn(c, result))
  }

  /** With no cleanup active, a value is handed on even where the function has no result. */
  function LastOfReturn(c: Context, result: Option<Expr>): Instr
  {
    if c.cleanup.Some? then Br(c.cleanup.value)
    else if Yields(result) && !c.kind.ReturnsIndirect? then RetValue
    else RetVoid
  }

  /** `break` and `continue`: nothing at all outside a loop. */
  function LowerJump(c: Context, code: int, target: Option<Label>): (r: Context)
    requires c.Ok()
    ensures r.Ok()
  {
    if target.None? then c
    else if c.cleanup.Some? then c.Emit(SetDest(code)).Emit(Br(c.cleanup.value))
    else c.Emit(SetDest(code)).Emit(Br(target.value))
  }

  function LowerDefer(c: Context, body: Stmt): (r: Context)
    requires c.Ok()
    ensures r.Ok()
  {
    c.NewBlocks(1).(deferred := c.deferred + [DeferInfo(body, |c.blocks|)], cleanup := Some(|c.blocks|))
  }

  /** End of a block with defers: creates "after_cleanup" and sends the natural exit into the chain. */
  function BeginCleanup(c: Context): (r: Context)
    requires c.Ok() && c.cleanup.Some?
    ensures r.Ok() && |r.blocks| == |c.blocks| + 1
  {
    var c1 := c.NewBlocks(1);
    if c1.Ended() then c1 else c1.Emit(SetDest(3)).Emit(Br(c.cleanup.value))
  }

  /** The dispatch block behind a block's cleanup chain; leaves the builder at "natural". */
  function LowerDispatch(c: Context, after: Label, outer: Option<Label>): (r: Context)
    requires c.Ok() && after < |c.blocks|
    ensures r.Ok() && |c.blocks| < |r.blocks|
  {
    var natural := |c.blocks|;
    var c1 := if outer.Some? then c.At(after).NewBlocks(1) else c.At(after).NewBlocks(2);
    var c2 := c1.Emit(SwitchDest(natural,
                                 if outer.Some? then outer.value else natural + 1,
                                 if c.loopEnd.Some? then (if outer.Some? then outer else c.loopEnd) else None,
                                 if c.loopCond.Some? then (if outer.Some? then outer else c.loopCond) else None));
    var c3 := if outer.Some? then c2
              else c2.At(natural + 1).Emit(if c.kind.ReturnsDirect? then RetSlot else RetVoid);
    c3.At(natural)
  }

  /** The condition and the blocks "then", "else" and "merge"; leaves the builder in "then". */
  function OpenIf(c: Context, cond: Expr): (r: Context)
    requires c.Ok()
    ensures r.Ok() && |r.blocks| == |c.blocks| + 3
  {
    var t := |c.blocks|;
    c.Emit(Eval(cond)).NewBlocks(3).Emit(CondBr(t, t + 1)).At(t)
  }

  /** Ends a branch by a jump to `target`, unless it has ended by itself, and moves on to `next`. */
  function JoinThen(c: Context, target: Label, next: Label): (r: Context)
    requires c.Ok() && next < |c.blocks|
    ensures r.Ok() && |r.blocks| == |c.blocks|
  {
    c.EmitUnlessEnded(Br(target)).At(next)
  }

  function LowerIf(c: Context, s: Stmt): (r: Context)
    requires c.Ok() && s.If?
    ensures Grown(c, r, Size(s))
    decreases Size(s), 0
  {
    var t := |c.blocks|;
    JoinThen(LowerElse(JoinThen(Lower(OpenIf(c, s.cond), s.thn), t + 2, t + 1), s.els), t + 2, t + 2)
  }

  function LowerElse(c: Context, els: Option<Stmt>): (r: Context)
    requires c.Ok()
    ensures Grown(c, r, if els.Some? then Size(els.value) else 0)
    decreases if els.Some? then Size(els.value) else 0, 2
  {
    if els.Some? then Lower(c, els.value) else c
  }

  /** Creates "cond", "body" and "end", and the test; leaves the builder in the body. */
  function OpenWhile(c: Context, cond: Expr): (r: Context)
    requires c.Ok()
    ensures r.Ok() && |r.blocks| == |c.blocks| + 3
  {
    var t := |c.blocks|;
    c.NewBlocks(3).Emit(Br(t)).At(t).Emit(Eval(cond)).Emit(CondBr(t + 1, t + 2))
      .(loopCond := Some(t), loopEnd := Some(t + 2)).At(t + 1)
  }

  function LowerWhile(c: Context, s: Stmt): (r: Context)
    requires c.Ok() && s.While?
    ensures Grown(c, r, Size(s))
    decreases Size(s), 0
  {
    var t := |c.blocks|;
    JoinThen(Lower(OpenWhile(c, s.cond), s.body), t, t + 2).(loopCond := c.loopCond, loopEnd := c.loopEnd)
  }

  /** Creates "cond", "body", "post" and "end", and the test; leaves the builder in the body. */
  function OpenFor(c: Context, test: Option<Expr>): (r: Context)
    requires c.Ok()
    ensures r.Ok() && |r.blocks| == |c.blocks| + 4
  {
    var t := |c.blocks|;
    var c1 := c.NewBlocks(4).Emit(Br(t)).At(t);
    var c2 := if test.Some? then c1.Emit(Eval(test.value)).Emit(CondBr(t + 1, t + 3)) else c1.Emit(Br(t + 1));
    c2.(loopCond := Some(t + 2), loopEnd := Some(t + 3)).At(t + 1)
  }

  /** Ends the body, fills in "post" and leaves the builder in "end"; `t` is "cond". */
  function CloseFor(c: Context, post: Option<Expr>, t: Label): (r: Context)
    requires c.Ok() && t + 3 < |c.blocks|
    ensures r.Ok() && |r.blocks| == |c.blocks|
  {
    JoinThen(JoinThen(c, t + 2, t + 2).EmitOptional(post), t, t + 3)
  }

  function LowerFor(c: Context, s: Stmt): (r: Context)
    requires c.Ok() && s.For?
    ensures Grown(c, r, Size(s))
    decreases Size(s), 0
  {
    var c0 := if s.init.Some? then Lower(c.EnterScope(), s.init.value) else c.EnterScope();
    var c1 := Lower(OpenFor(c0, s.test), s.body);
    var c2 := CloseFor(c1, s.post, |c0.blocks|);
    c2.(loopCond := c0.loopCond, loopEnd := c0.loopEnd, locals := c2.locals[..|c.locals|])
  }

  function LowerBlock(c: Context, s: Stmt): (r: Context)
    requires c.Ok() && s.Block?
    ensures Grown(c, r, Size(s))
    decreases Size(s), 0
  {
    var c1 := LowerSeq(c.EnterScope(), s.stmts);
    var prev := |c.deferred|;
    var c2 := if |c1.deferred| > prev then
                var after := |c1.blocks|;
                var d3 := LowerDefers(BeginCleanup(c1), c1.deferred[prev..], after, Size(s));
                LowerDispatch(d3, after, c.cleanup).(deferred := c1.deferred[..prev])
              else c1;
    c2.(cleanup := c.cleanup, locals := c2.locals[..|c.locals|])
  }

  /** codegen_statement: does nothing once the insertion block has ended. */
  function Lower(c: Context, s: Stmt): (r: Context)
    requires c.Ok()
    ensures Grown(c, r, Size(s))
    decreases Size(s), 1
  {
    if c.Ended() then c
    else
      match s
      case ExprStmt(e) => c.Emit(Eval(e))
      case VarDecl(x, value) => c.Declare(x).EmitOptional(value)
      case Block(_) => LowerBlock(c, s)
      case If(_, _, _) => LowerIf(c, s)
      case While(_, _) => LowerWhile(c, s)
      case For(_, _, _, _) => LowerFor(c, s)
      case Return(result) => LowerReturn(c, result)
      case Break => LowerJump(c, 1, c.loopEnd)
      case Continue => LowerJump(c, 2, c.loopCond)
      case Defer(body) => LowerDefer(c, body)
  }

  function LowerSeq(c: Context, stmts: seq<Stmt>): (r: Context)
    requires c.Ok()
    ensures Grown(c, r, SizeSeq(stmts))
    decreases SizeSeq(stmts), 2
  {
    if stmts == [] then c else LowerSeq(Lower(c, stmts[0]), stmts[1..])
  }

  /** Fills in the body deferred last; it falls through to the one before it, or to `after`. */
  function LowerLastDefer(c: Context, infos: seq<DeferInfo>, after: Label, ghost bound: nat): (r: Context)
    requires c.Ok() && infos != [] && infos[|infos| - 1].bb < |c.blocks|
    requires Size(infos[|infos| - 1].body) < bound
    ensures r.Ok() && |c.blocks| <= |r.blocks| && |c.locals| <= |r.locals| && r.cleanup.Some?
    decreases bound, 0, 0
  {
    var n := |infos| - 1;
    var target := if n == 0 then after else infos[n - 1].bb;
    var c1 := Lower(c.At(infos[n].bb).(cleanup := Some(target)), infos[n].body);
    c1.EmitUnlessEnded(Br(c1.cleanup.value))
  }

  function LowerDefers(c: Context, infos: seq<DeferInfo>, after: Label, ghost bound: nat): (r: Context)
    requires c.Ok()
    requires forall i :: 0 <= i < |infos| ==> Size(infos[i].body) < bound && infos[i].bb < |c.blocks|
    ensures r.Ok() && |c.blocks| <= |r.blocks| && |c.locals| <= |r.locals|
    decreases bound, 0, |infos|
  {
    if infos == [] then c
    else LowerDefers(LowerLastDefer(c, infos, after, bound), infos[..|infos| - 1], after, bound)
  }

  function EntryContext(kind: ReturnKind): (c: Context)
    ensures c.Ok()
  {
    Context([[]], 0, None, None, None, [], [{}], kind)
  }

  /** The body of a function, with the return that falling off its end stands for. */
  function LowerFunction(kind: ReturnKind, body: Stmt): (c: Context)
    ensures c.Ok()
  {
    var c1 := Lower(EntryContext(kind), body);
    c1.EmitUnlessEnded(if kind.ReturnsDirect? then RetNull else RetVoid)
  }
}
