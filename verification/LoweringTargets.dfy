/** Every jump the lowering emits goes to a block that has been created. */
module LoweringTargets {
  import opened Options
  import opened StatementSemantics
  import opened ControlFlowGraph
  import opened StatementLowering
  import opened LoweringFrame

  predicate Below(ls: set<Label>, n: nat)
  {
    forall l <- ls :: l < n
  }

  predicate BlockBelow(b: Block, n: nat)
  {
    b == [] || (Below(Targets(b[|b| - 1]), n) && BlockBelow(b[..|b| - 1], n))
  }

  predicate OptionBelow(l: Option<Label>, n: nat)
  {
    l.Some? ==> l.value < n
  }

  ghost predicate AllBelow(blocks: seq<Block>, n: nat)
  {
    forall b :: 0 <= b < |blocks| ==> BlockBelow(blocks[b], n)
  }

  /** All jumps emitted so far, and all jumps the context may lead to, have a destination. */
  ghost predicate TargetsOk(c: Context)
  {
    && c.Ok() && AllBelow(c.blocks, |c.blocks|)
    && OptionBelow(c.cleanup, |c.blocks|)
    && OptionBelow(c.loopCond, |c.blocks|)
    && OptionBelow(c.loopEnd, |c.blocks|)
  }

  lemma {:induction false} BelowMore(b: Block, m: nat, n: nat)
    requires BlockBelow(b, m) && m <= n
    ensures BlockBelow(b, n)
  {
    if b != [] {
      BelowMore(b[..|b| - 1], m, n);
    }
  }

  lemma EmitTargets(c: Context, i: Instr)
    requires TargetsOk(c) && Below(Targets(i), |c.blocks|)
    ensures TargetsOk(c.Emit(i)) && TargetsOk(c.EmitUnlessEnded(i))
  {
    assert c.Emit(i).blocks[c.cur][..|c.blocks[c.cur]|] == c.blocks[c.cur];
  }

  lemma NewBlocksTargets(c: Context, n: nat)
    requires TargetsOk(c)
    ensures TargetsOk(c.NewBlocks(n))
  {
    forall b | 0 <= b < |c.blocks|
      ensures BlockBelow(c.blocks[b], |c.blocks| + n)
    {
      BelowMore(c.blocks[b], |c.blocks|, |c.blocks| + n);
    }
  }

  lemma EmitOptionalTargets(c: Context, e: Option<Expr>)
    requires TargetsOk(c)
    ensures TargetsOk(c.EmitOptional(e))
  {
    if e.Some? {
      EmitTargets(c, Eval(e.value));
    }
  }

  lemma JoinTargets(c: Context, target: Label, next: Label)
    requires TargetsOk(c) && target < |c.blocks| && next < |c.blocks|
    ensures TargetsOk(JoinThen(c, target, next))
  {
    EmitTargets(c, Br(target));
  }

  lemma {:induction false} LowerTargets(c: Context, s: Stmt)
    requires TargetsOk(c) && Tidy(s)
    ensures TargetsOk(Lower(c, s))
    decreases Size(s), 2
  {
    if !c.Ended() {
      match s
      case ExprStmt(e) => EmitTargets(c, Eval(e));
      case VarDecl(x, value) => EmitOptionalTargets(c.Declare(x), value);
      case Block(_) => BlockTargets(c, s);
      case If(_, _, _) => IfTargets(c, s);
      case While(_, _) => WhileTargets(c, s);
      case For(_, _, _, _) => ForTargets(c, s);
      case Return(result) => ReturnTargets(c, result);
      case Break => JumpTargets(c, 1, c.loopEnd);
      case Continue => JumpTargets(c, 2, c.loopCond);
      case Defer(_) => NewBlocksTargets(c, 1);
    }
  }

  lemma ReturnTargets(c: Context, result: Option<Expr>)
    requires TargetsOk(c)
    ensures TargetsOk(LowerReturn(c, result))
  {
    var c2 := ReturnSlotTargets(c, result);
    EmitTargets(c2, SetDest(0));
    EmitTargets(c2.Emit(SetDest(0)), LastOfReturn(c, result));
  }

  lemma ReturnSlotTargets(c: Context, result: Option<Expr>) returns (c2: Context)
    requires TargetsOk(c)
    ensures TargetsOk(c2) && |c2.blocks| == |c.blocks|
    ensures var c1 := c.EmitOptional(result);
            c2 == if Yields(result) && !c.kind.ReturnsVoid? then c1.Emit(StoreSlot) else c1
  {
    EmitOptionalTargets(c, result);
    c2 := c.EmitOptional(result);
    if Yields(result) && !c.kind.ReturnsVoid? {
      EmitTargets(c2, StoreSlot);
      c2 := c2.Emit(StoreSlot);
    }
  }

  lemma JumpTargets(c: Context, code: int, target: Option<Label>)
    requires TargetsOk(c) && OptionBelow(target, |c.blocks|)
    ensures TargetsOk(LowerJump(c, code, target))
  {
    EmitTargets(c, SetDest(code));
    if target.Some? {
      EmitTargets(c.Emit(SetDest(code)), Br(if c.cleanup.Some? then c.cleanup.value else target.value));
    }
  }

  lemma {:induction false} IfTargets(c: Context, s: Stmt)
    requires TargetsOk(c) && s.If? && Tidy(s)
    ensures TargetsOk(LowerIf(c, s))
    decreases Size(s), 1
  {
    var t := |c.blocks|;
    EmitTargets(c, Eval(s.cond));
    NewBlocksTargets(c.Emit(Eval(s.cond)), 3);
    EmitTargets(c.Emit(Eval(s.cond)).NewBlocks(3), CondBr(t, t + 1));
    LowerTargets(OpenIf(c, s.cond), s.thn);
    var c1 := Lower(OpenIf(c, s.cond), s.thn);
    JoinTargets(c1, t + 2, t + 1);
    var c2 := JoinThen(c1, t + 2, t + 1);
    if s.els.Some? {
      LowerTargets(c2, s.els.value);
    }
    JoinTargets(LowerElse(c2, s.els), t + 2, t + 2);
  }

  lemma {:induction false} WhileTargets(c: Context, s: Stmt)
    requires TargetsOk(c) && s.While? && Tidy(s)
    ensures TargetsOk(LowerWhile(c, s))
    decreases Size(s), 1
  {
    var t := |c.blocks|;
    NewBlocksTargets(c, 3);
    EmitTargets(c.NewBlocks(3), Br(t));
    var c1 := c.NewBlocks(3).Emit(Br(t)).At(t);
    EmitTargets(c1, Eval(s.cond));
    EmitTargets(c1.Emit(Eval(s.cond)), CondBr(t + 1, t + 2));
    LowerTargets(OpenWhile(c, s.cond), s.body);
    JoinTargets(Lower(OpenWhile(c, s.cond), s.body), t, t + 2);
  }

  lemma OpenForTargets(c: Context, test: Option<Expr>)
    requires TargetsOk(c)
    ensures TargetsOk(OpenFor(c, test))
  {
    var t := |c.blocks|;
    NewBlocksTargets(c, 4);
    EmitTargets(c.NewBlocks(4), Br(t));
    var c1 := c.NewBlocks(4).Emit(Br(t)).At(t);
    if test.Some? {
      EmitTargets(c1, Eval(test.value));
      EmitTargets(c1.Emit(Eval(test.value)), CondBr(t + 1, t + 3));
    } else {
      EmitTargets(c1, Br(t + 1));
    }
  }

  lemma CloseForTargets(c: Context, post: Option<Expr>, t: Label)
    requires TargetsOk(c) && t + 3 < |c.blocks|
    ensures TargetsOk(CloseFor(c, post, t))
  {
    JoinTargets(c, t + 2, t + 2);
    EmitOptionalTargets(JoinThen(c, t + 2, t + 2), post);
    JoinTargets(JoinThen(c, t + 2, t + 2).EmitOptional(post), t, t + 3);
  }

  lemma {:induction false} ForTargets(c: Context, s: Stmt)
    requires TargetsOk(c) && s.For? && Tidy(s)
    ensures TargetsOk(LowerFor(c, s))
    decreases Size(s), 1
  {
    var k := c.EnterScope();
    var c0 := if s.init.Some? then Lower(k, s.init.value) else k;
    if s.init.Some? {
      LowerTargets(k, s.init.value);
      LowerRestores(k, s.init.value);
    }
    OpenForTargets(c0, s.test);
    var c1 := OpenFor(c0, s.test);
    LowerTargets(c1, s.body);
    CloseForTargets(Lower(c1, s.body), s.post, |c0.blocks|);
  }

  lemma {:induction false} SeqTargets(c: Context, stmts: seq<Stmt>)
    requires TargetsOk(c) && TidySeq(stmts)
    ensures TargetsOk(LowerSeq(c, stmts))
    decreases SizeSeq(stmts), 3
  {
    if stmts != [] {
      LowerTargets(c, stmts[0]);
      SeqTargets(Lower(c, stmts[0]), stmts[1..]);
    }
  }

  lemma {:induction false} DefersTargets(c: Context, infos: seq<DeferInfo>, after: Label, bound: nat)
    requires TargetsOk(c) && EmptyBlocks(infos, 0, c) && after < |c.blocks|
    requires forall i :: 0 <= i < |infos| ==> Size(infos[i].body) < bound
    ensures var r := LowerDefers(c, infos, after, bound);
            TargetsOk(r) && SameTargets(c, r) && |c.blocks| <= |r.blocks|
    decreases bound, 0, |infos|
  {
    if infos != [] {
      LastDeferTargets(c, infos, after, bound);
      LastDeferKeeps(0, c, infos, after, bound);
      DefersTargets(LowerLastDefer(c, infos, after, bound), infos[..|infos| - 1], after, bound);
    }
  }

  lemma {:induction false} LastDeferTargets(c: Context, infos: seq<DeferInfo>, after: Label, bound: nat)
    requires TargetsOk(c) && EmptyBlocks(infos, 0, c) && after < |c.blocks| && infos != []
    requires Size(infos[|infos| - 1].body) < bound
    ensures TargetsOk(LowerLastDefer(c, infos, after, bound))
    decreases bound, 0, 0
  {
    var c0 := DeferStart(c, infos, after);
    LowerTargets(c0, infos[|infos| - 1].body);
    CleanupTargets(Lower(c0, infos[|infos| - 1].body));
  }

  /** Where the body deferred last is filled in. */
  lemma DeferStart(c: Context, infos: seq<DeferInfo>, after: Label) returns (c0: Context)
    requires TargetsOk(c) && EmptyBlocks(infos, 0, c) && after < |c.blocks| && infos != []
    ensures var n := |infos| - 1;
            c0 == c.At(infos[n].bb).(cleanup := Some(if n == 0 then after else infos[n - 1].bb)) && TargetsOk(c0)
  {
    var n := |infos| - 1;
    c0 := c.At(infos[n].bb).(cleanup := Some(if n == 0 then after else infos[n - 1].bb));
  }

  lemma CleanupTargets(c: Context)
    requires TargetsOk(c) && c.cleanup.Some?
    ensures TargetsOk(c.EmitUnlessEnded(Br(c.cleanup.value)))
  {
    EmitTargets(c, Br(c.cleanup.value));
  }

  lemma DispatchTargets(c: Context, after: Label, outer: Option<Label>)
    requires TargetsOk(c) && after < |c.blocks| && OptionBelow(outer, |c.blocks|)
    ensures TargetsOk(LowerDispatch(c, after, outer).(cleanup := outer))
  {
    var n := if outer.Some? then 1 else 2;
    NewBlocksTargets(c.At(after), n);
    var c1 := c.At(after).NewBlocks(n);
    var i := SwitchDest(|c.blocks|, if outer.Some? then outer.value else |c.blocks| + 1,
                        if c.loopEnd.Some? then (if outer.Some? then outer else c.loopEnd) else None,
                        if c.loopCond.Some? then (if outer.Some? then outer else c.loopCond) else None);
    EmitTargets(c1, i);
    if outer.None? {
      EmitTargets(c1.Emit(i).At(|c.blocks| + 1), if c.kind.ReturnsDirect? then RetSlot else RetVoid);
    }
  }

  lemma {:induction false} BlockTargets(c: Context, s: Stmt)
    requires TargetsOk(c) && s.Block? && Tidy(s)
    ensures TargetsOk(LowerBlock(c, s))
    decreases Size(s), 1
  {
    var k := c.EnterScope();
    SeqTargets(k, s.stmts);
    SeqPending(k, s.stmts);
    var c1 := LowerSeq(k, s.stmts);
    if |c1.deferred| > |c.deferred| {
      NewBlocksTargets(c1, 1);
      var d1 := c1.NewBlocks(1);
      if !d1.Ended() {
        EmitTargets(d1, SetDest(3));
        EmitTargets(d1.Emit(SetDest(3)), Br(c1.cleanup.value));
      }
      PendingAtCleanup(k, c1);
      var d := BeginCleanup(c1);
      var infos := c1.deferred[|c.deferred|..];
      DefersTargets(d, infos, |c1.blocks|, Size(s));
      DispatchTargets(LowerDefers(d, infos, |c1.blocks|, Size(s)), |c1.blocks|, c.cleanup);
    }
  }
}
