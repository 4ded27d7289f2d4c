/**
 * The statement lowering as the code performs it: one context object whose
 * fields every step overwrites, and a builder that appends to the block it is
 * positioned in.  Each method is proved to compute StatementLowering.Lower.
 */
module StatementCodegen {
  import opened Options
  import opened StatementSemantics
  import opened ControlFlowGraph
  import opened StatementLowering

  lemma {:induction false} SizeMember(stmts: seq<Stmt>, i: nat)
    requires i < |stmts|
    ensures Size(stmts[i]) < SizeSeq(stmts)
    decreases i
  {
    if i > 0 {
      SizeMember(stmts[1..], i - 1);
    }
  }

  class CodegenContext {
    var blocks: seq<Block>
    var insertBlock: Label
    var currentCleanup: Option<Label>
    var loopCond: Option<Label>
    var loopEnd: Option<Label>
    var deferredActions: seq<DeferInfo>
    var locals: seq<set<Name>>
    const kind: ReturnKind

    ghost function View(): Context
      reads this
    {
      Context(blocks, insertBlock, currentCleanup, loopCond, loopEnd, deferredActions, locals, kind)
    }

    constructor (kind: ReturnKind)
      ensures View() == EntryContext(kind)
    {
      blocks, insertBlock := [[]], 0;
      currentCleanup, loopCond, loopEnd := None, None, None;
      deferredActions, locals := [], [{}];
      this.kind := kind;
    }

    // ----- The builder -----

    method Append(i: Instr)
      requires View().Ok()
      modifies this`blocks
      ensures View() == old(View()).Emit(i)
    {
      blocks := blocks[insertBlock := blocks[insertBlock] + [i]];
    }

    method AppendUnlessEnded(i: Instr)
      requires View().Ok()
      modifies this`blocks
      ensures View() == old(View()).EmitUnlessEnded(i)
    {
      if !Terminated(blocks[insertBlock]) {
        Append(i);
      }
    }

    method NewBlock() returns (b: Label)
      requires View().Ok()
      modifies this`blocks
      ensures b == old(|blocks|) && View() == old(View()).NewBlocks(1)
    {
      b := |blocks|;
      blocks := blocks + [[]];
      assert blocks == old(View()).NewBlocks(1).blocks;
    }

    method Expression(e: Option<Expr>)
      requires View().Ok()
      modifies this`blocks
      ensures View() == old(View()).EmitOptional(e)
    {
      if e.Some? {
        Append(Eval(e.value));
      }
    }

    /** Ends a branch by a jump to `target` and moves on to `next`. */
    method Join(target: Label, next: Label)
      requires View().Ok() && next < |blocks|
      modifies this
      ensures View() == JoinThen(old(View()), target, next)
    {
      AppendUnlessEnded(Br(target));
      insertBlock := next;
    }

    // ----- Statements -----

    method Statement(s: Stmt)
      requires View().Ok()
      modifies this
      ensures View() == Lower(old(View()), s)
      decreases Size(s), 2
    {
      if Terminated(blocks[insertBlock]) {
        return;
      }
      match s
      case ExprStmt(e) =>
        Append(Eval(e));
      case VarDecl(x, value) =>
        locals := locals[|locals| - 1 := locals[|locals| - 1] + {x}];
        Expression(value);
      case Block(_) =>
        BlockStatement(s);
      case If(_, _, _) =>
        IfStatement(s);
      case While(_, _) =>
        WhileStatement(s);
      case For(_, _, _, _) =>
        ForStatement(s);
      case Return(result) =>
        ReturnStatement(result);
      case Break =>
        JumpStatement(1, loopEnd);
      case Continue =>
        JumpStatement(2, loopCond);
      case Defer(body) =>
        var bb := NewBlock();
        deferredActions := deferredActions + [DeferInfo(body, bb)];
        currentCleanup := Some(bb);
    }

    method ReturnStatement(result: Option<Expr>)
      requires View().Ok()
      modifies this
      ensures View() == LowerReturn(old(View()), result)
    {
      Expression(result);
      var retval := Yields(result);
      if retval && !kind.ReturnsVoid? {
        Append(StoreSlot);
      }
      Append(SetDest(0));
      if currentCleanup.Some? {
        Append(Br(currentCleanup.value));
      } else if kind.ReturnsIndirect? {
        Append(RetVoid);
      } else if retval {
        Append(RetValue);
      } else {
        Append(RetVoid);
      }
    }

    method JumpStatement(code: int, target: Option<Label>)
      requires View().Ok()
      modifies this
      ensures View() == LowerJump(old(View()), code, target)
    {
      if target.Some? {
        Append(SetDest(code));
        if currentCleanup.Some? {
          Append(Br(currentCleanup.value));
        } else {
          Append(Br(target.value));
        }
      }
    }

    /** The condition and the three blocks; the builder is left in the first of them. */
    method BranchOnCondition(cond: Expr) returns (elseBlock: Label, mergeBlock: Label)
      requires View().Ok()
      modifies this
      ensures View() == OpenIf(old(View()), cond)
      ensures elseBlock == |old(blocks)| + 1 && mergeBlock == |old(blocks)| + 2
    {
      ghost var c := View();
      Append(Eval(cond));
      var thenBlock := NewBlock();
      elseBlock := NewBlock();
      mergeBlock := NewBlock();
      Append(CondBr(thenBlock, elseBlock));
      insertBlock := thenBlock;
      assert View().blocks == OpenIf(c, cond).blocks;
    }

    method IfStatement(s: Stmt)
      requires View().Ok() && s.If?
      modifies this
      ensures View() == LowerIf(old(View()), s)
      decreases Size(s), 1
    {
      var elseBlock, mergeBlock := BranchOnCondition(s.cond);
      Branch(s.thn, mergeBlock, elseBlock);
      ElseBranch(s.els, mergeBlock);
    }

    /** A statement that goes on at `target` when it does not end by itself. */
    method Branch(s: Stmt, target: Label, next: Label)
      requires View().Ok() && next < |blocks|
      modifies this
      ensures View() == JoinThen(Lower(old(View()), s), target, next)
      decreases Size(s), 3
    {
      Statement(s);
      Join(target, next);
    }

    method ElseBranch(els: Option<Stmt>, mergeBlock: Label)
      requires View().Ok() && mergeBlock < |blocks|
      modifies this
      ensures View() == JoinThen(LowerElse(old(View()), els), mergeBlock, mergeBlock)
      decreases if els.None? then 0 else Size(els.value), 3
    {
      if els.Some? {
        Statement(els.value);
      }
      Join(mergeBlock, mergeBlock);
    }

    method WhileStatement(s: Stmt)
      requires View().Ok() && s.While?
      modifies this
      ensures View() == LowerWhile(old(View()), s)
      decreases Size(s), 1
    {
      ghost var c := View();
      var condBlock := NewBlock();
      var bodyBlock := NewBlock();
      var endBlock := NewBlock();
      assert View().blocks == c.NewBlocks(3).blocks;
      Append(Br(condBlock));
      insertBlock := condBlock;
      Append(Eval(s.cond));
      Append(CondBr(bodyBlock, endBlock));
      var oldCond, oldEnd := loopCond, loopEnd;
      loopCond, loopEnd := Some(condBlock), Some(endBlock);
      insertBlock := bodyBlock;
      assert View() == OpenWhile(c, s.cond);
      Branch(s.body, condBlock, endBlock);
      loopCond, loopEnd := oldCond, oldEnd;
    }

    /** The blocks and the test of a `for`; leaves the builder in the body. */
    method ForTest(test: Option<Expr>) returns (condBlock: Label)
      requires View().Ok()
      modifies this
      ensures View() == OpenFor(old(View()), test) && condBlock == old(|blocks|)
    {
      ghost var c := View();
      condBlock := NewBlock();
      var bodyBlock := NewBlock();
      var postBlock := NewBlock();
      var endBlock := NewBlock();
      assert View().blocks == c.NewBlocks(4).blocks;
      Append(Br(condBlock));
      insertBlock := condBlock;
      if test.Some? {
        Append(Eval(test.value));
        Append(CondBr(bodyBlock, endBlock));
      } else {
        Append(Br(bodyBlock));
      }
      loopCond, loopEnd := Some(postBlock), Some(endBlock);
      insertBlock := bodyBlock;
    }

    /** Ends the body of a `for`, fills in the block of its last clause and moves behind the loop. */
    method ForPost(condBlock: Label, post: Option<Expr>)
      requires View().Ok() && condBlock + 3 < |blocks|
      modifies this
      ensures View() == CloseFor(old(View()), post, condBlock)
    {
      Join(condBlock + 2, condBlock + 2);
      Expression(post);
      Join(condBlock, condBlock + 3);
    }

    method ForInit(init: Option<Stmt>)
      requires View().Ok()
      modifies this
      ensures View() == if init.Some? then Lower(old(View()), init.value) else old(View())
      decreases if init.Some? then Size(init.value) else 0, 3
    {
      if init.Some? {
        Statement(init.value);
      }
    }

    method ForStatement(s: Stmt)
      requires View().Ok() && s.For?
      modifies this
      ensures View() == LowerFor(old(View()), s)
      decreases Size(s), 1
    {
      var outer := |locals|;
      locals := locals + [{}];
      ForInit(s.init);
      ForLoop(s);
      locals := locals[..outer];
    }

    /** From the test on; the loop targets of the enclosing loop come back. */
    method ForLoop(s: Stmt)
      requires View().Ok() && s.For?
      modifies this
      ensures var c := old(View());
              var r := CloseFor(Lower(OpenFor(c, s.test), s.body), s.post, |c.blocks|);
              View() == r.(loopCond := c.loopCond, loopEnd := c.loopEnd)
      decreases Size(s), 0
    {
      var oldCond, oldEnd := loopCond, loopEnd;
      var condBlock := ForTest(s.test);
      Statement(s.body);
      ForPost(condBlock, s.post);
      loopCond, loopEnd := oldCond, oldEnd;
    }

    method BlockStatement(s: Stmt)
      requires View().Ok() && s.Block?
      modifies this
      ensures View() == LowerBlock(old(View()), s)
      decreases Size(s), 1
    {
      var outer, previous, prevCleanup := |locals|, |deferredActions|, currentCleanup;
      locals := locals + [{}];
      ghost var c1 := LowerSeq(View(), s.stmts);
      assert s.stmts[0..] == s.stmts;
      for i := 0 to |s.stmts|
        invariant View().Ok() && LowerSeq(View(), s.stmts[i..]) == c1
      {
        SizeMember(s.stmts, i);
        assert s.stmts[i..][1..] == s.stmts[i + 1..];
        Statement(s.stmts[i]);
      }
      assert View() == c1;
      if |deferredActions| > previous {
        CleanupChain(previous, prevCleanup, Size(s));
      }
      currentCleanup := prevCleanup;
      locals := locals[..outer];
    }

    /** The end of a block that has registered actions: the chain, the dispatch, and the old count. */
    method CleanupChain(previous: nat, prevCleanup: Option<Label>, ghost bound: nat)
      requires View().Ok() && previous < |deferredActions| && currentCleanup.Some?
      requires forall i :: previous <= i < |deferredActions| ==>
                 Size(deferredActions[i].body) < bound && deferredActions[i].bb < |blocks|
      modifies this
      ensures var c := old(View());
              var d := LowerDefers(BeginCleanup(c), c.deferred[previous..], |c.blocks|, bound);
              View() == LowerDispatch(d, |c.blocks|, prevCleanup).(deferred := c.deferred[..previous])
      decreases bound, 0
    {
      var actions := deferredActions;
      var afterCleanup := EnterCleanup();
      ChainBodies(actions, previous, afterCleanup, bound);
      DispatchOnExit(afterCleanup, prevCleanup);
      deferredActions := actions[..previous];
    }

    /** The block behind the chain, and the natural way into the chain. */
    method EnterCleanup() returns (afterCleanup: Label)
      requires View().Ok() && currentCleanup.Some?
      modifies this
      ensures View() == BeginCleanup(old(View())) && afterCleanup == |old(blocks)|
    {
      afterCleanup := NewBlock();
      if !Terminated(blocks[insertBlock]) {
        Append(SetDest(3));
        Append(Br(currentCleanup.value));
      }
    }

    /** The loop over the block's actions, last one first. */
    method ChainBodies(actions: seq<DeferInfo>, previous: nat, afterCleanup: Label, ghost bound: nat)
      requires View().Ok() && previous <= |actions| && afterCleanup < |blocks|
      requires forall i :: previous <= i < |actions| ==> Size(actions[i].body) < bound && actions[i].bb < |blocks|
      modifies this
      ensures View() == LowerDefers(old(View()), actions[previous..], afterCleanup, bound)
      decreases bound, 0, |actions|
    {
      ghost var c := View();
      var i := |actions|;
      assert actions[previous..i] == actions[previous..];
      while i > previous
        invariant previous <= i <= |actions| && View().Ok() && |c.blocks| <= |blocks|
        invariant LowerDefers(View(), actions[previous..i], afterCleanup, bound)
               == LowerDefers(c, actions[previous..], afterCleanup, bound)
      {
        i := i - 1;
        LastAction(actions, previous, i);
        DeferredBody(actions[i], if i == previous then afterCleanup else actions[i - 1].bb, actions[previous..i + 1],
                     afterCleanup, bound);
      }
    }

    static lemma LastAction(actions: seq<DeferInfo>, previous: nat, i: nat)
      requires previous <= i < |actions|
      ensures var rest := actions[previous..i + 1];
              && |rest| == i + 1 - previous && rest[|rest| - 1] == actions[i]
              && rest[..|rest| - 1] == actions[previous..i]
              && (i > previous ==> rest[|rest| - 2] == actions[i - 1])
    {}

    /** One round of the loop over deferred bodies; `target` is the next block in the chain. */
    method DeferredBody(action: DeferInfo, target: Label, ghost infos: seq<DeferInfo>, ghost after: Label,
                        ghost bound: nat)
      requires View().Ok() && action.bb < |blocks| && Size(action.body) < bound
      requires infos != [] && infos[|infos| - 1] == action
      requires target == if |infos| == 1 then after else infos[|infos| - 2].bb
      modifies this
      ensures View() == LowerLastDefer(old(View()), infos, after, bound)
      decreases bound, 0, 0
    {
      insertBlock := action.bb;
      currentCleanup := Some(target);
      Statement(action.body);
      AppendUnlessEnded(Br(currentCleanup.value));
    }

    /** The switch on exit_dest behind a chain; leaves the builder in "natural". */
    method DispatchOnExit(afterCleanup: Label, prevCleanup: Option<Label>)
      requires View().Ok() && afterCleanup < |blocks|
      modifies this
      ensures View() == LowerDispatch(old(View()), afterCleanup, prevCleanup)
    {
      ghost var c := View();
      insertBlock := afterCleanup;
      var natural := NewBlock();
      var onReturn := natural;
      if prevCleanup.Some? {
        onReturn := prevCleanup.value;
      } else {
        onReturn := NewBlock();
        assert blocks == c.NewBlocks(2).blocks;
      }
      Append(SwitchDest(natural, onReturn,
                        if loopEnd.Some? then (if prevCleanup.Some? then prevCleanup else loopEnd) else None,
                        if loopCond.Some? then (if prevCleanup.Some? then prevCleanup else loopCond) else None));
      if prevCleanup.None? {
        insertBlock := onReturn;
        Append(if kind.ReturnsDirect? then RetSlot else RetVoid);
      }
      insertBlock := natural;
    }

    method FunctionBody(body: Stmt)
      requires View() == EntryContext(kind)
      modifies this
      ensures View() == LowerFunction(kind, body)
    {
      Statement(body);
      AppendUnlessEnded(if kind.ReturnsDirect? then RetNull else RetVoid);
    }
  }
}
