/**
 * What lowering leaves alone.  Lowering a statement writes only to the block it
 * starts in and to blocks it creates, and every statement but `defer` gives back
 * the loop targets, the cleanup target, the deferred actions and the scopes.
 */
module LoweringFrame {
  import opened Options
  import opened StatementSemantics
  import opened ControlFlowGraph
  import opened StatementLowering

  /**
   * `defer` occurs where the grammar admits it: as a member of a block, as the initialiser
   * of a `for`, and as the body of another `defer`.  The branches of an `if` and the bodies
   * of loops are blocks.
   */
  ghost predicate Tidy(s: Stmt)
    decreases s, 1
  {
    match s
    case Block(stmts) => TidySeq(stmts)
    case If(_, thn, els) =>
      Tidy(thn) && !Pushes(thn) && (els.Some? ==> Tidy(els.value) && !Pushes(els.value))
    case While(_, body) => Tidy(body) && !Pushes(body)
    case For(init, _, _, body) => (init.Some? ==> Tidy(init.value)) && Tidy(body) && !Pushes(body)
    case Defer(body) => Tidy(body)
    case _ => true
  }

  /** A branch, a loop's body, a function's body: nothing is registered with what is around it. */
  ghost predicate TidyBranch(s: Stmt) { Tidy(s) && !Pushes(s) }

  ghost predicate TidySeq(stmts: seq<Stmt>)
    decreases stmts, 0
  {
    stmts == [] || (Tidy(stmts[0]) && TidySeq(stmts[1..]))
  }

  /** Of the blocks below `n`, only `except` may change, and only by growing. */
  ghost predicate Keeps(n: nat, except: Label, x: seq<Block>, y: seq<Block>)
  {
    && n <= |x| <= |y|
    && (forall b :: 0 <= b < n && b != except ==> y[b] == x[b])
    && (except < n ==> x[except] <= y[except])
  }

  ghost predicate SameTargets(c: Context, r: Context)
  {
    r.loopCond == c.loopCond && r.loopEnd == c.loopEnd && r.kind == c.kind
  }

  /** The cursor moves only to a block that lowering has created. */
  ghost predicate Frame(c: Context, r: Context)
  {
    && c.Ok() && r.Ok()
    && Keeps(|c.blocks|, c.cur, c.blocks, r.blocks)
    && (r.cur == c.cur || r.cur >= |c.blocks|)
    && SameTargets(c, r)
    && |r.locals| == |c.locals|
    && r.locals[..|c.locals| - 1] == c.locals[..|c.locals| - 1]
  }

  ghost predicate Restored(c: Context, r: Context)
  {
    Frame(c, r) && r.cleanup == c.cleanup && r.deferred == c.deferred
  }

  /** The deferred actions that `r` has and `c` has not: empty blocks, in creation order. */
  ghost predicate Pending(c: Context, r: Context)
  {
    && Frame(c, r)
    && c.deferred <= r.deferred
    && EmptyBlocks(r.deferred[|c.deferred|..], |c.blocks|, r)
    && r.cleanup == (if |r.deferred| == |c.deferred| then c.cleanup else Some(r.deferred[|r.deferred| - 1].bb))
    && (forall i :: |c.deferred| <= i < |r.deferred| ==> r.deferred[i].bb != r.cur)
  }

  ghost predicate EmptyBlocks(infos: seq<DeferInfo>, lo: nat, r: Context)
  {
    && (forall i :: 0 <= i < |infos| ==>
          lo <= infos[i].bb < |r.blocks| && r.blocks[infos[i].bb] == [] && Tidy(infos[i].body))
    && (forall i, j :: 0 <= i < j < |infos| ==> infos[i].bb < infos[j].bb)
  }

  /** Exactly these bodies have been registered. */
  ghost predicate Registers(c: Context, r: Context, bodies: seq<Stmt>)
  {
    && Pending(c, r) && |r.deferred| == |c.deferred| + |bodies|
    && forall i :: 0 <= i < |bodies| ==> r.deferred[|c.deferred| + i].body == bodies[i]
  }

  /** Running the deferred bodies fills in their blocks and no other old block. */
  ghost predicate DefersFrame(c: Context, infos: seq<DeferInfo>, r: Context)
  {
    && c.Ok() && r.Ok()
    && |c.blocks| <= |r.blocks|
    && (forall b :: 0 <= b < |c.blocks| && (forall i :: 0 <= i < |infos| ==> infos[i].bb != b) ==>
          r.blocks[b] == c.blocks[b])
    && SameTargets(c, r)
    && |r.locals| == |c.locals|
    && r.locals[..|c.locals| - 1] == c.locals[..|c.locals| - 1]
  }

  /** A step that keeps all but its own block keeps what `x` kept, if that block is new or excepted. */
  lemma KeepsThen(n: nat, except: Label, x: seq<Block>, c: Context, r: Context)
    requires Keeps(n, except, x, c.blocks)
    requires Keeps(|c.blocks|, c.cur, c.blocks, r.blocks)
    requires c.cur == except || c.cur >= n
    ensures Keeps(n, except, x, r.blocks)
  {
  }

  lemma EmitKeeps(n: nat, except: Label, x: seq<Block>, c: Context, i: Instr)
    requires c.Ok() && Keeps(n, except, x, c.blocks)
    requires c.cur == except || c.cur >= n
    ensures Keeps(n, except, x, c.Emit(i).blocks)
    ensures Keeps(n, except, x, c.EmitUnlessEnded(i).blocks)
  {
    KeepsThen(n, except, x, c, c.Emit(i));
  }

  lemma JoinKeeps(n: nat, except: Label, x: seq<Block>, c: Context, target: Label, next: Label)
    requires c.Ok() && next < |c.blocks| && Keeps(n, except, x, c.blocks)
    requires c.cur == except || c.cur >= n
    ensures var r := JoinThen(c, target, next);
            Keeps(n, except, x, r.blocks) && r == c.(blocks := r.blocks, cur := next)
            && forall b :: 0 <= b < |c.blocks| && b != c.cur ==> r.blocks[b] == c.blocks[b]
  {
    EmitKeeps(n, except, x, c, Br(target));
  }

  lemma OpenIfKeeps(c: Context, cond: Expr)
    requires c.Ok()
    ensures var t, r := |c.blocks|, OpenIf(c, cond);
            && r == c.(blocks := r.blocks, cur := t)
            && r.blocks == c.blocks[c.cur := c.blocks[c.cur] + [Eval(cond), CondBr(t, t + 1)]] + [[], [], []]
            && Keeps(t, c.cur, c.blocks, r.blocks)
  {
    var t := |c.blocks|;
    assert c.blocks[c.cur] + [Eval(cond)] + [CondBr(t, t + 1)] == c.blocks[c.cur] + [Eval(cond), CondBr(t, t + 1)];
  }

  lemma OpenWhileKeeps(c: Context, cond: Expr)
    requires c.Ok()
    ensures var t, r := |c.blocks|, OpenWhile(c, cond);
            && r == c.(blocks := r.blocks, cur := t + 1, loopCond := Some(t), loopEnd := Some(t + 2))
            && r.blocks == c.blocks[c.cur := c.blocks[c.cur] + [Br(t)]] + [[Eval(cond), CondBr(t + 1, t + 2)], [], []]
            && Keeps(t, c.cur, c.blocks, r.blocks)
  {
    var t := |c.blocks|;
    var c1 := c.NewBlocks(3).Emit(Br(t)).At(t);
    assert c1.blocks == c.blocks[c.cur := c.blocks[c.cur] + [Br(t)]] + [[], [], []];
    assert [] + [Eval(cond)] == [Eval(cond)];
    assert [Eval(cond)] + [CondBr(t + 1, t + 2)] == [Eval(cond), CondBr(t + 1, t + 2)];
    assert OpenWhile(c, cond).blocks == c1.blocks[t := [Eval(cond), CondBr(t + 1, t + 2)]];
  }

  /** A statement gives back all it changes, but for the action it registers. */
  lemma {:induction false} LowerRestores(c: Context, s: Stmt)
    requires c.Ok() && Tidy(s)
    ensures Registers(c, Lower(c, s), if c.Ended() then [] else PushedBy(s))
    ensures !Pushes(s) ==> Restored(c, Lower(c, s))
    decreases Size(s), 2
  {
    if !c.Ended() {
      match s
      case Block(_) => BlockRestores(c, s);
      case If(_, _, _) =>
        var c1, c2 := IfRestores(c, s);
      case While(_, _) => WhileRestores(c, s);
      case For(_, _, _, _) => ForRestores(c, s);
      case Return(result) => ReturnRestores(c, result);
      case Defer(body) => DeferRegisters(c, body);
      case _ =>
    }
  }

  lemma {:induction false} BranchRestores(c: Context, s: Stmt)
    requires c.Ok() && TidyBranch(s)
    ensures Restored(c, Lower(c, s))
    decreases Size(s), 3
  {
    LowerRestores(c, s);
  }

  lemma DeferRegisters(c: Context, body: Stmt)
    requires c.Ok() && !c.Ended() && Tidy(body)
    ensures Registers(c, LowerDefer(c, body), [body])
  {
    var r := LowerDefer(c, body);
    assert r.deferred[|c.deferred|..] == [DeferInfo(body, |c.blocks|)];
  }

  lemma ReturnRestores(c: Context, result: Option<Expr>)
    requires c.Ok()
    ensures Restored(c, LowerReturn(c, result))
  {
  }

  /** The contexts in front of the branches, `c1` and `c2`. */
  lemma {:induction false} IfRestores(c: Context, s: Stmt) returns (c1: Context, c2: Context)
    requires c.Ok() && s.If? && Tidy(s)
    ensures c1 == c.(blocks := c1.blocks, cur := |c.blocks|) && |c1.blocks| == |c.blocks| + 3 <= |c2.blocks|
    ensures Restored(c, LowerIf(c, s)) && c1.Ok() && c2.Ok() && Restored(c, c2)
    ensures c2 == JoinThen(Lower(c1, s.thn), |c.blocks| + 2, |c.blocks| + 1)
    ensures LowerIf(c, s) == JoinThen(LowerElse(c2, s.els), |c.blocks| + 2, |c.blocks| + 2)
    ensures c1.blocks[c.cur] == c.blocks[c.cur] + [Eval(s.cond), CondBr(|c.blocks|, |c.blocks| + 1)]
    ensures c1.blocks[|c.blocks|] == [] && c2.blocks[|c.blocks| + 1] == [] && c2.cur == |c.blocks| + 1
    ensures LowerIf(c, s).cur == |c.blocks| + 2 && LowerIf(c, s).blocks[|c.blocks| + 2] == []
    ensures Keeps(|c1.blocks|, c1.cur, c1.blocks, c2.blocks)
    ensures Keeps(|c2.blocks|, c2.cur, c2.blocks, LowerIf(c, s).blocks)
    decreases Size(s), 1
  {
    c1, c2 := ThenRestores(c, s);
    if s.els.Some? {
      BranchRestores(c2, s.els.value);
    }
    ElseFrame(c, c2, LowerElse(c2, s.els), LowerIf(c, s));
  }

  lemma {:induction false} ThenRestores(c: Context, s: Stmt) returns (c1: Context, c2: Context)
    requires c.Ok() && s.If? && Tidy(s)
    ensures c1 == c.(blocks := c1.blocks, cur := |c.blocks|) && |c1.blocks| == |c.blocks| + 3 <= |c2.blocks|
    ensures c1.Ok() && c2.Ok() && Restored(c, c2) && c2.cur == |c.blocks| + 1
    ensures c2 == JoinThen(Lower(c1, s.thn), |c.blocks| + 2, |c.blocks| + 1)
    ensures LowerIf(c, s) == JoinThen(LowerElse(c2, s.els), |c.blocks| + 2, |c.blocks| + 2)
    ensures c1.blocks[c.cur] == c.blocks[c.cur] + [Eval(s.cond), CondBr(|c.blocks|, |c.blocks| + 1)]
    ensures c1.blocks[|c.blocks|] == [] && c2.blocks[|c.blocks| + 1] == [] && c2.blocks[|c.blocks| + 2] == []
    ensures Keeps(|c1.blocks|, c1.cur, c1.blocks, c2.blocks)
    decreases Size(s), 0
  {
    c1 := OpenIf(c, s.cond);
    BranchRestores(c1, s.thn);
    var d1 := Lower(c1, s.thn);
    c2 := JoinThen(d1, |c.blocks| + 2, |c.blocks| + 1);
    ThenFrame(c, s.cond, c1, d1, c2);
    IfContinues(c, s, c1, c2);
  }

  lemma {:induction false} IfContinues(c: Context, s: Stmt, c1: Context, c2: Context)
    requires c.Ok() && s.If? && c1 == OpenIf(c, s.cond)
    requires c2 == JoinThen(Lower(c1, s.thn), |c.blocks| + 2, |c.blocks| + 1)
    ensures LowerIf(c, s) == JoinThen(LowerElse(c2, s.els), |c.blocks| + 2, |c.blocks| + 2)
  {
    var t := |c.blocks|;
    assert LowerIf(c, s) == JoinThen(LowerElse(JoinThen(Lower(c1, s.thn), t + 2, t + 1), s.els), t + 2, t + 2);
  }

  /** From in front of the condition, `c`, over the first branch, `c1` to `d1`, to the start of the second, `c2`. */
  lemma ThenFrame(c: Context, cond: Expr, c1: Context, d1: Context, c2: Context)
    requires c.Ok() && c1 == OpenIf(c, cond) && Restored(c1, d1)
    requires c2 == JoinThen(d1, |c.blocks| + 2, |c.blocks| + 1)
    ensures Restored(c, c1) && Restored(c1.At(|c.blocks|), d1) && Restored(c, c2) && c2.cur == |c.blocks| + 1
    ensures Keeps(|c1.blocks|, c1.cur, c1.blocks, c2.blocks) && Keeps(|c.blocks|, c.cur, c.blocks, c2.blocks)
    ensures c1 == c.(blocks := c1.blocks, cur := |c.blocks|) && |c1.blocks| == |c.blocks| + 3
    ensures c1.blocks[c.cur] == c.blocks[c.cur] + [Eval(cond), CondBr(|c.blocks|, |c.blocks| + 1)]
    ensures c1.blocks[|c.blocks|] == [] && c2.blocks[|c.blocks| + 1] == [] && c2.blocks[|c.blocks| + 2] == []
  {
    var t, x := |c.blocks|, c.blocks;
    OpenIfKeeps(c, cond);
    KeepsThen(t, c.cur, x, c1, d1);
    JoinKeeps(t, c.cur, x, d1, t + 2, t + 1);
    JoinKeeps(|c1.blocks|, c1.cur, c1.blocks, d1, t + 2, t + 1);
  }

  lemma ElseFrame(c: Context, c2: Context, d2: Context, r: Context)
    requires c.Ok() && Restored(c, c2) && c2.cur == |c.blocks| + 1 && |c.blocks| + 2 < |c2.blocks|
    requires d2 == c2 || Restored(c2, d2)
    requires c2.blocks[|c.blocks| + 2] == [] && r == JoinThen(d2, |c.blocks| + 2, |c.blocks| + 2)
    ensures Restored(c, r) && Keeps(|c2.blocks|, c2.cur, c2.blocks, r.blocks)
    ensures r.blocks[|c.blocks| + 2] == [] && r.cur == |c.blocks| + 2
  {
    var t := |c.blocks|;
    if d2 != c2 {
      KeepsThen(t, c.cur, c.blocks, c2, d2);
    }
    JoinKeeps(t, c.cur, c.blocks, d2, t + 2, t + 2);
    JoinKeeps(|c2.blocks|, c2.cur, c2.blocks, d2, t + 2, t + 2);
  }

  lemma {:induction false} WhileRestores(c: Context, s: Stmt)
    requires c.Ok() && s.While? && Tidy(s)
    ensures Restored(c, LowerWhile(c, s))
    decreases Size(s), 1
  {
    var t, x := |c.blocks|, c.blocks;
    OpenWhileKeeps(c, s.cond);
    var c1 := OpenWhile(c, s.cond);
    LowerRestores(c1, s.body);
    var c2 := Lower(c1, s.body);
    KeepsThen(t, c.cur, x, c1, c2);
    JoinKeeps(t, c.cur, x, c2, t, t + 2);
  }

  function ForTest(test: Option<Expr>, t: Label): Block
  {
    if test.Some? then [Eval(test.value), CondBr(t + 1, t + 3)] else [Br(t + 1)]
  }

  lemma OpenForKeeps(c: Context, test: Option<Expr>)
    requires c.Ok()
    ensures var t, r := |c.blocks|, OpenFor(c, test);
            && r == c.(blocks := r.blocks, cur := t + 1, loopCond := Some(t + 2), loopEnd := Some(t + 3))
            && r.blocks == c.blocks[c.cur := c.blocks[c.cur] + [Br(t)]] + [ForTest(test, t), [], [], []]
            && Keeps(t, c.cur, c.blocks, r.blocks)
  {
    var t := |c.blocks|;
    var c1 := c.NewBlocks(4).Emit(Br(t)).At(t);
    assert c1.blocks == c.blocks[c.cur := c.blocks[c.cur] + [Br(t)]] + [[], [], [], []];
    if test.Some? {
      assert [] + [Eval(test.value)] == [Eval(test.value)];
      assert [Eval(test.value)] + [CondBr(t + 1, t + 3)] == ForTest(test, t);
    } else {
      assert [] + [Br(t + 1)] == ForTest(test, t);
    }
    assert OpenFor(c, test).blocks == c1.blocks[t := ForTest(test, t)];
  }

  lemma CloseForKeeps(n: nat, except: Label, x: seq<Block>, c: Context, post: Option<Expr>, t: Label)
    requires c.Ok() && n <= t && t + 3 < |c.blocks| && (c.cur >= n || c.cur == except)
    requires Keeps(n, except, x, c.blocks)
    ensures var r := CloseFor(c, post, t);
            Keeps(n, except, x, r.blocks) && r.cur == t + 3 && r == c.(blocks := r.blocks, cur := r.cur)
  {
    JoinKeeps(n, except, x, c, t + 2, t + 2);
    var c1 := JoinThen(c, t + 2, t + 2);
    if post.Some? {
      EmitKeeps(n, except, x, c1, Eval(post.value));
    }
    JoinKeeps(n, except, x, c1.EmitOptional(post), t, t + 3);
  }

  lemma {:induction false} ForRestores(c: Context, s: Stmt)
    requires c.Ok() && !c.Ended() && s.For? && Tidy(s)
    ensures Registers(c, LowerFor(c, s), PushedBy(s))
    decreases Size(s), 1
  {
    var e := c.EnterScope();
    var c0 := if s.init.Some? then Lower(e, s.init.value) else e;
    if s.init.Some? {
      LowerRestores(e, s.init.value);
    }
    assert Registers(e, c0, PushedBy(s));
    LowerRestores(OpenFor(c0, s.test), s.body);
    LoopRegisters(c, c0, s.test, Lower(OpenFor(c0, s.test), s.body), s.post, LowerFor(c, s), PushedBy(s));
  }

  /** The loop of a `for` registers no more than its initialiser has. */
  lemma LoopRegisters(c: Context, c0: Context, test: Option<Expr>, c2: Context, post: Option<Expr>, r: Context,
                      bodies: seq<Stmt>)
    requires c.Ok() && Registers(c.EnterScope(), c0, bodies) && Restored(OpenFor(c0, test), c2)
    requires var c3 := CloseFor(c2, post, |c0.blocks|);
             r == c3.(loopCond := c0.loopCond, loopEnd := c0.loopEnd, locals := c3.locals[..|c.locals|])
    ensures Registers(c, r, bodies)
  {
    ForFrame(c, c0, test, OpenFor(c0, test), c2, post, r);
  }

  /** The contexts a `for` goes through: behind its initialiser, around its body, and at its end. */
  lemma ForFrame(c: Context, c0: Context, test: Option<Expr>, c1: Context, c2: Context, post: Option<Expr>, r: Context)
    requires c.Ok() && Pending(c.EnterScope(), c0)
    requires c1 == OpenFor(c0, test) && Restored(c1, c2)
    requires var c3 := CloseFor(c2, post, |c0.blocks|);
             r == c3.(loopCond := c0.loopCond, loopEnd := c0.loopEnd, locals := c3.locals[..|c.locals|])
    ensures Pending(c, r) && r.cleanup == c0.cleanup && r.deferred == c0.deferred && SameTargets(c, c0)
    ensures var t := |c0.blocks|;
            && c1 == c0.(blocks := c1.blocks, cur := t + 1, loopCond := Some(t + 2), loopEnd := Some(t + 3))
            && |c1.blocks| == t + 4 && c1.blocks[c0.cur] == c0.blocks[c0.cur] + [Br(t)]
            && c1.blocks[t] == ForTest(test, t) && c1.blocks[t + 1] == []
            && Keeps(t, c0.cur, c0.blocks, c1.blocks) && Keeps(t + 4, t + 1, c1.blocks, c2.blocks)
            && Keeps(t, c0.cur, c0.blocks, r.blocks)
            && c2.blocks[t + 2] == [] && c2.blocks[t + 3] == []
  {
    var e, t := c.EnterScope(), |c0.blocks|;
    assert e.locals[..|c.locals|] == c.locals;
    OpenForKeeps(c0, test);
    KeepsThen(t, c0.cur, c0.blocks, c1, c2);
    CloseForKeeps(t, c0.cur, c0.blocks, c2, post, t);
    var whole := r.(locals := c2.locals);
    assert Restored(c0, whole);
    PendingTransitive(e, c0, whole);
    assert whole.locals[..|c.locals|] == c.locals;
    assert EmptyBlocks(r.deferred[|c.deferred|..], |c.blocks|, r);
  }

  lemma {:induction false} SeqPending(c: Context, stmts: seq<Stmt>)
    requires c.Ok() && TidySeq(stmts)
    ensures Pending(c, LowerSeq(c, stmts))
    decreases SizeSeq(stmts), 3
  {
    if stmts != [] {
      var c1 := Lower(c, stmts[0]);
      LowerRestores(c, stmts[0]);
      SeqPending(c1, stmts[1..]);
      PendingTransitive(c, c1, LowerSeq(c1, stmts[1..]));
    }
  }

  lemma PendingTransitive(a: Context, b: Context, c: Context)
    requires Pending(a, b) && Pending(b, c)
    ensures Pending(a, c)
  {
    var some, more := b.deferred[|a.deferred|..], c.deferred[|b.deferred|..];
    SplitDeferred(a.deferred, b.deferred, c.deferred);
    forall i | 0 <= i < |some|
      ensures some[i].bb < |b.blocks| && some[i].bb != b.cur
    {
      assert b.deferred[|a.deferred| + i].bb != b.cur;
    }
    EmptyConcat(some, more, |a.blocks|, |b.blocks|, c);
    forall i | |a.deferred| <= i < |c.deferred|
      ensures c.deferred[i].bb != c.cur
    {
      if i < |b.deferred| {
        assert c.deferred[i] == some[i - |a.deferred|];
      }
    }
  }

  lemma SplitDeferred(a: seq<DeferInfo>, b: seq<DeferInfo>, c: seq<DeferInfo>)
    requires a <= b <= c
    ensures a <= c && c[|a|..] == b[|a|..] + c[|b|..]
  {
  }

  lemma EmptyConcat(some: seq<DeferInfo>, more: seq<DeferInfo>, lo: nat, mid: nat, r: Context)
    requires EmptyBlocks(some, lo, r) && EmptyBlocks(more, mid, r) && lo <= mid
    requires forall i :: 0 <= i < |some| ==> some[i].bb < mid
    ensures EmptyBlocks(some + more, lo, r)
  {
    var all := some + more;
    assert forall i :: 0 <= i < |some| ==> all[i] == some[i];
    assert forall i :: |some| <= i < |all| ==> all[i] == more[i - |some|];
  }

  lemma {:induction false} DefersKeep(c: Context, infos: seq<DeferInfo>, after: Label, bound: nat)
    requires c.Ok() && EmptyBlocks(infos, 0, c)
    requires forall i :: 0 <= i < |infos| ==> Size(infos[i].body) < bound
    ensures DefersFrame(c, infos, LowerDefers(c, infos, after, bound))
    decreases bound, 0, |infos|
  {
    if infos != [] {
      var n := |infos| - 1;
      LastDeferKeeps(0, c, infos, after, bound);
      var c2 := LowerLastDefer(c, infos, after, bound);
      DefersKeep(c2, infos[..n], after, bound);
      var r := LowerDefers(c2, infos[..n], after, bound);
      forall b | 0 <= b < |c.blocks| && forall i :: 0 <= i < |infos| ==> infos[i].bb != b
        ensures r.blocks[b] == c.blocks[b]
      {
        assert infos[n].bb != b;
        assert forall i :: 0 <= i < n ==> infos[..n][i].bb != b;
      }
    }
  }

  lemma {:induction false} LastDeferKeeps(lo: nat, c: Context, infos: seq<DeferInfo>, after: Label, bound: nat)
    requires c.Ok() && infos != [] && EmptyBlocks(infos, lo, c)
    requires Size(infos[|infos| - 1].body) < bound
    ensures var r := LowerLastDefer(c, infos, after, bound);
            && Keeps(|c.blocks|, infos[|infos| - 1].bb, c.blocks, r.blocks)
            && SameTargets(c, r)
            && |r.locals| == |c.locals| && r.locals[..|c.locals| - 1] == c.locals[..|c.locals| - 1]
    ensures EmptyBlocks(infos[..|infos| - 1], lo, LowerLastDefer(c, infos, after, bound))
    decreases bound, 0, 0
  {
    var n := |infos| - 1;
    var target := if n == 0 then after else infos[n - 1].bb;
    var c0 := c.At(infos[n].bb).(cleanup := Some(target));
    LowerRestores(c0, infos[n].body);
    var c1 := Lower(c0, infos[n].body);
    EmitKeeps(|c.blocks|, c0.cur, c0.blocks, c1, Br(c1.cleanup.value));
    forall i | 0 <= i < n
      ensures LowerLastDefer(c, infos, after, bound).blocks[infos[i].bb] == []
    {
      assert infos[i].bb < infos[n].bb;
    }
  }

  lemma {:induction false} BlockRestores(c: Context, s: Stmt)
    requires c.Ok() && s.Block? && Tidy(s)
    ensures Restored(c, LowerBlock(c, s))
    decreases Size(s), 1
  {
    SeqPending(c.EnterScope(), s.stmts);
    var c1 := LowerSeq(c.EnterScope(), s.stmts);
    assert c.EnterScope().locals[..|c.locals|] == c.locals;
    if |c1.deferred| > |c.deferred| {
      PendingAtCleanup(c.EnterScope(), c1);
      FinishBlockKeeps(|c.blocks|, c1, c1.deferred[|c.deferred|..], c.cleanup, Size(s));
    }
  }

  /** When a block ends, the bodies it has deferred still have their empty blocks. */
  lemma PendingAtCleanup(c: Context, c1: Context)
    requires Pending(c, c1) && |c.deferred| < |c1.deferred|
    ensures BeginCleanup(c1).deferred == c1.deferred
    ensures EmptyBlocks(c1.deferred[|c.deferred|..], |c.blocks|, BeginCleanup(c1))
  {
    BeginCleanupKeeps(|c1.blocks|, c1.cur, c1.blocks, c1);
    var infos := c1.deferred[|c.deferred|..];
    forall i | 0 <= i < |infos|
      ensures infos[i].bb != c1.cur
    {
      assert c1.deferred[|c.deferred| + i].bb != c1.cur;
    }
  }

  /** The end of a block that has registered defers, for the blocks below `n`. */
  lemma FinishBlockKeeps(n: nat, c: Context, infos: seq<DeferInfo>, outer: Option<Label>, bound: nat)
    requires c.Ok() && c.cleanup.Some? && n <= |c.blocks| && EmptyBlocks(infos, n, BeginCleanup(c))
    requires forall i :: 0 <= i < |infos| ==> Size(infos[i].body) < bound
    ensures var r := LowerDispatch(LowerDefers(BeginCleanup(c), infos, |c.blocks|, bound), |c.blocks|, outer);
            && |c.blocks| <= |r.blocks|
            && (forall b :: 0 <= b < n && b != c.cur ==> r.blocks[b] == c.blocks[b])
            && (c.cur < n ==> c.blocks[c.cur] <= r.blocks[c.cur])
            && r.cur >= |c.blocks| && SameTargets(c, r)
            && |r.locals| == |c.locals| && r.locals[..|c.locals| - 1] == c.locals[..|c.locals| - 1]
    decreases bound, 0, |infos| + 2
  {
    BeginCleanupKeeps(|c.blocks|, c.cur, c.blocks, c);
    var d := BeginCleanup(c);
    DefersKeepBelow(n, d, infos, |c.blocks|, bound);
    DispatchKeeps(n, LowerDefers(d, infos, |c.blocks|, bound), |c.blocks|, outer);
  }

  lemma DefersKeepBelow(n: nat, c: Context, infos: seq<DeferInfo>, after: Label, bound: nat)
    requires c.Ok() && n <= |c.blocks| && EmptyBlocks(infos, n, c)
    requires forall i :: 0 <= i < |infos| ==> Size(infos[i].body) < bound
    ensures var r := LowerDefers(c, infos, after, bound);
            DefersFrame(c, infos, r) && forall b :: 0 <= b < n ==> r.blocks[b] == c.blocks[b]
    decreases bound, 0, |infos| + 1
  {
    DefersKeep(c, infos, after, bound);
    forall b | 0 <= b < n
      ensures LowerDefers(c, infos, after, bound).blocks[b] == c.blocks[b]
    {
      assert forall i :: 0 <= i < |infos| ==> infos[i].bb != b;
    }
  }

  lemma BeginCleanupKeeps(n: nat, except: Label, x: seq<Block>, c: Context)
    requires c.Ok() && c.cleanup.Some? && (c.cur == except || c.cur >= n)
    requires Keeps(n, except, x, c.blocks)
    ensures var r := BeginCleanup(c);
            Keeps(n, except, x, r.blocks) && r == c.(blocks := r.blocks) && |r.blocks| == |c.blocks| + 1
            && (forall b :: 0 <= b < |c.blocks| && b != c.cur ==> r.blocks[b] == c.blocks[b])
  {
    var c1 := c.NewBlocks(1);
    if !c1.Ended() {
      EmitKeeps(n, except, x, c1, SetDest(3));
      EmitKeeps(n, except, x, c1.Emit(SetDest(3)), Br(c.cleanup.value));
    }
  }

  lemma DispatchKeeps(n: nat, c: Context, after: Label, outer: Option<Label>)
    requires c.Ok() && n <= after < |c.blocks|
    ensures Keeps(n, n, c.blocks, LowerDispatch(c, after, outer).blocks)
    ensures LowerDispatch(c, after, outer).cur >= |c.blocks|
  {
  }
}
