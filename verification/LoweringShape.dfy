/**
 * The lowering emits a well-formed control-flow graph: every created block has
 * exactly one terminator, in last place, and every jump goes to a created block.
 *
 * The code does not guarantee this for every body the grammar admits.  The
 * initialiser of a `for` is an arbitrary statement, and the jump to the test is
 * appended even if the initialiser has already ended its block.  The body of a
 * `defer` is an arbitrary statement too, and if it registers another action, the
 * block created for that one is never filled in.  `Sound` is the absence of both
 * cases in the part of the body that is lowered at all, and the graph is well
 * formed if and only if the body is sound.
 */
module LoweringShape {
  import opened Options
  import opened StatementSemantics
  import opened ControlFlowGraph
  import opened StatementLowering
  import opened LoweringFrame

  /** Does lowering `s` leave the builder in a block that has ended? */
  predicate Ends(s: Stmt, inLoop: bool)
    decreases s, 1
  {
    match s
    case Return(_) => true
    case Break => inLoop
    case Continue => inLoop
    case Block(stmts) => !SeqDefers(stmts, inLoop) && SeqEnds(stmts, inLoop)
    case _ => false
  }

  predicate SeqEnds(stmts: seq<Stmt>, inLoop: bool)
    decreases stmts, 0
  {
    stmts != [] && (Ends(stmts[0], inLoop) || SeqEnds(stmts[1..], inLoop))
  }

  /** Is a statement that registers an action reached before the sequence has ended? */
  predicate SeqDefers(stmts: seq<Stmt>, inLoop: bool)
    decreases stmts, 0
  {
    stmts != [] && (Pushes(stmts[0]) || (!Ends(stmts[0], inLoop) && SeqDefers(stmts[1..], inLoop)))
  }

  /**
   * No `for` that is lowered has an initialiser that ends its block, and no deferred
   * body registers another action with the block whose end it runs at.
   */
  predicate Sound(s: Stmt, inLoop: bool)
    decreases Size(s), 1
  {
    match s
    case Block(stmts) => SeqSound(stmts, inLoop) && DefersSound(stmts, inLoop)
    case If(_, thn, els) => Sound(thn, inLoop) && (els.Some? ==> Sound(els.value, inLoop))
    case While(_, body) => Sound(body, true)
    case For(init, _, _, body) =>
      (init.Some? ==> Sound(init.value, inLoop) && !Ends(init.value, inLoop)) && Sound(body, true)
    case _ => true
  }

  predicate SeqSound(stmts: seq<Stmt>, inLoop: bool)
    decreases SizeSeq(stmts), 0
  {
    stmts == [] ||
    (Sound(stmts[0], inLoop) && (Ends(stmts[0], inLoop) || SeqSound(stmts[1..], inLoop)))
  }

  /** A body fit to be run at the end of a block. */
  predicate BodySound(body: Stmt, inLoop: bool)
    decreases Size(body), 2
  {
    Sound(body, inLoop) && !Pushes(body)
  }

  predicate DefersSound(stmts: seq<Stmt>, inLoop: bool)
    decreases SizeSeq(stmts), 0
  {
    stmts == [] ||
    ((Pushes(stmts[0]) ==> BodySound(PushedBy(stmts[0])[0], inLoop)) &&
     (Ends(stmts[0], inLoop) || DefersSound(stmts[1..], inLoop)))
  }

  /** Of the blocks from `n` on, and `e`, all but those in `open` are closed. */
  ghost predicate AllClosed(n: nat, e: Label, open: set<Label>, blocks: seq<Block>)
  {
    forall b :: 0 <= b < |blocks| && (b >= n || b == e) && b !in open ==> Closed(blocks[b])
  }

  /** Some block goes on behind its terminator, or is empty and not among those still to be written. */
  ghost predicate Spoiled(n: nat, live: set<Label>, blocks: seq<Block>)
  {
    exists b :: 0 <= b < |blocks| && (Broken(blocks[b]) || (n <= b && blocks[b] == [] && b !in live))
  }

  ghost predicate CurGood(c: Context)
    requires c.Ok()
  {
    if c.Ended() then Closed(c.blocks[c.cur]) else Straight(c.blocks[c.cur])
  }

  ghost predicate InLoop(c: Context, inLoop: bool)
  {
    c.loopCond.Some? == inLoop && c.loopEnd.Some? == inLoop
  }

  /** Where the builder is about to write: an open block without terminators. */
  ghost predicate Ready(c: Context, inLoop: bool)
  {
    c.Ok() && !c.Ended() && Straight(c.blocks[c.cur]) && InLoop(c, inLoop)
  }

  /** The promise of lowering from `c` to `r`, when `sound`; `open` are blocks left for later. */
  ghost predicate Shaped(c: Context, r: Context, sound: bool, open: set<Label>)
    requires c.Ok() && r.Ok()
  {
    && CurGood(r)
    && (sound ==> AllClosed(|c.blocks|, c.cur, open + {r.cur}, r.blocks))
    && (!sound ==> Spoiled(|c.blocks|, open + {r.cur}, r.blocks))
  }

  lemma {:induction false} SamePrefix(x: Block, y: Block, n: nat)
    requires n <= |x| && x <= y
    ensures StraightTo(x, n) == StraightTo(y, n)
    decreases n
  {
    if n > 0 {
      assert y[n - 1] == x[n - 1];
      SamePrefix(x, y, n - 1);
    }
  }

  lemma {:induction false} StraightShrinks(b: Block, m: nat, n: nat)
    requires m <= n <= |b| && StraightTo(b, n)
    ensures StraightTo(b, m)
    decreases n
  {
    if m < n {
      StraightShrinks(b, m, n - 1);
    }
  }

  lemma BrokenGrows(x: Block, y: Block)
    requires Broken(x) && x <= y
    ensures Broken(y)
  {
    SamePrefix(x, y, |x| - 1);
    if StraightTo(y, |y| - 1) {
      StraightShrinks(y, |x| - 1, |y| - 1);
    }
  }

  /** What is spoiled stays spoiled, however the builder goes on. */
  lemma SpoiledStays(n: nat, live: set<Label>, e: Label, x: seq<Block>, y: seq<Block>, later: set<Label>)
    requires Spoiled(n, live, x) && Keeps(|x|, e, x, y)
    requires forall b: Label <- later + {e} :: b < |x| ==> b in live
    ensures Spoiled(n, later, y)
  {
    var b :| 0 <= b < |x| && (Broken(x[b]) || (n <= b && x[b] == [] && b !in live));
    if Broken(x[b]) {
      BrokenGrows(x[b], y[b]);
    }
    assert Broken(y[b]) || (n <= b && y[b] == [] && b !in later);
  }

  /** Lowering one more statement on the way from `c`. */
  lemma ShapedThen(c: Context, k: Context, r: Context, sound1: bool, sound2: bool, open: set<Label>, more: set<Label>)
    requires c.Ok() && k.Ok() && r.Ok() && |c.blocks| <= |k.blocks|
    requires Shaped(c, k, sound1, open) && Shaped(k, r, sound2, more)
    requires Keeps(|k.blocks|, k.cur, k.blocks, r.blocks) && (r.cur == k.cur || r.cur >= |k.blocks|)
    requires (forall b: Label <- open :: b < |k.blocks|) && (forall b: Label <- more :: b >= |k.blocks|)
    ensures Shaped(c, r, sound1 && sound2, open + more)
  {
    if !sound1 {
      SpoiledStays(|c.blocks|, open + {k.cur}, k.cur, k.blocks, r.blocks, open + more + {r.cur});
    } else if !sound2 {
      var b :| 0 <= b < |r.blocks| && (Broken(r.blocks[b])
                                       || (|k.blocks| <= b && r.blocks[b] == [] && b !in more + {r.cur}));
      assert Broken(r.blocks[b]) || (|c.blocks| <= b && r.blocks[b] == [] && b !in open + more + {r.cur});
    }
  }

  /** Appending one instruction to a straight block. */
  lemma EmitShape(c: Context, i: Instr)
    requires c.Ok() && !c.Ended() && Straight(c.blocks[c.cur])
    ensures var b := c.Emit(i).blocks[c.cur];
            if IsTerminator(i) then Closed(b) else Straight(b) && !Terminated(b)
  {
    var b := c.blocks[c.cur];
    assert c.Emit(i).blocks[c.cur] == b + [i];
    if IsTerminator(i) {
      ClosedPush(b, i);
    } else {
      StraightPush(b, i);
    }
  }

  /** Ending the current block by a jump and moving to a block that is still empty. */
  lemma ShapedJoin(c: Context, k: Context, sound: bool, open: set<Label>, rest: set<Label>,
                   target: Label, next: Label)
    requires c.Ok() && k.Ok() && next < |k.blocks| && next != k.cur && k.blocks[next] == []
    requires Shaped(c, k, sound, open) && open == rest + {next}
    ensures Shaped(c, JoinThen(k, target, next), sound, rest)
    ensures JoinThen(k, target, next).blocks[next] == []
  {
    JoinKeeps(|k.blocks|, k.cur, k.blocks, k, target, next);
    if !sound {
      SpoiledStays(|c.blocks|, open + {k.cur}, k.cur, k.blocks, JoinThen(k, target, next).blocks, rest + {next});
    } else if !k.Ended() {
      EmitShape(k, Br(target));
    }
  }

  /** The actions registered on the way from `c` to `r`. */
  function New(c: Context, r: Context): seq<DeferInfo>
    requires |c.deferred| <= |r.deferred|
  {
    r.deferred[|c.deferred|..]
  }

  lemma {:induction false} LowerShape(c: Context, s: Stmt, inLoop: bool)
    requires Ready(c, inLoop) && Tidy(s)
    ensures Lower(c, s).Ended() == Ends(s, inLoop)
    ensures Shaped(c, Lower(c, s), Sound(s, inLoop), Labels(New(c, Lower(c, s))))
    decreases Size(s), 2
  {
    LowerRestores(c, s);
    match s
    case ExprStmt(e) => EmitShape(c, Eval(e));
    case VarDecl(_, value) => if value.Some? { EmitShape(c, Eval(value.value)); }
    case Block(_) => BlockShape(c, s, inLoop);
    case If(_, _, _) => IfShape(c, s, inLoop);
    case While(_, _) => WhileShape(c, s, inLoop);
    case For(_, _, _, _) => ForShape(c, s, inLoop);
    case Return(result) => ReturnShape(c, result);
    case Break => JumpShape(c, 1, c.loopEnd);
    case Continue => JumpShape(c, 2, c.loopCond);
    case Defer(body) => DeferShape(c, body);
  }

  lemma DeferShape(c: Context, body: Stmt)
    requires c.Ok() && !c.Ended() && Straight(c.blocks[c.cur])
    ensures var r := LowerDefer(c, body);
            Shaped(c, r, true, Labels(New(c, r)))
  {
    var r := LowerDefer(c, body);
    assert New(c, r) == [DeferInfo(body, |c.blocks|)] && New(c, r)[..0] == [];
    assert |c.blocks| in Labels(New(c, r));
  }

  lemma ReturnShape(c: Context, result: Option<Expr>)
    requires c.Ok() && !c.Ended() && Straight(c.blocks[c.cur])
    ensures var r := LowerReturn(c, result);
            r.Ended() && Shaped(c, r, true, {})
  {
    var c1 := c.EmitOptional(result);
    if result.Some? {
      EmitShape(c, Eval(result.value));
    }
    var c2 := if Yields(result) && !c.kind.ReturnsVoid? then c1.Emit(StoreSlot) else c1;
    if Yields(result) && !c.kind.ReturnsVoid? {
      EmitShape(c1, StoreSlot);
    }
    EmitShape(c2, SetDest(0));
    EmitShape(c2.Emit(SetDest(0)), LastOfReturn(c, result));
  }

  lemma JumpShape(c: Context, code: int, target: Option<Label>)
    requires c.Ok() && !c.Ended() && Straight(c.blocks[c.cur])
    ensures var r := LowerJump(c, code, target);
            r.Ended() == target.Some? && Shaped(c, r, true, {})
  {
    if target.Some? {
      EmitShape(c, SetDest(code));
      EmitShape(c.Emit(SetDest(code)), Br(if c.cleanup.Some? then c.cleanup.value else target.value));
    }
  }

  /** A branch: a statement lowered into an empty block, and the jump that ends it. */
  lemma {:induction false} BranchShape(c: Context, k: Context, s: Stmt, inLoop: bool, sound: bool,
                                       open: set<Label>, rest: set<Label>, target: Label, next: Label)
    requires c.Ok() && |c.blocks| <= |k.blocks| && target < |k.blocks| && Ready(k, inLoop) && TidyBranch(s)
    requires Shaped(c, k, sound, open) && open == rest + {next} && forall b: Label <- open :: b < |k.blocks|
    requires next < |k.blocks| && next != k.cur && k.blocks[next] == []
    ensures var r := JoinThen(Lower(k, s), target, next);
            && Shaped(c, r, sound && Sound(s, inLoop), rest) && InLoop(r, inLoop)
            && r.cur == next && r.blocks[next] == [] && |k.blocks| <= |r.blocks|
            && (target != k.cur ==> r.blocks[target] == k.blocks[target])
    decreases Size(s), 3, 1
  {
    var r := Lower(k, s);
    StatementShape(c, k, s, inLoop, sound, open);
    LowerRestores(k, s);
    ShapedJoin(c, r, sound && Sound(s, inLoop), open, rest, target, next);
  }

  /** A statement that registers nothing, further on the way from `c`. */
  lemma {:induction false} StatementShape(c: Context, k: Context, s: Stmt, inLoop: bool, sound: bool, open: set<Label>)
    requires c.Ok() && |c.blocks| <= |k.blocks| && Ready(k, inLoop) && TidyBranch(s)
    requires Shaped(c, k, sound, open) && forall b: Label <- open :: b < |k.blocks|
    ensures Shaped(c, Lower(k, s), sound && Sound(s, inLoop), open)
    decreases Size(s), 3, 0
  {
    LowerShape(k, s, inLoop);
    LowerRestores(k, s);
    assert New(k, Lower(k, s)) == [];
    ShapedThen(c, k, Lower(k, s), sound, Sound(s, inLoop), open, {});
    assert open + {} == open;
  }

  lemma {:induction false} IfShape(c: Context, s: Stmt, inLoop: bool)
    requires Ready(c, inLoop) && s.If? && Tidy(s)
    ensures !LowerIf(c, s).Ended()
    ensures Shaped(c, LowerIf(c, s), Sound(s, inLoop), {})
    decreases Size(s), 1
  {
    OpenIfShape(c, s.cond);
    BranchesShape(c, OpenIf(c, s.cond), s, inLoop, |c.blocks|);
  }

  lemma {:induction false} BranchesShape(c: Context, c1: Context, s: Stmt, inLoop: bool, t: Label)
    requires c.Ok() && |c.blocks| <= t && t + 2 < |c1.blocks| && Ready(c1, inLoop) && s.If? && Tidy(s)
    requires Shaped(c, c1, true, {t + 1, t + 2}) && c1.cur == t && c1.blocks[t + 1] == [] && c1.blocks[t + 2] == []
    ensures var r := JoinThen(LowerElse(JoinThen(Lower(c1, s.thn), t + 2, t + 1), s.els), t + 2, t + 2);
            !r.Ended() && Shaped(c, r, Sound(s, inLoop), {})
    decreases Size(s), 0
  {
    var c2 := ThenShape(c, c1, s.thn, inLoop, t);
    ElseShape(c, c2, s.els, inLoop, Sound(s.thn, inLoop), t + 2);
  }

  lemma {:induction false} ThenShape(c: Context, c1: Context, s: Stmt, inLoop: bool, t: Label) returns (c2: Context)
    requires c.Ok() && |c.blocks| <= |c1.blocks| && t + 2 < |c1.blocks| && Ready(c1, inLoop) && TidyBranch(s)
    requires Shaped(c, c1, true, {t + 1, t + 2}) && c1.cur == t && c1.blocks[t + 1] == [] && c1.blocks[t + 2] == []
    ensures c2 == JoinThen(Lower(c1, s), t + 2, t + 1) && |c.blocks| <= |c2.blocks| && Ready(c2, inLoop)
    ensures t + 2 < |c2.blocks|
    ensures Shaped(c, c2, Sound(s, inLoop), {t + 2}) && c2.cur == t + 1 && c2.blocks[t + 2] == []
    decreases Size(s), 4
  {
    c2 := JoinThen(Lower(c1, s), t + 2, t + 1);
    BranchShape(c, c1, s, inLoop, true, {t + 1, t + 2}, {t + 2}, t + 2, t + 1);
  }

  lemma {:induction false} ElseShape(c: Context, k: Context, els: Option<Stmt>, inLoop: bool, sound: bool, merge: Label)
    requires c.Ok() && |c.blocks| <= |k.blocks| && Ready(k, inLoop) && (els.Some? ==> TidyBranch(els.value))
    requires Shaped(c, k, sound, {merge}) && merge < |k.blocks| && merge != k.cur && k.blocks[merge] == []
    ensures var r := JoinThen(LowerElse(k, els), merge, merge);
            !r.Ended() && Shaped(c, r, sound && (els.Some? ==> Sound(els.value, inLoop)), {})
    decreases if els.Some? then Size(els.value) else 0, 4
  {
    if els.Some? {
      BranchShape(c, k, els.value, inLoop, sound, {merge}, {}, merge, merge);
    } else {
      ShapedJoin(c, k, sound, {merge}, {}, merge, merge);
    }
  }

  lemma OpenIfShape(c: Context, cond: Expr)
    requires c.Ok() && !c.Ended() && Straight(c.blocks[c.cur])
    ensures var t, r := |c.blocks|, OpenIf(c, cond);
            && Shaped(c, r, true, {t + 1, t + 2})
            && r.blocks[t] == [] && r.blocks[t + 1] == [] && r.blocks[t + 2] == []
    ensures forall inLoop :: InLoop(c, inLoop) ==> Ready(OpenIf(c, cond), inLoop)
  {
    OpenIfKeeps(c, cond);
    StraightThen(c.blocks[c.cur], Eval(cond), CondBr(|c.blocks|, |c.blocks| + 1));
  }

  /** Appending a straight instruction and a terminator closes a straight block. */
  lemma StraightPush(b: Block, i: Instr)
    requires Straight(b) && !IsTerminator(i)
    ensures Straight(b + [i])
  {
    SamePrefix(b, b + [i], |b|);
  }

  lemma ClosedPush(b: Block, j: Instr)
    requires Straight(b) && IsTerminator(j)
    ensures Closed(b + [j])
  {
    SamePrefix(b, b + [j], |b|);
  }

  lemma StraightThen(b: Block, i: Instr, j: Instr)
    requires Straight(b) && !IsTerminator(i) && IsTerminator(j)
    ensures Closed(b + [i, j]) && Closed(b + [j])
  {
    StraightPush(b, i);
    ClosedPush(b + [i], j);
    ClosedPush(b, j);
    assert b + [i] + [j] == b + [i, j];
  }

  lemma {:induction false} WhileShape(c: Context, s: Stmt, inLoop: bool)
    requires Ready(c, inLoop) && s.While? && Tidy(s)
    ensures !LowerWhile(c, s).Ended()
    ensures Shaped(c, LowerWhile(c, s), Sound(s, inLoop), {})
    decreases Size(s), 1
  {
    var c1 := OpenWhileShape(c, s.cond);
    WhileBodyShape(c, c1, s, inLoop, |c.blocks|);
    var r := JoinThen(Lower(c1, s.body), |c.blocks|, |c.blocks| + 2);
    assert LowerWhile(c, s) == r.(loopCond := c.loopCond, loopEnd := c.loopEnd);
  }

  lemma {:induction false} WhileBodyShape(c: Context, c1: Context, s: Stmt, inLoop: bool, t: Label)
    requires c.Ok() && |c.blocks| <= t && t + 2 < |c1.blocks| && Ready(c1, true) && s.While? && Tidy(s)
    requires Shaped(c, c1, true, {t + 2}) && c1.cur == t + 1 && c1.blocks[t + 2] == []
    ensures var r := JoinThen(Lower(c1, s.body), t, t + 2).(loopCond := c.loopCond, loopEnd := c.loopEnd);
            !r.Ended() && Shaped(c, r, Sound(s, inLoop), {})
    decreases Size(s), 0
  {
    BranchShape(c, c1, s.body, true, true, {t + 2}, {}, t, t + 2);
  }

  lemma OpenWhileShape(c: Context, cond: Expr) returns (r: Context)
    requires c.Ok() && !c.Ended() && Straight(c.blocks[c.cur])
    ensures r == OpenWhile(c, cond) && |r.blocks| == |c.blocks| + 3 && r.cur == |c.blocks| + 1
    ensures r.blocks[|c.blocks| + 2] == []
    ensures Ready(r, true) && Shaped(c, r, true, {|c.blocks| + 2})
  {
    var t := |c.blocks|;
    r := OpenWhile(c, cond);
    OpenWhileKeeps(c, cond);
    StraightThen(c.blocks[c.cur], Eval(cond), Br(t));
    StraightThen([], Eval(cond), CondBr(t + 1, t + 2));
    assert [] + [Eval(cond), CondBr(t + 1, t + 2)] == [Eval(cond), CondBr(t + 1, t + 2)];
  }

  lemma {:induction false} ForShape(c: Context, s: Stmt, inLoop: bool)
    requires Ready(c, inLoop) && s.For? && Tidy(s)
    ensures !LowerFor(c, s).Ended()
    ensures |c.deferred| <= |LowerFor(c, s).deferred|
    ensures Shaped(c, LowerFor(c, s), Sound(s, inLoop), Labels(New(c, LowerFor(c, s))))
    decreases Size(s), 1
  {
    var e := c.EnterScope();
    var c0 := if s.init.Some? then Lower(e, s.init.value) else e;
    var sound0 := s.init.Some? ==> Sound(s.init.value, inLoop);
    if s.init.Some? {
      LowerShape(e, s.init.value, inLoop);
      LowerRestores(e, s.init.value);
    }
    assert Pending(e, c0);
    PendingLabels(e, c0);
    ForLoopShape(c, c0, s, sound0, Labels(New(e, c0)));
    LowerRestores(OpenFor(c0, s.test), s.body);
    ForFrame(c, c0, s.test, OpenFor(c0, s.test), Lower(OpenFor(c0, s.test), s.body), s.post, LowerFor(c, s));
    assert New(c, LowerFor(c, s)) == New(e, c0);
  }

  /** The loop of a `for`, after its initialiser has been lowered from `c` to `k`. */
  lemma {:induction false} ForLoopShape(c: Context, k: Context, s: Stmt, sound: bool, open: set<Label>)
    requires c.Ok() && k.Ok() && s.For? && TidyBranch(s.body) && |c.blocks| <= |k.blocks| && Shaped(c, k, sound, open)
    requires (k.cur == c.cur || k.cur >= |c.blocks|) && k.cur !in open && forall b: Label <- open :: b < |k.blocks|
    ensures var r := CloseFor(Lower(OpenFor(k, s.test), s.body), s.post, |k.blocks|);
            !r.Ended() && Shaped(c, r, sound && !k.Ended() && Sound(s.body, true), open)
    decreases Size(s), 0
  {
    var t := |k.blocks|;
    OpenForShape(c, k, sound, s.test, open);
    var c1 := OpenFor(k, s.test);
    ForBodyShape(c, c1, s, sound && !k.Ended(), t, open);
  }

  lemma {:induction false} ForBodyShape(c: Context, k: Context, s: Stmt, sound: bool, t: Label, open: set<Label>)
    requires c.Ok() && Ready(k, true) && s.For? && TidyBranch(s.body) && |c.blocks| <= t && t + 3 < |k.blocks|
    requires Shaped(c, k, sound, open + {t + 2, t + 3}) && k.cur == t + 1 && forall b: Label <- open :: b < t
    requires k.blocks[t + 2] == [] && k.blocks[t + 3] == []
    ensures var r := CloseFor(Lower(k, s.body), s.post, t);
            !r.Ended() && Shaped(c, r, sound && Sound(s.body, true), open)
    decreases Size(s.body), 4
  {
    StatementShape(c, k, s.body, true, sound, open + {t + 2, t + 3});
    LowerRestores(k, s.body);
    CloseForShape(c, Lower(k, s.body), sound && Sound(s.body, true), s.post, t, open);
  }

  /** The jump to the test breaks the block if the initialiser has already ended it. */
  lemma OpenForShape(c: Context, k: Context, sound: bool, test: Option<Expr>, open: set<Label>)
    requires c.Ok() && k.Ok() && |c.blocks| <= |k.blocks| && Shaped(c, k, sound, open)
    requires (k.cur == c.cur || k.cur >= |c.blocks|) && k.cur !in open && forall b: Label <- open :: b < |k.blocks|
    ensures var t, r := |k.blocks|, OpenFor(k, test);
            && Shaped(c, r, sound && !k.Ended(), open + {t + 2, t + 3})
            && r.blocks[t + 1] == [] && r.blocks[t + 2] == [] && r.blocks[t + 3] == []
  {
    var t, r := |k.blocks|, OpenFor(k, test);
    OpenForKeeps(k, test);
    if !sound {
      SpoiledStays(|c.blocks|, open + {k.cur}, k.cur, k.blocks, r.blocks, open + {t + 2, t + 3} + {r.cur});
    } else if k.Ended() {
      OpenForBreaks(k, test);
    } else {
      OpenForCloses(c, k, test, open);
    }
  }

  lemma OpenForCloses(c: Context, k: Context, test: Option<Expr>, open: set<Label>)
    requires c.Ok() && k.Ok() && |c.blocks| <= |k.blocks| && Shaped(c, k, true, open) && !k.Ended()
    requires (k.cur == c.cur || k.cur >= |c.blocks|) && k.cur !in open && forall b: Label <- open :: b < |k.blocks|
    ensures Shaped(c, OpenFor(k, test), true, open + {|k.blocks| + 2, |k.blocks| + 3})
  {
    OpenForKeeps(k, test);
    StraightThen(k.blocks[k.cur], SetDest(0), Br(|k.blocks|));
    ForTestCloses(test, |k.blocks|);
    CloseAndAdd(|c.blocks|, c.cur, open, k.blocks, k.cur, k.blocks[k.cur] + [Br(|k.blocks|)],
                ForTest(test, |k.blocks|));
  }

  /** The current block closed, a closed block and three empty ones added. */
  lemma CloseAndAdd(n: nat, e: Label, open: set<Label>, x: seq<Block>, cur: Label, b: Block, test: Block)
    requires cur < |x| && AllClosed(n, e, open + {cur}, x) && Closed(b) && Closed(test)
    ensures AllClosed(n, e, open + {|x| + 2, |x| + 3} + {|x| + 1}, x[cur := b] + [test, [], [], []])
  {
  }

  /** The jump to the test behind a block that has ended. */
  lemma OpenForBreaks(k: Context, test: Option<Expr>)
    requires k.Ok() && k.Ended() && Closed(k.blocks[k.cur])
    ensures Broken(OpenFor(k, test).blocks[k.cur])
  {
    OpenForKeeps(k, test);
    var r := OpenFor(k, test);
    assert r.blocks[k.cur][..|k.blocks[k.cur]|] == k.blocks[k.cur];
  }

  lemma ForTestCloses(test: Option<Expr>, t: Label)
    ensures Closed(ForTest(test, t))
  {
    StraightThen([], Eval(if test.Some? then test.value else Valued(0)), CondBr(t + 1, t + 3));
    assert test.Some? ==> [] + [Eval(test.value), CondBr(t + 1, t + 3)] == ForTest(test, t);
  }

  /** The expression after the loop body goes into the open block the cursor is in. */
  lemma PostShape(c: Context, k: Context, sound: bool, open: set<Label>, post: Option<Expr>)
    requires c.Ok() && k.Ok() && !k.Ended() && Shaped(c, k, sound, open)
    ensures Shaped(c, k.EmitOptional(post), sound, open) && !k.EmitOptional(post).Ended()
  {
    if post.Some? {
      var r := k.EmitOptional(post);
      EmitShape(k, Eval(post.value));
      if !sound {
        EmitKeeps(|k.blocks|, k.cur, k.blocks, k, Eval(post.value));
        SpoiledStays(|c.blocks|, open + {k.cur}, k.cur, k.blocks, r.blocks, open + {k.cur});
      }
    }
  }

  lemma CloseForShape(c: Context, k: Context, sound: bool, post: Option<Expr>, t: Label, open: set<Label>)
    requires c.Ok() && k.Ok() && |c.blocks| <= t && t + 3 < |k.blocks|
    requires k.cur != t + 2 && k.cur != t + 3 && k.blocks[t + 2] == [] && k.blocks[t + 3] == []
    requires Shaped(c, k, sound, open + {t + 2, t + 3})
    ensures Shaped(c, CloseFor(k, post, t), sound, open)
    ensures CloseFor(k, post, t).blocks[t + 3] == []
  {
    ShapedJoin(c, k, sound, open + {t + 2, t + 3}, open + {t + 3}, t + 2, t + 2);
    var k1 := JoinThen(k, t + 2, t + 2);
    assert k1.blocks[t + 3] == [];
    PostShape(c, k1, sound, open + {t + 3}, post);
    ShapedJoin(c, k1.EmitOptional(post), sound, open + {t + 3}, open, t, t + 3);
  }

  function Labels(infos: seq<DeferInfo>): set<Label>
  {
    if infos == [] then {} else Labels(infos[..|infos| - 1]) + {infos[|infos| - 1].bb}
  }

  lemma {:induction false} LabelsConcat(some: seq<DeferInfo>, more: seq<DeferInfo>)
    ensures Labels(some + more) == Labels(some) + Labels(more)
    decreases |more|
  {
    var all := some + more;
    if more == [] {
      assert all == some;
    } else {
      LabelsConcat(some, more[..|more| - 1]);
      assert all[..|all| - 1] == some + more[..|more| - 1];
    }
  }

  lemma {:induction false} NotALabel(infos: seq<DeferInfo>, b: Label)
    requires forall i :: 0 <= i < |infos| ==> infos[i].bb != b
    ensures b !in Labels(infos)
    decreases |infos|
  {
    if infos != [] {
      NotALabel(infos[..|infos| - 1], b);
    }
  }

  lemma {:induction false} LabelsWithin(infos: seq<DeferInfo>, lo: nat, r: Context)
    requires EmptyBlocks(infos, lo, r) && r.Ok() && forall i :: 0 <= i < |infos| ==> infos[i].bb != r.cur
    ensures (forall b: Label <- Labels(infos) :: lo <= b < |r.blocks|) && r.cur !in Labels(infos)
    decreases |infos|
  {
    if infos != [] {
      LabelsWithin(infos[..|infos| - 1], lo, r);
    }
  }

  ghost predicate BodiesSound(infos: seq<DeferInfo>, inLoop: bool)
  {
    forall i :: 0 <= i < |infos| ==> BodySound(infos[i].body, inLoop)
  }

  /** What lowering a sequence from `c` to `r` promises; `infos` are the actions it has registered. */
  ghost predicate SeqPromise(c: Context, r: Context, infos: seq<DeferInfo>, stmts: seq<Stmt>, inLoop: bool)
    requires c.Ok() && r.Ok()
  {
    && r.Ended() == SeqEnds(stmts, inLoop)
    && (infos != []) == SeqDefers(stmts, inLoop)
    && Shaped(c, r, SeqSound(stmts, inLoop), Labels(infos))
    && BodiesSound(infos, inLoop) == DefersSound(stmts, inLoop)
  }

  lemma {:induction false} SeqShape(c: Context, stmts: seq<Stmt>, inLoop: bool)
    requires Ready(c, inLoop) && TidySeq(stmts)
    ensures SeqPromise(c, LowerSeq(c, stmts), New(c, LowerSeq(c, stmts)), stmts, inLoop)
    decreases SizeSeq(stmts), 3
  {
    if stmts != [] {
      var c1 := Lower(c, stmts[0]);
      LowerShape(c, stmts[0], inLoop);
      LowerRestores(c, stmts[0]);
      if Ends(stmts[0], inLoop) {
        EndedSeq(c1, stmts[1..]);
        assert New(c, c1) == [];
      } else {
        SeqShape(c1, stmts[1..], inLoop);
        SeqPending(c1, stmts[1..]);
        var r := LowerSeq(c, stmts);
        NewConcat(c, c1, r);
        PendingLabels(c, c1);
        PendingLabels(c1, r);
        RegisteredSound(c, c1, PushedBy(stmts[0]), inLoop);
        SeqShapeStep(c, c1, r, New(c, c1), New(c1, r), stmts, inLoop);
      }
    }
  }

  /** A statement that does not end its block, followed by the rest of the sequence. */
  lemma SeqShapeStep(c: Context, c1: Context, r: Context, some: seq<DeferInfo>, more: seq<DeferInfo>, stmts: seq<Stmt>,
                     inLoop: bool)
    requires c.Ok() && c1.Ok() && r.Ok() && stmts != [] && |c.blocks| <= |c1.blocks| && !Ends(stmts[0], inLoop)
    requires Keeps(|c1.blocks|, c1.cur, c1.blocks, r.blocks) && (r.cur == c1.cur || r.cur >= |c1.blocks|)
    requires forall b: Label <- Labels(some) :: b < |c1.blocks|
    requires forall b: Label <- Labels(more) :: b >= |c1.blocks|
    requires (some != []) == Pushes(stmts[0])
    requires BodiesSound(some, inLoop) == (Pushes(stmts[0]) ==> BodySound(PushedBy(stmts[0])[0], inLoop))
    requires Shaped(c, c1, Sound(stmts[0], inLoop), Labels(some))
    requires SeqPromise(c1, r, more, stmts[1..], inLoop)
    ensures SeqPromise(c, r, some + more, stmts, inLoop)
  {
    LabelsConcat(some, more);
    BodiesSoundConcat(some, more, inLoop);
    ShapedThen(c, c1, r, Sound(stmts[0], inLoop), SeqSound(stmts[1..], inLoop), Labels(some), Labels(more));
  }

  lemma NewConcat(c: Context, c1: Context, r: Context)
    requires c.deferred <= c1.deferred <= r.deferred
    ensures New(c, r) == New(c, c1) + New(c1, r)
  {}

  lemma PendingLabels(c: Context, r: Context)
    requires Pending(c, r)
    ensures (forall b: Label <- Labels(New(c, r)) :: |c.blocks| <= b < |r.blocks|) && r.cur !in Labels(New(c, r))
  {
    var infos := New(c, r);
    forall i | 0 <= i < |infos|
      ensures infos[i].bb != r.cur
    {
      assert r.deferred[|c.deferred| + i].bb != r.cur;
    }
    LabelsWithin(infos, |c.blocks|, r);
  }

  lemma RegisteredSound(c: Context, r: Context, bodies: seq<Stmt>, inLoop: bool)
    requires Registers(c, r, bodies) && |bodies| <= 1
    ensures BodiesSound(New(c, r), inLoop) == (bodies != [] ==> BodySound(bodies[0], inLoop))
    ensures (New(c, r) != []) == (bodies != [])
  {
    if bodies != [] {
      assert New(c, r)[0].body == bodies[0];
    }
  }

  lemma BodiesSoundConcat(some: seq<DeferInfo>, more: seq<DeferInfo>, inLoop: bool)
    ensures BodiesSound(some + more, inLoop) == (BodiesSound(some, inLoop) && BodiesSound(more, inLoop))
  {
    var all := some + more;
    assert forall k :: 0 <= k < |some| ==> all[k] == some[k];
    assert forall k :: 0 <= k < |more| ==> all[|some| + k] == more[k];
  }

  lemma {:induction false} EndedSeq(c: Context, stmts: seq<Stmt>)
    requires c.Ok() && c.Ended()
    ensures LowerSeq(c, stmts) == c
    decreases |stmts|
  {
    if stmts != [] {
      EndedSeq(c, stmts[1..]);
    }
  }

  /** Shaped, without a cursor: the stage between a block's statements and its dispatch. */
  ghost predicate Stage(c: Context, blocks: seq<Block>, sound: bool, open: set<Label>)
    requires c.Ok()
  {
    && (sound ==> AllClosed(|c.blocks|, c.cur, open, blocks))
    && (!sound ==> Spoiled(|c.blocks|, open, blocks))
  }

  lemma BeginCleanupBlocks(k: Context)
    requires k.Ok() && k.cleanup.Some? && CurGood(k)
    ensures var r := BeginCleanup(k);
            && |r.blocks| == |k.blocks| + 1 && r.blocks[|k.blocks|] == [] && Closed(r.blocks[k.cur])
            && (forall b :: 0 <= b < |k.blocks| && b != k.cur ==> r.blocks[b] == k.blocks[b])
  {
    if !k.Ended() {
      var block := k.blocks[k.cur];
      assert BeginCleanup(k).blocks[k.cur] == block + [SetDest(3), Br(k.cleanup.value)];
      StraightThen(block, SetDest(3), Br(k.cleanup.value));
    }
  }

  lemma BegunShape(c: Context, k: Context, blocks: seq<Block>, sound: bool, open: set<Label>)
    requires c.Ok() && k.Ok() && Shaped(c, k, sound, open) && k.cur !in open
    requires |blocks| == |k.blocks| + 1 && Closed(blocks[k.cur])
    requires forall b :: 0 <= b < |k.blocks| && b != k.cur ==> blocks[b] == k.blocks[b]
    requires sound || Spoiled(|c.blocks|, open + {|k.blocks|}, blocks)
    ensures Stage(c, blocks, sound, open + {|k.blocks|})
  {}

  lemma BeginCleanupShape(c: Context, k: Context, sound: bool, open: set<Label>)
    requires c.Ok() && k.Ok() && k.cleanup.Some? && Shaped(c, k, sound, open) && k.cur !in open
    requires forall b: Label <- open :: b < |k.blocks|
    ensures Stage(c, BeginCleanup(k).blocks, sound, open + {|k.blocks|})
    ensures BeginCleanup(k).blocks[|k.blocks|] == []
  {
    BeginCleanupBlocks(k);
    if !sound {
      BeginCleanupKeeps(|k.blocks|, k.cur, k.blocks, k);
      SpoiledStays(|c.blocks|, open + {k.cur}, k.cur, k.blocks, BeginCleanup(k).blocks, open + {|k.blocks|});
    }
    BegunShape(c, k, BeginCleanup(k).blocks, sound, open);
  }

  /** The chain without the action registered last. */
  lemma {:induction false} DropLastShape(c: Context, k: Context, infos: seq<DeferInfo>, after: Label, bound: nat,
                                         sound: bool, inLoop: bool)
    returns (k1: Context, rest: seq<DeferInfo>, sound1: bool)
    requires c.Ok() && k.Ok() && InLoop(k, inLoop) && EmptyBlocks(infos, |c.blocks|, k) && infos != []
    requires forall i :: 0 <= i < |infos| ==> Size(infos[i].body) < bound && infos[i].bb != after
    requires after < |k.blocks| && k.blocks[after] == []
    requires Stage(c, k.blocks, sound, Labels(infos) + {after})
    ensures rest == infos[..|infos| - 1] && k1 == LowerLastDefer(k, infos, after, bound)
    ensures k1.Ok() && InLoop(k1, inLoop) && EmptyBlocks(rest, |c.blocks|, k1)
    ensures forall i :: 0 <= i < |rest| ==> Size(rest[i].body) < bound && rest[i].bb != after
    ensures |k.blocks| <= |k1.blocks| && k1.blocks[after] == [] && Stage(c, k1.blocks, sound1, Labels(rest) + {after})
    ensures (sound1 && BodiesSound(rest, inLoop)) == (sound && BodiesSound(infos, inLoop))
    decreases bound, 0, 1
  {
    LastDeferKeeps(|c.blocks|, k, infos, after, bound);
    LastDeferShape(c, k, infos, after, bound, sound, inLoop);
    AllButLast(infos, inLoop);
    k1, rest := LowerLastDefer(k, infos, after, bound), infos[..|infos| - 1];
    sound1 := sound && BodySound(infos[|infos| - 1].body, inLoop);
  }

  lemma {:induction false} DefersShape(c: Context, k: Context, infos: seq<DeferInfo>, after: Label, bound: nat,
                                       sound: bool, inLoop: bool)
    requires c.Ok() && k.Ok() && InLoop(k, inLoop) && EmptyBlocks(infos, |c.blocks|, k)
    requires forall i :: 0 <= i < |infos| ==> Size(infos[i].body) < bound && infos[i].bb != after
    requires after < |k.blocks| && k.blocks[after] == []
    requires Stage(c, k.blocks, sound, Labels(infos) + {after})
    ensures var r := LowerDefers(k, infos, after, bound);
            && |k.blocks| <= |r.blocks| && r.blocks[after] == []
            && Stage(c, r.blocks, sound && BodiesSound(infos, inLoop), {after})
    decreases bound, 1, |infos|
  {
    if infos == [] {
      assert Labels(infos) + {after} == {after};
    } else {
      var k1, rest, sound1 := DropLastShape(c, k, infos, after, bound, sound, inLoop);
      DefersShape(c, k1, rest, after, bound, sound1, inLoop);
    }
  }

  lemma AllButLast(infos: seq<DeferInfo>, inLoop: bool)
    requires infos != []
    ensures var n := |infos| - 1;
            && (forall i :: 0 <= i < n ==> infos[..n][i] == infos[i])
            && BodiesSound(infos, inLoop) == (BodySound(infos[n].body, inLoop) && BodiesSound(infos[..n], inLoop))
  {
  }

  lemma {:induction false} LastDeferShape(c: Context, k: Context, infos: seq<DeferInfo>, after: Label, bound: nat,
                                          sound: bool, inLoop: bool)
    requires c.Ok() && k.Ok() && InLoop(k, inLoop) && infos != [] && Tidy(infos[|infos| - 1].body)
    requires forall i :: 0 <= i < |infos| ==> infos[i].bb < |k.blocks|
    requires k.blocks[infos[|infos| - 1].bb] == []
    requires Size(infos[|infos| - 1].body) < bound && after < |k.blocks| && |c.blocks| <= |k.blocks|
    requires Stage(c, k.blocks, sound, Labels(infos) + {after})
    ensures var r := LowerLastDefer(k, infos, after, bound);
            Stage(c, r.blocks, sound && BodySound(infos[|infos| - 1].body, inLoop),
                  Labels(infos[..|infos| - 1]) + {after})
    decreases bound, 0, 0
  {
    var n := |infos| - 1;
    var k0, r0 := LastDeferLowered(k, infos, after, bound);
    BodyShape(k0, r0, infos[n].body, inLoop);
    LabelsBelow(infos[..n], k);
    LastLabel(infos, after);
    StageThen(c, k0, r0, sound, Sound(infos[n].body, inLoop), Pushes(infos[n].body), Labels(infos[..n]) + {after},
              r0.cleanup.value);
  }

  lemma LastLabel(infos: seq<DeferInfo>, after: Label)
    requires infos != []
    ensures Labels(infos) + {after} == Labels(infos[..|infos| - 1]) + {after} + {infos[|infos| - 1].bb}
  {
  }

  lemma {:induction false} BodyShape(k: Context, r: Context, body: Stmt, inLoop: bool)
    requires k.Ok() && k.blocks[k.cur] == [] && InLoop(k, inLoop) && Tidy(body) && r == Lower(k, body)
    ensures Pending(k, r) && Pushes(body) == (|r.deferred| > |k.deferred|)
    ensures Shaped(k, r, Sound(body, inLoop), Labels(New(k, r)))
    decreases Size(body), 3
  {
    LowerShape(k, body, inLoop);
    LowerRestores(k, body);
  }

  /** Around the last body: the context it is lowered from and the one it leads to. */
  lemma LastDeferLowered(k: Context, infos: seq<DeferInfo>, after: Label, bound: nat) returns (k0: Context, r0: Context)
    requires k.Ok() && infos != [] && infos[|infos| - 1].bb < |k.blocks| && Size(infos[|infos| - 1].body) < bound
    ensures k0 == k.(cur := infos[|infos| - 1].bb, cleanup := k0.cleanup) && k0.cleanup.Some?
    ensures k0.Ok() && r0 == Lower(k0, infos[|infos| - 1].body) && r0.Ok() && r0.cleanup.Some?
    ensures LowerLastDefer(k, infos, after, bound) == r0.EmitUnlessEnded(Br(r0.cleanup.value))
  {
    var n := |infos| - 1;
    k0 := k.At(infos[n].bb).(cleanup := Some(if n == 0 then after else infos[n - 1].bb));
    r0 := Lower(k0, infos[n].body);
  }

  lemma {:induction false} LabelsBelow(infos: seq<DeferInfo>, k: Context)
    requires forall i :: 0 <= i < |infos| ==> infos[i].bb < |k.blocks|
    ensures forall b: Label <- Labels(infos) :: b < |k.blocks|
    decreases |infos|
  {
    if infos != [] {
      LabelsBelow(infos[..|infos| - 1], k);
    }
  }

  /** One deferred body behind another; if it registers an action, nothing will fill in that one's block. */
  lemma StageThen(c: Context, k: Context, r: Context, sound1: bool, sound2: bool, pushes: bool, rest: set<Label>,
                  target: Label)
    requires c.Ok() && k.Ok() && |c.blocks| <= |k.blocks| && Pending(k, r) && pushes == (|r.deferred| > |k.deferred|)
    requires Stage(c, k.blocks, sound1, rest + {k.cur}) && Shaped(k, r, sound2, Labels(New(k, r)))
    requires forall b: Label <- rest :: b < |k.blocks|
    ensures Stage(c, r.EmitUnlessEnded(Br(target)).blocks, sound1 && sound2 && !pushes, rest)
  {
    var y := r.EmitUnlessEnded(Br(target)).blocks;
    if !r.Ended() {
      EmitShape(r, Br(target));
    }
    EmitKeeps(|r.blocks|, r.cur, r.blocks, r, Br(target));
    if !sound1 {
      EmitKeeps(|k.blocks|, k.cur, k.blocks, r, Br(target));
      SpoiledStays(|c.blocks|, rest + {k.cur}, k.cur, k.blocks, y, rest);
    } else if pushes {
      var lost := New(k, r)[0].bb;
      assert lost == r.deferred[|k.deferred|].bb != r.cur;
      assert |c.blocks| <= lost && y[lost] == [] && lost !in rest;
    } else {
      assert New(k, r) == [];
      if !sound2 {
        SpoiledStays(|k.blocks|, {r.cur}, r.cur, r.blocks, y, {});
        var b :| 0 <= b < |y| && (Broken(y[b]) || (|k.blocks| <= b && y[b] == [] && b !in {}));
        assert Broken(y[b]) || (|c.blocks| <= b && y[b] == [] && b !in rest);
      }
    }
  }

  lemma ClosedAlone(b: Block, i: Instr)
    requires b == [] && IsTerminator(i)
    ensures Closed(b + [i])
  {
    ClosedPush(b, i);
  }

  /** What the dispatch adds: a closed block at `after`, the cursor in an empty new block, closed blocks behind it. */
  ghost predicate Dispatched(k: Context, r: Context, after: Label)
    requires k.Ok() && r.Ok()
  {
    && |k.blocks| < |r.blocks| && r.cur == |k.blocks| && r.blocks[r.cur] == []
    && after < |k.blocks| && Closed(r.blocks[after])
    && (forall b :: 0 <= b < |k.blocks| && b != after ==> r.blocks[b] == k.blocks[b])
    && (forall b :: |k.blocks| < b < |r.blocks| ==> Closed(r.blocks[b]))
  }

  lemma DispatchBlocks(k: Context, after: Label, outer: Option<Label>)
    requires k.Ok() && after < |k.blocks| && k.blocks[after] == []
    ensures Dispatched(k, LowerDispatch(k, after, outer), after)
  {
    var r := LowerDispatch(k, after, outer);
    var n := |k.blocks|;
    assert r.blocks[after] == k.blocks[after] + [r.blocks[after][0]];
    ClosedAlone(k.blocks[after], r.blocks[after][0]);
    if outer.None? {
      assert r.blocks[n + 1] == r.blocks[n] + [r.blocks[n + 1][0]];
      ClosedAlone(r.blocks[n], r.blocks[n + 1][0]);
    }
  }

  lemma DispatchedShape(c: Context, k: Context, r: Context, after: Label, sound: bool)
    requires c.Ok() && k.Ok() && r.Ok() && |c.blocks| <= after < |k.blocks| && k.blocks[after] == []
    requires Stage(c, k.blocks, sound, {after}) && Dispatched(k, r, after)
    ensures !r.Ended() && Shaped(c, r, sound, {})
  {
    if !sound {
      var b :| 0 <= b < |k.blocks| && (Broken(k.blocks[b]) || (|c.blocks| <= b && k.blocks[b] == [] && b !in {after}));
      assert b != after && r.blocks[b] == k.blocks[b];
      assert Broken(r.blocks[b]) || (|c.blocks| <= b && r.blocks[b] == [] && b !in {} + {r.cur});
    }
  }

  lemma DispatchShape(c: Context, k: Context, after: Label, outer: Option<Label>, sound: bool)
    requires c.Ok() && k.Ok() && |c.blocks| <= after < |k.blocks| && k.blocks[after] == []
    requires Stage(c, k.blocks, sound, {after})
    ensures var r := LowerDispatch(k, after, outer);
            !r.Ended() && Shaped(c, r, sound, {})
  {
    DispatchBlocks(k, after, outer);
    DispatchedShape(c, k, LowerDispatch(k, after, outer), after, sound);
  }

  lemma {:induction false} BlockShape(c: Context, s: Stmt, inLoop: bool)
    requires Ready(c, inLoop) && s.Block? && Tidy(s)
    ensures LowerBlock(c, s).Ended() == Ends(s, inLoop)
    ensures Shaped(c, LowerBlock(c, s), Sound(s, inLoop), {})
    decreases Size(s), 1
  {
    var k := c.EnterScope();
    SeqShape(k, s.stmts, inLoop);
    SeqPending(k, s.stmts);
    var c1 := LowerSeq(k, s.stmts);
    var infos := c1.deferred[|c.deferred|..];
    var sound := SeqSound(s.stmts, inLoop);
    if infos == [] {
      assert Labels(infos) == {};
    } else {
      PendingLabels(k, c1);
      BeginCleanupShape(k, c1, sound, Labels(infos));
      PendingAtCleanup(k, c1);
      var d := BeginCleanup(c1);
      DefersShape(k, d, infos, |c1.blocks|, Size(s), sound, inLoop);
      assert BodiesSound(infos, inLoop) == DefersSound(s.stmts, inLoop);
      DispatchShape(k, LowerDefers(d, infos, |c1.blocks|, Size(s)), |c1.blocks|, c.cleanup, Sound(s, inLoop));
    }
  }

  ghost predicate AllBlocksClosed(g: seq<Block>)
  {
    forall b :: 0 <= b < |g| ==> Closed(g[b])
  }

  /** Every block of a function ends with its only terminator if and only if the body is sound. */
  lemma FunctionClosed(kind: ReturnKind, body: Stmt)
    requires TidyBranch(body)
    ensures AllBlocksClosed(LowerFunction(kind, body).blocks) <==> Sound(body, false)
  {
    var c, f := EntryContext(kind), LowerFunction(kind, body);
    var r := Lower(c, body);
    var last := if kind.ReturnsDirect? then RetNull else RetVoid;
    LowerShape(c, body, false);
    LowerRestores(c, body);
    assert New(c, r) == [];
    EndsClosed(c, r, Sound(body, false), last);
  }

  /** The blocks of a whole function, once its last one has been closed. */
  lemma EndsClosed(c: Context, r: Context, sound: bool, last: Instr)
    requires c.Ok() && c.blocks == [[]] && r.Ok() && Shaped(c, r, sound, {}) && IsTerminator(last)
    ensures AllBlocksClosed(r.EmitUnlessEnded(last).blocks) <==> sound
  {
    if !r.Ended() {
      EmitShape(r, last);
    }
    if !sound {
      StillSpoiled(r, last);
    }
  }

  lemma StillSpoiled(r: Context, last: Instr)
    requires r.Ok() && Spoiled(1, {r.cur}, r.blocks)
    ensures !AllBlocksClosed(r.EmitUnlessEnded(last).blocks)
  {
    var y := r.EmitUnlessEnded(last).blocks;
    EmitKeeps(|r.blocks|, r.cur, r.blocks, r, last);
    SpoiledStays(1, {r.cur}, r.cur, r.blocks, y, {});
    var b :| 0 <= b < |y| && (Broken(y[b]) || (1 <= b && y[b] == [] && b !in {}));
    assert !Closed(y[b]);
  }
}
