/**
 * Statements and what the language manual says they mean.
 *
 * An expression is an atomic action: evaluating it appends its name to the
 * history and yields whatever integer the oracle answers for that history.
 * The history is therefore both the trace of a run and its abstract state:
 * every deterministic store is a function of the actions performed so far.
 */
module StatementSemantics {
  import opened Options

  /** Calls of `print` and `println` are silent: they leave no value behind for a `return` to hand on. */
  datatype Expr = Valued(id: nat) | Silent(id: nat)

  /** The expression, if any, has a value. */
  predicate Yields(result: Option<Expr>) { result.Some? && result.value.Valued? }

  type Name = nat

  datatype Stmt =
    | ExprStmt(e: Expr)
    | VarDecl(name: Name, value: Option<Expr>)
    | Block(stmts: seq<Stmt>)
    | If(cond: Expr, thn: Stmt, els: Option<Stmt>)
    | While(cond: Expr, body: Stmt)
    | For(init: Option<Stmt>, test: Option<Expr>, post: Option<Expr>, body: Stmt)
    | Return(result: Option<Expr>)
    | Break
    | Continue
    | Defer(body: Stmt)

  /** Number of nodes: the measure every recursion over statements decreases. */
  function Size(s: Stmt): (n: nat)
    ensures n >= 1
  {
    match s
    case Block(stmts) => 1 + SizeSeq(stmts)
    case If(_, thn, els) => 1 + Size(thn) + (if els.Some? then Size(els.value) else 0)
    case While(_, body) => 1 + Size(body)
    case For(init, _, _, body) => 1 + (if init.Some? then Size(init.value) else 0) + Size(body)
    case Defer(body) => 1 + Size(body)
    case _ => 1
  }

  function SizeSeq(stmts: seq<Stmt>): nat
  {
    if stmts == [] then 0 else 1 + Size(stmts[0]) + SizeSeq(stmts[1..])
  }

  /**
   * The deferred body that a statement registers with the block around it: its own, or
   * that of the statement which initialises it.
   */
  function PushedBy(s: Stmt): (bodies: seq<Stmt>)
    ensures |bodies| <= 1 && (bodies != [] ==> Size(bodies[0]) < Size(s))
  {
    match s
    case Defer(body) => [body]
    case For(Some(init), _, _, _) => PushedBy(init)
    case _ => []
  }

  predicate Pushes(s: Stmt) { PushedBy(s) != [] }

  /** How a function hands its result back. */
  datatype ReturnKind = ReturnsVoid | ReturnsDirect | ReturnsIndirect

  type Oracle = (Expr, seq<Expr>) -> int

  /** `slot` is the hidden return slot of the manual. */
  datatype State = State(history: seq<Expr>, slot: int)
  {
    function Then(e: Expr): State { this.(history := history + [e]) }
  }

  datatype Outcome = Natural | Returned | Broke | Continued

  datatype Result = TimeOut | Finished(outcome: Outcome, st: State)

  /** Result of a block's own statements; `stack` holds the bodies deferred on the way. */
  datatype BlockResult = BlockTimeOut | BlockFinished(outcome: Outcome, st: State, stack: seq<Stmt>)

  function Override(pending: Outcome, o: Outcome): Outcome
  {
    if o.Natural? then pending else o
  }

  function SetSlot(world: Oracle, kind: ReturnKind, result: Option<Expr>, st: State): State
  {
    match result
    case None => st
    case Some(e) =>
      var v := world(e, st.history);
      if kind.ReturnsVoid? || e.Silent? then st.Then(e) else st.Then(e).(slot := v)
  }

  ghost predicate Below(stack: seq<Stmt>, bound: nat)
  {
    forall i :: 0 <= i < |stack| ==> Size(stack[i]) < bound
  }

  /** Runs `s` from `st`; `fuel` bounds the iterations of every loop. */
  function Exec(world: Oracle, kind: ReturnKind, s: Stmt, fuel: nat, st: State): Result
    decreases fuel, Size(s), 1
  {
    match s
    case ExprStmt(e) => Finished(Natural, st.Then(e))
    case VarDecl(_, value) => Finished(Natural, if value.Some? then st.Then(value.value) else st)
    case Block(stmts) =>
      (match ExecSeq(world, kind, stmts, fuel, st, [], Size(s))
       case BlockTimeOut => TimeOut
       case BlockFinished(o, st1, stack) => RunDefers(world, kind, stack, fuel, o, st1, Size(s)))
    case If(cond, thn, els) =>
      if world(cond, st.history) != 0 then Exec(world, kind, thn, fuel, st.Then(cond))
      else if els.Some? then Exec(world, kind, els.value, fuel, st.Then(cond))
      else Finished(Natural, st.Then(cond))
    case While(_, _) => ExecWhile(world, kind, s, fuel, st)
    case For(init, _, _, _) =>
      if init.None? then ExecFor(world, kind, s, fuel, st)
      else (match Exec(world, kind, init.value, fuel, st)
            case Finished(Natural, st1) => ExecFor(world, kind, s, fuel, st1)
            case other => other)
    case Return(result) => Finished(Returned, SetSlot(world, kind, result, st))
    case Break => Finished(Broke, st)
    case Continue => Finished(Continued, st)
    case Defer(_) => Finished(Natural, st)
  }

  function ExecWhile(world: Oracle, kind: ReturnKind, s: Stmt, fuel: nat, st: State): Result
    requires s.While?
    decreases fuel, Size(s), 0
  {
    if fuel == 0 then TimeOut
    else if world(s.cond, st.history) == 0 then Finished(Natural, st.Then(s.cond))
    else
      match Exec(world, kind, s.body, fuel, st.Then(s.cond))
      case TimeOut => TimeOut
      case Finished(Returned, st1) => Finished(Returned, st1)
      case Finished(Broke, st1) => Finished(Natural, st1)
      case Finished(_, st1) => ExecWhile(world, kind, s, fuel - 1, st1)
  }

  function ExecFor(world: Oracle, kind: ReturnKind, s: Stmt, fuel: nat, st: State): Result
    requires s.For?
    decreases fuel, Size(s), 0
  {
    var st0 := if s.test.Some? then st.Then(s.test.value) else st;
    if fuel == 0 then TimeOut
    else if s.test.Some? && world(s.test.value, st.history) == 0 then Finished(Natural, st0)
    else
      match Exec(world, kind, s.body, fuel, st0)
      case TimeOut => TimeOut
      case Finished(Returned, st1) => Finished(Returned, st1)
      case Finished(Broke, st1) => Finished(Natural, st1)
      case Finished(_, st1) =>
        ExecFor(world, kind, s, fuel - 1, if s.post.Some? then st1.Then(s.post.value) else st1)
  }

  /** Runs a block's statements in order, pushing each deferred body it passes. */
  function ExecSeq(world: Oracle, kind: ReturnKind, stmts: seq<Stmt>, fuel: nat, st: State,
                   stack: seq<Stmt>, ghost bound: nat): (r: BlockResult)
    requires SizeSeq(stmts) < bound
    requires Below(stack, bound)
    ensures r.BlockFinished? ==> Below(r.stack, bound)
    decreases fuel, SizeSeq(stmts), 0
  {
    if stmts == [] then BlockFinished(Natural, st, stack)
    else if stmts[0].Defer? then
      assert Size(stmts[0].body) < Size(stmts[0]);
      ExecSeq(world, kind, stmts[1..], fuel, st, stack + [stmts[0].body], bound)
    else
      match Exec(world, kind, stmts[0], fuel, st)
      case TimeOut => BlockTimeOut
      case Finished(Natural, st1) => ExecSeq(world, kind, stmts[1..], fuel, st1, stack, bound)
      case Finished(o, st1) => BlockFinished(o, st1, stack)
  }

  /** The bodies that the `defer` statements of a list register, in order. */
  function Deferred(stmts: seq<Stmt>): seq<Stmt>
  {
    if stmts == [] then [] else (if stmts[0].Defer? then [stmts[0].body] else []) + Deferred(stmts[1..])
  }

  /**
   * The stack a block's statements leave holds exactly the bodies whose `defer` was reached,
   * in the order in which it was: all of them on the natural way out, else those before
   * the statement that left, which ran from state `at`.
   */
  lemma {:induction false} StackInOrder(world: Oracle, kind: ReturnKind, stmts: seq<Stmt>, fuel: nat, st: State,
                                        stack: seq<Stmt>, bound: nat) returns (n: nat, at: State)
    requires SizeSeq(stmts) < bound && Below(stack, bound)
    requires ExecSeq(world, kind, stmts, fuel, st, stack, bound).BlockFinished?
    ensures var r := ExecSeq(world, kind, stmts, fuel, st, stack, bound);
            && n <= |stmts| && r.stack == stack + Deferred(stmts[..n])
            && if r.outcome.Natural? then n == |stmts| && r.st == at
               else n < |stmts| && !stmts[n].Defer?
                    && Exec(world, kind, stmts[n], fuel, at) == Finished(r.outcome, r.st)
    decreases |stmts|
  {
    if stmts == [] {
      n, at := 0, st;
    } else if stmts[0].Defer? {
      n, at := StackInOrder(world, kind, stmts[1..], fuel, st, stack + [stmts[0].body], bound);
      n := n + 1;
      assert stmts[..n][1..] == stmts[1..][..n - 1];
    } else {
      var st1 := Exec(world, kind, stmts[0], fuel, st).st;
      if Exec(world, kind, stmts[0], fuel, st).outcome.Natural? {
        n, at := StackInOrder(world, kind, stmts[1..], fuel, st1, stack, bound);
        n := n + 1;
        assert stmts[..n][1..] == stmts[1..][..n - 1];
      } else {
        n, at := 0, st;
      }
    }
  }

  /** Pops and runs the deferred bodies; an abrupt body overrides the pending exit. */
  function RunDefers(world: Oracle, kind: ReturnKind, stack: seq<Stmt>, fuel: nat, pending: Outcome,
                     st: State, ghost bound: nat): Result
    requires Below(stack, bound)
    decreases fuel, bound, 0, |stack|
  {
    if stack == [] then Finished(pending, st)
    else
      match Exec(world, kind, stack[|stack| - 1], fuel, st)
      case TimeOut => TimeOut
      case Finished(o, st1) =>
        RunDefers(world, kind, stack[..|stack| - 1], fuel, Override(pending, o), st1, bound)
  }

  /** What the caller of a function observes. */
  datatype Observed = Observed(st: State, value: Option<int>)

  function Observe(kind: ReturnKind, o: Outcome, st: State): Observed
  {
    Observed(st, if !kind.ReturnsDirect? then None else if o.Returned? then Some(st.slot) else Some(0))
  }
}
