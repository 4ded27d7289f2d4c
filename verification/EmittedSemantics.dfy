/**
 * What the emitted code does, told along the structure of the source: the meaning
 * that the lowering really gives to every statement.
 *
 * It differs from the manual's in three places.  The code keeps the pending exit of a
 * block in one variable, exit_dest, which a natural exit inside a deferred body
 * overwrites.  A jump out of a loop goes to the active cleanup even if that cleanup
 * belongs to a block around the loop, so that the loop does not notice.  And an action
 * registered by the initialiser of a `for` belongs to the block around the `for`.
 */
module EmittedSemantics {
  import opened Options
  import opened StatementSemantics

  /** The values of exit_dest. */
  function Code(o: Outcome): int
  {
    match o
    case Returned => 0
    case Broke => 1
    case Continued => 2
    case Natural => 3
  }

  /** An abrupt outcome has left for the active cleanup, or straight for its target if there is none. */
  datatype CodeResult = CodeTimeOut | CodeFinished(outcome: Outcome, st: State, dest: int)

  /** `pushed`: the bodies registered on the way, in order. */
  datatype CodeBlockResult =
    CodeBlockTimeOut | CodeBlockFinished(outcome: Outcome, st: State, dest: int, pushed: seq<Stmt>)

  function AfterOptional(e: Option<Expr>, st: State): State
  {
    if e.Some? then st.Then(e.value) else st
  }

  /** The switch on exit_dest behind a chain of deferred bodies. */
  function Dispatch(inLoop: bool, res: CodeResult): (r: CodeResult)
    ensures r.CodeFinished? && !r.outcome.Natural? ==> r.dest == Code(r.outcome)
  {
    match res
    case CodeTimeOut => CodeTimeOut
    case CodeFinished(_, st, dest) =>
      if dest == Code(Returned) then CodeFinished(Returned, st, dest)
      else if dest == Code(Broke) && inLoop then CodeFinished(Broke, st, dest)
      else if dest == Code(Continued) && inLoop then CodeFinished(Continued, st, dest)
      else CodeFinished(Natural, st, dest)
  }

  /**
   * Runs `s` with exit_dest holding `dest`.  `clean`: no cleanup is active.  `inLoop`:
   * there is a loop around, cleanup or not.
   */
  function Emitted(world: Oracle, kind: ReturnKind, s: Stmt, clean: bool, inLoop: bool, fuel: nat, st: State,
                   dest: int):
    (r: CodeResult)
    ensures r.CodeFinished? && !r.outcome.Natural? ==> r.dest == Code(r.outcome)
    decreases fuel, Size(s), 1
  {
    match s
    case ExprStmt(e) => CodeFinished(Natural, st.Then(e), dest)
    case VarDecl(_, value) => CodeFinished(Natural, AfterOptional(value, st), dest)
    case Block(stmts) =>
      (match EmittedSeq(world, kind, stmts, clean, inLoop, fuel, st, dest)
       case CodeBlockTimeOut => CodeTimeOut
       case CodeBlockFinished(o, st1, dest1, pushed) =>
         if pushed == [] then CodeFinished(o, st1, dest1)
         else Dispatch(inLoop, EmittedChain(world, kind, pushed, inLoop, fuel, st1, Code(o), Size(s))))
    case If(cond, thn, els) =>
      if world(cond, st.history) != 0 then Emitted(world, kind, thn, clean, inLoop, fuel, st.Then(cond), dest)
      else if els.Some? then Emitted(world, kind, els.value, clean, inLoop, fuel, st.Then(cond), dest)
      else CodeFinished(Natural, st.Then(cond), dest)
    case While(_, _) => EmittedWhile(world, kind, s, clean, fuel, st, dest)
    case For(init, _, _, _) =>
      if init.None? then EmittedFor(world, kind, s, clean, fuel, st, dest)
      else (match Emitted(world, kind, init.value, clean, inLoop, fuel, st, dest)
            case CodeFinished(Natural, st1, dest1) =>
              EmittedFor(world, kind, s, clean && !Pushes(init.value), fuel, st1, dest1)
            case other => other)
    case Return(result) => CodeFinished(Returned, SetSlot(world, kind, result, st), Code(Returned))
    case Break => if inLoop then CodeFinished(Broke, st, Code(Broke)) else CodeFinished(Natural, st, dest)
    case Continue => if inLoop then CodeFinished(Continued, st, Code(Continued)) else CodeFinished(Natural, st, dest)
    case Defer(_) => CodeFinished(Natural, st, dest)
  }

  /** What a round of a loop comes to; under an active cleanup every jump leaves the loop for that cleanup. */
  predicate Repeats(clean: bool, o: Outcome) { o.Natural? || (clean && o.Continued?) }

  function LeaveLoop(clean: bool, res: CodeResult): (r: CodeResult)
    requires res.CodeFinished? && !res.outcome.Natural? ==> res.dest == Code(res.outcome)
    ensures r.CodeFinished? && !r.outcome.Natural? ==> r.dest == Code(r.outcome)
  {
    if res.CodeFinished? && clean && res.outcome.Broke? then res.(outcome := Natural) else res
  }

  function EmittedWhile(world: Oracle, kind: ReturnKind, s: Stmt, clean: bool, fuel: nat, st: State, dest: int):
    (r: CodeResult)
    requires s.While?
    ensures r.CodeFinished? && !r.outcome.Natural? ==> r.dest == Code(r.outcome)
    decreases fuel, Size(s), 0
  {
    if fuel == 0 then CodeTimeOut
    else if world(s.cond, st.history) == 0 then CodeFinished(Natural, st.Then(s.cond), dest)
    else
      var res := Emitted(world, kind, s.body, clean, true, fuel, st.Then(s.cond), dest);
      if res.CodeFinished? && Repeats(clean, res.outcome)
          then EmittedWhile(world, kind, s, clean, fuel - 1, res.st, res.dest)
      else LeaveLoop(clean, res)
  }

  function EmittedFor(world: Oracle, kind: ReturnKind, s: Stmt, clean: bool, fuel: nat, st: State, dest: int):
    (r: CodeResult)
    requires s.For?
    ensures r.CodeFinished? && !r.outcome.Natural? ==> r.dest == Code(r.outcome)
    decreases fuel, Size(s), 0
  {
    var st0 := AfterOptional(s.test, st);
    if fuel == 0 then CodeTimeOut
    else if s.test.Some? && world(s.test.value, st.history) == 0 then CodeFinished(Natural, st0, dest)
    else EmittedRound(world, kind, s, clean, fuel, st0, dest)
  }

  /** From the start of a `for`'s body. */
  function EmittedRound(world: Oracle, kind: ReturnKind, s: Stmt, clean: bool, fuel: nat, st: State, dest: int):
    (r: CodeResult)
    requires s.For? && fuel > 0
    ensures r.CodeFinished? && !r.outcome.Natural? ==> r.dest == Code(r.outcome)
    decreases fuel, Size(s.body), 2
  {
    var res := Emitted(world, kind, s.body, clean, true, fuel, st, dest);
    if res.CodeFinished? && Repeats(clean, res.outcome) then
      EmittedFor(world, kind, s, clean, fuel - 1, AfterOptional(s.post, res.st), res.dest)
    else LeaveLoop(clean, res)
  }

  /** The statements of a block, up to the first that leaves it. */
  function EmittedSeq(world: Oracle, kind: ReturnKind, stmts: seq<Stmt>, clean: bool, inLoop: bool, fuel: nat,
                      st: State, dest: int): (r: CodeBlockResult)
    ensures r.CodeBlockFinished? && !r.outcome.Natural? ==> r.dest == Code(r.outcome)
    ensures r.CodeBlockFinished? ==> Below(r.pushed, SizeSeq(stmts) + 1)
    decreases fuel, SizeSeq(stmts), 0
  {
    if stmts == [] then CodeBlockFinished(Natural, st, dest, [])
    else
      match Emitted(world, kind, stmts[0], clean, inLoop, fuel, st, dest)
      case CodeTimeOut => CodeBlockTimeOut
      case CodeFinished(o, st1, dest1) =>
        if !o.Natural? then CodeBlockFinished(o, st1, dest1, PushedBy(stmts[0]))
        else
          match EmittedSeq(world, kind, stmts[1..], clean && !Pushes(stmts[0]), inLoop, fuel, st1, dest1)
          case CodeBlockTimeOut => CodeBlockTimeOut
          case CodeBlockFinished(o2, st2, dest2, pushed) =>
            CodeBlockFinished(o2, st2, dest2, PushedBy(stmts[0]) + pushed)
  }

  /** The chain of deferred bodies, last one first; whatever a body comes to, the next one follows. */
  function EmittedChain(world: Oracle, kind: ReturnKind, bodies: seq<Stmt>, inLoop: bool, fuel: nat, st: State,
                        dest: int, ghost bound: nat): CodeResult
    requires Below(bodies, bound)
    decreases fuel, bound, 0, |bodies|
  {
    if bodies == [] then CodeFinished(Natural, st, dest)
    else
      match Emitted(world, kind, bodies[|bodies| - 1], false, inLoop, fuel, st, dest)
      case CodeTimeOut => CodeTimeOut
      case CodeFinished(_, st1, dest1) =>
        EmittedChain(world, kind, bodies[..|bodies| - 1], inLoop, fuel, st1, dest1, bound)
  }
}
