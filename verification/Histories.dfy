/**
 * What both structured meanings do to the history of actions: they only extend it, fuel
 * beyond what is needed changes nothing, and the text of a statement often tells the
 * first action it performs.
 */
module Histories {
  import opened Options
  import opened StatementSemantics
  import opened EmittedSemantics
  import opened LoweringCorrect

  // ---------- Histories only grow ----------

  lemma {:induction false} ExecGrows(world: World, kind: ReturnKind, s: Stmt, fuel: nat, st: State)
    ensures var r := Exec(world, kind, s, fuel, st); r.Finished? ==> st.history <= r.st.history
    decreases fuel, Size(s), 1
  {
    match s
    case Block(stmts) =>
      ExecSeqGrows(world, kind, stmts, fuel, st, [], Size(s));
      var res := ExecSeq(world, kind, stmts, fuel, st, [], Size(s));
      if res.BlockFinished? {
        RunDefersGrows(world, kind, res.stack, fuel, res.outcome, res.st, Size(s));
      }
    case If(cond, thn, els) =>
      if world(cond, st.history) != 0 {
        ExecGrows(world, kind, thn, fuel, st.Then(cond));
      } else if els.Some? {
        ExecGrows(world, kind, els.value, fuel, st.Then(cond));
      }
    case While(_, _) => ExecWhileGrows(world, kind, s, fuel, st);
    case For(init, _, _, _) =>
      if init.None? {
        ExecForGrows(world, kind, s, fuel, st);
      } else {
        ExecGrows(world, kind, init.value, fuel, st);
        var r := Exec(world, kind, init.value, fuel, st);
        if r.Finished? {
          ExecForGrows(world, kind, s, fuel, r.st);
        }
      }
    case _ =>
  }

  lemma {:induction false} ExecWhileGrows(world: World, kind: ReturnKind, s: Stmt, fuel: nat, st: State)
    requires s.While?
    ensures var r := ExecWhile(world, kind, s, fuel, st); r.Finished? ==> st.history + [s.cond] <= r.st.history
    decreases fuel, Size(s), 0
  {
    if fuel > 0 && world(s.cond, st.history) != 0 {
      ExecGrows(world, kind, s.body, fuel, st.Then(s.cond));
      var r := Exec(world, kind, s.body, fuel, st.Then(s.cond));
      if r.Finished? {
        ExecWhileGrows(world, kind, s, fuel - 1, r.st);
      }
    }
  }

  lemma {:induction false} ExecForGrows(world: World, kind: ReturnKind, s: Stmt, fuel: nat, st: State)
    requires s.For?
    ensures var r := ExecFor(world, kind, s, fuel, st);
            r.Finished? ==> AfterOptional(s.test, st).history <= r.st.history
    decreases fuel, Size(s), 0
  {
    var st0 := AfterOptional(s.test, st);
    if fuel > 0 {
      ExecGrows(world, kind, s.body, fuel, st0);
      var r := Exec(world, kind, s.body, fuel, st0);
      if r.Finished? {
        ExecForGrows(world, kind, s, fuel - 1, AfterOptional(s.post, r.st));
      }
    }
  }

  lemma {:induction false} ExecSeqGrows(world: World, kind: ReturnKind, stmts: seq<Stmt>, fuel: nat, st: State,
                                        stack: seq<Stmt>, bound: nat)
    requires SizeSeq(stmts) < bound && Below(stack, bound)
    ensures var r := ExecSeq(world, kind, stmts, fuel, st, stack, bound);
            r.BlockFinished? ==> st.history <= r.st.history
    decreases fuel, SizeSeq(stmts), 0
  {
    if stmts != [] {
      if stmts[0].Defer? {
        ExecSeqGrows(world, kind, stmts[1..], fuel, st, stack + [stmts[0].body], bound);
      } else {
        ExecGrows(world, kind, stmts[0], fuel, st);
        var r := Exec(world, kind, stmts[0], fuel, st);
        if r.Finished? && r.outcome.Natural? {
          ExecSeqGrows(world, kind, stmts[1..], fuel, r.st, stack, bound);
        }
      }
    }
  }

  lemma {:induction false} RunDefersGrows(world: World, kind: ReturnKind, stack: seq<Stmt>, fuel: nat, pending: Outcome,
                                          st: State, bound: nat)
    requires Below(stack, bound)
    ensures var r := RunDefers(world, kind, stack, fuel, pending, st, bound); r.Finished? ==> st.history <= r.st.history
    decreases fuel, bound, 0, |stack|
  {
    if stack != [] {
      var last := stack[|stack| - 1];
      ExecGrows(world, kind, last, fuel, st);
      var r := Exec(world, kind, last, fuel, st);
      if r.Finished? {
        RunDefersGrows(world, kind, stack[..|stack| - 1], fuel, Override(pending, r.outcome), r.st, bound);
      }
    }
  }

  lemma {:induction false} EmittedGrows(world: World, kind: ReturnKind, s: Stmt, clean: bool, inLoop: bool, fuel: nat,
                                        st: State, dest: int)
    ensures var r := Emitted(world, kind, s, clean, inLoop, fuel, st, dest);
            r.CodeFinished? ==> st.history <= r.st.history
    decreases fuel, Size(s), 1
  {
    match s
    case Block(_) => EmittedBlockExtends(world, kind, s, clean, inLoop, fuel, st, dest);
    case If(cond, thn, els) =>
      if world(cond, st.history) != 0 {
        EmittedGrows(world, kind, thn, clean, inLoop, fuel, st.Then(cond), dest);
      } else if els.Some? {
        EmittedGrows(world, kind, els.value, clean, inLoop, fuel, st.Then(cond), dest);
      }
    case While(_, _) => EmittedWhileGrows(world, kind, s, clean, fuel, st, dest);
    case For(_, _, _, _) => EmittedLoopExtends(world, kind, s, clean, inLoop, fuel, st, dest);
    case _ =>
  }

  lemma {:induction false} EmittedBlockExtends(world: World, kind: ReturnKind, s: Stmt, clean: bool, inLoop: bool,
                                               fuel: nat, st: State, dest: int)
    requires s.Block?
    ensures var r := Emitted(world, kind, s, clean, inLoop, fuel, st, dest);
            r.CodeFinished? ==> st.history <= r.st.history
    decreases fuel, Size(s), 0
  {
    EmittedSeqGrows(world, kind, s.stmts, clean, inLoop, fuel, st, dest);
    var res := EmittedSeq(world, kind, s.stmts, clean, inLoop, fuel, st, dest);
    if res.CodeBlockFinished? && res.pushed != [] {
      EmittedChainGrows(world, kind, res.pushed, inLoop, fuel, res.st, Code(res.outcome), Size(s));
    }
  }

  lemma {:induction false} EmittedLoopExtends(world: World, kind: ReturnKind, s: Stmt, clean: bool, inLoop: bool,
                                              fuel: nat, st: State, dest: int)
    requires s.For?
    ensures var r := Emitted(world, kind, s, clean, inLoop, fuel, st, dest);
            r.CodeFinished? ==> st.history <= r.st.history
    decreases fuel, Size(s), 0, 1
  {
    if s.init.None? {
      EmittedForGrows(world, kind, s, clean, fuel, st, dest);
    } else {
      EmittedGrows(world, kind, s.init.value, clean, inLoop, fuel, st, dest);
      var r := Emitted(world, kind, s.init.value, clean, inLoop, fuel, st, dest);
      if r.CodeFinished? {
        EmittedForGrows(world, kind, s, clean && !Pushes(s.init.value), fuel, r.st, r.dest);
      }
    }
  }

  lemma {:induction false} EmittedWhileGrows(world: World, kind: ReturnKind, s: Stmt, clean: bool, fuel: nat, st: State,
                                             dest: int)
    requires s.While?
    ensures var r := EmittedWhile(world, kind, s, clean, fuel, st, dest);
            r.CodeFinished? ==> st.history + [s.cond] <= r.st.history
    decreases fuel, Size(s), 0
  {
    if fuel > 0 && world(s.cond, st.history) != 0 {
      EmittedGrows(world, kind, s.body, clean, true, fuel, st.Then(s.cond), dest);
      var r := Emitted(world, kind, s.body, clean, true, fuel, st.Then(s.cond), dest);
      if r.CodeFinished? && Repeats(clean, r.outcome) {
        EmittedWhileGrows(world, kind, s, clean, fuel - 1, r.st, r.dest);
      }
    }
  }

  lemma {:induction false} EmittedForGrows(world: World, kind: ReturnKind, s: Stmt, clean: bool, fuel: nat, st: State,
                                           dest: int)
    requires s.For?
    ensures var r := EmittedFor(world, kind, s, clean, fuel, st, dest);
            r.CodeFinished? ==> AfterOptional(s.test, st).history <= r.st.history
    decreases fuel, Size(s), 0, 0
  {
    var st0 := AfterOptional(s.test, st);
    if fuel > 0 {
      EmittedGrows(world, kind, s.body, clean, true, fuel, st0, dest);
      var r := Emitted(world, kind, s.body, clean, true, fuel, st0, dest);
      if r.CodeFinished? && Repeats(clean, r.outcome) {
        EmittedForGrows(world, kind, s, clean, fuel - 1, AfterOptional(s.post, r.st), r.dest);
      }
    }
  }

  lemma {:induction false} EmittedSeqGrows(world: World, kind: ReturnKind, stmts: seq<Stmt>, clean: bool, inLoop: bool,
                                           fuel: nat, st: State, dest: int)
    ensures var r := EmittedSeq(world, kind, stmts, clean, inLoop, fuel, st, dest);
            r.CodeBlockFinished? ==> st.history <= r.st.history
    decreases fuel, SizeSeq(stmts), 0
  {
    if stmts != [] {
      EmittedGrows(world, kind, stmts[0], clean, inLoop, fuel, st, dest);
      var r := Emitted(world, kind, stmts[0], clean, inLoop, fuel, st, dest);
      if Falls(r) {
        EmittedSeqGrows(world, kind, stmts[1..], clean && !Pushes(stmts[0]), inLoop, fuel, r.st, r.dest);
      }
    }
  }

  lemma {:induction false} EmittedChainGrows(world: World, kind: ReturnKind, bodies: seq<Stmt>, inLoop: bool, fuel: nat,
                                             st: State, dest: int, bound: nat)
    requires Below(bodies, bound)
    ensures var r := EmittedChain(world, kind, bodies, inLoop, fuel, st, dest, bound);
            r.CodeFinished? ==> st.history <= r.st.history
    decreases fuel, bound, 0, |bodies|
  {
    if bodies != [] {
      var last := bodies[|bodies| - 1];
      EmittedGrows(world, kind, last, false, inLoop, fuel, st, dest);
      var r := Emitted(world, kind, last, false, inLoop, fuel, st, dest);
      if r.CodeFinished? {
        EmittedChainGrows(world, kind, bodies[..|bodies| - 1], inLoop, fuel, r.st, r.dest, bound);
      }
    }
  }

  // ---------- More fuel changes nothing that has finished ----------

  lemma {:induction false} ExecMore(world: World, kind: ReturnKind, s: Stmt, fuel: nat, more: nat, st: State)
    requires fuel <= more && Exec(world, kind, s, fuel, st).Finished?
    ensures Exec(world, kind, s, more, st) == Exec(world, kind, s, fuel, st)
    decreases fuel, Size(s), 1
  {
    match s
    case Block(stmts) =>
      ExecSeqMore(world, kind, stmts, fuel, more, st, [], Size(s));
      var res := ExecSeq(world, kind, stmts, fuel, st, [], Size(s));
      RunDefersMore(world, kind, res.stack, fuel, more, res.outcome, res.st, Size(s));
    case If(cond, thn, els) =>
      if world(cond, st.history) != 0 {
        ExecMore(world, kind, thn, fuel, more, st.Then(cond));
      } else if els.Some? {
        ExecMore(world, kind, els.value, fuel, more, st.Then(cond));
      }
    case While(_, _) => ExecWhileMore(world, kind, s, fuel, more, st);
    case For(init, _, _, _) =>
      if init.None? {
        ExecForMore(world, kind, s, fuel, more, st);
      } else {
        ExecMore(world, kind, init.value, fuel, more, st);
        var r := Exec(world, kind, init.value, fuel, st);
        if r.outcome.Natural? {
          ExecForMore(world, kind, s, fuel, more, r.st);
        }
      }
    case _ =>
  }

  lemma {:induction false} ExecWhileMore(world: World, kind: ReturnKind, s: Stmt, fuel: nat, more: nat, st: State)
    requires s.While? && fuel <= more && ExecWhile(world, kind, s, fuel, st).Finished?
    ensures ExecWhile(world, kind, s, more, st) == ExecWhile(world, kind, s, fuel, st)
    decreases fuel, Size(s), 0
  {
    if world(s.cond, st.history) != 0 {
      ExecMore(world, kind, s.body, fuel, more, st.Then(s.cond));
      var r := Exec(world, kind, s.body, fuel, st.Then(s.cond));
      if r.outcome.Natural? || r.outcome.Continued? {
        ExecWhileMore(world, kind, s, fuel - 1, more - 1, r.st);
      }
    }
  }

  lemma {:induction false} ExecForMore(world: World, kind: ReturnKind, s: Stmt, fuel: nat, more: nat, st: State)
    requires s.For? && fuel <= more && ExecFor(world, kind, s, fuel, st).Finished?
    ensures ExecFor(world, kind, s, more, st) == ExecFor(world, kind, s, fuel, st)
    decreases fuel, Size(s), 0
  {
    if s.test.None? || world(s.test.value, st.history) != 0 {
      var st0 := AfterOptional(s.test, st);
      ExecMore(world, kind, s.body, fuel, more, st0);
      var r := Exec(world, kind, s.body, fuel, st0);
      if r.outcome.Natural? || r.outcome.Continued? {
        ExecForMore(world, kind, s, fuel - 1, more - 1, AfterOptional(s.post, r.st));
      }
    }
  }

  lemma {:induction false} ExecSeqMore(world: World, kind: ReturnKind, stmts: seq<Stmt>, fuel: nat, more: nat,
                                       st: State, stack: seq<Stmt>, bound: nat)
    requires SizeSeq(stmts) < bound && Below(stack, bound) && fuel <= more
    requires ExecSeq(world, kind, stmts, fuel, st, stack, bound).BlockFinished?
    ensures ExecSeq(world, kind, stmts, more, st, stack, bound) == ExecSeq(world, kind, stmts, fuel, st, stack, bound)
    decreases fuel, SizeSeq(stmts), 0
  {
    if stmts != [] {
      if stmts[0].Defer? {
        ExecSeqMore(world, kind, stmts[1..], fuel, more, st, stack + [stmts[0].body], bound);
      } else {
        ExecMore(world, kind, stmts[0], fuel, more, st);
        var r := Exec(world, kind, stmts[0], fuel, st);
        if r.outcome.Natural? {
          ExecSeqMore(world, kind, stmts[1..], fuel, more, r.st, stack, bound);
        }
      }
    }
  }

  lemma {:induction false} RunDefersMore(world: World, kind: ReturnKind, stack: seq<Stmt>, fuel: nat, more: nat,
                                         pending: Outcome, st: State, bound: nat)
    requires Below(stack, bound) && fuel <= more && RunDefers(world, kind, stack, fuel, pending, st, bound).Finished?
    ensures RunDefers(world, kind, stack, more, pending, st, bound)
            == RunDefers(world, kind, stack, fuel, pending, st, bound)
    decreases fuel, bound, 0, |stack|
  {
    if stack != [] {
      var last := stack[|stack| - 1];
      ExecMore(world, kind, last, fuel, more, st);
      var r := Exec(world, kind, last, fuel, st);
      RunDefersMore(world, kind, stack[..|stack| - 1], fuel, more, Override(pending, r.outcome), r.st, bound);
    }
  }

  /** How much room is asked for the stack of a block does not matter. */
  lemma {:induction false} BoundIsIdle(world: World, kind: ReturnKind, stmts: seq<Stmt>, fuel: nat, st: State,
                                       stack: seq<Stmt>, b1: nat, b2: nat)
    requires SizeSeq(stmts) < b1 && Below(stack, b1) && SizeSeq(stmts) < b2 && Below(stack, b2)
    ensures ExecSeq(world, kind, stmts, fuel, st, stack, b1) == ExecSeq(world, kind, stmts, fuel, st, stack, b2)
    decreases |stmts|
  {
    if stmts != [] {
      if stmts[0].Defer? {
        BoundIsIdle(world, kind, stmts[1..], fuel, st, stack + [stmts[0].body], b1, b2);
      } else {
        var r := Exec(world, kind, stmts[0], fuel, st);
        if r.Finished? {
          BoundIsIdle(world, kind, stmts[1..], fuel, r.st, stack, b1, b2);
        }
      }
    }
  }

  // ---------- The first action of a statement ----------

  /** What is known of it from the text: the action, that there is none and the statement falls through, or nothing. */
  datatype Start = Acts(e: Expr) | Passes | Unsure
  {
    function Else(later: Start): Start { if Passes? then later else this }
    function IfAny(): Start { if Acts? then this else Unsure }
  }

  function FirstOf(e: Option<Expr>): Start { if e.Some? then Acts(e.value) else Passes }

  function First(s: Stmt): Start
    decreases s, 1
  {
    match s
    case ExprStmt(e) => Acts(e)
    case VarDecl(_, value) => FirstOf(value)
    case Block(stmts) => if NonePushes(stmts) then FirstSeq(stmts) else FirstSeq(stmts).IfAny()
    case If(cond, _, _) => Acts(cond)
    case While(cond, _) => Acts(cond)
    case For(init, test, _, body) =>
      (if init.Some? then First(init.value) else Passes).Else(FirstOf(test)).Else(First(body)).IfAny()
    case Return(result) => FirstOf(result).IfAny()
    case Break => Unsure
    case Continue => Unsure
    case Defer(_) => Passes
  }

  function FirstSeq(stmts: seq<Stmt>): Start
    decreases stmts, 0
  {
    if stmts == [] then Passes else First(stmts[0]).Else(FirstSeq(stmts[1..]))
  }

  predicate NonePushes(stmts: seq<Stmt>)
  {
    stmts == [] || (!Pushes(stmts[0]) && NonePushes(stmts[1..]))
  }

  lemma {:induction false} FirstExec(world: World, kind: ReturnKind, s: Stmt, fuel: nat, st: State)
    ensures var r := Exec(world, kind, s, fuel, st);
            match First(s)
            case Acts(a) => r.Finished? ==> st.history + [a] <= r.st.history
            case Passes => r == Finished(Natural, st)
            case Unsure => true
    decreases fuel, Size(s), 1
  {
    match s
    case Block(stmts) => FirstExecBlock(world, kind, s, fuel, st);
    case If(cond, thn, els) =>
      if world(cond, st.history) != 0 {
        ExecGrows(world, kind, thn, fuel, st.Then(cond));
      } else if els.Some? {
        ExecGrows(world, kind, els.value, fuel, st.Then(cond));
      }
    case While(_, _) => ExecWhileGrows(world, kind, s, fuel, st);
    case For(init, _, _, _) =>
      if init.None? {
        FirstExecFor(world, kind, s, fuel, st);
      } else {
        FirstExec(world, kind, init.value, fuel, st);
        var r := Exec(world, kind, init.value, fuel, st);
        if r.Finished? {
          ExecForGrows(world, kind, s, fuel, r.st);
          if r.st == st {
            FirstExecFor(world, kind, s, fuel, st);
          }
        }
      }
    case _ =>
  }

  /** A `for` from its test. */
  lemma {:induction false} FirstExecFor(world: World, kind: ReturnKind, s: Stmt, fuel: nat, st: State)
    requires s.For?
    ensures var r, first := ExecFor(world, kind, s, fuel, st), FirstOf(s.test).Else(First(s.body));
            first.Acts? && r.Finished? ==> st.history + [first.e] <= r.st.history
    decreases fuel, Size(s), 0
  {
    ExecForGrows(world, kind, s, fuel, st);
    if s.test.None? && fuel > 0 {
      FirstExec(world, kind, s.body, fuel, st);
      var r := Exec(world, kind, s.body, fuel, st);
      if r.Finished? {
        ExecForGrows(world, kind, s, fuel - 1, AfterOptional(s.post, r.st));
      }
    }
  }

  lemma {:induction false} FirstExecBlock(world: World, kind: ReturnKind, s: Stmt, fuel: nat, st: State)
    requires s.Block?
    ensures var r := Exec(world, kind, s, fuel, st);
            match First(s)
            case Acts(a) => r.Finished? ==> st.history + [a] <= r.st.history
            case Passes => r == Finished(Natural, st)
            case Unsure => true
    decreases fuel, Size(s), 0
  {
    FirstExecSeq(world, kind, s.stmts, fuel, st, [], Size(s));
    var res := ExecSeq(world, kind, s.stmts, fuel, st, [], Size(s));
    if res.BlockFinished? {
      RunDefersGrows(world, kind, res.stack, fuel, res.outcome, res.st, Size(s));
    }
  }

  lemma {:induction false} FirstExecSeq(world: World, kind: ReturnKind, stmts: seq<Stmt>, fuel: nat, st: State,
                                        stack: seq<Stmt>, bound: nat)
    requires SizeSeq(stmts) < bound && Below(stack, bound)
    ensures var r := ExecSeq(world, kind, stmts, fuel, st, stack, bound);
            match FirstSeq(stmts)
            case Acts(a) => r.BlockFinished? ==> st.history + [a] <= r.st.history
            case Passes => r.BlockFinished? && r.outcome.Natural? && r.st == st
                && (NonePushes(stmts) ==> r.stack == stack)
            case Unsure => true
    decreases fuel, SizeSeq(stmts), 0
  {
    if stmts != [] {
      if stmts[0].Defer? {
        FirstExecSeq(world, kind, stmts[1..], fuel, st, stack + [stmts[0].body], bound);
      } else {
        FirstExec(world, kind, stmts[0], fuel, st);
        var r := Exec(world, kind, stmts[0], fuel, st);
        if r.Finished? && r.outcome.Natural? {
          ExecSeqGrows(world, kind, stmts[1..], fuel, r.st, stack, bound);
          FirstExecSeq(world, kind, stmts[1..], fuel, r.st, stack, bound);
        }
      }
    }
  }

  lemma {:induction false} FirstEmitted(world: World, kind: ReturnKind, s: Stmt, clean: bool, inLoop: bool, fuel: nat,
                                        st: State, dest: int)
    ensures var r := Emitted(world, kind, s, clean, inLoop, fuel, st, dest);
            match First(s)
            case Acts(a) => r.CodeFinished? ==> st.history + [a] <= r.st.history
            case Passes => r == CodeFinished(Natural, st, dest)
            case Unsure => true
    decreases fuel, Size(s), 1
  {
    match s
    case Block(stmts) => FirstEmittedBlock(world, kind, s, clean, inLoop, fuel, st, dest);
    case If(cond, thn, els) =>
      if world(cond, st.history) != 0 {
        EmittedGrows(world, kind, thn, clean, inLoop, fuel, st.Then(cond), dest);
      } else if els.Some? {
        EmittedGrows(world, kind, els.value, clean, inLoop, fuel, st.Then(cond), dest);
      }
    case While(_, _) => EmittedWhileGrows(world, kind, s, clean, fuel, st, dest);
    case For(init, _, _, _) =>
      if init.None? {
        FirstEmittedFor(world, kind, s, clean, fuel, st, dest);
      } else {
        FirstEmitted(world, kind, init.value, clean, inLoop, fuel, st, dest);
        var r := Emitted(world, kind, init.value, clean, inLoop, fuel, st, dest);
        if r.CodeFinished? {
          var clean1 := clean && !Pushes(init.value);
          EmittedForGrows(world, kind, s, clean1, fuel, r.st, r.dest);
          if r.st == st {
            FirstEmittedFor(world, kind, s, clean1, fuel, st, r.dest);
          }
        }
      }
    case _ =>
  }

  lemma {:induction false} FirstEmittedFor(world: World, kind: ReturnKind, s: Stmt, clean: bool, fuel: nat, st: State,
                                           dest: int)
    requires s.For?
    ensures var r, first := EmittedFor(world, kind, s, clean, fuel, st, dest), FirstOf(s.test).Else(First(s.body));
            first.Acts? && r.CodeFinished? ==> st.history + [first.e] <= r.st.history
    decreases fuel, Size(s), 0
  {
    EmittedForGrows(world, kind, s, clean, fuel, st, dest);
    if s.test.None? && fuel > 0 {
      FirstEmitted(world, kind, s.body, clean, true, fuel, st, dest);
      var r := Emitted(world, kind, s.body, clean, true, fuel, st, dest);
      if r.CodeFinished? && Repeats(clean, r.outcome) {
        EmittedForGrows(world, kind, s, clean, fuel - 1, AfterOptional(s.post, r.st), r.dest);
      }
    }
  }

  lemma {:induction false} FirstEmittedBlock(world: World, kind: ReturnKind, s: Stmt, clean: bool, inLoop: bool,
                                             fuel: nat, st: State, dest: int)
    requires s.Block?
    ensures var r := Emitted(world, kind, s, clean, inLoop, fuel, st, dest);
            match First(s)
            case Acts(a) => r.CodeFinished? ==> st.history + [a] <= r.st.history
            case Passes => r == CodeFinished(Natural, st, dest)
            case Unsure => true
    decreases fuel, Size(s), 0
  {
    FirstEmittedSeq(world, kind, s.stmts, clean, inLoop, fuel, st, dest);
    BlockGoesOn(world, kind, s, clean, inLoop, fuel, st, dest);
    assert First(s) == FirstSeq(s.stmts) || First(s) == FirstSeq(s.stmts).IfAny();
  }

  /** What a block has done is what its statements have, and what the actions they registered add. */
  lemma {:induction false} BlockGoesOn(world: World, kind: ReturnKind, s: Stmt, clean: bool, inLoop: bool, fuel: nat,
                                       st: State, dest: int)
    requires s.Block?
    ensures var r, res := Emitted(world, kind, s, clean, inLoop, fuel, st, dest),
                          EmittedSeq(world, kind, s.stmts, clean, inLoop, fuel, st, dest);
            && (r.CodeFinished? ==> res.CodeBlockFinished? && res.st.history <= r.st.history)
            && (res.CodeBlockFinished? && res.pushed == [] ==> r == CodeFinished(res.outcome, res.st, res.dest))
  {
    var res := EmittedSeq(world, kind, s.stmts, clean, inLoop, fuel, st, dest);
    if res.CodeBlockFinished? && res.pushed != [] {
      EmittedChainGrows(world, kind, res.pushed, inLoop, fuel, res.st, Code(res.outcome), Size(s));
    }
  }

  lemma {:induction false} FirstEmittedSeq(world: World, kind: ReturnKind, stmts: seq<Stmt>, clean: bool, inLoop: bool,
                                           fuel: nat, st: State, dest: int)
    ensures var r := EmittedSeq(world, kind, stmts, clean, inLoop, fuel, st, dest);
            match FirstSeq(stmts)
            case Acts(a) => r.CodeBlockFinished? ==> st.history + [a] <= r.st.history
            case Passes => r.CodeBlockFinished? && r.outcome.Natural? && r.st == st && r.dest == dest
                           && (NonePushes(stmts) ==> r.pushed == [])
            case Unsure => true
    decreases fuel, SizeSeq(stmts), 0
  {
    if stmts != [] {
      FirstEmitted(world, kind, stmts[0], clean, inLoop, fuel, st, dest);
      var r := Emitted(world, kind, stmts[0], clean, inLoop, fuel, st, dest);
      if Falls(r) {
        var clean1 := clean && !Pushes(stmts[0]);
        EmittedSeqGrows(world, kind, stmts[1..], clean1, inLoop, fuel, r.st, r.dest);
        FirstEmittedSeq(world, kind, stmts[1..], clean1, inLoop, fuel, r.st, r.dest);
      }
    }
  }
}
