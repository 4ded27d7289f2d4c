/**
 * A jump out of a loop under an active cleanup, anywhere in a function: the code goes to
 * the cleanup, the manual on behind the loop or on with it.  Where the actions that come
 * next are different ones, the code never shows what the manual shows.
 */
module JumpLimits {
  import opened Options
  import opened StatementSemantics
  import opened EmittedSemantics
  import opened ControlFlowGraph
  import opened StatementLowering
  import opened LoweringCorrect
  import opened LoweringTheorems
  import opened Histories

  // ---------- Surroundings ----------

  /** A statement with a hole in it. */
  datatype Frame =
    | InBlock(before: seq<Stmt>, after: seq<Stmt>)
    | InThen(cond: Expr, els: Option<Stmt>)
    | InElse(cond: Expr, thn: Stmt)
    | InWhile(cond: Expr)
    | InFor(init: Option<Stmt>, test: Option<Expr>, post: Option<Expr>)

  function Fill(f: Frame, s: Stmt): Stmt
  {
    match f
    case InBlock(before, after) => Block(before + ([s] + after))
    case InThen(cond, els) => If(cond, s, els)
    case InElse(cond, thn) => If(cond, thn, Some(s))
    case InWhile(cond) => While(cond, s)
    case InFor(init, test, post) => For(init, test, post, s)
  }

  function Plug(fs: seq<Frame>, s: Stmt): Stmt
  {
    if fs == [] then s else Fill(fs[0], Plug(fs[1..], s))
  }

  /**
   * A run that is about to enter a statement: no cleanup is active (`clean`), `jump` as in
   * `Inside`, and the bodies that the last block entered has registered so far.
   */
  datatype Place = Place(st: State, clean: bool, jump: bool, inLoop: bool, stack: seq<Stmt>)

  /** By the manual, from in front of `f` to its hole, in the first round of a loop. */
  function Enter(world: World, kind: ReturnKind, f: Frame, fuel: nat, p: Place): Option<Place>
  {
    match f
    case InBlock(before, _) => (
      match ExecSeq(world, kind, before, fuel, p.st, [], SizeSeq(before) + 1)
      case BlockFinished(Natural, st1, stack) => Some(Place(st1, p.clean && stack == [], p.jump, p.inLoop, stack))
      case _ => None)
    case InThen(cond, _) =>
      if world(cond, p.st.history) != 0 then Some(p.(st := p.st.Then(cond), stack := [])) else None
    case InElse(cond, _) =>
      if world(cond, p.st.history) == 0 then Some(p.(st := p.st.Then(cond), stack := [])) else None
    case InWhile(cond) => EnterLoop(world, Some(cond), fuel, p)
    case InFor(init, test, _) => (
      match Initialised(world, kind, init, fuel, p.st)
      case None => None
      case Some(st1) => EnterLoop(world, test, fuel, p.(st := st1)))
  }

  function EnterLoop(world: World, test: Option<Expr>, fuel: nat, p: Place): Option<Place>
  {
    if fuel == 0 || (test.Some? && world(test.value, p.st.history) == 0) then None
    else Some(Place(AfterOptional(test, p.st), p.clean, p.clean, true, []))
  }

  function Initialised(world: World, kind: ReturnKind, init: Option<Stmt>, fuel: nat, st: State): Option<State>
  {
    if init.None? then Some(st)
    else
      match Exec(world, kind, init.value, fuel, st)
      case Finished(Natural, st1) => Some(st1)
      case _ => None
  }

  /** What runs on the way to the hole is in the fragment. */
  ghost predicate Calm(f: Frame, p: Place)
  {
    match f
    case InBlock(before, _) => InsideSeq(before, p.clean, p.jump)
    case InFor(init, _, _) => CalmInit(init, p)
    case _ => true
  }

  ghost predicate CalmInit(init: Option<Stmt>, p: Place)
  {
    init.Some? ==> Inside(init.value, p.clean, p.jump) && !Pushes(init.value)
  }

  /** From in front of the outermost frame to the hole; `quiet` if no block on the way has registered an action. */
  ghost predicate Reaches(world: World, kind: ReturnKind, fs: seq<Frame>, fuel: nat, p: Place, q: Place, quiet: bool)
  {
    if fs == [] then p == q
    else
      var next := Enter(world, kind, fs[0], fuel, p);
      && Calm(fs[0], p) && next.Some? && (quiet ==> next.value.stack == [])
      && Reaches(world, kind, fs[1..], fuel, next.value, q, quiet)
  }

  // ---------- By the manual ----------

  lemma {:induction false} SizeConcat(a: seq<Stmt>, b: seq<Stmt>)
    ensures SizeSeq(a + b) == SizeSeq(a) + SizeSeq(b)
    decreases |a|
  {
    if a == [] {
      assert a + b == b;
    } else {
      assert (a + b)[1..] == a[1..] + b;
      SizeConcat(a[1..], b);
    }
  }

  lemma {:induction false} SplitSeq(world: World, kind: ReturnKind, a: seq<Stmt>, b: seq<Stmt>, fuel: nat, st: State,
                                    stack: seq<Stmt>, bound: nat)
    requires SizeSeq(a) < bound && SizeSeq(b) < bound && SizeSeq(a + b) < bound && Below(stack, bound)
    requires var r := ExecSeq(world, kind, a, fuel, st, stack, bound); r.BlockFinished? && r.outcome.Natural?
    ensures var r := ExecSeq(world, kind, a, fuel, st, stack, bound);
            ExecSeq(world, kind, a + b, fuel, st, stack, bound) == ExecSeq(world, kind, b, fuel, r.st, r.stack, bound)
    decreases |a|
  {
    if a == [] {
      assert a + b == b;
    } else {
      assert (a + b)[1..] == a[1..] + b;
      if a[0].Defer? {
        SplitSeq(world, kind, a[1..], b, fuel, st, stack + [a[0].body], bound);
      } else {
        SplitSeq(world, kind, a[1..], b, fuel, Exec(world, kind, a[0], fuel, st).st, stack, bound);
      }
    }
  }

  /** A block from its hole on. */
  lemma BlockFromHole(world: World, kind: ReturnKind, f: Frame, s: Stmt, fuel: nat, p: Place, q: Place)
    returns (bound: nat)
    requires f.InBlock? && Enter(world, kind, f, fuel, p) == Some(q)
    ensures SizeSeq([s] + f.after) < bound && SizeSeq(f.after) < bound && Below(q.stack, bound)
    ensures Exec(world, kind, Fill(f, s), fuel, p.st) ==
            ThenDefers(world, kind, ExecSeq(world, kind, [s] + f.after, fuel, q.st, q.stack, bound), fuel, bound)
  {
    var x, tail := Fill(f, s), [s] + f.after;
    bound := Size(x);
    SizeConcat(f.before, tail);
    assert tail[1..] == f.after;
    BoundIsIdle(world, kind, f.before, fuel, p.st, [], SizeSeq(f.before) + 1, bound);
    SplitSeq(world, kind, f.before, tail, fuel, p.st, [], bound);
    ExecBlock(world, kind, x, fuel, p.st);
  }

  /** What the hole has done to the history stays done. */
  lemma FillGrows(world: World, kind: ReturnKind, f: Frame, s: Stmt, fuel: nat, p: Place, q: Place, h: seq<Expr>)
    requires Enter(world, kind, f, fuel, p) == Some(q) && !s.Defer?
    requires var r := Exec(world, kind, s, fuel, q.st); r.Finished? ==> h <= r.st.history
    ensures var r := Exec(world, kind, Fill(f, s), fuel, p.st); r.Finished? ==> h <= r.st.history
  {
    var r := Exec(world, kind, s, fuel, q.st);
    match f
    case InBlock(before, after) =>
      var bound := BlockFromHole(world, kind, f, s, fuel, p, q);
      assert ([s] + after)[1..] == after;
      if r.Finished? {
        if r.outcome.Natural? {
          ExecSeqGrows(world, kind, after, fuel, r.st, q.stack, bound);
        }
        var res := ExecSeq(world, kind, [s] + after, fuel, q.st, q.stack, bound);
        if res.BlockFinished? {
          RunDefersGrows(world, kind, res.stack, fuel, res.outcome, res.st, bound);
        }
      }
    case InWhile(_) =>
      if r.Finished? {
        ExecWhileGrows(world, kind, Fill(f, s), fuel - 1, r.st);
      }
    case InFor(_, _, post) =>
      if r.Finished? {
        ExecForGrows(world, kind, Fill(f, s), fuel - 1, AfterOptional(post, r.st));
      }
    case _ =>
  }

  /** The first action behind the hole. */
  function After(f: Frame): Start
  {
    match f
    case InBlock(_, after) => if NonePushes(after) then FirstSeq(after) else FirstSeq(after).IfAny()
    case InWhile(cond) => Acts(cond)
    case InFor(_, test, post) => FirstOf(post).Else(FirstOf(test)).IfAny()
    case _ => Passes
  }

  function GoOn(fs: seq<Frame>): Start
  {
    if fs == [] then Passes else GoOn(fs[1..]).Else(After(fs[0]))
  }

  lemma FillGoesOn(world: World, kind: ReturnKind, f: Frame, s: Stmt, fuel: nat, p: Place, q: Place, st2: State)
    requires Enter(world, kind, f, fuel, p) == Some(q) && !s.Defer?
    requires Exec(world, kind, s, fuel, q.st) == Finished(Natural, st2)
    ensures var r := Exec(world, kind, Fill(f, s), fuel, p.st);
            match After(f)
            case Acts(a) => r.Finished? ==> st2.history + [a] <= r.st.history
            case Passes => q.stack == [] ==> r == Finished(Natural, st2)
            case Unsure => true
  {
    match f
    case InBlock(before, after) =>
      var bound := BlockFromHole(world, kind, f, s, fuel, p, q);
      assert ([s] + after)[1..] == after;
      FirstExecSeq(world, kind, after, fuel, st2, q.stack, bound);
      var res := ExecSeq(world, kind, after, fuel, st2, q.stack, bound);
      if res.BlockFinished? {
        RunDefersGrows(world, kind, res.stack, fuel, res.outcome, res.st, bound);
      }
    case InWhile(_) => ExecWhileGrows(world, kind, Fill(f, s), fuel - 1, st2);
    case InFor(_, _, post) => ExecForGrows(world, kind, Fill(f, s), fuel - 1, AfterOptional(post, st2));
    case _ =>
  }

  lemma {:induction false} PlugGrows(world: World, kind: ReturnKind, fs: seq<Frame>, s: Stmt, fuel: nat, p: Place,
                                     q: Place, quiet: bool, h: seq<Expr>)
    requires Reaches(world, kind, fs, fuel, p, q, quiet) && !s.Defer?
    requires var r := Exec(world, kind, s, fuel, q.st); r.Finished? ==> h <= r.st.history
    ensures var r := Exec(world, kind, Plug(fs, s), fuel, p.st); r.Finished? ==> h <= r.st.history
    ensures !Plug(fs, s).Defer?
    decreases |fs|
  {
    if fs != [] {
      var next := Enter(world, kind, fs[0], fuel, p).value;
      PlugGrows(world, kind, fs[1..], s, fuel, next, q, quiet, h);
      FillGrows(world, kind, fs[0], Plug(fs[1..], s), fuel, p, next, h);
    }
  }

  lemma {:induction false} PlugGoesOn(world: World, kind: ReturnKind, fs: seq<Frame>, s: Stmt, fuel: nat, p: Place,
                                      q: Place, st2: State)
    requires Reaches(world, kind, fs, fuel, p, q, true) && !s.Defer?
    requires Exec(world, kind, s, fuel, q.st) == Finished(Natural, st2)
    ensures !Plug(fs, s).Defer?
    ensures var r := Exec(world, kind, Plug(fs, s), fuel, p.st);
            match GoOn(fs)
            case Acts(a) => r.Finished? ==> st2.history + [a] <= r.st.history
            case Passes => r == Finished(Natural, st2)
            case Unsure => true
    decreases |fs|
  {
    if fs != [] {
      var next, rest := Enter(world, kind, fs[0], fuel, p).value, Plug(fs[1..], s);
      PlugGoesOn(world, kind, fs[1..], s, fuel, next, q, st2);
      match GoOn(fs[1..])
      case Acts(a) => FillGrows(world, kind, fs[0], rest, fuel, p, next, st2.history + [a]);
      case Passes => FillGoesOn(world, kind, fs[0], rest, fuel, p, next, st2);
      case Unsure =>
    }
  }

  // ---------- As emitted ----------

  /** A run of the code in front of the statement may have anything in exit_dest. */
  ghost predicate EmittedPast(world: World, kind: ReturnKind, s: Stmt, fuel: nat, p: Place, h: seq<Expr>)
  {
    forall dest: int ::
      var e := Emitted(world, kind, s, p.clean, p.inLoop, fuel, p.st, dest); e.CodeFinished? ==> h <= e.st.history
  }

  ghost predicate EmittedJumps(world: World, kind: ReturnKind, s: Stmt, fuel: nat, p: Place, o: Outcome, st2: State)
  {
    forall dest: int :: Emitted(world, kind, s, false, p.inLoop, fuel, p.st, dest) == CodeFinished(o, st2, Code(o))
  }

  lemma {:induction false} SplitEmitted(world: World, kind: ReturnKind, a: seq<Stmt>, b: seq<Stmt>, clean: bool,
                                        inLoop: bool, fuel: nat, st: State, dest: int)
    requires var r := EmittedSeq(world, kind, a, clean, inLoop, fuel, st, dest);
             r.CodeBlockFinished? && r.outcome.Natural?
    ensures var r := EmittedSeq(world, kind, a, clean, inLoop, fuel, st, dest);
            EmittedSeq(world, kind, a + b, clean, inLoop, fuel, st, dest) ==
            Behind(r.pushed, EmittedSeq(world, kind, b, clean && r.pushed == [], inLoop, fuel, r.st, r.dest))
    decreases |a|
  {
    if a == [] {
      assert a + b == b;
      assert EmittedSeq(world, kind, b, clean, inLoop, fuel, st, dest)
          == Behind([], EmittedSeq(world, kind, b, clean, inLoop, fuel, st, dest)) by {
        BehindNothing(EmittedSeq(world, kind, b, clean, inLoop, fuel, st, dest));
      }
    } else {
      assert (a + b)[1..] == a[1..] + b;
      SeqStep(world, kind, a, clean, inLoop, fuel, st, dest);
      SeqStep(world, kind, a + b, clean, inLoop, fuel, st, dest);
      var e, clean1 := Emitted(world, kind, a[0], clean, inLoop, fuel, st, dest), clean && !Pushes(a[0]);
      SplitEmitted(world, kind, a[1..], b, clean1, inLoop, fuel, e.st, e.dest);
      var r := EmittedSeq(world, kind, a[1..], clean1, inLoop, fuel, e.st, e.dest);
      BehindBoth(PushedBy(a[0]), r.pushed,
                 EmittedSeq(world, kind, b, clean1 && r.pushed == [], inLoop, fuel, r.st, r.dest));
    }
  }

  lemma BehindNothing(res: CodeBlockResult)
    ensures Behind([], res) == res
  {
    assert res.CodeBlockFinished? ==> [] + res.pushed == res.pushed;
  }

  lemma BehindBoth(some: seq<Stmt>, more: seq<Stmt>, res: CodeBlockResult)
    ensures Behind(some, Behind(more, res)) == Behind(some + more, res)
  {
    assert res.CodeBlockFinished? ==> some + (more + res.pushed) == some + more + res.pushed;
  }

  /** A block from its hole on. */
  lemma EmittedFromHole(world: World, kind: ReturnKind, f: Frame, s: Stmt, fuel: nat, p: Place, q: Place, dest: int)
    returns (dest1: int)
    requires f.InBlock? && Enter(world, kind, f, fuel, p) == Some(q) && Calm(f, p) && (p.jump ==> p.inLoop)
    ensures EmittedSeq(world, kind, f.before + ([s] + f.after), p.clean, p.inLoop, fuel, p.st, dest) ==
            Behind(q.stack, EmittedSeq(world, kind, [s] + f.after, q.clean, q.inLoop, fuel, q.st, dest1))
  {
    var bound := SizeSeq(f.before) + 1;
    AgreesSeq(world, kind, f.before, p.clean, p.jump, p.inLoop, fuel, p.st, dest, [], bound);
    var e := EmittedSeq(world, kind, f.before, p.clean, p.inLoop, fuel, p.st, dest);
    assert [] + e.pushed == e.pushed;
    dest1 := e.dest;
    SplitEmitted(world, kind, f.before, [s] + f.after, p.clean, p.inLoop, fuel, p.st, dest);
  }

  lemma InitialisedAlike(world: World, kind: ReturnKind, init: Option<Stmt>, fuel: nat, p: Place, st1: State, dest: int)
    returns (dest1: int)
    requires Initialised(world, kind, init, fuel, p.st) == Some(st1) && CalmInit(init, p) && (p.jump ==> p.inLoop)
    ensures if init.None? then st1 == p.st && dest1 == dest
            else
              Emitted(world, kind, init.value, p.clean, p.inLoop, fuel, p.st, dest) == CodeFinished(Natural, st1, dest1)
  {
    dest1 := dest;
    if init.Some? {
      Agrees(world, kind, init.value, p.clean, p.jump, p.inLoop, fuel, p.st, dest);
      dest1 := Emitted(world, kind, init.value, p.clean, p.inLoop, fuel, p.st, dest).dest;
    }
  }

  lemma EmittedFillGrows(world: World, kind: ReturnKind, f: Frame, s: Stmt, fuel: nat, p: Place, q: Place, h: seq<Expr>)
    requires Enter(world, kind, f, fuel, p) == Some(q) && Calm(f, p) && (p.jump ==> p.inLoop)
    requires EmittedPast(world, kind, s, fuel, q, h)
    ensures EmittedPast(world, kind, Fill(f, s), fuel, p, h)
  {
    forall dest: int
      ensures var e := Emitted(world, kind, Fill(f, s), p.clean, p.inLoop, fuel, p.st, dest);
              e.CodeFinished? ==> h <= e.st.history
    {
      match f
      case InBlock(_, _) => EmittedBlockGrows(world, kind, f, s, fuel, p, q, h, dest);
      case InFor(_, _, _) => EmittedLoopGrows(world, kind, f, s, fuel, p, q, h, dest);
      case InWhile(cond) =>
        var e := Emitted(world, kind, s, q.clean, q.inLoop, fuel, q.st, dest);
        if e.CodeFinished? && Repeats(p.clean, e.outcome) {
          EmittedWhileGrows(world, kind, Fill(f, s), p.clean, fuel - 1, e.st, e.dest);
        }
      case _ =>
        assert Emitted(world, kind, Fill(f, s), p.clean, p.inLoop, fuel, p.st, dest)
            == Emitted(world, kind, s, q.clean, q.inLoop, fuel, q.st, dest);
    }
  }

  /** The end of a block only adds to the history. */
  lemma AfterSeqGrows(world: World, kind: ReturnKind, res: CodeBlockResult, inLoop: bool, fuel: nat, bound: nat)
    requires res.CodeBlockFinished? ==> Below(res.pushed, bound)
    ensures var e := AfterSeq(world, kind, res, inLoop, fuel, bound);
            e.CodeFinished? ==> res.CodeBlockFinished? && res.st.history <= e.st.history
  {
    if res.CodeBlockFinished? && res.pushed != [] {
      EmittedChainGrows(world, kind, res.pushed, inLoop, fuel, res.st, Code(res.outcome), bound);
    }
  }

  lemma EmittedTailGrows(world: World, kind: ReturnKind, s: Stmt, after: seq<Stmt>, fuel: nat, q: Place, h: seq<Expr>,
                         dest: int)
    requires EmittedPast(world, kind, s, fuel, q, h)
    ensures var res := EmittedSeq(world, kind, [s] + after, q.clean, q.inLoop, fuel, q.st, dest);
            res.CodeBlockFinished? ==> h <= res.st.history
  {
    assert ([s] + after)[1..] == after;
    SeqStep(world, kind, [s] + after, q.clean, q.inLoop, fuel, q.st, dest);
    var e := Emitted(world, kind, s, q.clean, q.inLoop, fuel, q.st, dest);
    if Falls(e) {
      EmittedSeqGrows(world, kind, after, q.clean && !Pushes(s), q.inLoop, fuel, e.st, e.dest);
    }
  }

  lemma EmittedBlockGrows(world: World, kind: ReturnKind, f: Frame, s: Stmt, fuel: nat, p: Place, q: Place,
                          h: seq<Expr>, dest: int)
    requires f.InBlock? && Enter(world, kind, f, fuel, p) == Some(q) && Calm(f, p) && (p.jump ==> p.inLoop)
    requires EmittedPast(world, kind, s, fuel, q, h)
    ensures var e := Emitted(world, kind, Fill(f, s), p.clean, p.inLoop, fuel, p.st, dest);
            e.CodeFinished? ==> h <= e.st.history
  {
    var dest1 := EmittedFromHole(world, kind, f, s, fuel, p, q, dest);
    var x := Fill(f, s);
    EmittedTailGrows(world, kind, s, f.after, fuel, q, h, dest1);
    EmittedBlock(world, kind, x, p.clean, p.inLoop, fuel, p.st, dest);
    AfterSeqGrows(world, kind, EmittedSeq(world, kind, x.stmts, p.clean, p.inLoop, fuel, p.st, dest), p.inLoop, fuel,
                  Size(x));
  }

  /** One round of a `for`. */
  lemma EmittedForOnce(world: World, kind: ReturnKind, s: Stmt, clean: bool, fuel: nat, st: State, dest: int)
    requires s.For? && fuel > 0 && (s.test.None? || world(s.test.value, st.history) != 0)
    ensures EmittedFor(world, kind, s, clean, fuel, st, dest) ==
            var e := Emitted(world, kind, s.body, clean, true, fuel, AfterOptional(s.test, st), dest);
            if e.CodeFinished? && Repeats(clean, e.outcome)
            then EmittedFor(world, kind, s, clean, fuel - 1, AfterOptional(s.post, e.st), e.dest)
            else LeaveLoop(clean, e)
  {
  }

  /** A `for` from the state its initialiser leaves. */
  lemma EmittedForFrom(world: World, kind: ReturnKind, loop: Stmt, fuel: nat, p: Place, st1: State, dest: int)
    returns (dest1: int)
    requires loop.For? && Initialised(world, kind, loop.init, fuel, p.st) == Some(st1)
    requires CalmInit(loop.init, p) && (p.jump ==> p.inLoop)
    ensures Emitted(world, kind, loop, p.clean, p.inLoop, fuel, p.st, dest)
            == EmittedFor(world, kind, loop, p.clean, fuel, st1, dest1)
  {
    dest1 := InitialisedAlike(world, kind, loop.init, fuel, p, st1, dest);
  }

  lemma EmittedLoopGrows(world: World, kind: ReturnKind, f: Frame, s: Stmt, fuel: nat, p: Place, q: Place, h: seq<Expr>,
                         dest: int)
    requires f.InFor? && Enter(world, kind, f, fuel, p) == Some(q) && Calm(f, p) && (p.jump ==> p.inLoop)
    requires EmittedPast(world, kind, s, fuel, q, h)
    ensures var e := Emitted(world, kind, Fill(f, s), p.clean, p.inLoop, fuel, p.st, dest);
            e.CodeFinished? ==> h <= e.st.history
  {
    var x, st1 := Fill(f, s), Initialised(world, kind, f.init, fuel, p.st).value;
    var dest1 := EmittedForFrom(world, kind, x, fuel, p, st1, dest);
    EmittedForOnce(world, kind, x, p.clean, fuel, st1, dest1);
    var e := Emitted(world, kind, s, q.clean, q.inLoop, fuel, q.st, dest1);
    if e.CodeFinished? && Repeats(p.clean, e.outcome) {
      EmittedForGrows(world, kind, x, p.clean, fuel - 1, AfterOptional(f.post, e.st), e.dest);
    }
  }

  /** A jump under an active cleanup leaves every loop and block on its way. */
  lemma EmittedFillJumps(world: World, kind: ReturnKind, f: Frame, s: Stmt, fuel: nat, p: Place, q: Place, o: Outcome,
                         st2: State)
    requires Enter(world, kind, f, fuel, p) == Some(q) && Calm(f, p) && (p.jump ==> p.inLoop) && q.stack == []
    requires !p.clean && !Pushes(s) && (o.Broke? || o.Continued?) && EmittedJumps(world, kind, s, fuel, q, o, st2)
    ensures EmittedJumps(world, kind, Fill(f, s), fuel, p, o, st2) && !Pushes(Fill(f, s))
  {
    forall dest: int
      ensures Emitted(world, kind, Fill(f, s), false, p.inLoop, fuel, p.st, dest) == CodeFinished(o, st2, Code(o))
    {
      match f
      case InBlock(before, after) =>
        var dest1 := EmittedFromHole(world, kind, f, s, fuel, p, q, dest);
        assert Emitted(world, kind, s, false, q.inLoop, fuel, q.st, dest1) == CodeFinished(o, st2, Code(o));
        SeqStep(world, kind, [s] + after, false, q.inLoop, fuel, q.st, dest1);
        BehindNothing(EmittedSeq(world, kind, [s] + after, false, q.inLoop, fuel, q.st, dest1));
        EmittedBlock(world, kind, Fill(f, s), false, p.inLoop, fuel, p.st, dest);
      case InFor(init, test, post) =>
        var st1 := Initialised(world, kind, init, fuel, p.st).value;
        var dest1 := EmittedForFrom(world, kind, Fill(f, s), fuel, p, st1, dest);
        EmittedForOnce(world, kind, Fill(f, s), false, fuel, st1, dest1);
        assert Emitted(world, kind, s, false, true, fuel, q.st, dest1) == CodeFinished(o, st2, Code(o));
      case InWhile(cond) =>
        assert Emitted(world, kind, s, false, true, fuel, q.st, dest) == CodeFinished(o, st2, Code(o));
      case _ =>
        assert Emitted(world, kind, s, false, q.inLoop, fuel, q.st, dest) == CodeFinished(o, st2, Code(o));
    }
  }

  /** In the block that owns the active cleanup the jump ends the statements. */
  lemma OwnerLeaves(world: World, kind: ReturnKind, f: Frame, s: Stmt, fuel: nat, p: Place, q: Place, o: Outcome,
                    st2: State, dest: int)
    requires f.InBlock? && Enter(world, kind, f, fuel, p) == Some(q) && Calm(f, p) && (p.jump ==> p.inLoop)
    requires q.stack != [] && !Pushes(s) && (o.Broke? || o.Continued?) && EmittedJumps(world, kind, s, fuel, q, o, st2)
    ensures EmittedSeq(world, kind, f.before + ([s] + f.after), p.clean, p.inLoop, fuel, p.st, dest)
            == CodeBlockFinished(o, st2, Code(o), q.stack)
  {
    var dest1 := EmittedFromHole(world, kind, f, s, fuel, p, q, dest);
    assert Emitted(world, kind, s, false, q.inLoop, fuel, q.st, dest1) == CodeFinished(o, st2, Code(o));
    SeqStep(world, kind, [s] + f.after, false, q.inLoop, fuel, q.st, dest1);
    assert q.stack + [] == q.stack;
  }

  /** So what comes next is the body it registered last. */
  lemma OwnerJumps(world: World, kind: ReturnKind, f: Frame, s: Stmt, fuel: nat, p: Place, q: Place, o: Outcome,
                   st2: State, b: Expr)
    requires f.InBlock? && Enter(world, kind, f, fuel, p) == Some(q) && Calm(f, p) && (p.jump ==> p.inLoop)
    requires q.stack != [] && First(q.stack[|q.stack| - 1]) == Acts(b)
    requires !Pushes(s) && (o.Broke? || o.Continued?) && EmittedJumps(world, kind, s, fuel, q, o, st2)
    ensures EmittedPast(world, kind, Fill(f, s), fuel, p, st2.history + [b])
  {
    forall dest: int
      ensures var e := Emitted(world, kind, Fill(f, s), p.clean, p.inLoop, fuel, p.st, dest);
              e.CodeFinished? ==> st2.history + [b] <= e.st.history
    {
      OwnerLeaves(world, kind, f, s, fuel, p, q, o, st2, dest);
      EmittedBlock(world, kind, Fill(f, s), p.clean, p.inLoop, fuel, p.st, dest);
      FirstOfChain(world, kind, q.stack, p.inLoop, fuel, st2, Code(o), Size(Fill(f, s)), b);
    }
  }

  lemma FirstOfChain(world: World, kind: ReturnKind, bodies: seq<Stmt>, inLoop: bool, fuel: nat, st: State, dest: int,
                     bound: nat, b: Expr)
    requires Below(bodies, bound) && bodies != [] && First(bodies[|bodies| - 1]) == Acts(b)
    ensures var e := EmittedChain(world, kind, bodies, inLoop, fuel, st, dest, bound);
            e.CodeFinished? ==> st.history + [b] <= e.st.history
  {
    var last := bodies[|bodies| - 1];
    FirstEmitted(world, kind, last, false, inLoop, fuel, st, dest);
    var e := Emitted(world, kind, last, false, inLoop, fuel, st, dest);
    if e.CodeFinished? {
      EmittedChainGrows(world, kind, bodies[..|bodies| - 1], inLoop, fuel, e.st, e.dest, bound);
    }
  }

  lemma {:induction false} EmittedPlugGrows(world: World, kind: ReturnKind, fs: seq<Frame>, s: Stmt, fuel: nat,
                                            p: Place, q: Place, quiet: bool, h: seq<Expr>)
    requires Reaches(world, kind, fs, fuel, p, q, quiet) && (p.jump ==> p.inLoop)
    requires EmittedPast(world, kind, s, fuel, q, h)
    ensures EmittedPast(world, kind, Plug(fs, s), fuel, p, h)
    decreases |fs|
  {
    if fs != [] {
      var next := Enter(world, kind, fs[0], fuel, p).value;
      EmittedPlugGrows(world, kind, fs[1..], s, fuel, next, q, quiet, h);
      EmittedFillGrows(world, kind, fs[0], Plug(fs[1..], s), fuel, p, next, h);
    }
  }

  lemma {:induction false} EmittedPlugJumps(world: World, kind: ReturnKind, fs: seq<Frame>, s: Stmt, fuel: nat,
                                            p: Place, q: Place, o: Outcome, st2: State)
    requires Reaches(world, kind, fs, fuel, p, q, true) && (p.jump ==> p.inLoop) && !p.clean && !Pushes(s)
    requires (o.Broke? || o.Continued?) && EmittedJumps(world, kind, s, fuel, q, o, st2)
    ensures EmittedJumps(world, kind, Plug(fs, s), fuel, p, o, st2) && !Pushes(Plug(fs, s))
    decreases |fs|
  {
    if fs != [] {
      var next := Enter(world, kind, fs[0], fuel, p).value;
      EmittedPlugJumps(world, kind, fs[1..], s, fuel, next, q, o, st2);
      EmittedFillJumps(world, kind, fs[0], Plug(fs[1..], s), fuel, p, next, o, st2);
    }
  }

  lemma {:induction false} PlaceStays(world: World, kind: ReturnKind, fs: seq<Frame>, fuel: nat, p: Place, q: Place,
                                      quiet: bool)
    requires Reaches(world, kind, fs, fuel, p, q, quiet) && (p.jump ==> p.inLoop)
    ensures (q.jump ==> q.inLoop) && (quiet && !p.clean ==> !q.clean)
    decreases |fs|
  {
    if fs != [] {
      PlaceStays(world, kind, fs[1..], fuel, Enter(world, kind, fs[0], fuel, p).value, q, quiet);
    }
  }

  // ---------- The loop ----------

  predicate Looping(s: Stmt) { s.While? || s.For? }

  function Init(loop: Stmt): Option<Stmt> { if loop.For? then loop.init else None }

  function Test(loop: Stmt): Option<Expr>
    requires Looping(loop)
  {
    if loop.For? then loop.test else Some(loop.cond)
  }

  function Post(loop: Stmt): Option<Expr> { if loop.For? then loop.post else None }

  /** By the manual, from the first test: the first jump that the body performs, and the state it happens in. */
  function FirstJump(world: World, kind: ReturnKind, loop: Stmt, fuel: nat, st: State): Option<(Outcome, State)>
    requires Looping(loop)
    decreases fuel
  {
    if fuel == 0 || (Test(loop).Some? && world(Test(loop).value, st.history) == 0) then None
    else
      match Exec(world, kind, loop.body, fuel, AfterOptional(Test(loop), st))
      case Finished(Natural, st1) => FirstJump(world, kind, loop, fuel - 1, AfterOptional(Post(loop), st1))
      case Finished(Broke, st1) => Some((Broke, st1))
      case Finished(Continued, st1) => Some((Continued, st1))
      case _ => None
  }

  lemma {:induction false} FirstJumpIsJump(world: World, kind: ReturnKind, loop: Stmt, fuel: nat, st: State)
    requires Looping(loop) && FirstJump(world, kind, loop, fuel, st).Some?
    ensures var o := FirstJump(world, kind, loop, fuel, st).value.0; o.Broke? || o.Continued?
    decreases fuel
  {
    var r := Exec(world, kind, loop.body, fuel, AfterOptional(Test(loop), st));
    if r.outcome.Natural? {
      FirstJumpIsJump(world, kind, loop, fuel - 1, AfterOptional(Post(loop), r.st));
    }
  }

  /** The code leaves the loop at that jump. */
  lemma {:induction false} LoopLeaves(world: World, kind: ReturnKind, loop: Stmt, fuel: nat, st: State, dest: int)
    requires Looping(loop) && Inside(loop.body, false, true) && FirstJump(world, kind, loop, fuel, st).Some?
    ensures var (o, st2) := FirstJump(world, kind, loop, fuel, st).value;
            && (loop.While? ==> EmittedWhile(world, kind, loop, false, fuel, st, dest) == CodeFinished(o, st2, Code(o)))
            && (loop.For? ==> EmittedFor(world, kind, loop, false, fuel, st, dest) == CodeFinished(o, st2, Code(o)))
    decreases fuel
  {
    var st0 := AfterOptional(Test(loop), st);
    Agrees(world, kind, loop.body, false, true, true, fuel, st0, dest);
    var e := Emitted(world, kind, loop.body, false, true, fuel, st0, dest);
    if loop.For? {
      EmittedForOnce(world, kind, loop, false, fuel, st, dest);
    }
    if Falls(e) {
      LoopLeaves(world, kind, loop, fuel - 1, AfterOptional(Post(loop), e.st), e.dest);
    }
  }

  /** What the loop does behind a `continue`. */
  function Again(loop: Stmt): Start
    requires Looping(loop)
  {
    FirstOf(Post(loop)).Else(FirstOf(Test(loop))).Else(First(loop.body)).IfAny()
  }

  /** The manual ends the loop there, or goes on with it. */
  lemma {:induction false} LoopByManual(world: World, kind: ReturnKind, loop: Stmt, fuel: nat, st: State)
    requires Looping(loop) && FirstJump(world, kind, loop, fuel, st).Some?
    ensures var (o, st2) := FirstJump(world, kind, loop, fuel, st).value;
            var r := if loop.While? then ExecWhile(world, kind, loop, fuel, st)
                else ExecFor(world, kind, loop, fuel, st);
            && (o.Broke? ==> r == Finished(Natural, st2))
            && (o.Continued? && Again(loop).Acts? && r.Finished? ==> st2.history + [Again(loop).e] <= r.st.history)
    decreases fuel
  {
    var r := Exec(world, kind, loop.body, fuel, AfterOptional(Test(loop), st));
    var next := AfterOptional(Post(loop), r.st);
    if r.outcome.Natural? {
      LoopByManual(world, kind, loop, fuel - 1, next);
    } else if r.outcome.Continued? && loop.While? {
      ExecWhileGrows(world, kind, loop, fuel - 1, next);
    } else if r.outcome.Continued? {
      ExecForGrows(world, kind, loop, fuel - 1, next);
      FirstExecFor(world, kind, loop, fuel - 1, next);
    }
  }

  lemma HoleLeaves(world: World, kind: ReturnKind, loop: Stmt, fuel: nat, r: Place, st1: State, o: Outcome, st2: State)
    requires Looping(loop) && Inside(loop.body, false, true) && CalmInit(Init(loop), r) && !r.clean
    requires r.jump ==> r.inLoop
    requires Initialised(world, kind, Init(loop), fuel, r.st) == Some(st1)
    requires FirstJump(world, kind, loop, fuel, st1) == Some((o, st2))
    ensures EmittedJumps(world, kind, loop, fuel, r, o, st2) && !Pushes(loop) && (o.Broke? || o.Continued?)
  {
    FirstJumpIsJump(world, kind, loop, fuel, st1);
    forall dest: int
      ensures Emitted(world, kind, loop, false, r.inLoop, fuel, r.st, dest) == CodeFinished(o, st2, Code(o))
    {
      if loop.While? {
        LoopLeaves(world, kind, loop, fuel, st1, dest);
      } else {
        var dest1 := EmittedForFrom(world, kind, loop, fuel, r, st1, dest);
        LoopLeaves(world, kind, loop, fuel, st1, dest1);
      }
    }
  }

  // ---------- In its surroundings ----------

  /**
   * A function body with a loop in it: `{ before loop after }`, with anything around the
   * block, and anything between the block and the loop.
   */
  datatype Site = Site(outer: seq<Frame>, before: seq<Stmt>, inner: seq<Frame>, loop: Stmt, after: seq<Stmt>)
  {
    function Owner(): Frame { InBlock(before, after) }

    function Body(): Stmt { Plug(outer, Fill(Owner(), Plug(inner, loop))) }

    /** What the manual does behind the jump. */
    function Next(o: Outcome): Start
      requires Looping(loop)
    {
      if o.Broke? then GoOn(inner).Else(After(Owner())) else Again(loop)
    }
  }

  /**
   * A run of the body that takes the jump: in front of the block and its hole, the loop and its
   * first test, and the jump.
   */
  datatype Trip = Trip(p: Place, q: Place, r: Place, st1: State, o: Outcome, st2: State)
  {
    /** The body that was registered last, which the code runs behind the jump. */
    function LastDeferred(): Stmt
      requires q.stack != []
    {
      q.stack[|q.stack| - 1]
    }
  }

  /**
   * By the manual, the run gets to the block, to the loop while an action of the block is
   * registered, none between them, and to a jump in its body, all through statements in the fragment.
   */
  ghost predicate Taken(world: World, kind: ReturnKind, site: Site, fuel: nat, st: State, trip: Trip)
  {
    && Looping(site.loop) && Inside(site.loop.body, false, true) && CalmInit(Init(site.loop), trip.r)
    && Reaches(world, kind, site.outer, fuel, Place(st, true, false, false, []), trip.p, false)
    && Calm(site.Owner(), trip.p) && Enter(world, kind, site.Owner(), fuel, trip.p) == Some(trip.q)
    && trip.q.stack != []
    && Reaches(world, kind, site.inner, fuel, trip.q, trip.r, true)
    && Initialised(world, kind, Init(site.loop), fuel, trip.r.st) == Some(trip.st1)
    && FirstJump(world, kind, site.loop, fuel, trip.st1) == Some((trip.o, trip.st2))
  }

  lemma ManualGoesOn(world: World, kind: ReturnKind, site: Site, fuel: nat, st: State, trip: Trip)
    requires Taken(world, kind, site, fuel, st, trip) && site.Next(trip.o).Acts?
    ensures var r := Exec(world, kind, site.Body(), fuel, st);
            r.Finished? ==> trip.st2.history + [site.Next(trip.o).e] <= r.st.history
  {
    var Trip(p, q, r, st1, o, st2) := trip;
    var h, inside := st2.history + [site.Next(o).e], Plug(site.inner, site.loop);
    FirstJumpIsJump(world, kind, site.loop, fuel, st1);
    LoopByManual(world, kind, site.loop, fuel, st1);
    if o.Broke? {
      PlugGoesOn(world, kind, site.inner, site.loop, fuel, q, r, st2);
      if GoOn(site.inner).Acts? {
        FillGrows(world, kind, site.Owner(), inside, fuel, p, q, h);
      } else {
        FillGoesOn(world, kind, site.Owner(), inside, fuel, p, q, st2);
      }
    } else {
      PlugGrows(world, kind, site.inner, site.loop, fuel, q, r, true, h);
      FillGrows(world, kind, site.Owner(), inside, fuel, p, q, h);
    }
    PlugGrows(world, kind, site.outer, Fill(site.Owner(), inside), fuel, Place(st, true, false, false, []), p, false,
              h);
  }

  lemma CodeGoesOn(world: World, kind: ReturnKind, site: Site, fuel: nat, st: State, dest: int, trip: Trip)
    requires Taken(world, kind, site, fuel, st, trip) && First(trip.LastDeferred()).Acts?
    ensures var r := Emitted(world, kind, site.Body(), true, false, fuel, st, dest);
            r.CodeFinished? ==> trip.st2.history + [First(trip.LastDeferred()).e] <= r.st.history
  {
    var Trip(p, q, r, st1, o, st2) := trip;
    var top, b, inside := Place(st, true, false, false, []), First(trip.LastDeferred()).e, Plug(site.inner, site.loop);
    PlaceStays(world, kind, site.outer, fuel, top, p, false);
    PlaceStays(world, kind, site.inner, fuel, q, r, true);
    HoleLeaves(world, kind, site.loop, fuel, r, st1, o, st2);
    EmittedPlugJumps(world, kind, site.inner, site.loop, fuel, q, r, o, st2);
    OwnerJumps(world, kind, site.Owner(), inside, fuel, p, q, o, st2, b);
    EmittedPlugGrows(world, kind, site.outer, Fill(site.Owner(), inside), fuel, top, p, false, st2.history + [b]);
  }

  // ---------- Whatever the fuel ----------

  lemma InitialisedMore(world: World, kind: ReturnKind, init: Option<Stmt>, fuel: nat, more: nat, st: State)
    requires fuel <= more && Initialised(world, kind, init, fuel, st).Some?
    ensures Initialised(world, kind, init, more, st) == Initialised(world, kind, init, fuel, st)
  {
    if init.Some? {
      ExecMore(world, kind, init.value, fuel, more, st);
    }
  }

  lemma EnterMore(world: World, kind: ReturnKind, f: Frame, fuel: nat, more: nat, p: Place)
    requires fuel <= more && Enter(world, kind, f, fuel, p).Some?
    ensures Enter(world, kind, f, more, p) == Enter(world, kind, f, fuel, p)
  {
    match f
    case InBlock(before, _) => ExecSeqMore(world, kind, before, fuel, more, p.st, [], SizeSeq(before) + 1);
    case InFor(init, _, _) => InitialisedMore(world, kind, init, fuel, more, p.st);
    case _ =>
  }

  lemma {:induction false} ReachesMore(world: World, kind: ReturnKind, fs: seq<Frame>, fuel: nat, more: nat, p: Place,
                                       q: Place, quiet: bool)
    requires fuel <= more && Reaches(world, kind, fs, fuel, p, q, quiet)
    ensures Reaches(world, kind, fs, more, p, q, quiet)
    decreases |fs|
  {
    if fs != [] {
      EnterMore(world, kind, fs[0], fuel, more, p);
      ReachesMore(world, kind, fs[1..], fuel, more, Enter(world, kind, fs[0], fuel, p).value, q, quiet);
    }
  }

  lemma {:induction false} FirstJumpMore(world: World, kind: ReturnKind, loop: Stmt, fuel: nat, more: nat, st: State)
    requires Looping(loop) && fuel <= more && FirstJump(world, kind, loop, fuel, st).Some?
    ensures FirstJump(world, kind, loop, more, st) == FirstJump(world, kind, loop, fuel, st)
    decreases fuel
  {
    var st0 := AfterOptional(Test(loop), st);
    ExecMore(world, kind, loop.body, fuel, more, st0);
    var r := Exec(world, kind, loop.body, fuel, st0);
    if r.outcome.Natural? {
      FirstJumpMore(world, kind, loop, fuel - 1, more - 1, AfterOptional(Post(loop), r.st));
    }
  }

  lemma TakenMore(world: World, kind: ReturnKind, site: Site, fuel: nat, more: nat, st: State, trip: Trip)
    requires fuel <= more && Taken(world, kind, site, fuel, st, trip)
    ensures Taken(world, kind, site, more, st, trip)
  {
    ReachesMore(world, kind, site.outer, fuel, more, Place(st, true, false, false, []), trip.p, false);
    EnterMore(world, kind, site.Owner(), fuel, more, trip.p);
    ReachesMore(world, kind, site.inner, fuel, more, trip.q, trip.r, true);
    InitialisedMore(world, kind, Init(site.loop), fuel, more, trip.r.st);
    FirstJumpMore(world, kind, site.loop, fuel, more, trip.st1);
  }

  /**
   * A jump out of a loop under an active cleanup, in any surroundings and in any world in
   * which it is taken.  Whatever the manual shows goes on behind the jump with the next
   * action of the program; whatever the code shows goes on with the first action of the
   * body registered last.  So if these are different actions, the code never shows what the
   * manual shows.
   */
  lemma JumpUnderCleanupDiffers(world: World, kind: ReturnKind, site: Site, fuel: nat, st: State, dest: int, tmp: int,
                                trip: Trip, seen: Observed)
    requires Compiles(site.Body(), kind) && Taken(world, kind, site, fuel, st, trip)
    requires site.Next(trip.o).Acts? && First(trip.LastDeferred()).Acts?
    ensures Shows(world, kind, site.Body(), st, seen) ==>
              trip.st2.history + [site.Next(trip.o).e] <= seen.st.history
    ensures Halts(world, LowerFunction(kind, site.Body()).blocks, Entry(st, dest, tmp), seen) ==>
              trip.st2.history + [First(trip.LastDeferred()).e] <= seen.st.history
    ensures site.Next(trip.o) != First(trip.LastDeferred()) ==>
              !(Shows(world, kind, site.Body(), st, seen)
                && Halts(world, LowerFunction(kind, site.Body()).blocks, Entry(st, dest, tmp), seen))
  {
    if Shows(world, kind, site.Body(), st, seen) {
      ManualShowsNext(world, kind, site, fuel, st, trip, seen);
    }
    if Halts(world, LowerFunction(kind, site.Body()).blocks, Entry(st, dest, tmp), seen) {
      CodeShowsDeferred(world, kind, site, fuel, st, dest, tmp, trip, seen);
    }
    if Shows(world, kind, site.Body(), st, seen)
       && Halts(world, LowerFunction(kind, site.Body()).blocks, Entry(st, dest, tmp), seen) {
      SameNext(trip.st2.history, site.Next(trip.o).e, First(trip.LastDeferred()).e, seen.st.history);
    }
  }

  lemma SameNext(h: seq<Expr>, a: Expr, b: Expr, all: seq<Expr>)
    requires h + [a] <= all && h + [b] <= all
    ensures a == b
  {
    assert a == (h + [a])[|h|] == all[|h|] == (h + [b])[|h|] == b;
  }

  lemma ManualShowsNext(world: World, kind: ReturnKind, site: Site, fuel: nat, st: State, trip: Trip, seen: Observed)
    requires Taken(world, kind, site, fuel, st, trip) && site.Next(trip.o).Acts?
    requires Shows(world, kind, site.Body(), st, seen)
    ensures trip.st2.history + [site.Next(trip.o).e] <= seen.st.history
  {
    var n: nat :| Finishes(world, kind, site.Body(), n, st, seen);
    var more := if n < fuel then fuel else n;
    ExecMore(world, kind, site.Body(), n, more, st);
    TakenMore(world, kind, site, fuel, more, st, trip);
    ManualGoesOn(world, kind, site, more, st, trip);
  }

  lemma CodeShowsDeferred(world: World, kind: ReturnKind, site: Site, fuel: nat, st: State, dest: int, tmp: int,
                          trip: Trip, seen: Observed)
    requires Compiles(site.Body(), kind) && Taken(world, kind, site, fuel, st, trip) && First(trip.LastDeferred()).Acts?
    requires Halts(world, LowerFunction(kind, site.Body()).blocks, Entry(st, dest, tmp), seen)
    ensures trip.st2.history + [First(trip.LastDeferred()).e] <= seen.st.history
  {
    var m: nat :| Run(world, LowerFunction(kind, site.Body()).blocks, m, Entry(st, dest, tmp)) == Halted(seen);
    var more := if m < fuel then fuel else m + 1;
    FinishesBy(world, kind, site.Body(), st, dest, tmp, seen, m, more);
    TakenMore(world, kind, site, fuel, more, st, trip);
    CodeGoesOn(world, kind, site, more, st, dest, trip);
  }
}
