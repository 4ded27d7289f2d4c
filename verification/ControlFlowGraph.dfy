/**
 * The target of the lowering: basic blocks of instructions, appended to one at
 * a time as an LLVM builder does, and the machine that runs them.  A terminator
 * is an ordinary instruction here, because the builder does not stop anyone from
 * appending past one; that no block does so is a theorem, not a data type.
 */
module ControlFlowGraph {
  import opened Options
  import opened StatementSemantics

  type Label = nat

  datatype Instr =
    | Eval(e: Expr)                    // tmp := value of e
    | StoreSlot                        // return slot := tmp
    | SetDest(code: int)               // exit_dest := code
    | Br(target: Label)
    | CondBr(ifTrue: Label, ifFalse: Label)  // on tmp
    | SwitchDest(otherwise: Label, onReturn: Label, onBreak: Option<Label>, onContinue: Option<Label>)
    | RetVoid
    | RetValue                         // return tmp
    | RetSlot                          // return the slot's content
    | RetNull                          // return the zero of the result type

  type Block = seq<Instr>

  predicate IsTerminator(i: Instr)
  {
    !(i.Eval? || i.StoreSlot? || i.SetDest?)
  }

  /** The builder's test: is the block's last instruction a terminator? */
  predicate Terminated(b: Block)
  {
    b != [] && IsTerminator(b[|b| - 1])
  }

  /** No terminator among the first n instructions. */
  predicate StraightTo(b: Block, n: nat)
    requires n <= |b|
  {
    n == 0 || (!IsTerminator(b[n - 1]) && StraightTo(b, n - 1))
  }

  predicate Straight(b: Block) { StraightTo(b, |b|) }

  /** Exactly one terminator, in last place. */
  predicate Closed(b: Block)
  {
    Terminated(b) && StraightTo(b, |b| - 1)
  }

  /** A terminator that is not the last instruction. */
  predicate Broken(b: Block)
  {
    b != [] && !StraightTo(b, |b| - 1)
  }

  function Targets(i: Instr): set<Label>
  {
    match i
    case Br(t) => {t}
    case CondBr(t, e) => {t, e}
    case SwitchDest(o, r, b, c) =>
      {o, r} + (if b.Some? then {b.value} else {}) + (if c.Some? then {c.value} else {})
    case _ => {}
  }

  datatype Config =
    | Running(at: Label, next: nat, st: State, dest: int, tmp: int)
    | Halted(seen: Observed)
    | Stuck

  function Step(world: Oracle, g: seq<Block>, c: Config): Config
  {
    if !c.Running? then c
    else if c.at >= |g| || c.next >= |g[c.at]| then Stuck
    else
      match g[c.at][c.next]
      case Eval(e) => c.(next := c.next + 1, st := c.st.Then(e), tmp := world(e, c.st.history))
      case StoreSlot => c.(next := c.next + 1, st := c.st.(slot := c.tmp))
      case SetDest(code) => c.(next := c.next + 1, dest := code)
      case Br(t) => c.(at := t, next := 0)
      case CondBr(t, e) => c.(at := if c.tmp != 0 then t else e, next := 0)
      case SwitchDest(o, r, b, k) =>
        c.(at := if c.dest == 0 then r
                 else if c.dest == 1 && b.Some? then b.value
                 else if c.dest == 2 && k.Some? then k.value
                 else o,
           next := 0)
      case RetVoid => Halted(Observed(c.st, None))
      case RetValue => Halted(Observed(c.st, Some(c.tmp)))
      case RetSlot => Halted(Observed(c.st, Some(c.st.slot)))
      case RetNull => Halted(Observed(c.st, Some(0)))
  }

  function Run(world: Oracle, g: seq<Block>, n: nat, c: Config): Config
  {
    if n == 0 then c else Run(world, g, n - 1, Step(world, g, c))
  }

  lemma {:induction false} RunAdd(world: Oracle, g: seq<Block>, m: nat, n: nat, c: Config)
    ensures Run(world, g, m + n, c) == Run(world, g, n, Run(world, g, m, c))
  {
    if m > 0 {
      RunAdd(world, g, m - 1, n, Step(world, g, c));
    }
  }

  lemma {:induction false} HaltedStays(world: Oracle, g: seq<Block>, n: nat, c: Config)
    requires !c.Running?
    ensures Run(world, g, n, c) == c
  {
    if n > 0 {
      HaltedStays(world, g, n - 1, c);
    }
  }

  /** Two runs of the same machine that both halt, halt alike. */
  lemma {:induction false} HaltsOnce(world: Oracle, g: seq<Block>, m: nat, n: nat, c: Config)
    requires !Run(world, g, m, c).Running? && !Run(world, g, n, c).Running?
    ensures Run(world, g, m, c) == Run(world, g, n, c)
  {
    var lo, hi := if m <= n then m else n, if m <= n then n else m;
    RunAdd(world, g, lo, hi - lo, c);
    HaltedStays(world, g, hi - lo, Run(world, g, lo, c));
  }
}
