/** Constant folding in 64 bits against the arithmetic the generated code does. */
module Folding {
  import opened Options

  // ---------- machine integers ----------

  function Pow2(w: nat): (m: nat)
    ensures m >= 1 && (w > 0 ==> m % 2 == 0)
  {
    if w == 0 then 1 else 2 * Pow2(w - 1)
  }

  /** The signed w-bit integer with the same low bits. */
  function Wrap(w: nat, n: int): int
  {
    var m := Pow2(w);
    if n % m >= m / 2 then n % m - m else n % m
  }

  predicate Fits(w: nat, n: int) { -(Pow2(w) / 2) <= n < Pow2(w) - Pow2(w) / 2 }

  /** Division towards zero and its remainder, as in section 6.5.5 of ISO/IEC 9899:2011. */
  function TruncDiv(a: int, b: int): int
    requires b != 0
  {
    if a >= 0 && b > 0 then a / b
    else if a >= 0 then -(a / -b)
    else if b > 0 then -(-a / b)
    else -a / -b
  }

  function TruncMod(a: int, b: int): int
    requires b != 0
  {
    a - TruncDiv(a, b) * b
  }

  // ---------- typed expressions ----------

  type Width = w: nat | 1 <= w <= 64 witness 1
  datatype Type = IntTy(width: Width) | BoolTy
  datatype Value = IntValue(n: int) | BoolValue(b: bool)
  datatype ArithOp = Add | Sub | Mul | Div | Mod
  datatype CompareOp = Eq | Neq | Lt | Gt | Le | Ge

  datatype Expr =
    | Lit(width: Width, n: int)
    | Truth(b: bool)
    | Variable(ty: Type, id: nat)
    | Neg(x: Expr)
    | Not(x: Expr)
    | Arith(arith: ArithOp, l: Expr, r: Expr)
    | Compare(compare: CompareOp, l: Expr, r: Expr)
    | Cast(width: Width, x: Expr)

  function TypeOf(e: Expr): Type
  {
    match e
    case Lit(w, _) => IntTy(w)
    case Truth(_) => BoolTy
    case Variable(ty, _) => ty
    case Neg(x) => TypeOf(x)
    case Not(_) => BoolTy
    case Arith(_, l, _) => TypeOf(l)
    case Compare(_, _, _) => BoolTy
    case Cast(w, _) => IntTy(w)
  }

  /** What the type checker demands. */
  predicate WellTyped(e: Expr)
  {
    match e
    case Lit(_, _) => true
    case Truth(_) => true
    case Variable(_, _) => true
    case Neg(x) => WellTyped(x) && TypeOf(x).IntTy?
    case Not(x) => WellTyped(x) && TypeOf(x).BoolTy?
    case Arith(_, l, r) => WellTyped(l) && WellTyped(r) && TypeOf(l) == TypeOf(r) && TypeOf(l).IntTy?
    case Compare(_, l, r) => WellTyped(l) && WellTyped(r) && TypeOf(l) == TypeOf(r)
    case Cast(_, x) => WellTyped(x)
  }

  /** The type found, or an error. */
  function CheckedType(e: Expr): Option<Type> { if WellTyped(e) then Some(TypeOf(e)) else None }

  // ---------- folding ----------

  function CompareInts(op: CompareOp, a: int, b: int): bool
  {
    match op
    case Eq => a == b
    case Neq => a != b
    case Lt => a < b
    case Gt => a > b
    case Le => a <= b
    case Ge => a >= b
  }

  function ArithInts(op: ArithOp, a: int, b: int): Option<int>
  {
    match op
    case Add => Some(a + b)
    case Sub => Some(a - b)
    case Mul => Some(a * b)
    case Div => if b == 0 then None else Some(TruncDiv(a, b))
    case Mod => if b == 0 then None else Some(TruncMod(a, b))
  }

  /** What a union holds, read as a truth value: its low byte. */
  function AsTruth(kept: Value): bool { if kept.BoolValue? then kept.b else kept.n % 256 != 0 }

  /**
   * `fold_unary_op`, for `-` and `!`.  A minus on a truth value marks the node as folded
   * and leaves what its union held before; the type checker lets no such minus through.
   */
  function FoldUnary(isNot: bool, x: Option<Value>, kept: Value): Option<Value>
  {
    if x.None? then None
    else if isNot then (if x.value.BoolValue? then Some(BoolValue(!x.value.b)) else None)
    else if x.value.IntValue? then Some(IntValue(-x.value.n))
    else Some(BoolValue(AsTruth(kept)))
  }

  function FoldArith(op: ArithOp, l: Option<Value>, r: Option<Value>): Option<Value>
  {
    if l.None? || r.None? || !l.value.IntValue? || !r.value.IntValue? then None
    else
      match ArithInts(op, l.value.n, r.value.n)
      case None => None
      case Some(n) => Some(IntValue(n))
  }

  /** Comparisons of booleans are not folded. */
  function FoldCompare(op: CompareOp, l: Option<Value>, r: Option<Value>): Option<Value>
  {
    if l.None? || r.None? || !l.value.IntValue? || !r.value.IntValue? then None
    else Some(BoolValue(CompareInts(op, l.value.n, r.value.n)))
  }

  /** `fold_cast_node` between integers and from booleans: the value is not truncated. */
  function FoldCast(x: Option<Value>): Option<Value>
  {
    if x.None? then None
    else if x.value.BoolValue? then Some(IntValue(if x.value.b then 1 else 0)) else x
  }

  /** The union of a new node is zero. */
  const ZEROED: Value := IntValue(0)

  function Fold(e: Expr): Option<Value>
  {
    match e
    case Lit(_, n) => Some(IntValue(n))
    case Truth(b) => Some(BoolValue(b))
    case Variable(_, _) => None
    case Neg(x) => FoldUnary(false, Fold(x), ZEROED)
    case Not(x) => FoldUnary(true, Fold(x), ZEROED)
    case Arith(op, l, r) => FoldArith(op, Fold(l), Fold(r))
    case Compare(op, l, r) => FoldCompare(op, Fold(l), Fold(r))
    case Cast(_, x) => FoldCast(Fold(x))
  }

  // ---------- what the generated code computes ----------

  /** Signed w-bit arithmetic; none where the instruction is undefined. */
  function RunArith(w: nat, op: ArithOp, a: int, b: int): Option<int>
  {
    match op
    case Add => Some(Wrap(w, a + b))
    case Sub => Some(Wrap(w, a - b))
    case Mul => Some(Wrap(w, a * b))
    case Div => if b == 0 || !Fits(w, TruncDiv(a, b)) then None else Some(TruncDiv(a, b))
    case Mod => if b == 0 || !Fits(w, TruncDiv(a, b)) then None else Some(TruncMod(a, b))
  }

  /** The signed comparisons of the machine, by the sign of the difference. */
  predicate RunCompare(op: CompareOp, a: int, b: int)
  {
    match op
    case Eq => a - b == 0
    case Neq => a - b != 0
    case Lt => a - b < 0
    case Gt => a - b > 0
    case Le => !(a - b > 0)
    case Ge => !(a - b < 0)
  }

  function AsInt(v: Value): int { if v.IntValue? then v.n else if v.b then 1 else 0 }

  /** One instruction on the values of its operands. */
  function Step(e: Expr, xs: seq<Value>): Option<Value>
    requires |xs| == if e.Arith? || e.Compare? then 2 else if e.Neg? || e.Not? || e.Cast? then 1 else 0
  {
    match e
    case Neg(x) => if TypeOf(x).IntTy? then Some(IntValue(Wrap(TypeOf(x).width, -AsInt(xs[0])))) else None
    case Not(_) => Some(BoolValue(AsInt(xs[0]) == 0))
    case Arith(op, l, _) => (
      if !TypeOf(l).IntTy? then None
      else
        match RunArith(TypeOf(l).width, op, AsInt(xs[0]), AsInt(xs[1]))
        case None => None
        case Some(n) => Some(IntValue(n)))
    case Compare(op, _, _) => Some(BoolValue(RunCompare(op, AsInt(xs[0]), AsInt(xs[1]))))
    case Cast(w, _) => Some(IntValue(Wrap(w, AsInt(xs[0]))))
    case _ => None
  }

  /** A constant of a type, as emitted: the low bits of the 64-bit value. */
  function Emitted(t: Type, v: Value): Value
  {
    if t.IntTy? && v.IntValue? then IntValue(Wrap(t.width, v.n)) else v
  }

  type Env = nat -> Value

  predicate EnvOk(env: Env, e: Expr)
  {
    match e
    case Variable(IntTy(w), id) => env(id).IntValue? && Fits(w, env(id).n)
    case Variable(BoolTy, id) => env(id).BoolValue?
    case Neg(x) => EnvOk(env, x)
    case Not(x) => EnvOk(env, x)
    case Arith(_, l, r) => EnvOk(env, l) && EnvOk(env, r)
    case Compare(_, l, r) => EnvOk(env, l) && EnvOk(env, r)
    case Cast(_, x) => EnvOk(env, x)
    case _ => true
  }

  function Step1(e: Expr, x: Option<Value>): Option<Value>
    requires e.Neg? || e.Not? || e.Cast?
  {
    if x.None? then None else Step(e, [x.value])
  }

  function Step2(e: Expr, x: Option<Value>, y: Option<Value>): Option<Value>
    requires e.Arith? || e.Compare?
  {
    if x.None? || y.None? then None else Step(e, [x.value, y.value])
  }

  /** No folding: every operation done at run time, in the width of its type. */
  function Run(e: Expr, env: Env): Option<Value>
  {
    match e
    case Lit(w, n) => Some(IntValue(Wrap(w, n)))
    case Truth(b) => Some(BoolValue(b))
    case Variable(_, id) => Some(env(id))
    case Neg(x) => Step1(e, Run(x, env))
    case Not(x) => Step1(e, Run(x, env))
    case Cast(_, x) => Step1(e, Run(x, env))
    case Arith(_, l, r) => Step2(e, Run(l, env), Run(r, env))
    case Compare(_, l, r) => Step2(e, Run(l, env), Run(r, env))
  }

  /** What is emitted: a folded expression becomes its constant, the rest instructions on emitted operands. */
  function Emit(e: Expr, env: Env): Option<Value>
  {
    if Fold(e).Some? then Some(Emitted(TypeOf(e), Fold(e).value))
    else
      match e
      case Neg(x) => Step1(e, Emit(x, env))
      case Not(x) => Step1(e, Emit(x, env))
      case Cast(_, x) => Step1(e, Emit(x, env))
      case Arith(_, l, r) => Step2(e, Emit(l, env), Emit(r, env))
      case Compare(_, l, r) => Step2(e, Emit(l, env), Emit(r, env))
      case _ => Run(e, env)
  }

  // ---------- when the two agree ----------

  /** A folded integer that is not kept in range by its type. */
  predicate InRange(e: Expr)
  {
    Fold(e).Some? && Fold(e).value.IntValue? && TypeOf(e).IntTy? ==> Fits(TypeOf(e).width, Fold(e).value.n)
  }

  /** The operations that can tell a value from its low bits: `/`, `%`, comparisons, widening casts. */
  predicate Sensitive(e: Expr)
  {
    || (e.Arith? && (e.arith == Div || e.arith == Mod))
    || e.Compare?
    || (e.Cast? && TypeOf(e.x).IntTy? && TypeOf(e.x).width < e.width)
  }

  /** No 64-bit overflow while folding, and in-range operands wherever it matters. */
  predicate Safe(e: Expr)
  {
    && (Fold(e).Some? && Fold(e).value.IntValue? ==> Fits(64, Fold(e).value.n))
    && match e
       case Neg(x) => Safe(x)
       case Not(x) => Safe(x)
       case Cast(_, x) => Safe(x) && (Sensitive(e) ==> InRange(x))
       case Arith(op, l, r) =>
         Safe(l) && Safe(r)
         && (Sensitive(e) ==> InRange(l) && InRange(r) && (Fold(e).Some? ==> InRange(Arith(Div, l, r))))
       case Compare(_, l, r) => Safe(l) && Safe(r) && InRange(l) && InRange(r)
       case _ => true
  }

  // ---------- modular arithmetic ----------

  lemma ModUnique(a: int, q: int, r: int, m: nat)
    requires m > 0 && a == q * m + r && 0 <= r < m
    ensures a % m == r
  {
    var q2, r2 := a / m, a % m;
    assert a == q2 * m + r2;
    if q2 < q {
      Below(q2, q, m);
    } else if q2 > q {
      Below(q, q2, m);
    }
  }

  lemma Below(p: int, q: int, m: nat)
    requires p < q
    ensures p * m + m <= q * m
  {
    assert (p + 1) * m <= q * m;
    assert (p + 1) * m == p * m + m;
  }

  /** Wrapping changes a value by a multiple of the modulus. */
  lemma WrapShift(w: nat, n: int) returns (k: int)
    ensures Wrap(w, n) == n + k * Pow2(w)
  {
    var m := Pow2(w);
    var q := n / m;
    assert n == q * m + n % m;
    if n % m >= m / 2 {
      k := -q - 1;
      assert (-q - 1) * m == -(q * m) - m;
    } else {
      k := -q;
      assert (-q) * m == -(q * m);
    }
  }

  /** Values that differ by a multiple of the modulus wrap alike. */
  lemma WrapAlike(w: nat, a: int, b: int, k: int)
    requires a == b + k * Pow2(w)
    ensures Wrap(w, a) == Wrap(w, b)
  {
    var m := Pow2(w);
    var q := b / m;
    assert b == q * m + b % m;
    assert (q + k) * m == q * m + k * m;
    ModUnique(a, q + k, b % m, m);
  }

  lemma WrapAdd(w: nat, a: int, b: int)
    ensures Wrap(w, Wrap(w, a) + Wrap(w, b)) == Wrap(w, a + b)
    ensures Wrap(w, Wrap(w, a) - Wrap(w, b)) == Wrap(w, a - b)
  {
    var j := WrapShift(w, a);
    var k := WrapShift(w, b);
    var m := Pow2(w);
    assert (j + k) * m == j * m + k * m && (j - k) * m == j * m - k * m;
    WrapAlike(w, Wrap(w, a) + Wrap(w, b), a + b, j + k);
    WrapAlike(w, Wrap(w, a) - Wrap(w, b), a - b, j - k);
  }

  lemma WrapNeg(w: nat, a: int)
    ensures Wrap(w, -Wrap(w, a)) == Wrap(w, -a)
  {
    var j := WrapShift(w, a);
    assert (-j) * Pow2(w) == -(j * Pow2(w));
    WrapAlike(w, -Wrap(w, a), -a, -j);
  }

  lemma WrapMul(w: nat, a: int, b: int)
    ensures Wrap(w, Wrap(w, a) * Wrap(w, b)) == Wrap(w, a * b)
  {
    var j := WrapShift(w, a);
    var k := WrapShift(w, b);
    Product(a, b, j, k, Pow2(w));
    WrapAlike(w, Wrap(w, a) * Wrap(w, b), a * b, a * k + j * b + j * k * Pow2(w));
  }

  lemma Product(a: int, b: int, j: int, k: int, m: int)
    ensures (a + j * m) * (b + k * m) == a * b + (a * k + j * b + j * k * m) * m
  {
    calc {
      (a + j * m) * (b + k * m);
      a * b + a * (k * m) + j * m * b + j * m * (k * m);
      { assert a * (k * m) == a * k * m && j * m * b == j * b * m && j * m * (k * m) == j * k * m * m; }
      a * b + a * k * m + j * b * m + j * k * m * m;
      a * b + (a * k + j * b + j * k * m) * m;
    }
  }

  lemma WrapFits(w: nat, n: int)
    requires w > 0 && Fits(w, n)
    ensures Wrap(w, n) == n
  {
    var m := Pow2(w);
    if n >= 0 {
      ModUnique(n, 0, n, m);
    } else {
      ModUnique(n, -1, n + m, m);
    }
  }

  lemma WrappedFits(w: nat, n: int)
    requires w > 0
    ensures Fits(w, Wrap(w, n))
  {}

  lemma {:induction false} PowSplits(a: nat, b: nat)
    ensures Pow2(a + b) == Pow2(a) * Pow2(b)
    decreases b
  {
    if b > 0 {
      PowSplits(a, b - 1);
      assert Pow2(a) * (2 * Pow2(b - 1)) == 2 * (Pow2(a) * Pow2(b - 1));
    }
  }

  /** Truncating twice is truncating once. */
  lemma WrapNarrow(narrow: nat, wide: nat, n: int)
    requires narrow <= wide
    ensures Wrap(narrow, Wrap(wide, n)) == Wrap(narrow, n)
  {
    var k := WrapShift(wide, n);
    PowSplits(narrow, wide - narrow);
    Regroup(k, Pow2(narrow), Pow2(wide - narrow));
    WrapAlike(narrow, Wrap(wide, n), n, k * Pow2(wide - narrow));
  }

  lemma Regroup(k: int, a: int, b: int)
    ensures k * (a * b) == k * b * a
  {}

  // ---------- folding preserves meaning ----------

  lemma ArithAgrees(w: nat, op: ArithOp, a: int, b: int)
    requires w > 0 && ArithInts(op, a, b).Some?
    requires op == Div || op == Mod ==> Fits(w, a) && Fits(w, b) && Fits(w, TruncDiv(a, b))
    ensures RunArith(w, op, Wrap(w, a), Wrap(w, b)) == Some(Wrap(w, ArithInts(op, a, b).value))
  {
    match op
    case Add => WrapAdd(w, a, b);
    case Sub => WrapAdd(w, a, b);
    case Mul => WrapMul(w, a, b);
    case Div => WrapFits(w, a); WrapFits(w, b); WrapFits(w, TruncDiv(a, b));
    case Mod =>
      WrapFits(w, a);
      WrapFits(w, b);
      RemainderFits(w, a, b);
      WrapFits(w, TruncMod(a, b));
  }

  /** The remainder has the sign of the dividend. */
  lemma RemainderSign(a: int, b: int)
    requires b != 0
    ensures var size, unit := if a >= 0 then a else -a, if b > 0 then b else -b;
            TruncMod(a, b) == if a >= 0 then size % unit else -(size % unit)
  {
    var size, unit := if a >= 0 then a else -a, if b > 0 then b else -b;
    var q := size / unit;
    RemainderBelow(size, unit);
    assert q * b == if b > 0 then q * unit else -(q * unit);
    assert (-q) * b == -(q * b);
  }

  /** And it is no larger than it. */
  lemma RemainderFits(w: nat, a: int, b: int)
    requires b != 0 && Fits(w, a)
    ensures Fits(w, TruncMod(a, b))
  {
    RemainderSign(a, b);
    RemainderBelow(if a >= 0 then a else -a, if b > 0 then b else -b);
  }

  lemma RemainderBelow(a: nat, b: nat)
    requires b > 0
    ensures a == a / b * b + a % b && 0 <= a % b <= a
  {
    assert a / b * b >= 0;
  }

  /** The kind of value a folded expression has. */
  lemma {:induction false} FoldTyped(e: Expr)
    requires WellTyped(e) && Fold(e).Some?
    ensures TypeOf(e).IntTy? <==> Fold(e).value.IntValue?
  {
    match e
    case Neg(x) => FoldTyped(x);
    case Not(x) => FoldTyped(x);
    case Cast(_, x) => FoldTyped(x);
    case Arith(_, l, r) => FoldTyped(l); FoldTyped(r);
    case Compare(_, l, r) => FoldTyped(l); FoldTyped(r);
    case _ =>
  }

  /** A folded expression, run without folding, gives the constant that is emitted for it. */
  lemma {:induction false} FoldedAgrees(e: Expr, env: Env)
    requires WellTyped(e) && Safe(e) && Fold(e).Some?
    ensures Run(e, env) == Some(Emitted(TypeOf(e), Fold(e).value))
  {
    FoldTyped(e);
    match e
    case Lit(_, _) =>
    case Truth(_) =>
    case Neg(x) =>
      FoldTyped(x);
      FoldedAgrees(x, env);
      WrapNeg(TypeOf(x).width, Fold(x).value.n);
    case Not(x) =>
      FoldTyped(x);
      FoldedAgrees(x, env);
    case Cast(w, x) =>
      FoldTyped(x);
      FoldedAgrees(x, env);
      CastAgrees(w, x);
    case Arith(op, l, r) =>
      FoldTyped(l);
      FoldTyped(r);
      FoldedAgrees(l, env);
      FoldedAgrees(r, env);
      ArithAgrees(TypeOf(l).width, op, Fold(l).value.n, Fold(r).value.n);
    case Compare(_, l, r) =>
      FoldTyped(l);
      FoldTyped(r);
      FoldedAgrees(l, env);
      FoldedAgrees(r, env);
      if TypeOf(l).IntTy? {
        WrapFits(TypeOf(l).width, Fold(l).value.n);
        WrapFits(TypeOf(l).width, Fold(r).value.n);
      }
  }

  lemma CastAgrees(w: Width, x: Expr)
    requires WellTyped(Cast(w, x)) && Safe(Cast(w, x)) && Fold(x).Some?
    ensures Wrap(w, AsInt(Emitted(TypeOf(x), Fold(x).value))) == Wrap(w, FoldCast(Fold(x)).value.n)
  {
    FoldTyped(x);
    if TypeOf(x).IntTy? {
      if TypeOf(x).width < w {
        WrapFits(TypeOf(x).width, Fold(x).value.n);
      } else {
        WrapNarrow(w, TypeOf(x).width, Fold(x).value.n);
      }
    }
  }

  /**
   * The code emitted with folding computes what the unfolded expression computes, for
   * all values of its variables, undefined divisions included: no 64-bit overflow while
   * folding, and constants in range wherever an operation can tell them from their low
   * bits.  Sums, differences, products, negations and narrowing casts need no range.
   */
  lemma {:induction false} FoldingPreservesMeaning(e: Expr, env: Env)
    requires WellTyped(e) && Safe(e)
    ensures Emit(e, env) == Run(e, env)
  {
    if Fold(e).Some? {
      FoldedAgrees(e, env);
    } else {
      match e
      case Neg(x) => FoldingPreservesMeaning(x, env);
      case Not(x) => FoldingPreservesMeaning(x, env);
      case Cast(_, x) => FoldingPreservesMeaning(x, env);
      case Arith(_, l, r) => FoldingPreservesMeaning(l, env); FoldingPreservesMeaning(r, env);
      case Compare(_, l, r) => FoldingPreservesMeaning(l, env); FoldingPreservesMeaning(r, env);
      case _ =>
    }
  }

  /** Trees of + - * and negation over constants: 64-bit folding truncated at the end is wrapping at every step. */
  predicate Ring(e: Expr)
  {
    match e
    case Lit(_, _) => true
    case Neg(x) => Ring(x)
    case Arith(op, l, r) => (op == Add || op == Sub || op == Mul) && Ring(l) && Ring(r)
    case _ => false
  }

  predicate NoOverflow(e: Expr)
  {
    && (Fold(e).Some? && Fold(e).value.IntValue? ==> Fits(64, Fold(e).value.n))
    && match e
       case Neg(x) => NoOverflow(x)
       case Arith(_, l, r) => NoOverflow(l) && NoOverflow(r)
       case _ => true
  }

  lemma RingArithFolds(e: Expr)
    requires WellTyped(e) && Ring(e) && NoOverflow(e) && e.Arith? && Fold(e.l).Some? && Fold(e.r).Some?
    requires Safe(e.l) && Safe(e.r)
    ensures Fold(e).Some? && Safe(e)
  {
    FoldTyped(e.l);
    FoldTyped(e.r);
  }

  lemma {:induction false} RingTreesFoldExactly(e: Expr, env: Env)
    requires WellTyped(e) && Ring(e) && NoOverflow(e)
    ensures Fold(e).Some? && Run(e, env) == Some(Emitted(TypeOf(e), Fold(e).value))
    ensures Safe(e)
  {
    match e
    case Lit(_, _) =>
    case Neg(x) =>
      RingTreesFoldExactly(x, env);
      FoldTyped(x);
      FoldedAgrees(e, env);
    case Arith(_, l, r) =>
      RingTreesFoldExactly(l, env);
      RingTreesFoldExactly(r, env);
      RingArithFolds(e);
      FoldedAgrees(e, env);
  }

  // ---------- what the operators mean ----------

  /** A comparison of two literals folds to whether they stand in the relation that is written. */
  lemma LiteralComparisons(w: Width, n: int, m: int)
    ensures Fold(Compare(Eq, Lit(w, n), Lit(w, m))) == Some(BoolValue(n == m))
    ensures Fold(Compare(Neq, Lit(w, n), Lit(w, m))) == Some(BoolValue(n != m))
    ensures Fold(Compare(Lt, Lit(w, n), Lit(w, m))) == Some(BoolValue(n < m))
    ensures Fold(Compare(Gt, Lit(w, n), Lit(w, m))) == Some(BoolValue(n > m))
    ensures Fold(Compare(Le, Lit(w, n), Lit(w, m))) == Some(BoolValue(n <= m))
    ensures Fold(Compare(Ge, Lit(w, n), Lit(w, m))) == Some(BoolValue(n >= m))
  {
  }

  function Magnitude(n: int): nat { if n >= 0 then n else -n }

  /** Division towards zero: the remainder is smaller than the divisor and has the sign of the dividend. */
  predicate Divides(a: int, b: int, q: int, r: int)
  {
    a == q * b + r && Magnitude(r) < Magnitude(b) && (r > 0 ==> a > 0) && (r < 0 ==> a < 0)
  }

  /** Two literals, the second not zero, fold to that quotient and remainder, and there is no other pair. */
  lemma LiteralDivisions(w: Width, a: int, b: int, q: int, r: int)
    requires b != 0
    ensures Divides(a, b, q, r) <==>
            && Fold(Arith(Div, Lit(w, a), Lit(w, b))) == Some(IntValue(q))
            && Fold(Arith(Mod, Lit(w, a), Lit(w, b))) == Some(IntValue(r))
  {
    TruncDivides(a, b);
    if Divides(a, b, q, r) {
      QuotientIsUnique(a, b, q, r, TruncDiv(a, b), TruncMod(a, b));
    }
  }

  lemma TruncDivides(a: int, b: int)
    requires b != 0
    ensures Divides(a, b, TruncDiv(a, b), TruncMod(a, b))
  {
    RemainderSign(a, b);
    RemainderSmall(Magnitude(a), Magnitude(b));
    QuotientAndRemainder(a, b, TruncDiv(a, b), TruncMod(a, b));
  }

  lemma QuotientAndRemainder(a: int, b: int, q: int, r: int)
    requires b != 0 && q == TruncDiv(a, b) && r == TruncMod(a, b)
    ensures a == q * b + r
  {
  }

  lemma RemainderSmall(a: nat, b: nat)
    requires b > 0
    ensures 0 <= a % b < b && (a == 0 ==> a % b == 0)
  {
  }

  lemma QuotientIsUnique(a: int, b: int, q: int, r: int, q1: int, r1: int)
    requires b != 0 && Divides(a, b, q, r) && Divides(a, b, q1, r1)
    ensures q == q1 && r == r1
  {
    assert (q - q1) * b == r1 - r;
    assert Magnitude(r1 - r) < Magnitude(b);
    if q > q1 {
      Larger(q - q1, b);
    } else if q < q1 {
      assert (q1 - q) * b == r - r1;
      Larger(q1 - q, b);
    }
  }

  lemma Larger(k: nat, b: int)
    requires k >= 1
    ensures Magnitude(k * b) >= Magnitude(b)
  {
    if b >= 0 {
      assert (k - 1) * b >= 0;
      assert k * b == (k - 1) * b + b;
    } else {
      assert (k - 1) * -b >= 0;
      assert k * b == -((k - 1) * -b) + b;
    }
  }

  /** Truncation to w bits gives the one value of the signed range that differs by a multiple of 2^w. */
  lemma WrapIsSigned(w: nat, n: int, r: int)
    requires w > 0
    ensures r == Wrap(w, n) <==> (0 <= r + Pow2(w - 1) && r < Pow2(w - 1) && exists k :: n == r + k * Pow2(w))
  {
    var j := WrapShift(w, n);
    assert n == Wrap(w, n) + (-j) * Pow2(w) by {
      assert (-j) * Pow2(w) == -(j * Pow2(w));
    }
    WrappedFits(w, n);
    if 0 <= r + Pow2(w - 1) && r < Pow2(w - 1) {
      if k :| n == r + k * Pow2(w) {
        WrapAlike(w, n, r, k);
        WrapFits(w, r);
      }
    }
  }

  /** Operands of different types are refused by every operator, whatever they are. */
  lemma MixedOperandsRefused(l: Expr, r: Expr, op: ArithOp, compare: CompareOp)
    requires WellTyped(l) && WellTyped(r)
    ensures TypeOf(l) != TypeOf(r) ==>
              CheckedType(Arith(op, l, r)).None? && CheckedType(Compare(compare, l, r)).None?
    ensures TypeOf(l) == TypeOf(r) ==> CheckedType(Compare(compare, l, r)) == Some(BoolTy)
    ensures TypeOf(l) == TypeOf(r) ==>
              CheckedType(Arith(op, l, r)) == (if TypeOf(l) == BoolTy then None else Some(TypeOf(l)))
    ensures CheckedType(Neg(l)) == (if TypeOf(l) == BoolTy then None else Some(TypeOf(l)))
    ensures CheckedType(Not(l)) == (if TypeOf(l) == BoolTy then Some(BoolTy) else None)
  {
  }

  predicate HasType(v: Value, t: Type)
  {
    match t
    case IntTy(w) => v.IntValue? && Fits(w, v.n)
    case BoolTy => v.BoolValue?
  }

  /** What checks has at run time the type it was given, in the range of that type. */
  lemma {:induction false} ValuesHaveTheirType(e: Expr, env: Env)
    requires WellTyped(e) && EnvOk(env, e)
    ensures Run(e, env).Some? ==> HasType(Run(e, env).value, TypeOf(e))
  {
    match e
    case Lit(w, n) => WrappedFits(w, n);
    case Truth(_) =>
    case Variable(_, _) =>
    case Neg(x) =>
      ValuesHaveTheirType(x, env);
      if Run(x, env).Some? {
        WrappedFits(TypeOf(x).width, -AsInt(Run(x, env).value));
      }
    case Not(x) => ValuesHaveTheirType(x, env);
    case Cast(w, x) =>
      if Run(x, env).Some? {
        WrappedFits(w, AsInt(Run(x, env).value));
      }
    case Arith(op, l, r) =>
      ValuesHaveTheirType(l, env);
      if Run(e, env).Some? {
        ArithFits(TypeOf(l).width, op, AsInt(Run(l, env).value), AsInt(Run(r, env).value));
      }
    case Compare(_, l, r) =>
  }

  lemma ArithFits(w: Width, op: ArithOp, a: int, b: int)
    requires Fits(w, a) && RunArith(w, op, a, b).Some?
    ensures Fits(w, RunArith(w, op, a, b).value)
  {
    match op
    case Add => WrappedFits(w, a + b);
    case Sub => WrappedFits(w, a - b);
    case Mul => WrappedFits(w, a * b);
    case Div =>
    case Mod => RemainderFits(w, a, b);
  }

  /** The union of a fresh node is zero, so that a minus on a truth value would be marked as false. */
  lemma MinusOnTruth(b: bool)
    ensures Fold(Neg(Truth(b))) == Some(BoolValue(false)) && CheckedType(Neg(Truth(b))).None?
  {
  }

  // ---------- where they differ ----------

  lemma LiteralRuns(w: Width, n: int, env: Env)
    requires Fits(w, n)
    ensures Run(Lit(w, n), env) == Some(IntValue(n))
  {
    WrapFits(w, n);
  }

  /**
   * A narrowing cast folds to the value it had, and a comparison sees the difference, for every
   * value that does not fit.
   */
  lemma NarrowingCastIsNotTruncated(wide: nat, narrow: nat, n: int, env: Env)
    requires 0 < narrow < wide <= 64 && Fits(wide, n)
    ensures var e := Compare(Eq, Cast(narrow, Lit(wide, n)), Lit(narrow, Wrap(narrow, n)));
            WellTyped(e) && Run(e, env) == Some(BoolValue(true)) && Emit(e, env) == Some(BoolValue(Fits(narrow, n)))
  {
    var small := Wrap(narrow, n);
    var left, right := Cast(narrow, Lit(wide, n)), Lit(narrow, small);
    WrappedFits(narrow, n);
    LiteralRuns(wide, n, env);
    LiteralRuns(narrow, small, env);
    assert Run(left, env) == Some(IntValue(small)) && Run(right, env) == Some(IntValue(small));
    assert Fold(left) == Some(IntValue(n)) && Fold(right) == Some(IntValue(small));
    if Fits(narrow, n) {
      WrapFits(narrow, n);
    }
  }

  // ---------- in the tree ----------

  function Operands(e: Expr): (es: seq<Expr>)
    ensures forall i :: 0 <= i < |es| ==> es[i] < e
  {
    match e
    case Neg(x) => [x]
    case Not(x) => [x]
    case Cast(_, x) => [x]
    case Arith(_, l, r) => [l, r]
    case Compare(_, l, r) => [l, r]
    case _ => []
  }

  ghost function NodesOf(kids: seq<Node>): set<Node>
  {
    set k, n | k in kids && n in k.Repr :: n
  }

  /** A node of the syntax tree: what it says never changes, the type checker writes the rest. */
  class Node {
    const expr: Expr
    const kids: seq<Node>
    ghost const Repr: set<Node>
    var checkedType: Option<Type>
    var isFoldableConst: bool
    var isLlvmConstSafe: bool
    var constValue: Value

    constructor (expr: Expr, kids: seq<Node>)
      requires |kids| == |Operands(expr)|
      requires forall i :: 0 <= i < |kids| ==> kids[i].expr == Operands(expr)[i] && kids[i].Valid()
      requires forall i, j :: 0 <= i < j < |kids| ==> kids[i].Repr !! kids[j].Repr
      ensures Valid() && this.expr == expr && Repr == {this} + NodesOf(kids)
      ensures !isFoldableConst && constValue == ZEROED
    {
      this.expr, this.kids, Repr := expr, kids, {this} + NodesOf(kids);
      checkedType, isFoldableConst, isLlvmConstSafe, constValue := None, false, false, ZEROED;
    }

    /** A tree of nodes for an expression: no node is shared. */
    ghost predicate Valid()
      decreases expr
    {
      && Repr == {this} + NodesOf(kids) && this !in NodesOf(kids)
      && |kids| == |Operands(expr)|
      && (forall i :: 0 <= i < |kids| ==> kids[i].expr == Operands(expr)[i] && kids[i].Valid())
      && (forall i, j :: 0 <= i < j < |kids| ==> kids[i].Repr !! kids[j].Repr)
    }

    /** Every node below holds its type and is marked exactly as `Fold` says. */
    ghost predicate Annotated()
      requires Valid()
      reads Repr
      decreases expr
    {
      && checkedType == Some(TypeOf(expr)) && Constant() == Fold(expr) && isLlvmConstSafe == Fold(expr).Some?
      && forall i :: 0 <= i < |kids| ==> kids[i].Annotated()
    }

    function Constant(): Option<Value>
      reads this
    {
      if isFoldableConst then Some(constValue) else None
    }

    method SetConstant(v: Value)
      modifies this`isFoldableConst, this`isLlvmConstSafe, this`constValue
      ensures Constant() == Some(v) && isLlvmConstSafe
    {
      isFoldableConst, isLlvmConstSafe, constValue := true, true, v;
    }

    method FoldUnaryOp(isNot: bool, operand: Node)
      requires operand != this && !isFoldableConst
      modifies this`isFoldableConst, this`isLlvmConstSafe, this`constValue
      ensures Constant() == FoldUnary(isNot, old(operand.Constant()), old(constValue))
      ensures if Constant().Some? then isLlvmConstSafe
              else constValue == old(constValue) && isLlvmConstSafe == old(isLlvmConstSafe)
    {
      if !operand.isFoldableConst {
        return;
      }
      if isNot {
        if operand.constValue.BoolValue? {
          SetConstant(BoolValue(!operand.constValue.b));
        }
      } else {
        SetConstant(if operand.constValue.IntValue? then IntValue(-operand.constValue.n)
                    else BoolValue(AsTruth(constValue)));
      }
    }

    method FoldArithOp(op: ArithOp, l: Node, r: Node)
      requires l != this && r != this && !isFoldableConst
      modifies this`isFoldableConst, this`isLlvmConstSafe, this`constValue
      ensures Constant() == FoldArith(op, old(l.Constant()), old(r.Constant()))
      ensures if Constant().Some? then isLlvmConstSafe
              else constValue == old(constValue) && isLlvmConstSafe == old(isLlvmConstSafe)
    {
      if !l.isFoldableConst || !r.isFoldableConst || !l.constValue.IntValue? || !r.constValue.IntValue? {
        return;
      }
      var v1, v2 := l.constValue.n, r.constValue.n;
      var res: int;
      match op {
        case Add => res := v1 + v2;
        case Sub => res := v1 - v2;
        case Mul => res := v1 * v2;
        case Div =>
          if v2 == 0 {
            return;
          }
          res := TruncDiv(v1, v2);
        case Mod =>
          if v2 == 0 {
            return;
          }
          res := TruncMod(v1, v2);
      }
      SetConstant(IntValue(res));
    }

    method FoldCompareOp(op: CompareOp, l: Node, r: Node)
      requires l != this && r != this && !isFoldableConst
      modifies this`isFoldableConst, this`isLlvmConstSafe, this`constValue
      ensures Constant() == FoldCompare(op, old(l.Constant()), old(r.Constant()))
      ensures if Constant().Some? then isLlvmConstSafe
              else constValue == old(constValue) && isLlvmConstSafe == old(isLlvmConstSafe)
    {
      if !l.isFoldableConst || !r.isFoldableConst || !l.constValue.IntValue? || !r.constValue.IntValue? {
        return;
      }
      var v1, v2 := l.constValue.n, r.constValue.n;
      var res: bool;
      match op {
        case Eq => res := v1 == v2;
        case Neq => res := v1 != v2;
        case Lt => res := v1 < v2;
        case Gt => res := v1 > v2;
        case Le => res := v1 <= v2;
        case Ge => res := v1 >= v2;
      }
      SetConstant(BoolValue(res));
    }

    method FoldCastNode(operand: Node)
      requires operand != this && !isFoldableConst
      modifies this`isFoldableConst, this`isLlvmConstSafe, this`constValue
      ensures Constant() == FoldCast(old(operand.Constant()))
      ensures if Constant().Some? then isLlvmConstSafe
              else constValue == old(constValue) && isLlvmConstSafe == old(isLlvmConstSafe)
    {
      if !operand.isFoldableConst {
        return;
      }
      if operand.constValue.BoolValue? {
        SetConstant(IntValue(if operand.constValue.b then 1 else 0));
      } else {
        SetConstant(operand.constValue);
      }
    }

    /** check_expression: types and folds the tree in place, or finds an error. */
    method CheckExpression() returns (t: Option<Type>)
      requires Valid()
      modifies Repr
      ensures t == CheckedType(expr)
      ensures t.Some? ==> Annotated()
      decreases expr, 1
    {
      isFoldableConst, isLlvmConstSafe := false, false;
      match expr {
        case Lit(w, n) =>
          SetConstant(IntValue(n));
          t := Some(IntTy(w));
        case Truth(b) =>
          SetConstant(BoolValue(b));
          t := Some(BoolTy);
        case Variable(ty, _) =>
          t := Some(ty);
        case Neg(_) => t := CheckUnary(false);
        case Not(_) => t := CheckUnary(true);
        case Arith(_, _, _) => t := CheckBinary();
        case Compare(_, _, _) => t := CheckBinary();
        case Cast(w, _) => t := CheckCast(w);
      }
      checkedType := t;
    }

    method CheckUnary(isNot: bool) returns (t: Option<Type>)
      requires Valid() && (if isNot then expr.Not? else expr.Neg?) && !isFoldableConst && !isLlvmConstSafe
      modifies Repr
      ensures t == CheckedType(expr)
      ensures t.Some? ==> Constant() == Fold(expr) && isLlvmConstSafe == Fold(expr).Some?
      ensures t.Some? ==> forall i :: 0 <= i < |kids| ==> kids[i].Annotated()
      decreases expr, 0
    {
      var x := kids[0];
      var ty := x.CheckExpression();
      if ty.None? || (if isNot then ty.value.IntTy? else ty.value.BoolTy?) {
        return None;
      }
      if Fold(x.expr).Some? {
        FoldTyped(x.expr);
      }
      FoldUnaryOp(isNot, x);
      return ty;
    }

    method CheckBinary() returns (t: Option<Type>)
      requires Valid() && (expr.Arith? || expr.Compare?) && !isFoldableConst && !isLlvmConstSafe
      modifies Repr
      ensures t == CheckedType(expr)
      ensures t.Some? ==> Constant() == Fold(expr) && isLlvmConstSafe == Fold(expr).Some?
      ensures t.Some? ==> forall i :: 0 <= i < |kids| ==> kids[i].Annotated()
      decreases expr, 0
    {
      var l, r := kids[0], kids[1];
      var lhs := l.CheckExpression();
      var rhs := r.CheckExpression();
      if lhs.None? || rhs.None? || lhs != rhs {
        return None;
      }
      if expr.Arith? {
        if lhs.value.BoolTy? {
          return None;
        }
        FoldArithOp(expr.arith, l, r);
        return lhs;
      }
      FoldCompareOp(expr.compare, l, r);
      return Some(BoolTy);
    }

    method CheckCast(w: Width) returns (t: Option<Type>)
      requires Valid() && expr.Cast? && w == expr.width && !isFoldableConst && !isLlvmConstSafe
      modifies Repr
      ensures t == CheckedType(expr)
      ensures t.Some? ==> Constant() == Fold(expr) && isLlvmConstSafe == Fold(expr).Some?
      ensures t.Some? ==> forall i :: 0 <= i < |kids| ==> kids[i].Annotated()
      decreases expr, 0
    {
      var ty := kids[0].CheckExpression();
      if ty.None? {
        return None;
      }
      FoldCastNode(kids[0]);
      return Some(IntTy(w));
    }

    /**
     * codegen_expr on a checked tree, with the values its instructions will have: a marked
     * node becomes its constant, whatever is below it.
     */
    method Generate(env: Env) returns (r: Option<Value>)
      requires Valid() && Annotated()
      ensures r == Emit(expr, env)
      ensures WellTyped(expr) && Safe(expr) ==> r == Run(expr, env)
      decreases expr
    {
      if WellTyped(expr) && Safe(expr) {
        FoldingPreservesMeaning(expr, env);
      }
      if isFoldableConst {
        return Some(Emitted(checkedType.value, constValue));
      }
      match |kids| {
        case 0 => return Some(env(expr.id));
        case 1 =>
          var x := kids[0].Generate(env);
          return Step1(expr, x);
        case _ =>
          var x := kids[0].Generate(env);
          var y := kids[1].Generate(env);
          return Step2(expr, x, y);
      }
    }
  }
}
