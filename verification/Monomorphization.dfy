/** The worklist that turns instances of generic structs into concrete structs. */
module Monomorphization {
  import opened Options

  const MAX_DEPTH: nat := 64

  datatype Ty = Prim(id: nat) | Wrapped(kind: nat, inner: Ty) | Inst(sym: nat, args: seq<Ty>)

  /** The written type of a field, with the struct's own type parameters in it. */
  datatype Term =
    | Plain(id: nat)
    | Unknown
    | Param(index: nat)
    | Wrap(kind: nat, inner: Term)
    | App(sym: nat, args: seq<Term>)

  datatype Generic = Generic(paramCount: nat, fields: seq<Term>)

  type Generics = map<nat, Generic>

  datatype Job = Job(sym: nat, inst: Ty, args: seq<Ty>, depth: nat)

  datatype Error = ArgMismatch(sym: nat) | TooDeep(sym: nat) | UnknownType | NotGeneric(sym: nat) | Recursive(sym: nat)

  // ---------- what a field resolves to ----------

  /** The type a term stands for; none when it does not resolve or when instantiation is refused for its depth. */
  function Resolve(g: Generics, t: Term, args: seq<Ty>, allowed: bool): Option<Ty>
    decreases t, 0
  {
    match t
    case Plain(id) => Some(Prim(id))
    case Unknown => None
    case Param(i) => if i < |args| then Some(args[i]) else None
    case Wrap(k, x) => (
      match Resolve(g, x, args, allowed)
      case None => None
      case Some(ty) => Some(Wrapped(k, ty)))
    case App(sym, xs) => (
      match ResolveFrom(g, xs, 0, args, allowed)
      case None => None
      case Some(tys) =>
        if sym in g && g[sym].paramCount == |tys| && allowed then Some(Inst(sym, tys)) else None)
  }

  /** The arguments from the i-th on, all of them or none. */
  function ResolveFrom(g: Generics, ts: seq<Term>, i: nat, args: seq<Ty>, allowed: bool): (r: Option<seq<Ty>>)
    requires i <= |ts|
    ensures r.Some? ==> |r.value| == |ts| - i
    decreases ts, 1, |ts| - i
  {
    if i == |ts| then Some([])
    else
      match Resolve(g, ts[i], args, allowed)
      case None => None
      case Some(ty) =>
        match ResolveFrom(g, ts, i + 1, args, allowed)
        case None => None
        case Some(tys) => Some([ty] + tys)
  }

  /** The fields of an instance: each resolved on its own, missing when it does not resolve. */
  function Fields(g: Generics, ts: seq<Term>, args: seq<Ty>, allowed: bool): (r: seq<Option<Ty>>)
    ensures |r| == |ts|
  {
    seq(|ts|, i requires 0 <= i < |ts| => Resolve(g, ts[i], args, allowed))
  }

  /** The error that resolving a term reports: the first one met, which ends it. */
  function Fault(g: Generics, t: Term, args: seq<Ty>, allowed: bool): Option<Error>
    decreases t, 0
  {
    match t
    case Plain(_) => None
    case Unknown => Some(UnknownType)
    case Param(i) => if i < |args| then None else Some(UnknownType)
    case Wrap(_, x) => Fault(g, x, args, allowed)
    case App(sym, xs) =>
      var inside := FaultFrom(g, xs, 0, args, allowed);
      if inside.Some? then inside
      else if sym !in g then Some(NotGeneric(sym))
      else if g[sym].paramCount != |xs| then Some(ArgMismatch(sym))
      else if !allowed then Some(TooDeep(sym))
      else None
  }

  function FaultFrom(g: Generics, ts: seq<Term>, i: nat, args: seq<Ty>, allowed: bool): Option<Error>
    requires i <= |ts|
    decreases ts, 1, |ts| - i
  {
    if i == |ts| then None
    else
      match Fault(g, ts[i], args, allowed)
      case Some(e) => Some(e)
      case None => FaultFrom(g, ts, i + 1, args, allowed)
  }

  function Reported(fault: Option<Error>): seq<Error> { if fault.Some? then [fault.value] else [] }

  /** The errors of the first j fields, each resolved on its own. */
  function FieldFaults(g: Generics, ts: seq<Term>, j: nat, args: seq<Ty>, allowed: bool): seq<Error>
    requires j <= |ts|
  {
    if j == 0 then [] else FieldFaults(g, ts, j - 1, args, allowed) + Reported(Fault(g, ts[j - 1], args, allowed))
  }

  /** How many applications a term holds: each can queue one instance. */
  function Apps(t: Term): nat
    decreases t, 0
  {
    match t
    case Wrap(_, x) => Apps(x)
    case App(_, xs) => 1 + AppsFrom(xs, 0)
    case _ => 0
  }

  function AppsFrom(ts: seq<Term>, i: nat): nat
    requires i <= |ts|
    decreases ts, 1, |ts| - i
  {
    if i == |ts| then 0 else Apps(ts[i]) + AppsFrom(ts, i + 1)
  }

  /** A term reports one error if it does not resolve, and none if it does. */
  lemma {:induction false} FaultIffUnresolved(g: Generics, t: Term, args: seq<Ty>, allowed: bool)
    ensures Fault(g, t, args, allowed).Some? <==> Resolve(g, t, args, allowed).None?
    decreases t, 0
  {
    match t
    case Wrap(_, x) => FaultIffUnresolved(g, x, args, allowed);
    case App(_, xs) => FaultyArgs(g, xs, 0, args, allowed);
    case _ =>
  }

  lemma {:induction false} FaultyArgs(g: Generics, ts: seq<Term>, i: nat, args: seq<Ty>, allowed: bool)
    requires i <= |ts|
    ensures FaultFrom(g, ts, i, args, allowed).Some? <==> ResolveFrom(g, ts, i, args, allowed).None?
    decreases ts, 1, |ts| - i
  {
    if i < |ts| {
      FaultIffUnresolved(g, ts[i], args, allowed);
      FaultyArgs(g, ts, i + 1, args, allowed);
    }
  }

  // ---------- resolving is substituting ----------

  /** The type parameters of a struct with n of them, in order. */
  function Params(n: nat): (ts: seq<Term>)
    ensures |ts| == n
  {
    seq(n, i requires 0 <= i < n => Param(i))
  }

  lemma {:induction false} ParamsResolve(g: Generics, n: nat, i: nat, args: seq<Ty>, allowed: bool)
    requires i <= n == |args|
    ensures ResolveFrom(g, Params(n), i, args, allowed) == Some(args[i..])
    decreases n - i
  {
    if i < n {
      ParamsResolve(g, n, i + 1, args, allowed);
      assert args[i..] == [args[i]] + args[i + 1..];
    } else {
      assert args[i..] == [];
    }
  }

  /** Inside `S<P0, ..., Pn>` the application of S to its own parameters is the instance itself. */
  lemma OwnInstance(g: Generics, sym: nat, args: seq<Ty>)
    requires sym in g && g[sym].paramCount == |args|
    ensures Resolve(g, App(sym, Params(|args|)), args, true) == Some(Inst(sym, args))
  {
    ParamsResolve(g, |args|, 0, args, true);
    assert args[0..] == args;
  }

  /** The term with other terms put for its parameters. */
  function Substitute(t: Term, us: seq<Term>): Term
    decreases t, 0
  {
    match t
    case Plain(_) => t
    case Unknown => t
    case Param(i) => if i < |us| then us[i] else Unknown
    case Wrap(k, x) => Wrap(k, Substitute(x, us))
    case App(sym, xs) => App(sym, SubstituteFrom(xs, 0, us))
  }

  function SubstituteFrom(ts: seq<Term>, i: nat, us: seq<Term>): (r: seq<Term>)
    requires i <= |ts|
    ensures |r| == |ts| - i
    decreases ts, 1, |ts| - i
  {
    if i == |ts| then [] else [Substitute(ts[i], us)] + SubstituteFrom(ts, i + 1, us)
  }

  lemma {:induction false} SubstitutedAt(ts: seq<Term>, i: nat, us: seq<Term>, k: nat)
    requires i + k < |ts|
    ensures SubstituteFrom(ts, i, us)[k] == Substitute(ts[i + k], us)
    decreases k
  {
    if k > 0 {
      SubstitutedAt(ts, i + 1, us, k - 1);
    }
  }

  lemma {:induction false} ResolvedAt(g: Generics, us: seq<Term>, i: nat, args: seq<Ty>, allowed: bool, k: nat)
    requires i + k < |us| && ResolveFrom(g, us, i, args, allowed).Some?
    ensures Resolve(g, us[i + k], args, allowed) == Some(ResolveFrom(g, us, i, args, allowed).value[k])
    decreases k
  {
    if k > 0 {
      ResolvedAt(g, us, i + 1, args, allowed, k - 1);
    }
  }

  /**
   * Resolving with arguments that come from resolving is resolving the term with those arguments
   * put in: parameters stand for the arguments of their own position, in every depth of the type.
   */
  lemma {:induction false} ResolvingComposes(g: Generics, t: Term, us: seq<Term>, args: seq<Ty>, allowed: bool)
    requires ResolveFrom(g, us, 0, args, allowed).Some?
    ensures Resolve(g, t, ResolveFrom(g, us, 0, args, allowed).value, allowed)
            == Resolve(g, Substitute(t, us), args, allowed)
    decreases t, 0
  {
    match t
    case Param(i) =>
      if i < |us| {
        ResolvedAt(g, us, 0, args, allowed, i);
      }
    case Wrap(_, x) => ResolvingComposes(g, x, us, args, allowed);
    case App(_, xs) => ResolvingComposesFrom(g, xs, 0, SubstituteFrom(xs, 0, us), us, args, allowed);
    case _ =>
  }

  lemma {:induction false} ResolvingComposesFrom(g: Generics, ts: seq<Term>, i: nat, ss: seq<Term>, us: seq<Term>,
                                                 args: seq<Ty>, allowed: bool)
    requires i <= |ts| && ss == SubstituteFrom(ts, 0, us) && ResolveFrom(g, us, 0, args, allowed).Some?
    ensures ResolveFrom(g, ts, i, ResolveFrom(g, us, 0, args, allowed).value, allowed)
            == ResolveFrom(g, ss, i, args, allowed)
    decreases ts, 1, |ts| - i
  {
    if i < |ts| {
      SubstitutedAt(ts, 0, us, i);
      ResolvingComposes(g, ts[i], us, args, allowed);
      ResolvingComposesFrom(g, ts, i + 1, ss, us, args, allowed);
    }
  }

  /** A type as it would be written out. */
  function Written(ty: Ty): Term
    decreases ty, 0
  {
    match ty
    case Prim(id) => Plain(id)
    case Wrapped(k, x) => Wrap(k, Written(x))
    case Inst(sym, args) => App(sym, WrittenFrom(args, 0))
  }

  function WrittenFrom(tys: seq<Ty>, i: nat): (r: seq<Term>)
    requires i <= |tys|
    ensures |r| == |tys| - i
    decreases tys, 1, |tys| - i
  {
    if i == |tys| then [] else [Written(tys[i])] + WrittenFrom(tys, i + 1)
  }

  /** Every instance in the type is of a generic struct, with as many arguments as that has parameters. */
  predicate Formed(g: Generics, ty: Ty)
  {
    match ty
    case Prim(_) => true
    case Wrapped(_, x) => Formed(g, x)
    case Inst(sym, args) =>
      sym in g && g[sym].paramCount == |args| && forall i :: 0 <= i < |args| ==> Formed(g, args[i])
  }

  /** A type written out resolves to itself, wherever it stands. */
  lemma {:induction false} WrittenResolves(g: Generics, ty: Ty, args: seq<Ty>)
    requires Formed(g, ty)
    ensures Resolve(g, Written(ty), args, true) == Some(ty)
    decreases ty, 0
  {
    match ty
    case Prim(_) =>
    case Wrapped(_, x) => WrittenResolves(g, x, args);
    case Inst(_, tys) =>
      WrittenResolveFrom(g, tys, 0, WrittenFrom(tys, 0), args);
      assert tys[0..] == tys;
  }

  lemma {:induction false} WrittenResolveFrom(g: Generics, tys: seq<Ty>, i: nat, ts: seq<Term>, args: seq<Ty>)
    requires i <= |tys| && ts == WrittenFrom(tys, 0) && forall k :: 0 <= k < |tys| ==> Formed(g, tys[k])
    ensures ResolveFrom(g, ts, i, args, true) == Some(tys[i..])
    decreases tys, 1, |tys| - i
  {
    if i < |tys| {
      WrittenAt(tys, 0, i);
      WrittenResolves(g, tys[i], args);
      WrittenResolveFrom(g, tys, i + 1, ts, args);
      assert tys[i..] == [tys[i]] + tys[i + 1..];
    }
  }

  lemma {:induction false} WrittenAt(tys: seq<Ty>, i: nat, k: nat)
    requires i + k < |tys|
    ensures WrittenFrom(tys, i)[k] == Written(tys[i + k])
    decreases k
  {
    if k > 0 {
      WrittenAt(tys, i + 1, k - 1);
    }
  }

  /** The fields of an instance whose arguments are written out: the declared fields with the arguments put in. */
  lemma FieldsSubstitute(g: Generics, fields: seq<Term>, us: seq<Term>, args: seq<Ty>, allowed: bool, k: nat)
    requires k < |fields| && ResolveFrom(g, us, 0, [], allowed) == Some(args)
    ensures Fields(g, fields, args, allowed)[k] == Resolve(g, Substitute(fields[k], us), [], allowed)
  {
    ResolvingComposes(g, fields[k], us, [], allowed);
  }

  // ---------- which error is reported ----------

  predicate Occurs(s: Term, t: Term)
    decreases t
  {
    || s == t
    || (t.Wrap? && Occurs(s, t.inner))
    || (t.App? && exists i :: 0 <= i < |t.args| && Occurs(s, t.args[i]))
  }

  /** The part of a term that an error is about. */
  predicate Blames(g: Generics, s: Term, args: seq<Ty>, allowed: bool, e: Error)
  {
    match e
    case UnknownType => s.Unknown? || (s.Param? && s.index >= |args|)
    case NotGeneric(sym) => s.App? && s.sym == sym && sym !in g
    case ArgMismatch(sym) => s.App? && s.sym == sym && sym in g && |s.args| != g[sym].paramCount
    case TooDeep(sym) => s.App? && s.sym == sym && sym in g && |s.args| == g[sym].paramCount && !allowed
    case Recursive(_) => false
  }

  /** What is reported is true of some part of the term. */
  lemma {:induction false} FaultIsReal(g: Generics, t: Term, args: seq<Ty>, allowed: bool) returns (s: Term)
    requires Fault(g, t, args, allowed).Some?
    ensures Occurs(s, t) && Blames(g, s, args, allowed, Fault(g, t, args, allowed).value)
    decreases t, 0
  {
    s := t;
    match t
    case Wrap(_, x) => s := FaultIsReal(g, x, args, allowed);
    case App(_, xs) =>
      if FaultFrom(g, xs, 0, args, allowed).Some? {
        var i;
        i, s := FaultFromIsReal(g, xs, 0, args, allowed);
      }
    case _ =>
  }

  lemma {:induction false} FaultFromIsReal(g: Generics, ts: seq<Term>, i: nat, args: seq<Ty>, allowed: bool)
    returns (k: nat, s: Term)
    requires i <= |ts| && FaultFrom(g, ts, i, args, allowed).Some?
    ensures k < |ts| && Occurs(s, ts[k]) && Blames(g, s, args, allowed, FaultFrom(g, ts, i, args, allowed).value)
    decreases ts, 1, |ts| - i
  {
    if Fault(g, ts[i], args, allowed).Some? {
      k := i;
      s := FaultIsReal(g, ts[i], args, allowed);
    } else {
      k, s := FaultFromIsReal(g, ts, i + 1, args, allowed);
    }
  }

  // ---------- the queue ----------

  predicate Queued(queue: seq<Job>, t: Ty) { exists i :: 0 <= i < |queue| && queue[i].inst == t }

  predicate DistinctInstances(queue: seq<Job>)
  {
    forall i, j :: 0 <= i < j < |queue| ==> queue[i].inst != queue[j].inst
  }

  /** Every instance inside the type has been queued. */
  predicate Known(queue: seq<Job>, t: Ty)
  {
    match t
    case Prim(_) => true
    case Wrapped(_, x) => Known(queue, x)
    case Inst(_, args) => Queued(queue, t) && forall i :: 0 <= i < |args| ==> Known(queue, args[i])
  }

  predicate AllKnown(queue: seq<Job>, ts: seq<Ty>) { forall i :: 0 <= i < |ts| ==> Known(queue, ts[i]) }

  lemma {:induction false} KnownGrows(queue: seq<Job>, more: seq<Job>, t: Ty)
    requires queue <= more && Known(queue, t)
    ensures Known(more, t)
    decreases t
  {
    match t
    case Prim(_) =>
    case Wrapped(_, x) => KnownGrows(queue, more, x);
    case Inst(_, args) =>
      var i :| 0 <= i < |queue| && queue[i].inst == t;
      assert more[i] == queue[i];
      forall k | 0 <= k < |args|
        ensures Known(more, args[k])
      {
        KnownGrows(queue, more, args[k]);
      }
  }

  lemma AllKnownGrow(queue: seq<Job>, more: seq<Job>, ts: seq<Ty>)
    requires queue <= more && AllKnown(queue, ts)
    ensures AllKnown(more, ts)
  {
    forall k | 0 <= k < |ts|
      ensures Known(more, ts[k])
    {
      KnownGrows(queue, more, ts[k]);
    }
  }

  predicate FieldsKnown(queue: seq<Job>, fields: seq<Option<Ty>>)
  {
    forall k :: 0 <= k < |fields| && fields[k].Some? ==> Known(queue, fields[k].value)
  }

  lemma FieldsKnownGrow(queue: seq<Job>, more: seq<Job>, fields: seq<Option<Ty>>)
    requires queue <= more && FieldsKnown(queue, fields)
    ensures FieldsKnown(more, fields)
  {
    forall k | 0 <= k < |fields| && fields[k].Some?
      ensures Known(more, fields[k].value)
    {
      KnownGrows(queue, more, fields[k].value);
    }
  }

  /** A job stands for an instance of a known generic, within the depth limit, of known arguments. */
  predicate Sound(g: Generics, queue: seq<Job>, j: Job)
  {
    && j.sym in g && |j.args| == g[j.sym].paramCount && j.inst == Inst(j.sym, j.args)
    && 1 <= j.depth <= MAX_DEPTH + 1 && AllKnown(queue, j.args)
  }

  ghost predicate AllSound(g: Generics, queue: seq<Job>)
  {
    DistinctInstances(queue) && forall i :: 0 <= i < |queue| ==> Sound(g, queue, queue[i])
  }

  lemma PushKeeps(g: Generics, queue: seq<Job>, j: Job)
    requires AllSound(g, queue) && Sound(g, queue, j) && !Queued(queue, j.inst)
    ensures AllSound(g, queue + [j])
  {
    var more := queue + [j];
    forall i | 0 <= i < |more|
      ensures Sound(g, more, more[i])
    {
      AllKnownGrow(queue, more, more[i].args);
    }
  }

  // ---------- why the worklist runs dry ----------

  function Pow(b: nat, e: nat): nat { if e == 0 then 1 else b * Pow(b, e - 1) }

  /** A job can queue up to `bound` jobs one level deeper: it weighs more than all of them. */
  function Weight(bound: nat, depth: nat): nat
  {
    if depth > MAX_DEPTH + 1 then 0 else Pow(bound + 1, MAX_DEPTH + 2 - depth)
  }

  function Pending(bound: nat, queue: seq<Job>, q: nat): nat
    requires q <= |queue|
    decreases |queue| - q
  {
    if q == |queue| then 0 else Weight(bound, queue[q].depth) + Pending(bound, queue, q + 1)
  }

  lemma {:induction false} PendingMore(bound: nat, queue: seq<Job>, more: seq<Job>, q: nat, depth: nat)
    requires q <= |queue| && queue <= more
    requires forall i :: |queue| <= i < |more| ==> more[i].depth == depth
    ensures Pending(bound, more, q) == Pending(bound, queue, q) + (|more| - |queue|) * Weight(bound, depth)
    decreases |more| - q
  {
    if q < |queue| {
      PendingMore(bound, queue, more, q + 1, depth);
    } else if q < |more| {
      AllDeep(bound, more, q, depth);
    }
  }

  lemma {:induction false} AllDeep(bound: nat, more: seq<Job>, q: nat, depth: nat)
    requires q <= |more| && forall i :: q <= i < |more| ==> more[i].depth == depth
    ensures Pending(bound, more, q) == (|more| - q) * Weight(bound, depth)
    decreases |more| - q
  {
    if q < |more| {
      AllDeep(bound, more, q + 1, depth);
      var n, w := |more| - q, Weight(bound, depth);
      assert n * w == (n - 1) * w + w;
    }
  }

  lemma {:induction false} PowPositive(b: nat, e: nat)
    requires b >= 1
    ensures Pow(b, e) >= 1
    decreases e
  {
    if e > 0 {
      PowPositive(b, e - 1);
    }
  }

  /** Taking a job off the queue and queueing what it needs makes the pending weight smaller. */
  lemma Shrinks(bound: nat, queue: seq<Job>, more: seq<Job>, q: nat, depth: nat)
    requires q < |queue| && queue <= more && queue[q].depth == depth <= MAX_DEPTH + 1
    requires |more| - |queue| <= bound && (depth == MAX_DEPTH + 1 ==> more == queue)
    requires forall i :: |queue| <= i < |more| ==> more[i].depth == depth + 1
    ensures Pending(bound, more, q + 1) < Pending(bound, queue, q)
  {
    var n := |more| - |queue|;
    PendingMore(bound, queue, more, q + 1, depth + 1);
    PowPositive(bound + 1, MAX_DEPTH + 2 - depth);
    if depth <= MAX_DEPTH {
      var w := Weight(bound, depth + 1);
      PowPositive(bound + 1, MAX_DEPTH + 1 - depth);
      assert Weight(bound, depth) == (bound + 1) * w;
      Fewer(n, bound, w);
    }
  }

  lemma Fewer(n: nat, bound: nat, w: nat)
    requires n <= bound && w >= 1
    ensures n * w < (bound + 1) * w
  {}

  // ---------- one scan of the queue ----------

  /** The depth of the last job that had still to be done; `start` if there was none. */
  function LastDepth(queue: seq<Job>, made: set<Ty>, start: nat): nat
  {
    if queue == [] then start
    else if queue[|queue| - 1].inst !in made then queue[|queue| - 1].depth
    else LastDepth(queue[..|queue| - 1], made, start)
  }

  /** All that was or is still to be done lies deeper than the floor. */
  predicate Deeper(queue: seq<Job>, made: set<Ty>, floor: nat)
  {
    forall i :: 0 <= i < |queue| && queue[i].inst !in made ==> queue[i].depth > floor
  }

  lemma {:induction false} LastIsDeeper(queue: seq<Job>, made: set<Ty>, start: nat, floor: nat)
    requires Deeper(queue, made, floor)
    ensures (forall i :: 0 <= i < |queue| ==> queue[i].inst in made) ==> LastDepth(queue, made, start) == start
    ensures (exists i :: 0 <= i < |queue| && queue[i].inst !in made) ==> LastDepth(queue, made, start) > floor
    decreases |queue|
  {
    if queue != [] && queue[|queue| - 1].inst in made {
      LastIsDeeper(queue[..|queue| - 1], made, start, floor);
    }
  }

  /**
   * After q turns on a queue that was `before`, with the instances `made` concrete and
   * the depth at `start`: the first q are concrete, the others as they were.
   */
  ghost predicate Progress(before: seq<Job>, made: set<Ty>, start: nat, floor: nat, q: nat, queue: seq<Job>,
                           keys: set<Ty>, depth: nat)
  {
    && q <= |queue| && before <= queue && made <= keys && Deeper(queue, made, floor)
    && (forall i :: 0 <= i < q ==> queue[i].inst in keys)
    && (forall i :: q <= i < |queue| ==> (queue[i].inst in keys <==> queue[i].inst in made))
    && depth == LastDepth(queue[..q], made, start)
    && ((queue == before && keys == made) || exists i :: 0 <= i < q && i < |before| && before[i].inst !in made)
  }

  /** What one turn does to the job at q. */
  ghost predicate OneTurn(q: nat, queue: seq<Job>, keys: set<Ty>, depth: nat, queue1: seq<Job>, keys1: set<Ty>,
                          depth1: nat)
    requires q < |queue|
  {
    && queue <= queue1 && DistinctInstances(queue1) && (forall t <- keys :: Queued(queue, t))
    && (forall i :: |queue| <= i < |queue1| ==> queue1[i].depth == depth1 + 1)
    && if queue[q].inst in keys then queue1 == queue && keys1 == keys && depth1 == depth
       else keys1 == keys + {queue[q].inst} && depth1 == queue[q].depth
  }

  lemma TurnProgresses(before: seq<Job>, made: set<Ty>, start: nat, floor: nat, q: nat, queue: seq<Job>, keys: set<Ty>,
                       depth: nat, queue1: seq<Job>, keys1: set<Ty>, depth1: nat)
    requires Progress(before, made, start, floor, q, queue, keys, depth) && q < |queue|
    requires OneTurn(q, queue, keys, depth, queue1, keys1, depth1)
    ensures Progress(before, made, start, floor, q + 1, queue1, keys1, depth1)
  {
    assert queue1[..q + 1][..q] == queue[..q] && queue1[q] == queue[q];
    NewAreNotMade(queue, keys, queue1);
  }

  lemma NewAreNotMade(queue: seq<Job>, keys: set<Ty>, queue1: seq<Job>)
    requires queue <= queue1 && DistinctInstances(queue1) && forall t <- keys :: Queued(queue, t)
    ensures forall i :: |queue| <= i < |queue1| ==> queue1[i].inst !in keys
  {
    forall i, k | |queue| <= i < |queue1| && 0 <= k < |queue|
      ensures queue1[i].inst != queue[k].inst
    {
      assert queue1[k] == queue[k];
    }
  }

  // ---------- the type checker's state ----------

  /** At most `n` new jobs, one level below the present depth; none beyond the limit. */
  predicate GrownBy(before: seq<Job>, after: seq<Job>, depth: nat, n: int)
  {
    && before <= after && |after| <= |before| + n && (depth > MAX_DEPTH ==> after == before)
    && forall i :: |before| <= i < |after| ==> after[i].depth == depth + 1
  }

  lemma GrownTwice(a: seq<Job>, b: seq<Job>, c: seq<Job>, depth: nat, m: int, n: int)
    requires GrownBy(a, b, depth, m) && GrownBy(b, c, depth, n)
    ensures GrownBy(a, c, depth, m + n)
  {
    assert forall i :: |a| <= i < |b| ==> c[i] == b[i];
  }

  /** What the first j fields of a job have added to the queue and to the errors. */
  predicate Costs(g: Generics, job: Job, j: nat, depth: nat, jobs: seq<Job>, queue: seq<Job>, reported: seq<Error>,
                  errors: seq<Error>, used: nat)
  {
    && job.sym in g && j <= |g[job.sym].fields|
    && GrownBy(jobs, queue, depth, used)
    && used + AppsFrom(g[job.sym].fields, j) == AppsFrom(g[job.sym].fields, 0)
    && errors == reported + FieldFaults(g, g[job.sym].fields, j, job.args, depth <= MAX_DEPTH)
  }

  lemma CostsNothing(g: Generics, job: Job, depth: nat, queue: seq<Job>, errors: seq<Error>) returns (used: nat)
    requires job.sym in g
    ensures Costs(g, job, 0, depth, queue, queue, errors, errors, used)
  {
    used := 0;
  }

  lemma CostsMore(g: Generics, job: Job, j: nat, depth: nat, jobs: seq<Job>, mid: seq<Job>, queue: seq<Job>,
                  reported: seq<Error>, told: seq<Error>, errors: seq<Error>, used: nat) returns (more: nat)
    requires Costs(g, job, j, depth, jobs, mid, reported, told, used) && j < |g[job.sym].fields|
    requires GrownBy(mid, queue, depth, Apps(g[job.sym].fields[j]))
    requires errors == told + Reported(Fault(g, g[job.sym].fields[j], job.args, depth <= MAX_DEPTH))
    ensures Costs(g, job, j + 1, depth, jobs, queue, reported, errors, more)
  {
    GrownTwice(jobs, mid, queue, depth, used, Apps(g[job.sym].fields[j]));
    more := used + Apps(g[job.sym].fields[j]);
  }

  class TypeChecker {
    const generics: Generics
    var queue: seq<Job>
    var concrete: map<Ty, seq<Option<Ty>>>
    var depth: nat
    var computing: set<nat>
    var isDraining: bool
    var errors: seq<Error>
    /** The instance whose concrete type exists but is still being given its fields. */
    ghost var filling: Option<Ty>

    constructor (generics: Generics)
      ensures Valid() && this.generics == generics && queue == [] && depth == 0 && errors == []
    {
      this.generics := generics;
      queue, concrete, depth, computing, isDraining, errors := [], map[], 0, {}, false, [];
      filling := None;
    }

    /** Instances are queued once, concrete ones among them, with the fields their arguments give. */
    ghost predicate Stands()
      reads `queue, `concrete, `filling
    {
      && AllSound(generics, queue)
      && (forall t :: t in concrete ==> Queued(queue, t))
      && (forall i :: 0 <= i < |queue| && queue[i].inst in concrete && filling != Some(queue[i].inst) ==>
            Complete(queue[i]))
    }

    /** The concrete type has the resolved fields, and every instance in them has been queued too. */
    ghost predicate Complete(j: Job)
      reads `queue, `concrete
      requires j.inst in concrete
    {
      && j.sym in generics
      && concrete[j.inst] == Fields(generics, generics[j.sym].fields, j.args, j.depth <= MAX_DEPTH)
      && FieldsKnown(queue, concrete[j.inst])
    }

    ghost predicate Valid()
      reads this
    {
      Stands() && computing == {} && !isDraining && filling == None
    }

    /** `instantiate_generic_struct`: finds or queues an instance. */
    method Instantiate(sym: nat, args: seq<Ty>) returns (r: Option<Ty>)
      requires Stands() && AllKnown(queue, args) && sym in generics
      modifies this`queue, this`errors
      ensures Stands() && old(queue) <= queue
      ensures r == if |args| == generics[sym].paramCount && depth <= MAX_DEPTH then Some(Inst(sym, args)) else None
      ensures r.None? ==>
                queue == old(queue)
                && errors == old(errors) + [if |args| != generics[sym].paramCount then ArgMismatch(sym)
                                            else TooDeep(sym)]
      ensures r.Some? ==> errors == old(errors) && Known(queue, r.value)
      ensures r.Some? ==>
                queue == if Queued(old(queue), r.value) then old(queue)
                         else old(queue) + [Job(sym, r.value, args, depth + 1)]
    {
      if generics[sym].paramCount != |args| {
        errors := errors + [ArgMismatch(sym)];
        return None;
      }
      if depth > MAX_DEPTH {
        errors := errors + [TooDeep(sym)];
        return None;
      }
      var inst := Inst(sym, args);
      if inst in concrete {
        return Some(inst);
      }
      var i := 0;
      while i < |queue|
        invariant 0 <= i <= |queue| && queue == old(queue) && errors == old(errors)
        invariant forall k :: 0 <= k < i ==> queue[k].inst != inst
      {
        if queue[i].inst == inst {
          return Some(inst);
        }
        i := i + 1;
      }
      var job := Job(sym, inst, args, depth + 1);
      PushKeeps(generics, queue, job);
      ghost var before := queue;
      queue := queue + [job];
      assert queue[|queue| - 1].inst == inst;
      AllKnownGrow(before, queue, args);
      KeepComplete(before);
      return Some(inst);
    }

    lemma KeepComplete(before: seq<Job>)
      requires before <= queue
      requires forall t :: t in concrete ==> Queued(before, t)
      requires AllSound(generics, queue)
      requires forall i :: 0 <= i < |before| && before[i].inst in concrete && filling != Some(before[i].inst) ==>
                 && before[i].sym in generics
                 && concrete[before[i].inst]
                    == Fields(generics, generics[before[i].sym].fields, before[i].args, before[i].depth <= MAX_DEPTH)
                 && FieldsKnown(before, concrete[before[i].inst])
      ensures Stands()
    {
      forall t | t in concrete
        ensures Queued(queue, t)
      {
        var i :| 0 <= i < |before| && before[i].inst == t;
        assert queue[i] == before[i];
      }
      forall i | 0 <= i < |queue| && queue[i].inst in concrete && filling != Some(queue[i].inst)
        ensures Complete(queue[i])
      {
        var k :| 0 <= k < |before| && before[k].inst == queue[i].inst;
        assert queue[k] == before[k] && k == i;
        FieldsKnownGrow(before, queue, concrete[queue[i].inst]);
      }
    }

    /**
     * `resolve_ast_type` inside an instance.  Its own calls of the drain return at once:
     * the queue is being drained already.
     */
    method ResolveType(t: Term, args: seq<Ty>) returns (r: Option<Ty>)
      requires Stands() && isDraining && AllKnown(queue, args)
      modifies this`queue, this`errors
      ensures Stands() && old(queue) <= queue
      ensures r == Resolve(generics, t, args, depth <= MAX_DEPTH)
      ensures errors == old(errors) + Reported(Fault(generics, t, args, depth <= MAX_DEPTH))
      ensures r.Some? ==> Known(queue, r.value)
      ensures |queue| <= |old(queue)| + Apps(t) && (depth > MAX_DEPTH ==> queue == old(queue))
      ensures forall i :: |old(queue)| <= i < |queue| ==> queue[i].depth == depth + 1
      decreases t
    {
      match t
      case Plain(id) =>
        return Some(Prim(id));
      case Unknown =>
        errors := errors + [UnknownType];
        return None;
      case Param(i) =>
        if i >= |args| {
          errors := errors + [UnknownType];
          return None;
        }
        return Some(args[i]);
      case Wrap(k, x) =>
        var inner := ResolveType(x, args);
        return if inner.None? then None else Some(Wrapped(k, inner.value));
      case App(sym, xs) =>
        var tys := ResolveArgs(xs, args);
        FaultyArgs(generics, xs, 0, args, depth <= MAX_DEPTH);
        if tys.None? {
          return None;
        }
        if sym !in generics {
          errors := errors + [NotGeneric(sym)];
          return None;
        }
        r := Instantiate(sym, tys.value);
    }

    method ResolveArgs(xs: seq<Term>, args: seq<Ty>) returns (r: Option<seq<Ty>>)
      requires Stands() && isDraining && AllKnown(queue, args)
      modifies this`queue, this`errors
      ensures Stands() && old(queue) <= queue
      ensures r == ResolveFrom(generics, xs, 0, args, depth <= MAX_DEPTH)
      ensures errors == old(errors) + Reported(FaultFrom(generics, xs, 0, args, depth <= MAX_DEPTH))
      ensures r.Some? ==> AllKnown(queue, r.value)
      ensures |queue| <= |old(queue)| + AppsFrom(xs, 0) && (depth > MAX_DEPTH ==> queue == old(queue))
      ensures forall i :: |old(queue)| <= i < |queue| ==> queue[i].depth == depth + 1
      decreases xs
    {
      var tys := [];
      var i := 0;
      AppendNothing(ResolveFrom(generics, xs, 0, args, depth <= MAX_DEPTH));
      while i < |xs|
        invariant 0 <= i <= |xs| && Stands() && isDraining && old(queue) <= queue
        invariant AllKnown(queue, args) && AllKnown(queue, tys)
        invariant ResolveFrom(generics, xs, 0, args, depth <= MAX_DEPTH)
                  == Appended(tys, ResolveFrom(generics, xs, i, args, depth <= MAX_DEPTH))
        invariant errors == old(errors)
        invariant FaultFrom(generics, xs, 0, args, depth <= MAX_DEPTH)
                  == FaultFrom(generics, xs, i, args, depth <= MAX_DEPTH)
        invariant |queue| + AppsFrom(xs, i) <= |old(queue)| + AppsFrom(xs, 0)
        invariant depth > MAX_DEPTH ==> queue == old(queue)
        invariant forall k :: |old(queue)| <= k < |queue| ==> queue[k].depth == depth + 1
      {
        ghost var before := queue;
        var ty := ResolveType(xs[i], args);
        FaultIffUnresolved(generics, xs[i], args, depth <= MAX_DEPTH);
        if ty.None? {
          return None;
        }
        AllKnownGrow(before, queue, args);
        AllKnownGrow(before, queue, tys);
        AppendOne(generics, xs, i, args, depth <= MAX_DEPTH, tys);
        tys := tys + [ty.value];
        i := i + 1;
      }
      assert tys + [] == tys;
      return Some(tys);
    }

    /** The first j fields of the job's concrete type are filled in. */
    ghost predicate Filled(job: Job, j: nat)
      reads `queue, `concrete, `filling, `depth
    {
      && job.sym in generics && filling == Some(job.inst) && job.inst in concrete && AllKnown(queue, job.args)
      && var fields := generics[job.sym].fields;
         var made := concrete[job.inst];
         && |made| == j <= |fields|
         && FieldsKnown(queue, made)
         && forall k :: 0 <= k < j ==> made[k] == Resolve(generics, fields[k], job.args, depth <= MAX_DEPTH)
    }

    /** Resolves one field and stores it. */
    method FillField(job: Job, j: nat)
      requires Stands() && isDraining && Filled(job, j) && j < |generics[job.sym].fields|
      modifies this`queue, this`errors, this`concrete
      ensures Stands() && Filled(job, j + 1) && concrete.Keys == old(concrete).Keys
      ensures GrownBy(old(queue), queue, depth, Apps(generics[job.sym].fields[j]))
      ensures errors == old(errors)
                        + Reported(Fault(generics, generics[job.sym].fields[j], job.args, depth <= MAX_DEPTH))
    {
      ghost var before, made := queue, concrete[job.inst];
      var ty := ResolveType(generics[job.sym].fields[j], job.args);
      AllKnownGrow(before, queue, job.args);
      FieldsKnownGrow(before, queue, made);
      concrete := concrete[job.inst := concrete[job.inst] + [ty]];
    }

    lemma Filling(job: Job)
      requires job.sym in generics && Filled(job, |generics[job.sym].fields|) && depth == job.depth
      ensures Complete(job)
    {
      assert concrete[job.inst] == Fields(generics, generics[job.sym].fields, job.args, job.depth <= MAX_DEPTH);
    }

    function AllFaults(job: Job, allowed: bool): seq<Error>
      requires job.sym in generics
    {
      FieldFaults(generics, generics[job.sym].fields, |generics[job.sym].fields|, job.args, allowed)
    }

    /** Gives the job's instance its concrete type and queues the instances its fields need. */
    method Monomorphize(job: Job, ghost q: nat)
      requires Stands() && isDraining && q < |queue| && queue[q] == job && job.inst !in concrete && depth == job.depth
      requires computing == {} && filling == None
      modifies this`queue, this`errors, this`concrete, this`computing, this`filling
      ensures Stands() && computing == {} && filling == None && concrete.Keys == old(concrete).Keys + {job.inst}
      ensures GrownBy(old(queue), queue, depth, AppsFrom(generics[job.sym].fields, 0))
      ensures errors == old(errors) + AllFaults(job, depth <= MAX_DEPTH)
    {
      computing := computing + {job.sym};
      MakeConcrete(job, q);
      computing := computing - {job.sym};
    }

    method MakeConcrete(job: Job, ghost q: nat)
      requires Stands() && isDraining && q < |queue| && queue[q] == job && job.inst !in concrete && depth == job.depth
      requires filling == None
      modifies this`queue, this`errors, this`concrete, this`filling
      ensures Stands() && filling == None && concrete.Keys == old(concrete).Keys + {job.inst}
      ensures GrownBy(old(queue), queue, depth, AppsFrom(generics[job.sym].fields, 0))
      ensures errors == old(errors) + AllFaults(job, depth <= MAX_DEPTH)
    {
      BeginFilling(job, q);
      FillFields(job);
      EndFilling(job, q);
    }

    method BeginFilling(job: Job, ghost q: nat)
      requires Stands() && q < |queue| && queue[q] == job && job.inst !in concrete && filling == None
      modifies this`concrete, this`filling
      ensures Stands() && Filled(job, 0) && concrete.Keys == old(concrete).Keys + {job.inst}
    {
      concrete, filling := concrete[job.inst := []], Some(job.inst);
    }

    method FillNext(job: Job, j: nat, ghost jobs: seq<Job>, ghost reported: seq<Error>, ghost used: nat)
      returns (ghost more: nat)
      requires Stands() && isDraining && Filled(job, j) && j < |generics[job.sym].fields|
      requires Costs(generics, job, j, depth, jobs, queue, reported, errors, used)
      modifies this`queue, this`errors, this`concrete
      ensures Stands() && Filled(job, j + 1) && concrete.Keys == old(concrete).Keys
      ensures Costs(generics, job, j + 1, depth, jobs, queue, reported, errors, more)
    {
      ghost var before, told := queue, errors;
      FillField(job, j);
      more := CostsMore(generics, job, j, depth, jobs, before, queue, reported, told, errors, used);
    }

    method FillFields(job: Job)
      requires Stands() && isDraining && Filled(job, 0)
      modifies this`queue, this`errors, this`concrete
      ensures Stands() && Filled(job, |generics[job.sym].fields|) && concrete.Keys == old(concrete).Keys
      ensures GrownBy(old(queue), queue, depth, AppsFrom(generics[job.sym].fields, 0))
      ensures errors == old(errors) + AllFaults(job, depth <= MAX_DEPTH)
    {
      var count := |generics[job.sym].fields|;
      ghost var used := CostsNothing(generics, job, depth, queue, errors);
      var j := 0;
      while j < count
        invariant 0 <= j <= count && Stands() && Filled(job, j)
        invariant Costs(generics, job, j, depth, old(queue), queue, old(errors), errors, used)
        invariant concrete.Keys == old(concrete).Keys
      {
        used := FillNext(job, j, old(queue), old(errors), used);
        j := j + 1;
      }
    }

    method EndFilling(job: Job, ghost q: nat)
      requires Stands() && job.sym in generics && Filled(job, |generics[job.sym].fields|) && depth == job.depth
      requires q < |queue| && queue[q] == job
      modifies this`filling
      ensures Stands() && filling == None
    {
      Filling(job);
      OneOfThem(job, q);
      filling := None;
    }

    /** The job is the only one for its instance. */
    lemma OneOfThem(job: Job, q: nat)
      requires DistinctInstances(queue) && q < |queue| && queue[q] == job
      ensures forall i :: 0 <= i < |queue| && queue[i].inst == job.inst ==> queue[i] == job
    {}

    predicate AllConcrete()
      reads `queue, `concrete
    {
      forall i :: 0 <= i < |queue| ==> queue[i].inst in concrete
    }

    /** One job; its struct is never found half computed. */
    method DrainOne(q: nat, ghost bound: nat)
      requires Stands() && isDraining && computing == {} && filling == None && q < |queue|
      requires forall s :: s in generics ==> AppsFrom(generics[s].fields, 0) <= bound
      modifies this`queue, this`errors, this`concrete, this`computing, this`depth, this`filling
      ensures Stands() && computing == {} && filling == None
      ensures OneTurn(q, old(queue), old(concrete).Keys, old(depth), queue, concrete.Keys, depth)
      ensures Pending(bound, queue, q + 1) < Pending(bound, old(queue), q)
    {
      var job := queue[q];
      assert Sound(generics, queue, job);
      if job.inst !in concrete {
        depth := job.depth;
        if job.sym in computing {
          assert false;
        }
        Monomorphize(job, q);
      }
      Shrinks(bound, old(queue), queue, q, job.depth);
    }

    /**
     * `drain_mono_queue`.  The queue grows while it is scanned, yet the scan ends;
     * afterwards every queued instance is concrete.  The depth is left at that of the
     * last job worked on.  If all waiting jobs exceed some depth, so does all that they queue.
     */
    method Drain(ghost bound: nat, ghost floor: nat)
      requires !isDraining ==> Valid()
      requires forall s :: s in generics ==> AppsFrom(generics[s].fields, 0) <= bound
      modifies this
      ensures old(isDraining) ==> queue == old(queue) && concrete == old(concrete) && depth == old(depth) && isDraining
      ensures !old(isDraining) ==> Valid() && AllConcrete() && old(queue) <= queue
      ensures !old(isDraining) ==> depth == LastDepth(queue, old(concrete).Keys, old(depth))
      ensures !old(isDraining) && old(Deeper(queue, concrete.Keys, floor)) ==> Deeper(queue, old(concrete).Keys, floor)
      ensures !old(isDraining) && old(AllConcrete()) ==> queue == old(queue)
    {
      if isDraining {
        return;
      }
      ZeroIsAFloor();
      isDraining := true;
      Scan(bound, if Deeper(queue, concrete.Keys, floor) then floor else 0);
      isDraining := false;
    }

    /** All jobs are below a function body. */
    lemma ZeroIsAFloor()
      requires Valid()
      ensures Deeper(queue, concrete.Keys, 0)
    {
      assert forall i :: 0 <= i < |queue| ==> Sound(generics, queue, queue[i]);
    }

    method Scan(ghost bound: nat, ghost floor: nat)
      requires Stands() && isDraining && computing == {} && filling == None && Deeper(queue, concrete.Keys, floor)
      requires forall s :: s in generics ==> AppsFrom(generics[s].fields, 0) <= bound
      modifies this`queue, this`errors, this`concrete, this`computing, this`depth, this`filling
      ensures Stands() && computing == {} && filling == None && AllConcrete() && old(queue) <= queue
      ensures depth == LastDepth(queue, old(concrete).Keys, old(depth)) && Deeper(queue, old(concrete).Keys, floor)
      ensures old(AllConcrete()) ==> queue == old(queue)
    {
      ghost var before, made, start := queue, concrete.Keys, depth;
      Unscanned(before, made, start, floor);
      var q := 0;
      while q < |queue|
        invariant Scanning(before, made, start, floor, q)
        decreases Pending(bound, queue, q)
      {
        Turn(q, bound, floor, before, made, start);
        q := q + 1;
      }
      Scanned(before, made, start, floor, queue, concrete.Keys, depth);
    }

    ghost predicate Scanning(before: seq<Job>, made: set<Ty>, start: nat, floor: nat, q: nat)
      reads this
    {
      && Stands() && isDraining && computing == {} && filling == None
      && Progress(before, made, start, floor, q, queue, concrete.Keys, depth)
    }

    method Turn(q: nat, ghost bound: nat, ghost floor: nat, ghost before: seq<Job>, ghost made: set<Ty>,
                ghost start: nat)
      requires Scanning(before, made, start, floor, q) && q < |queue|
      requires forall s :: s in generics ==> AppsFrom(generics[s].fields, 0) <= bound
      modifies this`queue, this`errors, this`concrete, this`computing, this`depth, this`filling
      ensures Scanning(before, made, start, floor, q + 1)
      ensures Pending(bound, queue, q + 1) < Pending(bound, old(queue), q)
    {
      ghost var jobs, keys, d := queue, concrete.Keys, depth;
      DrainOne(q, bound);
      TurnProgresses(before, made, start, floor, q, jobs, keys, d, queue, concrete.Keys, depth);
    }

    static lemma Unscanned(queue: seq<Job>, made: set<Ty>, start: nat, floor: nat)
      requires Deeper(queue, made, floor)
      ensures Progress(queue, made, start, floor, 0, queue, made, start)
    {
      assert queue[..0] == [];
    }

    static lemma Scanned(before: seq<Job>, made: set<Ty>, start: nat, floor: nat, queue: seq<Job>, keys: set<Ty>,
                         depth: nat)
      requires Progress(before, made, start, floor, |queue|, queue, keys, depth)
      ensures depth == LastDepth(queue, made, start) && before <= queue && Deeper(queue, made, floor)
      ensures forall i :: 0 <= i < |queue| ==> queue[i].inst in keys
      ensures (forall i :: 0 <= i < |before| ==> before[i].inst in made) ==> queue == before
    {
      assert queue[..|queue|] == queue;
    }

    /**
     * A request from a function body: one instantiation and a drain.  Nothing resets the
     * depth afterwards, so every instance that had to be made leaves it deeper than before.
     */
    method Request(sym: nat, args: seq<Ty>, ghost bound: nat) returns (r: Option<Ty>)
      requires Valid() && AllConcrete() && AllKnown(queue, args) && sym in generics
      requires forall s :: s in generics ==> AppsFrom(generics[s].fields, 0) <= bound
      modifies this
      ensures Valid() && AllConcrete() && old(queue) <= queue
      ensures r == if |args| == generics[sym].paramCount && old(depth) <= MAX_DEPTH then Some(Inst(sym, args)) else None
      ensures r.Some? ==> r.value in concrete
      ensures if r.Some? && !Queued(old(queue), r.value) then depth > old(depth)
              else depth == old(depth) && queue == old(queue)
    {
      ghost var jobs, keys, start := queue, concrete.Keys, depth;
      r := Instantiate(sym, args);
      ghost var asked := queue;
      AskedIsDeeper(jobs, keys, asked, start);
      Drain(bound, start);
      Answered(jobs, keys, asked, queue, concrete.Keys, start, if r.Some? then r.value else Prim(0));
    }

    /** A request with the entry it makes in the list of requests. */
    method Ask(sym: nat, args: seq<Ty>, ghost bound: nat) returns (r: Option<Ty>, ghost e: Entry)
      requires Valid() && AllConcrete() && AllKnown(queue, args) && sym in generics
      requires forall s :: s in generics ==> AppsFrom(generics[s].fields, 0) <= bound
      modifies this
      ensures Valid() && AllConcrete() && e == Entry(sym, args, r, old(queue), queue) && Answers(e)
      ensures Counted(old(depth), depth, if GrantedNew(e) then 1 else 0)
      ensures r == if |args| == generics[sym].paramCount && old(depth) <= MAX_DEPTH then Some(Inst(sym, args)) else None
    {
      ghost var before := queue;
      r := Request(sym, args, bound);
      e := Entry(sym, args, r, before, queue);
    }

    /**
     * `resolve_ast_type` on a type written in a function body: every application in it is a
     * request of its own, the inner ones first.  What comes out is what the type stands for,
     * unless the depth has run out.  `trace` lists the requests.
     */
    method ResolveOutside(t: Term, ghost bound: nat) returns (r: Option<Ty>, ghost trace: seq<Entry>)
      requires Valid() && AllConcrete()
      requires forall s :: s in generics ==> AppsFrom(generics[s].fields, 0) <= bound
      modifies this
      ensures Valid() && AllConcrete() && old(queue) <= queue && (r.Some? ==> Known(queue, r.value))
      ensures Trace(trace, old(queue), queue) && Counted(old(depth), depth, Granted(trace))
      ensures r == Resolve(generics, t, [], true) || (r.None? && depth > MAX_DEPTH)
      decreases t
    {
      trace := [];
      match t
      case Plain(id) =>
        r := Some(Prim(id));
      case Unknown =>
        errors := errors + [UnknownType];
        r := None;
      case Param(_) =>
        errors := errors + [UnknownType];
        r := None;
      case Wrap(k, x) =>
        r, trace := ResolveOutside(x, bound);
        r := if r.None? then None else Some(Wrapped(k, r.value));
      case App(sym, xs) =>
        var tys;
        tys, trace := ResolveArgsOutside(xs, bound);
        r := None;
        if tys.Some? {
          if sym !in generics {
            errors := errors + [NotGeneric(sym)];
          } else {
            ghost var start, d, mid, d1 := old(queue), old(depth), queue, depth;
            ghost var e;
            r, e := Ask(sym, tys.value, bound);
            TraceMore(trace, e, start, mid, queue);
            CountedThen(d, d1, depth, Granted(trace), if GrantedNew(e) then 1 else 0);
            trace := trace + [e];
          }
        }
    }

    method ResolveArgsOutside(xs: seq<Term>, ghost bound: nat) returns (r: Option<seq<Ty>>, ghost trace: seq<Entry>)
      requires Valid() && AllConcrete()
      requires forall s :: s in generics ==> AppsFrom(generics[s].fields, 0) <= bound
      modifies this
      ensures Valid() && AllConcrete() && old(queue) <= queue && (r.Some? ==> AllKnown(queue, r.value))
      ensures Trace(trace, old(queue), queue) && Counted(old(depth), depth, Granted(trace))
      ensures r == ResolveFrom(generics, xs, 0, [], true) || (r.None? && depth > MAX_DEPTH)
      decreases xs
    {
      trace := [];
      var tys := [];
      var i := 0;
      AppendNothing(ResolveFrom(generics, xs, 0, [], true));
      while i < |xs|
        invariant 0 <= i <= |xs| && Valid() && AllConcrete() && old(queue) <= queue && AllKnown(queue, tys)
        invariant ResolveFrom(generics, xs, 0, [], true) == Appended(tys, ResolveFrom(generics, xs, i, [], true))
        invariant Trace(trace, old(queue), queue) && Counted(old(depth), depth, Granted(trace))
      {
        ghost var mid, d, more := queue, depth, [];
        var ty;
        ty, more := ResolveOutside(xs[i], bound);
        TraceThen(trace, more, old(queue), mid, queue);
        CountedThen(old(depth), d, depth, Granted(trace), Granted(more));
        trace := trace + more;
        if ty.None? {
          return None, trace;
        }
        AllKnownGrow(mid, queue, tys);
        AppendOne(generics, xs, i, [], true, tys);
        tys := tys + [ty.value];
        i := i + 1;
      }
      assert tys + [] == tys;
      return Some(tys), trace;
    }

    /**
     * The types written in the bodies of a program, one after the other.  Every request
     * granted something new leaves the depth greater; so however shallow they are and however
     * many, at most MAX_DEPTH + 1 of them are, and all requests behind those are refused or
     * find what they ask for.
     */
    method ResolveEach(types: seq<Term>, ghost bound: nat) returns (results: seq<Option<Ty>>, ghost trace: seq<Entry>)
      requires Valid() && AllConcrete()
      requires forall s :: s in generics ==> AppsFrom(generics[s].fields, 0) <= bound
      modifies this
      ensures Valid() && AllConcrete() && old(queue) <= queue && |results| == |types|
      ensures forall i :: 0 <= i < |types| ==>
                results[i] == Resolve(generics, types[i], [], true) || (results[i].None? && depth > MAX_DEPTH)
      ensures Trace(trace, old(queue), queue) && depth >= old(depth) + Granted(trace)
      ensures Granted(trace) > 0 ==> old(depth) + Granted(trace) <= MAX_DEPTH + 1
    {
      results, trace := [], [];
      for i := 0 to |types|
        invariant Valid() && AllConcrete() && old(queue) <= queue && |results| == i
        invariant forall k :: 0 <= k < i ==>
                    results[k] == Resolve(generics, types[k], [], true) || (results[k].None? && depth > MAX_DEPTH)
        invariant Trace(trace, old(queue), queue) && Counted(old(depth), depth, Granted(trace))
      {
        ghost var mid, d, more := queue, depth, [];
        var ty;
        ty, more := ResolveOutside(types[i], bound);
        TraceThen(trace, more, old(queue), mid, queue);
        CountedThen(old(depth), d, depth, Granted(trace), Granted(more));
        results, trace := results + [ty], trace + more;
      }
    }
  }

  // ---------- lists of requests ----------

  /** A request, its answer, and the queue before and after it. */
  datatype Entry = Entry(sym: nat, args: seq<Ty>, r: Option<Ty>, before: seq<Job>, after: seq<Job>)

  /** The request was answered with an instance that was not queued before. */
  predicate GrantedNew(e: Entry) { e.r.Some? && !Queued(e.before, e.r.value) }

  /** One request: refused or answered with the instance; the queue grows exactly if that is new. */
  predicate Answers(e: Entry)
  {
    && (e.r.Some? ==> e.r.value == Inst(e.sym, e.args) && Queued(e.after, e.r.value))
    && e.before <= e.after && (GrantedNew(e) <==> e.before != e.after)
  }

  /** Requests one after the other, on a queue that is `start` at first and `end` at last. */
  predicate Trace(es: seq<Entry>, start: seq<Job>, end: seq<Job>)
  {
    if es == [] then start == end
    else es[0].before == start && Answers(es[0]) && Trace(es[1..], es[0].after, end)
  }

  /** How many of the requests were granted something new. */
  function Granted(es: seq<Entry>): nat
  {
    if es == [] then 0 else (if GrantedNew(es[0]) then 1 else 0) + Granted(es[1..])
  }

  /** From depth d0 to d1 with n requests granted something new. */
  predicate Counted(d0: nat, d1: nat, n: nat)
  {
    d1 >= d0 + n && (n > 0 ==> d0 + n <= MAX_DEPTH + 1)
  }

  lemma CountedThen(d0: nat, d1: nat, d2: nat, m: nat, n: nat)
    requires Counted(d0, d1, m) && Counted(d1, d2, n)
    ensures Counted(d0, d2, m + n)
  {
  }

  lemma {:induction false} TraceThen(a: seq<Entry>, b: seq<Entry>, start: seq<Job>, mid: seq<Job>, end: seq<Job>)
    requires Trace(a, start, mid) && Trace(b, mid, end)
    ensures Trace(a + b, start, end) && Granted(a + b) == Granted(a) + Granted(b)
    decreases |a|
  {
    if a == [] {
      assert a + b == b;
    } else {
      assert (a + b)[1..] == a[1..] + b;
      TraceThen(a[1..], b, a[0].after, mid, end);
    }
  }

  lemma TraceMore(a: seq<Entry>, e: Entry, start: seq<Job>, mid: seq<Job>, end: seq<Job>)
    requires Trace(a, start, mid) && e.before == mid && e.after == end && Answers(e)
    ensures Trace(a + [e], start, end) && Granted(a + [e]) == Granted(a) + if GrantedNew(e) then 1 else 0
  {
    assert [e][1..] == [] && Trace([], end, end) && Trace([e], mid, end);
    TraceThen(a, [e], start, mid, end);
  }

  lemma AskedIsDeeper(jobs: seq<Job>, keys: set<Ty>, asked: seq<Job>, start: nat)
    requires jobs <= asked && (forall i :: 0 <= i < |jobs| ==> jobs[i].inst in keys)
    requires forall i :: |jobs| <= i < |asked| ==> asked[i].depth > start
    ensures Deeper(asked, keys, start)
  {
    assert forall i :: 0 <= i < |jobs| ==> asked[i] == jobs[i];
  }

  /** What has been asked for is concrete after the drain; if it was not queued before, the depth has grown. */
  lemma Answered(jobs: seq<Job>, keys: set<Ty>, asked: seq<Job>, queue: seq<Job>, after: set<Ty>, start: nat, t: Ty)
    requires jobs <= asked <= queue && (forall i :: 0 <= i < |jobs| ==> jobs[i].inst in keys)
    requires Deeper(queue, keys, start)
    requires (forall k <- keys :: Queued(jobs, k)) && (forall i :: 0 <= i < |queue| ==> queue[i].inst in after)
    requires (forall i :: 0 <= i < |asked| ==> asked[i].inst in keys) ==> queue == asked
    ensures Queued(asked, t) ==> t in after && (!Queued(jobs, t) ==> LastDepth(queue, keys, start) > start)
    ensures asked == jobs ==> queue == jobs && LastDepth(queue, keys, start) == start
  {
    LastIsDeeper(queue, keys, start, start);
    if Queued(asked, t) {
      var i :| 0 <= i < |asked| && asked[i].inst == t;
      assert queue[i] == asked[i];
    }
  }

  // ---------- what a drained queue means ----------

  /** The instances inside a type, itself included. */
  function Instances(t: Ty): set<Ty>
    decreases t, 0
  {
    match t
    case Prim(_) => {}
    case Wrapped(_, x) => Instances(x)
    case Inst(_, args) => {t} + InstancesOf(args)
  }

  function InstancesOf(ts: seq<Ty>): set<Ty>
    decreases ts, 1
  {
    if ts == [] then {} else Instances(ts[0]) + InstancesOf(ts[1..])
  }

  /** When every queued instance is concrete, so is every instance inside a known type, at any depth. */
  lemma {:induction false} KnownIsConcrete(queue: seq<Job>, concrete: map<Ty, seq<Option<Ty>>>, t: Ty)
    requires Known(queue, t) && forall i :: 0 <= i < |queue| ==> queue[i].inst in concrete
    ensures Instances(t) <= concrete.Keys
    decreases t, 0
  {
    match t
    case Prim(_) =>
    case Wrapped(_, x) => KnownIsConcrete(queue, concrete, x);
    case Inst(_, args) => AllKnownAreConcrete(queue, concrete, args);
  }

  lemma {:induction false} AllKnownAreConcrete(queue: seq<Job>, concrete: map<Ty, seq<Option<Ty>>>, ts: seq<Ty>)
    requires AllKnown(queue, ts) && forall i :: 0 <= i < |queue| ==> queue[i].inst in concrete
    ensures InstancesOf(ts) <= concrete.Keys
    decreases ts, 1
  {
    if ts != [] {
      KnownIsConcrete(queue, concrete, ts[0]);
      AllKnownAreConcrete(queue, concrete, ts[1..]);
    }
  }

  // ---------- lists of resolved arguments ----------

  function Appended(front: seq<Ty>, back: Option<seq<Ty>>): Option<seq<Ty>>
  {
    if back.None? then None else Some(front + back.value)
  }

  lemma AppendNothing(back: Option<seq<Ty>>)
    ensures Appended([], back) == back
  {
    if back.Some? {
      assert [] + back.value == back.value;
    }
  }

  lemma AppendOne(g: Generics, ts: seq<Term>, i: nat, args: seq<Ty>, allowed: bool, front: seq<Ty>)
    requires i < |ts| && Resolve(g, ts[i], args, allowed).Some?
    ensures Appended(front, ResolveFrom(g, ts, i, args, allowed)) ==
            Appended(front + [Resolve(g, ts[i], args, allowed).value], ResolveFrom(g, ts, i + 1, args, allowed))
  {
    var more := ResolveFrom(g, ts, i + 1, args, allowed);
    if more.Some? {
      var ty := Resolve(g, ts[i], args, allowed).value;
      assert front + [ty] + more.value == front + ([ty] + more.value);
    }
  }
}
