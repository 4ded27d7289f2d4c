/** Type-argument inference: matching a type with variables against a provided type. */
module Inference {
  import opened Options

  datatype LeafKind = Void | Primitive | Struct | Enum

  datatype Ty =
    | Leaf(kind: LeafKind, id: nat)
    | Var(index: int)
    | Pointer(base: Ty)
    | Array(base: Ty, size: int)
    | Slice(base: Ty)
    | Function(ret: Ty, params: seq<Ty>)
    | GenericInst(generic: Ty, args: seq<Ty>)

  /** What each type parameter has been inferred to be, so far. */
  type Bindings = seq<Option<Ty>>

  predicate Bound(b: Bindings, i: int) { 0 <= i < |b| && b[i].Some? }

  /** Every binding of a is a binding of b. */
  predicate Within(a: Bindings, b: Bindings)
  {
    |a| == |b| && forall i :: 0 <= i < |a| && a[i].Some? ==> b[i] == a[i]
  }

  // ---------- infer_type_args ----------

  /** Success, and the bindings after the attempt: what was bound on the way to a failure stays. */
  function Infer(expected: Ty, provided: Ty, b: Bindings): (r: (bool, Bindings))
    ensures |r.1| == |b|
    decreases expected, 0
  {
    match expected
    case Var(i) =>
      if i < 0 || i >= |b| then (false, b)
      else if b[i].None? then (true, b[i := Some(provided)])
      else (b[i] == Some(provided), b)
    case Leaf(kind, _) => (provided.Leaf? && provided.kind == kind, b)
    case Pointer(x) => if provided.Pointer? then Infer(x, provided.base, b) else (false, b)
    case Array(x, size) => if provided.Array? && provided.size == size then Infer(x, provided.base, b) else (false, b)
    case Slice(x) => if provided.Slice? || provided.Array? then Infer(x, provided.base, b) else (false, b)
    case GenericInst(g, args) =>
      if provided.GenericInst? && provided.generic == g && |provided.args| == |args|
          then InferAll(args, provided.args, b)
      else (false, b)
    case Function(ret, params) =>
      if !provided.Function? then (false, b)
      else
        var (ok, after) := Infer(ret, provided.ret, b);
        if ok && |provided.params| == |params| then InferAll(params, provided.params, after) else (false, after)
  }

  function InferAll(expected: seq<Ty>, provided: seq<Ty>, b: Bindings): (r: (bool, Bindings))
    requires |expected| == |provided|
    ensures |r.1| == |b|
    decreases expected, 1
  {
    if expected == [] then (true, b)
    else
      var (ok, after) := Infer(expected[0], provided[0], b);
      if ok then InferAll(expected[1..], provided[1..], after) else (false, after)
  }

  method InferTypeArgs(expected: Ty, provided: Ty, inferred: array<Option<Ty>>) returns (ok: bool)
    modifies inferred
    ensures (ok, inferred[..]) == Infer(expected, provided, old(inferred[..]))
    decreases expected
  {
    match expected
    case Var(i) =>
      if i < 0 || i >= inferred.Length {
        return false;
      }
      if inferred[i].None? {
        inferred[i] := Some(provided);
        return true;
      }
      return inferred[i] == Some(provided);
    case Leaf(kind, _) =>
      return provided.Leaf? && provided.kind == kind;
    case Pointer(x) =>
      if !provided.Pointer? {
        return false;
      }
      ok := InferTypeArgs(x, provided.base, inferred);
    case Array(x, size) =>
      if !provided.Array? || provided.size != size {
        return false;
      }
      ok := InferTypeArgs(x, provided.base, inferred);
    case Slice(x) =>
      if !provided.Slice? && !provided.Array? {
        return false;
      }
      ok := InferTypeArgs(x, provided.base, inferred);
    case GenericInst(g, args) =>
      if !provided.GenericInst? || provided.generic != g || |provided.args| != |args| {
        return false;
      }
      var i := 0;
      while i < |args|
        invariant 0 <= i <= |args|
        invariant InferAll(args, provided.args, old(inferred[..]))
                  == InferAll(args[i..], provided.args[i..], inferred[..])
      {
        ok := InferTypeArgs(args[i], provided.args[i], inferred);
        if !ok {
          return false;
        }
        i := i + 1;
      }
      return true;
    case Function(ret, params) =>
      if !provided.Function? {
        return false;
      }
      ok := InferTypeArgs(ret, provided.ret, inferred);
      if !ok || |provided.params| != |params| {
        return false;
      }
      ghost var after := inferred[..];
      var i := 0;
      while i < |params|
        invariant 0 <= i <= |params|
        invariant InferAll(params, provided.params, after) == InferAll(params[i..], provided.params[i..], inferred[..])
      {
        ok := InferTypeArgs(params[i], provided.params[i], inferred);
        if !ok {
          return false;
        }
        i := i + 1;
      }
      return true;
  }

  // ---------- substitution ----------

  /** Every bound variable replaced, everywhere. */
  function Subst(t: Ty, b: Bindings): Ty
    decreases t, 0
  {
    match t
    case Var(i) => if Bound(b, i) then b[i].value else t
    case Leaf(_, _) => t
    case Pointer(x) => Pointer(Subst(x, b))
    case Array(x, size) => Array(Subst(x, b), size)
    case Slice(x) => Slice(Subst(x, b))
    case Function(ret, params) => Function(Subst(ret, b), SubstAll(params, b))
    case GenericInst(g, args) => GenericInst(g, SubstAll(args, b))
  }

  function SubstAll(ts: seq<Ty>, b: Bindings): (r: seq<Ty>)
    ensures |r| == |ts|
    decreases ts, 1
  {
    if ts == [] then [] else [Subst(ts[0], b)] + SubstAll(ts[1..], b)
  }

  // ---------- what a successful inference means ----------

  /**
   * Equality up to what the matcher lets pass: leaves of one kind, an array where a
   * slice is expected.
   */
  predicate Alike(a: Ty, p: Ty)
    decreases a, 0
  {
    || a == p
    || (a.Leaf? && p.Leaf? && a.kind == p.kind)
    || (a.Pointer? && p.Pointer? && Alike(a.base, p.base))
    || (a.Array? && p.Array? && a.size == p.size && Alike(a.base, p.base))
    || (a.Slice? && (p.Slice? || p.Array?) && Alike(a.base, p.base))
    || (a.Function? && p.Function? && Alike(a.ret, p.ret) && AllAlike(a.params, p.params))
    || (a.GenericInst? && p.GenericInst? && a.generic == p.generic && AllAlike(a.args, p.args))
  }

  predicate AllAlike(a: seq<Ty>, p: seq<Ty>)
    decreases a, 1
  {
    |a| == |p| && (a == [] || (Alike(a[0], p[0]) && AllAlike(a[1..], p[1..])))
  }

  /** All variables of the type are bound. */
  predicate Closed(t: Ty, b: Bindings)
    decreases t, 0
  {
    match t
    case Var(i) => Bound(b, i)
    case Leaf(_, _) => true
    case Pointer(x) => Closed(x, b)
    case Array(x, _) => Closed(x, b)
    case Slice(x) => Closed(x, b)
    case Function(ret, params) => Closed(ret, b) && AllClosed(params, b)
    case GenericInst(_, args) => AllClosed(args, b)
  }

  predicate AllClosed(ts: seq<Ty>, b: Bindings)
    decreases ts, 1
  {
    ts == [] || (Closed(ts[0], b) && AllClosed(ts[1..], b))
  }

  /** An attempt, successful or not, never changes a binding. */
  lemma {:induction false} BindingsStay(e: Ty, p: Ty, b: Bindings)
    ensures Within(b, Infer(e, p, b).1)
    decreases e, 0
  {
    match e
    case Var(_) =>
    case Leaf(_, _) =>
    case Pointer(x) => if p.Pointer? { BindingsStay(x, p.base, b); }
    case Array(x, _) => if p.Array? { BindingsStay(x, p.base, b); }
    case Slice(x) => if p.Slice? || p.Array? { BindingsStay(x, p.base, b); }
    case GenericInst(_, args) => if p.GenericInst? && |p.args| == |args| { AllBindingsStay(args, p.args, b); }
    case Function(ret, params) =>
      if p.Function? {
        BindingsStay(ret, p.ret, b);
        if |p.params| == |params| {
          AllBindingsStay(params, p.params, Infer(ret, p.ret, b).1);
        }
      }
  }

  lemma {:induction false} AllBindingsStay(es: seq<Ty>, ps: seq<Ty>, b: Bindings)
    requires |es| == |ps|
    ensures Within(b, InferAll(es, ps, b).1)
    decreases es, 1
  {
    if es != [] {
      BindingsStay(es[0], ps[0], b);
      AllBindingsStay(es[1..], ps[1..], Infer(es[0], ps[0], b).1);
    }
  }

  /** Once all variables of a type are bound, more bindings change nothing. */
  lemma {:induction false} ClosedStays(t: Ty, b: Bindings, c: Bindings)
    requires Closed(t, b) && Within(b, c)
    ensures Closed(t, c) && Subst(t, c) == Subst(t, b)
    decreases t, 0
  {
    match t
    case Var(_) =>
    case Leaf(_, _) =>
    case Pointer(x) => ClosedStays(x, b, c);
    case Array(x, _) => ClosedStays(x, b, c);
    case Slice(x) => ClosedStays(x, b, c);
    case Function(ret, params) => ClosedStays(ret, b, c); AllClosedStay(params, b, c);
    case GenericInst(_, args) => AllClosedStay(args, b, c);
  }

  lemma {:induction false} AllClosedStay(ts: seq<Ty>, b: Bindings, c: Bindings)
    requires AllClosed(ts, b) && Within(b, c)
    ensures AllClosed(ts, c) && SubstAll(ts, c) == SubstAll(ts, b)
    decreases ts, 1
  {
    if ts != [] {
      ClosedStays(ts[0], b, c);
      AllClosedStay(ts[1..], b, c);
    }
  }

  /** Soundness: success binds every variable, and the instance is what was provided, up to Alike. */
  lemma {:induction false} InferenceIsSound(e: Ty, p: Ty, b: Bindings)
    requires Infer(e, p, b).0
    ensures var after := Infer(e, p, b).1; Closed(e, after) && Alike(Subst(e, after), p)
    decreases e, 0
  {
    match e
    case Var(_) =>
    case Leaf(_, _) =>
    case Pointer(x) => InferenceIsSound(x, p.base, b);
    case Array(x, _) => InferenceIsSound(x, p.base, b);
    case Slice(x) => InferenceIsSound(x, p.base, b);
    case GenericInst(_, args) => AllSound(args, p.args, b);
    case Function(ret, params) =>
      var mid := Infer(ret, p.ret, b).1;
      InferenceIsSound(ret, p.ret, b);
      AllSound(params, p.params, mid);
      AllBindingsStay(params, p.params, mid);
      ClosedStays(ret, mid, InferAll(params, p.params, mid).1);
  }

  lemma {:induction false} AllSound(es: seq<Ty>, ps: seq<Ty>, b: Bindings)
    requires |es| == |ps| && InferAll(es, ps, b).0
    ensures var after := InferAll(es, ps, b).1; AllClosed(es, after) && AllAlike(SubstAll(es, after), ps)
    decreases es, 1
  {
    if es != [] {
      var mid := Infer(es[0], ps[0], b).1;
      var after := InferAll(es[1..], ps[1..], mid).1;
      InferenceIsSound(es[0], ps[0], b);
      AllSound(es[1..], ps[1..], mid);
      AllBindingsStay(es[1..], ps[1..], mid);
      ClosedStays(es[0], mid, after);
      assert SubstAll(es, after)[1..] == SubstAll(es[1..], after);
    }
  }

  // ---------- and when it succeeds ----------

  /** The bindings make the type fit: exactly at variables, up to Alike elsewhere. */
  predicate Fits(e: Ty, p: Ty, s: Bindings)
    decreases e, 0
  {
    match e
    case Var(i) => Bound(s, i) && s[i] == Some(p)
    case Leaf(kind, _) => p.Leaf? && p.kind == kind
    case Pointer(x) => p.Pointer? && Fits(x, p.base, s)
    case Array(x, size) => p.Array? && p.size == size && Fits(x, p.base, s)
    case Slice(x) => (p.Slice? || p.Array?) && Fits(x, p.base, s)
    case Function(ret, params) => p.Function? && Fits(ret, p.ret, s) && AllFit(params, p.params, s)
    case GenericInst(g, args) => p.GenericInst? && p.generic == g && AllFit(args, p.args, s)
  }

  predicate AllFit(es: seq<Ty>, ps: seq<Ty>, s: Bindings)
    decreases es, 1
  {
    |es| == |ps| && (es == [] || (Fits(es[0], ps[0], s) && AllFit(es[1..], ps[1..], s)))
  }

  /** Completeness: if any bindings beyond the present ones fit, inference succeeds and binds nothing they do not. */
  lemma {:induction false} InferenceIsComplete(e: Ty, p: Ty, b: Bindings, s: Bindings)
    requires Within(b, s) && Fits(e, p, s)
    ensures Infer(e, p, b).0 && Within(Infer(e, p, b).1, s)
    decreases e, 0
  {
    match e
    case Var(_) =>
    case Leaf(_, _) =>
    case Pointer(x) => InferenceIsComplete(x, p.base, b, s);
    case Array(x, _) => InferenceIsComplete(x, p.base, b, s);
    case Slice(x) => InferenceIsComplete(x, p.base, b, s);
    case GenericInst(_, args) => AllComplete(args, p.args, b, s);
    case Function(ret, params) =>
      InferenceIsComplete(ret, p.ret, b, s);
      AllComplete(params, p.params, Infer(ret, p.ret, b).1, s);
  }

  lemma {:induction false} AllComplete(es: seq<Ty>, ps: seq<Ty>, b: Bindings, s: Bindings)
    requires Within(b, s) && AllFit(es, ps, s)
    ensures InferAll(es, ps, b).0 && Within(InferAll(es, ps, b).1, s)
    decreases es, 1
  {
    if es != [] {
      InferenceIsComplete(es[0], ps[0], b, s);
      AllComplete(es[1..], ps[1..], Infer(es[0], ps[0], b).1, s);
    }
  }

  /** What inference finds does fit. */
  lemma {:induction false} InferredFits(e: Ty, p: Ty, b: Bindings, s: Bindings)
    requires Infer(e, p, b).0 && Within(Infer(e, p, b).1, s)
    ensures Fits(e, p, s)
    decreases e, 0
  {
    match e
    case Var(_) =>
    case Leaf(_, _) =>
    case Pointer(x) => InferredFits(x, p.base, b, s);
    case Array(x, _) => InferredFits(x, p.base, b, s);
    case Slice(x) => InferredFits(x, p.base, b, s);
    case GenericInst(_, args) => AllInferredFit(args, p.args, b, s);
    case Function(ret, params) =>
      var mid := Infer(ret, p.ret, b).1;
      AllBindingsStay(params, p.params, mid);
      InferredFits(ret, p.ret, b, s);
      AllInferredFit(params, p.params, mid, s);
  }

  lemma {:induction false} AllInferredFit(es: seq<Ty>, ps: seq<Ty>, b: Bindings, s: Bindings)
    requires |es| == |ps| && InferAll(es, ps, b).0 && Within(InferAll(es, ps, b).1, s)
    ensures AllFit(es, ps, s)
    decreases es, 1
  {
    if es != [] {
      var mid := Infer(es[0], ps[0], b).1;
      AllBindingsStay(es[1..], ps[1..], mid);
      InferredFits(es[0], ps[0], b, s);
      AllInferredFit(es[1..], ps[1..], mid, s);
    }
  }

  /** Inference succeeds exactly when some extension of the bindings fits, and finds the least one. */
  lemma InferenceIsExact(e: Ty, p: Ty, b: Bindings)
    ensures Infer(e, p, b).0 <==> exists s :: Within(b, s) && Fits(e, p, s)
    ensures forall s :: Within(b, s) && Fits(e, p, s) ==> Within(Infer(e, p, b).1, s)
  {
    var (ok, after) := Infer(e, p, b);
    BindingsStay(e, p, b);
    if ok {
      InferredFits(e, p, b, after);
    }
    forall s | Within(b, s) && Fits(e, p, s)
      ensures ok && Within(after, s)
    {
      InferenceIsComplete(e, p, b, s);
    }
  }

  /** In particular when a substitution makes the two types equal. */
  lemma {:induction false} EqualInstanceFits(e: Ty, p: Ty, s: Bindings)
    requires Closed(e, s) && Subst(e, s) == p
    ensures Fits(e, p, s)
    decreases e, 0
  {
    match e
    case Var(_) =>
    case Leaf(_, _) =>
    case Pointer(x) => EqualInstanceFits(x, p.base, s);
    case Array(x, _) => EqualInstanceFits(x, p.base, s);
    case Slice(x) => EqualInstanceFits(x, p.base, s);
    case GenericInst(_, args) => EqualInstancesFit(args, p.args, s);
    case Function(ret, params) => EqualInstanceFits(ret, p.ret, s); EqualInstancesFit(params, p.params, s);
  }

  lemma {:induction false} EqualInstancesFit(es: seq<Ty>, ps: seq<Ty>, s: Bindings)
    requires AllClosed(es, s) && SubstAll(es, s) == ps
    ensures AllFit(es, ps, s)
    decreases es, 1
  {
    if es != [] {
      assert ps[0] == Subst(es[0], s) && ps[1..] == SubstAll(es[1..], s);
      EqualInstanceFits(es[0], ps[0], s);
      EqualInstancesFit(es[1..], ps[1..], s);
    }
  }

  lemma MatchingSubstitutionIsFound(e: Ty, p: Ty, b: Bindings, s: Bindings)
    requires Within(b, s) && Closed(e, s) && Subst(e, s) == p
    ensures Infer(e, p, b).0 && Within(Infer(e, p, b).1, s)
    ensures Subst(e, Infer(e, p, b).1) == p
  {
    EqualInstanceFits(e, p, s);
    InferenceIsComplete(e, p, b, s);
    InferenceIsSound(e, p, b);
    ClosedStays(e, Infer(e, p, b).1, s);
  }

  /** The two types walked together down to the variables: equal leaves, and no array where a slice is expected. */
  predicate SameSkeleton(e: Ty, p: Ty)
    decreases e, 0
  {
    match e
    case Var(_) => true
    case Leaf(_, _) => p == e
    case Pointer(x) => p.Pointer? && SameSkeleton(x, p.base)
    case Array(x, size) => p.Array? && p.size == size && SameSkeleton(x, p.base)
    case Slice(x) => p.Slice? && SameSkeleton(x, p.base)
    case Function(ret, params) => p.Function? && SameSkeleton(ret, p.ret) && AllSameSkeleton(params, p.params)
    case GenericInst(g, args) => p.GenericInst? && p.generic == g && AllSameSkeleton(args, p.args)
  }

  predicate AllSameSkeleton(es: seq<Ty>, ps: seq<Ty>)
    decreases es, 1
  {
    |es| == |ps| && (es == [] || (SameSkeleton(es[0], ps[0]) && AllSameSkeleton(es[1..], ps[1..])))
  }

  lemma {:induction false} FittingInstanceIff(e: Ty, p: Ty, s: Bindings)
    requires Fits(e, p, s)
    ensures Subst(e, s) == p <==> SameSkeleton(e, p)
    decreases e, 0
  {
    match e
    case Var(_) =>
    case Leaf(_, _) =>
    case Pointer(x) => FittingInstanceIff(x, p.base, s);
    case Array(x, _) => FittingInstanceIff(x, p.base, s);
    case Slice(x) => if p.Slice? { FittingInstanceIff(x, p.base, s); }
    case GenericInst(_, args) => FittingInstancesIff(args, p.args, s);
    case Function(ret, params) => FittingInstanceIff(ret, p.ret, s); FittingInstancesIff(params, p.params, s);
  }

  lemma {:induction false} FittingInstancesIff(es: seq<Ty>, ps: seq<Ty>, s: Bindings)
    requires AllFit(es, ps, s)
    ensures SubstAll(es, s) == ps <==> AllSameSkeleton(es, ps)
    decreases es, 1
  {
    if es != [] {
      FittingInstanceIff(es[0], ps[0], s);
      FittingInstancesIff(es[1..], ps[1..], s);
      assert SubstAll(es, s) == [Subst(es[0], s)] + SubstAll(es[1..], s) && ps == [ps[0]] + ps[1..];
      assert SubstAll(es, s)[0] == Subst(es[0], s) && SubstAll(es, s)[1..] == SubstAll(es[1..], s);
    }
  }

  /**
   * Inference that succeeds makes the instance exactly the provided type if and only if
   * the two have the same skeleton, which can be read off before the call.
   */
  lemma InstanceIsExactIff(e: Ty, p: Ty, b: Bindings)
    requires Infer(e, p, b).0
    ensures Subst(e, Infer(e, p, b).1) == p <==> SameSkeleton(e, p)
  {
    var after := Infer(e, p, b).1;
    InferredFits(e, p, b, after);
    FittingInstanceIff(e, p, after);
  }

  /** The looseness is real: any primitive passes for any other. */
  lemma LeavesOfOneKindPass(k: LeafKind, i: nat, j: nat, b: Bindings)
    requires i != j
    ensures Infer(Leaf(k, i), Leaf(k, j), b).0 && Subst(Leaf(k, i), Infer(Leaf(k, i), Leaf(k, j), b).1) != Leaf(k, j)
  {}

  // ---------- substitute_type_args ----------

  /** The substitution applied to parameter types afterwards: it does not look into functions and generic instances. */
  function SubstituteTypeArgs(t: Ty, b: Bindings): Ty
  {
    match t
    case Var(i) => if Bound(b, i) then b[i].value else t
    case Pointer(x) => Pointer(SubstituteTypeArgs(x, b))
    case Array(x, size) => Array(SubstituteTypeArgs(x, b), size)
    case Slice(x) => Slice(SubstituteTypeArgs(x, b))
    case _ => t
  }

  /** Some variable of the type is bound to something other than itself. */
  predicate Affected(t: Ty, b: Bindings)
    decreases t, 0
  {
    match t
    case Var(i) => Bound(b, i) && b[i] != Some(t)
    case Leaf(_, _) => false
    case Pointer(x) => Affected(x, b)
    case Array(x, _) => Affected(x, b)
    case Slice(x) => Affected(x, b)
    case Function(ret, params) => Affected(ret, b) || SomeAffected(params, b)
    case GenericInst(_, args) => SomeAffected(args, b)
  }

  predicate SomeAffected(ts: seq<Ty>, b: Bindings)
    decreases ts, 1
  {
    ts != [] && (Affected(ts[0], b) || SomeAffected(ts[1..], b))
  }

  /** The element type under pointers, arrays and slices. */
  function Core(t: Ty): Ty
  {
    if t.Pointer? || t.Array? || t.Slice? then Core(t.base) else t
  }

  lemma {:induction false} AffectedIffChanged(t: Ty, b: Bindings)
    ensures Affected(t, b) <==> Subst(t, b) != t
    decreases t, 0
  {
    match t
    case Var(_) =>
    case Leaf(_, _) =>
    case Pointer(x) => AffectedIffChanged(x, b);
    case Array(x, _) => AffectedIffChanged(x, b);
    case Slice(x) => AffectedIffChanged(x, b);
    case Function(ret, params) => AffectedIffChanged(ret, b); SomeAffectedIffChanged(params, b);
    case GenericInst(_, args) => SomeAffectedIffChanged(args, b);
  }

  lemma {:induction false} SomeAffectedIffChanged(ts: seq<Ty>, b: Bindings)
    ensures SomeAffected(ts, b) <==> SubstAll(ts, b) != ts
    decreases ts, 1
  {
    if ts != [] {
      AffectedIffChanged(ts[0], b);
      SomeAffectedIffChanged(ts[1..], b);
      var us := SubstAll(ts, b);
      assert us[0] == Subst(ts[0], b) && us[1..] == SubstAll(ts[1..], b);
      if us[0] == ts[0] && us[1..] == ts[1..] {
        assert us == [us[0]] + us[1..] && ts == [ts[0]] + ts[1..];
      }
    }
  }

  /**
   * Exactly when it is the substitution: the element type under pointers, arrays and
   * slices is a variable, or a type the bindings do not concern.
   */
  lemma {:induction false} SubstitutesIff(t: Ty, b: Bindings)
    ensures SubstituteTypeArgs(t, b) == Subst(t, b) <==> (Core(t).Var? || !Affected(Core(t), b))
    decreases t
  {
    if t.Pointer? || t.Array? || t.Slice? {
      SubstitutesIff(t.base, b);
    } else {
      AffectedIffChanged(t, b);
    }
  }
}
