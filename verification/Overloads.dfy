/** Overload sets and the choice of an overload for a call. */
module Overloads {
  import opened Options

  /** A `Type*`: types are canonical, so identity is equality. */
  type TypeRef = Option<nat>

  datatype Signature = Unresolved | NotFunction | Function(params: seq<TypeRef>)

  datatype Candidate = Candidate(decl: nat, signature: Signature, isPub: bool)

  /** Whether a source type can implicitly become a target type: (target, source). */
  type Casts = (nat, nat) -> bool

  // ---------- match kinds ----------

  /** 2 for the very same type, 1 for an implicit cast, 0 for no match. */
  function MatchKind(casts: Casts, param: TypeRef, arg: TypeRef): (k: nat)
    ensures k <= 2
  {
    if param.None? then 0
    else if arg == param then 2
    else if arg.Some? && casts(param.value, arg.value) then 1
    else 0
  }

  /** The parameters a call has to match: an instance method's receiver is not among them. */
  function Expected(c: Candidate, isInstance: bool): seq<TypeRef>
    requires c.signature.Function?
  {
    if isInstance && c.signature.params != [] then c.signature.params[1..] else c.signature.params
  }

  function Kinds(casts: Casts, params: seq<TypeRef>, args: seq<TypeRef>): (ks: seq<nat>)
    requires |params| == |args|
    ensures |ks| == |args|
  {
    seq(|args|, i requires 0 <= i < |args| => MatchKind(casts, params[i], args[i]))
  }

  predicate Viable(casts: Casts, c: Candidate, args: seq<TypeRef>, isInstance: bool)
  {
    && c.signature.Function? && |Expected(c, isInstance)| == |args|
    && forall i :: 0 <= i < |args| ==> MatchKind(casts, Expected(c, isInstance)[i], args[i]) > 0
  }

  function KindsOf(casts: Casts, c: Candidate, args: seq<TypeRef>, isInstance: bool): seq<nat>
    requires Viable(casts, c, args, isInstance)
  {
    Kinds(casts, Expected(c, isInstance), args)
  }

  /** At least as good everywhere and better somewhere. */
  predicate Dominates(a: seq<nat>, b: seq<nat>)
    requires |a| == |b|
  {
    (forall p :: 0 <= p < |a| ==> a[p] >= b[p]) && exists p :: 0 <= p < |a| && a[p] > b[p]
  }

  // ---------- what the choice means ----------

  /** The candidate at i is viable and strictly better than every other viable one. */
  predicate Greatest(casts: Casts, cands: seq<Candidate>, args: seq<TypeRef>, isInstance: bool, i: nat)
    requires i < |cands|
  {
    && Viable(casts, cands[i], args, isInstance)
    && forall j :: 0 <= j < |cands| && j != i && Viable(casts, cands[j], args, isInstance) ==>
         Dominates(KindsOf(casts, cands[i], args, isInstance), KindsOf(casts, cands[j], args, isInstance))
  }

  datatype Resolution = NoMatch | Ambiguous | Best(candidate: Candidate)

  /** The greatest viable candidate if there is one; else no match or an ambiguity. */
  ghost predicate Chosen(casts: Casts, cands: seq<Candidate>, args: seq<TypeRef>, isInstance: bool, r: Resolution)
  {
    match r
    case NoMatch => forall i :: 0 <= i < |cands| ==> !Viable(casts, cands[i], args, isInstance)
    case Ambiguous =>
      && (exists i :: 0 <= i < |cands| && Viable(casts, cands[i], args, isInstance))
      && forall i :: 0 <= i < |cands| ==> !Greatest(casts, cands, args, isInstance, i)
    case Best(c) => exists i :: 0 <= i < |cands| && cands[i] == c && Greatest(casts, cands, args, isInstance, i)
  }

  // ---------- dominance is a strict order, and every chain of it stops ----------

  function Sum(ks: seq<nat>): nat
  {
    if ks == [] then 0 else Sum(ks[..|ks| - 1]) + ks[|ks| - 1]
  }

  lemma {:induction false} SumGrows(a: seq<nat>, b: seq<nat>)
    requires |a| == |b| && forall p :: 0 <= p < |a| ==> a[p] >= b[p]
    ensures Sum(a) >= Sum(b)
    ensures (exists p :: 0 <= p < |a| && a[p] > b[p]) ==> Sum(a) > Sum(b)
    decreases |a|
  {
    if a != [] {
      var n := |a| - 1;
      SumGrows(a[..n], b[..n]);
      if p :| 0 <= p < |a| && a[p] > b[p] {
        assert p < n ==> a[..n][p] > b[..n][p];
      }
    }
  }

  lemma DominatesTransitive(a: seq<nat>, b: seq<nat>, c: seq<nat>)
    requires |a| == |b| == |c| && Dominates(a, b) && Dominates(b, c)
    ensures Dominates(a, c)
  {
    var p :| 0 <= p < |a| && a[p] > b[p];
    assert a[p] > c[p];
  }

  /** Among finitely many vectors, whatever is dominated is dominated by one that is not. */
  lemma {:induction false} SomeUndominated(kinds: seq<seq<nat>>, n: nat, i: nat, bound: nat) returns (m: nat)
    requires i < |kinds| && (forall k :: 0 <= k < |kinds| ==> |kinds[k]| == n)
    requires forall k :: 0 <= k < |kinds| ==> Sum(kinds[k]) <= bound
    ensures m < |kinds| && (m == i || Dominates(kinds[m], kinds[i]))
    ensures forall b :: 0 <= b < |kinds| ==> !Dominates(kinds[b], kinds[m])
    decreases bound - Sum(kinds[i])
  {
    if b :| 0 <= b < |kinds| && Dominates(kinds[b], kinds[i]) {
      SumGrows(kinds[b], kinds[i]);
      m := SomeUndominated(kinds, n, b, bound);
      if m != b {
        DominatesTransitive(kinds[m], kinds[b], kinds[i]);
      }
    } else {
      m := i;
    }
  }

  lemma {:induction false} SumBound(ks: seq<nat>)
    requires forall p :: 0 <= p < |ks| ==> ks[p] <= 2
    ensures Sum(ks) <= 2 * |ks|
    decreases |ks|
  {
    if ks != [] {
      SumBound(ks[..|ks| - 1]);
    }
  }

  predicate Undominated(kinds: seq<seq<nat>>, i: nat)
    requires i < |kinds| && forall k :: 0 <= k < |kinds| ==> |kinds[k]| == |kinds[i]|
  {
    forall b :: 0 <= b < |kinds| ==> !Dominates(kinds[b], kinds[i])
  }

  predicate Uniform(kinds: seq<seq<nat>>, n: nat)
  {
    forall k :: 0 <= k < |kinds| ==> |kinds[k]| == n && forall p :: 0 <= p < n ==> kinds[k][p] <= 2
  }

  /** Exactly one vector is left by the dominance filter if and only if it dominates all the others. */
  lemma OneLeftIffGreatest(kinds: seq<seq<nat>>, n: nat, i: nat)
    requires Uniform(kinds, n) && i < |kinds|
    ensures (Undominated(kinds, i) && forall j :: 0 <= j < |kinds| && j != i ==> !Undominated(kinds, j))
            <==> (forall j :: 0 <= j < |kinds| && j != i ==> Dominates(kinds[i], kinds[j]))
  {
    if Undominated(kinds, i) && forall j :: 0 <= j < |kinds| && j != i ==> !Undominated(kinds, j) {
      forall j | 0 <= j < |kinds| && j != i
        ensures Dominates(kinds[i], kinds[j])
      {
        forall k | 0 <= k < |kinds|
          ensures Sum(kinds[k]) <= 2 * n
        {
          SumBound(kinds[k]);
        }
        var m := SomeUndominated(kinds, n, j, 2 * n);
        assert Undominated(kinds, m);
      }
    }
    if forall j :: 0 <= j < |kinds| && j != i ==> Dominates(kinds[i], kinds[j]) {
      forall b | 0 <= b < |kinds|
        ensures !Dominates(kinds[b], kinds[i])
      {
        if b != i && Dominates(kinds[b], kinds[i]) {
          DominatesTransitive(kinds[b], kinds[i], kinds[b]);
        }
      }
      assert Undominated(kinds, i);
    }
  }

  /** The filter always leaves something. */
  lemma SomethingIsLeft(kinds: seq<seq<nat>>, n: nat)
    requires Uniform(kinds, n) && kinds != []
    ensures exists i :: 0 <= i < |kinds| && Undominated(kinds, i)
  {
    forall k | 0 <= k < |kinds|
      ensures Sum(kinds[k]) <= 2 * n
    {
      SumBound(kinds[k]);
    }
    var m := SomeUndominated(kinds, n, 0, 2 * n);
    assert Undominated(kinds, m);
  }

  // ---------- resolve_overload_candidate ----------

  method MatchCandidate(casts: Casts, cand: Candidate, args: seq<TypeRef>, isInstance: bool)
    returns (ok: bool, kinds: seq<nat>)
    ensures ok == Viable(casts, cand, args, isInstance)
    ensures ok ==> kinds == KindsOf(casts, cand, args, isInstance)
  {
    kinds := [];
    if !cand.signature.Function? {
      return false, kinds;
    }
    var params, start, count := cand.signature.params, 0, |cand.signature.params|;
    if isInstance && |params| > 0 {
      start, count := 1, count - 1;
    }
    if count != |args| {
      return false, kinds;
    }
    var p := 0;
    while p < |args|
      invariant 0 <= p <= |args| && |kinds| == p
      invariant forall i :: 0 <= i < p ==> kinds[i] == MatchKind(casts, Expected(cand, isInstance)[i], args[i]) > 0
    {
      var param := params[start + p];
      assert param == Expected(cand, isInstance)[p];
      if param.None? {
        return false, kinds;
      }
      if args[p] == param {
        kinds := kinds + [2];
      } else if args[p].Some? && casts(param.value, args[p].value) {
        kinds := kinds + [1];
      } else {
        return false, kinds;
      }
      p := p + 1;
    }
    return true, kinds;
  }

  /** The comparison loop, which stops at the first parameter that is worse. */
  method Better(b: seq<nat>, a: seq<nat>) returns (r: bool)
    requires |b| == |a|
    ensures r == Dominates(b, a)
  {
    var strictly := false;
    var p := 0;
    while p < |a|
      invariant 0 <= p <= |a|
      invariant forall q :: 0 <= q < p ==> b[q] >= a[q]
      invariant strictly == exists q :: 0 <= q < p && b[q] > a[q]
    {
      if b[p] < a[p] {
        return false;
      }
      if b[p] > a[p] {
        strictly := true;
      }
      p := p + 1;
    }
    return strictly;
  }

  method DominanceFilter(kinds: seq<seq<nat>>, n: nat) returns (dominated: array<bool>)
    requires Uniform(kinds, n)
    ensures fresh(dominated) && dominated.Length == |kinds|
    ensures forall a :: 0 <= a < |kinds| ==> dominated[a] == !Undominated(kinds, a)
  {
    dominated := new bool[|kinds|](_ => false);
    var a := 0;
    while a < |kinds|
      invariant 0 <= a <= |kinds|
      invariant forall i :: 0 <= i < a ==> dominated[i] == !Undominated(kinds, i)
      invariant forall i :: a <= i < |kinds| ==> !dominated[i]
    {
      var b := 0;
      while b < |kinds|
        invariant 0 <= b <= |kinds|
        invariant forall i :: 0 <= i < a ==> dominated[i] == !Undominated(kinds, i)
        invariant forall i :: a < i < |kinds| ==> !dominated[i]
        invariant dominated[a] == exists k :: 0 <= k < b && Dominates(kinds[k], kinds[a])
      {
        if a != b && !dominated[a] {
          var better := Better(kinds[b], kinds[a]);
          if better {
            dominated[a] := true;
          }
        }
        b := b + 1;
      }
      a := a + 1;
    }
  }

  /** Which candidates were kept, in order, with their match kinds. */
  ghost predicate Kept(casts: Casts, cands: seq<Candidate>, n: nat, args: seq<TypeRef>, isInstance: bool,
                       viable: seq<Candidate>, kinds: seq<seq<nat>>, from: seq<nat>)
  {
    && |viable| == |kinds| == |from| && n <= |cands| && Uniform(kinds, |args|)
    && (forall k :: 0 <= k < |from| ==> from[k] < n && cands[from[k]] == viable[k])
    && (forall j, k :: 0 <= j < k < |from| ==> from[j] < from[k])
    && (forall k :: 0 <= k < |from| ==>
          Viable(casts, viable[k], args, isInstance) && kinds[k] == KindsOf(casts, viable[k], args, isInstance))
    && (forall i :: 0 <= i < n && Viable(casts, cands[i], args, isInstance) ==> i in from)
  }

  method Collect(casts: Casts, cands: seq<Candidate>, args: seq<TypeRef>, isInstance: bool)
    returns (viable: seq<Candidate>, kinds: seq<seq<nat>>, ghost from: seq<nat>)
    ensures Kept(casts, cands, |cands|, args, isInstance, viable, kinds, from)
  {
    viable, kinds, from := [], [], [];
    var oi := 0;
    while oi < |cands|
      invariant 0 <= oi <= |cands| && Kept(casts, cands, oi, args, isInstance, viable, kinds, from)
    {
      var ok, ks := MatchCandidate(casts, cands[oi], args, isInstance);
      if ok {
        viable, kinds, from := viable + [cands[oi]], kinds + [ks], from + [oi];
      }
      oi := oi + 1;
    }
  }

  /** Being the greatest of the kept vectors is being the greatest candidate. */
  lemma GreatestKept(casts: Casts, cands: seq<Candidate>, args: seq<TypeRef>, isInstance: bool,
                     viable: seq<Candidate>, kinds: seq<seq<nat>>, from: seq<nat>, k: nat)
    requires Kept(casts, cands, |cands|, args, isInstance, viable, kinds, from) && k < |kinds|
    ensures Greatest(casts, cands, args, isInstance, from[k])
            <==> forall j :: 0 <= j < |kinds| && j != k ==> Dominates(kinds[k], kinds[j])
  {
    if Greatest(casts, cands, args, isInstance, from[k]) {
      forall j | 0 <= j < |kinds| && j != k
        ensures Dominates(kinds[k], kinds[j])
      {
        assert from[j] != from[k] && Viable(casts, cands[from[j]], args, isInstance);
      }
    }
    if forall j :: 0 <= j < |kinds| && j != k ==> Dominates(kinds[k], kinds[j]) {
      forall i | 0 <= i < |cands| && i != from[k] && Viable(casts, cands[i], args, isInstance)
        ensures Dominates(KindsOf(casts, cands[from[k]], args, isInstance), KindsOf(casts, cands[i], args, isInstance))
      {
        var j :| 0 <= j < |from| && from[j] == i;
      }
    }
  }

  /** The last of the candidates the filter leaves, and how many it leaves, up to two. */
  method LastLeft(dominated: array<bool>) returns (count: nat, at: nat, ghost other: nat)
    ensures count == 0 ==> forall k :: 0 <= k < dominated.Length ==> dominated[k]
    ensures count > 0 ==> at < dominated.Length && !dominated[at]
    ensures count == 1 ==> forall k :: 0 <= k < dominated.Length && k != at ==> dominated[k]
    ensures count > 1 ==> other < at && !dominated[other]
  {
    count, at, other := 0, 0, 0;
    var i := 0;
    while i < dominated.Length
      invariant 0 <= i <= dominated.Length
      invariant count == 0 ==> forall k :: 0 <= k < i ==> dominated[k]
      invariant count > 0 ==> at < i && !dominated[at]
      invariant count == 1 ==> forall k :: 0 <= k < i && k != at ==> dominated[k]
      invariant count > 1 ==> other < at && !dominated[other]
    {
      if !dominated[i] {
        other := at;
        count, at := count + 1, i;
      }
      i := i + 1;
    }
  }

  method ResolveOverloadCandidate(casts: Casts, cands: seq<Candidate>, args: seq<TypeRef>, isInstance: bool)
    returns (r: Resolution)
    ensures Chosen(casts, cands, args, isInstance, r)
  {
    var viable, kinds;
    ghost var from;
    viable, kinds, from := Collect(casts, cands, args, isInstance);
    if |viable| == 0 {
      return NoMatch;
    }
    var dominated := DominanceFilter(kinds, |args|);
    SomethingIsLeft(kinds, |args|);
    var count, at;
    ghost var other;
    count, at, other := LastLeft(dominated);
    if count > 1 {
      NoneGreatest(casts, cands, args, isInstance, viable, kinds, from, at, other);
      return Ambiguous;
    }
    OneGreatest(casts, cands, args, isInstance, viable, kinds, from, at);
    return Best(viable[at]);
  }

  lemma OneGreatest(casts: Casts, cands: seq<Candidate>, args: seq<TypeRef>, isInstance: bool,
                    viable: seq<Candidate>, kinds: seq<seq<nat>>, from: seq<nat>, at: nat)
    requires Kept(casts, cands, |cands|, args, isInstance, viable, kinds, from)
    requires at < |kinds| && Undominated(kinds, at)
    requires forall j :: 0 <= j < |kinds| && j != at ==> !Undominated(kinds, j)
    ensures from[at] < |cands| && cands[from[at]] == viable[at] && Greatest(casts, cands, args, isInstance, from[at])
  {
    OneLeftIffGreatest(kinds, |args|, at);
    GreatestKept(casts, cands, args, isInstance, viable, kinds, from, at);
  }

  lemma NoneGreatest(casts: Casts, cands: seq<Candidate>, args: seq<TypeRef>, isInstance: bool,
                     viable: seq<Candidate>, kinds: seq<seq<nat>>, from: seq<nat>, a: nat, b: nat)
    requires Kept(casts, cands, |cands|, args, isInstance, viable, kinds, from)
    requires b < a < |kinds| && Undominated(kinds, a) && Undominated(kinds, b)
    ensures Viable(casts, cands[from[a]], args, isInstance)
    ensures forall i :: 0 <= i < |cands| ==> !Greatest(casts, cands, args, isInstance, i)
  {
    forall i | 0 <= i < |cands|
      ensures !Greatest(casts, cands, args, isInstance, i)
    {
      if i in from {
        var k :| 0 <= k < |from| && from[k] == i;
        GreatestKept(casts, cands, args, isInstance, viable, kinds, from, k);
        OneLeftIffGreatest(kinds, |args|, k);
      }
    }
  }

  // ---------- what follows for callers ----------

  predicate NoRepeats(cands: seq<Candidate>) { forall i, j :: 0 <= i < j < |cands| ==> cands[i] != cands[j] }

  lemma GreatestIsUnique(casts: Casts, cands: seq<Candidate>, args: seq<TypeRef>, isInstance: bool, i: nat, j: nat)
    requires i < |cands| && j < |cands|
    requires Greatest(casts, cands, args, isInstance, i) && Greatest(casts, cands, args, isInstance, j)
    ensures i == j
  {}

  lemma ChosenByValue(casts: Casts, cands: seq<Candidate>, args: seq<TypeRef>, isInstance: bool, i: nat, c: Candidate)
    requires NoRepeats(cands) && i < |cands| && Greatest(casts, cands, args, isInstance, i)
    requires c in cands && c != cands[i] && Viable(casts, c, args, isInstance)
    ensures Dominates(KindsOf(casts, cands[i], args, isInstance), KindsOf(casts, c, args, isInstance))
  {
    var j :| 0 <= j < |cands| && cands[j] == c;
  }

  /** The outcome does not depend on the order in which overloads were declared. */
  lemma OrderDoesNotMatter(casts: Casts, these: seq<Candidate>, those: seq<Candidate>, args: seq<TypeRef>,
                           isInstance: bool, r: Resolution, s: Resolution)
    requires NoRepeats(these) && NoRepeats(those) && forall c :: c in these <==> c in those
    requires Chosen(casts, these, args, isInstance, r) && Chosen(casts, those, args, isInstance, s)
    ensures r == s
  {
    GreatestMoves(casts, these, those, args, isInstance);
    GreatestMoves(casts, those, these, args, isInstance);
    if r.Best? {
      var i :| 0 <= i < |these| && these[i] == r.candidate && Greatest(casts, these, args, isInstance, i);
      var j :| 0 <= j < |those| && those[j] == these[i] && Greatest(casts, those, args, isInstance, j);
      assert s.Best?;
      var k :| 0 <= k < |those| && those[k] == s.candidate && Greatest(casts, those, args, isInstance, k);
      GreatestIsUnique(casts, those, args, isInstance, j, k);
    }
    if s.Best? {
      var j :| 0 <= j < |those| && those[j] == s.candidate && Greatest(casts, those, args, isInstance, j);
      var i :| 0 <= i < |these| && these[i] == those[j] && Greatest(casts, these, args, isInstance, i);
      assert r.Best?;
    }
    ViableMoves(casts, these, those, args, isInstance);
    ViableMoves(casts, those, these, args, isInstance);
  }

  lemma ViableMoves(casts: Casts, these: seq<Candidate>, those: seq<Candidate>, args: seq<TypeRef>, isInstance: bool)
    requires forall c :: c in these <==> c in those
    ensures (exists i :: 0 <= i < |these| && Viable(casts, these[i], args, isInstance)) ==>
              exists j :: 0 <= j < |those| && Viable(casts, those[j], args, isInstance)
  {
    if i :| 0 <= i < |these| && Viable(casts, these[i], args, isInstance) {
      assert these[i] in those;
    }
  }

  lemma GreatestMoves(casts: Casts, these: seq<Candidate>, those: seq<Candidate>, args: seq<TypeRef>, isInstance: bool)
    requires NoRepeats(these) && NoRepeats(those) && forall c :: c in these <==> c in those
    ensures forall i :: 0 <= i < |these| && Greatest(casts, these, args, isInstance, i) ==>
              exists j :: 0 <= j < |those| && those[j] == these[i] && Greatest(casts, those, args, isInstance, j)
  {
    forall i | 0 <= i < |these| && Greatest(casts, these, args, isInstance, i)
      ensures exists j :: 0 <= j < |those| && those[j] == these[i] && Greatest(casts, those, args, isInstance, j)
    {
      assert these[i] in those;
      var j :| 0 <= j < |those| && those[j] == these[i];
      forall k | 0 <= k < |those| && k != j && Viable(casts, those[k], args, isInstance)
        ensures Dominates(KindsOf(casts, those[j], args, isInstance), KindsOf(casts, those[k], args, isInstance))
      {
        assert those[k] in these && those[k] != those[j];
        ChosenByValue(casts, these, args, isInstance, i, those[k]);
      }
      assert Greatest(casts, those, args, isInstance, j);
    }
  }

  // ---------- overload sets ----------

  predicate SameSignature(a: Candidate, b: Candidate)
  {
    a.signature.Function? && b.signature.Function? && a.signature.params == b.signature.params
  }

  predicate DistinctSignatures(cands: seq<Candidate>)
  {
    forall i, j :: 0 <= i < j < |cands| ==> !SameSignature(cands[i], cands[j])
  }

  /** What makes an addition a duplicate of a member. */
  predicate Duplicates(existing: Candidate, added: Candidate)
  {
    if existing.signature.Unresolved? || added.signature.Unresolved? then existing.decl == added.decl
    else SameSignature(existing, added)
  }

  class OverloadSet {
    var overloads: seq<Candidate>
    var isPub: bool

    constructor (first: Candidate, second: Candidate)
      ensures overloads == [first, second] && isPub == (first.isPub || second.isPub)
    {
      overloads := [first, second];
      isPub := first.isPub || second.isPub;
    }

    method Add(fn: Candidate) returns (ok: bool)
      modifies this
      ensures ok == forall i :: 0 <= i < |old(overloads)| ==> !Duplicates(old(overloads)[i], fn)
      ensures overloads == if ok then old(overloads) + [fn] else old(overloads)
      ensures isPub == (old(isPub) || (ok && fn.isPub))
      ensures old(DistinctSignatures(overloads)) ==> DistinctSignatures(overloads)
    {
      var i := 0;
      while i < |overloads|
        invariant 0 <= i <= |overloads| && overloads == old(overloads) && isPub == old(isPub)
        invariant forall k :: 0 <= k < i ==> !Duplicates(overloads[k], fn)
      {
        var existing := overloads[i];
        if existing.signature.Unresolved? || fn.signature.Unresolved? {
          if existing.decl == fn.decl {
            return false;
          }
        } else if existing.signature.Function? && fn.signature.Function?
                  && |existing.signature.params| == |fn.signature.params| {
          var same := SameParams(existing.signature.params, fn.signature.params);
          if same {
            return false;
          }
        }
        i := i + 1;
      }
      overloads := overloads + [fn];
      if fn.isPub {
        isPub := true;
      }
      return true;
    }

    static method SameParams(a: seq<TypeRef>, b: seq<TypeRef>) returns (same: bool)
      requires |a| == |b|
      ensures same == (a == b)
    {
      var p := 0;
      while p < |a|
        invariant 0 <= p <= |a| && a[..p] == b[..p]
      {
        if a[p] != b[p] {
          return false;
        }
        p := p + 1;
      }
      assert a[..p] == a && b[..p] == b;
      return true;
    }
  }

  /** In a set with distinct signatures an all-exact match of a plain call wins against anything. */
  lemma ExactMatchWins(casts: Casts, cands: seq<Candidate>, args: seq<TypeRef>, i: nat, r: Resolution)
    requires DistinctSignatures(cands) && i < |cands| && Chosen(casts, cands, args, false, r)
    requires cands[i].signature == Function(args) && forall p :: 0 <= p < |args| ==> args[p].Some?
    ensures r == Best(cands[i])
  {
    var c := cands[i];
    assert Viable(casts, c, args, false);
    forall j | 0 <= j < |cands| && j != i && Viable(casts, cands[j], args, false)
      ensures Dominates(KindsOf(casts, c, args, false), KindsOf(casts, cands[j], args, false))
    {
      ExactDominates(casts, c, cands[j], args);
    }
    assert Greatest(casts, cands, args, false, i);
    if r.Best? {
      var k :| 0 <= k < |cands| && cands[k] == r.candidate && Greatest(casts, cands, args, false, k);
      GreatestIsUnique(casts, cands, args, false, i, k);
    }
  }

  lemma ExactDominates(casts: Casts, exact: Candidate, other: Candidate, args: seq<TypeRef>)
    requires exact.signature == Function(args) && (forall p :: 0 <= p < |args| ==> args[p].Some?)
    requires Viable(casts, other, args, false) && !SameSignature(exact, other)
    ensures Viable(casts, exact, args, false)
    ensures Dominates(KindsOf(casts, exact, args, false), KindsOf(casts, other, args, false))
  {
    var params := other.signature.params;
    assert params != args;
    var p :| 0 <= p < |args| && params[p] != args[p];
    assert KindsOf(casts, exact, args, false)[p] > KindsOf(casts, other, args, false)[p];
  }

  // ---------- calls of instance methods ----------

  /** A method with parameters `ps` behind a receiver. */
  function Method(decl: nat, recv: TypeRef, ps: seq<TypeRef>, isPub: bool): Candidate
  {
    Candidate(decl, Function([recv] + ps), isPub)
  }

  /** Whatever the receiver, a method matches in an instance call as the function without it does in a plain one. */
  lemma ReceiverIsSkipped(casts: Casts, decl: nat, recv: TypeRef, ps: seq<TypeRef>, isPub: bool, args: seq<TypeRef>)
    ensures Viable(casts, Method(decl, recv, ps, isPub), args, true)
            <==> Viable(casts, Candidate(decl, Function(ps), isPub), args, false)
    ensures Viable(casts, Method(decl, recv, ps, isPub), args, true) ==>
              KindsOf(casts, Method(decl, recv, ps, isPub), args, true)
              == KindsOf(casts, Candidate(decl, Function(ps), isPub), args, false)
  {
    assert ([recv] + ps)[1..] == ps;
  }

  /** The candidate as a plain call would see it. */
  function Plain(c: Candidate): Candidate
  {
    match c.signature
    case Function(params) => c.(signature := Function(if params == [] then [] else params[1..]))
    case _ => c
  }

  function AllPlain(cands: seq<Candidate>): (ps: seq<Candidate>)
    ensures |ps| == |cands|
  {
    seq(|cands|, i requires 0 <= i < |cands| => Plain(cands[i]))
  }

  lemma PlainMatches(casts: Casts, c: Candidate, args: seq<TypeRef>)
    ensures Viable(casts, c, args, true) <==> Viable(casts, Plain(c), args, false)
    ensures Viable(casts, c, args, true) ==> KindsOf(casts, c, args, true) == KindsOf(casts, Plain(c), args, false)
  {
    if c.signature.Function? && c.signature.params != [] {
      var params := c.signature.params;
      assert [params[0]] + params[1..] == params;
      ReceiverIsSkipped(casts, c.decl, params[0], params[1..], c.isPub, args);
    }
  }

  lemma PlainGreatest(casts: Casts, cands: seq<Candidate>, args: seq<TypeRef>, i: nat)
    requires i < |cands|
    ensures Greatest(casts, cands, args, true, i) <==> Greatest(casts, AllPlain(cands), args, false, i)
  {
    forall j | 0 <= j < |cands|
      ensures Viable(casts, cands[j], args, true) <==> Viable(casts, AllPlain(cands)[j], args, false)
      ensures Viable(casts, cands[j], args, true) ==>
                KindsOf(casts, cands[j], args, true) == KindsOf(casts, AllPlain(cands)[j], args, false)
    {
      PlainMatches(casts, cands[j], args);
    }
  }

  lemma PlainViable(casts: Casts, cands: seq<Candidate>, args: seq<TypeRef>, i: nat)
    requires i < |cands|
    ensures Viable(casts, cands[i], args, true) <==> Viable(casts, AllPlain(cands)[i], args, false)
  {
    PlainMatches(casts, cands[i], args);
  }

  lemma PlainNoMatch(casts: Casts, cands: seq<Candidate>, args: seq<TypeRef>)
    requires Chosen(casts, cands, args, true, NoMatch)
    ensures Chosen(casts, AllPlain(cands), args, false, NoMatch)
  {
    forall i | 0 <= i < |cands|
      ensures !Viable(casts, AllPlain(cands)[i], args, false)
    {
      PlainViable(casts, cands, args, i);
    }
  }

  lemma PlainAmbiguous(casts: Casts, cands: seq<Candidate>, args: seq<TypeRef>)
    requires Chosen(casts, cands, args, true, Ambiguous)
    ensures Chosen(casts, AllPlain(cands), args, false, Ambiguous)
  {
    var k :| 0 <= k < |cands| && Viable(casts, cands[k], args, true);
    PlainViable(casts, cands, args, k);
    forall i | 0 <= i < |cands|
      ensures !Greatest(casts, AllPlain(cands), args, false, i)
    {
      PlainGreatest(casts, cands, args, i);
    }
  }

  /** An instance call chooses as the plain call of the functions without their receivers does. */
  lemma InstanceCallIsPlainCall(casts: Casts, cands: seq<Candidate>, args: seq<TypeRef>, r: Resolution)
    requires Chosen(casts, cands, args, true, r)
    ensures Chosen(casts, AllPlain(cands), args, false, if r.Best? then Best(Plain(r.candidate)) else r)
  {
    match r
    case NoMatch => PlainNoMatch(casts, cands, args);
    case Ambiguous => PlainAmbiguous(casts, cands, args);
    case Best(c) =>
      var i :| 0 <= i < |cands| && cands[i] == c && Greatest(casts, cands, args, true, i);
      PlainGreatest(casts, cands, args, i);
      assert AllPlain(cands)[i] == Plain(c);
  }

  /** No other candidate takes exactly these arguments behind its receiver, or without one. */
  predicate AloneBehindReceiver(cands: seq<Candidate>, args: seq<TypeRef>, i: nat)
  {
    forall j :: 0 <= j < |cands| && j != i && cands[j].signature.Function? ==>
      var params := cands[j].signature.params;
      if params == [] then args != [] else params[1..] != args
  }

  /** In an instance call the method that takes exactly the arguments behind its receiver is chosen. */
  lemma ExactMethodWins(casts: Casts, cands: seq<Candidate>, recv: TypeRef, args: seq<TypeRef>, i: nat, r: Resolution)
    requires i < |cands| && Chosen(casts, cands, args, true, r) && AloneBehindReceiver(cands, args, i)
    requires cands[i].signature == Function([recv] + args) && forall p :: 0 <= p < |args| ==> args[p].Some?
    ensures r == Best(cands[i])
  {
    var plain := AllPlain(cands);
    assert ([recv] + args)[1..] == args;
    assert plain[i].signature == Function(args);
    forall j | 0 <= j < |plain| && j != i && Viable(casts, plain[j], args, false)
      ensures Dominates(KindsOf(casts, plain[i], args, false), KindsOf(casts, plain[j], args, false))
    {
      ExactDominates(casts, plain[i], plain[j], args);
    }
    assert Viable(casts, plain[i], args, false) && Greatest(casts, plain, args, false, i);
    PlainGreatest(casts, cands, args, i);
    if r.Best? {
      var k :| 0 <= k < |cands| && cands[k] == r.candidate && Greatest(casts, cands, args, true, k);
      GreatestIsUnique(casts, cands, args, true, i, k);
    }
  }

  // ---------- what a match is ----------

  /** The argument is the parameter's type or casts to it. */
  predicate Passes(casts: Casts, param: TypeRef, arg: TypeRef)
  {
    param.Some? && (arg == param || (arg.Some? && casts(param.value, arg.value)))
  }

  /** A single candidate is chosen exactly if it takes as many arguments as there are and each of them passes. */
  lemma SingleCandidate(casts: Casts, c: Candidate, params: seq<TypeRef>, args: seq<TypeRef>, r: Resolution)
    requires c.signature == Function(params) && Chosen(casts, [c], args, false, r)
    ensures r == if |params| == |args| && forall p :: 0 <= p < |args| ==> Passes(casts, params[p], args[p])
                 then Best(c) else NoMatch
  {
    if |params| == |args| && forall p :: 0 <= p < |args| ==> Passes(casts, params[p], args[p]) {
      assert Viable(casts, c, args, false) && Greatest(casts, [c], args, false, 0);
    } else {
      assert !Viable(casts, c, args, false);
    }
  }

  /** Two candidates each of which takes one argument exactly where the other casts it: neither is better. */
  lemma CrossedCandidates(casts: Casts, c: Candidate, d: Candidate, args: seq<TypeRef>, p: nat, q: nat, r: Resolution)
    requires Viable(casts, c, args, false) && Viable(casts, d, args, false) && p < |args| && q < |args|
    requires c.signature.params[p] == args[p] != d.signature.params[p]
    requires d.signature.params[q] == args[q] != c.signature.params[q]
    requires Chosen(casts, [c, d], args, false, r)
    ensures r == Ambiguous
  {
    var ks, ls := KindsOf(casts, c, args, false), KindsOf(casts, d, args, false);
    assert ks[p] > ls[p] && ls[q] > ks[q];
    assert [c, d][0] == c && [c, d][1] == d;
    forall i | 0 <= i < 2
      ensures !Greatest(casts, [c, d], args, false, i)
    {
      assert Viable(casts, [c, d][1 - i], args, false);
    }
  }

  // ---------- what an addition repeats ----------

  /** A declaration is not added twice, whatever is known of its type; nor are equal parameters. */
  lemma NotAddedTwice(existing: Candidate, added: Candidate)
    ensures existing.signature.Unresolved? || added.signature.Unresolved? ==>
              (Duplicates(existing, added) <==> existing.decl == added.decl)
    ensures !existing.signature.Unresolved? && !added.signature.Unresolved? ==>
              (Duplicates(existing, added) <==>
               exists ps :: existing.signature == Function(ps) && added.signature == Function(ps))
  {
    if SameSignature(existing, added) {
      var ps := existing.signature.params;
      assert existing.signature == Function(ps) && added.signature == Function(ps);
    }
  }
}
