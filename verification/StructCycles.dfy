/** Detection of structs that contain themselves by value. */
module StructCycles {
  import opened Options

  /** The type of a field, as far as layout is concerned. */
  datatype FieldType = Missing | Struct(id: nat) | ArrayOf(element: FieldType) | Indirect

  /** The resolved structs and their fields. */
  type Structs = map<nat, seq<FieldType>>

  /** The struct a field holds by value, itself or through nested arrays. */
  function Held(f: FieldType): Option<nat>
  {
    match f
    case Struct(id) => Some(id)
    case ArrayOf(e) => Held(e)
    case _ => None
  }

  /** Every struct held by value is resolved too. */
  ghost predicate Closed(g: Structs)
  {
    forall s, i :: s in g && 0 <= i < |g[s]| && Held(g[s][i]).Some? ==> Held(g[s][i]).value in g
  }

  /** The type of n arrays, one inside the other, of elements of type `f`. */
  function Nested(n: nat, f: FieldType): FieldType
  {
    if n == 0 then f else ArrayOf(Nested(n - 1, f))
  }

  /** A field of that type is laid out inside its struct: the struct itself, or arrays of it. */
  ghost predicate ByValue(f: FieldType, t: nat)
  {
    exists n: nat :: f == Nested(n, Struct(t))
  }

  lemma {:induction false} HeldIff(f: FieldType, t: nat)
    ensures Held(f) == Some(t) <==> ByValue(f, t)
  {
    if f.ArrayOf? {
      HeldIff(f.element, t);
      if ByValue(f.element, t) {
        var n: nat :| f.element == Nested(n, Struct(t));
        assert f == Nested(n + 1, Struct(t));
      }
      if n: nat :| f == Nested(n, Struct(t)) {
        assert f.element == Nested(n - 1, Struct(t));
      }
    } else {
      if Held(f) == Some(t) {
        assert f == Nested(0, Struct(t));
      }
      if n: nat :| f == Nested(n, Struct(t)) {
        assert n == 0;
      }
    }
  }

  /** Some field of `s` is a `t` by value. */
  ghost predicate Holds(g: Structs, s: nat, t: nat)
  {
    s in g && exists i :: 0 <= i < |g[s]| && ByValue(g[s][i], t)
  }

  /** Structs each holding the next by value. */
  ghost predicate Walk(g: Structs, w: seq<nat>)
  {
    w != [] && forall i :: 0 <= i < |w| - 1 ==> Holds(g, w[i], w[i + 1])
  }

  /** Following by-value fields from t one comes back to a struct already passed. */
  ghost predicate ReachesCycle(g: Structs, t: nat)
  {
    exists w :: Walk(g, w) && w[0] == t && w[|w| - 1] in w[..|w| - 1]
  }

  predicate Distinct(path: seq<nat>) { forall i, j :: 0 <= i < j < |path| ==> path[i] != path[j] }

  ghost predicate OnPath(g: Structs, path: seq<nat>)
  {
    Distinct(path) && forall i :: 0 <= i < |path| ==> path[i] in g
  }

  lemma PathFits(g: Structs, path: seq<nat>)
    requires OnPath(g, path)
    ensures |path| <= |g|
  {
    var here := set i | 0 <= i < |path| :: path[i];
    Count(path);
    assert here <= g.Keys;
    Smaller(here, g.Keys);
  }

  lemma {:induction false} Count(path: seq<nat>)
    requires Distinct(path)
    ensures |set i | 0 <= i < |path| :: path[i]| == |path|
    decreases |path|
  {
    if path != [] {
      var init, last := path[..|path| - 1], path[|path| - 1];
      Count(init);
      var before := set i | 0 <= i < |init| :: init[i];
      assert (set i | 0 <= i < |path| :: path[i]) == before + {last};
      assert last !in before;
    }
  }

  lemma {:induction false} Smaller(a: set<nat>, b: set<nat>)
    requires a <= b
    ensures |a| <= |b|
    decreases |a|
  {
    if x :| x in a {
      Smaller(a - {x}, b - {x});
    }
  }

  /** What the search answers when it enters t with the given path behind it. */
  ghost predicate Finds(g: Structs, t: nat, path: seq<nat>)
    requires Closed(g) && OnPath(g, path) && t in g
    decreases |g| - |path|, 1, 0
  {
    PathFits(g, path);
    t in path || FindsFrom(g, t, path, 0)
  }

  /** The same for the fields of t from the i-th on. */
  ghost predicate FindsFrom(g: Structs, t: nat, path: seq<nat>, i: nat)
    requires Closed(g) && OnPath(g, path) && t in g && t !in path && i <= |g[t]|
    decreases |g| - |path|, 0, |g[t]| - i
  {
    PathFits(g, path + [t]);
    i < |g[t]| &&
    (|| (Held(g[t][i]).Some? && Finds(g, Held(g[t][i]).value, path + [t]))
     || FindsFrom(g, t, path, i + 1))
  }

  class CycleChecker {
    const structs: Structs
    var path: seq<nat>

    constructor (structs: Structs)
      ensures this.structs == structs && path == []
    {
      this.structs := structs;
      path := [];
    }

    /** On failure to find a cycle the path is as it was. */
    method Check(t: FieldType) returns (r: bool)
      requires Closed(structs) && OnPath(structs, path) && (t.Struct? ==> t.id in structs)
      modifies this
      ensures r == (t.Struct? && Finds(structs, t.id, old(path)))
      ensures !r ==> path == old(path)
      decreases |structs| - |path|, 0
    {
      if !t.Struct? {
        return false;
      }
      PathFits(structs, path);
      var i := 0;
      while i < |path|
        invariant 0 <= i <= |path| && path == old(path) && t.id !in path[..i]
      {
        if path[i] == t.id {
          return true;
        }
        i := i + 1;
      }
      assert path[..i] == path;
      ghost var before := path;
      path := path + [t.id];
      PathFits(structs, path);
      var fields := structs[t.id];
      i := 0;
      while i < |fields|
        invariant 0 <= i <= |fields| && path == before + [t.id]
        invariant Finds(structs, t.id, before) == FindsFrom(structs, t.id, before, i)
      {
        var found := CheckField(fields[i]);
        if found {
          return true;
        }
        i := i + 1;
      }
      path := path[..|path| - 1];
      return false;
    }

    method CheckField(f: FieldType) returns (found: bool)
      requires Closed(structs) && OnPath(structs, path) && (Held(f).Some? ==> Held(f).value in structs)
      modifies this
      ensures found == (Held(f).Some? && Finds(structs, Held(f).value, old(path)))
      ensures !found ==> path == old(path)
      decreases |structs| - |path|, 1
    {
      found := false;
      if f.Struct? {
        found := Check(f);
      } else if f.ArrayOf? {
        var base := f.element;
        while base.ArrayOf?
          invariant Held(base) == Held(f) && path == old(path)
          decreases base
        {
          base := base.element;
        }
        if base.Struct? {
          found := Check(base);
        }
      }
    }
  }

  // ---------- the search is exact ----------

  /** A walk from t that ends on the path behind it or on itself is found. */
  lemma {:induction false} WalkIsFound(g: Structs, t: nat, path: seq<nat>, w: seq<nat>)
    requires Closed(g) && OnPath(g, path) && t in g && Walk(g, w) && w[0] == t
    requires w[|w| - 1] in path + w[..|w| - 1]
    ensures Finds(g, t, path)
    decreases |w|
  {
    if t !in path {
      var u := w[1];
      assert Holds(g, w[0], u);
      var i :| 0 <= i < |g[t]| && ByValue(g[t][i], u);
      HeldIff(g[t][i], u);
      assert path + w[..|w| - 1] == (path + [t]) + w[1..][..|w[1..]| - 1];
      assert Walk(g, w[1..]) by {
        forall k | 0 <= k < |w[1..]| - 1
          ensures Holds(g, w[1..][k], w[1..][k + 1])
        {
          assert Holds(g, w[k + 1], w[k + 2]);
        }
      }
      WalkIsFound(g, u, path + [t], w[1..]);
      FieldIsFound(g, t, path, i, 0);
    }
  }

  lemma {:induction false} FieldIsFound(g: Structs, t: nat, path: seq<nat>, i: nat, from: nat)
    requires Closed(g) && OnPath(g, path) && t in g && t !in path && from <= i < |g[t]|
    requires Held(g[t][i]).Some? && Finds(g, Held(g[t][i]).value, path + [t])
    ensures FindsFrom(g, t, path, from)
    decreases i - from
  {
    if from < i {
      FieldIsFound(g, t, path, i, from + 1);
    }
  }

  /** What is found is a walk, continuing the path, that comes back. */
  lemma {:induction false} FoundIsWalk(g: Structs, t: nat, path: seq<nat>) returns (w: seq<nat>)
    requires Closed(g) && OnPath(g, path) && t in g && Finds(g, t, path)
    requires Walk(g, path + [t])
    ensures Walk(g, w) && path + [t] <= w && w[|w| - 1] in w[..|w| - 1]
    decreases |g| - |path|, 1, 0
  {
    PathFits(g, path);
    if t in path {
      w := path + [t];
      assert w[..|w| - 1] == path;
    } else {
      w := FoundFromIsWalk(g, t, path, 0);
    }
  }

  lemma {:induction false} FoundFromIsWalk(g: Structs, t: nat, path: seq<nat>, i: nat) returns (w: seq<nat>)
    requires Closed(g) && OnPath(g, path) && t in g && t !in path && i <= |g[t]| && FindsFrom(g, t, path, i)
    requires Walk(g, path + [t])
    ensures Walk(g, w) && path + [t] <= w && w[|w| - 1] in w[..|w| - 1]
    decreases |g| - |path|, 0, |g[t]| - i
  {
    PathFits(g, path + [t]);
    if Held(g[t][i]).Some? && Finds(g, Held(g[t][i]).value, path + [t]) {
      var u := Held(g[t][i]).value;
      HeldIff(g[t][i], u);
      assert Holds(g, t, u);
      w := FoundIsWalk(g, u, path + [t]);
    } else {
      w := FoundFromIsWalk(g, t, path, i + 1);
    }
  }

  /** Started on an empty path the search answers whether a by-value cycle is reachable. */
  lemma SearchIsExact(g: Structs, t: nat)
    requires Closed(g) && t in g
    ensures Finds(g, t, []) <==> ReachesCycle(g, t)
  {
    if Finds(g, t, []) {
      assert [] + [t] == [t];
      var w := FoundIsWalk(g, t, []);
      assert w[0] == t;
    }
    if w :| Walk(g, w) && w[0] == t && w[|w| - 1] in w[..|w| - 1] {
      assert [] + w[..|w| - 1] == w[..|w| - 1];
      WalkIsFound(g, t, [], w);
    }
  }

  /** Whole check of one struct declaration. */
  method StructIsCyclic(structs: Structs, t: nat) returns (r: bool)
    requires Closed(structs) && t in structs
    ensures r == ReachesCycle(structs, t)
  {
    var checker := new CycleChecker(structs);
    r := checker.Check(Struct(t));
    SearchIsExact(structs, t);
  }
}
