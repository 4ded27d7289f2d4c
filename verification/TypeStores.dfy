/**
 * Hash-consed types.  A type is a node whose children are pointers; nodes are
 * interned, so that a pointer stands for a whole type tree and comparing pointers
 * is comparing types.
 */
module TypeStores {
  import opened Options
  import opened HashMaps
  import opened Interners

  /**
   * A `Type*`.  Structs and enums are allocated, not interned, and void is created
   * once and never found again: they are opaque here.  The pointee of an interned
   * pointer never changes its hash, which is carried along.
   */
  datatype TypeRef = Opaque(id: nat) | Interned(index: nat, cachedHash: nat)
  {
    function Hash(): nat { if Interned? then cachedHash else if this == VOID then Mix(FNV_OFFSET, [0]) else 0 }
  }

  const VOID: TypeRef := Opaque(0)

  datatype Node =
    | Primitive(kind: nat)
    | Pointer(base: TypeRef)
    | Array(base: TypeRef, size: int)
    | Slice(base: TypeRef)
    | Function(ret: TypeRef, params: seq<TypeRef>)
    | TypeVar(name: nat, position: int)
    | GenericInst(base: TypeRef, args: seq<TypeRef>)

  // ---------- type_hasher and type_comparator ----------

  const FNV_OFFSET: nat := 0xcbf29ce484222325
  const FNV_PRIME: nat := 0x100000001b3
  const WORD: nat := 0x1_0000_0000_0000_0000

  function Xor(a: nat, b: nat): nat
  {
    if a == 0 && b == 0 then 0 else 2 * Xor(a / 2, b / 2) + (if a % 2 == b % 2 then 0 else 1)
  }

  function Combine(seed: nat, value: int): nat
  {
    Xor(seed, value % WORD) * FNV_PRIME % WORD
  }

  /** The words mixed into a seed one after the other. */
  function Mix(seed: nat, words: seq<int>): nat
  {
    if words == [] then seed else var last := |words| - 1; Combine(Mix(seed, words[..last]), words[last])
  }

  function Hashes(refs: seq<TypeRef>): (hashes: seq<int>)
  {
    seq(|refs|, i requires 0 <= i < |refs| => refs[i].Hash())
  }

  function TypeHasher(t: Node): nat
  {
    Mix(FNV_OFFSET,
      match t
      case Primitive(kind) => [1, kind]
      case Pointer(base) => [2, base.Hash()]
      case Array(base, size) => [3, base.Hash(), size]
      case Slice(base) => [4, base.Hash()]
      case Function(ret, params) => [5, ret.Hash(), |params|] + Hashes(params)
      case TypeVar(name, position) => [8, name, position]
      case GenericInst(base, args) => [9, base.Hash(), |args|] + Hashes(args))
  }

  /** Same kind, same scalars, same child pointers. */
  predicate TypeComparator(a: Node, b: Node)
  {
    match (a, b)
    case (Primitive(k), Primitive(l)) => k == l
    case (Pointer(x), Pointer(y)) => x == y
    case (Array(x, m), Array(y, n)) => m == n && x == y
    case (Slice(x), Slice(y)) => x == y
    case (Function(r, ps), Function(s, qs)) => r == s && |ps| == |qs| && ps == qs
    case (TypeVar(x, i), TypeVar(y, j)) => x == y && i == j
    case (GenericInst(x, xs), GenericInst(y, ys)) => x == y && |xs| == |ys| && xs == ys
    case _ => false
  }

  /** The comparator decides node equality, and equal nodes hash alike. */
  lemma ComparatorLawful()
    ensures forall a, b :: TypeComparator(a, b) <==> a == b
    ensures Lawful(TypeHasher, TypeComparator)
  {
  }

  // ---------- Type trees ----------

  /** A node without its children. */
  datatype Shape =
    | PrimitiveShape(kind: nat)
    | PointerShape
    | ArrayShape(size: int)
    | SliceShape
    | FunctionShape
    | TypeVarShape(name: nat, position: int)
    | GenericInstShape

  /** A whole type: an opaque one, or a shape over the types of its children. */
  datatype Tree = Leaf(id: nat) | Branch(shape: Shape, kids: seq<Tree>)

  function ShapeOf(t: Node): Shape
  {
    match t
    case Primitive(kind) => PrimitiveShape(kind)
    case Pointer(_) => PointerShape
    case Array(_, size) => ArrayShape(size)
    case Slice(_) => SliceShape
    case Function(_, _) => FunctionShape
    case TypeVar(name, position) => TypeVarShape(name, position)
    case GenericInst(_, _) => GenericInstShape
  }

  function Children(t: Node): seq<TypeRef>
  {
    match t
    case Pointer(base) => [base]
    case Array(base, _) => [base]
    case Slice(base) => [base]
    case Function(ret, params) => [ret] + params
    case GenericInst(base, args) => [base] + args
    case _ => []
  }

  lemma ShapeAndChildren(s: Node, t: Node)
    requires ShapeOf(s) == ShapeOf(t) && Children(s) == Children(t)
    ensures s == t
  {
    assert s.Function? ==> s.params == Children(s)[1..] && t.params == Children(t)[1..];
    assert s.GenericInst? ==> s.args == Children(s)[1..] && t.args == Children(t)[1..];
    assert s.Function? ==> s.ret == Children(s)[0] && t.ret == Children(t)[0];
    assert Children(s) != [] && !s.Function? ==> s.base == Children(s)[0] && t.base == Children(t)[0];
  }

  /** `r` is opaque or points below `n`, with the hash its pointee has. */
  ghost predicate Points(nodes: seq<Node>, r: TypeRef, n: nat)
    requires n <= |nodes|
  {
    r.Interned? ==> r.index < n && r.cachedHash == TypeHasher(nodes[r.index])
  }

  ghost predicate AllPoint(nodes: seq<Node>, rs: seq<TypeRef>, n: nat)
    requires n <= |nodes|
  {
    forall k :: 0 <= k < |rs| ==> Points(nodes, rs[k], n)
  }

  /** Children are interned before their parents, and no two nodes are equal. */
  ghost predicate Canonical(nodes: seq<Node>)
  {
    && (forall i :: 0 <= i < |nodes| ==> AllPoint(nodes, Children(nodes[i]), i))
    && (forall i, j :: 0 <= i < j < |nodes| ==> nodes[i] != nodes[j])
  }

  function Height(r: TypeRef): nat
  {
    if r.Opaque? then 0 else r.index + 1
  }

  /** The type a pointer stands for. */
  ghost function TreeOf(nodes: seq<Node>, r: TypeRef): Tree
    requires Canonical(nodes) && Points(nodes, r, |nodes|)
    decreases Height(r), 1
  {
    if r.Opaque? then Leaf(r.id)
    else Branch(ShapeOf(nodes[r.index]), TreesOf(nodes, Children(nodes[r.index]), r.index))
  }

  ghost function TreesOf(nodes: seq<Node>, rs: seq<TypeRef>, n: nat): (trees: seq<Tree>)
    requires Canonical(nodes) && n <= |nodes| && AllPoint(nodes, rs, n)
    ensures |trees| == |rs| && forall k :: 0 <= k < |rs| ==> trees[k] == TreeOf(nodes, rs[k])
    decreases n + 1, 0, |rs|
  {
    if rs == [] then []
    else TreesOf(nodes, rs[..|rs| - 1], n) + [TreeOf(nodes, rs[|rs| - 1])]
  }

  /** Pointers are equal if and only if the types they stand for are equal. */
  lemma {:induction false} SamePointerIffSameType(nodes: seq<Node>, a: TypeRef, b: TypeRef)
    requires Canonical(nodes) && Points(nodes, a, |nodes|) && Points(nodes, b, |nodes|)
    ensures TreeOf(nodes, a) == TreeOf(nodes, b) <==> a == b
    decreases Height(a)
  {
    if TreeOf(nodes, a) == TreeOf(nodes, b) && a.Interned? {
      var s, t := nodes[a.index], nodes[b.index];
      var cs, ds := Children(s), Children(t);
      forall k | 0 <= k < |cs|
        ensures cs[k] == ds[k]
      {
        assert TreesOf(nodes, cs, a.index)[k] == TreesOf(nodes, ds, b.index)[k];
        SamePointerIffSameType(nodes, cs[k], ds[k]);
      }
      ShapeAndChildren(s, t);
    }
  }

  /** Interning more types changes no type. */
  lemma {:induction false} TypesAreStable(nodes: seq<Node>, all: seq<Node>, r: TypeRef)
    requires Canonical(nodes) && Canonical(all) && nodes <= all && Points(nodes, r, |nodes|)
    ensures Points(all, r, |all|) && TreeOf(all, r) == TreeOf(nodes, r)
    decreases Height(r)
  {
    if r.Interned? {
      var cs, n := Children(nodes[r.index]), r.index;
      assert all[n] == nodes[n];
      assert AllPoint(nodes, cs, n);
      forall k | 0 <= k < |cs|
        ensures TreesOf(all, cs, n)[k] == TreesOf(nodes, cs, n)[k]
      {
        TypesAreStable(nodes, all, cs[k]);
      }
      assert TreesOf(all, cs, n) == TreesOf(nodes, cs, n);
    }
  }

  // ---------- The store as the code keeps it ----------

  datatype MonoKey = MonoKey(base: TypeRef, args: seq<TypeRef>)

  function MonoKeyHash(k: MonoKey): nat
  {
    Mix(0, [Address(k.base), |k.args|] + seq(|k.args|, i requires 0 <= i < |k.args| => Address(k.args[i])))
  }

  /** Some address for a pointer; which one does not matter. */
  function Address(r: TypeRef): nat
  {
    if r.Opaque? then 2 * r.id else 2 * r.index + 1
  }

  predicate MonoKeyCmp(a: MonoKey, b: MonoKey)
  {
    a.base == b.base && |a.args| == |b.args| && forall i :: 0 <= i < |a.args| ==> a.args[i] == b.args[i]
  }

  lemma MonoKeyLawful()
    ensures forall a, b :: MonoKeyCmp(a, b) <==> a == b
    ensures Lawful(MonoKeyHash, MonoKeyCmp)
  {
  }

  lemma FirstAndRestPoint(nodes: seq<Node>, first: TypeRef, rest: seq<TypeRef>, n: nat)
    requires n <= |nodes| && Points(nodes, first, n) && AllPoint(nodes, rest, n)
    ensures AllPoint(nodes, [first] + rest, n)
  {
  }

  /** Every cached pointer is that of its instance. */
  ghost predicate CacheFits(cached: map<MonoKey, TypeRef>, nodes: seq<Node>)
  {
    forall k :: k in cached ==> Stands(nodes, cached[k], GenericInst(k.base, k.args))
  }

  /** The node is where it was found, or behind all others; what is cached stays right. */
  lemma NodesGrow(nodes: seq<Node>, after: seq<Node>, t: Node, i: nat, r: TypeRef, cached: map<MonoKey, TypeRef>)
    requires Canonical(nodes) && AllPoint(nodes, Children(t), |nodes|) && r == Interned(i, TypeHasher(t))
    requires if i == |nodes| then t !in nodes && after == nodes + [t]
             else i < |nodes| && nodes[i] == t && after == nodes
    requires CacheFits(cached, nodes)
    ensures Canonical(after) && Grows(nodes, after, r, t) && CacheFits(cached, after)
  {
    if i == |nodes| {
      AppendCanonical(nodes, t);
      forall k | k in cached
        ensures Stands(after, cached[k], GenericInst(k.base, k.args))
      {
        assert Stands(nodes, cached[k], GenericInst(k.base, k.args));
      }
    }
  }

  class TypeStore {
    const interner: DenseInterner<Node, ()>
    const cache: HashMap<MonoKey, TypeRef>

    ghost function Nodes(): (nodes: seq<Node>)
      reads this, interner
    {
      interner.Keys()
    }

    ghost predicate Valid()
      reads this, interner, interner.table, interner.table.entries, cache, cache.entries
    {
      && interner.table.entries != cache.entries as object
      && interner.Valid() && cache.Valid(MonoKeyHash, MonoKeyCmp)
      && (forall a, b :: interner.cmp(a, b) <==> a == b)
      && (forall t :: interner.copy(t) == t && !interner.empty(t))
      && Canonical(Nodes())
      && CacheFits(cache.Contents, Nodes())
    }

    constructor ()
      ensures Valid() && Nodes() == []
      ensures fresh(interner) && fresh(interner.table) && fresh(interner.table.entries) && fresh(cache)
      ensures fresh(cache.entries)
    {
      ComparatorLawful();
      MonoKeyLawful();
      interner := new DenseInterner(TypeHasher, TypeComparator, t => t, t => false, 64);
      cache := new HashMap(32);
    }

    /** intern_type: the pointer of the node, new or old. */
    method InternType(t: Node) returns (r: TypeRef)
      requires Valid() && AllPoint(Nodes(), Children(t), |Nodes()|)
      modifies interner, interner.table, interner.table.entries
      ensures Valid() && Grows(old(Nodes()), Nodes(), r, t)
      ensures interner.table.entries == old(interner.table.entries) || fresh(interner.table.entries)
      ensures cache.entries == old(cache.entries) && cache.Contents == old(cache.Contents)
    {
      ghost var nodes := Nodes();
      var record := interner.Intern(t, ());
      r := Interned(record.value.denseIndex, TypeHasher(t));
      ghost var i := IndexOf(nodes, interner.cmp, t);
      assert Nodes() == if i == |nodes| then nodes + [t] else nodes;
      NodesGrow(nodes, Nodes(), t, i, r, cache.Contents);
    }

    method MakePointer(base: TypeRef) returns (r: TypeRef)
      requires Valid() && Points(Nodes(), base, |Nodes()|)
      modifies interner, interner.table, interner.table.entries
      ensures Valid() && Grows(old(Nodes()), Nodes(), r, Pointer(base))
    {
      r := InternType(Pointer(base));
    }

    method MakeArray(base: TypeRef, size: int) returns (r: TypeRef)
      requires Valid() && Points(Nodes(), base, |Nodes()|)
      modifies interner, interner.table, interner.table.entries
      ensures Valid() && Grows(old(Nodes()), Nodes(), r, Array(base, size))
    {
      r := InternType(Array(base, size));
    }

    method MakeSlice(base: TypeRef) returns (r: TypeRef)
      requires Valid() && Points(Nodes(), base, |Nodes()|)
      modifies interner, interner.table, interner.table.entries
      ensures Valid() && Grows(old(Nodes()), Nodes(), r, Slice(base))
    {
      r := InternType(Slice(base));
    }

    method MakeFunction(ret: TypeRef, params: seq<TypeRef>) returns (r: TypeRef)
      requires Valid() && Points(Nodes(), ret, |Nodes()|) && AllPoint(Nodes(), params, |Nodes()|)
      modifies interner, interner.table, interner.table.entries
      ensures Valid() && Grows(old(Nodes()), Nodes(), r, Function(ret, params))
    {
      FirstAndRestPoint(Nodes(), ret, params, |Nodes()|);
      r := InternType(Function(ret, params));
    }

    method MakeTypeVar(name: nat, position: int) returns (r: TypeRef)
      requires Valid()
      modifies interner, interner.table, interner.table.entries
      ensures Valid() && Grows(old(Nodes()), Nodes(), r, TypeVar(name, position))
    {
      r := InternType(TypeVar(name, position));
    }

    /** The cache in front of the interner returns the pointer that interning would. */
    method MakeGenericInst(base: TypeRef, args: seq<TypeRef>) returns (r: TypeRef)
      requires Valid() && Points(Nodes(), base, |Nodes()|) && AllPoint(Nodes(), args, |Nodes()|)
      modifies interner, interner.table, interner.table.entries, cache, cache.entries
      ensures Valid() && Grows(old(Nodes()), Nodes(), r, GenericInst(base, args))
    {
      var key := MonoKey(base, args);
      var cached := Recall(key);
      if cached.Some? {
        return cached.value;
      }
      r := InternInstance(key);
    }

    /** The cached pointer of an instance, if there is one. */
    method Recall(key: MonoKey) returns (cached: Option<TypeRef>)
      requires Valid()
      ensures cached.Some? <==> key in cache.Contents
      ensures cached.Some? ==> Grows(Nodes(), Nodes(), cached.value, GenericInst(key.base, key.args))
    {
      MonoKeyLawful();
      cached := cache.Get(key, MonoKeyHash, MonoKeyCmp);
      assert cached.Some? ==> Stands(Nodes(), cached.value, GenericInst(key.base, key.args));
    }

    /** Interns an instance that is not cached, and caches its pointer. */
    method InternInstance(key: MonoKey) returns (r: TypeRef)
      requires Valid() && Points(Nodes(), key.base, |Nodes()|) && AllPoint(Nodes(), key.args, |Nodes()|)
      modifies interner, interner.table, interner.table.entries, cache, cache.entries
      ensures Valid() && Grows(old(Nodes()), Nodes(), r, GenericInst(key.base, key.args))
    {
      FirstAndRestPoint(Nodes(), key.base, key.args, |Nodes()|);
      r := InternType(GenericInst(key.base, key.args));
      Remember(key, r);
    }

    /** Enters a pointer in the cache; the nodes are not touched. */
    method Remember(key: MonoKey, r: TypeRef)
      requires Valid() && Stands(Nodes(), r, GenericInst(key.base, key.args))
      modifies cache, cache.entries
      ensures Valid() && Nodes() == old(Nodes())
    {
      MonoKeyLawful();
      ghost var before := cache.Contents;
      var _ := cache.Put(key, r, MonoKeyHash, MonoKeyCmp);
      assert cache.Contents == PutInto(before, MonoKeyCmp, key, r);
    }
  }

  /** The nodes grow by `t` if it is new; either way `r` is its pointer. */
  ghost predicate Grows(nodes: seq<Node>, all: seq<Node>, r: TypeRef, t: Node)
  {
    all == nodes + (if t in nodes then [] else [t]) && Stands(all, r, t)
  }

  /** `r` is the pointer of node `t`. */
  ghost predicate Stands(nodes: seq<Node>, r: TypeRef, t: Node)
  {
    Points(nodes, r, |nodes|) && r.Interned? && nodes[r.index] == t
  }

  lemma AppendCanonical(nodes: seq<Node>, t: Node)
    requires Canonical(nodes) && t !in nodes && AllPoint(nodes, Children(t), |nodes|)
    ensures Canonical(nodes + [t])
  {
    var all := nodes + [t];
    forall i | 0 <= i < |all|
      ensures AllPoint(all, Children(all[i]), i)
    {
      assert i < |nodes| ==> AllPoint(nodes, Children(nodes[i]), i);
    }
  }
}
