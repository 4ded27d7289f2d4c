/**
 * The open-addressing hash map: linear probing, tombstones, doubling at three
 * quarters full.  `hash` and `cmp` are passed to every call, as in the code.
 */
module HashMaps {
  import opened Options

  datatype Slot<K, V> = Empty | Tombstone | Live(key: K, value: V)

  // ---------- The abstract map, modulo cmp ----------

  /** `cmp` is an equivalence and `hash` respects it. */
  ghost predicate Lawful<K(!new)>(hash: K -> nat, cmp: (K, K) -> bool)
  {
    && (forall a :: cmp(a, a))
    && (forall a, b :: cmp(a, b) ==> cmp(b, a))
    && (forall a, b, c :: cmp(a, b) && cmp(b, c) ==> cmp(a, c))
    && (forall a, b :: cmp(a, b) ==> hash(a) == hash(b))
  }

  /** No two stored keys are equal under `cmp`. */
  ghost predicate KeysDiffer<K, V>(m: map<K, V>, cmp: (K, K) -> bool)
  {
    forall a, b :: a in m && b in m && cmp(a, b) ==> a == b
  }

  ghost function Lookup<K, V>(m: map<K, V>, cmp: (K, K) -> bool, key: K): Option<V>
  {
    if k :| k in m && cmp(k, key) then Some(m[k]) else None
  }

  /** An equal stored key keeps its place and takes the new value. */
  ghost function PutInto<K, V>(m: map<K, V>, cmp: (K, K) -> bool, key: K, value: V): map<K, V>
  {
    if k :| k in m && cmp(k, key) then m[k := value] else m[key := value]
  }

  ghost function RemoveFrom<K, V>(m: map<K, V>, cmp: (K, K) -> bool, key: K): map<K, V>
  {
    map k | k in m && !cmp(k, key) :: m[k]
  }

  lemma LookupPut<K(!new), V>(m: map<K, V>, hash: K -> nat, cmp: (K, K) -> bool, key: K, value: V, k: K)
    requires Lawful(hash, cmp) && KeysDiffer(m, cmp)
    ensures KeysDiffer(PutInto(m, cmp, key, value), cmp)
    ensures Lookup(PutInto(m, cmp, key, value), cmp, k) == if cmp(key, k) then Some(value) else Lookup(m, cmp, k)
  {
    var r := PutInto(m, cmp, key, value);
    if x :| x in m && cmp(x, key) {
      assert r == m[x := value];
      if y :| y in m && cmp(y, k) {
        assert y in r;
      }
    } else {
      assert r == m[key := value];
      assert key in r;
      if y :| y in m && cmp(y, k) {
        assert y in r;
      }
    }
  }

  lemma LookupRemove<K(!new), V>(m: map<K, V>, hash: K -> nat, cmp: (K, K) -> bool, key: K, k: K)
    requires Lawful(hash, cmp) && KeysDiffer(m, cmp)
    ensures KeysDiffer(RemoveFrom(m, cmp, key), cmp)
    ensures Lookup(RemoveFrom(m, cmp, key), cmp, k) == if cmp(key, k) then None else Lookup(m, cmp, k)
  {
    if y :| y in m && cmp(y, k) {
      assert !cmp(key, k) ==> y in RemoveFrom(m, cmp, key);
    }
  }

  // ---------- Probe sequences ----------

  /** The slot `j` steps behind `home` in a table of `cap` slots. */
  function At(home: nat, j: nat, cap: nat): nat
    requires home < cap && j <= cap
  {
    if home + j < cap then home + j else home + j - cap
  }

  function Distance(home: nat, i: nat, cap: nat): (d: nat)
    requires home < cap && i < cap
    ensures d < cap && At(home, d, cap) == i
  {
    if i >= home then i - home else i + cap - home
  }

  function Home<K>(hash: K -> nat, key: K, cap: nat): (h: nat)
    requires cap > 0
    ensures h < cap
  {
    hash(key) % cap
  }

  lemma NextIndex(home: nat, j: nat, cap: nat)
    requires home < cap && j < cap
    ensures (At(home, j, cap) + 1) % cap == At(home, j + 1, cap)
  {
    if At(home, j, cap) + 1 < cap {
      SmallMod(At(home, j, cap) + 1, cap);
    }
  }

  lemma SmallMod(x: nat, n: nat)
    requires x < n
    ensures x % n == x
  {
  }

  /** No empty slot between the home of the key in slot `i` and that slot. */
  ghost predicate Connected<K, V>(s: seq<Slot<K, V>>, hash: K -> nat, i: nat)
    requires i < |s| && s[i].Live?
  {
    var home := Home(hash, s[i].key, |s|);
    forall j :: 0 <= j < Distance(home, i, |s|) ==> !s[At(home, j, |s|)].Empty?
  }

  ghost predicate Sound<K, V>(s: seq<Slot<K, V>>, hash: K -> nat, cmp: (K, K) -> bool)
  {
    && (forall i :: 0 <= i < |s| && s[i].Live? ==> Connected(s, hash, i))
    && (forall i, j :: 0 <= i < |s| && 0 <= j < |s| && s[i].Live? && s[j].Live? && cmp(s[i].key, s[j].key) ==> i == j)
  }

  ghost predicate Represents<K, V>(s: seq<Slot<K, V>>, m: map<K, V>)
  {
    && (forall i :: 0 <= i < |s| && s[i].Live? ==> s[i].key in m && m[s[i].key] == s[i].value)
    && (forall k :: k in m ==> exists i :: 0 <= i < |s| && s[i].Live? && s[i].key == k)
  }

  /** The slots probed before step `n` for `key` are occupied, and none holds an equal key. */
  ghost predicate Probed<K, V>(s: seq<Slot<K, V>>, hash: K -> nat, cmp: (K, K) -> bool, key: K, n: nat)
    requires |s| > 0 && n <= |s|
  {
    var home := Home(hash, key, |s|);
    forall j :: 0 <= j < n ==>
      var x := s[At(home, j, |s|)];
      !x.Empty? && (x.Live? ==> !cmp(x.key, key))
  }

  ghost predicate Absent<K, V>(s: seq<Slot<K, V>>, cmp: (K, K) -> bool, key: K)
  {
    forall i :: 0 <= i < |s| && s[i].Live? ==> !cmp(s[i].key, key)
  }

  /** A probe that meets an empty slot, or has seen all slots, has met every equal key. */
  lemma ProbeMisses<K(!new), V>(s: seq<Slot<K, V>>, hash: K -> nat, cmp: (K, K) -> bool, key: K, n: nat)
    requires Lawful(hash, cmp) && |s| > 0 && n <= |s| && Sound(s, hash, cmp) && Probed(s, hash, cmp, key, n)
    requires n < |s| ==> s[At(Home(hash, key, |s|), n, |s|)].Empty?
    ensures Absent(s, cmp, key)
  {
    var home := Home(hash, key, |s|);
    forall i | 0 <= i < |s| && s[i].Live?
      ensures !cmp(s[i].key, key)
    {
      assert At(home, Distance(home, i, |s|), |s|) == i && Connected(s, hash, i);
      if Home(hash, s[i].key, |s|) == home {
        assert Distance(home, i, |s|) < n;
      }
    }
  }

  // ---------- Counting ----------

  function Lives<K, V>(s: seq<Slot<K, V>>): nat
  {
    if s == [] then 0 else Lives(s[..|s| - 1]) + (if s[|s| - 1].Live? then 1 else 0)
  }

  function Tombs<K, V>(s: seq<Slot<K, V>>): nat
  {
    if s == [] then 0 else Tombs(s[..|s| - 1]) + (if s[|s| - 1].Tombstone? then 1 else 0)
  }

  lemma {:induction false} CountUpdate<K, V>(s: seq<Slot<K, V>>, i: nat, x: Slot<K, V>)
    requires i < |s|
    ensures Lives(s[i := x]) == Lives(s) - (if s[i].Live? then 1 else 0) + (if x.Live? then 1 else 0)
    ensures Tombs(s[i := x]) == Tombs(s) - (if s[i].Tombstone? then 1 else 0) + (if x.Tombstone? then 1 else 0)
    decreases |s|
  {
    var n := |s| - 1;
    if i == n {
      assert s[i := x][..n] == s[..n];
    } else {
      assert s[i := x][..n] == s[..n][i := x];
      CountUpdate(s[..n], i, x);
    }
  }

  lemma {:induction false} CountBound<K, V>(s: seq<Slot<K, V>>)
    ensures Lives(s) + Tombs(s) <= |s|
    ensures (forall i :: 0 <= i < |s| ==> !s[i].Empty?) ==> Lives(s) + Tombs(s) == |s|
    ensures (forall i :: 0 <= i < |s| ==> s[i].Empty?) ==> Lives(s) == Tombs(s) == 0
    decreases |s|
  {
    if s != [] {
      CountBound(s[..|s| - 1]);
    }
  }

  lemma {:induction false} LivesPrefix<K, V>(s: seq<Slot<K, V>>, i: nat)
    requires i < |s|
    ensures Lives(s[..i]) + (if s[i].Live? then 1 else 0) <= Lives(s)
    decreases |s|
  {
    var n := |s| - 1;
    if i < n {
      assert s[..n][..i] == s[..i];
      LivesPrefix(s[..n], i);
    }
  }

  /** All slots probed and occupied: then no slot is empty. */
  lemma ProbedAll<K, V>(s: seq<Slot<K, V>>, home: nat)
    requires home < |s| && forall j :: 0 <= j < |s| ==> !s[At(home, j, |s|)].Empty?
    ensures forall i :: 0 <= i < |s| ==> !s[i].Empty?
  {
    forall i | 0 <= i < |s|
      ensures !s[i].Empty?
    {
      assert At(home, Distance(home, i, |s|), |s|) == i;
    }
  }

  // ---------- Single-slot changes ----------

  /** Occupying a free slot of the key's own probe sequence. */
  lemma InsertKeeps<K(!new), V>(s: seq<Slot<K, V>>, hash: K -> nat, cmp: (K, K) -> bool, key: K, value: V, n: nat)
    requires Lawful(hash, cmp) && |s| > 0 && n < |s| && Sound(s, hash, cmp) && Absent(s, cmp, key)
    requires forall j :: 0 <= j < n ==> !s[At(Home(hash, key, |s|), j, |s|)].Empty?
    requires !s[At(Home(hash, key, |s|), n, |s|)].Live?
    ensures Sound(s[At(Home(hash, key, |s|), n, |s|) := Live(key, value)], hash, cmp)
  {
    var home := Home(hash, key, |s|);
    var i := At(home, n, |s|);
    var r := s[i := Live(key, value)];
    assert Distance(home, i, |s|) == n;
    forall x | 0 <= x < |r| && r[x].Live?
      ensures Connected(r, hash, x)
    {
      if x != i {
        assert Connected(s, hash, x);
      }
    }
  }

  /** Replacing a value, or turning a key into a tombstone. */
  lemma ReplaceKeeps<K, V>(s: seq<Slot<K, V>>, hash: K -> nat, cmp: (K, K) -> bool, i: nat, x: Slot<K, V>)
    requires i < |s| && s[i].Live? && Sound(s, hash, cmp)
    requires x.Tombstone? || (x.Live? && x.key == s[i].key)
    ensures Sound(s[i := x], hash, cmp)
  {
    var r := s[i := x];
    forall y | 0 <= y < |r| && r[y].Live?
      ensures Connected(r, hash, y)
    {
      assert Connected(s, hash, y);
    }
  }

  lemma RepresentsInsert<K(!new), V>(s: seq<Slot<K, V>>, hash: K -> nat, cmp: (K, K) -> bool, m: map<K, V>, i: nat,
                                     key: K, value: V)
    requires Lawful(hash, cmp) && Represents(s, m) && Absent(s, cmp, key) && i < |s| && !s[i].Live?
    ensures Represents(s[i := Live(key, value)], m[key := value]) && PutInto(m, cmp, key, value) == m[key := value]
    ensures key !in m
  {
    var r, m' := s[i := Live(key, value)], m[key := value];
    forall k | k in m
      ensures !cmp(k, key) && exists x :: 0 <= x < |r| && r[x].Live? && r[x].key == k
    {
      var x :| 0 <= x < |s| && s[x].Live? && s[x].key == k;
      assert r[x].key == k;
    }
    assert r[i].key == key;
  }

  lemma RepresentsUpdate<K(!new), V>(s: seq<Slot<K, V>>, hash: K -> nat, cmp: (K, K) -> bool, m: map<K, V>, i: nat,
                                     key: K, value: V)
    requires Lawful(hash, cmp) && Represents(s, m) && Sound(s, hash, cmp)
    requires i < |s| && s[i].Live? && cmp(s[i].key, key)
    ensures Represents(s[i := Live(s[i].key, value)], PutInto(m, cmp, key, value))
    ensures PutInto(m, cmp, key, value) == m[s[i].key := value] && Lookup(m, cmp, key) == Some(s[i].value)
  {
    OnlyMatch(s, hash, cmp, m, i, key);
    var r := s[i := Live(s[i].key, value)];
    forall k | k in m
      ensures exists x :: 0 <= x < |r| && r[x].Live? && r[x].key == k
    {
      var x :| 0 <= x < |s| && s[x].Live? && s[x].key == k;
      assert r[x].key == k;
    }
  }

  lemma RepresentsRemove<K(!new), V>(s: seq<Slot<K, V>>, hash: K -> nat, cmp: (K, K) -> bool, m: map<K, V>, i: nat,
                                     key: K)
    requires Lawful(hash, cmp) && Represents(s, m) && Sound(s, hash, cmp)
    requires i < |s| && s[i].Live? && cmp(s[i].key, key)
    ensures Represents(s[i := Tombstone], RemoveFrom(m, cmp, key))
  {
    OnlyMatch(s, hash, cmp, m, i, key);
    var r, m' := s[i := Tombstone], RemoveFrom(m, cmp, key);
    forall k | k in m'
      ensures exists x :: 0 <= x < |r| && r[x].Live? && r[x].key == k
    {
      var x :| 0 <= x < |s| && s[x].Live? && s[x].key == k;
      assert r[x].key == k;
    }
  }

  /** The stored key in slot `i` is the only one equal to `key`. */
  lemma OnlyMatch<K(!new), V>(s: seq<Slot<K, V>>, hash: K -> nat, cmp: (K, K) -> bool, m: map<K, V>, i: nat, key: K)
    requires Lawful(hash, cmp) && Represents(s, m) && Sound(s, hash, cmp)
    requires i < |s| && s[i].Live? && cmp(s[i].key, key)
    ensures forall k :: k in m && cmp(k, key) ==> k == s[i].key
    ensures forall x :: 0 <= x < |s| && s[x].Live? && cmp(s[x].key, key) ==> x == i
  {
    forall x | 0 <= x < |s| && s[x].Live? && cmp(s[x].key, key)
      ensures x == i
    {
      assert cmp(s[x].key, s[i].key);
    }
  }

  lemma AbsentLookup<K, V>(s: seq<Slot<K, V>>, cmp: (K, K) -> bool, m: map<K, V>, key: K)
    requires Represents(s, m) && Absent(s, cmp, key)
    ensures Lookup(m, cmp, key) == None && RemoveFrom(m, cmp, key) == m
  {
  }

  /** What putting a new key into the n-th slot of its probe sequence does to the table and its contents. */
  lemma Inserted<K(!new), V>(s: seq<Slot<K, V>>, hash: K -> nat, cmp: (K, K) -> bool, m: map<K, V>, i: nat, key: K,
                             value: V, n: nat)
    requires Lawful(hash, cmp) && |s| > 0 && n < |s| && Sound(s, hash, cmp) && Represents(s, m) && Absent(s, cmp, key)
    requires forall j :: 0 <= j < n ==> !s[At(Home(hash, key, |s|), j, |s|)].Empty?
    requires i == At(Home(hash, key, |s|), n, |s|) && !s[i].Live?
    ensures Sound(s[i := Live(key, value)], hash, cmp) && Represents(s[i := Live(key, value)], m[key := value])
    ensures PutInto(m, cmp, key, value) == m[key := value] && key !in m
    ensures Lives(s[i := Live(key, value)]) == Lives(s) + 1
    ensures Tombs(s[i := Live(key, value)]) == Tombs(s) - (if s[i].Tombstone? then 1 else 0)
  {
    InsertKeeps(s, hash, cmp, key, value, n);
    RepresentsInsert(s, hash, cmp, m, i, key, value);
    CountUpdate(s, i, Live(key, value));
  }

  // ---------- The map as the code keeps it ----------

  class HashMap<K(!new), V> {
    var entries: array<Slot<K, V>>
    var size: nat
    var tombstones: nat
    ghost var Contents: map<K, V>

    ghost predicate Valid(hash: K -> nat, cmp: (K, K) -> bool)
      reads this, entries
    {
      && entries.Length > 0
      && Sound(entries[..], hash, cmp)
      && Represents(entries[..], Contents)
      && size == Lives(entries[..])
      && tombstones == Tombs(entries[..])
    }

    constructor (initialCapacity: nat)
      ensures fresh(entries) && entries.Length == if initialCapacity < 8 then 8 else initialCapacity
      ensures Contents == map[] && size == tombstones == 0
      ensures forall hash, cmp :: Valid(hash, cmp)
    {
      var capacity := if initialCapacity < 8 then 8 else initialCapacity;
      entries := new Slot[capacity](_ => Empty);
      size, tombstones := 0, 0;
      Contents := map[];
      new;
      CountBound(entries[..]);
    }

    /** Moves every key into a fresh table; without room for all keys the code would not terminate. */
    method Rehash(newCapacity: nat, hash: K -> nat, cmp: (K, K) -> bool) returns (done: bool)
      requires Lawful(hash, cmp) && Valid(hash, cmp)
      requires newCapacity == 0 || newCapacity >= size
      modifies this
      ensures Valid(hash, cmp) && Contents == old(Contents) && size == old(size)
      ensures done == (newCapacity > 0)
      ensures if done then fresh(entries) && entries.Length == newCapacity && tombstones == 0
              else entries == old(entries) && tombstones == old(tombstones)
    {
      if newCapacity == 0 {
        return false;
      }
      var newEntries := new Slot<K, V>[newCapacity](_ => Empty);
      CountBound(newEntries[..]);
      ghost var s := entries[..];
      for i := 0 to entries.Length
        invariant unchanged(this) && entries[..] == s && fresh(newEntries) && newEntries.Length == newCapacity
        invariant Sound(newEntries[..], hash, cmp) && Represents(newEntries[..], Model(s[..i]))
        invariant Lives(newEntries[..]) == Lives(s[..i]) && Tombs(newEntries[..]) == 0
      {
        ModelStep(s, i);
        if entries[i].Live? {
          LivesPrefix(s, i);
          ghost var before := newEntries[..];
          AbsentFromCopy(s, hash, cmp, i, before);
          ghost var home := Home(hash, s[i].key, newCapacity);
          var index := FreeSlot(newEntries, entries[i].key, hash);
          ghost var n := Distance(home, index, newCapacity);
          InsertKeeps(before, hash, cmp, s[i].key, s[i].value, n);
          RepresentsInsert(before, hash, cmp, Model(s[..i]), index, s[i].key, s[i].value);
          CountUpdate(before, index, s[i]);
          newEntries[index] := entries[i];
          assert newEntries[..] == before[index := s[i]];
        }
      }
      assert s[..|s|] == s;
      ModelIs(s, hash, cmp, Contents);
      entries := newEntries;
      tombstones := 0;
      return true;
    }

    /** First empty slot of a key's probe sequence, in a table without tombstones that is not full. */
    method FreeSlot(table: array<Slot<K, V>>, key: K, hash: K -> nat) returns (index: nat)
      requires Lives(table[..]) < table.Length && Tombs(table[..]) == 0
      ensures index < table.Length && table[index].Empty?
      ensures var home := Home(hash, key, table.Length);
              forall j :: 0 <= j < Distance(home, index, table.Length) ==> !table[At(home, j, table.Length)].Empty?
    {
      ghost var home, n := Home(hash, key, table.Length), 0;
      index := hash(key) % table.Length;
      while !table[index].Empty?
        invariant 0 <= n < table.Length && index == At(home, n, table.Length)
        invariant forall j :: 0 <= j < n ==> !table[At(home, j, table.Length)].Empty?
        decreases table.Length - n
      {
        NextIndex(home, n, table.Length);
        n := n + 1;
        if n == table.Length {
          ProbedAll(table[..], home);
          CountBound(table[..]);
        }
        index := (index + 1) % table.Length;
      }
      assert Distance(home, index, table.Length) == n;
    }

    method Put(key: K, value: V, hash: K -> nat, cmp: (K, K) -> bool) returns (done: bool)
      requires Lawful(hash, cmp) && Valid(hash, cmp)
      modifies this, entries
      ensures done && Valid(hash, cmp) && (entries == old(entries) || fresh(entries))
      ensures Contents == PutInto(old(Contents), cmp, key, value)
      ensures old(entries.Length) > 1 || old(size) == 0 ==> size + tombstones <= entries.Length * 3 / 4
    {
      CountBound(entries[..]);
      if size + tombstones >= entries.Length * 3 / 4 {
        var _ := Rehash(entries.Length * 2, hash, cmp);
      }
      done := PutWithRoom(key, value, hash, cmp);
    }

    /** The probing part of put, in a table that is not full. */
    method PutWithRoom(key: K, value: V, hash: K -> nat, cmp: (K, K) -> bool) returns (done: bool)
      requires Lawful(hash, cmp) && Valid(hash, cmp) && size + tombstones < entries.Length
      modifies this, entries
      ensures done && Valid(hash, cmp) && entries == old(entries)
      ensures Contents == PutInto(old(Contents), cmp, key, value)
      ensures size + tombstones <= old(size + tombstones) + 1
    {
      ghost var s := entries[..];
      var capacity := entries.Length;
      var index := hash(key) % capacity;
      ghost var home := Home(hash, key, capacity);
      var firstTombstone: int := -1;
      ghost var at := 0;
      for i := 0 to capacity
        invariant entries == old(entries) && entries[..] == s && Valid(hash, cmp) && unchanged(this)
        invariant index == At(home, i, capacity) && Probed(s, hash, cmp, key, i)
        invariant firstTombstone == -1 || (0 <= at < i && firstTombstone == At(home, at, capacity)
                                           && s[firstTombstone].Tombstone?)
      {
        var k := entries[index];
        if k.Empty? {
          ProbeMisses(s, hash, cmp, key, i);
          ghost var n := i;
          if firstTombstone != -1 {
            index := firstTombstone;
            n := at;
          }
          Inserted(s, hash, cmp, Contents, index, key, value, n);
          if firstTombstone != -1 {
            CountPositive(s, index);
            tombstones := tombstones - 1;
          }
          entries[index] := Live(key, value);
          size := size + 1;
          Contents := Contents[key := value];
          assert entries[..] == s[index := Live(key, value)];
          return true;
        } else if k.Tombstone? {
          if firstTombstone == -1 {
            firstTombstone, at := index, i;
          }
        } else if cmp(k.key, key) {
          ReplaceKeeps(s, hash, cmp, index, Live(k.key, value));
          RepresentsUpdate(s, hash, cmp, Contents, index, key, value);
          CountUpdate(s, index, Live(k.key, value));
          entries[index] := Live(k.key, value);
          Contents := PutInto(Contents, cmp, key, value);
          assert entries[..] == s[index := Live(k.key, value)];
          return true;
        }
        NextIndex(home, i, capacity);
        index := (index + 1) % capacity;
      }
      ProbedAll(s, home);
      CountBound(s);
      assert false;
    }

    method Get(key: K, hash: K -> nat, cmp: (K, K) -> bool) returns (result: Option<V>)
      requires Lawful(hash, cmp) && Valid(hash, cmp)
      ensures result == Lookup(Contents, cmp, key)
    {
      ghost var s := entries[..];
      var capacity := entries.Length;
      var index := hash(key) % capacity;
      ghost var home := Home(hash, key, capacity);
      for i := 0 to capacity
        invariant index == At(home, i, capacity) && Probed(s, hash, cmp, key, i)
      {
        var k := entries[index];
        if k.Empty? {
          ProbeMisses(s, hash, cmp, key, i);
          AbsentLookup(s, cmp, Contents, key);
          return None;
        } else if k.Live? && cmp(k.key, key) {
          RepresentsUpdate(s, hash, cmp, Contents, index, key, k.value);
          return Some(k.value);
        }
        NextIndex(home, i, capacity);
        index := (index + 1) % capacity;
      }
      ProbeMisses(s, hash, cmp, key, capacity);
      AbsentLookup(s, cmp, Contents, key);
      return None;
    }

    method Remove(key: K, hash: K -> nat, cmp: (K, K) -> bool) returns (removed: bool)
      requires Lawful(hash, cmp) && Valid(hash, cmp)
      modifies this, entries
      ensures Valid(hash, cmp) && entries == old(entries)
      ensures removed == Lookup(old(Contents), cmp, key).Some?
      ensures Contents == RemoveFrom(old(Contents), cmp, key)
      ensures size + tombstones == old(size + tombstones)
    {
      ghost var s := entries[..];
      var capacity := entries.Length;
      var index := hash(key) % capacity;
      ghost var home := Home(hash, key, capacity);
      for i := 0 to capacity
        invariant entries == old(entries) && entries[..] == s && Valid(hash, cmp) && unchanged(this)
        invariant index == At(home, i, capacity) && Probed(s, hash, cmp, key, i)
      {
        var k := entries[index];
        if k.Empty? {
          ProbeMisses(s, hash, cmp, key, i);
          AbsentLookup(s, cmp, Contents, key);
          return false;
        } else if k.Live? && cmp(k.key, key) {
          RepresentsUpdate(s, hash, cmp, Contents, index, key, k.value);
          RepresentsRemove(s, hash, cmp, Contents, index, key);
          ReplaceKeeps(s, hash, cmp, index, Tombstone);
          CountUpdate(s, index, Tombstone);
          CountPositive(s, index);
          entries[index] := Tombstone;
          size := size - 1;
          tombstones := tombstones + 1;
          Contents := RemoveFrom(Contents, cmp, key);
          assert entries[..] == s[index := Tombstone];
          return true;
        }
        NextIndex(home, i, capacity);
        index := (index + 1) % capacity;
      }
      ProbeMisses(s, hash, cmp, key, capacity);
      AbsentLookup(s, cmp, Contents, key);
      return false;
    }
  }

  lemma CountPositive<K, V>(s: seq<Slot<K, V>>, i: nat)
    requires i < |s|
    ensures s[i].Live? ==> Lives(s) > 0
    ensures s[i].Tombstone? ==> Tombs(s) > 0
  {
    CountUpdate(s, i, Empty);
  }

  // ---------- Rehashing ----------

  /** The live slots of `s`, as a map. */
  ghost function Model<K, V>(s: seq<Slot<K, V>>): map<K, V>
  {
    if s == [] then map[]
    else
      var m, last := Model(s[..|s| - 1]), s[|s| - 1];
      if last.Live? then m[last.key := last.value] else m
  }

  lemma {:induction false} ModelKey<K, V>(s: seq<Slot<K, V>>, k: K) returns (i: nat)
    requires k in Model(s)
    ensures i < |s| && s[i].Live? && s[i].key == k
    decreases |s|
  {
    var n := |s| - 1;
    if s[n].Live? && s[n].key == k {
      i := n;
    } else {
      i := ModelKey(s[..n], k);
    }
  }

  lemma {:induction false} ModelValue<K, V>(s: seq<Slot<K, V>>, i: nat)
    requires i < |s| && s[i].Live?
    requires forall j :: i < j < |s| && s[j].Live? ==> s[j].key != s[i].key
    ensures s[i].key in Model(s) && Model(s)[s[i].key] == s[i].value
    decreases |s|
  {
    var n := |s| - 1;
    if i < n {
      ModelValue(s[..n], i);
    }
  }

  lemma ModelIs<K(!new), V>(s: seq<Slot<K, V>>, hash: K -> nat, cmp: (K, K) -> bool, m: map<K, V>)
    requires Lawful(hash, cmp) && Sound(s, hash, cmp) && Represents(s, m)
    ensures Model(s) == m
  {
    forall k | k in Model(s)
      ensures k in m && m[k] == Model(s)[k]
    {
      var i := ModelKey(s, k);
      ModelValue(s, i);
    }
    forall k | k in m
      ensures k in Model(s)
    {
      var i :| 0 <= i < |s| && s[i].Live? && s[i].key == k;
      ModelValue(s, i);
    }
  }

  /** A key not yet copied is absent from the copy. */
  lemma AbsentFromCopy<K(!new), V>(s: seq<Slot<K, V>>, hash: K -> nat, cmp: (K, K) -> bool, i: nat, t: seq<Slot<K, V>>)
    requires Sound(s, hash, cmp) && i < |s| && s[i].Live? && Represents(t, Model(s[..i]))
    ensures Absent(t, cmp, s[i].key)
  {
    forall x | 0 <= x < |t| && t[x].Live?
      ensures !cmp(t[x].key, s[i].key)
    {
      var j := ModelKey(s[..i], t[x].key);
      assert s[j] == s[..i][j];
    }
  }

  lemma ModelStep<K, V>(s: seq<Slot<K, V>>, i: nat)
    requires i < |s|
    ensures Model(s[..i + 1]) == if s[i].Live? then Model(s[..i])[s[i].key := s[i].value] else Model(s[..i])
    ensures Lives(s[..i + 1]) == Lives(s[..i]) + (if s[i].Live? then 1 else 0)
  {
    assert s[..i + 1][..i] == s[..i];
  }
}
