/**
 * The dense interner: a hash map from keys to records, and the records in the
 * order of their creation.  A record is an object; handing out the same record
 * twice means handing out the same pointer.
 */
module Interners {
  import opened Options
  import opened HashMaps

  class InternResult<K(!new), M> {
    const key: K
    const meta: M
    const denseIndex: nat

    constructor (key: K, meta: M, denseIndex: nat)
      ensures this.key == key && this.meta == meta && this.denseIndex == denseIndex
    {
      this.key, this.meta, this.denseIndex := key, meta, denseIndex;
    }
  }

  /** The keys of some records, which never change. */
  ghost function KeysOf<K(!new), M>(records: seq<InternResult<K, M>>): (keys: seq<K>)
    ensures |keys| == |records| && forall i :: 0 <= i < |keys| ==> keys[i] == records[i].key
  {
    if records == [] then []
    else var last := |records| - 1; KeysOf(records[..last]) + [records[last].key]
  }

  /** Position of the key equal to `key` in a list of keys, or the end of the list. */
  function IndexOf<K>(keys: seq<K>, cmp: (K, K) -> bool, key: K): (i: nat)
    ensures i <= |keys|
    ensures i < |keys| ==> cmp(keys[i], key)
    ensures forall j :: 0 <= j < i ==> !cmp(keys[j], key)
  {
    if keys == [] then 0
    else if cmp(keys[0], key) then 0
    else 1 + IndexOf(keys[1..], cmp, key)
  }

  ghost predicate AllDiffer<K>(keys: seq<K>, cmp: (K, K) -> bool)
  {
    forall i, j :: 0 <= i < j < |keys| ==> !cmp(keys[i], keys[j])
  }

  /** Whatever is interned later, a key that has an index keeps it. */
  lemma {:induction false} IndexIsStable<K(!new)>(keys: seq<K>, more: seq<K>, cmp: (K, K) -> bool, key: K)
    requires IndexOf(keys, cmp, key) < |keys|
    ensures IndexOf(keys + more, cmp, key) == IndexOf(keys, cmp, key)
    decreases |keys|
  {
    assert (keys + more)[0] == keys[0] && (keys + more)[1..] == keys[1..] + more;
    if !cmp(keys[0], key) {
      IndexIsStable(keys[1..], more, cmp, key);
    }
  }

  /** Two keys have the same index if and only if they are equal, once one of them is interned. */
  lemma SameIndexIffEqual<K(!new)>(keys: seq<K>, hash: K -> nat, cmp: (K, K) -> bool, a: K, b: K)
    requires Lawful(hash, cmp) && AllDiffer(keys, cmp) && IndexOf(keys, cmp, a) < |keys|
    ensures IndexOf(keys, cmp, a) == IndexOf(keys, cmp, b) <==> cmp(a, b)
  {
    var i, j := IndexOf(keys, cmp, a), IndexOf(keys, cmp, b);
    if cmp(a, b) {
      assert cmp(keys[i], b);
      assert j < |keys| && cmp(keys[j], keys[i]);
    }
  }

  class DenseInterner<K(!new), M> {
    const table: HashMap<K, InternResult<K, M>>
    var dense: seq<InternResult<K, M>>
    var denseIndexCount: nat
    const hash: K -> nat
    const cmp: (K, K) -> bool
    const copy: K -> K       // the canonical copy of a key
    const empty: K -> bool   // the slices that are refused

    ghost function Keys(): (keys: seq<K>)
      reads this
      ensures |keys| == |dense|
    {
      KeysOf(dense)
    }

    ghost predicate Valid()
      reads this, table, table.entries
    {
      && Lawful(hash, cmp)
      && (forall k :: cmp(copy(k), k))
      && table.Valid(hash, cmp)
      && denseIndexCount == |dense|
      && (forall i :: 0 <= i < |dense| ==> dense[i].denseIndex == i)
      && AllDiffer(Keys(), cmp)
      && (forall i :: 0 <= i < |dense| ==> dense[i].key in table.Contents && table.Contents[dense[i].key] == dense[i])
      && (forall k :: k in table.Contents ==> table.Contents[k] in dense && table.Contents[k].key == k)
    }

    constructor (hash: K -> nat, cmp: (K, K) -> bool, copy: K -> K, empty: K -> bool, capacity: nat)
      requires Lawful(hash, cmp) && forall k :: cmp(copy(k), k)
      ensures Valid() && dense == [] && fresh(table) && fresh(table.entries)
      ensures this.hash == hash && this.cmp == cmp && this.copy == copy && this.empty == empty
    {
      table := new HashMap(capacity);
      dense, denseIndexCount := [], 0;
      this.hash, this.cmp, this.copy, this.empty := hash, cmp, copy, empty;
    }

    /** The record of an equal key, or of a fresh copy of this one. */
    method Intern(key: K, meta: M) returns (r: Option<InternResult<K, M>>)
      requires Valid()
      modifies this, table, table.entries
      ensures Valid() && (table.entries == old(table.entries) || fresh(table.entries))
      ensures r.None? == empty(key)
      ensures empty(key) ==> dense == old(dense)
      ensures !empty(key) ==>
        var i := IndexOf(old(Keys()), cmp, key);
        && dense == old(dense) + (if i < old(|dense|) then [] else [r.value])
        && r.value == dense[i]
        && (i == old(|dense|) ==> fresh(r.value) && r.value.key == copy(key) && r.value.meta == meta)
    {
      if empty(key) {
        return None;
      }
      FindInDense(key);
      var found := table.Get(key, hash, cmp);
      if found.Some? {
        return found;
      }
      var record := Append(key, meta);
      return Some(record);
    }

    /** A record for a key that has none yet, at the next dense index. */
    method Append(key: K, meta: M) returns (record: InternResult<K, M>)
      requires Valid() && Lookup(table.Contents, cmp, key).None?
      modifies this, table, table.entries
      ensures Valid() && (table.entries == old(table.entries) || fresh(table.entries))
      ensures dense == old(dense) + [record] && fresh(record) && record.key == copy(key) && record.meta == meta
    {
      ghost var keys := Keys();
      NoEqualKey(key);
      record := new InternResult(copy(key), meta, denseIndexCount);
      var _ := table.Put(record.key, record, hash, cmp);
      dense := dense + [record];
      denseIndexCount := denseIndexCount + 1;
      assert Keys() == keys + [record.key];
    }

    /** The record of an equal key, without inserting one. */
    method Peek(key: K) returns (r: Option<InternResult<K, M>>)
      requires Valid()
      ensures var i := IndexOf(Keys(), cmp, key);
              r == if empty(key) || i == |dense| then None else Some(dense[i])
    {
      if empty(key) {
        return None;
      }
      FindInDense(key);
      r := table.Get(key, hash, cmp);
    }

    method GetResult(index: int) returns (r: Option<InternResult<K, M>>)
      requires Valid()
      ensures r == if 0 <= index < |dense| then Some(dense[index]) else None
      ensures r.Some? ==> r.value.denseIndex == index
    {
      if index < 0 || index >= |dense| {
        return None;
      }
      return Some(dense[index]);
    }

    /** The table and the dense list agree on every key. */
    lemma FindInDense(key: K)
      requires Valid()
      ensures var i := IndexOf(Keys(), cmp, key);
              Lookup(table.Contents, cmp, key) == if i < |dense| then Some(dense[i]) else None
    {
      var i := IndexOf(Keys(), cmp, key);
      if k :| k in table.Contents && cmp(k, key) {
        var j :| 0 <= j < |dense| && dense[j] == table.Contents[k];
        assert Keys()[j] == k;
        assert i < |dense| ==> cmp(Keys()[i], Keys()[j]) && cmp(Keys()[j], Keys()[i]);
        assert i == j;
        forall k' | k' in table.Contents && cmp(k', key)
          ensures k' == k
        {
          var j' :| 0 <= j' < |dense| && dense[j'] == table.Contents[k'];
          assert Keys()[j'] == k' && cmp(k', k) && cmp(k, k');
          assert j' == j;
        }
      } else {
        assert forall j :: 0 <= j < |dense| ==> Keys()[j] in table.Contents;
      }
    }

    lemma NoEqualKey(key: K)
      requires Valid() && Lookup(table.Contents, cmp, key).None?
      ensures forall k :: k in table.Contents ==> !cmp(k, copy(key)) && !cmp(copy(key), k)
    {
      forall k | k in table.Contents
        ensures !cmp(k, copy(key)) && !cmp(copy(key), k)
      {
        assert cmp(copy(key), key);
        assert !cmp(k, key);
      }
    }
  }
}
