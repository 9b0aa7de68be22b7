// FlatMap<Key, Value> of the shared library (src/shared/flatmap.hpp): an
// association list kept in a vector of (key, value) pairs, searched front to
// back. `operator[]` is the only way to insert, and it appends.
module FlatMapModel {

  /** Position of the first entry whose key is k, or |s| when there is none. */
  function FirstIndex<K(==), V>(s: seq<(K, V)>, k: K): (i: nat)
    ensures i <= |s|
    ensures i < |s| ==> s[i].0 == k
    ensures forall j :: 0 <= j < i ==> s[j].0 != k
  {
    if s == [] then 0
    else if s[0].0 == k then 0
    else 1 + FirstIndex(s[1..], k)
  }

  /** The keys of the entries, in vector order. */
  function Keys<K, V>(s: seq<(K, V)>): (ks: seq<K>)
    ensures |ks| == |s|
    ensures forall j :: 0 <= j < |s| ==> ks[j] == s[j].0
  {
    if s == [] then [] else [s[0].0] + Keys(s[1..])
  }

  /** No key occurs twice. */
  predicate UniqueKeys<K(==), V>(s: seq<(K, V)>)
  {
    forall i, j :: 0 <= i < j < |s| ==> s[i].0 != s[j].0
  }

  /** With unique keys, the first match is the only match. */
  lemma FirstIndexIsOnlyIndex<K, V>(s: seq<(K, V)>, k: K, j: nat)
    requires UniqueKeys(s)
    requires j < |s| && s[j].0 == k
    ensures FirstIndex(s, k) == j
  {
  }

  /** Removing the entry at i keeps the keys unique. */
  lemma RemoveAtKeepsUnique<K, V>(s: seq<(K, V)>, i: nat)
    requires UniqueKeys(s) && i < |s|
    ensures UniqueKeys(s[..i] + s[i + 1..])
  {
    var t := s[..i] + s[i + 1..];
    forall a, b | 0 <= a < b < |t|
      ensures t[a].0 != t[b].0
    {
      var a' := if a < i then a else a + 1;
      var b' := if b < i then b else b + 1;
      assert t[a] == s[a'] && t[b] == s[b'];
    }
  }

  /** Appending an absent key keeps the keys unique. */
  lemma AppendAbsentKeepsUnique<K, V>(s: seq<(K, V)>, k: K, v: V)
    requires UniqueKeys(s) && FirstIndex(s, k) == |s|
    ensures UniqueKeys(s + [(k, v)])
  {
  }

  class FlatMap<K(==), V> {
    /** m_data */
    var entries: seq<(K, V)>
    /** What `Value()` / `Value{}` constructs. */
    const defaultValue: V

    constructor (defaultValue: V)
      ensures entries == [] && this.defaultValue == defaultValue
    {
      this.entries := [];
      this.defaultValue := defaultValue;
    }

    function Size(): (n: int)
      reads this
      ensures n == |entries|
      ensures n == 0 <==> entries == []
    {
      |entries|
    }

    function IsEmpty(): (b: bool)
      reads this
      ensures b <==> Size() == 0
    {
      entries == []
    }

    method Clear()
      modifies this
      ensures entries == []
    {
      entries := [];
    }

    /** cfind / find: linear scan for the first entry with the key. */
    method Find(key: K) returns (i: nat)
      ensures i == FirstIndex(entries, key)
    {
      i := 0;
      while i < |entries|
        invariant i <= |entries|
        invariant forall j :: 0 <= j < i ==> entries[j].0 != key
      {
        if entries[i].0 == key {
          break;
        }
        i := i + 1;
      }
      FirstIsUnique(entries, key, i);
    }

    /** value(key): the stored value, or a default-constructed one; never mutates. */
    method Value(key: K) returns (v: V)
      ensures FirstIndex(entries, key) < |entries| ==> v == entries[FirstIndex(entries, key)].1
      ensures FirstIndex(entries, key) == |entries| ==> v == defaultValue
    {
      var i := Find(key);
      v := if i < |entries| then entries[i].1 else defaultValue;
    }

    /** value(key, d): the stored value, or d; never mutates. */
    method ValueOr(key: K, d: V) returns (v: V)
      ensures FirstIndex(entries, key) < |entries| ==> v == entries[FirstIndex(entries, key)].1
      ensures FirstIndex(entries, key) == |entries| ==> v == d
    {
      var i := Find(key);
      v := if i < |entries| then entries[i].1 else d;
    }

    /** remove(key): erases the first entry with the key and returns 1, or returns 0 and changes nothing. */
    method Remove(key: K) returns (n: int)
      modifies this
      ensures var i := FirstIndex(old(entries), key);
        if i < |old(entries)| then n == 1 && entries == old(entries)[..i] + old(entries)[i + 1..]
        else n == 0 && entries == old(entries)
    {
      n := 0;
      if !IsEmpty() {
        var i := Find(key);
        if i < |entries| {
          entries := entries[..i] + entries[i + 1..];
          n := 1;
        }
      }
    }

    /** take(key): hands out and erases the stored value, or returns `Value{}` with no change. */
    method Take(key: K) returns (v: V)
      modifies this
      ensures var i := FirstIndex(old(entries), key);
        if i < |old(entries)| then v == old(entries)[i].1 && entries == old(entries)[..i] + old(entries)[i + 1..]
        else v == defaultValue && entries == old(entries)
    {
      var i := Find(key);
      v := defaultValue;
      if i < |entries| {
        v := entries[i].1;
        entries := entries[..i] + entries[i + 1..];
      }
    }

    /**
     * operator[]: the index of the key's slot. An absent key is appended with a
     * default value at the end; a present key leaves the entries as they are.
     */
    method Slot(key: K) returns (i: nat)
      modifies this
      ensures i < |entries| && entries[i].0 == key
      ensures FirstIndex(old(entries), key) < |old(entries)| ==>
        entries == old(entries) && i == FirstIndex(old(entries), key)
      ensures FirstIndex(old(entries), key) == |old(entries)| ==>
        entries == old(entries) + [(key, defaultValue)] && i == |old(entries)|
    {
      i := Find(key);
      if i == |entries| {
        entries := entries + [(key, defaultValue)];
      }
    }

    /** `map[key] = v`: write through the slot operator[] returns. */
    method Assign(key: K, v: V)
      modifies this
      ensures UniqueKeys(old(entries)) ==> UniqueKeys(entries)
      ensures FirstIndex(entries, key) < |entries| && entries[FirstIndex(entries, key)] == (key, v)
      ensures |entries| == |old(entries)| + (if FirstIndex(old(entries), key) < |old(entries)| then 0 else 1)
      ensures FirstIndex(old(entries), key) < |old(entries)| ==>
        entries == old(entries)[FirstIndex(old(entries), key) := (key, v)]
      ensures FirstIndex(old(entries), key) == |old(entries)| ==> entries == old(entries) + [(key, v)]
    {
      var i := Slot(key);
      ghost var mid := entries;
      if FirstIndex(old(entries), key) == |old(entries)| && UniqueKeys(old(entries)) {
        AppendAbsentKeepsUnique(old(entries), key, defaultValue);
      }
      entries := entries[i := (key, v)];
      if i == |old(entries)| {
        assert entries == old(entries) + [(key, v)];
      }
      assert Keys(entries) == Keys(mid);
      FirstIndexSameKeys(mid, entries, key);
    }
  }

  /** The index a scan stops at is the first match. */
  lemma FirstIsUnique<K, V>(s: seq<(K, V)>, k: K, i: nat)
    requires i <= |s|
    requires i < |s| ==> s[i].0 == k
    requires forall j :: 0 <= j < i ==> s[j].0 != k
    ensures i == FirstIndex(s, k)
  {
  }

  /** FirstIndex depends on the keys only. */
  lemma FirstIndexSameKeys<K, V>(s: seq<(K, V)>, t: seq<(K, V)>, k: K)
    requires Keys(s) == Keys(t)
    ensures FirstIndex(s, k) == FirstIndex(t, k)
  {
    var f := FirstIndex(s, k);
    assert |s| == |Keys(s)| == |Keys(t)| == |t|;
    forall j | 0 <= j < |s| ensures s[j].0 == t[j].0 {
      assert Keys(s)[j] == s[j].0 && Keys(t)[j] == t[j].0;
    }
    FirstIsUnique(t, k, f);
  }
}
