/**
 * The `mutableMapOf<Int, String>()` that collects one emotion per face. Kotlin
 * backs it with a `LinkedHashMap`: entries keep the order in which their keys
 * were first inserted, and putting an existing key replaces its value in place.
 */
module LinkedHashMap {

  datatype Option<T> = None | Some(value: T)

  /** The keys of an entry list. */
  function Keys<K(==), V>(entries: seq<(K, V)>): set<K> {
    set i | 0 <= i < |entries| :: entries[i].0
  }

  ghost predicate DistinctKeys<K, V>(entries: seq<(K, V)>) {
    forall i, j :: 0 <= i < j < |entries| ==> entries[i].0 != entries[j].0
  }

  lemma KeysCons<K, V>(entries: seq<(K, V)>)
    requires entries != []
    ensures Keys(entries) == {entries[0].0} + Keys(entries[1..])
  {
    var tail := entries[1..];
    forall k | k in Keys(entries)
      ensures k in {entries[0].0} + Keys(tail)
    {
      var i :| 0 <= i < |entries| && entries[i].0 == k;
      if i > 0 {
        assert tail[i - 1].0 == k;
      }
    }
    forall k | k in Keys(tail)
      ensures k in Keys(entries)
    {
      var i :| 0 <= i < |tail| && tail[i].0 == k;
      assert entries[i + 1].0 == k;
    }
  }

  /** `map[key]`: the value of the first entry with that key. */
  function Get<K(==), V>(entries: seq<(K, V)>, key: K): (r: Option<V>)
    ensures r.Some? <==> key in Keys(entries)
  {
    if entries == [] then None
    else
      KeysCons(entries);
      if entries[0].0 == key then Some(entries[0].1) else Get(entries[1..], key)
  }

  /** In a map with distinct keys, the entry at position `i` is what `Get` finds for its key. */
  lemma {:induction false} GetAt<K, V>(entries: seq<(K, V)>, i: int)
    requires DistinctKeys(entries) && 0 <= i < |entries|
    ensures Get(entries, entries[i].0) == Some(entries[i].1)
  {
    if i > 0 {
      var tail := entries[1..];
      assert tail[i - 1] == entries[i];
      GetAt(tail, i - 1);
    }
  }

  /**
   * `map[key] = value` on a `LinkedHashMap`: an existing key keeps its position
   * and takes the new value; a new key is appended at the end.
   */
  function PutEntry<K(==), V>(entries: seq<(K, V)>, key: K, value: V): (r: seq<(K, V)>)
    ensures Keys(r) == Keys(entries) + {key}
    ensures key !in Keys(entries) ==> r == entries + [(key, value)]
    ensures key in Keys(entries) ==> |r| == |entries|
  {
    if entries == [] then
      var r := [(key, value)];
      assert r[0].0 == key;
      r
    else
      KeysCons(entries);
      var r := if entries[0].0 == key then [(key, value)] + entries[1..]
               else [entries[0]] + PutEntry(entries[1..], key, value);
      KeysCons(r);
      assert r[1..] == if entries[0].0 == key then entries[1..] else PutEntry(entries[1..], key, value);
      r
  }

  /** After a put the key maps to the new value and every other key keeps its value. */
  lemma {:induction false} PutEntryGet<K, V>(entries: seq<(K, V)>, key: K, value: V, other: K)
    ensures Get(PutEntry(entries, key, value), key) == Some(value)
    ensures other != key ==> Get(PutEntry(entries, key, value), other) == Get(entries, other)
  {
    if entries != [] && entries[0].0 != key {
      PutEntryGet(entries[1..], key, value, other);
    }
  }

  /**
   * Putting a key that is already present replaces the value of its first
   * entry where it stands; every other entry, and the order, stay as they were.
   */
  lemma {:induction false} PutEntryInPlace<K, V>(entries: seq<(K, V)>, key: K, value: V, j: int)
    requires 0 <= j < |entries| && entries[j].0 == key
    requires forall i :: 0 <= i < j ==> entries[i].0 != key
    ensures PutEntry(entries, key, value) == entries[j := (key, value)]
  {
    if j > 0 {
      var tail := entries[1..];
      assert tail[j - 1] == entries[j];
      assert forall i :: 0 <= i < j - 1 ==> tail[i] == entries[i + 1];
      PutEntryInPlace(tail, key, value, j - 1);
      assert entries[j := (key, value)] == [entries[0]] + tail[j - 1 := (key, value)];
    }
  }

  /** A put keeps the keys of a map distinct. */
  lemma {:induction false} PutEntryDistinct<K, V>(entries: seq<(K, V)>, key: K, value: V)
    requires DistinctKeys(entries)
    ensures DistinctKeys(PutEntry(entries, key, value))
  {
    if entries != [] {
      KeysCons(entries);
      var r := PutEntry(entries, key, value);
      if entries[0].0 == key {
        assert r == [(key, value)] + entries[1..];
      } else {
        PutEntryDistinct(entries[1..], key, value);
        var rest := PutEntry(entries[1..], key, value);
        assert r == [entries[0]] + rest;
        forall j | 0 <= j < |rest|
          ensures rest[j].0 != entries[0].0
        {
          assert rest[j].0 in Keys(rest);
        }
      }
    }
  }

  /** A `LinkedHashMap` object; `entries` lists its contents in iteration order. */
  class LinkedMap<K(==), V> {
    var entries: seq<(K, V)>

    ghost predicate Valid()
      reads this
    {
      DistinctKeys(entries)
    }

    /** `mutableMapOf()`: an empty map. */
    constructor ()
      ensures Valid() && entries == []
    {
      entries := [];
    }

    /** `this[key] = value`. */
    method Put(key: K, value: V)
      requires Valid()
      modifies this
      ensures Valid()
      ensures entries == PutEntry(old(entries), key, value)
    {
      PutEntryDistinct(entries, key, value);
      entries := PutEntry(entries, key, value);
    }
  }
}
