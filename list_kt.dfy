/**
 * Null-tolerant updates and lookups on mutable collections (ListKt.kt):
 * filtered appends to an `ArrayList`, a bounds-safe get, and null-key-safe
 * get and remove on a `ConcurrentHashMap`.
 */
module ListKt {
  import opened Wrappers
  import opened Primitives

  /** A `java.util.ArrayList`, updated in place. */
  class ArrayList<T> {
    var elems: seq<T>

    constructor (initial: seq<T>)
      ensures elems == initial
    {
      elems := initial;
    }

    /** `add(value)`: append at the end. */
    method Add(value: T)
      modifies this
      ensures elems == old(elems) + [value]
    {
      elems := elems + [value];
    }
  }

  /**
   * `ArrayList<String>.addNoEmpty(value)`: a null or empty value is ignored,
   * any other value is appended.
   */
  method AddNoEmpty(list: ArrayList<string>, value: Option<string>)
    modifies list
    ensures value.None? || value.value == "" ==> list.elems == old(list.elems)
    ensures value.Some? && value.value != "" ==> list.elems == old(list.elems) + [value.value]
  {
    if value.None? || value.value == "" {
      return;
    }
    list.Add(value.value);
  }

  /** `ArrayList<T>.addNoNull(value)`: a null value is ignored, any other value is appended. */
  method AddNoNull<T>(list: ArrayList<T>, value: Option<T>)
    modifies list
    ensures value.None? ==> list.elems == old(list.elems)
    ensures value.Some? ==> list.elems == old(list.elems) + [value.value]
  {
    if value.None? {
      return;
    }
    list.Add(value.value);
  }

  /**
   * `ArrayList<String>?.getOrEmpty(index)`: the element at `index`, or the
   * empty string for a null list or an index outside the list (negative ones
   * included).
   */
  function GetOrEmpty(list: ArrayList?<string>, index: Int32): (s: string)
    reads list
    ensures list != null && 0 <= index < |list.elems| ==> s == list.elems[index]
    ensures list == null || index < 0 || index >= |list.elems| ==> s == ""
  {
    if list != null && 0 <= index < |list.elems| then list.elems[index] else ""
  }

  /**
   * A value `addNoEmpty` appended is what `getOrEmpty` finds at the old size,
   * and the earlier elements are still where they were.
   */
  method AddNoEmptyThenGet(list: ArrayList<string>, value: string) returns (got: string)
    requires |list.elems| < 0x7FFF_FFFF
    modifies list
    ensures value != "" ==> got == value
    ensures value == "" ==> got == ""
    ensures forall i :: 0 <= i < |old(list.elems)| ==> GetOrEmpty(list, i) == old(list.elems)[i]
  {
    var size := |list.elems|;
    AddNoEmpty(list, Some(value));
    got := GetOrEmpty(list, size);
  }

  /** A `java.util.concurrent.ConcurrentHashMap` with `String` keys, updated in place. */
  class ConcurrentHashMap<V> {
    var entries: map<string, V>

    constructor (initial: map<string, V>)
      ensures entries == initial
    {
      entries := initial;
    }

    /** `remove(key)`: drop the key and return the value it had, if any. */
    method Remove(key: string) returns (previous: Option<V>)
      modifies this
      ensures previous == (if key in old(entries) then Some(old(entries)[key]) else None)
      ensures entries == old(entries) - {key}
    {
      previous := if key in entries then Some(entries[key]) else None;
      entries := entries - {key};
    }
  }

  /** `ConcurrentHashMap<String, T>.safeGet(key)`: null for a null key, otherwise the ordinary lookup. */
  function SafeGet<V>(m: ConcurrentHashMap<V>, key: Option<string>): (r: Option<V>)
    reads m
    ensures key.None? ==> r.None?
    ensures key.Some? ==> (r.Some? <==> key.value in m.entries)
    ensures r.Some? ==> key.Some? && key.value in m.entries && m.entries[key.value] == r.value
  {
    if key.None? || key.value !in m.entries then None else Some(m.entries[key.value])
  }

  /**
   * `ConcurrentHashMap<String, T>.safeRemove(key)`: a null key changes
   * nothing and gives null; otherwise the key is removed, every other key
   * keeps its value, and the removed value (or null) is returned.
   */
  method SafeRemove<V>(m: ConcurrentHashMap<V>, key: Option<string>) returns (r: Option<V>)
    modifies m
    ensures key.None? ==> r.None? && m.entries == old(m.entries)
    ensures key.Some? ==> m.entries == old(m.entries) - {key.value}
    ensures key.Some? ==> r == (if key.value in old(m.entries) then Some(old(m.entries)[key.value]) else None)
  {
    if key.None? {
      return None;
    }
    r := m.Remove(key.value);
  }

  /** After `safeRemove(key)`, `safeGet(key)` finds nothing, and other keys read as before. */
  method SafeRemoveThenGet<V>(m: ConcurrentHashMap<V>, key: string, other: string) returns (after: Option<V>, otherAfter: Option<V>)
    requires other != key
    modifies m
    ensures after.None?
    ensures otherAfter == old(SafeGet(m, Some(other)))
  {
    var _ := SafeRemove(m, Some(key));
    after := SafeGet(m, Some(key));
    otherAfter := SafeGet(m, Some(other));
  }
}
