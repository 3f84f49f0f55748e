/** Bounds-checked access helpers of `SafetyUtils` (Safety.kt). */
module Safety {
  import opened Wrappers

  /** `getSafe(list, index)`: the element at `index`, or null when the index is out of range. */
  function GetSafe<T>(list: seq<T>, index: int): (r: Option<T>)
    ensures r.Some? <==> 0 <= index < |list|
    ensures r.Some? ==> r.value == list[index]
  {
    if 0 <= index < |list| then Some(list[index]) else None
  }

  /** `getSafe(map, key)`: the value stored under `key`, or null when the key is absent. */
  function GetSafeFromMap<K, V>(m: map<K, V>, key: K): (r: Option<V>)
    ensures r.Some? <==> key in m
    ensures r.Some? ==> r.value == m[key]
  {
    if key in m then Some(m[key]) else None
  }

  /** A Kotlin `MutableList`: a sequence that is changed in place. */
  class MutableList<T> {
    var items: seq<T>

    constructor (items: seq<T>)
      ensures this.items == items
    {
      this.items := items;
    }
  }

  /** `removeSafe(list, index)`: removes the element at `index` when it is in range. */
  method RemoveSafe<T>(list: MutableList<T>, index: int) returns (removed: bool)
    modifies list
    ensures removed <==> 0 <= index < |old(list.items)|
    ensures removed ==> list.items == old(list.items[..index] + list.items[index + 1..])
    ensures !removed ==> list.items == old(list.items)
  {
    if 0 <= index < |list.items| {
      list.items := list.items[..index] + list.items[index + 1..];
      removed := true;
    } else {
      removed := false;
    }
  }

  /** Removing an in-range element shortens the list by one and keeps the others in order. */
  lemma RemovedKeepsOrder<T>(s: seq<T>, index: int, k: int)
    requires 0 <= index < |s| && 0 <= k < |s| - 1
    ensures |s[..index] + s[index + 1..]| == |s| - 1
    ensures (s[..index] + s[index + 1..])[k] == if k < index then s[k] else s[k + 1]
  {
  }
}
