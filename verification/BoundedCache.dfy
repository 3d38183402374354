/** The bounded cache as its code has it: fields updated in place, and a loop that evicts. */
module BoundedCache {
  import opened Prelude
  import opened CacheModel
  import opened CacheRuns

  class BoundedCache<K(==), V(0)> {
    const choose: Chooser<K, V>
    var items: seq<Entry<K, V>>
    var maxBytes: Option<int>
    var maxEntries: Option<int>
    var bytesUsed: int
    var hits: nat
    var misses: nat
    var evictions: nat
    var revision: nat
    /** The calls made to the eviction hook, in order. */
    var hookCalls: seq<Entry<K, V>>

    ghost function Contents(): Cache<K, V>
      reads this
    {
      Cache(items, bytesUsed, hits, misses, evictions, revision, Budgets(maxBytes, maxEntries))
    }

    ghost predicate Valid()
      reads this
    {
      Good(Contents())
    }

    constructor (maxBytes: Option<int>, maxEntries: Option<int>, choose: Chooser<K, V>)
      ensures Valid() && Contents() == Empty(Budgets(maxBytes, maxEntries))
      ensures this.choose == choose && hookCalls == []
    {
      this.choose, this.maxBytes, this.maxEntries := choose, maxBytes, maxEntries;
      items, bytesUsed, hits, misses, evictions, revision, hookCalls := [], 0, 0, 0, 0, 0, [];
    }

    method EvictOverBudget()
      requires Distinct(items) && bytesUsed == Total(items)
      modifies this
      ensures Contents() == Evict(old(Contents()), choose) && Valid()
      ensures hookCalls == old(hookCalls) + Evicted(old(items), choose, old(Contents()).budgets)
    {
      ghost var before := Contents();
      ghost var b := before.budgets;
      ghost var out := [];
      EvictKeeps(before, choose);
      while items != [] && Over(items, bytesUsed, Budgets(maxBytes, maxEntries))
        invariant bytesUsed == Total(items) && hits == before.hits && misses == before.misses
        invariant evictions == before.evictions + |out| && revision == before.revision + |out|
        invariant Budgets(maxBytes, maxEntries) == b
        invariant PartWay(before.items, choose, b, items, out)
        invariant hookCalls == old(hookCalls) + out
        decreases |items|
      {
        PartWayOn(before.items, choose, b, items, out);
        var i := Chosen(items, choose);
        var e := items[i];
        items := RemoveAt(items, i);
        bytesUsed := bytesUsed - e.bytes;
        evictions := evictions + 1;
        revision := revision + 1;
        hookCalls := hookCalls + [e];
        out := out + [e];
      }
      PartWayDone(before.items, choose, b, items, out);
    }

    method Put(key: K, value: V, size: int)
      requires Valid()
      modifies this
      ensures Contents() == Apply(old(Contents()), choose, CacheRuns.Put(key, value, size)) && Valid()
      ensures hookCalls == old(hookCalls)
                           + Evicted(Inserted(old(items), key, value, size), choose, old(Contents()).budgets)
    {
      var bytes := Max(0, size);
      var i := Find(items, key);
      PutKeeps(Contents(), choose, key, value, size);
      DistinctAfterMove(items, key, Entry(key, value, bytes));
      TotalOfAppend(Dropped(items, key), [Entry(key, value, bytes)]);
      if i < |items| {
        bytesUsed := bytesUsed - items[i].bytes;
        items := RemoveAt(items, i);
      }
      items := items + [Entry(key, value, bytes)];
      bytesUsed := bytesUsed + bytes;
      revision := revision + 1;
      EvictOverBudget();
    }

    method Get(key: K, touch: bool, count: bool) returns (value: Option<V>)
      requires Valid()
      modifies this
      ensures Contents() == Apply(old(Contents()), choose, CacheRuns.Get(key, touch, count)) && Valid()
      ensures hookCalls == old(hookCalls)
      ensures value.Some? <==> Holds(old(items), key)
      ensures value.Some? ==>
                exists i :: 0 <= i < |old(items)| && old(items)[i].key == key && old(items)[i].value == value.value
    {
      ApplyKeeps(Contents(), choose, CacheRuns.Get(key, touch, count));
      var i := Find(items, key);
      if i == |items| {
        if count { misses := misses + 1; }
        return None;
      }
      value := Some(items[i].value);
      if touch { items := RemoveAt(items, i) + [items[i]]; }
      if count { hits := hits + 1; }
    }

    method Peek(key: K) returns (value: Option<V>)
      requires Valid()
      modifies this
      ensures Contents() == old(Contents()) && hookCalls == old(hookCalls)
      ensures value.Some? <==> Holds(old(items), key)
    {
      value := Get(key, false, false);
    }

    method Discard(key: K) returns (value: Option<V>)
      requires Valid()
      modifies this
      ensures Contents() == Apply(old(Contents()), choose, CacheRuns.Discard(key)) && Valid()
      ensures hookCalls == old(hookCalls) && (value.Some? <==> Holds(old(items), key)) && !Holds(items, key)
    {
      ApplyKeeps(Contents(), choose, CacheRuns.Discard(key));
      var i := Find(items, key);
      if i == |items| { return None; }
      value := Some(items[i].value);
      bytesUsed := bytesUsed - items[i].bytes;
      items := RemoveAt(items, i);
      revision := revision + 1;
    }

    method Resize(maxBytes: Option<int>, maxEntries: Option<int>)
      requires Valid()
      modifies this
      ensures Contents() == Apply(old(Contents()), choose, CacheRuns.Resize(maxBytes, maxEntries)) && Valid()
      ensures hookCalls == old(hookCalls) + Evicted(old(items), choose, Contents().budgets)
    {
      if maxBytes.Some? { this.maxBytes := maxBytes; }
      if maxEntries.Some? { this.maxEntries := maxEntries; }
      EvictOverBudget();
    }

    method Clear()
      requires Valid()
      modifies this
      ensures Contents() == Apply(old(Contents()), choose, CacheRuns.Clear) && Valid() && hookCalls == old(hookCalls)
    {
      items, bytesUsed, revision := [], 0, revision + 1;
    }

    method NoteMiss()
      modifies `misses
      ensures Contents() == Apply(old(Contents()), choose, CacheRuns.NoteMiss)
    {
      misses := misses + 1;
    }

    method ClearCounters()
      modifies `hits, `misses, `evictions
      ensures Contents() == Apply(old(Contents()), choose, CacheRuns.ClearCounters)
    {
      hits, misses, evictions := 0, 0, 0;
    }

    /** Whether an entry of this size can be held: if not, putting it leaves its key unheld; if so, and without
        a retention key or an entry budget below one, putting it leaves its key held. */
    method WouldFit(size: int) returns (fits: bool)
      requires Valid()
      ensures !fits ==>
                forall key, value :: !Holds(Apply(Contents(), choose, CacheRuns.Put(key, value, size)).items, key)
      ensures fits && size >= 0 && choose == Oldest<K, V>() && (maxEntries.None? || maxEntries.value >= 1) ==>
                forall key, value :: Holds(Apply(Contents(), choose, CacheRuns.Put(key, value, size)).items, key)
    {
      fits := maxBytes.None? || size <= maxBytes.value;
      ghost var c := Contents();
      if !fits {
        forall key, value ensures !Holds(Apply(c, choose, CacheRuns.Put(key, value, size)).items, key) {
          UnfitIsNotHeld(c, choose, key, value, size);
        }
      } else if size >= 0 && choose == Oldest<K, V>() && (maxEntries.None? || maxEntries.value >= 1) {
        forall key, value ensures Holds(Apply(c, choose, CacheRuns.Put(key, value, size)).items, key) {
          FittingIsHeld(c, choose, key, value, size);
        }
      }
    }
  }
}
