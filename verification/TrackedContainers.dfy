/** Containers that count their own mutations on a shared clock: every mutator counts, except where it can
    see at once that it changes nothing. */
module TrackedContainers {
  import opened Prelude
  import opened OrderedDict

  class MutationClock {
    var value: nat

    constructor (value: nat)
      ensures this.value == value
    {
      this.value := value;
    }
  }

  // ---------------------------------------------------------------- what is counted

  /** `d[k] = v` is counted unless the key already holds that very object. */
  predicate StoreCounts<K(==), V(==)>(d: Dict<K, V>, k: K, v: V) { !(k in d.at && d.at[k] == v) }

  /** `d.setdefault(k, v)` is counted if the key is missing; an ordered mapping then stores through its
      counted store and is counted again. */
  function DefaultCount<K(==), V>(d: Dict<K, V>, k: K, ordered: bool): nat {
    if k in d.at then 0 else if ordered then 2 else 1
  }

  /** What storing these entries, one after the other, leaves. */
  function Puts<K(!new), V>(d: Dict<K, V>, entries: seq<(K, V)>): Dict<K, V>
    decreases |entries|
  {
    if entries == [] then d else Puts(Put(d, entries[0].0, entries[0].1), entries[1..])
  }

  /** How many of those stores are counted, each judged by what the key holds when its turn comes. */
  function CountedStores<K(!new, ==), V(==)>(d: Dict<K, V>, entries: seq<(K, V)>): nat
    decreases |entries|
  {
    if entries == [] then 0
    else
      (if StoreCounts(d, entries[0].0, entries[0].1) then 1 else 0)
      + CountedStores(Put(d, entries[0].0, entries[0].1), entries[1..])
  }

  /** `d.update(entries)` is counted once; an ordered mapping then stores through its counted store. */
  function UpdateCount<K(!new, ==), V(==)>(d: Dict<K, V>, entries: seq<(K, V)>, ordered: bool): nat {
    1 + if ordered then CountedStores(d, entries) else 0
  }

  /** `s.add(v)` is counted if it adds, `s.discard(v)` if it removes. */
  predicate AddCounts<T(==)>(s: set<T>, v: T) { v !in s }

  predicate DiscardCounts<T(==)>(s: set<T>, v: T) { v in s }

  function Defaulted<K(!new), V>(d: Dict<K, V>, k: K, v: V): Dict<K, V> { if k in d.at then d else Put(d, k, v) }

  lemma {:induction false} WithoutAbsent<K>(s: seq<K>, k: K)
    requires k !in s
    ensures Without(s, k) == s
  {
    if s != [] { WithoutAbsent(s[1..], k); }
  }

  /** The operations that are not counted leave contents and order exactly as they were. */
  lemma UncountedChangesNothing<K(!new), V>(d: Dict<K, V>, k: K, v: V)
    requires Ordered(d)
    ensures !StoreCounts(d, k, v) ==> Put(d, k, v) == d
    ensures k !in d.at ==> Remove(d, k) == d
    ensures k in d.at ==> Defaulted(d, k, v) == d
    ensures d.order == [] ==> d == Empty()
  {
    if !StoreCounts(d, k, v) { assert d.at[k := v] == d.at; }
    if k !in d.at {
      WithoutAbsent(d.order, k);
      assert d.at - {k} == d.at;
    }
    if d.order == [] { assert forall q :: q in d.at ==> q in d.order; }
  }

  /** Those that are counted do change something, short of a store of a value that equals what it replaces. */
  lemma CountedChangesSomething<K(!new), V>(d: Dict<K, V>, k: K, v: V)
    requires Ordered(d)
    ensures StoreCounts(d, k, v) ==> Put(d, k, v) != d
    ensures k in d.at ==> Remove(d, k) != d
    ensures k !in d.at ==> Defaulted(d, k, v) != d
    ensures d.order != [] ==> d != Empty()
  {
    if StoreCounts(d, k, v) { assert k in Put(d, k, v).at && Put(d, k, v).at[k] == v; }
    if k in d.at { assert k !in Remove(d, k).at; }
    if k !in d.at { assert k in Defaulted(d, k, v).at; }
  }

  lemma OneStore<K(!new), V>(d: Dict<K, V>, entries: seq<(K, V)>, i: nat)
    requires i < |entries|
    ensures var (k, v) := entries[i];
            && Puts(d, entries[i..]) == Puts(Put(d, k, v), entries[i + 1..])
            && CountedStores(d, entries[i..])
               == (if StoreCounts(d, k, v) then 1 else 0) + CountedStores(Put(d, k, v), entries[i + 1..])
  {
    assert entries[i..][1..] == entries[i + 1..];
  }

  predicate Distinct<K(==), V>(entries: seq<(K, V)>) {
    forall i, j :: 0 <= i < j < |entries| ==> entries[i].0 != entries[j].0
  }

  lemma {:induction false} PutsLeaveOthers<K(!new), V>(d: Dict<K, V>, entries: seq<(K, V)>, k: K)
    requires forall i :: 0 <= i < |entries| ==> entries[i].0 != k
    ensures k in Puts(d, entries).at <==> k in d.at
    ensures k in d.at ==> Puts(d, entries).at[k] == d.at[k]
    decreases |entries|
  {
    if entries != [] { PutsLeaveOthers(Put(d, entries[0].0, entries[0].1), entries[1..], k); }
  }

  /** An update of distinct keys has a counted store exactly if it changes the mapping. */
  lemma {:induction false} UpdateStoresExactlyIf<K(!new), V>(d: Dict<K, V>, entries: seq<(K, V)>)
    requires Ordered(d) && Distinct(entries)
    ensures CountedStores(d, entries) == 0 <==> Puts(d, entries) == d
    decreases |entries|
  {
    if entries != [] {
      var (k, v) := entries[0];
      UncountedChangesNothing(d, k, v);
      PutsLeaveOthers(Put(d, k, v), entries[1..], k);
      if StoreCounts(d, k, v) {
        assert Puts(d, entries).at[k] == v;
      } else {
        UpdateStoresExactlyIf(d, entries[1..]);
      }
    }
  }

  // ---------------------------------------------------------------- mappings

  /** A dictionary, or an ordered one, whose seeding already goes through its counted store. */
  class TrackedDict<K(!new, ==), V(!new, ==)> {
    const ordered: bool
    var contents: Dict<K, V>
    var clock: MutationClock

    ghost predicate Valid()
      reads this
    {
      Ordered(contents)
    }

    constructor (clock: MutationClock, data: Dict<K, V>, ordered: bool)
      requires Ordered(data)
      modifies clock
      ensures Valid() && contents == data && this.clock == clock && this.ordered == ordered
      ensures clock.value == old(clock.value) + if ordered then |data.order| else 0
    {
      this.clock, this.ordered := clock, ordered;
      contents := data;
      new;
      if ordered { clock.value := clock.value + |data.order|; }
    }

    /** Any inherited mutator that does not store through the overriding store: counted, then exactly the
        plain one. */
    method Inherited<R>(inherited: Dict<K, V> -> (Dict<K, V>, R)) returns (r: R)
      modifies this`contents, clock
      ensures (contents, r) == inherited(old(contents)) && clock.value == old(clock.value) + 1
    {
      clock.value := clock.value + 1;
      var after := inherited(contents);
      contents, r := after.0, after.1;
    }

    /** `update` and `|=`, which on an ordered mapping store through the overriding store. */
    method Update(entries: seq<(K, V)>)
      requires Valid()
      modifies this`contents, clock
      ensures Valid() && contents == Puts(old(contents), entries)
      ensures clock.value == old(clock.value) + UpdateCount(old(contents), entries, ordered)
    {
      clock.value := clock.value + 1;
      for i := 0 to |entries|
        invariant Valid() && Puts(contents, entries[i..]) == Puts(old(contents), entries)
        invariant clock.value + UpdateCount(contents, entries[i..], ordered)
                  == old(clock.value) + 1 + UpdateCount(old(contents), entries, ordered)
      {
        OneStore(contents, entries, i);
        if ordered {
          SetItem(entries[i].0, entries[i].1);
        } else {
          contents := Put(contents, entries[i].0, entries[i].1);
        }
      }
    }

    method SetItem(k: K, v: V)
      requires Valid()
      modifies this`contents, clock
      ensures Valid() && contents == Put(old(contents), k, v)
      ensures clock.value == old(clock.value) + if StoreCounts(old(contents), k, v) then 1 else 0
      ensures contents == old(contents) <==> clock.value == old(clock.value)
    {
      UncountedChangesNothing(contents, k, v);
      CountedChangesSomething(contents, k, v);
      if !(k in contents.at && contents.at[k] == v) { clock.value := clock.value + 1; }
      contents := Put(contents, k, v);
    }

    /** Deleting a missing key fails, counted all the same. */
    method DelItem(k: K) returns (found: bool)
      requires Valid()
      modifies this`contents, clock
      ensures Valid() && contents == Remove(old(contents), k) && (found <==> k in old(contents).at)
      ensures clock.value == old(clock.value) + 1
    {
      clock.value := clock.value + 1;
      found := k in contents.at;
      contents := Remove(contents, k);
    }

    method Pop(k: K, default: Option<V>) returns (r: Option<V>)
      requires Valid()
      modifies this`contents, clock
      ensures Valid() && contents == Remove(old(contents), k)
      ensures r == if k in old(contents).at then Some(old(contents).at[k]) else default
      ensures clock.value == old(clock.value) + if k in old(contents).at then 1 else 0
      ensures contents == old(contents) <==> clock.value == old(clock.value)
    {
      if k in contents.at {
        CountedChangesSomething(contents, k, contents.at[k]);
        clock.value := clock.value + 1;
        r := Some(contents.at[k]);
      } else {
        WithoutAbsent(contents.order, k);
        assert contents.at - {k} == contents.at;
        r := default;
      }
      contents := Remove(contents, k);
    }

    method SetDefault(k: K, v: V) returns (r: V)
      requires Valid()
      modifies this`contents, clock
      ensures Valid() && contents == Defaulted(old(contents), k, v)
      ensures r == if k in old(contents).at then old(contents).at[k] else v
      ensures clock.value == old(clock.value) + DefaultCount(old(contents), k, ordered)
      ensures contents == old(contents) <==> clock.value == old(clock.value)
    {
      CountedChangesSomething(contents, k, v);
      if k !in contents.at {
        clock.value := clock.value + 1;
        if ordered {
          SetItem(k, v);
        } else {
          contents := Put(contents, k, v);
        }
      }
      r := contents.at[k];
    }

    method Clear()
      requires Valid()
      modifies this`contents, clock
      ensures Valid() && contents == Empty()
      ensures clock.value == old(clock.value) + if old(contents).order == [] then 0 else 1
      ensures contents == old(contents) <==> clock.value == old(clock.value)
    {
      if |contents.order| != 0 {
        clock.value := clock.value + 1;
      } else {
        assert forall q :: q in contents.at ==> q in contents.order;
        assert contents == Empty();
      }
      contents := Empty();
    }
  }

  // ---------------------------------------------------------------- sets and sequences

  class TrackedSet<T(!new, ==)> {
    var contents: set<T>
    var clock: MutationClock

    constructor (clock: MutationClock, data: set<T>)
      ensures contents == data && this.clock == clock
    {
      this.clock, contents := clock, data;
    }

    method Inherited<R>(inherited: set<T> -> (set<T>, R)) returns (r: R)
      modifies this`contents, clock
      ensures (contents, r) == inherited(old(contents)) && clock.value == old(clock.value) + 1
    {
      clock.value := clock.value + 1;
      var after := inherited(contents);
      contents, r := after.0, after.1;
    }

    method Add(v: T)
      modifies this`contents, clock
      ensures contents == old(contents) + {v}
      ensures clock.value == old(clock.value) + if AddCounts(old(contents), v) then 1 else 0
      ensures contents == old(contents) <==> clock.value == old(clock.value)
    {
      if v !in contents { clock.value := clock.value + 1; }
      contents := contents + {v};
    }

    method Discard(v: T)
      modifies this`contents, clock
      ensures contents == old(contents) - {v}
      ensures clock.value == old(clock.value) + if DiscardCounts(old(contents), v) then 1 else 0
      ensures contents == old(contents) <==> clock.value == old(clock.value)
    {
      if v in contents { clock.value := clock.value + 1; }
      contents := contents - {v};
    }

    method Clear()
      modifies this`contents, clock
      ensures contents == {}
      ensures contents == old(contents) <==> clock.value == old(clock.value)
    {
      if contents != {} { clock.value := clock.value + 1; }
      contents := {};
    }
  }

  /** A list or a deque; a deque's bound is not carried over. */
  class TrackedSeq<T(!new, ==)> {
    var contents: seq<T>
    var clock: MutationClock

    constructor (clock: MutationClock, data: seq<T>)
      ensures contents == data && this.clock == clock
    {
      this.clock, contents := clock, data;
    }

    /** Any inherited mutator, indexed and sliced stores included. */
    method Inherited<R>(inherited: seq<T> -> (seq<T>, R)) returns (r: R)
      modifies this`contents, clock
      ensures (contents, r) == inherited(old(contents)) && clock.value == old(clock.value) + 1
    {
      clock.value := clock.value + 1;
      var after := inherited(contents);
      contents, r := after.0, after.1;
    }

    method Append(v: T)
      modifies this`contents, clock
      ensures contents == old(contents) + [v] && clock.value == old(clock.value) + 1
    {
      clock.value := clock.value + 1;
      contents := contents + [v];
    }

    method Clear()
      modifies this`contents, clock
      ensures contents == []
      ensures contents == old(contents) <==> clock.value == old(clock.value)
    {
      if |contents| != 0 { clock.value := clock.value + 1; }
      contents := [];
    }
  }

  // ---------------------------------------------------------------- the bound of a deque

  /** `append` on a plain deque, which drops from the other end beyond its bound. */
  function BoundedAppend<T>(s: seq<T>, bound: Option<nat>, v: T): seq<T> {
    if bound.Some? && |s| + 1 > bound.value then (s + [v])[|s| + 1 - bound.value..] else s + [v]
  }

  function BoundedAppends<T>(s: seq<T>, bound: Option<nat>, vs: seq<T>): seq<T>
    decreases |vs|
  {
    if vs == [] then s else BoundedAppends(BoundedAppend(s, bound, vs[0]), bound, vs[1..])
  }

  lemma {:induction false} BoundedStaysBounded<T>(s: seq<T>, bound: Option<nat>, vs: seq<T>)
    requires bound.Some? ==> |s| <= bound.value
    ensures bound.Some? ==> |BoundedAppends(s, bound, vs)| <= bound.value
    ensures bound.None? || |s| + |vs| <= bound.value ==> BoundedAppends(s, bound, vs) == s + vs
    decreases |vs|
  {
    if vs == [] {
      assert s + vs == s;
    } else {
      BoundedStaysBounded(BoundedAppend(s, bound, vs[0]), bound, vs[1..]);
      assert s + [vs[0]] + vs[1..] == s + vs;
    }
  }

  /** A tracked deque, which has no bound, holds what the plain one would exactly while the bound is not reached. */
  lemma TrackingDropsTheBound<T>(s: seq<T>, bound: Option<nat>, vs: seq<T>)
    requires bound.Some? ==> |s| <= bound.value
    ensures BoundedAppends(s, None, vs) == s + vs
    ensures BoundedAppends(s, bound, vs) == BoundedAppends(s, None, vs) <==> bound.None? || |s| + |vs| <= bound.value
  {
    BoundedStaysBounded(s, bound, vs);
    BoundedStaysBounded(s, None, vs);
  }
}
