/** The bounded cache as a value: a list of entries, oldest first, two optional budgets, and the counters. */
module CacheModel {
  import opened Prelude

  datatype Entry<K, V> = Entry(key: K, value: V, bytes: nat)

  datatype Budgets = Budgets(maxBytes: Option<int>, maxEntries: Option<int>)

  datatype Cache<K, V> = Cache(items: seq<Entry<K, V>>, bytesUsed: int, hits: nat, misses: nat, evictions: nat,
                               revision: nat, budgets: Budgets)

  // ---------------------------------------------------------------- lists of entries

  function Total<K, V>(items: seq<Entry<K, V>>): nat {
    if items == [] then 0 else items[0].bytes + Total(items[1..])
  }

  predicate Distinct<K(==), V>(items: seq<Entry<K, V>>) {
    forall i, j :: 0 <= i < j < |items| ==> items[i].key != items[j].key
  }

  predicate Holds<K(==), V>(items: seq<Entry<K, V>>, key: K) { exists i :: 0 <= i < |items| && items[i].key == key }

  /** The position of `key`, or the length. */
  function Find<K(==), V>(items: seq<Entry<K, V>>, key: K): (i: nat)
    ensures i <= |items|
    ensures i < |items| ==> items[i].key == key
    ensures forall k :: 0 <= k < i ==> items[k].key != key
  {
    if items == [] || items[0].key == key then 0 else 1 + Find(items[1..], key)
  }

  function Dropped<K(==), V>(items: seq<Entry<K, V>>, key: K): seq<Entry<K, V>> {
    var i := Find(items, key);
    if i < |items| then RemoveAt(items, i) else items
  }

  lemma {:induction false} TotalOfWithout<K, V>(items: seq<Entry<K, V>>, i: nat)
    requires i < |items|
    ensures Total(items) == items[i].bytes + Total(RemoveAt(items, i))
  {
    if i == 0 {
      assert RemoveAt(items, 0) == items[1..];
    } else {
      TotalOfWithout(items[1..], i - 1);
      assert RemoveAt(items, i)[1..] == RemoveAt(items[1..], i - 1);
    }
  }

  lemma {:induction false} TotalOfAppend<K, V>(items: seq<Entry<K, V>>, more: seq<Entry<K, V>>)
    ensures Total(items + more) == Total(items) + Total(more)
  {
    if items == [] {
      assert items + more == more;
    } else {
      assert (items + more)[1..] == items[1..] + more;
      TotalOfAppend(items[1..], more);
    }
  }

  lemma MultisetOfWithout<T>(s: seq<T>, i: nat)
    requires i < |s|
    ensures multiset(s) == multiset{s[i]} + multiset(RemoveAt(s, i))
  {
    assert s == s[..i] + [s[i]] + s[i + 1..];
    assert RemoveAt(s, i) == s[..i] + s[i + 1..];
  }

  /** Splitting what is left once one entry is taken out splits the whole. */
  lemma TakeOneOut<T>(whole: seq<T>, i: nat, kept: seq<T>, out: seq<T>)
    requires i < |whole| && Divides(RemoveAt(whole, i), kept, out)
    ensures Divides(whole, kept, [whole[i]] + out)
  {
    MultisetOfWithout(whole, i);
    var x := [whole[i]];
    assert multiset(x + out) == multiset(x) + multiset(out);
    assert multiset(x) == multiset{whole[i]};
  }

  // ---------------------------------------------------------------- eviction

  predicate Over<K, V>(items: seq<Entry<K, V>>, used: int, b: Budgets) {
    (b.maxEntries.Some? && |items| > b.maxEntries.value) || (b.maxBytes.Some? && used > b.maxBytes.value)
  }

  predicate Fits<K, V>(items: seq<Entry<K, V>>, b: Budgets) { !Over(items, Total(items), b) }

  /** The first position of least rank. */
  function LowestFrom<K, V>(items: seq<Entry<K, V>>, rank: (K, V) -> int, best: nat, k: nat): (i: nat)
    requires best < k <= |items|
    requires forall j :: 0 <= j < k ==> rank(items[best].key, items[best].value) <= rank(items[j].key, items[j].value)
    requires forall j :: 0 <= j < best ==> rank(items[best].key, items[best].value) < rank(items[j].key, items[j].value)
    ensures i < |items|
    ensures forall j :: 0 <= j < |items| ==> rank(items[i].key, items[i].value) <= rank(items[j].key, items[j].value)
    ensures forall j :: 0 <= j < i ==> rank(items[i].key, items[i].value) < rank(items[j].key, items[j].value)
    decreases |items| - k
  {
    if k == |items| then best
    else if rank(items[k].key, items[k].value) < rank(items[best].key, items[best].value)
    then LowestFrom(items, rank, k, k + 1)
    else LowestFrom(items, rank, best, k + 1)
  }

  /** A way to choose which entry goes next. */
  type Chooser<!K, !V> = seq<Entry<K, V>> -> nat

  /** Without a retention key: whatever was inserted or touched longest ago. */
  function Oldest<K, V>(): Chooser<K, V> { (items: seq<Entry<K, V>>) => 0 }

  /** With a retention key: the lowest ranked entry, and the oldest of those. */
  function LowestRanked<K, V>(rank: (K, V) -> int): Chooser<K, V> {
    (items: seq<Entry<K, V>>) => if items == [] then 0 else LowestFrom(items, rank, 0, 1)
  }

  /** The position the chooser names. */
  function Chosen<K, V>(items: seq<Entry<K, V>>, choose: Chooser<K, V>): (i: nat)
    requires items != []
    ensures i < |items|
  {
    if choose(items) < |items| then choose(items) else 0
  }

  /** What is left once the chosen entry is gone. */
  function Rest<K, V>(items: seq<Entry<K, V>>, choose: Chooser<K, V>): (r: seq<Entry<K, V>>)
    requires items != []
    ensures |r| < |items|
  {
    RemoveAt(items, Chosen(items, choose))
  }

  /** What is left after `n` evictions, budgets apart. */
  function After<K, V>(items: seq<Entry<K, V>>, choose: Chooser<K, V>, n: nat): seq<Entry<K, V>>
    decreases n
  {
    if n == 0 || items == [] then items else After(Rest(items, choose), choose, n - 1)
  }

  /** How many entries the budgets evict. */
  function Evictions<K, V>(items: seq<Entry<K, V>>, choose: Chooser<K, V>, b: Budgets): (n: nat)
    ensures n <= |items|
    decreases |items|
  {
    if items == [] || Fits(items, b) then 0 else 1 + Evictions(Rest(items, choose), choose, b)
  }

  /** The first `n` entries to go, in order. */
  function Victims<K, V>(items: seq<Entry<K, V>>, choose: Chooser<K, V>, n: nat): seq<Entry<K, V>>
    decreases n
  {
    if n == 0 || items == [] then []
    else [items[Chosen(items, choose)]] + Victims(Rest(items, choose), choose, n - 1)
  }

  function Kept<K, V>(items: seq<Entry<K, V>>, choose: Chooser<K, V>, b: Budgets): seq<Entry<K, V>> {
    After(items, choose, Evictions(items, choose, b))
  }

  function Evicted<K, V>(items: seq<Entry<K, V>>, choose: Chooser<K, V>, b: Budgets): seq<Entry<K, V>> {
    Victims(items, choose, Evictions(items, choose, b))
  }

  /** One more eviction, seen from the front. */
  lemma FirstEviction<K, V>(items: seq<Entry<K, V>>, choose: Chooser<K, V>, n: nat)
    requires items != []
    ensures After(items, choose, n + 1) == After(Rest(items, choose), choose, n)
    ensures Victims(items, choose, n + 1) == [items[Chosen(items, choose)]] + Victims(Rest(items, choose), choose, n)
  {
  }

  /** Part-way through the eviction loop: `out` has gone, `items` is left, and the loop will end where it should. */
  ghost predicate PartWay<K, V>(whole: seq<Entry<K, V>>, choose: Chooser<K, V>, b: Budgets, items: seq<Entry<K, V>>,
                                out: seq<Entry<K, V>>)
  {
    && |out| + Evictions(items, choose, b) == Evictions(whole, choose, b)
    && Kept(items, choose, b) == Kept(whole, choose, b)
    && out + Evicted(items, choose, b) == Evicted(whole, choose, b)
  }

  /** One round of the eviction loop. */
  lemma PartWayOn<K, V>(whole: seq<Entry<K, V>>, choose: Chooser<K, V>, b: Budgets, items: seq<Entry<K, V>>,
                        out: seq<Entry<K, V>>)
    requires PartWay(whole, choose, b, items, out) && items != [] && !Fits(items, b)
    ensures PartWay(whole, choose, b, Rest(items, choose), out + [items[Chosen(items, choose)]])
    ensures Total(Rest(items, choose)) == Total(items) - items[Chosen(items, choose)].bytes
  {
    TotalOfWithout(items, Chosen(items, choose));
    var later := Evicted(Rest(items, choose), choose, b);
    assert out + ([items[Chosen(items, choose)]] + later) == out + [items[Chosen(items, choose)]] + later;
  }

  /** Where the eviction loop stops. */
  lemma PartWayDone<K, V>(whole: seq<Entry<K, V>>, choose: Chooser<K, V>, b: Budgets, items: seq<Entry<K, V>>,
                          out: seq<Entry<K, V>>)
    requires PartWay(whole, choose, b, items, out) && (items == [] || Fits(items, b))
    ensures items == Kept(whole, choose, b) && out == Evicted(whole, choose, b)
    ensures |out| == Evictions(whole, choose, b)
  {
  }

  /** The eviction count is the number of entries evicted. */
  lemma {:induction false} EvictedAreCounted<K, V>(items: seq<Entry<K, V>>, choose: Chooser<K, V>, b: Budgets)
    ensures |Evicted(items, choose, b)| == Evictions(items, choose, b)
    decreases |items|
  {
    if items != [] && !Fits(items, b) {
      EvictedAreCounted(Rest(items, choose), choose, b);
    }
  }

  /** Eviction stops as soon as both budgets fit, and not before unless nothing is left. */
  lemma {:induction false} EvictionStopsAtOnce<K, V>(items: seq<Entry<K, V>>, choose: Chooser<K, V>, b: Budgets)
    ensures var n := Evictions(items, choose, b);
            && (Kept(items, choose, b) == [] || Fits(Kept(items, choose, b), b))
            && (forall m :: 0 <= m < n ==> After(items, choose, m) != [] && !Fits(After(items, choose, m), b))
    decreases |items|
  {
    if items != [] && !Fits(items, b) {
      var rest := Rest(items, choose);
      EvictionStopsAtOnce(rest, choose, b);
      forall m | 0 <= m < Evictions(items, choose, b)
        ensures After(items, choose, m) != [] && !Fits(After(items, choose, m), b)
      {
        if m > 0 { assert After(items, choose, m) == After(rest, choose, m - 1); }
      }
    }
  }

  lemma {:induction false} EvictionConservesBytes<K, V>(items: seq<Entry<K, V>>, choose: Chooser<K, V>, n: nat)
    ensures Total(items) == Total(After(items, choose, n)) + Total(Victims(items, choose, n))
    decreases n
  {
    if n > 0 && items != [] {
      var i := Chosen(items, choose);
      EvictionConservesBytes(Rest(items, choose), choose, n - 1);
      TotalOfWithout(items, i);
      assert Victims(items, choose, n)[1..] == Victims(Rest(items, choose), choose, n - 1);
    }
  }

  ghost predicate Divides<T>(whole: seq<T>, kept: seq<T>, out: seq<T>) {
    multiset(whole) == multiset(kept) + multiset(out)
  }

  /** Nothing is lost or made up by eviction: every entry either survives or is evicted, once. */
  lemma {:induction false} EvictionConserves<K, V>(items: seq<Entry<K, V>>, choose: Chooser<K, V>, n: nat)
    ensures Divides(items, After(items, choose, n), Victims(items, choose, n))
    decreases n
  {
    if n > 0 && items != [] {
      FirstEviction(items, choose, n - 1);
      var rest := Rest(items, choose);
      EvictionConserves(rest, choose, n - 1);
      TakeOneOut(items, Chosen(items, choose), After(rest, choose, n - 1), Victims(rest, choose, n - 1));
    } else {
    }
  }

  lemma {:induction false} OldestLeavesSuffix<K, V>(items: seq<Entry<K, V>>, choose: Chooser<K, V>, n: nat)
    requires choose == Oldest<K, V>() && n <= |items|
    ensures After(items, choose, n) == items[n..] && Victims(items, choose, n) == items[..n]
    decreases n
  {
    if n > 0 {
      assert RemoveAt(items, 0) == items[1..];
      OldestLeavesSuffix(items[1..], choose, n - 1);
    }
  }

  /** Without a retention key the survivors are the longest most-recent stretch that fits both budgets,
      or nothing if none does; the evicted are the rest, oldest first. */
  lemma LongestRecentStretch<K, V>(items: seq<Entry<K, V>>, choose: Chooser<K, V>, b: Budgets)
    requires choose == Oldest<K, V>()
    ensures var n := Evictions(items, choose, b);
            && Kept(items, choose, b) == items[n..] && Evicted(items, choose, b) == items[..n]
            && (n == |items| || Fits(items[n..], b))
            && (forall m :: 0 <= m < n ==> !Fits(items[m..], b))
  {
    var n := Evictions(items, choose, b);
    OldestLeavesSuffix(items, choose, n);
    EvictionStopsAtOnce(items, choose, b);
    forall m | 0 <= m < n ensures !Fits(items[m..], b) { OldestLeavesSuffix(items, choose, m); }
  }

  // ---------------------------------------------------------------- eviction by rank

  /** `s` keeps the order of `items`: `at` gives the position each of its entries came from. */
  ghost predicate Picks<T>(s: seq<T>, items: seq<T>, at: seq<nat>) {
    && |at| == |s| && (forall k :: 0 <= k < |s| ==> at[k] < |items| && s[k] == items[at[k]])
    && (forall j, k :: 0 <= j < k < |at| ==> at[j] < at[k])
  }

  function Rank<K, V>(rank: (K, V) -> int, e: Entry<K, V>): int { rank(e.key, e.value) }

  /** Position `i` ranks below position `j`, or level with it and older. */
  predicate Precedes<K, V>(rank: (K, V) -> int, items: seq<Entry<K, V>>, i: nat, j: nat)
    requires i < |items| && j < |items|
  {
    Rank(rank, items[i]) < Rank(rank, items[j]) || (Rank(rank, items[i]) == Rank(rank, items[j]) && i < j)
  }

  /** The position in the whole list of what is at `k` once position `i` is gone. */
  function Lift(i: nat, k: nat): nat { if k < i then k else k + 1 }

  function LiftAll(i: nat, at: seq<nat>): (r: seq<nat>)
    ensures |r| == |at| && forall k :: 0 <= k < |at| ==> r[k] == Lift(i, at[k])
  {
    seq(|at|, k requires 0 <= k < |at| => Lift(i, at[k]))
  }

  /** Without one entry, the others keep their order. */
  lemma WithoutPicks<T>(items: seq<T>, i: nat) returns (at: seq<nat>)
    requires i < |items|
    ensures Picks(RemoveAt(items, i), items, at)
  {
    at := seq(|items| - 1, k requires 0 <= k < |items| - 1 => Lift(i, k));
  }

  lemma {:induction false} SurvivorsComeFrom<K, V>(items: seq<Entry<K, V>>, choose: Chooser<K, V>, n: nat)
    returns (at: seq<nat>)
    ensures Picks(After(items, choose, n), items, at)
    decreases n
  {
    if n == 0 || items == [] {
      at := seq(|items|, k requires 0 <= k < |items| => k);
    } else {
      var i := Chosen(items, choose);
      var inner := SurvivorsComeFrom(Rest(items, choose), choose, n - 1);
      at := LiftAll(i, inner);
    }
  }

  /** Where the evicted and the surviving entries of a list came from. */
  ghost predicate Split<K, V>(choose: Chooser<K, V>, items: seq<Entry<K, V>>, n: nat, gone: seq<nat>, stay: seq<nat>)
  {
    && Picks(After(items, choose, n), items, stay)
    && |gone| == |Victims(items, choose, n)|
    && (forall k :: 0 <= k < |gone| ==> gone[k] < |items| && Victims(items, choose, n)[k] == items[gone[k]])
  }

  ghost predicate GoneFirst<K, V>(rank: (K, V) -> int, items: seq<Entry<K, V>>, gone: seq<nat>, stay: seq<nat>)
    requires (forall k :: 0 <= k < |gone| ==> gone[k] < |items|) && (forall k :: 0 <= k < |stay| ==> stay[k] < |items|)
  {
    && (forall i, j :: 0 <= i < |gone| && 0 <= j < |stay| ==> Precedes(rank, items, gone[i], stay[j]))
    && (forall i, j :: 0 <= i < j < |gone| ==> Precedes(rank, items, gone[i], gone[j]))
  }

  lemma LowestPrecedes<K, V>(items: seq<Entry<K, V>>, rank: (K, V) -> int, k: nat)
    requires items != [] && k < |items| - 1
    ensures Precedes(rank, items, Chosen(items, LowestRanked(rank)), Lift(Chosen(items, LowestRanked(rank)), k))
  {
    var i := Chosen(items, LowestRanked(rank));
    var j := Lift(i, k);
    assert rank(items[i].key, items[i].value) <= rank(items[j].key, items[j].value);
  }

  lemma SplitLifts<K, V>(items: seq<Entry<K, V>>, choose: Chooser<K, V>, n: nat, i: nat, gone: seq<nat>, stay: seq<nat>)
    requires items != [] && i == Chosen(items, choose) && n > 0
    requires Split(choose, Rest(items, choose), n - 1, gone, stay)
    ensures Split(choose, items, n, [i] + LiftAll(i, gone), LiftAll(i, stay))
  {
  }

  lemma GoneFirstLifts<K, V>(items: seq<Entry<K, V>>, rank: (K, V) -> int, i: nat, gone: seq<nat>, stay: seq<nat>)
    requires items != [] && i == Chosen(items, LowestRanked(rank))
    requires (forall k :: 0 <= k < |gone| ==> gone[k] < |items| - 1)
             && (forall k :: 0 <= k < |stay| ==> stay[k] < |items| - 1)
    requires GoneFirst(rank, RemoveAt(items, i), gone, stay)
    ensures GoneFirst(rank, items, [i] + LiftAll(i, gone), LiftAll(i, stay))
  {
    var g, s := [i] + LiftAll(i, gone), LiftAll(i, stay);
    assert forall k :: 0 < k < |g| ==> g[k] == Lift(i, gone[k - 1]);
    forall a, b | 0 <= a < |g| && 0 <= b < |s| ensures Precedes(rank, items, g[a], s[b]) {
      if a == 0 { LowestPrecedes(items, rank, stay[b]); }
    }
    forall a, b | 0 <= a < b < |g| ensures Precedes(rank, items, g[a], g[b]) {
      if a == 0 { LowestPrecedes(items, rank, gone[b - 1]); }
    }
  }

  /** With a retention key every evicted entry ranks below every survivor, or level with it and older;
      entries go in that same order; survivors keep their recency order. */
  lemma {:induction false} LowestGoFirst<K, V>(items: seq<Entry<K, V>>, rank: (K, V) -> int, choose: Chooser<K, V>,
                                               n: nat)
    returns (gone: seq<nat>, stay: seq<nat>)
    requires choose == LowestRanked(rank)
    ensures Split(choose, items, n, gone, stay) && GoneFirst(rank, items, gone, stay)
    decreases n
  {
    if n == 0 || items == [] {
      gone := [];
      stay := SurvivorsComeFrom(items, choose, n);
    } else {
      var i := Chosen(items, choose);
      var innerGone, innerStay := LowestGoFirst(Rest(items, choose), rank, choose, n - 1);
      SplitLifts(items, choose, n, i, innerGone, innerStay);
      GoneFirstLifts(items, rank, i, innerGone, innerStay);
      gone, stay := [i] + LiftAll(i, innerGone), LiftAll(i, innerStay);
    }
  }
}
