/** The cache's operations, and what holds over every run of them. */
module CacheRuns {
  import opened Prelude
  import opened CacheModel

  datatype Op<K, V> =
    | Put(key: K, value: V, size: int)
    | Get(key: K, touch: bool, count: bool)
    | Discard(key: K)
    | Resize(maxBytes: Option<int>, maxEntries: Option<int>)
    | Clear
    | NoteMiss
    | ClearCounters

  function Empty<K, V>(b: Budgets): Cache<K, V> { Cache([], 0, 0, 0, 0, 0, b) }

  function Evict<K, V>(c: Cache<K, V>, choose: Chooser<K, V>): Cache<K, V> {
    var n := Evictions(c.items, choose, c.budgets);
    var kept := Kept(c.items, choose, c.budgets);
    c.(items := kept, bytesUsed := Total(kept), evictions := c.evictions + n, revision := c.revision + n)
  }

  /** The list with a new entry for `key` at its recent end, before eviction. */
  function Inserted<K(==), V>(items: seq<Entry<K, V>>, key: K, value: V, size: int): seq<Entry<K, V>> {
    Dropped(items, key) + [Entry(key, value, Max(0, size))]
  }

  function Resized(b: Budgets, maxBytes: Option<int>, maxEntries: Option<int>): Budgets {
    Budgets(if maxBytes.Some? then maxBytes else b.maxBytes, if maxEntries.Some? then maxEntries else b.maxEntries)
  }

  function Touched<K(==), V>(items: seq<Entry<K, V>>, key: K): seq<Entry<K, V>> {
    var i := Find(items, key);
    if i < |items| then RemoveAt(items, i) + [items[i]] else items
  }

  function Apply<K(==), V>(c: Cache<K, V>, choose: Chooser<K, V>, op: Op<K, V>): Cache<K, V> {
    match op
    case Put(key, value, size) =>
      Evict(c.(items := Inserted(c.items, key, value, size), revision := c.revision + 1), choose)
    case Get(key, touch, count) =>
      var hit := Find(c.items, key) < |c.items|;
      c.(items := if touch then Touched(c.items, key) else c.items,
         hits := if hit && count then c.hits + 1 else c.hits,
         misses := if !hit && count then c.misses + 1 else c.misses)
    case Discard(key) =>
      var i := Find(c.items, key);
      if i == |c.items| then c
      else c.(items := RemoveAt(c.items, i), bytesUsed := c.bytesUsed - c.items[i].bytes, revision := c.revision + 1)
    case Resize(maxBytes, maxEntries) => Evict(c.(budgets := Resized(c.budgets, maxBytes, maxEntries)), choose)
    case Clear => c.(items := [], bytesUsed := 0, revision := c.revision + 1)
    case NoteMiss => c.(misses := c.misses + 1)
    case ClearCounters => c.(hits := 0, misses := 0, evictions := 0)
  }

  function Run<K(==), V>(c: Cache<K, V>, choose: Chooser<K, V>, ops: seq<Op<K, V>>): Cache<K, V>
    decreases |ops|
  {
    if ops == [] then c else Run(Apply(c, choose, ops[0]), choose, ops[1..])
  }

  // ---------------------------------------------------------------- what every operation keeps

  /** One entry a key, the byte counter exact, and both budgets met unless nothing is resident. */
  ghost predicate Good<K, V>(c: Cache<K, V>) {
    Distinct(c.items) && c.bytesUsed == Total(c.items) && (c.items == [] || Fits(c.items, c.budgets))
  }

  /** Taking the entry of a key out leaves no other entry of that key, and the rest in order. */
  lemma DropFacts<K, V>(items: seq<Entry<K, V>>, key: K)
    requires Distinct(items)
    ensures forall k :: 0 <= k < |Dropped(items, key)| ==> Dropped(items, key)[k].key != key
    ensures Distinct(Dropped(items, key))
  {
    var i := Find(items, key);
    if i < |items| {
      var d := RemoveAt(items, i);
      forall k | 0 <= k < |d| ensures d[k].key != key { assert d[k] == items[Lift(i, k)]; }
      forall j, k | 0 <= j < k < |d| ensures d[j].key != d[k].key {
        assert d[j] == items[Lift(i, j)] && d[k] == items[Lift(i, k)];
      }
    }
  }

  lemma DropAmounts<K, V>(items: seq<Entry<K, V>>, key: K)
    requires Find(items, key) < |items|
    ensures Total(Dropped(items, key)) == Total(items) - items[Find(items, key)].bytes
    ensures multiset(items) == multiset{items[Find(items, key)]} + multiset(Dropped(items, key))
  {
    TotalOfWithout(items, Find(items, key));
    MultisetOfWithout(items, Find(items, key));
  }

  /** Taking the entry of a key out and appending another keeps one entry a key. */
  lemma DistinctAfterMove<K, V>(items: seq<Entry<K, V>>, key: K, e: Entry<K, V>)
    requires Distinct(items) && e.key == key
    ensures Distinct(Dropped(items, key)) && Distinct(Dropped(items, key) + [e])
    ensures Find(items, key) < |items| ==>
              Total(Dropped(items, key)) == Total(items) - items[Find(items, key)].bytes
              && multiset(items) == multiset{items[Find(items, key)]} + multiset(Dropped(items, key))
  {
    DropFacts(items, key);
    if Find(items, key) < |items| { DropAmounts(items, key); }
  }

  lemma EvictKeeps<K, V>(c: Cache<K, V>, choose: Chooser<K, V>)
    requires Distinct(c.items)
    ensures Good(Evict(c, choose))
  {
    var at := SurvivorsComeFrom(c.items, choose, Evictions(c.items, choose, c.budgets));
    EvictionStopsAtOnce(c.items, choose, c.budgets);
  }

  /** Dropping an entry cannot break a budget. */
  lemma DropStillFits<K, V>(items: seq<Entry<K, V>>, i: nat, b: Budgets)
    requires i < |items| && Fits(items, b)
    ensures Fits(RemoveAt(items, i), b)
  {
    TotalOfWithout(items, i);
  }

  lemma TouchedFacts<K, V>(items: seq<Entry<K, V>>, key: K)
    requires Distinct(items)
    ensures Distinct(Touched(items, key)) && Total(Touched(items, key)) == Total(items)
    ensures |Touched(items, key)| == |items| && multiset(Touched(items, key)) == multiset(items)
  {
    var i := Find(items, key);
    if i < |items| {
      DistinctAfterMove(items, key, items[i]);
      TotalOfAppend(RemoveAt(items, i), [items[i]]);
    }
  }

  lemma PutKeeps<K, V>(c: Cache<K, V>, choose: Chooser<K, V>, key: K, value: V, size: int)
    requires Good(c)
    ensures Good(Apply(c, choose, Put(key, value, size)))
  {
    DistinctAfterMove(c.items, key, Entry(key, value, Max(0, size)));
    EvictKeeps(c.(items := Inserted(c.items, key, value, size), revision := c.revision + 1), choose);
  }

  lemma ApplyKeeps<K, V>(c: Cache<K, V>, choose: Chooser<K, V>, op: Op<K, V>)
    requires Good(c)
    ensures Good(Apply(c, choose, op))
  {
    match op
    case Put(key, value, size) => PutKeeps(c, choose, key, value, size);
    case Get(key, touch, _) => TouchedFacts(c.items, key);
    case Discard(key) =>
      var i := Find(c.items, key);
      if i < |c.items| {
        DistinctAfterMove(c.items, key, c.items[i]);
        DropStillFits(c.items, i, c.budgets);
      }
    case Resize(maxBytes, maxEntries) => EvictKeeps(c.(budgets := Resized(c.budgets, maxBytes, maxEntries)), choose);
    case _ =>
  }

  lemma {:induction false} RunKeeps<K, V>(c: Cache<K, V>, choose: Chooser<K, V>, ops: seq<Op<K, V>>)
    requires Good(c)
    ensures Good(Run(c, choose, ops))
    decreases |ops|
  {
    if ops != [] {
      ApplyKeeps(c, choose, ops[0]);
      RunKeeps(Apply(c, choose, ops[0]), choose, ops[1..]);
    }
  }

  // ---------------------------------------------------------------- what can be held

  /** An entry of this many bytes meets both budgets alone. */
  predicate FitsAlone(b: Budgets, bytes: int) {
    (b.maxBytes.None? || bytes <= b.maxBytes.value) && (b.maxEntries.None? || 1 <= b.maxEntries.value)
  }

  /** A list that holds an entry too large, or too many, for the budgets does not fit them. */
  lemma LargeNeverFits<K, V>(items: seq<Entry<K, V>>, i: nat, b: Budgets)
    requires i < |items| && !FitsAlone(b, items[i].bytes)
    ensures !Fits(items, b)
  {
    TotalOfWithout(items, i);
  }

  /** Whatever is evicted first, an entry that does not fit alone is not held once it is put. */
  lemma UnfitIsNotHeld<K, V>(c: Cache<K, V>, choose: Chooser<K, V>, key: K, value: V, size: int)
    requires Good(c) && !FitsAlone(c.budgets, Max(0, size))
    ensures !Holds(Apply(c, choose, Put(key, value, size)).items, key)
  {
    var inserted := Inserted(c.items, key, value, size);
    var kept := Kept(inserted, choose, c.budgets);
    var at := SurvivorsComeFrom(inserted, choose, Evictions(inserted, choose, c.budgets));
    EvictionStopsAtOnce(inserted, choose, c.budgets);
    DropFacts(c.items, key);
    forall i | 0 <= i < |kept| ensures kept[i].key != key {
      if kept[i].key == key {
        assert at[i] == |inserted| - 1;
        LargeNeverFits(kept, i, c.budgets);
      }
    }
  }

  /** Without a retention key an entry that fits alone is held once it is put. */
  lemma FittingIsHeld<K, V>(c: Cache<K, V>, choose: Chooser<K, V>, key: K, value: V, size: int)
    requires Good(c) && choose == Oldest<K, V>() && FitsAlone(c.budgets, Max(0, size))
    ensures Holds(Apply(c, choose, Put(key, value, size)).items, key)
  {
    var inserted := Inserted(c.items, key, value, size);
    var n := Evictions(inserted, choose, c.budgets);
    LongestRecentStretch(inserted, choose, c.budgets);
    assert inserted[|inserted| - 1..] == [Entry(key, value, Max(0, size))];
    assert Total(inserted[|inserted| - 1..]) == Max(0, size);
    assert n < |inserted|;
    assert inserted[n..][|inserted| - 1 - n].key == key;
  }

  // ---------------------------------------------------------------- conservation of bytes

  /** Bytes that came in, and the ways bytes went out. */
  datatype Ledger = Ledger(put: int, evicted: int, replaced: int, discarded: int, cleared: int)

  function Booked<K(==), V>(l: Ledger, c: Cache<K, V>, choose: Chooser<K, V>, op: Op<K, V>): Ledger {
    match op
    case Put(key, value, size) =>
      var i := Find(c.items, key);
      l.(put := l.put + Max(0, size), replaced := l.replaced + (if i < |c.items| then c.items[i].bytes else 0),
         evicted := l.evicted + Total(Evicted(Inserted(c.items, key, value, size), choose, c.budgets)))
    case Discard(key) =>
      var i := Find(c.items, key);
      l.(discarded := l.discarded + (if i < |c.items| then c.items[i].bytes else 0))
    case Resize(maxBytes, maxEntries) =>
      l.(evicted := l.evicted + Total(Evicted(c.items, choose, Resized(c.budgets, maxBytes, maxEntries))))
    case Clear => l.(cleared := l.cleared + c.bytesUsed)
    case _ => l
  }

  function BookedRun<K(==), V>(l: Ledger, c: Cache<K, V>, choose: Chooser<K, V>, ops: seq<Op<K, V>>): Ledger
    decreases |ops|
  {
    if ops == [] then l else BookedRun(Booked(l, c, choose, ops[0]), Apply(c, choose, ops[0]), choose, ops[1..])
  }

  function Balance(l: Ledger): int { l.put - l.evicted - l.replaced - l.discarded - l.cleared }

  lemma ApplyConserves<K, V>(l: Ledger, c: Cache<K, V>, choose: Chooser<K, V>, op: Op<K, V>)
    requires Good(c)
    ensures Balance(Booked(l, c, choose, op)) - Apply(c, choose, op).bytesUsed == Balance(l) - c.bytesUsed
  {
    match op
    case Put(key, value, size) =>
      var e := Entry(key, value, Max(0, size));
      var inserted := Inserted(c.items, key, value, size);
      DistinctAfterMove(c.items, key, e);
      TotalOfAppend(Dropped(c.items, key), [e]);
      EvictionConservesBytes(inserted, choose, Evictions(inserted, choose, c.budgets));
    case Resize(maxBytes, maxEntries) =>
      EvictionConservesBytes(c.items, choose, Evictions(c.items, choose, Resized(c.budgets, maxBytes, maxEntries)));
    case _ =>
  }

  lemma {:induction false} RunConserves<K, V>(l: Ledger, c: Cache<K, V>, choose: Chooser<K, V>, ops: seq<Op<K, V>>)
    requires Good(c)
    ensures Balance(BookedRun(l, c, choose, ops)) - Run(c, choose, ops).bytesUsed == Balance(l) - c.bytesUsed
    decreases |ops|
  {
    if ops != [] {
      ApplyConserves(l, c, choose, ops[0]);
      ApplyKeeps(c, choose, ops[0]);
      RunConserves(Booked(l, c, choose, ops[0]), Apply(c, choose, ops[0]), choose, ops[1..]);
    }
  }

  /** Over every run of a new cache: the bytes put are the bytes resident plus those evicted, replaced,
      discarded and cleared, and the byte counter is the sum of the resident sizes. */
  lemma BytesAreAccountedFor<K, V>(b: Budgets, choose: Chooser<K, V>, ops: seq<Op<K, V>>)
    ensures var c := Run(Empty(b), choose, ops);
            var l := BookedRun(Ledger(0, 0, 0, 0, 0), Empty(b), choose, ops);
            c.bytesUsed == Total(c.items)
            && l.put == c.bytesUsed + l.evicted + l.replaced + l.discarded + l.cleared
  {
    RunKeeps(Empty(b), choose, ops);
    RunConserves(Ledger(0, 0, 0, 0, 0), Empty(b), choose, ops);
  }

  // ---------------------------------------------------------------- the revision

  /** Whatever changes which entries are resident raises the revision; reads and counters leave it. */
  lemma RevisionTells<K, V>(c: Cache<K, V>, choose: Chooser<K, V>, op: Op<K, V>)
    requires Good(c)
    ensures Apply(c, choose, op).revision >= c.revision
    ensures Apply(c, choose, op).revision == c.revision ==> multiset(Apply(c, choose, op).items) == multiset(c.items)
    ensures op.Get? || op.NoteMiss? || op.ClearCounters? ==> Apply(c, choose, op).revision == c.revision
  {
    if op.Get? { TouchedFacts(c.items, op.key); }
  }

  /** A revision seen twice means the same resident entries, whatever happened between. */
  lemma {:induction false} SameRevisionSameEntries<K, V>(c: Cache<K, V>, choose: Chooser<K, V>, ops: seq<Op<K, V>>)
    requires Good(c)
    ensures Run(c, choose, ops).revision >= c.revision
    ensures Run(c, choose, ops).revision == c.revision ==> multiset(Run(c, choose, ops).items) == multiset(c.items)
    decreases |ops|
  {
    if ops != [] {
      RevisionTells(c, choose, ops[0]);
      ApplyKeeps(c, choose, ops[0]);
      SameRevisionSameEntries(Apply(c, choose, ops[0]), choose, ops[1..]);
    }
  }

  // ---------------------------------------------------------------- the counters

  /** What the operations of a run should count: lookups that hit, lookups that missed, entries evicted. */
  datatype Tally = Tally(hits: nat, misses: nat, evicted: nat)

  /** An entry of this key is resident. */
  ghost predicate Resident<K, V>(c: Cache<K, V>, key: K) { exists i :: 0 <= i < |c.items| && c.items[i].key == key }

  ghost function Tallied<K, V>(t: Tally, c: Cache<K, V>, choose: Chooser<K, V>, op: Op<K, V>): Tally {
    match op
    case Put(key, value, size) =>
      t.(evicted := t.evicted + |Evicted(Inserted(c.items, key, value, size), choose, c.budgets)|)
    case Get(key, _, count) =>
      if !count then t else if Resident(c, key) then t.(hits := t.hits + 1) else t.(misses := t.misses + 1)
    case Resize(maxBytes, maxEntries) =>
      t.(evicted := t.evicted + |Evicted(c.items, choose, Resized(c.budgets, maxBytes, maxEntries))|)
    case NoteMiss => t.(misses := t.misses + 1)
    case ClearCounters => Tally(0, 0, 0)
    case _ => t
  }

  ghost function TallyRun<K, V>(t: Tally, c: Cache<K, V>, choose: Chooser<K, V>, ops: seq<Op<K, V>>): Tally
    decreases |ops|
  {
    if ops == [] then t else TallyRun(Tallied(t, c, choose, ops[0]), Apply(c, choose, ops[0]), choose, ops[1..])
  }

  lemma FoundIsResident<K, V>(c: Cache<K, V>, key: K)
    ensures Find(c.items, key) < |c.items| <==> Resident(c, key)
  {
    if Find(c.items, key) < |c.items| { assert c.items[Find(c.items, key)].key == key; }
  }

  lemma ApplyTallies<K, V>(t: Tally, c: Cache<K, V>, choose: Chooser<K, V>, op: Op<K, V>)
    requires t == Tally(c.hits, c.misses, c.evictions)
    ensures var r := Apply(c, choose, op); Tallied(t, c, choose, op) == Tally(r.hits, r.misses, r.evictions)
  {
    match op
    case Put(key, value, size) => EvictedAreCounted(Inserted(c.items, key, value, size), choose, c.budgets);
    case Get(key, _, _) => FoundIsResident(c, key);
    case Resize(maxBytes, maxEntries) => EvictedAreCounted(c.items, choose, Resized(c.budgets, maxBytes, maxEntries));
    case _ =>
  }

  /** Over every run the counters are the hits, misses and evictions since they were last cleared. */
  lemma {:induction false} CountersTally<K, V>(c: Cache<K, V>, choose: Chooser<K, V>, ops: seq<Op<K, V>>)
    ensures var r := Run(c, choose, ops);
            TallyRun(Tally(c.hits, c.misses, c.evictions), c, choose, ops) == Tally(r.hits, r.misses, r.evictions)
    decreases |ops|
  {
    if ops != [] {
      ApplyTallies(Tally(c.hits, c.misses, c.evictions), c, choose, ops[0]);
      CountersTally(Apply(c, choose, ops[0]), choose, ops[1..]);
    }
  }

  // ---------------------------------------------------------------- recency

  /** When each key was last put or touched. */
  datatype Clock<!K> = Clock(now: nat, last: map<K, nat>)

  function Tick<K(==), V>(t: Clock<K>, c: Cache<K, V>, op: Op<K, V>): Clock<K> {
    match op
    case Put(key, _, _) => Clock(t.now + 1, t.last[key := t.now])
    case Get(key, touch, _) => if touch then Clock(t.now + 1, t.last[key := t.now]) else t
    case _ => t
  }

  function TickRun<K(==), V>(t: Clock<K>, c: Cache<K, V>, choose: Chooser<K, V>, ops: seq<Op<K, V>>): Clock<K>
    decreases |ops|
  {
    if ops == [] then t else TickRun(Tick(t, c, ops[0]), Apply(c, choose, ops[0]), choose, ops[1..])
  }

  /** The list runs from the key used longest ago to the key used last. */
  ghost predicate ByRecency<K, V>(t: Clock<K>, items: seq<Entry<K, V>>) {
    && (forall i :: 0 <= i < |items| ==> items[i].key in t.last && t.last[items[i].key] < t.now)
    && (forall i, j :: 0 <= i < j < |items| ==>
          items[i].key in t.last && items[j].key in t.last && t.last[items[i].key] < t.last[items[j].key])
  }

  lemma DroppedPicks<K, V>(items: seq<Entry<K, V>>, key: K) returns (at: seq<nat>)
    ensures Picks(Dropped(items, key), items, at)
  {
    if Find(items, key) < |items| {
      at := WithoutPicks(items, Find(items, key));
    } else {
      at := seq(|items|, k requires 0 <= k < |items| => k);
    }
  }

  /** Using a key moves its entry to the recent end. */
  lemma UseKeepsRecency<K, V>(t: Clock<K>, items: seq<Entry<K, V>>, key: K, e: Entry<K, V>)
    requires ByRecency(t, items) && Distinct(items) && e.key == key
    ensures ByRecency(Clock(t.now + 1, t.last[key := t.now]), Dropped(items, key) + [e])
  {
    var d := Dropped(items, key);
    var at := DroppedPicks(items, key);
    DropFacts(items, key);
    var used, moved := t.last[key := t.now], d + [e];
    forall i | 0 <= i < |d| ensures moved[i].key in used && used[moved[i].key] == t.last[items[at[i]].key] < t.now {
      assert moved[i] == d[i] == items[at[i]] && d[i].key != key;
    }
    forall i, j | 0 <= i < j < |moved| ensures used[moved[i].key] < used[moved[j].key] {
      if j < |d| { assert at[i] < at[j]; }
    }
  }

  lemma EvictionKeepsRecency<K, V>(t: Clock<K>, items: seq<Entry<K, V>>, choose: Chooser<K, V>, b: Budgets)
    requires ByRecency(t, items)
    ensures ByRecency(t, Kept(items, choose, b))
  {
    var at := SurvivorsComeFrom(items, choose, Evictions(items, choose, b));
  }

  lemma PutKeepsRecency<K, V>(t: Clock<K>, c: Cache<K, V>, choose: Chooser<K, V>, key: K, value: V, size: int)
    requires Good(c) && ByRecency(t, c.items)
    ensures ByRecency(Clock(t.now + 1, t.last[key := t.now]),
                      Kept(Inserted(c.items, key, value, size), choose, c.budgets))
  {
    UseKeepsRecency(t, c.items, key, Entry(key, value, Max(0, size)));
    EvictionKeepsRecency(Clock(t.now + 1, t.last[key := t.now]),
                         Inserted(c.items, key, value, size), choose, c.budgets);
  }

  lemma TouchKeepsRecency<K, V>(t: Clock<K>, items: seq<Entry<K, V>>, key: K)
    requires ByRecency(t, items) && Distinct(items)
    ensures ByRecency(Clock(t.now + 1, t.last[key := t.now]), Touched(items, key))
  {
    if Find(items, key) < |items| {
      UseKeepsRecency(t, items, key, items[Find(items, key)]);
    }
  }

  lemma ApplyKeepsRecency<K, V>(t: Clock<K>, c: Cache<K, V>, choose: Chooser<K, V>, op: Op<K, V>)
    requires Good(c) && ByRecency(t, c.items)
    ensures ByRecency(Tick(t, c, op), Apply(c, choose, op).items)
  {
    match op
    case Put(key, value, size) => PutKeepsRecency(t, c, choose, key, value, size);
    case Get(key, touch, _) => TouchKeepsRecency(t, c.items, key);
    case Discard(key) =>
      var at := DroppedPicks(c.items, key);
    case Resize(maxBytes, maxEntries) =>
      EvictionKeepsRecency(t, c.items, choose, Resized(c.budgets, maxBytes, maxEntries));
    case _ =>
  }

  lemma {:induction false} RunKeepsRecency<K, V>(t: Clock<K>, c: Cache<K, V>, choose: Chooser<K, V>, ops: seq<Op<K, V>>)
    requires Good(c) && ByRecency(t, c.items)
    ensures ByRecency(TickRun(t, c, choose, ops), Run(c, choose, ops).items) && Good(Run(c, choose, ops))
    decreases |ops|
  {
    if ops != [] {
      ApplyKeepsRecency(t, c, choose, ops[0]);
      ApplyKeeps(c, choose, ops[0]);
      RunKeepsRecency(Tick(t, c, ops[0]), Apply(c, choose, ops[0]), choose, ops[1..]);
    }
  }

  /** Over every run without a retention key, what the next eviction drops was last used before anything it keeps. */
  lemma LeastRecentlyUsedGo<K, V>(b: Budgets, choose: Chooser<K, V>, ops: seq<Op<K, V>>, smaller: Budgets)
    requires choose == Oldest<K, V>()
    ensures var c := Run(Empty(b), choose, ops);
            var t := TickRun(Clock(0, map[]), Empty(b), choose, ops);
            var out, kept := Evicted(c.items, choose, smaller), Kept(c.items, choose, smaller);
            forall i, j :: 0 <= i < |out| && 0 <= j < |kept| ==>
              out[i].key in t.last && kept[j].key in t.last && t.last[out[i].key] < t.last[kept[j].key]
  {
    RunKeepsRecency(Clock(0, map[]), Empty(b), choose, ops);
    LongestRecentStretch(Run(Empty(b), choose, ops).items, choose, smaller);
  }
}
