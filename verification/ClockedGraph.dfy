/** Objects that own each other, bound to one clock: adopting a clock, storing attributes, mutating containers. */
module ClockedGraph {
  import opened Prelude
  import opened OrderedDict
  import TrackedContainers

  /** Values are object identities; what a container holds is not followed. */
  datatype Contents =
    | Mapping(ordered: bool, d: Dict<nat, nat>)
    | Members(s: set<nat>)
    | Items(items: seq<nat>, bound: Option<nat>)

  /** A container not yet tracked, one that counts on a clock, an object whose attribute stores may count,
      or anything else. */
  datatype Object =
    | Plain(contents: Contents)
    | Tracked(contents: Contents, clock: nat)
    | State(attrs: Dict<string, nat>, owner: Option<nat>)
    | Opaque

  datatype World = World(objects: map<nat, Object>, ticks: map<nat, nat>, next: nat)

  function Ticks(w: World, c: nat): nat { if c in w.ticks then w.ticks[c] else 0 }

  function Advance(w: World, c: nat, n: nat): World { w.(ticks := w.ticks[c := Ticks(w, c) + n]) }

  // ---------------------------------------------------------------- containers

  datatype Op =
    | Store(key: nat, value: nat)
    | Delete(key: nat)
    | Pop(key: nat)
    | SetDefault(key: nat, value: nat)
    | Clear
    | Add(value: nat)
    | Discard(value: nat)
    | Append(value: nat)
    | Update(entries: seq<(nat, nat)>)
    | Inherited(effect: Contents -> Contents)

  function Emptied(c: Contents): Contents {
    match c
    case Mapping(ordered, _) => Mapping(ordered, Empty())
    case Members(_) => Members({})
    case Items(_, bound) => Items([], bound)
  }

  /** What the plain container does; an operation it does not have does nothing. */
  function Effect(c: Contents, op: Op): Contents {
    match op
    case Store(k, v) => if c.Mapping? then c.(d := Put(c.d, k, v)) else c
    case Delete(k) => if c.Mapping? then c.(d := Remove(c.d, k)) else c
    case Pop(k) => if c.Mapping? && k in c.d.at then c.(d := Remove(c.d, k)) else c
    case SetDefault(k, v) => if c.Mapping? then c.(d := TrackedContainers.Defaulted(c.d, k, v)) else c
    case Clear => Emptied(c)
    case Add(v) => if c.Members? then Members(c.s + {v}) else c
    case Discard(v) => if c.Members? then Members(c.s - {v}) else c
    case Append(v) => if c.Items? then c.(items := TrackedContainers.BoundedAppend(c.items, c.bound, v)) else c
    case Update(entries) => if c.Mapping? then c.(d := TrackedContainers.Puts(c.d, entries)) else c
    case Inherited(effect) => effect(c)
  }

  /** How often a tracked container counts it. */
  function Counted(c: Contents, op: Op): nat {
    match op
    case Store(k, v) => if c.Mapping? && TrackedContainers.StoreCounts(c.d, k, v) then 1 else 0
    case Delete(_) => if c.Mapping? then 1 else 0
    case Pop(k) => if c.Mapping? && k in c.d.at then 1 else 0
    case SetDefault(k, _) => if c.Mapping? then TrackedContainers.DefaultCount(c.d, k, c.ordered) else 0
    case Clear => if c == Emptied(c) then 0 else 1
    case Add(v) => if c.Members? && TrackedContainers.AddCounts(c.s, v) then 1 else 0
    case Discard(v) => if c.Members? && TrackedContainers.DiscardCounts(c.s, v) then 1 else 0
    case Append(_) => if c.Items? then 1 else 0
    case Update(entries) => if c.Mapping? then TrackedContainers.UpdateCount(c.d, entries, c.ordered) else 0
    case Inherited(_) => 1
  }

  /** What each operation does to the kind of container that has it, and that every other kind ignores it. */
  lemma EffectsAre(c: Contents, op: Op)
    requires !op.Inherited?
    ensures var r := Effect(c, op);
            match c
            case Mapping(ordered, d) =>
              && r.Mapping? && r.ordered == ordered
              && (match op
                  case Store(k, v) => r.d.at == d.at[k := v]
                  case Delete(k) => r.d.at == d.at - {k}
                  case Pop(k) => r.d.at == d.at - {k}
                  case SetDefault(k, v) => r.d.at == if k in d.at then d.at else d.at[k := v]
                  case Clear => r.d.at == map[] && r.d.order == []
                  case Update(entries) =>
                    && (forall k :: k in r.d.at <==> k in d.at || exists i :: 0 <= i < |entries| && entries[i].0 == k)
                    && (forall i :: 0 <= i < |entries| && LastFor(entries, entries[i].0, i) ==>
                          r.d.at[entries[i].0] == entries[i].1)
                  case _ => r == c)
            case Members(s) =>
              && r.Members?
              && r.s == (match op case Add(v) => s + {v} case Discard(v) => s - {v} case Clear => {} case _ => s)
            case Items(items, bound) =>
              && r.Items? && r.bound == bound
              && (match op
                  case Append(v) =>
                    if bound.None? || |items| < bound.value then r.items == items + [v]
                    else |items| == bound.value ==> r.items == (items + [v])[1..]
                  case Clear => r.items == []
                  case _ => r == c)
  {
    match op
    case Update(entries) => if c.Mapping? { forall k { PutsHold(c.d, entries, k); } }
    case Pop(k) => if c.Mapping? && k !in c.d.at { assert c.d.at - {k} == c.d.at; }
    case _ =>
  }

  /** The entry is of this key and no later one is. */
  predicate LastFor(entries: seq<(nat, nat)>, k: nat, i: nat)
    requires i < |entries|
  {
    entries[i].0 == k && forall j :: i < j < |entries| ==> entries[j].0 != k
  }

  lemma {:induction false} PutsHold(d: Dict<nat, nat>, entries: seq<(nat, nat)>, k: nat)
    ensures k in TrackedContainers.Puts(d, entries).at
            <==> k in d.at || exists i :: 0 <= i < |entries| && entries[i].0 == k
    ensures forall i :: 0 <= i < |entries| && LastFor(entries, k, i) ==>
              k in TrackedContainers.Puts(d, entries).at && TrackedContainers.Puts(d, entries).at[k] == entries[i].1
    decreases |entries|
  {
    if entries != [] {
      var rest := entries[1..];
      PutsHold(Put(d, entries[0].0, entries[0].1), rest, k);
      if i :| 0 <= i < |rest| && rest[i].0 == k { assert entries[i + 1].0 == k; }
      if i :| 0 < i < |entries| && entries[i].0 == k { assert rest[i - 1].0 == k; }
      forall i | 0 <= i < |entries| && LastFor(entries, k, i)
        ensures k in TrackedContainers.Puts(d, entries).at && TrackedContainers.Puts(d, entries).at[k] == entries[i].1
      {
        if i == 0 {
          forall j | 0 <= j < |rest| ensures rest[j].0 != k { assert entries[j + 1].0 != k; }
          TrackedContainers.PutsLeaveOthers(Put(d, entries[0].0, entries[0].1), rest, k);
        } else {
          assert LastFor(rest, k, i - 1);
        }
      }
    }
  }

  /** What is not counted leaves the container identical, order included. */
  lemma UncountedIsIdentity(c: Contents, op: Op)
    requires Counted(c, op) == 0
    ensures Effect(c, op) == c
  {
    match op
    case Store(k, v) => if c.Mapping? { assert c.d.at[k := v] == c.d.at; }
    case Add(v) => if c.Members? { assert c.s + {v} == c.s; }
    case Discard(v) => if c.Members? { assert c.s - {v} == c.s; }
    case _ =>
  }

  lemma Longer(items: seq<nat>, v: nat)
    ensures items + [v] != items
  {
    assert |items + [v]| == |items| + 1;
  }

  /** What leaves the container as it is is not counted either, but for the operations that count whatever they do: a
      deletion, an update and those inherited. */
  lemma NothingDoneIsNotCounted(c: Contents, op: Op)
    requires !op.Delete? && !op.Update? && !op.Inherited? && Effect(c, op) == c
    requires (c.Mapping? ==> Ordered(c.d)) && (c.Items? ==> c.bound.None?)
    ensures Counted(c, op) == 0
  {
    match op
    case Store(k, v) => if c.Mapping? { assert Put(c.d, k, v).at[k] == v && k in Put(c.d, k, v).at; }
    case Pop(k) => if c.Mapping? { assert k !in Remove(c.d, k).at; }
    case SetDefault(k, v) => if c.Mapping? { assert k in TrackedContainers.Defaulted(c.d, k, v).at; }
    case Append(v) => if c.Items? { Longer(c.items, v); }
    case Add(v) => if c.Members? { assert v in Effect(c, op).s; }
    case Discard(v) => if c.Members? { assert v !in Effect(c, op).s; }
    case Clear =>
  }

  /** Those count once on the kind that has them. */
  lemma AlwaysCounted(c: Contents, k: nat)
    ensures Counted(c, Delete(k)) == if c.Mapping? then 1 else 0
    ensures forall entries :: Counted(c, Update(entries)) >= if c.Mapping? then 1 else 0
  {
  }

  function Mutate(w: World, t: nat, op: Op): World {
    if t !in w.objects then w
    else
      match w.objects[t]
      case Plain(c) => w.(objects := w.objects[t := Plain(Effect(c, op))])
      case Tracked(c, clock) =>
        Advance(w.(objects := w.objects[t := Tracked(Effect(c, op), clock)]), clock, Counted(c, op))
      case _ => w
  }

  /** An operation on a container changes that container; a tracked one moves its clock by what it counts, and nothing
      else in the world is touched. */
  lemma MutateTouches(w: World, t: nat, op: Op)
    requires t in w.objects && (w.objects[t].Plain? || w.objects[t].Tracked?)
    ensures var r, o := Mutate(w, t, op), w.objects[t];
            && r.next == w.next && r.objects.Keys == w.objects.Keys
            && (forall id :: id in w.objects && id != t ==> r.objects[id] == w.objects[id])
            && (o.Plain? ==> r.objects[t] == Plain(Effect(o.contents, op)) && r.ticks == w.ticks)
            && (o.Tracked? ==>
                  && r.objects[t] == Tracked(Effect(o.contents, op), o.clock)
                  && forall c :: Ticks(r, c) == Ticks(w, c) + if c == o.clock then Counted(o.contents, op) else 0)
  {
  }

  // ---------------------------------------------------------------- adopting a clock

  /** The tracked copy: a deque's bound is lost, an ordered mapping counts every entry it is seeded with. */
  function Copied(c: Contents): Contents { if c.Items? then c.(bound := None) else c }

  function SeedTicks(c: Contents): nat { if c.Mapping? && c.ordered then |c.d.order| else 0 }

  datatype Binding = Binding(world: World, value: nat)

  function StoreAttr(w: World, s: nat, name: string, v: nat): World
    requires s in w.objects && w.objects[s].State?
  {
    w.(objects := w.objects[s := w.objects[s].(attrs := Put(w.objects[s].attrs, name, v))])
  }

  /** The attributes as they stand when the loop over them starts. */
  function Snapshot(attrs: Dict<string, nat>): (r: seq<(string, nat)>)
    ensures |r| <= |attrs.order|
    ensures forall k :: 0 <= k < |r| ==> r[k].0 in attrs.at && attrs.at[r[k].0] == r[k].1
  {
    SnapshotFrom(attrs, 0)
  }

  function SnapshotFrom(attrs: Dict<string, nat>, from: nat): (r: seq<(string, nat)>)
    requires from <= |attrs.order|
    ensures |r| <= |attrs.order| - from
    ensures forall k :: 0 <= k < |r| ==> r[k].0 in attrs.at && attrs.at[r[k].0] == r[k].1
    decreases |attrs.order| - from
  {
    if from == |attrs.order| then []
    else
      var rest := SnapshotFrom(attrs, from + 1);
      var name := attrs.order[from];
      if name in attrs.at then [(name, attrs.at[name])] + rest else rest
  }

  predicate IsState(w: World, s: nat) { s in w.objects && w.objects[s].State? }

  function Adopted(w: World, s: nat, c: nat): World
    requires IsState(w, s)
  {
    w.(objects := w.objects[s := w.objects[s].(owner := Some(c))])
  }

  function Kept(b: Binding, s: nat, name: string, v: nat): World
    requires IsState(b.world, s)
  {
    if b.value != v then StoreAttr(b.world, s, name, b.value) else b.world
  }

  /** `track_mutable`; nothing where the nesting exceeds `depth`, as any cycle of owners does. */
  function TrackMutable(w: World, v: nat, c: nat, depth: nat): (r: Option<Binding>)
    ensures r.Some? ==> forall s :: IsState(w, s) ==> IsState(r.value.world, s)
    decreases depth, 1
  {
    if v !in w.objects then Some(Binding(w, v))
    else
      match w.objects[v]
      case Plain(contents) =>
        if w.next in w.objects then None
        else
          var seeded := Advance(w, c, SeedTicks(contents));
          Some(Binding(World(seeded.objects[w.next := Tracked(Copied(contents), c)], seeded.ticks, w.next + 1), w.next))
      case Tracked(contents, _) => Some(Binding(w.(objects := w.objects[v := Tracked(contents, c)]), v))
      case State(_, _) =>
        var r := Attach(w, v, c, depth);
        if r.None? then None else Some(Binding(r.value, v))
      case Opaque => Some(Binding(w, v))
  }

  /** `attach_mutation_clock`. */
  function Attach(w: World, s: nat, c: nat, depth: nat): (r: Option<World>)
    requires IsState(w, s)
    ensures r.Some? ==> forall t :: IsState(w, t) ==> IsState(r.value, t)
    decreases depth, 0
  {
    if depth == 0 then None
    else
      BindFrom(Adopted(w, s, c), s, Snapshot(w.objects[s].attrs), c, depth - 1)
  }

  /** The loop of `bind_existing_state`. */
  function BindFrom(w: World, s: nat, pairs: seq<(string, nat)>, c: nat, depth: nat): (r: Option<World>)
    requires IsState(w, s)
    ensures r.Some? ==> forall t :: IsState(w, t) ==> IsState(r.value, t)
    decreases depth, 2, |pairs|
  {
    if pairs == [] then Some(w)
    else
      var bound := TrackMutable(w, pairs[0].1, c, depth);
      if bound.None? then None
      else
        BindFrom(Kept(bound.value, s, pairs[0].0, pairs[0].1), s, pairs[1..], c, depth)
  }

  /** `ClockedState.__setattr__`. */
  function SetAttr(w: World, s: nat, name: string, v: nat, depth: nat): Option<World>
    requires IsState(w, s)
  {
    var o := w.objects[s];
    if o.owner.None? then Some(StoreAttr(w, s, name, v))
    else if name in o.attrs.at && o.attrs.at[name] == v then Some(w)
    else
      var counted := Advance(w, o.owner.value, 1);
      assert IsState(counted, s);
      var bound := TrackMutable(counted, v, o.owner.value, depth);
      if bound.None? then None else Some(StoreAttr(bound.value.world, s, name, bound.value.value))
  }

  // ---------------------------------------------------------------- what adopting a clock leaves behind

  ghost predicate Valid(w: World) {
    && (forall id :: id in w.objects ==> id < w.next)
    && (forall s: nat :: IsState(w, s) ==> Ordered(w.objects[s].attrs) && Known(w, s))
  }

  /** Every attribute holds an object that exists. */
  ghost predicate Known(w: World, s: nat)
    requires IsState(w, s)
  {
    forall name :: name in w.objects[s].attrs.at ==> w.objects[s].attrs.at[name] in w.objects
  }

  /** A value an owner on clock `c` may hold: a container that counts on `c`, an object on `c`, or neither. */
  predicate GoodValue(w: World, c: nat, v: nat) {
    v in w.objects
    && match w.objects[v]
       case Plain(_) => false
       case Tracked(_, clock) => clock == c
       case State(_, owner) => owner == Some(c)
       case Opaque => true
  }

  predicate TrackedOn(w: World, c: nat, v: nat) { v in w.objects && w.objects[v].Tracked? && w.objects[v].clock == c }

  ghost predicate GoodAttrs(w: World, c: nat, s: nat) {
    IsState(w, s) && forall name :: name in w.objects[s].attrs.at ==> GoodValue(w, c, w.objects[s].attrs.at[name])
  }

  predicate Owned(w: World, c: nat, s: nat) { IsState(w, s) && w.objects[s].owner == Some(c) }

  /** Everything an object on clock `c` holds is bound to `c`. */
  ghost predicate Closed(w: World, c: nat) { forall s: nat :: Owned(w, c, s) ==> GoodAttrs(w, c, s) }

  predicate IsPlain(w: World, v: nat) { v in w.objects && w.objects[v].Plain? }

  /** What may become of one object while others adopt `c`: an attribute is replaced only where it held a
      container not yet tracked, or one made meanwhile, from `base` on. */
  ghost predicate BetterObject(base: nat, w: World, c: nat, o: Object, p: Object) {
    match o
    case Plain(_) => p == o
    case Tracked(contents, clock) => p.Tracked? && p.contents == contents && (p.clock == clock || p.clock == c)
    case State(attrs, owner) =>
      && p.State? && (p.owner == owner || p.owner == Some(c)) && p.attrs.order == attrs.order
      && p.attrs.at.Keys == attrs.at.Keys
      && forall name :: name in attrs.at ==> Rebound(base, w, c, attrs.at[name], p.attrs.at[name])
    case Opaque => p == o
  }

  predicate Rebound(base: nat, w: World, c: nat, before: nat, after: nat) {
    after == before || (TrackedOn(w, c, after) && after >= base && (before >= base || IsPlain(w, before)))
  }

  ghost predicate ImprovesFrom(base: nat, w: World, c: nat, r: World) {
    && w.next <= r.next
    && (forall id :: id in w.objects ==> id in r.objects && BetterObject(base, r, c, w.objects[id], r.objects[id]))
    && (forall id :: id in r.objects && id !in w.objects ==> r.objects[id].Tracked? && r.objects[id].clock == c)
    && Ticks(w, c) <= Ticks(r, c)
  }

  ghost predicate Improves(w: World, c: nat, r: World) { ImprovesFrom(w.next, w, c, r) }

  /** No object is left on clock `c` with something unbound that was not so before, `s` apart. */
  ghost predicate NoneOpened(w: World, c: nat, r: World, s: Option<nat>) {
    forall t: nat :: Owned(r, c, t) && !GoodAttrs(r, c, t) ==> (Owned(w, c, t) && !GoodAttrs(w, c, t)) || s == Some(t)
  }

  lemma BetterTwice(base: nat, r: World, c: nat, q: World, o: Object, p: Object, u: Object)
    requires ImprovesFrom(base, r, c, q) && BetterObject(base, r, c, o, p) && BetterObject(base, q, c, p, u)
    ensures BetterObject(base, q, c, o, u)
  {
    if o.State? {
      forall name | name in o.attrs.at ensures Rebound(base, q, c, o.attrs.at[name], u.attrs.at[name]) {
        assert name in p.attrs.at.Keys;
        assert Rebound(base, r, c, o.attrs.at[name], p.attrs.at[name]);
        assert Rebound(base, q, c, p.attrs.at[name], u.attrs.at[name]);
      }
    }
  }

  lemma ImprovesTwice(base: nat, w: World, c: nat, r: World, q: World)
    requires ImprovesFrom(base, w, c, r) && ImprovesFrom(base, r, c, q)
    ensures ImprovesFrom(base, w, c, q)
  {
    forall id | id in w.objects ensures id in q.objects && BetterObject(base, q, c, w.objects[id], q.objects[id]) {
      BetterTwice(base, r, c, q, w.objects[id], r.objects[id], q.objects[id]);
    }
    forall id | id in q.objects && id !in w.objects ensures q.objects[id].Tracked? && q.objects[id].clock == c {
      if id in r.objects { assert BetterObject(base, q, c, r.objects[id], q.objects[id]); }
    }
  }

  /** What is made later is made meanwhile. */
  lemma ImprovesEarlier(base: nat, later: nat, w: World, c: nat, r: World)
    requires base <= later && ImprovesFrom(later, w, c, r)
    ensures ImprovesFrom(base, w, c, r)
  {
    forall id | id in w.objects ensures BetterObject(base, r, c, w.objects[id], r.objects[id]) {
      assert BetterObject(later, r, c, w.objects[id], r.objects[id]);
    }
  }

  /** A tracked container made in place of one that was not tracked. */
  predicate Fresh(w: World, v: nat, c: nat, b: Binding) {
    TrackedOn(b.world, c, b.value) && b.value >= w.next && IsPlain(w, v)
  }

  /** Tracking one container, or re-pointing one, improves the world and opens nothing. */
  lemma TrackContainer(w: World, c: nat, v: nat, depth: nat)
    requires Valid(w) && v in w.objects && !w.objects[v].State?
    ensures TrackMutable(w, v, c, depth).Some?
    ensures var b := TrackMutable(w, v, c, depth).value;
            && Valid(b.world) && Improves(w, c, b.world) && NoneOpened(w, c, b.world, None)
            && GoodValue(b.world, c, b.value)
            && (b.value != v ==> Fresh(w, v, c, b))
            && (forall s :: IsState(w, s) ==> b.world.objects[s] == w.objects[s])
  {
    var r := TrackMutable(w, v, c, depth).value.world;
    forall id | id in w.objects ensures BetterObject(w.next, r, c, w.objects[id], r.objects[id]) {}
    assert Improves(w, c, r);
    forall t: nat | Owned(r, c, t) && !GoodAttrs(r, c, t) ensures Owned(w, c, t) && !GoodAttrs(w, c, t) {
      assert r.objects[t] == w.objects[t];
    }
  }

  /** The tracked copy of a container holds what that holds, without the bound of a deque, under a new name; an ordered
      mapping counts every entry it is seeded with. */
  lemma TrackCopies(w: World, c: nat, v: nat, depth: nat)
    requires Valid(w) && v in w.objects && w.objects[v].Plain?
    ensures TrackMutable(w, v, c, depth).Some?
    ensures var b, held := TrackMutable(w, v, c, depth).value, w.objects[v].contents;
            && b.value == w.next && b.value in b.world.objects
            && b.world.objects[b.value] == Tracked(match held
                                                   case Items(items, _) => Items(items, None)
                                                   case _ => held, c)
            && Ticks(b.world, c) == Ticks(w, c) + (if held.Mapping? && held.ordered then |held.d.order| else 0)
            && (forall id :: id in w.objects ==> id in b.world.objects && b.world.objects[id] == w.objects[id])
  {
  }

  /** Storing a new tracked container in place of one that was not tracked, or is new too, improves the world. */
  lemma StoreGood(base: nat, w: World, c: nat, s: nat, name: string, v: nat)
    requires Valid(w) && IsState(w, s) && name in w.objects[s].attrs.at
    requires Rebound(base, w, c, w.objects[s].attrs.at[name], v) && TrackedOn(w, c, v)
    ensures var r := StoreAttr(w, s, name, v);
            && Valid(r) && ImprovesFrom(base, w, c, r) && NoneOpened(w, c, r, None)
            && r.objects[s].attrs.at[name] == v
  {
    var r := StoreAttr(w, s, name, v);
    assert forall x: nat :: GoodValue(r, c, x) <==> GoodValue(w, c, x);
    forall id | id in w.objects ensures BetterObject(base, r, c, w.objects[id], r.objects[id]) {
      if id == s { assert r.objects[s].attrs.at.Keys == w.objects[s].attrs.at.Keys; }
    }
    forall t: nat | Owned(r, c, t) && !GoodAttrs(r, c, t) ensures Owned(w, c, t) && !GoodAttrs(w, c, t) {
    }
  }

  /** Every attribute in the list still is what the list says, or has been bound meanwhile. */
  ghost predicate Pending(base: nat, w: World, c: nat, s: nat, pairs: seq<(string, nat)>) {
    IsState(w, s)
    && forall k :: 0 <= k < |pairs| ==>
         pairs[k].0 in w.objects[s].attrs.at && pairs[k].1 in w.objects
         && Awaiting(base, w, c, pairs[k].1, w.objects[s].attrs.at[pairs[k].0])
  }

  predicate Awaiting(base: nat, w: World, c: nat, listed: nat, held: nat) {
    held == listed || (TrackedOn(w, c, held) && held >= base)
  }

  ghost predicate Settled(w: World, c: nat, s: nat, pairs: seq<(string, nat)>) {
    IsState(w, s)
    && forall k :: 0 <= k < |pairs| ==>
         pairs[k].0 in w.objects[s].attrs.at && GoodValue(w, c, w.objects[s].attrs.at[pairs[k].0])
  }

  lemma PendingStays(base: nat, w: World, c: nat, r: World, s: nat, pairs: seq<(string, nat)>)
    requires ImprovesFrom(base, w, c, r) && Pending(base, w, c, s, pairs)
    ensures Pending(base, r, c, s, pairs)
  {
    assert BetterObject(base, r, c, w.objects[s], r.objects[s]);
    forall k | 0 <= k < |pairs|
      ensures pairs[k].0 in r.objects[s].attrs.at && pairs[k].1 in r.objects
              && Awaiting(base, r, c, pairs[k].1, r.objects[s].attrs.at[pairs[k].0])
    {
      var name := pairs[k].0;
      assert name in w.objects[s].attrs.at.Keys;
      var held := w.objects[s].attrs.at[name];
      assert Rebound(base, r, c, held, r.objects[s].attrs.at[name]);
      if held in w.objects { assert BetterObject(base, r, c, w.objects[held], r.objects[held]); }
    }
  }

  lemma AttrStays(base: nat, w: World, c: nat, r: World, s: nat, name: string)
    requires ImprovesFrom(base, w, c, r) && IsState(w, s)
    requires name in w.objects[s].attrs.at && GoodValue(w, c, w.objects[s].attrs.at[name])
    ensures IsState(r, s) && name in r.objects[s].attrs.at && GoodValue(r, c, r.objects[s].attrs.at[name])
  {
    assert BetterObject(base, r, c, w.objects[s], r.objects[s]);
    assert name in w.objects[s].attrs.at.Keys;
    var held := w.objects[s].attrs.at[name];
    assert BetterObject(base, r, c, w.objects[held], r.objects[held]);
  }

  lemma AdoptImproves(w: World, s: nat, c: nat)
    requires Valid(w) && IsState(w, s)
    ensures var r := Adopted(w, s, c);
            Valid(r) && Improves(w, c, r) && NoneOpened(w, c, r, Some(s)) && Owned(r, c, s)
            && Pending(w.next, r, c, s, Snapshot(w.objects[s].attrs))
  {
    var r := Adopted(w, s, c);
    forall id | id in w.objects ensures BetterObject(w.next, r, c, w.objects[id], r.objects[id]) {}
    assert Improves(w, c, r);
    forall t: nat | Owned(r, c, t) && !GoodAttrs(r, c, t) && t != s ensures Owned(w, c, t) && !GoodAttrs(w, c, t) {
    }
  }

  lemma {:induction false} SnapshotCovers(attrs: Dict<string, nat>, from: nat, k: nat) returns (j: nat)
    requires from <= k < |attrs.order| && attrs.order[k] in attrs.at
    ensures var r := SnapshotFrom(attrs, from); j < |r| && r[j].0 == attrs.order[k]
    decreases |attrs.order| - from
  {
    if k == from {
      j := 0;
    } else {
      var inner := SnapshotCovers(attrs, from + 1, k);
      j := if attrs.order[from] in attrs.at then inner + 1 else inner;
    }
  }

  /** Once every attribute of the snapshot is bound, the object holds nothing unbound. */
  lemma AllSettled(w: World, c: nat, s: nat, r: World)
    requires Valid(w) && IsState(w, s) && Improves(w, c, r) && Settled(r, c, s, Snapshot(w.objects[s].attrs))
    ensures GoodAttrs(r, c, s)
  {
    assert BetterObject(w.next, r, c, w.objects[s], r.objects[s]);
    var attrs := w.objects[s].attrs;
    forall name | name in r.objects[s].attrs.at ensures GoodValue(r, c, r.objects[s].attrs.at[name]) {
      assert name in r.objects[s].attrs.at.Keys && name in attrs.order;
      var k :| 0 <= k < |attrs.order| && attrs.order[k] == name;
      var j := SnapshotCovers(attrs, 0, k);
    }
  }

  /** Binding any value, when the nesting allows, leaves it bound, improves the world and opens nothing. */
  lemma {:induction false} TrackBinds(w: World, v: nat, c: nat, depth: nat)
    requires Valid(w) && v in w.objects && TrackMutable(w, v, c, depth).Some?
    ensures var b := TrackMutable(w, v, c, depth).value;
            && Valid(b.world) && Improves(w, c, b.world) && NoneOpened(w, c, b.world, None)
            && GoodValue(b.world, c, b.value)
            && (b.value != v ==> Fresh(w, v, c, b))
    decreases depth, 1
  {
    if w.objects[v].State? {
      AttachBinds(w, v, c, depth);
    } else {
      TrackContainer(w, c, v, depth);
    }
  }

  lemma {:induction false} AttachBinds(w: World, s: nat, c: nat, depth: nat)
    requires Valid(w) && IsState(w, s) && Attach(w, s, c, depth).Some?
    ensures var r := Attach(w, s, c, depth).value;
            Valid(r) && Improves(w, c, r) && NoneOpened(w, c, r, None) && Owned(r, c, s) && GoodAttrs(r, c, s)
    decreases depth, 0
  {
    var first := Adopted(w, s, c);
    var pairs := Snapshot(w.objects[s].attrs);
    AdoptImproves(w, s, c);
    BindBinds(w.next, first, s, pairs, c, depth - 1);
    var r := Attach(w, s, c, depth).value;
    ImprovesTwice(w.next, w, c, first, r);
    AllSettled(w, c, s, r);
  }

  /** One round of the loop: the bound value is stored if it is another object. */
  lemma KeepBinds(base: nat, w: World, s: nat, pairs: seq<(string, nat)>, c: nat, b: Binding)
    requires pairs != [] && Owned(w, c, s) && Pending(base, w, c, s, pairs) && base <= w.next
    requires Valid(b.world) && Improves(w, c, b.world) && NoneOpened(w, c, b.world, None)
    requires GoodValue(b.world, c, b.value) && (b.value != pairs[0].1 ==> Fresh(w, pairs[0].1, c, b))
    ensures IsState(b.world, s)
    ensures var r := Kept(b, s, pairs[0].0, pairs[0].1);
            && Valid(r) && ImprovesFrom(base, w, c, r) && NoneOpened(w, c, r, None) && Owned(r, c, s)
            && Pending(base, r, c, s, pairs) && GoodValue(r, c, r.objects[s].attrs.at[pairs[0].0])
  {
    ImprovesEarlier(base, w.next, w, c, b.world);
    assert BetterObject(base, b.world, c, w.objects[s], b.world.objects[s]);
    PendingStays(base, w, c, b.world, s, pairs);
    var held := b.world.objects[s].attrs.at[pairs[0].0];
    assert Awaiting(base, b.world, c, pairs[0].1, held);
    if b.value != pairs[0].1 {
      assert BetterObject(base, b.world, c, w.objects[pairs[0].1], b.world.objects[pairs[0].1]);
      var r := Kept(b, s, pairs[0].0, pairs[0].1);
      StoreGood(base, b.world, c, s, pairs[0].0, b.value);
      ImprovesTwice(base, w, c, b.world, r);
      PendingStays(base, b.world, c, r, s, pairs);
    }
  }

  lemma SettledFromHead(r: World, c: nat, s: nat, pairs: seq<(string, nat)>)
    requires pairs != [] && Settled(r, c, s, pairs[1..])
    requires pairs[0].0 in r.objects[s].attrs.at && GoodValue(r, c, r.objects[s].attrs.at[pairs[0].0])
    ensures Settled(r, c, s, pairs)
  {
    forall k | 0 <= k < |pairs|
      ensures pairs[k].0 in r.objects[s].attrs.at && GoodValue(r, c, r.objects[s].attrs.at[pairs[k].0])
    {
      if k > 0 { assert pairs[k] == pairs[1..][k - 1]; }
    }
  }

  lemma PendingTail(base: nat, w: World, c: nat, s: nat, pairs: seq<(string, nat)>)
    requires pairs != [] && Pending(base, w, c, s, pairs)
    ensures Pending(base, w, c, s, pairs[1..])
  {
  }

  lemma {:induction false} BindBinds(base: nat, w: World, s: nat, pairs: seq<(string, nat)>, c: nat, depth: nat)
    requires Valid(w) && Owned(w, c, s) && Pending(base, w, c, s, pairs) && base <= w.next
    requires BindFrom(w, s, pairs, c, depth).Some?
    ensures var r := BindFrom(w, s, pairs, c, depth).value;
            Valid(r) && ImprovesFrom(base, w, c, r) && NoneOpened(w, c, r, None) && Settled(r, c, s, pairs)
    decreases depth, 2, |pairs|
  {
    if pairs == [] {
    } else {
      var b := TrackMutable(w, pairs[0].1, c, depth).value;
      TrackBinds(w, pairs[0].1, c, depth);
      KeepBinds(base, w, s, pairs, c, b);
      var after := Kept(b, s, pairs[0].0, pairs[0].1);
      PendingTail(base, after, c, s, pairs);
      BindBinds(base, after, s, pairs[1..], c, depth);
      var r := BindFrom(w, s, pairs, c, depth).value;
      ImprovesTwice(base, w, c, after, r);
      AttrStays(base, after, c, r, s, pairs[0].0);
      SettledFromHead(r, c, s, pairs);
    }
  }

  // ---------------------------------------------------------------- when adopting completes

  /** `rank` falls along every attribute that leads from one object to another: there is no cycle of owners. */
  ghost predicate Ranked(w: World, rank: nat -> nat) {
    forall s: nat, name :: IsState(w, s) && name in w.objects[s].attrs.at && IsState(w, w.objects[s].attrs.at[name]) ==>
      rank(w.objects[s].attrs.at[name]) < rank(s)
  }

  lemma RankedStays(base: nat, w: World, c: nat, r: World, rank: nat -> nat)
    requires Valid(w) && Ranked(w, rank) && ImprovesFrom(base, w, c, r)
    ensures Ranked(r, rank)
  {
    forall s: nat, name | IsState(r, s) && name in r.objects[s].attrs.at && IsState(r, r.objects[s].attrs.at[name])
      ensures rank(r.objects[s].attrs.at[name]) < rank(s)
    {
      assert s in w.objects && BetterObject(base, r, c, w.objects[s], r.objects[s]);
      assert IsState(w, s) && Known(w, s) && name in w.objects[s].attrs.at.Keys;
      var v := r.objects[s].attrs.at[name];
      assert v == w.objects[s].attrs.at[name];
      assert BetterObject(base, r, c, w.objects[v], r.objects[v]);
    }
  }

  /** Every value still to be bound lies below `limit`. */
  ghost predicate Under(w: World, rank: nat -> nat, pairs: seq<(string, nat)>, limit: nat) {
    forall k :: 0 <= k < |pairs| ==> pairs[k].1 in w.objects && (IsState(w, pairs[k].1) ==> rank(pairs[k].1) < limit)
  }

  lemma UnderStays(base: nat, w: World, c: nat, r: World, rank: nat -> nat, pairs: seq<(string, nat)>, limit: nat)
    requires Under(w, rank, pairs, limit) && ImprovesFrom(base, w, c, r)
    ensures Under(r, rank, pairs, limit)
  {
    forall k | 0 <= k < |pairs|
      ensures pairs[k].1 in r.objects && (IsState(r, pairs[k].1) ==> rank(pairs[k].1) < limit)
    {
      assert BetterObject(base, r, c, w.objects[pairs[k].1], r.objects[pairs[k].1]);
    }
  }

  lemma ReadyToBind(w: World, s: nat, c: nat, rank: nat -> nat)
    requires Valid(w) && IsState(w, s) && Ranked(w, rank)
    ensures var first, pairs := Adopted(w, s, c), Snapshot(w.objects[s].attrs);
            Valid(first) && Owned(first, c, s) && Pending(w.next, first, c, s, pairs) && Ranked(first, rank)
            && Under(first, rank, pairs, rank(s))
  {
    AdoptImproves(w, s, c);
    RankedStays(w.next, w, c, Adopted(w, s, c), rank);
    UnderStays(w.next, w, c, Adopted(w, s, c), rank, Snapshot(w.objects[s].attrs), rank(s));
  }

  /** Without cycles of owners, adopting a clock completes at any depth above the rank. */
  lemma {:induction false} AttachCompletes(w: World, s: nat, c: nat, depth: nat, rank: nat -> nat)
    requires Valid(w) && IsState(w, s) && Ranked(w, rank) && rank(s) < depth
    ensures Attach(w, s, c, depth).Some?
    decreases depth, 0
  {
    ReadyToBind(w, s, c, rank);
    BindCompletes(w.next, Adopted(w, s, c), s, Snapshot(w.objects[s].attrs), c, depth - 1, rank, rank(s));
  }

  lemma {:induction false} BindCompletes(base: nat, w: World, s: nat, pairs: seq<(string, nat)>, c: nat, depth: nat,
                                         rank: nat -> nat, limit: nat)
    requires Valid(w) && Owned(w, c, s) && Pending(base, w, c, s, pairs) && base <= w.next
    requires Ranked(w, rank) && Under(w, rank, pairs, limit) && limit <= depth
    ensures BindFrom(w, s, pairs, c, depth).Some?
    decreases depth, 2, |pairs|
  {
    if pairs != [] {
      var v := pairs[0].1;
      if w.objects[v].State? {
        AttachCompletes(w, v, c, depth, rank);
      } else {
        TrackContainer(w, c, v, depth);
      }
      var b := TrackMutable(w, v, c, depth).value;
      TrackBinds(w, v, c, depth);
      KeepBinds(base, w, s, pairs, c, b);
      var after := Kept(b, s, pairs[0].0, v);
      RankedStays(base, w, c, after, rank);
      UnderStays(base, w, c, after, rank, pairs, limit);
      PendingTail(base, after, c, s, pairs);
      BindCompletes(base, after, s, pairs[1..], c, depth, rank, limit);
    }
  }
}
