/** Runs over a graph of clocked objects, on any number of clocks: a clock that did not move means nothing
    below its owner changed, as long as no other owner is handed what the clock watches. */
module ClockedRuns {
  import opened Prelude
  import opened OrderedDict
  import opened ClockedGraph
  import opened ClockedReach

  datatype Step = Assign(s: nat, name: string, v: nat, depth: nat) | Change(t: nat, op: Op)

  /** One step; an assignment to or of something that does not exist is none. */
  function Do(w: World, step: Step): Option<World> {
    match step
    case Assign(s, name, v, depth) => if IsState(w, s) && v in w.objects then SetAttr(w, s, name, v, depth) else Some(w)
    case Change(t, op) => Some(Mutate(w, t, op))
  }

  function Run(w: World, steps: seq<Step>): Option<World>
    decreases |steps|
  {
    if steps == [] then Some(w)
    else
      var r := Do(w, steps[0]);
      if r.None? then None else Run(r.value, steps[1..])
  }

  /** Everything an owner on `c` holds is bound to `c`; other objects may count on other clocks, or on none. */
  ghost predicate Good(w: World, c: nat) { Valid(w) && Closed(w, c) }

  /** The objects whose changes clock `c` is there to count, and those that cannot change. */
  predicate Watched(w: World, c: nat, id: nat) {
    id in w.objects
    && match w.objects[id]
       case Plain(_) => false
       case Tracked(_, clock) => clock == c
       case State(_, owner) => owner == Some(c)
       case Opaque => true
  }

  ghost predicate Unchanged(w: World, c: nat, r: World) {
    forall id: nat :: Watched(w, c, id) ==> id in r.objects && r.objects[id] == w.objects[id]
  }

  /** The clock did not go back, and if it did not move, nothing watched changed. */
  ghost predicate Tells(w: World, c: nat, r: World) {
    Ticks(r, c) >= Ticks(w, c) && (Ticks(r, c) == Ticks(w, c) ==> Unchanged(w, c, r))
  }

  // ---------------------------------------------------------------- one step

  lemma ChangeKeeps(w: World, c: nat, t: nat, op: Op)
    requires Good(w, c)
    ensures Good(Mutate(w, t, op), c) && Tells(w, c, Mutate(w, t, op))
  {
    var r := Mutate(w, t, op);
    if t in w.objects && w.objects[t].Tracked? && Counted(w.objects[t].contents, op) == 0 {
      UncountedIsIdentity(w.objects[t].contents, op);
    }
    SameShapeKeeps(w, c, t, r);
  }

  /** Replacing a container by one of the same kind on the same clock disturbs no binding. */
  lemma SameShapeKeeps(w: World, c: nat, t: nat, r: World)
    requires Good(w, c) && r.next == w.next
    requires r.objects == w.objects
             || (t in w.objects && t in r.objects && r.objects == w.objects[t := r.objects[t]]
                 && ((w.objects[t].Plain? && r.objects[t].Plain?)
                     || (w.objects[t].Tracked? && r.objects[t].Tracked? && w.objects[t].clock == r.objects[t].clock)))
    ensures Good(r, c)
  {
    forall s: nat | IsState(r, s) ensures r.objects[s] == w.objects[s] && IsState(w, s) {}
    forall v: nat ensures GoodValue(r, c, v) <==> GoodValue(w, c, v) {}
    forall s: nat | IsState(r, s) ensures Ordered(r.objects[s].attrs) && Known(r, s) { assert Known(w, s); }
    forall s: nat | Owned(r, c, s) ensures GoodAttrs(r, c, s) { assert Owned(w, c, s) && GoodAttrs(w, c, s); }
  }

  /** Storing an existing object leaves everything bound to `c`, if the value is or the object is not on `c`. */
  lemma StoreKeeps(w: World, c: nat, s: nat, name: string, v: nat)
    requires Good(w, c) && IsState(w, s) && v in w.objects && (Owned(w, c, s) ==> GoodValue(w, c, v))
    ensures Good(StoreAttr(w, s, name, v), c)
    ensures !Owned(w, c, s) ==> Unchanged(w, c, StoreAttr(w, s, name, v))
  {
    var r := StoreAttr(w, s, name, v);
    forall x: nat ensures GoodValue(r, c, x) <==> GoodValue(w, c, x) {}
    forall t: nat | IsState(r, t) ensures Ordered(r.objects[t].attrs) && Known(r, t) {
      assert IsState(w, t) && Known(w, t);
    }
    forall t: nat | Owned(r, c, t) ensures GoodAttrs(r, c, t) { assert Owned(w, c, t) && GoodAttrs(w, c, t); }
  }

  lemma CountingKeeps(w: World, c: nat, d: nat)
    requires Good(w, c)
    ensures Good(Advance(w, d, 1), c)
  {
    SameShapeKeeps(w, c, 0, Advance(w, d, 1));
  }

  /** A world improved by binding to `c` has nothing half-bound. */
  lemma ImprovedIsGood(w: World, c: nat, r: World)
    requires Good(w, c) && Valid(r) && NoneOpened(w, c, r, None)
    ensures Good(r, c)
  {
    forall s: nat | Owned(r, c, s) ensures GoodAttrs(r, c, s) {}
  }

  /** Already held: the store is skipped. */
  predicate Holds(w: World, s: nat, name: string, v: nat)
    requires IsState(w, s)
  {
    name in w.objects[s].attrs.at && w.objects[s].attrs.at[name] == v
  }

  /** An object that counts on another clock is given something it does not hold. */
  predicate Foreign(w: World, c: nat, s: nat, name: string, v: nat) {
    && IsState(w, s) && v in w.objects && w.objects[s].owner.Some? && w.objects[s].owner != Some(c)
    && !Holds(w, s, name, v)
  }

  /** Storing a different object on an owned object is counted, and leaves everything bound. */
  lemma AssignKeeps(w: World, c: nat, s: nat, name: string, v: nat, depth: nat)
    requires Good(w, c) && IsState(w, s) && v in w.objects && SetAttr(w, s, name, v, depth).Some?
    requires !Foreign(w, c, s, name, v)
    ensures var r := SetAttr(w, s, name, v, depth).value;
            && Good(r, c) && Tells(w, c, r)
            && (Owned(w, c, s) && !Holds(w, s, name, v) ==> Ticks(r, c) > Ticks(w, c))
            && (w.objects[s].owner.None? || Holds(w, s, name, v) ==> Ticks(r, c) == Ticks(w, c) && Unchanged(w, c, r))
  {
    if w.objects[s].owner.None? {
      StoreKeeps(w, c, s, name, v);
    } else if !Holds(w, s, name, v) {
      var counted := Advance(w, c, 1);
      CountingKeeps(w, c, c);
      var b := TrackMutable(counted, v, c, depth).value;
      TrackBinds(counted, v, c, depth);
      ImprovedIsGood(counted, c, b.world);
      assert BetterObject(counted.next, b.world, c, counted.objects[s], b.world.objects[s]);
      StoreKeeps(b.world, c, s, name, b.value);
    }
  }

  /** What a store leaves under the name. Without a clock it is the value, and nothing else in the world is touched;
      with one it is the value too, but for a container not yet tracked, whose tracked copy it is. */
  lemma AssignStores(w: World, s: nat, name: string, v: nat, depth: nat)
    requires Valid(w) && IsState(w, s) && v in w.objects && SetAttr(w, s, name, v, depth).Some?
    ensures var r, owner := SetAttr(w, s, name, v, depth).value, w.objects[s].owner;
            && IsState(r, s) && name in r.objects[s].attrs.at
            && var held := r.objects[s].attrs.at[name];
               && (owner.None? ==>
                     r == World(w.objects[s := State(Put(w.objects[s].attrs, name, v), None)], w.ticks, w.next))
               && (!w.objects[v].Plain? ==> held == v)
               && (w.objects[v].Plain? && owner.Some? && !Holds(w, s, name, v) ==>
                     held == w.next && held in r.objects
                     && r.objects[held] == Tracked(Copied(w.objects[v].contents), owner.value))
  {
    var owner := w.objects[s].owner;
    if owner.Some? && !Holds(w, s, name, v) && !w.objects[v].Plain? {
      var counted := Advance(w, owner.value, 1);
      forall t: nat | IsState(counted, t) ensures Known(counted, t) { assert IsState(w, t) && Known(w, t); }
      TrackBinds(counted, v, owner.value, depth);
    }
  }

  // ---------------------------------------------------------------- other owners

  /** From `v` something is reached that counts on `c`, or is an object on `c`. */
  ghost predicate Takes(w: World, c: nat, v: nat) { exists path :: Leads(w, c, v, path) }

  predicate Leads(w: World, c: nat, v: nat, path: seq<string>) {
    Follow(w, v, path).Some? && BoundTo(w, c, Follow(w, v, path).value)
  }

  ghost function Zone(w: World, v: nat): iset<nat> { iset id: nat | id >= w.next || Reached(w, v, id) }

  /** What is reached from a value, with everything yet to be made, is sealed. */
  lemma ZoneIsSealed(w: World, v: nat)
    requires Valid(w)
    ensures Sealed(w, Zone(w, v)) && v in Zone(w, v)
  {
    assert Follow(w, v, []) == Some(v);
    forall s: nat, name | IsState(w, s) && s in Zone(w, v) && name in w.objects[s].attrs.at
      ensures w.objects[s].attrs.at[name] in Zone(w, v)
    {
      var path :| Follow(w, v, path) == Some(s);
      FollowOn(w, v, path, name);
    }
  }

  /** Binding to another clock a zone with nothing of `c` in it keeps what `c` watches. */
  lemma OutsideKeeps(w: World, c: nat, d: nat, r: World, zone: iset<nat>)
    requires Good(w, c) && Valid(r) && d != c && Improves(w, d, r) && StaysInside(w, zone, d, r)
    requires forall id: nat :: BoundTo(w, c, id) ==> id !in zone
    ensures Good(r, c) && Unchanged(w, c, r) && Ticks(r, c) == Ticks(w, c)
  {
    forall id: nat | Watched(w, c, id) ensures id in r.objects && r.objects[id] == w.objects[id] {
      assert BetterObject(w.next, r, d, w.objects[id], r.objects[id]);
    }
    forall s: nat | Owned(r, c, s) ensures GoodAttrs(r, c, s) {
      assert s in w.objects && BetterObject(w.next, r, d, w.objects[s], r.objects[s]);
      assert Owned(w, c, s) && r.objects[s] == w.objects[s] && GoodAttrs(w, c, s);
      forall name | name in r.objects[s].attrs.at ensures GoodValue(r, c, r.objects[s].attrs.at[name]) {
        assert GoodValue(w, c, w.objects[s].attrs.at[name]) && Watched(w, c, w.objects[s].attrs.at[name]);
      }
    }
  }

  lemma {:induction false} FollowAdvanced(w: World, d: nat, v: nat, path: seq<string>)
    ensures Follow(Advance(w, d, 1), v, path) == Follow(w, v, path)
    decreases |path|
  {
    if path != [] && IsState(w, v) && path[0] in w.objects[v].attrs.at {
      FollowAdvanced(w, d, w.objects[v].attrs.at[path[0]], path[1..]);
    }
  }

  lemma TakesAdvanced(w: World, c: nat, d: nat, v: nat)
    requires Takes(Advance(w, d, 1), c, v)
    ensures Takes(w, c, v)
  {
    var path :| Leads(Advance(w, d, 1), c, v, path);
    FollowAdvanced(w, d, v, path);
    assert Leads(w, c, v, path);
  }

  /** Binding to another clock a value from which nothing of `c` is reached keeps what `c` watches. */
  lemma ForeignTrackKeeps(w: World, c: nat, d: nat, v: nat, depth: nat)
    requires Good(w, c) && d != c && v in w.objects && TrackMutable(w, v, d, depth).Some? && !Takes(w, c, v)
    ensures var r := TrackMutable(w, v, d, depth).value.world;
            Good(r, c) && Unchanged(w, c, r) && Ticks(r, c) == Ticks(w, c) && Improves(w, d, r)
    ensures var b := TrackMutable(w, v, d, depth).value; b.value in b.world.objects
  {
    ZoneIsSealed(w, v);
    forall id: nat | BoundTo(w, c, id) ensures id !in Zone(w, v) {
      if path :| Follow(w, v, path) == Some(id) { assert Leads(w, c, v, path); }
    }
    TrackBinds(w, v, d, depth);
    TrackStaysInside(w, v, d, depth, Zone(w, v));
    OutsideKeeps(w, c, d, TrackMutable(w, v, d, depth).value.world, Zone(w, v));
  }

  lemma ForeignKeeps(w: World, c: nat, s: nat, name: string, v: nat, depth: nat)
    requires Good(w, c) && Foreign(w, c, s, name, v) && SetAttr(w, s, name, v, depth).Some? && !Takes(w, c, v)
    ensures var r := SetAttr(w, s, name, v, depth).value; Good(r, c) && Tells(w, c, r)
  {
    var d := w.objects[s].owner.value;
    var counted := Advance(w, d, 1);
    CountingKeeps(w, c, d);
    if Takes(counted, c, v) { TakesAdvanced(w, c, d, v); }
    ForeignTrackKeeps(counted, c, d, v, depth);
    var b := TrackMutable(counted, v, d, depth).value;
    assert BetterObject(counted.next, b.world, d, counted.objects[s], b.world.objects[s]);
    StoreKeeps(b.world, c, s, name, b.value);
    StoreIsUnwatched(w, c, b.world, s, name, b.value);
  }

  lemma StoreIsUnwatched(w: World, c: nat, r: World, s: nat, name: string, v: nat)
    requires IsState(r, s) && Unchanged(w, c, r) && !Watched(w, c, s)
    ensures Unchanged(w, c, StoreAttr(r, s, name, v))
  {
  }

  /** Binding to another clock takes along everything of `c` that is reached, and leaves `c` unmoved. */
  lemma ForeignTrackBinds(w: World, c: nat, d: nat, v: nat, depth: nat, path: seq<string>)
    requires Valid(w) && d != c && v in w.objects && TrackMutable(w, v, d, depth).Some? && Leads(w, c, v, path)
    ensures var r := TrackMutable(w, v, d, depth).value.world;
            BoundTo(r, d, Follow(w, v, path).value) && Ticks(r, c) == Ticks(w, c)
  {
    TrackReaches(w, v, d, depth, path);
    ZoneIsSealed(w, v);
    TrackStaysInside(w, v, d, depth, Zone(w, v));
  }

  lemma ForeignBinds(w: World, c: nat, s: nat, name: string, v: nat, depth: nat, path: seq<string>)
    requires Good(w, c) && Foreign(w, c, s, name, v) && SetAttr(w, s, name, v, depth).Some? && Leads(w, c, v, path)
    ensures var r, id := SetAttr(w, s, name, v, depth).value, Follow(w, v, path).value;
            BoundTo(r, w.objects[s].owner.value, id) && Ticks(r, c) == Ticks(w, c)
  {
    var d := w.objects[s].owner.value;
    var counted := Advance(w, d, 1);
    CountingKeeps(w, c, d);
    FollowAdvanced(w, d, v, path);
    ForeignTrackBinds(counted, c, d, v, depth, path);
    var b := TrackMutable(counted, v, d, depth).value;
    assert IsState(b.world, s);
    assert SetAttr(w, s, name, v, depth) == Some(StoreAttr(b.world, s, name, b.value));
  }

  /** An assignment on an object of another clock leaves what `c` watches as it was exactly if nothing of `c`
      is reached from the value assigned. */
  lemma ForeignTellsExactlyIf(w: World, c: nat, s: nat, name: string, v: nat, depth: nat)
    requires Good(w, c) && Foreign(w, c, s, name, v) && SetAttr(w, s, name, v, depth).Some?
    ensures Tells(w, c, SetAttr(w, s, name, v, depth).value) <==> !Takes(w, c, v)
  {
    if Takes(w, c, v) {
      var path :| Leads(w, c, v, path);
      ForeignBinds(w, c, s, name, v, depth, path);
      assert Watched(w, c, Follow(w, v, path).value);
    } else {
      ForeignKeeps(w, c, s, name, v, depth);
    }
  }

  // ---------------------------------------------------------------- runs

  /** No other owner is handed anything from which something of `c` is reached. */
  ghost predicate KeepsOff(w: World, c: nat, step: Step) {
    step.Assign? && Foreign(w, c, step.s, step.name, step.v) ==> !Takes(w, c, step.v)
  }

  ghost predicate RunKeepsOff(w: World, c: nat, steps: seq<Step>)
    decreases |steps|
  {
    steps == []
    || (KeepsOff(w, c, steps[0]) && (Do(w, steps[0]).Some? ==> RunKeepsOff(Do(w, steps[0]).value, c, steps[1..])))
  }

  lemma StepTells(w: World, c: nat, step: Step)
    requires Good(w, c) && KeepsOff(w, c, step) && Do(w, step).Some?
    ensures Good(Do(w, step).value, c) && Tells(w, c, Do(w, step).value)
  {
    match step
    case Assign(s, name, v, depth) =>
      if IsState(w, s) && v in w.objects {
        if Foreign(w, c, s, name, v) {
          ForeignKeeps(w, c, s, name, v, depth);
        } else {
          AssignKeeps(w, c, s, name, v, depth);
        }
      }
    case Change(t, op) => ChangeKeeps(w, c, t, op);
  }

  lemma TellsTwice(w: World, c: nat, r: World, q: World)
    requires Tells(w, c, r) && Tells(r, c, q)
    ensures Tells(w, c, q)
  {
    if Ticks(q, c) == Ticks(w, c) {
      forall id: nat | Watched(w, c, id) ensures id in q.objects && q.objects[id] == w.objects[id] {
        assert id in r.objects && Watched(r, c, id);
      }
    }
  }

  /** Over every run in which other owners keep off, the clock never goes back, and where it has not moved
      nothing it watches has changed. */
  lemma {:induction false} RunTells(w: World, c: nat, steps: seq<Step>)
    requires Good(w, c) && RunKeepsOff(w, c, steps) && Run(w, steps).Some?
    ensures Good(Run(w, steps).value, c) && Tells(w, c, Run(w, steps).value)
    decreases |steps|
  {
    if steps != [] {
      var r := Do(w, steps[0]).value;
      StepTells(w, c, steps[0]);
      RunTells(r, c, steps[1..]);
      TellsTwice(w, c, r, Run(r, steps[1..]).value);
    }
  }

  // ---------------------------------------------------------------- what lies below an owner

  /** Everything below a bound object is watched: no container or owner is left out. */
  lemma {:induction false} BelowIsWatched(w: World, c: nat, root: nat, path: seq<string>)
    requires Closed(w, c) && Watched(w, c, root) && Follow(w, root, path).Some?
    ensures Watched(w, c, Follow(w, root, path).value)
    decreases |path|
  {
    if path != [] {
      assert Owned(w, c, root) && GoodAttrs(w, c, root);
      var next := w.objects[root].attrs.at[path[0]];
      assert GoodValue(w, c, next);
      BelowIsWatched(w, c, next, path[1..]);
    }
  }

  lemma {:induction false} BelowIsUnchanged(w: World, c: nat, r: World, root: nat, path: seq<string>)
    requires Closed(w, c) && Watched(w, c, root) && Unchanged(w, c, r) && Follow(w, root, path).Some?
    ensures Follow(r, root, path) == Follow(w, root, path)
    ensures var id := Follow(w, root, path).value; id in w.objects && id in r.objects && r.objects[id] == w.objects[id]
    decreases |path|
  {
    if path != [] {
      assert Owned(w, c, root) && GoodAttrs(w, c, root);
      var next := w.objects[root].attrs.at[path[0]];
      assert GoodValue(w, c, next);
      BelowIsUnchanged(w, c, r, next, path[1..]);
    }
  }

  /** From the moment an owner has adopted a clock: whatever run follows in which no other owner is handed what
      the clock watches, if the clock reads the same, every chain of attributes below the owner leads to the same
      object, with the same attributes or contents. */
  lemma NoChangeIsMissed(before: World, c: nat, root: nat, depth: nat, w: World, steps: seq<Step>, path: seq<string>)
    requires Good(before, c) && IsState(before, root) && Attach(before, root, c, depth) == Some(w)
    requires Run(w, steps).Some? && RunKeepsOff(w, c, steps)
    requires Ticks(Run(w, steps).value, c) == Ticks(w, c) && Follow(w, root, path).Some?
    ensures var r := Run(w, steps).value;
            var id := Follow(w, root, path).value;
            && Follow(r, root, path) == Some(id)
            && id in w.objects && id in r.objects && r.objects[id] == w.objects[id]
            && !w.objects[id].Plain?
  {
    AttachBinds(before, root, c, depth);
    ImprovedIsGood(before, c, w);
    RunTells(w, c, steps);
    BelowIsWatched(w, c, root, path);
    BelowIsUnchanged(w, c, Run(w, steps).value, root, path);
  }

  // ---------------------------------------------------------------- worlds with one clock

  ghost predicate OnlyClock(w: World, c: nat) {
    forall s: nat :: IsState(w, s) ==> w.objects[s].owner.None? || w.objects[s].owner == Some(c)
  }

  lemma OnlyClockImproved(w: World, c: nat, r: World)
    requires OnlyClock(w, c) && Improves(w, c, r)
    ensures OnlyClock(r, c)
  {
    forall s: nat | IsState(r, s) ensures r.objects[s].owner.None? || r.objects[s].owner == Some(c) {
      assert s in w.objects && BetterObject(w.next, r, c, w.objects[s], r.objects[s]);
      assert IsState(w, s);
    }
  }

  lemma OnlyClockStored(w: World, c: nat, s: nat, name: string, v: nat)
    requires OnlyClock(w, c) && IsState(w, s)
    ensures OnlyClock(StoreAttr(w, s, name, v), c)
  {
    var r := StoreAttr(w, s, name, v);
    forall t: nat | IsState(r, t) ensures r.objects[t].owner.None? || r.objects[t].owner == Some(c) {
      assert IsState(w, t);
    }
  }

  lemma OnlyClockAssigned(w: World, c: nat, s: nat, name: string, v: nat, depth: nat)
    requires Good(w, c) && OnlyClock(w, c) && IsState(w, s) && v in w.objects && SetAttr(w, s, name, v, depth).Some?
    ensures OnlyClock(SetAttr(w, s, name, v, depth).value, c)
  {
    if w.objects[s].owner.None? {
      OnlyClockStored(w, c, s, name, v);
    } else if !Holds(w, s, name, v) {
      var counted := Advance(w, c, 1);
      CountingKeeps(w, c, c);
      TrackBinds(counted, v, c, depth);
      assert OnlyClock(counted, c) by {
        forall t: nat | IsState(counted, t) ensures IsState(w, t) {}
      }
      var b := TrackMutable(counted, v, c, depth).value;
      OnlyClockImproved(counted, c, b.world);
      OnlyClockStored(b.world, c, s, name, b.value);
    }
  }

  lemma OnlyClockStays(w: World, c: nat, step: Step)
    requires Good(w, c) && OnlyClock(w, c) && Do(w, step).Some?
    ensures OnlyClock(Do(w, step).value, c)
  {
    match step
    case Assign(s, name, v, depth) =>
      if IsState(w, s) && v in w.objects { OnlyClockAssigned(w, c, s, name, v, depth); }
    case Change(t, op) =>
      forall s: nat | IsState(Mutate(w, t, op), s)
        ensures IsState(w, s) && Mutate(w, t, op).objects[s] == w.objects[s] {}
  }

  /** While no object counts on another clock, no other owner takes anything. */
  lemma {:induction false} OneClockKeepsOff(w: World, c: nat, steps: seq<Step>)
    requires Good(w, c) && OnlyClock(w, c)
    ensures RunKeepsOff(w, c, steps)
    decreases |steps|
  {
    if steps != [] {
      var step := steps[0];
      assert KeepsOff(w, c, step);
      if Do(w, step).Some? {
        StepTells(w, c, step);
        OnlyClockStays(w, c, step);
        OneClockKeepsOff(Do(w, step).value, c, steps[1..]);
      }
    }
  }

  // ---------------------------------------------------------------- a change that is missed

  /** `del obj.name`: deletion does not go through the counting store. */
  function DeleteAttr(w: World, s: nat, name: string): World
    requires IsState(w, s)
  {
    w.(objects := w.objects[s := w.objects[s].(attrs := Remove(w.objects[s].attrs, name))])
  }

  /** Deleting an attribute changes what is below an owner and moves no clock. */
  lemma DeletingIsNotCounted(w: World, c: nat, s: nat, name: string)
    requires Owned(w, c, s) && name in w.objects[s].attrs.at
    ensures Ticks(DeleteAttr(w, s, name), c) == Ticks(w, c)
    ensures Follow(w, s, [name]).Some? && Follow(DeleteAttr(w, s, name), s, [name]) == None
  {
    var path := [name];
    assert path[1..] == [] && path[0] == name;
    var next := w.objects[s].attrs.at[name];
    assert Follow(w, s, path) == Follow(w, next, path[1..]);
  }
}
