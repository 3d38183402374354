/** What is lost once another owner is handed something a clock watches: it stays below the first owner, and
    no change to it moves that clock. */
module ClockedHandover {
  import opened Prelude
  import opened OrderedDict
  import opened ClockedGraph
  import opened ClockedReach
  import opened ClockedRuns

  /** What objects on `c` hold under a name, they still hold. */
  ghost predicate HoldsOn(w: World, c: nat, r: World) {
    forall t: nat, name :: Owned(w, c, t) && name in w.objects[t].attrs.at ==>
      IsState(r, t) && name in r.objects[t].attrs.at && r.objects[t].attrs.at[name] == w.objects[t].attrs.at[name]
  }

  lemma {:induction false} StillBelow(w: World, c: nat, r: World, root: nat, path: seq<string>)
    requires Closed(w, c) && Watched(w, c, root) && HoldsOn(w, c, r) && Follow(w, root, path).Some?
    ensures Follow(r, root, path) == Follow(w, root, path)
    decreases |path|
  {
    if path != [] {
      assert Owned(w, c, root) && GoodAttrs(w, c, root);
      assert GoodValue(w, c, w.objects[root].attrs.at[path[0]]);
      StillBelow(w, c, r, w.objects[root].attrs.at[path[0]], path[1..]);
    }
  }

  lemma TrackHoldsOn(w: World, c: nat, d: nat, v: nat, depth: nat)
    requires Good(w, c) && v in w.objects && TrackMutable(w, v, d, depth).Some?
    ensures HoldsOn(w, c, TrackMutable(w, v, d, depth).value.world)
  {
    var q := TrackMutable(w, v, d, depth).value.world;
    TrackBinds(w, v, d, depth);
    forall t: nat, n | Owned(w, c, t) && n in w.objects[t].attrs.at
      ensures IsState(q, t) && n in q.objects[t].attrs.at && q.objects[t].attrs.at[n] == w.objects[t].attrs.at[n]
    {
      var held := w.objects[t].attrs.at[n];
      assert GoodAttrs(w, c, t) && GoodValue(w, c, held);
      assert BetterObject(w.next, q, d, w.objects[t], q.objects[t]);
      assert BetterObject(w.next, q, d, w.objects[held], q.objects[held]);
      assert Rebound(w.next, q, d, held, q.objects[t].attrs.at[n]);
    }
  }

  lemma ForeignHoldsOn(w: World, c: nat, s: nat, name: string, v: nat, depth: nat)
    requires Good(w, c) && Foreign(w, c, s, name, v) && SetAttr(w, s, name, v, depth).Some?
    ensures HoldsOn(w, c, SetAttr(w, s, name, v, depth).value)
  {
    var d := w.objects[s].owner.value;
    var counted := Advance(w, d, 1);
    CountingKeeps(w, c, d);
    TrackHoldsOn(counted, c, d, v, depth);
    var q := TrackMutable(counted, v, d, depth).value.world;
    forall t: nat | Owned(w, c, t) ensures Owned(counted, c, t) && t != s {}
  }

  lemma ForeignKeepsContents(w: World, c: nat, s: nat, name: string, v: nat, depth: nat, id: nat)
    requires Good(w, c) && Foreign(w, c, s, name, v) && SetAttr(w, s, name, v, depth).Some?
    requires id in w.objects && w.objects[id].Tracked?
    ensures var r := SetAttr(w, s, name, v, depth).value;
            id in r.objects && r.objects[id].Tracked? && r.objects[id].contents == w.objects[id].contents
  {
    var d := w.objects[s].owner.value;
    var counted := Advance(w, d, 1);
    CountingKeeps(w, c, d);
    TrackBinds(counted, v, d, depth);
    var q := TrackMutable(counted, v, d, depth).value.world;
    assert BetterObject(w.next, q, d, w.objects[id], q.objects[id]);
  }

  /** Once another owner is handed something from which a container of `c` is reached, the container stays below
      the owner on `c`, and no operation on it moves that clock, whatever it does to the contents. */
  lemma HandedOverIsMissed(w: World, c: nat, root: nat, below: seq<string>, s: nat, name: string, v: nat, depth: nat,
                           path: seq<string>, op: Op)
    requires Good(w, c) && Watched(w, c, root) && Foreign(w, c, s, name, v) && SetAttr(w, s, name, v, depth).Some?
    requires Leads(w, c, v, path) && Follow(w, root, below) == Follow(w, v, path)
    requires TrackedOn(w, c, Follow(w, v, path).value)
    ensures var r, id := SetAttr(w, s, name, v, depth).value, Follow(w, v, path).value;
            var q := Mutate(r, id, op);
            && Follow(q, root, below) == Some(id) && Ticks(q, c) == Ticks(w, c)
            && id in q.objects && q.objects[id].Tracked? && q.objects[id].contents == Effect(w.objects[id].contents, op)
  {
    var r, id := SetAttr(w, s, name, v, depth).value, Follow(w, v, path).value;
    ForeignBinds(w, c, s, name, v, depth, path);
    ForeignKeepsContents(w, c, s, name, v, depth, id);
    ForeignHoldsOn(w, c, s, name, v, depth);
    assert HoldsOn(w, c, Mutate(r, id, op)) by {
      forall t: nat, n | Owned(w, c, t) && n in w.objects[t].attrs.at
        ensures Mutate(r, id, op).objects[t] == r.objects[t]
      {
        assert IsState(r, t);
      }
    }
    StillBelow(w, c, Mutate(r, id, op), root, below);
  }

  /** An object on clock 0 that holds an empty list counted there, an object on clock 1 that holds nothing, and
      the list. */
  function TwoOwners(): World {
    var list := Tracked(Items([], None), 0);
    World(map[0 := State(Dict(["items"], map["items" := 2]), Some(0)), 1 := State(Dict([], map[]), Some(1)), 2 := list],
          map[], 3)
  }

  lemma TwoOwnersAreGood()
    ensures Good(TwoOwners(), 0)
  {
    var w := TwoOwners();
    assert w.objects[0].attrs.order[0] == "items";
    assert Ordered(w.objects[0].attrs) && Ordered(w.objects[1].attrs);
    assert Known(w, 0) && Known(w, 1) && GoodAttrs(w, 0, 0);
  }

  /** Such a world: once the second owner is handed the list, an item appended to it shows below the first owner
      and moves the second owner's clock alone. */
  lemma SharedListIsMissed()
    ensures var w := TwoOwners();
            Good(w, 0) && SetAttr(w, 1, "shared", 2, 0).Some?
            && var r := SetAttr(w, 1, "shared", 2, 0).value;
               var q := Mutate(r, 2, Append(7));
               && Follow(q, 0, ["items"]) == Some(2)
               && q.objects[2].Tracked? && q.objects[2].contents == Items([7], None)
               && Ticks(q, 0) == Ticks(w, 0) && Ticks(q, 1) == Ticks(w, 1) + 2
  {
    var w := TwoOwners();
    TwoOwnersAreGood();
    assert Follow(w, w.objects[0].attrs.at["items"], []) == Some(2) && ["items"][1..] == [];
    HandedOverIsMissed(w, 0, 0, ["items"], 1, "shared", 2, 0, [], Append(7));
  }

  lemma StoreIsValid(w: World, s: nat, name: string, v: nat)
    requires Valid(w) && IsState(w, s) && v in w.objects
    ensures Valid(StoreAttr(w, s, name, v))
  {
    var r := StoreAttr(w, s, name, v);
    forall t: nat | IsState(r, t) ensures Ordered(r.objects[t].attrs) && Known(r, t) {
      assert IsState(w, t) && Known(w, t);
    }
  }

  lemma TrackMovesItsOwn(w: World, c: nat, d: nat, v: nat, depth: nat)
    requires Valid(w) && v in w.objects && TrackMutable(w, v, d, depth).Some? && d != c
    ensures var b := TrackMutable(w, v, d, depth).value;
            Valid(b.world) && b.value in b.world.objects && Ticks(b.world, c) == Ticks(w, c)
  {
    ZoneIsSealed(w, v);
    TrackBinds(w, v, d, depth);
    TrackStaysInside(w, v, d, depth, Zone(w, v));
  }

  /** An assignment moves no clock but the one its object counts on. */
  lemma AssignMovesItsOwn(w: World, c: nat, s: nat, name: string, v: nat, depth: nat)
    requires Valid(w) && IsState(w, s) && v in w.objects && SetAttr(w, s, name, v, depth).Some?
    requires w.objects[s].owner.Some? && w.objects[s].owner != Some(c)
    ensures Valid(SetAttr(w, s, name, v, depth).value) && Ticks(SetAttr(w, s, name, v, depth).value, c) == Ticks(w, c)
  {
    var d := w.objects[s].owner.value;
    if !Holds(w, s, name, v) {
      var counted := Advance(w, d, 1);
      forall t: nat | IsState(counted, t) ensures Known(counted, t) { assert IsState(w, t) && Known(w, t); }
      TrackMovesItsOwn(counted, c, d, v, depth);
      var b := TrackMutable(counted, v, d, depth).value;
      StoreIsValid(b.world, s, name, b.value);
    }
  }

  /** The same of an object on `c`: no assignment on it moves that clock any more. */
  lemma HandedOverObjectIsMissed(w: World, c: nat, s: nat, name: string, v: nat, depth: nat, path: seq<string>,
                                 n: string, x: nat, deeper: nat)
    requires Good(w, c) && Foreign(w, c, s, name, v) && SetAttr(w, s, name, v, depth).Some?
    requires Leads(w, c, v, path) && Owned(w, c, Follow(w, v, path).value)
             && x in SetAttr(w, s, name, v, depth).value.objects
    ensures var r, id := SetAttr(w, s, name, v, depth).value, Follow(w, v, path).value;
            && IsState(r, id)
            && (SetAttr(r, id, n, x, deeper).Some? ==> Ticks(SetAttr(r, id, n, x, deeper).value, c) == Ticks(w, c))
  {
    var r, id := SetAttr(w, s, name, v, depth).value, Follow(w, v, path).value;
    ForeignBinds(w, c, s, name, v, depth, path);
    AssignMovesItsOwn(w, c, s, name, v, depth);
    ForeignKeepsKind(w, c, s, name, v, depth, id);
    if SetAttr(r, id, n, x, deeper).Some? { AssignMovesItsOwn(r, c, id, n, x, deeper); }
  }

  lemma ForeignKeepsKind(w: World, c: nat, s: nat, name: string, v: nat, depth: nat, id: nat)
    requires Good(w, c) && Foreign(w, c, s, name, v) && SetAttr(w, s, name, v, depth).Some? && IsState(w, id)
    ensures IsState(SetAttr(w, s, name, v, depth).value, id)
  {
    assert IsState(Advance(w, w.objects[s].owner.value, 1), id);
  }
}
