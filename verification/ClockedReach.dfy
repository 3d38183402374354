/** What lies below an object, and what adopting a clock does to it: everything reached is bound, and
    nothing else is touched. */
module ClockedReach {
  import opened Prelude
  import opened OrderedDict
  import opened ClockedGraph

  /** What a chain of attribute names leads to. */
  function Follow(w: World, root: nat, path: seq<string>): Option<nat>
    decreases |path|
  {
    if path == [] then Some(root)
    else if IsState(w, root) && path[0] in w.objects[root].attrs.at
    then Follow(w, w.objects[root].attrs.at[path[0]], path[1..])
    else None
  }

  ghost predicate Reached(w: World, root: nat, id: nat) { exists path :: Follow(w, root, path) == Some(id) }

  lemma {:induction false} FollowOn(w: World, root: nat, path: seq<string>, name: string)
    requires Follow(w, root, path).Some? && IsState(w, Follow(w, root, path).value)
    requires name in w.objects[Follow(w, root, path).value].attrs.at
    ensures Follow(w, root, path + [name]) == Some(w.objects[Follow(w, root, path).value].attrs.at[name])
    decreases |path|
  {
    var longer := path + [name];
    if path == [] {
      assert longer[1..] == [] && longer[0] == name;
      assert Follow(w, w.objects[root].attrs.at[name], longer[1..]) == Some(w.objects[root].attrs.at[name]);
    } else {
      assert longer[1..] == path[1..] + [name] && longer[0] == path[0];
      FollowOn(w, w.objects[root].attrs.at[path[0]], path[1..], name);
    }
  }

  /** What is made from `base` on is no object with attributes. */
  ghost predicate NoNewStates(base: nat, w: World) { forall s: nat :: IsState(w, s) ==> s < base }

  lemma NoNewStatesStays(base: nat, w: World, c: nat, r: World)
    requires NoNewStates(base, w) && ImprovesFrom(base, w, c, r)
    ensures NoNewStates(base, r)
  {
    forall s: nat | IsState(r, s) ensures s < base {
      assert s in w.objects && BetterObject(base, r, c, w.objects[s], r.objects[s]);
      assert IsState(w, s);
    }
  }

  /** A chain that leads to anything but a container not yet tracked leads there after others adopt `c`. */
  lemma {:induction false} FollowStays(base: nat, w: World, c: nat, r: World, root: nat, path: seq<string>)
    requires Valid(w) && ImprovesFrom(base, w, c, r) && NoNewStates(base, w) && Follow(w, root, path).Some?
    requires var id := Follow(w, root, path).value; id in w.objects && id < base && !IsPlain(w, id)
    ensures Follow(r, root, path) == Follow(w, root, path)
    decreases |path|
  {
    if path != [] {
      var held := w.objects[root].attrs.at[path[0]];
      assert Known(w, root);
      assert BetterObject(base, r, c, w.objects[root], r.objects[root]);
      assert BetterObject(base, r, c, w.objects[held], r.objects[held]);
      assert path[0] in w.objects[root].attrs.at.Keys;
      assert Rebound(base, r, c, held, r.objects[root].attrs.at[path[0]]);
      FollowStays(base, w, c, r, held, path[1..]);
    }
  }

  // ---------------------------------------------------------------- nothing else is touched

  /** A set no attribute leads out of, and that every new object belongs to. */
  ghost predicate Sealed(w: World, zone: iset<nat>) {
    && (forall id: nat :: id >= w.next ==> id in zone)
    && (forall s: nat, name :: IsState(w, s) && s in zone && name in w.objects[s].attrs.at ==>
          w.objects[s].attrs.at[name] in zone)
  }

  ghost predicate SameOutside(w: World, zone: iset<nat>, r: World) {
    forall id: nat :: id !in zone ==>
      (id in w.objects <==> id in r.objects) && (id in w.objects ==> r.objects[id] == w.objects[id])
  }

  /** Only the zone and one clock are touched. */
  ghost predicate StaysInside(w: World, zone: iset<nat>, c: nat, r: World) {
    && Sealed(r, zone) && SameOutside(w, zone, r) && w.next <= r.next
    && forall d: nat :: d != c ==> Ticks(r, d) == Ticks(w, d)
  }

  lemma {:induction false} TrackStaysInside(w: World, v: nat, c: nat, depth: nat, zone: iset<nat>)
    requires Sealed(w, zone) && v in zone && TrackMutable(w, v, c, depth).Some?
    ensures var b := TrackMutable(w, v, c, depth).value; StaysInside(w, zone, c, b.world) && b.value in zone
    decreases depth, 1
  {
    if IsState(w, v) { AttachStaysInside(w, v, c, depth, zone); }
  }

  lemma {:induction false} AttachStaysInside(w: World, s: nat, c: nat, depth: nat, zone: iset<nat>)
    requires Sealed(w, zone) && IsState(w, s) && s in zone && Attach(w, s, c, depth).Some?
    ensures StaysInside(w, zone, c, Attach(w, s, c, depth).value)
    decreases depth, 0
  {
    var first := Adopted(w, s, c);
    assert StaysInside(w, zone, c, first);
    BindStaysInside(first, s, Snapshot(w.objects[s].attrs), c, depth - 1, zone);
  }

  lemma {:induction false} BindStaysInside(w: World, s: nat, pairs: seq<(string, nat)>, c: nat, depth: nat,
                                           zone: iset<nat>)
    requires Sealed(w, zone) && IsState(w, s) && s in zone && BindFrom(w, s, pairs, c, depth).Some?
    requires forall k :: 0 <= k < |pairs| ==> pairs[k].1 in zone
    ensures StaysInside(w, zone, c, BindFrom(w, s, pairs, c, depth).value)
    decreases depth, 2, |pairs|
  {
    if pairs != [] {
      var b := TrackMutable(w, pairs[0].1, c, depth).value;
      TrackStaysInside(w, pairs[0].1, c, depth, zone);
      var after := Kept(b, s, pairs[0].0, pairs[0].1);
      assert StaysInside(w, zone, c, after);
      BindStaysInside(after, s, pairs[1..], c, depth, zone);
    }
  }

  // ---------------------------------------------------------------- everything reached is bound

  /** A container that counts on `c`, or an object on `c`. */
  predicate BoundTo(w: World, c: nat, id: nat) { TrackedOn(w, c, id) || Owned(w, c, id) }

  /** Something that can be bound: a tracked container or an object with attributes. */
  predicate Bindable(w: World, id: nat) { id in w.objects && (w.objects[id].Tracked? || w.objects[id].State?) }

  lemma BoundStays(base: nat, w: World, c: nat, r: World, id: nat)
    requires ImprovesFrom(base, w, c, r) && Bindable(w, id)
    ensures Bindable(r, id) && (BoundTo(w, c, id) ==> BoundTo(r, c, id))
  {
    assert BetterObject(base, r, c, w.objects[id], r.objects[id]);
  }

  /** Binding a value binds everything reached from it. */
  lemma {:induction false} TrackReaches(w: World, v: nat, c: nat, depth: nat, path: seq<string>)
    requires Valid(w) && v in w.objects && TrackMutable(w, v, c, depth).Some?
    requires Follow(w, v, path).Some? && Bindable(w, Follow(w, v, path).value)
    ensures BoundTo(TrackMutable(w, v, c, depth).value.world, c, Follow(w, v, path).value)
    decreases depth, 1
  {
    if IsState(w, v) { AttachReaches(w, v, c, depth, path); }
  }

  /** Where the loop over the attributes comes to a name. */
  lemma Listed(attrs: Dict<string, nat>, name: string) returns (j: nat)
    requires Ordered(attrs) && name in attrs.at
    ensures j < |Snapshot(attrs)| && Snapshot(attrs)[j] == (name, attrs.at[name])
  {
    var k :| 0 <= k < |attrs.order| && attrs.order[k] == name;
    j := SnapshotCovers(attrs, 0, k);
  }

  lemma {:induction false} AttachReaches(w: World, s: nat, c: nat, depth: nat, path: seq<string>)
    requires Valid(w) && IsState(w, s) && Attach(w, s, c, depth).Some?
    requires Follow(w, s, path).Some? && Bindable(w, Follow(w, s, path).value)
    ensures BoundTo(Attach(w, s, c, depth).value, c, Follow(w, s, path).value)
    decreases depth, 0
  {
    if path == [] {
      AttachBinds(w, s, c, depth);
    } else {
      var first, held := Adopted(w, s, c), w.objects[s].attrs.at[path[0]];
      var j := Listed(w.objects[s].attrs, path[0]);
      AdoptImproves(w, s, c);
      FollowStays(w.next, w, c, first, held, path[1..]);
      BoundStays(w.next, w, c, first, Follow(w, held, path[1..]).value);
      BindReaches(w.next, first, s, Snapshot(w.objects[s].attrs), c, depth - 1, j, path[1..]);
    }
  }

  /** Where an object stands after one round of the loop. */
  lemma KeptBound(b: Binding, s: nat, name: string, v: nat, c: nat, id: nat)
    requires IsState(b.world, s) && BoundTo(b.world, c, id)
    ensures BoundTo(Kept(b, s, name, v), c, id)
  {
  }

  lemma BindKeepsBound(base: nat, w: World, s: nat, pairs: seq<(string, nat)>, c: nat, depth: nat, id: nat)
    requires Valid(w) && Owned(w, c, s) && Pending(base, w, c, s, pairs) && base <= w.next
    requires BindFrom(w, s, pairs, c, depth).Some? && BoundTo(w, c, id)
    ensures BoundTo(BindFrom(w, s, pairs, c, depth).value, c, id)
  {
    BindBinds(base, w, s, pairs, c, depth);
    BoundStays(base, w, c, BindFrom(w, s, pairs, c, depth).value, id);
  }

  lemma {:induction false} BindReaches(base: nat, w: World, s: nat, pairs: seq<(string, nat)>, c: nat, depth: nat,
                                       j: nat, path: seq<string>)
    requires Valid(w) && Owned(w, c, s) && Pending(base, w, c, s, pairs) && base <= w.next && NoNewStates(base, w)
    requires BindFrom(w, s, pairs, c, depth).Some? && j < |pairs|
    requires Follow(w, pairs[j].1, path).Some?
    requires Bindable(w, Follow(w, pairs[j].1, path).value) && Follow(w, pairs[j].1, path).value < base
    ensures BoundTo(BindFrom(w, s, pairs, c, depth).value, c, Follow(w, pairs[j].1, path).value)
    decreases depth, 2, |pairs|
  {
    var id := Follow(w, pairs[j].1, path).value;
    var b := TrackMutable(w, pairs[0].1, c, depth).value;
    TrackBinds(w, pairs[0].1, c, depth);
    KeepBinds(base, w, s, pairs, c, b);
    var after := Kept(b, s, pairs[0].0, pairs[0].1);
    PendingTail(base, after, c, s, pairs);
    if j == 0 {
      TrackReaches(w, pairs[0].1, c, depth, path);
      KeptBound(b, s, pairs[0].0, pairs[0].1, c, id);
      BindKeepsBound(base, after, s, pairs[1..], c, depth, id);
    } else {
      BoundStays(base, w, c, after, id);
      FollowStays(base, w, c, after, pairs[j].1, path);
      NoNewStatesStays(base, w, c, after);
      assert pairs[1..][j - 1] == pairs[j];
      BindReaches(base, after, s, pairs[1..], c, depth, j - 1, path);
    }
  }

  // ---------------------------------------------------------------- exactly when adopting completes

  /** Every chain from `v` to an object with attributes is shorter than `depth`; no depth will do for a cycle. */
  ghost predicate Shallow(w: World, v: nat, depth: nat) {
    forall path :: LeadsToState(w, v, path) ==> |path| < depth
  }

  predicate LeadsToState(w: World, v: nat, path: seq<string>) {
    Follow(w, v, path).Some? && IsState(w, Follow(w, v, path).value)
  }

  lemma StartsAtState(w: World, v: nat, path: seq<string>)
    requires LeadsToState(w, v, path)
    ensures IsState(w, v)
  {
  }

  /** While others adopt `c` no new chain to an object with attributes appears. */
  lemma {:induction false} NoNewChains(base: nat, w: World, c: nat, r: World, root: nat, path: seq<string>)
    requires Valid(w) && ImprovesFrom(base, w, c, r) && root in w.objects && LeadsToState(r, root, path)
    ensures LeadsToState(w, root, path)
    decreases |path|
  {
    assert BetterObject(base, r, c, w.objects[root], r.objects[root]);
    if path != [] {
      assert Known(w, root) && path[0] in w.objects[root].attrs.at.Keys;
      var held := w.objects[root].attrs.at[path[0]];
      assert Rebound(base, r, c, held, r.objects[root].attrs.at[path[0]]);
      assert LeadsToState(r, r.objects[root].attrs.at[path[0]], path[1..]);
      StartsAtState(r, r.objects[root].attrs.at[path[0]], path[1..]);
      NoNewChains(base, w, c, r, held, path[1..]);
    }
  }

  lemma StaysShallow(base: nat, w: World, c: nat, r: World, v: nat, depth: nat)
    requires Valid(w) && ImprovesFrom(base, w, c, r) && v in w.objects && Shallow(w, v, depth)
    ensures v in r.objects && Shallow(r, v, depth)
  {
    forall path | LeadsToState(r, v, path) ensures |path| < depth { NoNewChains(base, w, c, r, v, path); }
  }

  /** What an object holds is shallower than the object. */
  lemma ShallowBelow(w: World, s: nat, name: string, depth: nat)
    requires IsState(w, s) && name in w.objects[s].attrs.at && depth > 0 && Shallow(w, s, depth)
    ensures Shallow(w, w.objects[s].attrs.at[name], depth - 1)
  {
    var held := w.objects[s].attrs.at[name];
    forall path | LeadsToState(w, held, path) ensures |path| < depth - 1 {
      var longer := [name] + path;
      assert longer[1..] == path && longer[0] == name;
      assert LeadsToState(w, s, longer);
    }
  }

  lemma {:induction false} ShallowCompletes(w: World, s: nat, c: nat, depth: nat)
    requires Valid(w) && IsState(w, s) && Shallow(w, s, depth)
    ensures Attach(w, s, c, depth).Some?
    decreases depth, 0
  {
    assert LeadsToState(w, s, []);
    var first, pairs := Adopted(w, s, c), Snapshot(w.objects[s].attrs);
    AdoptImproves(w, s, c);
    forall k | 0 <= k < |pairs| ensures Shallow(first, pairs[k].1, depth - 1) {
      assert Known(w, s);
      ShallowBelow(w, s, pairs[k].0, depth);
      StaysShallow(w.next, w, c, first, pairs[k].1, depth - 1);
    }
    ShallowBinds(w.next, first, s, pairs, c, depth - 1);
  }

  lemma {:induction false} ShallowBinds(base: nat, w: World, s: nat, pairs: seq<(string, nat)>, c: nat, depth: nat)
    requires Valid(w) && Owned(w, c, s) && Pending(base, w, c, s, pairs) && base <= w.next
    requires forall k :: 0 <= k < |pairs| ==> Shallow(w, pairs[k].1, depth)
    ensures BindFrom(w, s, pairs, c, depth).Some?
    decreases depth, 2, |pairs|
  {
    if pairs != [] {
      var v := pairs[0].1;
      if w.objects[v].State? {
        ShallowCompletes(w, v, c, depth);
      } else {
        TrackContainer(w, c, v, depth);
      }
      TrackBinds(w, v, c, depth);
      KeepBinds(base, w, s, pairs, c, TrackMutable(w, v, c, depth).value);
      var after := Kept(TrackMutable(w, v, c, depth).value, s, pairs[0].0, v);
      PendingTail(base, after, c, s, pairs);
      forall k | 0 <= k < |pairs[1..]| ensures Shallow(after, pairs[1..][k].1, depth) {
        StaysShallow(base, w, c, after, pairs[k + 1].1, depth);
      }
      ShallowBinds(base, after, s, pairs[1..], c, depth);
    }
  }

  lemma {:induction false} CompletedIsShallow(w: World, s: nat, c: nat, depth: nat, path: seq<string>)
    requires Valid(w) && IsState(w, s) && Attach(w, s, c, depth).Some? && LeadsToState(w, s, path)
    ensures |path| < depth
    decreases depth, 0
  {
    if path != [] {
      var first, held := Adopted(w, s, c), w.objects[s].attrs.at[path[0]];
      var j := Listed(w.objects[s].attrs, path[0]);
      AdoptImproves(w, s, c);
      FollowStays(w.next, w, c, first, held, path[1..]);
      BoundStays(w.next, w, c, first, Follow(w, held, path[1..]).value);
      BoundIsShallow(w.next, first, s, Snapshot(w.objects[s].attrs), c, depth - 1, j, path[1..]);
    }
  }

  lemma {:induction false} BoundIsShallow(base: nat, w: World, s: nat, pairs: seq<(string, nat)>, c: nat, depth: nat,
                                          j: nat, path: seq<string>)
    requires Valid(w) && Owned(w, c, s) && Pending(base, w, c, s, pairs) && base <= w.next && NoNewStates(base, w)
    requires BindFrom(w, s, pairs, c, depth).Some? && j < |pairs| && LeadsToState(w, pairs[j].1, path)
    ensures |path| < depth
    decreases depth, 2, |pairs|
  {
    if j == 0 {
      CompletedIsShallow(w, pairs[0].1, c, depth, path);
    } else {
      var b := TrackMutable(w, pairs[0].1, c, depth).value;
      TrackBinds(w, pairs[0].1, c, depth);
      KeepBinds(base, w, s, pairs, c, b);
      var after := Kept(b, s, pairs[0].0, pairs[0].1);
      PendingTail(base, after, c, s, pairs);
      FollowStays(base, w, c, after, pairs[j].1, path);
      NoNewStatesStays(base, w, c, after);
      StaysState(base, w, c, after, Follow(w, pairs[j].1, path).value);
      assert pairs[1..][j - 1] == pairs[j];
      BoundIsShallow(base, after, s, pairs[1..], c, depth, j - 1, path);
    }
  }

  lemma StaysState(base: nat, w: World, c: nat, r: World, id: nat)
    requires ImprovesFrom(base, w, c, r) && IsState(w, id)
    ensures IsState(r, id)
  {
    assert BetterObject(base, r, c, w.objects[id], r.objects[id]);
  }

  /** Adopting a clock completes at a depth if and only if every chain of owners below is shorter. */
  lemma CompletesExactlyIf(w: World, s: nat, c: nat, depth: nat)
    requires Valid(w) && IsState(w, s)
    ensures Attach(w, s, c, depth).Some? <==> Shallow(w, s, depth)
  {
    if Attach(w, s, c, depth).Some? {
      forall path | LeadsToState(w, s, path) ensures |path| < depth { CompletedIsShallow(w, s, c, depth, path); }
    } else if Shallow(w, s, depth) {
      ShallowCompletes(w, s, c, depth);
    }
  }
}
