/** Reading a region of an n-dimensional source: a per-axis index specification of points, slices and
    index lists, applied as one basic-indexing step followed by one gather per list. */
module RegionRead {
  import opened Prelude
  import opened PythonRange

  type Index = seq<int>

  /** An array: its shape and its value at every index within the shape. */
  datatype Nd = Nd(shape: seq<nat>, at: Index -> real)

  predicate Within(ix: Index, shape: seq<nat>) {
    |ix| == |shape| && forall k :: 0 <= k < |ix| ==> 0 <= ix[k] < shape[k]
  }

  /** Same shape and same value at every index of it. */
  ghost predicate Same(a: Nd, b: Nd) {
    a.shape == b.shape && forall ix :: Within(ix, a.shape) ==> a.at(ix) == b.at(ix)
  }

  /** One item of a specification, for one axis: a point drops the axis, the others keep it. */
  datatype Item =
    | PointAt(index: int)
    | SliceAt(start: Option<int>, stop: Option<int>, step: int)
    | ListAt(indices: seq<int>)

  datatype Error = SpecLength | BadItem | RefusedByBudget

  const FULL: Item := SliceAt(None, None, 1)

  predicate IndexOk(i: int, n: nat) { 0 <= i + n && i < n }

  predicate ItemOk(item: Item, n: nat) {
    match item
    case PointAt(i) => IndexOk(i, n)
    case SliceAt(_, _, step) => step != 0
    case ListAt(indices) => forall k :: 0 <= k < |indices| ==> IndexOk(indices[k], n)
  }

  predicate SpecOk(spec: seq<Item>, shape: seq<nat>) {
    |spec| == |shape| && forall k :: 0 <= k < |spec| ==> ItemOk(spec[k], shape[k])
  }

  /** Negative indices count from the end. */
  function Wrap(i: int, n: nat): int { if i < 0 then i + n else i }

  /** The source positions an item visits along an axis of size `n`, in order. */
  function Picks(item: Item, n: nat): seq<int>
    requires ItemOk(item, n)
  {
    match item
    case PointAt(i) => [Wrap(i, n)]
    case SliceAt(start, stop, step) => SliceIndices(start, stop, step, n)
    case ListAt(indices) => seq(|indices|, k requires 0 <= k < |indices| => Wrap(indices[k], n))
  }

  lemma PicksWithin(item: Item, n: nat)
    requires ItemOk(item, n)
    ensures forall k :: 0 <= k < |Picks(item, n)| ==> 0 <= Picks(item, n)[k] < n
  {
    if item.SliceAt? { SliceInBounds(item.start, item.stop, item.step, n); }
  }

  /** An index is accepted from minus the size up to the size, and stands for the position equal to it modulo the size;
      a list stands for its entries in their order. */
  lemma PointMeans(i: int, n: nat)
    ensures ItemOk(PointAt(i), n) <==> 0 - n <= i < n
    ensures ItemOk(PointAt(i), n) ==> n > 0 && Picks(PointAt(i), n) == [i % n]
  {
    if ItemOk(PointAt(i), n) { Residue(i, n); }
  }

  lemma ListMeans(s: seq<int>, n: nat)
    ensures ItemOk(ListAt(s), n) <==> forall k :: 0 <= k < |s| ==> ItemOk(PointAt(s[k]), n)
    ensures ItemOk(ListAt(s), n) ==>
              && |Picks(ListAt(s), n)| == |s|
              && forall k :: 0 <= k < |s| ==> [Picks(ListAt(s), n)[k]] == Picks(PointAt(s[k]), n)
  {
    if ItemOk(ListAt(s), n) {
      forall k | 0 <= k < |s| ensures ItemOk(PointAt(s[k]), n) { assert IndexOk(s[k], n); }
    } else {
      var k :| 0 <= k < |s| && !IndexOk(s[k], n);
      assert !ItemOk(PointAt(s[k]), n);
    }
  }

  lemma Residue(i: int, n: nat)
    requires n > 0 && 0 - n <= i < n
    ensures i % n == Wrap(i, n)
  {
  }

  // ---------------------------------------------------------------- outer indexing, pointwise

  /** Shape of the result: one axis per item that is not a point. */
  function OuterShape(spec: seq<Item>, shape: seq<nat>): seq<nat>
    requires SpecOk(spec, shape)
  {
    if spec == [] then []
    else (if spec[0].PointAt? then [] else [|Picks(spec[0], shape[0])|]) + OuterShape(spec[1..], shape[1..])
  }

  /** The source index a result index reads from: each kept axis goes through its own picks. */
  function Pull(spec: seq<Item>, shape: seq<nat>, ix: Index): Index
    requires SpecOk(spec, shape) && Within(ix, OuterShape(spec, shape))
  {
    if spec == [] then []
    else if spec[0].PointAt? then [Picks(spec[0], shape[0])[0]] + Pull(spec[1..], shape[1..], ix)
    else
      assert ix[0] < OuterShape(spec, shape)[0];
      assert OuterShape(spec, shape)[1..] == OuterShape(spec[1..], shape[1..]);
      [Picks(spec[0], shape[0])[ix[0]]] + Pull(spec[1..], shape[1..], ix[1..])
  }

  /** `out[j0, j1, ...] == a[p0[j0], p1[j1], ...]`: what a specification means. */
  function Outer(a: Nd, spec: seq<Item>): Nd
    requires SpecOk(spec, a.shape)
  {
    var shape := OuterShape(spec, a.shape);
    Nd(shape, (ix: Index) => if Within(ix, shape) then a.at(Pull(spec, a.shape, ix)) else 0.0)
  }

  // ---------------------------------------------------------------- single-axis operations

  /** `np.take(a, picks, axis)`; a slice of one axis is the same operation. */
  function Take(a: Nd, axis: nat, picks: seq<int>): Nd
    requires axis < |a.shape|
  {
    Nd(a.shape[axis := |picks|],
       (ix: Index) => if axis < |ix| && 0 <= ix[axis] < |picks| then a.at(ix[axis := picks[ix[axis]]]) else 0.0)
  }

  /** `a[..., i, ...]`: fix one axis and drop it. */
  function DropAxis(a: Nd, axis: nat, i: int): Nd
    requires axis < |a.shape|
  {
    Nd(a.shape[..axis] + a.shape[axis + 1..],
       (ix: Index) => if axis <= |ix| then a.at(ix[..axis] + [i] + ix[axis..]) else 0.0)
  }

  /** Axis of the result that item `k` of the specification ends up on. */
  function ResultAxis(spec: seq<Item>, k: nat): nat
    requires k <= |spec|
  {
    if k == 0 then 0 else (if spec[0].PointAt? then 0 else 1) + ResultAxis(spec[1..], k - 1)
  }

  // ---------------------------------------------------------------- one item at a time

  lemma FullPicks(n: nat)
    ensures |Picks(FULL, n)| == n && forall k :: 0 <= k < n ==> Picks(FULL, n)[k] == k
  {
    FullSlice(n);
  }

  /** Extents of the result contributed by the first item. */
  function HeadShape(item: Item, n: nat): (h: seq<nat>)
    requires ItemOk(item, n)
    ensures |h| == (if item.PointAt? then 0 else 1)
  {
    if item.PointAt? then [] else [|Picks(item, n)|]
  }

  lemma OuterShapeCons(spec: seq<Item>, shape: seq<nat>, tail: seq<Item>)
    requires SpecOk(spec, shape) && spec != [] && tail == spec[1..]
    ensures SpecOk(tail, shape[1..])
    ensures OuterShape(spec, shape) == HeadShape(spec[0], shape[0]) + OuterShape(tail, shape[1..])
  {}

  lemma UpdateConcat(h: seq<nat>, t: seq<nat>, r: nat, v: nat)
    requires r < |t|
    ensures h + t[r := v] == (h + t)[|h| + r := v]
    ensures h + (t[..r] + t[r + 1..]) == (h + t)[..|h| + r] + (h + t)[|h| + r + 1..]
  {}

  /** Replacing a later item leaves what the first one contributes. */
  lemma SplitShapes(spec: seq<Item>, shape: seq<nat>, k: nat, item: Item) returns (h: seq<nat>, t: seq<nat>)
    requires SpecOk(spec, shape) && 0 < k < |spec| && ItemOk(item, shape[k])
    ensures SpecOk(spec[k := item], shape) && SpecOk(spec[1..], shape[1..])
    ensures SpecOk(spec[1..][k - 1 := item], shape[1..])
    ensures OuterShape(spec, shape) == h + t && t == OuterShape(spec[1..], shape[1..])
    ensures OuterShape(spec[k := item], shape) == h + OuterShape(spec[1..][k - 1 := item], shape[1..])
    ensures ResultAxis(spec, k) == |h| + ResultAxis(spec[1..], k - 1)
  {
    h, t := HeadShape(spec[0], shape[0]), OuterShape(spec[1..], shape[1..]);
    OuterShapeCons(spec, shape, spec[1..]);
    OuterShapeCons(spec[k := item], shape, spec[1..][k - 1 := item]);
  }

  lemma KeepShapeHere(spec: seq<Item>, shape: seq<nat>, changed: seq<Item>, tail: seq<Item>)
    requires SpecOk(spec, shape) && SpecOk(changed, shape) && spec == [FULL] + tail
    requires changed != [] && !changed[0].PointAt? && changed[1..] == tail
    ensures var out := OuterShape(spec, shape);
            out != [] && out[0] == shape[0] && OuterShape(changed, shape) == out[0 := |Picks(changed[0], shape[0])|]
  {
    FullPicks(shape[0]);
    assert spec[1..] == tail;
    OuterShapeCons(spec, shape, tail);
    OuterShapeCons(changed, shape, tail);
  }

  /** Replacing a full slice by a list or slice changes one extent of the result. */
  lemma {:induction false} KeepShape(spec: seq<Item>, shape: seq<nat>, k: nat, item: Item)
    requires SpecOk(spec, shape) && k < |spec| && spec[k] == FULL && ItemOk(item, shape[k]) && !item.PointAt?
    ensures SpecOk(spec[k := item], shape)
    ensures var r, out := ResultAxis(spec, k), OuterShape(spec, shape);
            r < |out| && out[r] == shape[k] && OuterShape(spec[k := item], shape) == out[r := |Picks(item, shape[k])|]
    decreases k
  {
    if k > 0 {
      KeepShape(spec[1..], shape[1..], k - 1, item);
      var h, t := SplitShapes(spec, shape, k, item);
      UpdateConcat(h, t, ResultAxis(spec[1..], k - 1), |Picks(item, shape[k])|);
    } else {
      KeepShapeHere(spec, shape, spec[0 := item], spec[1..]);
    }
  }

  lemma WithinCons(ix: Index, extent: nat, extents: seq<nat>)
    ensures Within(ix, [extent] + extents) <==> |ix| > 0 && 0 <= ix[0] < extent && Within(ix[1..], extents)
  {
    var all := [extent] + extents;
    assert forall k :: 0 < k < |all| ==> all[k] == extents[k - 1];
    if |ix| > 0 {
      assert forall k :: 0 <= k < |ix| - 1 ==> ix[1..][k] == ix[k + 1];
      if 0 <= ix[0] < extent && Within(ix[1..], extents) && |ix| == |all| {
        forall k | 0 <= k < |ix| ensures 0 <= ix[k] < all[k] {
          if k > 0 { assert ix[k] == ix[1..][k - 1]; }
        }
      }
    }
  }

  /** A kept head reads its own first coordinate; the rest reads on. */
  lemma PullKeptHead(spec: seq<Item>, shape: seq<nat>, ix: Index, tail: seq<Item>, extents: seq<nat>)
    requires SpecOk(spec, shape) && spec != [] && !spec[0].PointAt? && tail == spec[1..] && extents == shape[1..]
    ensures SpecOk(tail, extents)
    ensures var picks := Picks(spec[0], shape[0]);
            Within(ix, OuterShape(spec, shape)) <==>
            |ix| > 0 && 0 <= ix[0] < |picks| && Within(ix[1..], OuterShape(tail, extents))
    ensures Within(ix, OuterShape(spec, shape)) ==>
              Pull(spec, shape, ix) == [Picks(spec[0], shape[0])[ix[0]]] + Pull(tail, extents, ix[1..])
  {
    OuterShapeCons(spec, shape, tail);
    WithinCons(ix, |Picks(spec[0], shape[0])|, OuterShape(tail, extents));
  }

  lemma InsertLater(ix: Index, r: nat, p: Index)
    requires r < |ix|
    ensures var jx := ix[..r + 1] + p + ix[r + 1..];
            |jx| > 0 && jx[0] == ix[0] && jx[1..] == ix[1..][..r] + p + ix[1..][r..]
  {
  }

  lemma UpdateLater(ix: Index, r: nat, value: int)
    requires r + 1 < |ix|
    ensures var jx := ix[r + 1 := value]; jx[0] == ix[0] && jx[1..] == ix[1..][r := value]
  {
  }

  /** Two specifications with the same kept head read the same where their tails do. */
  lemma SameKeptHead(one: seq<Item>, two: seq<Item>, shape: seq<nat>, jx: Index, ix: Index,
                     tail: seq<Item>, other: seq<Item>, extents: seq<nat>)
    requires SpecOk(one, shape) && SpecOk(two, shape) && one != [] && two != [] && one[0] == two[0]
    requires !one[0].PointAt? && tail == one[1..] && other == two[1..] && extents == shape[1..]
    requires SpecOk(tail, extents) && SpecOk(other, extents)
    requires Within(ix, OuterShape(two, shape)) && |jx| > 0 && ix != [] && jx[0] == ix[0]
    requires Within(ix[1..], OuterShape(other, extents)) && Within(jx[1..], OuterShape(tail, extents))
    requires Pull(tail, extents, jx[1..]) == Pull(other, extents, ix[1..])
    ensures Within(jx, OuterShape(one, shape)) && Pull(one, shape, jx) == Pull(two, shape, ix)
  {
    PullKeptHead(two, shape, ix, other, extents);
    PullKeptHead(one, shape, jx, tail, extents);
  }

  /** ... and reads through the new picks on that axis. */
  lemma {:induction false} KeepPull(spec: seq<Item>, shape: seq<nat>, k: nat, item: Item, ix: Index)
    requires SpecOk(spec, shape) && k < |spec| && spec[k] == FULL && ItemOk(item, shape[k]) && !item.PointAt?
    requires SpecOk(spec[k := item], shape) && Within(ix, OuterShape(spec[k := item], shape))
    ensures var r, picks := ResultAxis(spec, k), Picks(item, shape[k]);
            && r < |ix| && 0 <= ix[r] < |picks|
            && Within(ix[r := picks[ix[r]]], OuterShape(spec, shape))
            && Pull(spec, shape, ix[r := picks[ix[r]]]) == Pull(spec[k := item], shape, ix)
    decreases k
  {
    if k == 0 {
      KeepPullHere(spec, shape, item, ix);
    } else {
      assert spec[k := item][1..] == spec[1..][k - 1 := item];
      if spec[0].PointAt? {
        KeepPull(spec[1..], shape[1..], k - 1, item, ix);
      } else {
        KeepPullLater(spec, shape, k, item, ix);
      }
    }
  }

  lemma KeepPullHere(spec: seq<Item>, shape: seq<nat>, item: Item, ix: Index)
    requires SpecOk(spec, shape) && spec != [] && spec[0] == FULL && ItemOk(item, shape[0]) && !item.PointAt?
    requires SpecOk(spec[0 := item], shape) && Within(ix, OuterShape(spec[0 := item], shape))
    ensures var picks := Picks(item, shape[0]);
            && 0 < |ix| && 0 <= ix[0] < |picks|
            && Within(ix[0 := picks[ix[0]]], OuterShape(spec, shape))
            && Pull(spec, shape, ix[0 := picks[ix[0]]]) == Pull(spec[0 := item], shape, ix)
  {
    var picks := Picks(item, shape[0]);
    assert spec[0 := item][1..] == spec[1..];
    PullKeptHead(spec[0 := item], shape, ix, spec[1..], shape[1..]);
    PicksWithin(item, shape[0]);
    FullPicks(shape[0]);
    var jx := ix[0 := picks[ix[0]]];
    assert jx[1..] == ix[1..];
    PullKeptHead(spec, shape, jx, spec[1..], shape[1..]);
  }

  /** Below a kept head the rest reads through the new picks already. */
  lemma {:induction false} KeepPullBelow(spec: seq<Item>, shape: seq<nat>, k: nat, item: Item, ix: Index)
    returns (r: nat, value: int)
    requires SpecOk(spec, shape) && 0 < k < |spec| && spec[k] == FULL && ItemOk(item, shape[k]) && !item.PointAt?
    requires SpecOk(spec[k := item], shape) && Within(ix, OuterShape(spec[k := item], shape))
    requires !spec[0].PointAt?
    ensures SpecOk(spec[1..], shape[1..]) && SpecOk(spec[1..][k - 1 := item], shape[1..])
    ensures r + 1 == ResultAxis(spec, k) && r + 1 < |ix| && 0 <= ix[r + 1] < |Picks(item, shape[k])|
    ensures value == Picks(item, shape[k])[ix[r + 1]]
    ensures Within(ix[1..], OuterShape(spec[1..][k - 1 := item], shape[1..]))
    ensures Within(ix[1..][r := value], OuterShape(spec[1..], shape[1..]))
    ensures Pull(spec[1..], shape[1..], ix[1..][r := value]) == Pull(spec[1..][k - 1 := item], shape[1..], ix[1..])
    decreases k, 0
  {
    PullKeptHead(spec[k := item], shape, ix, spec[1..][k - 1 := item], shape[1..]);
    KeepPull(spec[1..], shape[1..], k - 1, item, ix[1..]);
    r := ResultAxis(spec[1..], k - 1);
    value := Picks(item, shape[k])[ix[r + 1]];
  }

  lemma {:induction false} KeepPullLater(spec: seq<Item>, shape: seq<nat>, k: nat, item: Item, ix: Index)
    requires SpecOk(spec, shape) && 0 < k < |spec| && spec[k] == FULL && ItemOk(item, shape[k]) && !item.PointAt?
    requires SpecOk(spec[k := item], shape) && Within(ix, OuterShape(spec[k := item], shape))
    requires !spec[0].PointAt?
    ensures var r, picks := ResultAxis(spec, k), Picks(item, shape[k]);
            && r < |ix| && 0 <= ix[r] < |picks|
            && Within(ix[r := picks[ix[r]]], OuterShape(spec, shape))
            && Pull(spec, shape, ix[r := picks[ix[r]]]) == Pull(spec[k := item], shape, ix)
    decreases k, 1
  {
    var r, value := KeepPullBelow(spec, shape, k, item, ix);
    UpdateLater(ix, r, value);
    SameKeptHead(spec, spec[k := item], shape, ix[r + 1 := value], ix, spec[1..], spec[1..][k - 1 := item], shape[1..]);
  }

  lemma DropShapeHere(spec: seq<Item>, shape: seq<nat>, pointed: seq<Item>, tail: seq<Item>)
    requires SpecOk(spec, shape) && SpecOk(pointed, shape) && spec == [FULL] + tail
    requires pointed != [] && pointed[0].PointAt? && pointed[1..] == tail
    ensures var out := OuterShape(spec, shape);
            out != [] && out[0] == shape[0] && OuterShape(pointed, shape) == out[..0] + out[1..]
  {
    FullPicks(shape[0]);
    assert spec[1..] == tail;
    OuterShapeCons(spec, shape, tail);
    OuterShapeCons(pointed, shape, tail);
  }

  /** Replacing a full slice by a point drops one axis of the result. */
  lemma {:induction false} DropShape(spec: seq<Item>, shape: seq<nat>, k: nat, i: int)
    requires SpecOk(spec, shape) && k < |spec| && spec[k] == FULL && IndexOk(i, shape[k])
    ensures SpecOk(spec[k := PointAt(i)], shape)
    ensures var r, out := ResultAxis(spec, k), OuterShape(spec, shape);
            r < |out| && out[r] == shape[k] && OuterShape(spec[k := PointAt(i)], shape) == out[..r] + out[r + 1..]
    decreases k
  {
    if k > 0 {
      DropShape(spec[1..], shape[1..], k - 1, i);
      var h, t := SplitShapes(spec, shape, k, PointAt(i));
      UpdateConcat(h, t, ResultAxis(spec[1..], k - 1), 0);
    } else {
      DropShapeHere(spec, shape, spec[0 := PointAt(i)], spec[1..]);
    }
  }

  lemma {:induction false} DropPull(spec: seq<Item>, shape: seq<nat>, k: nat, i: int, ix: Index)
    requires SpecOk(spec, shape) && k < |spec| && spec[k] == FULL && IndexOk(i, shape[k])
    requires SpecOk(spec[k := PointAt(i)], shape) && Within(ix, OuterShape(spec[k := PointAt(i)], shape))
    ensures var r, p := ResultAxis(spec, k), [Wrap(i, shape[k])];
            && r <= |ix|
            && Within(ix[..r] + p + ix[r..], OuterShape(spec, shape))
            && Pull(spec, shape, ix[..r] + p + ix[r..]) == Pull(spec[k := PointAt(i)], shape, ix)
    decreases k
  {
    if k == 0 {
      var jx := [Wrap(i, shape[0])] + ix;
      assert ix[..0] + [Wrap(i, shape[0])] + ix[0..] == jx && jx[1..] == ix;
      assert spec[0 := PointAt(i)][1..] == spec[1..];
      FullPicks(shape[0]);
      PullKeptHead(spec, shape, jx, spec[1..], shape[1..]);
    } else {
      assert spec[k := PointAt(i)][1..] == spec[1..][k - 1 := PointAt(i)];
      if spec[0].PointAt? {
        DropPull(spec[1..], shape[1..], k - 1, i, ix);
      } else {
        DropPullLater(spec, shape, k, i, ix);
      }
    }
  }

  lemma {:induction false} DropPullLater(spec: seq<Item>, shape: seq<nat>, k: nat, i: int, ix: Index)
    requires SpecOk(spec, shape) && 0 < k < |spec| && spec[k] == FULL && IndexOk(i, shape[k]) && !spec[0].PointAt?
    requires SpecOk(spec[k := PointAt(i)], shape) && Within(ix, OuterShape(spec[k := PointAt(i)], shape))
    ensures var r, p := ResultAxis(spec, k), [Wrap(i, shape[k])];
            && r <= |ix|
            && Within(ix[..r] + p + ix[r..], OuterShape(spec, shape))
            && Pull(spec, shape, ix[..r] + p + ix[r..]) == Pull(spec[k := PointAt(i)], shape, ix)
    decreases k, 0
  {
    var t, extents, t' := spec[1..], shape[1..], spec[1..][k - 1 := PointAt(i)];
    PullKeptHead(spec[k := PointAt(i)], shape, ix, t', extents);
    DropPull(t, extents, k - 1, i, ix[1..]);
    var r, p := ResultAxis(t, k - 1), [Wrap(i, shape[k])];
    assert ResultAxis(spec, k) == r + 1;
    var jx := ix[..r + 1] + p + ix[r + 1..];
    InsertLater(ix, r, p);
    SameKeptHead(spec, spec[k := PointAt(i)], shape, jx, ix, t, t', extents);
  }

  /** Gathering along the axis of an unrestricted item restricts exactly that item. */
  lemma TakeStep(b: Nd, a: Nd, spec: seq<Item>, k: nat, item: Item)
    requires SpecOk(spec, a.shape) && k < |spec| && spec[k] == FULL && ItemOk(item, a.shape[k]) && !item.PointAt?
    requires Same(b, Outer(a, spec))
    ensures SpecOk(spec[k := item], a.shape) && ResultAxis(spec, k) < |b.shape|
    ensures b.shape[ResultAxis(spec, k)] == a.shape[k]
    ensures Same(Take(b, ResultAxis(spec, k), Picks(item, a.shape[k])), Outer(a, spec[k := item]))
  {
    KeepShape(spec, a.shape, k, item);
    forall ix | Within(ix, OuterShape(spec[k := item], a.shape))
      ensures Take(b, ResultAxis(spec, k), Picks(item, a.shape[k])).at(ix) == Outer(a, spec[k := item]).at(ix)
    {
      KeepPull(spec, a.shape, k, item, ix);
    }
  }

  lemma DropStepAt(b: Nd, a: Nd, spec: seq<Item>, k: nat, i: int, ix: Index)
    requires SpecOk(spec, a.shape) && k < |spec| && spec[k] == FULL && IndexOk(i, a.shape[k])
    requires Same(b, Outer(a, spec)) && SpecOk(spec[k := PointAt(i)], a.shape) && ResultAxis(spec, k) < |b.shape|
    requires Within(ix, OuterShape(spec[k := PointAt(i)], a.shape))
    ensures DropAxis(b, ResultAxis(spec, k), Wrap(i, a.shape[k])).at(ix) == Outer(a, spec[k := PointAt(i)]).at(ix)
  {
    DropPull(spec, a.shape, k, i, ix);
  }

  lemma DropStep(b: Nd, a: Nd, spec: seq<Item>, k: nat, i: int)
    requires SpecOk(spec, a.shape) && k < |spec| && spec[k] == FULL && IndexOk(i, a.shape[k])
    requires Same(b, Outer(a, spec))
    ensures SpecOk(spec[k := PointAt(i)], a.shape) && ResultAxis(spec, k) < |b.shape|
    ensures b.shape[ResultAxis(spec, k)] == a.shape[k]
    ensures Same(DropAxis(b, ResultAxis(spec, k), Wrap(i, a.shape[k])), Outer(a, spec[k := PointAt(i)]))
  {
    DropShape(spec, a.shape, k, i);
    forall ix | Within(ix, OuterShape(spec[k := PointAt(i)], a.shape))
      ensures DropAxis(b, ResultAxis(spec, k), Wrap(i, a.shape[k])).at(ix) == Outer(a, spec[k := PointAt(i)]).at(ix)
    {
      DropStepAt(b, a, spec, k, i, ix);
    }
  }

  lemma {:induction false} ResultAxisNext(spec: seq<Item>, k: nat)
    requires k < |spec|
    ensures ResultAxis(spec, k + 1) == ResultAxis(spec, k) + (if spec[k].PointAt? then 0 else 1)
  {
    if k > 0 { ResultAxisNext(spec[1..], k - 1); }
  }

  /** Items from `k` on have no say in where item `k` lands. */
  lemma {:induction false} ResultAxisOfPrefix(spec: seq<Item>, other: seq<Item>, k: nat)
    requires k <= |spec| && k <= |other| && forall j :: 0 <= j < k ==> spec[j].PointAt? == other[j].PointAt?
    ensures ResultAxis(spec, k) == ResultAxis(other, k)
  {
    if k > 0 { ResultAxisOfPrefix(spec[1..], other[1..], k - 1); }
  }

  lemma FullPull(shape: seq<nat>, spec: seq<Item>, ix: Index)
    requires SpecOk(spec, shape) && spec != [] && spec[0] == FULL && Within(ix, OuterShape(spec, shape))
    requires SpecOk(spec[1..], shape[1..])
    requires forall jx :: Within(jx, OuterShape(spec[1..], shape[1..])) ==> Pull(spec[1..], shape[1..], jx) == jx
    ensures Pull(spec, shape, ix) == ix
  {
    FullPicks(shape[0]);
    PullKeptHead(spec, shape, ix, spec[1..], shape[1..]);
    assert ix == [ix[0]] + ix[1..];
  }

  lemma {:induction false} FullSpecIsIdentity(shape: seq<nat>, spec: seq<Item>)
    requires |spec| == |shape| && forall k :: 0 <= k < |spec| ==> spec[k] == FULL
    ensures SpecOk(spec, shape) && OuterShape(spec, shape) == shape
    ensures forall ix :: Within(ix, shape) ==> Pull(spec, shape, ix) == ix
  {
    if spec != [] {
      FullPicks(shape[0]);
      FullSpecIsIdentity(shape[1..], spec[1..]);
      OuterShapeCons(spec, shape, spec[1..]);
      forall ix | Within(ix, shape) ensures Pull(spec, shape, ix) == ix { FullPull(shape, spec, ix); }
    }
  }

  // ---------------------------------------------------------------- the two orders of reading

  /** The first `k` items as given, the lists among the others still unrestricted. */
  function ListsUpTo(spec: seq<Item>, k: nat): seq<Item> {
    seq(|spec|, j requires 0 <= j < |spec| => if j >= k && spec[j].ListAt? then FULL else spec[j])
  }

  /** The first `k` items as given, all the others still unrestricted. */
  function ItemsUpTo(spec: seq<Item>, k: nat): seq<Item> {
    seq(|spec|, j requires 0 <= j < |spec| => if j >= k then FULL else spec[j])
  }

  /** One more item of a left-to-right reading. */
  function Narrow(b: Nd, item: Item, axis: nat): Nd
    requires axis < |b.shape| && ItemOk(item, b.shape[axis])
  {
    if item.PointAt? then DropAxis(b, axis, Wrap(item.index, b.shape[axis]))
    else Take(b, axis, Picks(item, b.shape[axis]))
  }

  lemma NarrowStep(b: Nd, a: Nd, spec: seq<Item>, k: nat)
    requires SpecOk(spec, a.shape) && k < |spec|
    requires SpecOk(ItemsUpTo(spec, k), a.shape) && Same(b, Outer(a, ItemsUpTo(spec, k)))
    ensures var axis := ResultAxis(spec, k);
            && axis < |b.shape| && b.shape[axis] == a.shape[k] && SpecOk(ItemsUpTo(spec, k + 1), a.shape)
            && Same(Narrow(b, spec[k], axis), Outer(a, ItemsUpTo(spec, k + 1)))
  {
    var s := ItemsUpTo(spec, k);
    assert s[k := spec[k]] == ItemsUpTo(spec, k + 1);
    SameAxis(spec, k);
    if spec[k].PointAt? { DropStep(b, a, s, k, spec[k].index); } else { TakeStep(b, a, s, k, spec[k]); }
  }

  lemma SameAxis(spec: seq<Item>, k: nat)
    requires k < |spec|
    ensures ResultAxis(ItemsUpTo(spec, k), k) == ResultAxis(spec, k) == ResultAxis(ListsUpTo(spec, k), k)
  {
    ResultAxisOfPrefix(ItemsUpTo(spec, k), spec, k);
    ResultAxisOfPrefix(ListsUpTo(spec, k), spec, k);
  }

  /** The reading of the items from `k` on, given what the earlier ones left. */
  function ReadFrom(b: Nd, spec: seq<Item>, k: nat): Result<Nd, Error>
    requires k <= |spec|
    decreases |spec| - k
  {
    if k == |spec| then Ok(b)
    else
      var axis := ResultAxis(spec, k);
      if axis < |b.shape| && ItemOk(spec[k], b.shape[axis]) then ReadFrom(Narrow(b, spec[k], axis), spec, k + 1)
      else Err(BadItem)
  }

  /** Applying the items one axis at a time, left to right, is outer indexing. */
  lemma {:induction false} LeftToRightIsOuter(b: Nd, a: Nd, spec: seq<Item>, k: nat)
    requires SpecOk(spec, a.shape) && k <= |spec|
    requires SpecOk(ItemsUpTo(spec, k), a.shape) && Same(b, Outer(a, ItemsUpTo(spec, k)))
    ensures ReadFrom(b, spec, k).Ok? && Same(ReadFrom(b, spec, k).value, Outer(a, spec))
    decreases |spec| - k
  {
    if k == |spec| {
      assert ItemsUpTo(spec, k) == spec;
    } else {
      NarrowStep(b, a, spec, k);
      LeftToRightIsOuter(Narrow(b, spec[k], ResultAxis(spec, k)), a, spec, k + 1);
    }
  }

  /** The specification applied strictly left to right. */
  function LeftToRight(a: Nd, spec: seq<Item>): Result<Nd, Error> {
    if |spec| != |a.shape| then Err(SpecLength) else ReadFrom(a, spec, 0)
  }

  // ---------------------------------------------------------------- the optimised read

  /** `array[basic]`: points and slices in one indexing operation. */
  function BasicIndex(a: Nd, spec: seq<Item>): Result<Nd, Error>
    requires |spec| == |a.shape| && forall k :: 0 <= k < |spec| ==> !spec[k].ListAt?
  {
    if SpecOk(spec, a.shape) then Ok(Outer(a, spec)) else Err(BadItem)
  }

  /** Points and slices first, then one gather per list; equal to outer indexing of the whole
      specification, and an error exactly when some item does not fit its axis. */
  method ReadIndexSpec(a: Nd, spec: seq<Item>) returns (r: Result<Nd, Error>)
    ensures if |spec| != |a.shape| then r == Err(SpecLength)
            else if SpecOk(spec, a.shape) then r.Ok? && Same(r.value, Outer(a, spec))
            else r == Err(BadItem)
  {
    if |spec| != |a.shape| { return Err(SpecLength); }
    var basic := ListsUpTo(spec, 0);
    var first := BasicIndex(a, basic);
    if first.Err? {
      assert exists k :: 0 <= k < |spec| && !ItemOk(basic[k], a.shape[k]);
      return Err(BadItem);
    }
    var result, resultAxis := first.value, 0;
    for k := 0 to |spec|
      invariant resultAxis == ResultAxis(spec, k)
      invariant forall j :: 0 <= j < k ==> ItemOk(spec[j], a.shape[j])
      invariant SpecOk(ListsUpTo(spec, k), a.shape) && Same(result, Outer(a, ListsUpTo(spec, k)))
    {
      ResultAxisNext(spec, k);
      var s := ListsUpTo(spec, k);
      if spec[k].PointAt? {
        assert s == ListsUpTo(spec, k + 1) && s[k] == spec[k];
        continue;
      }
      if spec[k].ListAt? {
        GatherFits(result, a, spec, k);
        if !ItemOk(spec[k], result.shape[resultAxis]) { return Err(BadItem); }
        assert ItemOk(spec[k], a.shape[k]);
        GatherStep(result, a, spec, k);
        result := Take(result, resultAxis, Picks(spec[k], a.shape[k]));
      } else {
        assert s == ListsUpTo(spec, k + 1) && s[k] == spec[k];
      }
      resultAxis := resultAxis + 1;
    }
    assert ListsUpTo(spec, |spec|) == spec;
    r := Ok(result);
  }

  /** The gather for item `k` works on that item's own source axis. */
  lemma GatherFits(b: Nd, a: Nd, spec: seq<Item>, k: nat)
    requires |spec| == |a.shape| && k < |spec| && spec[k].ListAt?
    requires SpecOk(ListsUpTo(spec, k), a.shape) && Same(b, Outer(a, ListsUpTo(spec, k)))
    ensures ResultAxis(spec, k) < |b.shape| && b.shape[ResultAxis(spec, k)] == a.shape[k]
  {
    SameAxis(spec, k);
    TakeStep(b, a, ListsUpTo(spec, k), k, FULL);
  }

  lemma GatherStep(b: Nd, a: Nd, spec: seq<Item>, k: nat)
    requires |spec| == |a.shape| && k < |spec| && spec[k].ListAt? && ItemOk(spec[k], a.shape[k])
    requires SpecOk(ListsUpTo(spec, k), a.shape) && Same(b, Outer(a, ListsUpTo(spec, k)))
    ensures SpecOk(ListsUpTo(spec, k + 1), a.shape) && ResultAxis(spec, k) < |b.shape|
    ensures Same(Take(b, ResultAxis(spec, k), Picks(spec[k], a.shape[k])), Outer(a, ListsUpTo(spec, k + 1)))
  {
    SameAxis(spec, k);
    assert ListsUpTo(spec, k)[k := spec[k]] == ListsUpTo(spec, k + 1);
    TakeStep(b, a, ListsUpTo(spec, k), k, spec[k]);
  }

  /** Both orders of reading give the same array, for every rank and every fitting specification. */
  lemma ReadingOrdersAgree(a: Nd, spec: seq<Item>)
    requires SpecOk(spec, a.shape)
    ensures LeftToRight(a, spec).Ok? && Same(LeftToRight(a, spec).value, Outer(a, spec))
  {
    var none := ItemsUpTo(spec, 0);
    FullSpecIsIdentity(a.shape, none);
    LeftToRightIsOuter(a, a, spec, 0);
  }

  // ---------------------------------------------------------------- derived sources

  /** A stored array, an affine rescaling of one, or the difference of two sources. */
  datatype Source =
    | Stored(data: Nd)
    | Scaled(raw: Nd, slope: real, inter: real)
    | Difference(a: Source, b: Source)

  function ShapeOf(s: Source): seq<nat> {
    match s
    case Stored(data) => data.shape
    case Scaled(raw, _, _) => raw.shape
    case Difference(a, _) => ShapeOf(a)
  }

  /** The constructor of a difference refuses inputs of unequal shape. */
  predicate WellFormed(s: Source) {
    s.Difference? ==> WellFormed(s.a) && WellFormed(s.b) && ShapeOf(s.a) == ShapeOf(s.b)
  }

  function Map(a: Nd, f: real -> real): Nd { Nd(a.shape, (ix: Index) => f(a.at(ix))) }

  function Subtract(a: Nd, b: Nd): Nd { Nd(a.shape, (ix: Index) => a.at(ix) - b.at(ix)) }

  /** The whole array a source stands for. */
  function Whole(s: Source): (a: Nd)
    ensures a.shape == ShapeOf(s)
  {
    match s
    case Stored(data) => data
    case Scaled(raw, slope, inter) => Map(raw, (v: real) => v * slope + inter)
    case Difference(a, b) => Subtract(Whole(a), Whole(b))
  }

  /** Selecting a region commutes with subtracting element by element. */
  lemma RegionOfDifference(a: Nd, b: Nd, spec: seq<Item>)
    requires a.shape == b.shape && SpecOk(spec, a.shape)
    ensures Same(Outer(Subtract(a, b), spec), Subtract(Outer(a, spec), Outer(b, spec)))
  {
    forall ix | Within(ix, OuterShape(spec, a.shape))
      ensures Outer(Subtract(a, b), spec).at(ix) == Subtract(Outer(a, spec), Outer(b, spec)).at(ix)
    {
      PullWithin(spec, a.shape, ix);
    }
  }

  /** What a region reads lies inside the source. */
  lemma {:induction false} PullWithin(spec: seq<Item>, shape: seq<nat>, ix: Index)
    requires SpecOk(spec, shape) && Within(ix, OuterShape(spec, shape))
    ensures Within(Pull(spec, shape, ix), shape)
  {
    if spec != [] {
      PicksWithin(spec[0], shape[0]);
      if spec[0].PointAt? {
        PullWithin(spec[1..], shape[1..], ix);
      } else {
        PullKeptHead(spec, shape, ix, spec[1..], shape[1..]);
        PullWithin(spec[1..], shape[1..], ix[1..]);
      }
    }
  }

  /** A region of a derived source is computed from the same region of what it derives from, and is
      that region of the whole derived array, however deeply sources are nested. */
  method ReadRegion(s: Source, spec: seq<Item>) returns (r: Result<Nd, Error>)
    requires WellFormed(s)
    ensures if |spec| != |ShapeOf(s)| then r == Err(SpecLength)
            else if SpecOk(spec, ShapeOf(s)) then r.Ok? && Same(r.value, Outer(Whole(s), spec))
            else r == Err(BadItem)
    decreases s
  {
    match s {
      case Stored(data) =>
        r := ReadIndexSpec(data, spec);
      case Scaled(raw, slope, inter) =>
        r := ReadIndexSpec(raw, spec);
        if r.Err? { return; }
        var result := r.value;
        if slope != 1.0 { result := Map(result, (v: real) => v * slope); }
        if inter != 0.0 { result := Map(result, (v: real) => v + inter); }
        r := Ok(result);
      case Difference(a, b) =>
        var regionA := ReadRegion(a, spec);
        if regionA.Err? { return regionA; }
        var regionB := ReadRegion(b, spec);
        if regionB.Err? { return regionB; }
        RegionOfDifference(Whole(a), Whole(b), spec);
        r := Ok(Subtract(regionA.value, regionB.value));
    }
  }

  function Product(shape: seq<nat>): nat { if shape == [] then 1 else shape[0] * Product(shape[1..]) }

  /** Reading everything: refused exactly when the expanded array exceeds the byte budget. */
  method Materialize(s: Source, itemSize: nat, budget: Option<int>) returns (r: Result<Nd, Error>)
    requires WellFormed(s)
    ensures r.Err? <==> budget.Some? && Product(ShapeOf(s)) * itemSize > budget.value
    ensures if r.Err? then r == Err(RefusedByBudget) else Same(r.value, Whole(s))
  {
    if budget.Some? && Product(ShapeOf(s)) * itemSize > budget.value { return Err(RefusedByBudget); }
    var all := seq(|ShapeOf(s)|, _ => FULL);
    FullSpecIsIdentity(ShapeOf(s), all);
    r := ReadRegion(s, all);
  }
}
