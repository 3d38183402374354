/** Migration of a view to another shape: the loops that build it, that it never yields an ill-formed
    view, and exactly when migrating twice is migrating once. */
module ViewMigration {
  import opened Prelude
  import opened ViewState

  predicate Distinct(s: seq<int>) { forall i, j :: 0 <= i < j < |s| ==> s[i] != s[j] }

  /** A shape some view can have. */
  predicate ShapeOk(shape: seq<int>) { |shape| >= 1 && forall a :: 0 <= a < |shape| ==> shape[a] >= 1 }

  // ---------------------------------------------------------------- axes

  lemma {:induction false} NonSingletonFacts(shape: seq<int>, axis: nat)
    requires axis <= |shape|
    ensures forall k :: 0 <= k < |NonSingletonFrom(shape, axis)| ==>
              Survives(NonSingletonFrom(shape, axis)[k], shape) && NonSingletonFrom(shape, axis)[k] >= axis
    ensures forall x :: x >= axis && Survives(x, shape) ==> x in NonSingletonFrom(shape, axis)
    ensures Distinct(NonSingletonFrom(shape, axis))
    decreases |shape| - axis
  {
    if axis < |shape| { NonSingletonFacts(shape, axis + 1); }
  }

  /** Filling keeps what was chosen, draws only from the candidates, and stops short only when it has used them up. */
  lemma {:induction false} FillFacts(chosen: seq<int>, candidates: seq<int>)
    requires Distinct(chosen) && |chosen| <= 2
    ensures var r := Fill(chosen, candidates); Distinct(r) && chosen <= r && |r| <= 2
    ensures forall x :: x in Fill(chosen, candidates) ==> x in chosen || x in candidates
    ensures |Fill(chosen, candidates)| < 2 ==> forall x :: x in candidates ==> x in Fill(chosen, candidates)
    decreases |candidates|
  {
    if |chosen| < 2 && candidates != [] {
      assert candidates == [candidates[0]] + candidates[1..];
      FillFacts(if candidates[0] in chosen then chosen else chosen + [candidates[0]], candidates[1..]);
    }
  }

  lemma {:induction false} FillInTwoParts(chosen: seq<int>, a: seq<int>, b: seq<int>)
    ensures Fill(chosen, a + b) == Fill(Fill(chosen, a), b)
    decreases |a|
  {
    if a == [] {
      assert a + b == b;
    } else if |chosen| < 2 {
      assert (a + b)[1..] == a[1..] + b;
      FillInTwoParts(if a[0] in chosen then chosen else chosen + [a[0]], a[1..], b);
    }
  }

  predicate AllSurvive(axes: seq<int>, shape: seq<int>) { forall k :: 0 <= k < |axes| ==> Survives(axes[k], shape) }

  lemma {:induction false} SurvivingFacts(axes: seq<int>, shape: seq<int>)
    requires Distinct(axes)
    ensures var r := Surviving(axes, shape); Distinct(r) && |r| <= |axes|
    ensures forall x :: x in Surviving(axes, shape) <==> x in axes && Survives(x, shape)
    ensures AllSurvive(axes, shape) ==> Surviving(axes, shape) == axes
  {
    if axes != [] {
      assert axes == [axes[0]] + axes[1..];
      SurvivingFacts(axes[1..], shape);
    }
  }

  /** A sequence of fewer than two entries holds at most one value. */
  lemma Crowded(s: seq<int>, x: int, y: int)
    requires |s| < 2 && x in s && y in s
    ensures x == y
  {
  }

  predicate AxesOk(axes: Option<seq<int>>) { axes.Some? ==> |axes.value| == 2 && Distinct(axes.value) }

  /** Falling back on every axis in turn always completes the choice, and is not needed when there
      are two preferred axes. */
  lemma FillCompletes(chosen: seq<int>, preferred: seq<int>, n: nat)
    requires Distinct(chosen) && |chosen| <= 2 && Distinct(preferred) && n >= 2
    ensures var r := Fill(chosen, preferred + Iota(n));
            |r| == 2 && Distinct(r) && chosen <= r
            && forall x :: x in r ==> x in chosen || x in preferred || 0 <= x < n
    ensures |preferred| >= 2 ==>
              forall x :: x in Fill(chosen, preferred + Iota(n)) ==> x in chosen || x in preferred
  {
    var i := Iota(n);
    FillFacts(chosen, preferred);
    FillFacts(chosen, preferred + i);
    FillInTwoParts(chosen, preferred, i);
    if |Fill(chosen, preferred + i)| < 2 {
      assert i[0] in preferred + i && i[1] in preferred + i;
      Crowded(Fill(chosen, preferred + i), i[0], i[1]);
    }
    if |preferred| >= 2 && |Fill(chosen, preferred)| < 2 {
      Crowded(Fill(chosen, preferred), preferred[0], preferred[1]);
    }
  }

  /** The filled choice, where there is one to fill. */
  lemma FilledChoice(axes: seq<int>, shape: seq<int>) returns (r: seq<int>)
    requires |shape| >= 2 && |axes| == 2 && Distinct(axes)
    ensures MigrateImageAxes(Some(axes), shape) == Some(r) && |r| == 2 && Distinct(r) && Surviving(axes, shape) <= r
    ensures forall x :: x in r ==> 0 <= x < |shape|
    ensures |NonSingleton(shape)| >= 2 ==> forall x :: x in r ==> Survives(x, shape)
  {
    NonSingletonFacts(shape, 0);
    SurvivingFacts(axes, shape);
    FillCompletes(Surviving(axes, shape), NonSingleton(shape), |shape|);
    r := Fill(Surviving(axes, shape), NonSingleton(shape) + Iota(|shape|));
    assert r[..2] == r;
  }

  lemma DefaultChoice(shape: seq<int>)
    requires |shape| >= 2
    ensures var r := DefaultImageAxes(shape);
            r.Some? && |r.value| == 2 && Distinct(r.value) && AllWithin(r.value, |shape|)
            && (|NonSingleton(shape)| >= 2 ==> AllSurvive(r.value, shape))
  {
    NonSingletonFacts(shape, 0);
  }

  /** Which image axes a migration chooses. Where two axes are worth looking at, two such axes are
      chosen, and earlier choices that still are worth looking at come first, in their order. */
  lemma ImageAxesChoice(axes: Option<seq<int>>, shape: seq<int>)
    requires |shape| >= 2 && AxesOk(axes)
    ensures var r := MigrateImageAxes(axes, shape);
            r.Some? && |r.value| == 2 && Distinct(r.value) && AllWithin(r.value, |shape|)
    ensures |NonSingleton(shape)| >= 2 ==> AllSurvive(MigrateImageAxes(axes, shape).value, shape)
    ensures axes.Some? ==> Surviving(axes.value, shape) <= MigrateImageAxes(axes, shape).value
  {
    if axes.Some? {
      var r := FilledChoice(axes.value, shape);
      assert r[0] in r && r[1] in r;
    } else {
      DefaultChoice(shape);
    }
  }

  /** The companion axis chosen next to a lone non-singleton axis. */
  function Companion(s: int): int { if s == 0 then 1 else 0 }

  lemma {:induction false} FillFromIota(chosen: seq<int>, n: nat)
    requires n >= 2 && |chosen| <= 1
    ensures Fill(chosen, Iota(n)) == if chosen == [] then [0, 1] else [chosen[0], Companion(chosen[0])]
  {
    var i := Iota(n);
    var rest := i[1..];
    assert rest[0] == 1;
    assert Fill(chosen, i) == if i[0] in chosen then Fill(chosen, rest) else Fill(chosen + [i[0]], rest);
    if chosen == [] {
      assert Fill([0], rest) == Fill([0] + [1], rest[1..]);
    } else if chosen[0] == 0 {
      assert Fill(chosen, rest) == Fill(chosen + [1], rest[1..]);
    }
  }

  lemma {:induction false} FillFromLone(kept: seq<int>, lone: seq<int>)
    requires |lone| < 2 && Distinct(kept) && forall x :: x in kept ==> x in lone
    ensures Fill(kept, lone) == lone
  {
    forall k | 0 <= k < |kept| ensures kept[k] in lone { assert kept[k] in kept; }
    if |kept| >= 2 { Crowded(lone, kept[0], kept[1]); }
    if lone != [] {
      assert lone == [lone[0]];
      if kept != [] { assert kept[0] in lone; }
    }
  }

  /** With at most one axis worth looking at, what was chosen before decides nothing. */
  lemma ImageAxesOfThinShape(axes: Option<seq<int>>, shape: seq<int>)
    requires |shape| >= 2 && AxesOk(axes) && axes.Some? && |NonSingleton(shape)| < 2
    ensures MigrateImageAxes(axes, shape) ==
            Some(if NonSingleton(shape) == [] then [0, 1]
                 else [NonSingleton(shape)[0], Companion(NonSingleton(shape)[0])])
  {
    var extended := NonSingleton(shape);
    NonSingletonFacts(shape, 0);
    SurvivingFacts(axes.value, shape);
    var kept := Surviving(axes.value, shape);
    FillFromLone(kept, extended);
    FillInTwoParts(kept, extended, Iota(|shape|));
    FillFromIota(extended, |shape|);
    var r := Fill(kept, extended + Iota(|shape|));
    assert r[..2] == r;
  }

  /** A view that shows no image, of an array whose only extended axis is not the first. */
  predicate LoneLaterAxis(v: View, shape: seq<int>) {
    v.imageAxes.None? && |shape| >= 2 && |NonSingleton(shape)| == 1 && NonSingleton(shape)[0] != 0
  }

  /** The chosen image axes are chosen again, except by a view that showed no image. */
  lemma ImageAxesSettle(v: View, shape: seq<int>)
    requires AxesOk(v.imageAxes)
    ensures var r := MigrateImageAxes(v.imageAxes, shape);
            MigrateImageAxes(r, shape) == r <==> !LoneLaterAxis(v, shape)
  {
    if |shape| >= 2 {
      var extended := NonSingleton(shape);
      var r := MigrateImageAxes(v.imageAxes, shape);
      ImageAxesChoice(v.imageAxes, shape);
      if |extended| >= 2 {
        SurvivingFacts(r.value, shape);
        ImageAxesChoice(r, shape);
        assert Surviving(r.value, shape) == r.value;
        assert MigrateImageAxes(r, shape).value == r.value;
      } else {
        ImageAxesOfThinShape(r, shape);
        if v.imageAxes.Some? { ImageAxesOfThinShape(v.imageAxes, shape); }
      }
    }
  }

  lemma LineAxisSettles(axis: Option<int>, shape: seq<int>)
    requires |shape| >= 1
    ensures var r := MigrateLineAxis(axis, shape);
            r.Some? && 0 <= r.value < |shape| && MigrateLineAxis(r, shape) == r
  {
    NonSingletonFacts(shape, 0);
  }

  lemma {:induction false} WithinFacts(indices: seq<int>, size: int)
    ensures AllWithin(Within(indices, size), size)
    ensures AllWithin(indices, size) ==> Within(indices, size) == indices
    ensures (forall k :: 0 <= k < |indices| ==> indices[k] >= size) ==> Within(indices, size) == []
    ensures forall x :: x in Within(indices, size) <==> x in indices && 0 <= x < size
  {
    if indices != [] {
      assert indices == [indices[0]] + indices[1..];
      WithinFacts(indices[1..], size);
      if AllWithin(indices, size) { assert AllWithin(indices[1..], size); }
    }
  }

  // ---------------------------------------------------------------- every migration is well formed

  lemma RangeFacts(v: View, shape: seq<int>, axis: nat)
    requires axis < |shape|
    ensures var r := MigrateRange(v, shape, axis);
            r.Some? ==> r.value != [] && AllWithin(r.value, shape[axis])
  {
    if axis < |v.ranges| && v.ranges[axis].Some? { WithinFacts(v.ranges[axis].value, shape[axis]); }
  }

  lemma MontageFacts(v: View, shape: seq<int>)
    requires AxesOk(v.imageAxes)
    ensures var m := Migrated(v, shape);
            && (m.montageAxis.Some? ==>
                  && Survives(m.montageAxis.value, shape)
                  && (m.imageAxes.Some? ==> m.montageAxis.value !in m.imageAxes.value)
                  && (m.montageIndices.Some? ==>
                        m.montageIndices.value != [] && AllWithin(m.montageIndices.value, shape[m.montageAxis.value])))
            && (m.montageIndices.None? || m.montageAxis.None? ==> m.montageText.None?)
            && (m.montageAxis.None? ==> m.montageIndices == if MontageEmptied(v, shape) then Some([]) else None)
  {
    var axis := KeptMontageAxis(v, shape);
    if axis.Some? && v.montageIndices.Some? && 0 <= axis.value < |shape| {
      WithinFacts(v.montageIndices.value, shape[axis.value]);
    }
  }

  /** The fields handed to construction meet its every demand. */
  lemma MigratedIsValid(v: View, shape: seq<int>)
    requires AxesOk(v.imageAxes) && ShapeOk(shape)
    ensures Valid(Migrated(v, shape))
  {
    var m := Migrated(v, shape);
    if |shape| >= 2 { ImageAxesChoice(v.imageAxes, shape); }
    LineAxisSettles(v.lineAxis, shape);
    MontageFacts(v, shape);
    forall a | 0 <= a < m.ndim && m.ranges[a].Some? ensures AllWithin(m.ranges[a].value, shape[a]) {
      RangeFacts(v, shape, a);
    }
  }

  /** Rewriting a valid view to its one spelling keeps it valid. */
  lemma CanonicalizeKeepsValid(v: View)
    requires Valid(v)
    ensures Valid(Canonicalize(v)) && Canonical(Canonicalize(v))
    ensures Make(v) == Ok(Canonicalize(v))
  {
    var c := Canonicalize(v);
    assert |c.ranges| == v.ndim && |c.texts| == v.ndim;
    forall a | 0 <= a < v.ndim && c.ranges[a].Some? ensures AllWithin(c.ranges[a].value, v.shape[a]) {
      assert c.ranges[a] == v.ranges[a];
    }
    assert Valid(c);
    MadeIsCanonical(v);
  }

  /** Migration never fails on a shape a view can have, always fails on one it cannot, and what it
      yields has that shape, is well formed and is canonically spelled. */
  lemma MigrationIsValid(v: View, shape: seq<int>)
    requires Valid(v)
    ensures ForShape(v, shape).Ok? <==> ShapeOk(shape)
    ensures ShapeOk(shape) ==>
              var m := ForShape(v, shape).value;
              Valid(m) && Canonical(m) && m.shape == shape && m == Canonicalize(Migrated(v, shape))
  {
    if ShapeOk(shape) {
      MigratedIsValid(v, shape);
      CanonicalizeKeepsValid(Migrated(v, shape));
    }
  }

  /** `at` lists, in order, exactly the positions of `given` from `start` on whose index fits. */
  ghost predicate FittingAt(given: seq<int>, size: int, start: nat, at: seq<nat>) {
    && (forall k :: 0 <= k < |at| ==> start <= at[k] < |given| && 0 <= given[at[k]] < size)
    && (forall j, k :: 0 <= j < k < |at| ==> at[j] < at[k])
    && (forall i: nat :: start <= i < |given| && 0 <= given[i] < size ==> i in at)
  }

  function Picked(given: seq<int>, at: seq<nat>): seq<int> {
    seq(|at|, k requires 0 <= k < |at| => if at[k] < |given| then given[at[k]] else 0)
  }

  /** `kept` is the part of `given` that fits `size`, in order: nothing that fits is lost, nothing is added. */
  ghost predicate FittingPart(given: seq<int>, size: int, kept: seq<int>) {
    exists at :: FittingAt(given, size, 0, at) && kept == Picked(given, at)
  }

  function FittingFrom(given: seq<int>, size: int, start: nat): (at: seq<nat>)
    requires start <= |given|
    decreases |given| - start
  {
    if start == |given| then []
    else if 0 <= given[start] < size then [start] + FittingFrom(given, size, start + 1)
    else FittingFrom(given, size, start + 1)
  }

  lemma {:induction false} FittingFromFits(given: seq<int>, size: int, start: nat)
    requires start <= |given|
    ensures FittingAt(given, size, start, FittingFrom(given, size, start))
    decreases |given| - start
  {
    if start < |given| {
      FittingFromFits(given, size, start + 1);
    }
  }

  lemma PickedHead(given: seq<int>, i: nat, later: seq<nat>)
    requires i < |given|
    ensures Picked(given, [i] + later) == [given[i]] + Picked(given, later)
  {
    var at := [i] + later;
    assert forall k :: 0 < k < |at| ==> at[k] == later[k - 1];
  }

  lemma {:induction false} WithinIsPicked(given: seq<int>, size: int, start: nat)
    requires start <= |given|
    ensures Picked(given, FittingFrom(given, size, start)) == Within(given[start..], size)
    decreases |given| - start
  {
    if start < |given| {
      WithinIsPicked(given, size, start + 1);
      var rest := given[start..];
      assert rest[0] == given[start] && rest[1..] == given[start + 1..];
      assert Within(rest, size) == (if 0 <= rest[0] < size then [rest[0]] else []) + Within(rest[1..], size);
      if 0 <= given[start] < size { PickedHead(given, start, FittingFrom(given, size, start + 1)); }
    }
  }

  lemma WithinIsFittingPart(given: seq<int>, size: int)
    ensures FittingPart(given, size, Within(given, size))
  {
    FittingFromFits(given, size, 0);
    WithinIsPicked(given, size, 0);
    assert given[0..] == given;
  }

  /** What a migration keeps, axis by axis: indices that fit, the nearest one where they do not, the centre on
      axes the view did not have, flags, and the part of every range that fits. */
  lemma MigrationKeepsWhatFits(v: View, shape: seq<int>, axis: nat)
    requires Valid(v) && ShapeOk(shape) && axis < |shape|
    ensures ForShape(v, shape).Ok?
    ensures var m := ForShape(v, shape).value;
            && m.sliceIndices[axis] == (if axis >= v.ndim then shape[axis] / 2
                                        else if v.sliceIndices[axis] < shape[axis] then v.sliceIndices[axis]
                                        else shape[axis] - 1)
            && m.flipped[axis] == (axis < v.ndim && v.flipped[axis])
            && m.shifted[axis] == (axis < v.ndim && v.shifted[axis])
            && (axis < v.ndim && v.ranges[axis].Some? && Within(v.ranges[axis].value, shape[axis]) != [] ==>
                  FittingPart(v.ranges[axis].value, shape[axis], Shown(m, axis)))
            && (axis >= v.ndim || v.ranges[axis].None? || Within(v.ranges[axis].value, shape[axis]) == [] ==>
                  Shown(m, axis) == Iota(shape[axis]))
  {
    MigrationIsValid(v, shape);
    var first := Migrated(v, shape);
    CanonicalizeKeepsMeaning(first, axis);
    if axis < v.ndim && v.ranges[axis].Some? { WithinIsFittingPart(v.ranges[axis].value, shape[axis]); }
  }

  /** The line axis stays where it is worth looking at; otherwise the first axis that is takes its place, or the very
      first where none is. */
  lemma LineAxisChoice(line: Option<int>, shape: seq<int>)
    requires ShapeOk(shape)
    ensures var r := MigrateLineAxis(line, shape);
            && r.Some? && 0 <= r.value < |shape|
            && (line.Some? && Survives(line.value, shape) ==> r == line)
            && (!(line.Some? && Survives(line.value, shape)) ==>
                  if exists a :: Survives(a, shape)
                  then Survives(r.value, shape) && forall a :: 0 <= a < r.value ==> shape[a] == 1
                  else r.value == 0)
  {
    NonSingletonFacts(shape, 0);
    FirstIsLeast(shape, 0);
  }

  /** The first axis of the list, and no earlier one, is worth looking at; none is if there is no list. */
  predicate LeadsWith(shape: seq<int>, axis: nat, list: seq<int>) {
    if list == [] then forall a :: axis <= a < |shape| ==> shape[a] == 1
    else axis <= list[0] < |shape| && shape[list[0]] != 1 && forall a :: axis <= a < list[0] ==> shape[a] == 1
  }

  lemma {:induction false} FirstIsLeast(shape: seq<int>, axis: nat)
    requires axis <= |shape|
    ensures LeadsWith(shape, axis, NonSingletonFrom(shape, axis))
    decreases |shape| - axis
  {
    if axis < |shape| && shape[axis] == 1 {
      FirstIsLeast(shape, axis + 1);
      assert NonSingletonFrom(shape, axis) == NonSingletonFrom(shape, axis + 1);
    }
  }

  predicate SomeFits(indices: seq<int>, size: int) { exists i :: i in indices && 0 <= i < size }

  lemma NoneFitsExactlyIf(indices: seq<int>, size: int)
    ensures Within(indices, size) == [] <==> !SomeFits(indices, size)
  {
    WithinFacts(indices, size);
    if SomeFits(indices, size) {
      var i :| i in indices && 0 <= i < size;
      assert i in Within(indices, size);
    }
    if Within(indices, size) != [] { assert Within(indices, size)[0] in Within(indices, size); }
  }

  lemma MontageAxisChoice(v: View, shape: seq<int>)
    requires Valid(v) && ShapeOk(shape)
    ensures var m, axis := Migrated(v, shape), v.montageAxis;
            && (m.montageAxis.Some? ==> m.montageAxis == axis)
            && (m.montageAxis.Some? <==>
                  && axis.Some? && Survives(axis.value, shape)
                  && !(m.imageAxes.Some? && axis.value in m.imageAxes.value)
                  && (v.montageIndices.Some? ==> SomeFits(v.montageIndices.value, shape[axis.value])))
  {
    var axis := v.montageAxis;
    if axis.Some? && Survives(axis.value, shape) && v.montageIndices.Some? {
      NoneFitsExactlyIf(v.montageIndices.value, shape[axis.value]);
    }
  }

  lemma MontageSlices(v: View, shape: seq<int>)
    requires Valid(v) && ShapeOk(shape) && Migrated(v, shape).montageAxis.Some?
    ensures v.montageAxis.Some? && Survives(v.montageAxis.value, shape)
    ensures var m, size := Migrated(v, shape), shape[v.montageAxis.value];
            if v.montageIndices.Some? then FittingPart(v.montageIndices.value, size, MontageShown(m))
            else MontageShown(m) == Iota(size)
  {
    if v.montageIndices.Some? { WithinIsFittingPart(v.montageIndices.value, shape[v.montageAxis.value]); }
  }

  /** A montage stays on an axis worth looking at that is no image axis now, unless slices were picked for it and none
      of them is left; it then shows those left, in their order, or all where none were picked. What the shape cannot
      touch stays as it was. */
  lemma MontageChoice(v: View, shape: seq<int>)
    requires Valid(v) && ShapeOk(shape)
    ensures ForShape(v, shape).Ok?
    ensures var m, axis := ForShape(v, shape).value, v.montageAxis;
            && m.channel == v.channel && m.scale == v.scale
            && (m.montageColumns.Some? <==> v.montageColumns.Some?)
            && (m.montageColumns.Some? ==> m.montageColumns.value == Max(1, v.montageColumns.value))
            && (m.montageAxis.Some? <==>
                  && axis.Some? && Survives(axis.value, shape)
                  && !(m.imageAxes.Some? && axis.value in m.imageAxes.value)
                  && (v.montageIndices.Some? ==> SomeFits(v.montageIndices.value, shape[axis.value])))
            && (m.montageAxis.Some? ==>
                  && m.montageAxis == axis
                  && if v.montageIndices.Some?
                     then FittingPart(v.montageIndices.value, shape[axis.value], MontageShown(m))
                     else MontageShown(m) == Iota(shape[axis.value]))
  {
    MigrationIsValid(v, shape);
    MontageAxisChoice(v, shape);
    CanonicalizeKeepsMeaning(Migrated(v, shape), 0);
    if Migrated(v, shape).montageAxis.Some? { MontageSlices(v, shape); }
  }

  // ---------------------------------------------------------------- migrating to the shape a view has

  /** Nothing about the view is chosen differently by a migration to its own shape. */
  ghost predicate AtHome(v: View)
    requires Valid(v)
  {
    && MigrateImageAxes(v.imageAxes, v.shape) == v.imageAxes && MigrateLineAxis(v.lineAxis, v.shape) == v.lineAxis
    && (v.montageAxis.Some? ==> Survives(v.montageAxis.value, v.shape))
    && (v.montageAxis.None? ==> v.montageIndices.None?)
    && v.montageIndices != Some([]) && (v.montageIndices.None? ==> v.montageText.None?)
    && (forall a :: 0 <= a < v.ndim ==> v.ranges[a] != Some([]) && (v.ranges[a].None? ==> v.texts[a].None?))
  }

  lemma HomeRange(v: View, a: nat)
    requires Valid(v) && a < v.ndim
    ensures MigrateRange(v, v.shape, a) == (if v.ranges[a] == Some([]) then None else v.ranges[a])
  {
    if v.ranges[a].Some? { WithinFacts(v.ranges[a].value, v.shape[a]); }
  }

  lemma HomeStays(v: View)
    requires Valid(v) && Canonical(v) && AtHome(v)
    ensures ForShape(v, v.shape) == Ok(v)
  {
    var m := Migrated(v, v.shape);
    forall a: nat | a < v.ndim ensures m.ranges[a] == v.ranges[a] && m.texts[a] == v.texts[a] { HomeRange(v, a); }
    if v.montageAxis.Some? && v.montageIndices.Some? {
      WithinFacts(v.montageIndices.value, v.shape[v.montageAxis.value]);
    }
    assert m.ranges == v.ranges && m.texts == v.texts && m.sliceIndices == v.sliceIndices;
    assert m.flipped == v.flipped && m.shifted == v.shifted;
    assert m == v;
    MakeIsIdentity(v);
  }

  lemma HomeSelections(v: View, a: nat)
    requires Valid(v) && Canonical(v) && ForShape(v, v.shape) == Ok(v) && a < v.ndim
    ensures v.ranges[a] != Some([]) && (v.ranges[a].None? ==> v.texts[a].None?)
  {
    MigrationIsValid(v, v.shape);
    RangeFacts(v, v.shape, a);
    var c := Canonicalize(Migrated(v, v.shape));
    assert c.ranges[a] == v.ranges[a] && c.texts[a] == v.texts[a];
  }

  /** What respelling can do to a montage. */
  lemma RespelledMontage(m: View)
    ensures var c := Canonicalize(m);
            && c.montageAxis == m.montageAxis && c.imageAxes == m.imageAxes && c.lineAxis == m.lineAxis
            && (c.montageIndices == m.montageIndices || c.montageIndices.None?)
            && (m.montageIndices.None? && m.montageText.None? ==> c.montageText.None?)
            && (c.montageIndices.None? && m.montageIndices.Some? ==> c.montageText.None?)
  {
  }

  lemma HomeIsRespelled(v: View)
    requires Valid(v) && ForShape(v, v.shape) == Ok(v)
    ensures v == Canonicalize(Migrated(v, v.shape))
  {
    MigrationIsValid(v, v.shape);
  }

  /** The montage of a view that is what its migration respells to. */
  lemma RespelledHomeMontage(v: View)
    requires AxesOk(v.imageAxes) && v == Canonicalize(Migrated(v, v.shape))
    ensures v.montageAxis.Some? ==> Survives(v.montageAxis.value, v.shape)
    ensures v.montageAxis.None? ==> v.montageIndices.None?
    ensures v.montageIndices != Some([]) && (v.montageIndices.None? ==> v.montageText.None?)
  {
    RespelledMontage(Migrated(v, v.shape));
    MontageFacts(v, v.shape);
  }

  lemma HomeMontage(v: View)
    requires Valid(v) && ForShape(v, v.shape) == Ok(v)
    ensures v.montageAxis.Some? ==> Survives(v.montageAxis.value, v.shape)
    ensures v.montageAxis.None? ==> v.montageIndices.None?
    ensures v.montageIndices != Some([]) && (v.montageIndices.None? ==> v.montageText.None?)
  {
    HomeIsRespelled(v);
    RespelledHomeMontage(v);
  }

  lemma HomeAxes(v: View)
    requires Valid(v) && Canonical(v) && ForShape(v, v.shape) == Ok(v)
    ensures MigrateImageAxes(v.imageAxes, v.shape) == v.imageAxes && MigrateLineAxis(v.lineAxis, v.shape) == v.lineAxis
  {
    HomeIsRespelled(v);
    RespelledMontage(Migrated(v, v.shape));
  }

  lemma StaysIsHome(v: View)
    requires Valid(v) && Canonical(v) && ForShape(v, v.shape) == Ok(v)
    ensures AtHome(v)
  {
    HomeAxes(v);
    HomeMontage(v);
    forall a: nat | a < v.ndim ensures v.ranges[a] != Some([]) && (v.ranges[a].None? ==> v.texts[a].None?) {
      HomeSelections(v, a);
    }
  }

  /** Migrating a view to the shape it has leaves it alone if and only if nothing would be chosen differently. */
  lemma HomeExactlyIf(v: View)
    requires Valid(v) && Canonical(v)
    ensures ForShape(v, v.shape) == Ok(v) <==> AtHome(v)
  {
    if AtHome(v) { HomeStays(v); }
    if ForShape(v, v.shape) == Ok(v) { StaysIsHome(v); }
  }

  // ---------------------------------------------------------------- migrating twice

  /** Migrating the migrated view rewrites nothing but, possibly, image axes and emptied montages. */
  lemma PerAxisFieldsSettle(v: View, shape: seq<int>)
    requires Valid(v) && ShapeOk(shape)
    ensures var m := Canonicalize(Migrated(v, shape));
            var again := Migrated(m, shape);
            && again.ranges == m.ranges && again.texts == m.texts && again.sliceIndices == m.sliceIndices
            && again.flipped == m.flipped && again.shifted == m.shifted && again.lineAxis == m.lineAxis
            && again.ndim == m.ndim && again.shape == m.shape && again.channel == m.channel && again.scale == m.scale
            && again.montageColumns == m.montageColumns
  {
    var first := Migrated(v, shape);
    var m := Canonicalize(first);
    var again := Migrated(m, shape);
    MigrationIsValid(v, shape);
    LineAxisSettles(v.lineAxis, shape);
    forall a: nat | a < |shape| ensures again.ranges[a] == m.ranges[a] && again.texts[a] == m.texts[a] {
      RangeFacts(v, shape, a);
      if m.ranges[a].Some? { WithinFacts(m.ranges[a].value, shape[a]); }
    }
    assert again.ranges == m.ranges && again.texts == m.texts;
    forall a: nat | a < |shape| ensures again.sliceIndices[a] == m.sliceIndices[a] {}
    assert again.sliceIndices == m.sliceIndices;
    assert again.flipped == m.flipped && again.shifted == m.shifted;
  }

  lemma MontageSettles(v: View, shape: seq<int>)
    requires Valid(v) && ShapeOk(shape) && !LoneLaterAxis(v, shape)
    ensures var m := Canonicalize(Migrated(v, shape));
            var again := Migrated(m, shape);
            again.montageAxis == m.montageAxis
            && (!MontageEmptied(v, shape) ==>
                  again.montageIndices == m.montageIndices && again.montageText == m.montageText)
            && (MontageEmptied(v, shape) ==> again.montageIndices != m.montageIndices)
  {
    var m := Canonicalize(Migrated(v, shape));
    ImageAxesSettle(v, shape);
    MontageFacts(v, shape);
    if m.montageAxis.Some? && m.montageIndices.Some? {
      WithinFacts(m.montageIndices.value, shape[m.montageAxis.value]);
    }
  }

  lemma NoMontageNoSelection(v: View, shape: seq<int>)
    requires Valid(v) && ShapeOk(shape) && v.montageAxis.None?
    ensures ForShape(v, shape).Ok? && ForShape(v, shape).value.montageIndices.None?
  {
    MigrationIsValid(v, shape);
    assert Migrated(v, shape).montageIndices.None?;
  }

  lemma RespelledWithoutMontage(m: View)
    requires m.montageAxis == None
    ensures Canonicalize(m).montageAxis == None && Canonicalize(m).montageIndices == m.montageIndices
  {
  }

  lemma EmptiedMontage(v: View, shape: seq<int>)
    requires AxesOk(v.imageAxes) && MontageEmptied(v, shape)
    ensures var m := Migrated(v, shape); m.montageAxis == None && m.montageIndices == Some([])
  {
    MontageFacts(v, shape);
  }

  lemma MigrationIsRespelled(v: View, shape: seq<int>)
    requires Valid(v) && ShapeOk(shape)
    ensures ForShape(v, shape) == Ok(Canonicalize(Migrated(v, shape)))
  {
    MigrationIsValid(v, shape);
  }

  /** What a migration that empties a montage leaves behind. */
  lemma EmptiedSelection(v: View, shape: seq<int>)
    requires Valid(v) && ShapeOk(shape) && MontageEmptied(v, shape)
    ensures ForShape(v, shape).Ok?
    ensures var once := ForShape(v, shape).value; once.montageAxis == None && once.montageIndices == Some([])
  {
    MigrationIsRespelled(v, shape);
    EmptiedMontage(v, shape);
    RespelledWithoutMontage(Migrated(v, shape));
  }

  /** An emptied montage selection lingers as an empty selection of no axis, until the next migration drops it. */
  lemma EmptiedSelectionLingers(v: View, shape: seq<int>)
    requires Valid(v) && ShapeOk(shape) && MontageEmptied(v, shape)
    ensures ForShape(v, shape).Ok?
    ensures var once := ForShape(v, shape).value;
            once.montageAxis == None && once.montageIndices == Some([])
            && ForShape(once, shape).Ok? && ForShape(once, shape).value.montageIndices == None
  {
    MigrationIsValid(v, shape);
    EmptiedSelection(v, shape);
    NoMontageNoSelection(ForShape(v, shape).value, shape);
  }

  lemma InventedAxesMove(v: View, shape: seq<int>)
    requires Valid(v) && ShapeOk(shape) && LoneLaterAxis(v, shape)
    ensures ForShape(v, shape).Ok? && ForShape(ForShape(v, shape).value, shape) != ForShape(v, shape)
  {
    MigrationIsValid(v, shape);
    MigrationIsValid(ForShape(v, shape).value, shape);
    ImageAxesSettle(v, shape);
  }

  lemma FieldsSettle(v: View, shape: seq<int>)
    requires Valid(v) && ShapeOk(shape) && !LoneLaterAxis(v, shape) && !MontageEmptied(v, shape)
    ensures var m := Canonicalize(Migrated(v, shape)); Migrated(m, shape) == m
  {
    ImageAxesSettle(v, shape);
    MontageSettles(v, shape);
    PerAxisFieldsSettle(v, shape);
  }

  lemma OtherwiseSettled(v: View, shape: seq<int>)
    requires Valid(v) && ShapeOk(shape) && !LoneLaterAxis(v, shape) && !MontageEmptied(v, shape)
    ensures ForShape(v, shape).Ok? && ForShape(ForShape(v, shape).value, shape) == ForShape(v, shape)
  {
    MigrationIsValid(v, shape);
    FieldsSettle(v, shape);
    MakeIsIdentity(ForShape(v, shape).value);
  }

  /** Migrating to the shape a view already has changes nothing exactly when the first migration did
      not empty an explicit montage selection and did not invent image axes over a lone later axis. */
  lemma MigrationSettles(v: View, shape: seq<int>)
    requires Valid(v) && ShapeOk(shape)
    ensures ForShape(v, shape).Ok?
    ensures var m := ForShape(v, shape).value;
            ForShape(m, shape) == Ok(m) <==> !MontageEmptied(v, shape) && !LoneLaterAxis(v, shape)
  {
    if LoneLaterAxis(v, shape) {
      InventedAxesMove(v, shape);
    } else if MontageEmptied(v, shape) {
      EmptiedSelectionLingers(v, shape);
    } else {
      OtherwiseSettled(v, shape);
    }
  }

  // A montage of the last slices of an array, and an array that ends before them.
  const LONGER: seq<int> := [4, 4, 10]
  const SHORTER: seq<int> := [4, 4, 5]

  function MontageOfTheEnd(): View {
    View(3, LONGER, Some([0, 1]), Some(0), [0, 0, 0], Real, Linear, [false, false, false], [false, false, false],
         Some(2), None, Some([7, 8]), Some("7:9"), [None, None, None], [None, None, None])
  }

  /** A montage all of whose indices lie past the end of the new extent is emptied. */
  lemma PastTheEndIsEmptied(v: View, shape: seq<int>)
    requires Valid(v) && ShapeOk(shape) && |shape| >= 2
    requires v.imageAxes.Some? && AllSurvive(v.imageAxes.value, shape)
    requires v.montageAxis.Some? && Survives(v.montageAxis.value, shape) && v.montageIndices.Some?
    requires forall k :: 0 <= k < |v.montageIndices.value| ==> v.montageIndices.value[k] >= shape[v.montageAxis.value]
    ensures MontageEmptied(v, shape)
  {
    var chosen := v.imageAxes.value;
    SurvivingFacts(chosen, shape);
    ImageAxesChoice(v.imageAxes, shape);
    assert MigrateImageAxes(v.imageAxes, shape).value == chosen;
    var size := shape[v.montageAxis.value];
    WithinFacts(v.montageIndices.value, size);
  }

  lemma MontageOfTheEndIsAView(v: View)
    requires v == MontageOfTheEnd()
    ensures Valid(v) && Canonical(v)
  {
    assert v.shape[2] == 10;
    assert |Iota(v.shape[2])| == 10;
  }

  /** Not every migration settles, even of a view that shows an image. */
  lemma SomeMigrationDoesNotSettle(v: View)
    requires v == MontageOfTheEnd()
    ensures Valid(v) && Canonical(v) && v.imageAxes.Some? && MontageEmptied(v, SHORTER)
    ensures ForShape(v, SHORTER).Ok? && ForShape(ForShape(v, SHORTER).value, SHORTER) != ForShape(v, SHORTER)
  {
    MontageOfTheEndIsAView(v);
    PastTheEndIsEmptied(v, SHORTER);
    MigrationSettles(v, SHORTER);
  }

  // ---------------------------------------------------------------- the loops

  /** The loop that completes the image axes. */
  method FillImageAxes(retained: seq<int>, candidates: seq<int>) returns (chosen: seq<int>)
    ensures chosen == Fill(retained, candidates)
  {
    chosen := retained;
    var k := 0;
    while k < |candidates| && |chosen| < 2
      invariant 0 <= k <= |candidates|
      invariant Fill(chosen, candidates[k..]) == Fill(retained, candidates)
    {
      var axis := candidates[k];
      assert candidates[k..][0] == axis && candidates[k..][1..] == candidates[k + 1..];
      if axis !in chosen { chosen := chosen + [axis]; }
      k := k + 1;
    }
  }

  /** The loop that migrates the per-axis ranges and their texts. */
  method MigrateRanges(v: View, shape: seq<int>) returns (ranges: seq<Option<seq<int>>>, texts: seq<Option<string>>)
    requires Valid(v)
    ensures ranges == Migrated(v, shape).ranges && texts == Migrated(v, shape).texts
  {
    ranges, texts := [], [];
    for axis := 0 to |shape|
      invariant |ranges| == axis && |texts| == axis
      invariant forall a :: 0 <= a < axis ==>
                  ranges[a] == MigrateRange(v, shape, a) && texts[a] == MigrateText(v, shape, a)
    {
      var indices := if axis < |v.ranges| then v.ranges[axis] else None;
      var text := if axis < |v.texts| then v.texts[axis] else None;
      if indices.None? {
        ranges, texts := ranges + [None], texts + [None];
        continue;
      }
      var kept := Within(indices.value, shape[axis]);
      ranges := ranges + [if kept != [] then Some(kept) else None];
      texts := texts + [if kept != [] then text else None];
    }
  }

  // ---------------------------------------------------------------- copies that skip construction

  /** `tile_state_for_slice`: a copy made without construction's checks. */
  function TileForSlice(v: View, axis: int, index: int): Result<View, Error> {
    if !(0 <= axis < v.ndim) || !(axis < |v.shape| && 0 <= index < v.shape[axis]) || axis >= |v.sliceIndices|
    then Err(Invalid)
    else Ok(v.(sliceIndices := v.sliceIndices[axis := index],
               montageAxis := None, montageColumns := None, montageIndices := None, montageText := None))
  }

  /** `with_slice`: likewise. */
  function WithSlice(v: View, axis: int, index: int): Result<View, Error> {
    if !(0 <= axis < v.ndim) || !(axis < |v.shape| && 0 <= index < v.shape[axis]) || axis >= |v.sliceIndices|
    then Err(Invalid)
    else Ok(v.(sliceIndices := v.sliceIndices[axis := index]))
  }

  /** `with_montage_axis(None, columns)`: likewise. */
  function WithoutMontage(v: View, columns: Option<int>): View {
    v.(montageAxis := None, montageColumns := if columns.Some? then Some(Max(1, columns.value)) else None,
       montageIndices := None, montageText := None)
  }

  /** The copies that skip construction yield exactly what construction would have. */
  lemma UncheckedCopiesAreSafe(v: View, axis: int, index: int, columns: Option<int>)
    requires Valid(v) && Canonical(v)
    ensures TileForSlice(v, axis, index).Ok? <==> 0 <= axis < v.ndim && 0 <= index < v.shape[axis]
    ensures WithSlice(v, axis, index).Ok? <==> TileForSlice(v, axis, index).Ok?
    ensures TileForSlice(v, axis, index).Ok? ==>
              Make(TileForSlice(v, axis, index).value) == TileForSlice(v, axis, index)
              && Make(WithSlice(v, axis, index).value) == WithSlice(v, axis, index)
    ensures Make(WithoutMontage(v, columns)) == Ok(WithoutMontage(v, columns))
  {
    if TileForSlice(v, axis, index).Ok? {
      MakeIsIdentity(TileForSlice(v, axis, index).value);
      MakeIsIdentity(WithSlice(v, axis, index).value);
    }
    MakeIsIdentity(WithoutMontage(v, columns));
  }

  /** The two differ in nothing but the montage. */
  predicate SameButMontage(v: View, w: View) {
    v == w.(montageAxis := v.montageAxis, montageColumns := v.montageColumns, montageIndices := v.montageIndices,
            montageText := v.montageText)
  }

  predicate NoMontage(v: View) { v.montageAxis.None? && v.montageIndices.None? && v.montageText.None? }

  /** What they change: another slice of one axis, all others as they were; for a tile no montage besides; and without a
      montage nothing but that, the columns asked for kept from one up. */
  lemma UncheckedCopiesShow(v: View, axis: int, index: int, columns: Option<int>)
    requires Valid(v) && TileForSlice(v, axis, index).Ok? && WithSlice(v, axis, index).Ok?
    ensures var w := WithSlice(v, axis, index).value;
            && w.sliceIndices == v.sliceIndices[..axis] + [index] + v.sliceIndices[axis + 1..]
            && w.(sliceIndices := v.sliceIndices) == v
            && var t := TileForSlice(v, axis, index).value;
               SameButMontage(t, w) && NoMontage(t) && t.montageColumns.None?
    ensures var n := WithoutMontage(v, columns);
            && SameButMontage(n, v) && NoMontage(n) && (n.montageColumns.Some? <==> columns.Some?)
            && (columns.Some? ==> n.montageColumns.value == if columns.value >= 1 then columns.value else 1)
  {
  }
}
