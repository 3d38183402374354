/** The view of an n-dimensional array: construction with one canonical spelling, and migration to
    another shape. */
module ViewState {
  import opened Prelude

  datatype Channel = Complex | Real | Imag | AbsValue | Angle
  datatype Scale = Linear | Log | SymLog

  datatype View = View(
    ndim: int, shape: seq<int>, imageAxes: Option<seq<int>>, lineAxis: Option<int>, sliceIndices: seq<int>,
    channel: Channel, scale: Scale, flipped: seq<bool>, shifted: seq<bool>,
    montageAxis: Option<int>, montageColumns: Option<int>, montageIndices: Option<seq<int>>,
    montageText: Option<string>,
    ranges: seq<Option<seq<int>>>, texts: seq<Option<string>>)

  datatype Error = Invalid

  function Iota(n: int): (r: seq<int>)
    ensures |r| == Max(0, n) && forall k :: 0 <= k < |r| ==> r[k] == k
  {
    seq(Max(0, n), k => k)
  }

  // ---------------------------------------------------------------- construction

  function RangesOrDefault(v: View): seq<Option<seq<int>>> {
    if v.ranges == [] then seq(Max(0, v.ndim), _ => None) else v.ranges
  }

  function TextsOrDefault(v: View): seq<Option<string>> {
    if v.texts == [] then seq(Max(0, v.ndim), _ => None) else v.texts
  }

  /** The range at `axis` selects the whole axis. */
  predicate WholeAxis(shape: seq<int>, ranges: seq<Option<seq<int>>>, axis: nat) {
    axis < |shape| && axis < |ranges| && ranges[axis] == Some(Iota(shape[axis]))
  }

  predicate WholeMontage(v: View) {
    && v.montageAxis.Some? && v.montageIndices.Some? && 0 <= v.montageAxis.value < |v.shape|
    && v.montageIndices.value == Iota(v.shape[v.montageAxis.value])
  }

  /** One spelling: selecting everything is written as selecting nothing in particular. */
  function Canonicalize(v: View): View {
    var ranges, texts := RangesOrDefault(v), TextsOrDefault(v);
    v.(ranges := seq(|ranges|, a requires 0 <= a < |ranges| =>
                                   if WholeAxis(v.shape, ranges, a) then None else ranges[a]),
       texts := seq(|texts|, a requires 0 <= a < |texts| => if WholeAxis(v.shape, ranges, a) then None else texts[a]),
       montageColumns := if v.montageColumns.Some? then Some(Max(1, v.montageColumns.value)) else None,
       montageIndices := if WholeMontage(v) then None else v.montageIndices,
       montageText := if WholeMontage(v) then None else v.montageText)
  }

  predicate AxisOk(v: View, axis: int) { 0 <= axis < v.ndim }

  predicate AllWithin(indices: seq<int>, size: int) { forall k :: 0 <= k < |indices| ==> 0 <= indices[k] < size }

  /** What construction demands. */
  predicate Valid(v: View) {
    && v.ndim >= 1 && |v.shape| == v.ndim && (forall a :: 0 <= a < v.ndim ==> v.shape[a] >= 1)
    && (v.imageAxes.Some? ==>
          |v.imageAxes.value| == 2 && AxisOk(v, v.imageAxes.value[0]) && AxisOk(v, v.imageAxes.value[1])
          && v.imageAxes.value[0] != v.imageAxes.value[1])
    && (v.lineAxis.Some? ==> AxisOk(v, v.lineAxis.value))
    && (v.montageAxis.Some? ==>
          && AxisOk(v, v.montageAxis.value)
          && (v.imageAxes.Some? ==> v.montageAxis.value !in v.imageAxes.value)
          && (v.montageIndices.Some? ==> AllWithin(v.montageIndices.value, v.shape[v.montageAxis.value])))
    && |v.sliceIndices| == v.ndim && (forall a :: 0 <= a < v.ndim ==> 0 <= v.sliceIndices[a] < v.shape[a])
    && |v.flipped| == v.ndim && |v.shifted| == v.ndim && |v.ranges| == v.ndim && |v.texts| == v.ndim
    && (forall a :: 0 <= a < v.ndim && v.ranges[a].Some? ==> AllWithin(v.ranges[a].value, v.shape[a]))
  }

  /** No selection is spelled as the list of everything. */
  predicate Canonical(v: View) {
    && (forall a: nat :: a < |v.ranges| ==> !WholeAxis(v.shape, v.ranges, a))
    && !WholeMontage(v)
    && (v.montageColumns.Some? ==> v.montageColumns.value >= 1)
  }

  /** The indices an axis shows, however that is spelled. */
  function Shown(v: View, axis: nat): seq<int>
    requires axis < |v.shape|
  {
    if axis < |v.ranges| && v.ranges[axis].Some? then v.ranges[axis].value else Iota(v.shape[axis])
  }

  /** The slices a montage shows. */
  function MontageShown(v: View): seq<int> {
    if v.montageAxis.None? || !(0 <= v.montageAxis.value < |v.shape|) then []
    else if v.montageIndices.Some? then v.montageIndices.value
    else Iota(v.shape[v.montageAxis.value])
  }

  /** Respelling changes nothing that is shown. */
  lemma CanonicalizeKeepsMeaning(v: View, axis: nat)
    requires axis < |v.shape|
    ensures Shown(Canonicalize(v), axis) == Shown(v, axis) && MontageShown(Canonicalize(v)) == MontageShown(v)
  {
    var c := Canonicalize(v);
    if axis < |v.ranges| {
      assert WholeAxis(v.shape, RangesOrDefault(v), axis) ==> v.ranges[axis] == Some(Iota(v.shape[axis]));
    }
  }

  function Make(v: View): (r: Result<View, Error>)
  {
    if Valid(Canonicalize(v)) then Ok(Canonicalize(v)) else Err(Invalid)
  }

  /** Whatever construction accepts is valid and canonical. */
  lemma MadeIsCanonical(v: View)
    requires Make(v).Ok?
    ensures Valid(Make(v).value) && Canonical(Make(v).value)
  {
    var c := Canonicalize(v);
    forall a: nat | a < |c.ranges| ensures !WholeAxis(c.shape, c.ranges, a) {}
  }

  /** Constructing a valid canonical view again changes nothing. */
  lemma MakeIsIdentity(v: View)
    requires Valid(v) && Canonical(v)
    ensures Make(v) == Ok(v)
  {
    var c := Canonicalize(v);
    assert c.ranges == v.ranges && c.texts == v.texts;
    assert c == v;
  }

  predicate IsAxis(v: View, axis: int) { 0 <= axis < v.ndim }

  /** Everything the axis shows is there. */
  predicate ShowsWhatIs(v: View, axis: nat)
    requires axis < |v.shape|
  {
    forall i :: i in Shown(v, axis) ==> 0 <= i < v.shape[axis]
  }

  predicate TwoAxes(v: View, axes: seq<int>) {
    |axes| == 2 && IsAxis(v, axes[0]) && IsAxis(v, axes[1]) && axes[0] != axes[1]
  }

  lemma WithinMeans(indices: seq<int>, size: int)
    ensures AllWithin(indices, size) <==> forall i :: i in indices ==> 0 <= i < size
  {
    if AllWithin(indices, size) {
      forall i | i in indices ensures 0 <= i < size { var k :| 0 <= k < |indices| && indices[k] == i; }
    } else {
      var k :| 0 <= k < |indices| && !(0 <= indices[k] < size);
      assert indices[k] in indices;
    }
  }

  lemma RangeExistsExactlyIf(v: View, axis: nat)
    requires axis < |v.shape| == v.ndim && |RangesOrDefault(v)| == v.ndim
    ensures var ranges := Canonicalize(v).ranges;
            && axis < |ranges|
            && ((ranges[axis].Some? ==> AllWithin(ranges[axis].value, v.shape[axis])) <==> ShowsWhatIs(v, axis))
  {
    CanonicalizeKeepsMeaning(v, axis);
    var ranges := Canonicalize(v).ranges;
    if ranges[axis].Some? { WithinMeans(ranges[axis].value, v.shape[axis]); }
  }

  lemma MontageExistsExactlyIf(v: View)
    requires v.montageAxis.Some? && 0 <= v.montageAxis.value < |v.shape|
    ensures var kept, size := Canonicalize(v).montageIndices, v.shape[v.montageAxis.value];
            (kept.Some? ==> AllWithin(kept.value, size)) <==> forall i :: i in MontageShown(v) ==> 0 <= i < size
  {
    CanonicalizeKeepsMeaning(v, v.montageAxis.value);
    var kept := Canonicalize(v).montageIndices;
    if kept.Some? { WithinMeans(kept.value, v.shape[v.montageAxis.value]); }
  }

  /** Construction accepts a view exactly if its shape is one, the axes it names exist and differ where they must, its
      lists have an entry for every axis (ranges and texts may be left out), and everything it shows exists. */
  lemma MakeAcceptsExactlyIf(v: View)
    ensures Make(v).Ok? <==>
              && v.ndim >= 1 && |v.shape| == v.ndim && (forall a :: IsAxis(v, a) ==> v.shape[a] >= 1)
              && (v.imageAxes.Some? ==> TwoAxes(v, v.imageAxes.value))
              && (v.lineAxis.Some? ==> IsAxis(v, v.lineAxis.value))
              && |v.sliceIndices| == v.ndim && (forall a :: IsAxis(v, a) ==> 0 <= v.sliceIndices[a] < v.shape[a])
              && |v.flipped| == v.ndim && |v.shifted| == v.ndim
              && (v.ranges == [] || |v.ranges| == v.ndim) && (v.texts == [] || |v.texts| == v.ndim)
              && (forall axis: nat :: IsAxis(v, axis) ==> ShowsWhatIs(v, axis))
              && (v.montageAxis.Some? ==>
                    && IsAxis(v, v.montageAxis.value)
                    && (v.imageAxes.Some? ==> v.montageAxis.value !in v.imageAxes.value)
                    && forall i :: i in MontageShown(v) ==> 0 <= i < v.shape[v.montageAxis.value])
  {
    var c := Canonicalize(v);
    if v.ndim >= 1 && |v.shape| == v.ndim && |c.ranges| == v.ndim {
      forall axis: nat | axis < v.ndim
        ensures (c.ranges[axis].Some? ==> AllWithin(c.ranges[axis].value, v.shape[axis])) <==> ShowsWhatIs(v, axis)
      {
        RangeExistsExactlyIf(v, axis);
      }
      if v.montageAxis.Some? && IsAxis(v, v.montageAxis.value) { MontageExistsExactlyIf(v); }
    }
    if Make(v).Ok? { assert forall a :: IsAxis(v, a) ==> IsAxis(c, a) && AxisOk(c, a); }
  }

  /** One spelling for one meaning: of the views construction accepts, those that show the same through an axis hold the
      same range for it, and those with one montage that show the same slices hold the same selection. */
  lemma OneSpelling(v: View, w: View, axis: nat)
    requires Make(v).Ok? && Make(w).Ok? && v.shape == w.shape && axis < |v.shape|
    ensures Shown(v, axis) == Shown(w, axis) ==> Make(v).value.ranges[axis] == Make(w).value.ranges[axis]
    ensures v.montageAxis.Some? && v.montageAxis == w.montageAxis && MontageShown(v) == MontageShown(w) ==>
              Make(v).value.montageIndices == Make(w).value.montageIndices
  {
    CanonicalizeKeepsMeaning(v, axis);
    CanonicalizeKeepsMeaning(w, axis);
    MadeIsCanonical(v);
    MadeIsCanonical(w);
    var a, b := Make(v).value, Make(w).value;
    assert !WholeAxis(a.shape, a.ranges, axis) && !WholeAxis(b.shape, b.ranges, axis);
  }

  // ---------------------------------------------------------------- migration to another shape

  function NonSingletonFrom(shape: seq<int>, axis: nat): seq<int>
    requires axis <= |shape|
    decreases |shape| - axis
  {
    if axis == |shape| then []
    else (if shape[axis] != 1 then [axis as int] else []) + NonSingletonFrom(shape, axis + 1)
  }

  function NonSingleton(shape: seq<int>): seq<int> { NonSingletonFrom(shape, 0) }

  function Center(size: int): int { Max(0, size / 2) }

  function ClampIndex(size: int, index: int): int { Max(0, Min(index, size - 1)) }

  /** The first axes worth looking at: two axes that are not singletons, else the first two. */
  function DefaultImageAxes(shape: seq<int>): Option<seq<int>> {
    if |shape| < 2 then None
    else Some(if |NonSingleton(shape)| >= 2 then NonSingleton(shape)[..2] else [0, 1])
  }

  function DefaultLineAxis(shape: seq<int>): Option<int> {
    if NonSingleton(shape) != [] then Some(NonSingleton(shape)[0]) else if |shape| > 0 then Some(0) else None
  }

  /** Append candidates not yet present until two axes are chosen. */
  function Fill(chosen: seq<int>, candidates: seq<int>): seq<int>
    decreases |candidates|
  {
    if |chosen| >= 2 || candidates == [] then chosen
    else if candidates[0] in chosen then Fill(chosen, candidates[1..])
    else Fill(chosen + [candidates[0]], candidates[1..])
  }

  predicate Survives(axis: int, shape: seq<int>) { 0 <= axis < |shape| && shape[axis] != 1 }

  function Surviving(axes: seq<int>, shape: seq<int>): seq<int> {
    if axes == [] then [] else (if Survives(axes[0], shape) then [axes[0]] else []) + Surviving(axes[1..], shape)
  }

  function MigrateImageAxes(axes: Option<seq<int>>, shape: seq<int>): Option<seq<int>> {
    if |shape| >= 2 && axes.Some? then
      var r := Fill(Surviving(axes.value, shape), NonSingleton(shape) + Iota(|shape|));
      if |r| >= 2 then Some(r[..2]) else DefaultImageAxes(shape)
    else DefaultImageAxes(shape)
  }

  function MigrateLineAxis(axis: Option<int>, shape: seq<int>): Option<int> {
    if axis.Some? && Survives(axis.value, shape) then axis else DefaultLineAxis(shape)
  }

  function Within(indices: seq<int>, size: int): seq<int> {
    if indices == [] then []
    else (if 0 <= indices[0] < size then [indices[0]] else []) + Within(indices[1..], size)
  }

  /** The montage axis that could be kept, before its indices are looked at. */
  function KeptMontageAxis(v: View, shape: seq<int>): Option<int> {
    var image := MigrateImageAxes(v.imageAxes, shape);
    if v.montageAxis.Some? && Survives(v.montageAxis.value, shape)
       && !(image.Some? && v.montageAxis.value in image.value) then v.montageAxis else None
  }

  /** Explicit montage indices none of which fits the new extent. */
  predicate MontageEmptied(v: View, shape: seq<int>) {
    var axis := KeptMontageAxis(v, shape);
    axis.Some? && v.montageIndices.Some? && 0 <= axis.value < |shape|
    && Within(v.montageIndices.value, shape[axis.value]) == []
  }

  function MigrateRange(v: View, shape: seq<int>, axis: nat): Option<seq<int>>
    requires axis < |shape|
  {
    if axis < |v.ranges| && v.ranges[axis].Some? then
      var kept := Within(v.ranges[axis].value, shape[axis]);
      if kept == [] then None else Some(kept)
    else None
  }

  function MigrateText(v: View, shape: seq<int>, axis: nat): Option<string>
    requires axis < |shape|
  {
    if MigrateRange(v, shape, axis).Some? && axis < |v.texts| then v.texts[axis] else None
  }

  function Flags(flags: seq<bool>, n: nat): seq<bool> {
    seq(n, a requires 0 <= a < n => if a < |flags| then flags[a] else false)
  }

  /** The fields handed to construction. */
  function Migrated(v: View, shape: seq<int>): View {
    var n := |shape|;
    var axis := KeptMontageAxis(v, shape);
    var explicit := axis.Some? && v.montageIndices.Some? && 0 <= axis.value < n;
    View(n, shape, MigrateImageAxes(v.imageAxes, shape), MigrateLineAxis(v.lineAxis, shape),
         seq(n, a requires 0 <= a < n =>
           ClampIndex(shape[a], if a < v.ndim && a < |v.sliceIndices| then v.sliceIndices[a] else Center(shape[a]))),
         v.channel, v.scale, Flags(v.flipped, n), Flags(v.shifted, n),
         if MontageEmptied(v, shape) then None else axis,
         v.montageColumns,
         if explicit then Some(Within(v.montageIndices.value, shape[axis.value])) else None,
         if explicit && !MontageEmptied(v, shape) then v.montageText else None,
         seq(n, a requires 0 <= a < n => MigrateRange(v, shape, a)),
         seq(n, a requires 0 <= a < n => MigrateText(v, shape, a)))
  }

  /** `for_shape`: refused only for a shape no view can have. */
  function ForShape(v: View, shape: seq<int>): Result<View, Error> {
    if |shape| < 1 || exists a :: 0 <= a < |shape| && shape[a] < 1 then Err(Invalid) else Make(Migrated(v, shape))
  }
}
