/** Axis metadata carried through a pipeline of array operations. */
module AxisInfo {
  import opened Prelude
  import Text

  datatype Axis = Axis(id: string, name: string, size: int, unit: Option<string>, coordinate: Option<string>,
                       sourceIndex: Option<int>, spacing: Option<real>, origin: Option<real>)

  datatype Error = BadSize | BadSpacing | AxisOutOfBounds

  /** An operation, as far as metadata and sample positions go. `Unnamed` is one the table does not know,
      with the output shape it answers for its input, if it answers at all. */
  datatype Operation =
    | Crop(axis: int, start: int, stop: int)
    | Reverse(axis: int)
    | Rotate(axis: int)
    | Fourier(axis: int)
    | Pointwise
    | Reduce(axis: int)
    | Squeeze(axis: int)
    | Difference(axis: int)
    | Pad(axis: int, before: int, after: int)
    | Resample(axis: int, length: int)
    | Transpose(axis: int, otherAxis: int)
    | CombineComplex(axis: int)
    | SplitComplex(axis: int)
    | Unnamed(shape: Option<seq<int>>)

  function Sizes(axes: seq<Axis>): (r: seq<int>)
    ensures |r| == |axes| && forall k :: 0 <= k < |axes| ==> r[k] == axes[k].size
  {
    seq(|axes|, k requires 0 <= k < |axes| => axes[k].size)
  }

  predicate Positive(shape: seq<int>) { forall k :: 0 <= k < |shape| ==> shape[k] >= 1 }

  predicate WellFormed(axes: seq<Axis>) {
    forall k :: 0 <= k < |axes| ==> axes[k].size >= 1 && axes[k].spacing != Some(0.0)
  }

  // ---------------------------------------------------------------- one axis at a time

  function Along(steps: int, spacing: real): real { steps as real * spacing }

  function Shifted(a: Axis, steps: int): Option<real> {
    if a.origin.Some? && a.spacing.Some? then Some(a.origin.value + Along(steps, a.spacing.value)) else a.origin
  }

  function Cropped(a: Axis, start: int, stop: int): Axis { a.(size := stop - start, origin := Shifted(a, start)) }

  function Reversed(a: Axis): Axis {
    a.(origin := Shifted(a, a.size - 1), spacing := if a.spacing.Some? then Some(-a.spacing.value) else None)
  }

  function Padded(a: Axis, before: int, after: int): Axis {
    a.(size := a.size + before + after, origin := Shifted(a, -before))
  }

  function Differenced(a: Axis): Axis {
    a.(size := a.size - 1,
       origin := if a.origin.Some? && a.spacing.Some? then Some(a.origin.value + a.spacing.value / 2.0) else a.origin)
  }

  function Resampled(a: Axis, length: int): Axis {
    a.(size := length,
       spacing := if a.spacing.Some? && length > 1 && a.size > 1
                  then Some(a.spacing.value * ((a.size - 1) as real / (length - 1) as real)) else a.spacing)
  }

  /** An axis of parts, which has no unit and no place. */
  function Unmeasured(a: Axis, size: int, coordinate: string): Axis {
    a.(size := size, coordinate := Some(coordinate), unit := None, spacing := None, origin := None)
  }

  /** The metadata of the one axis an operation rewrites. */
  function Rewritten(a: Axis, op: Operation): Axis {
    match op
    case Crop(_, start, stop) => Cropped(a, start, stop)
    case Reverse(_) => Reversed(a)
    case Rotate(_) => a.(spacing := None, origin := None)
    case Fourier(_) => a.(unit := None, spacing := None, origin := None)
    case Difference(_) => Differenced(a)
    case Pad(_, before, after) => Padded(a, before, after)
    case Resample(_, length) => Resampled(a, length)
    case CombineComplex(_) => Unmeasured(a, 1, "complex")
    case SplitComplex(_) => Unmeasured(a, 2, "real-imag")
    case _ => a
  }

  predicate Rewrites(op: Operation) {
    op.Crop? || op.Reverse? || op.Rotate? || op.Fourier? || op.Difference? || op.Pad? || op.Resample?
    || op.CombineComplex? || op.SplitComplex?
  }

  predicate Drops(op: Operation) { op.Reduce? || op.Squeeze? }

  function Swapped<T>(s: seq<T>, i: int, j: int): seq<T>
    requires 0 <= i < |s| && 0 <= j < |s|
  {
    s[i := s[j]][j := s[i]]
  }

  /** Building an axis checks its size and spacing. */
  function Checked(axes: seq<Axis>): Result<seq<Axis>, Error> {
    if !Positive(Sizes(axes)) then Err(BadSize) else if WellFormed(axes) then Ok(axes) else Err(BadSpacing)
  }

  // ---------------------------------------------------------------- operations the table does not name

  function DefaultAxis(position: nat, size: int, sourceIndex: Option<int>): Axis {
    Axis("axis-" + Text.Show(position), "Dim " + Text.Show(position), size, None, None, sourceIndex, None, None)
  }

  function DefaultAxes(shape: seq<int>): (r: seq<Axis>)
    ensures |r| == |shape| && Sizes(r) == shape
  {
    seq(|shape|, k requires 0 <= k < |shape| => DefaultAxis(k, shape[k], Some(k)))
  }

  function Appended(axes: seq<Axis>, shape: seq<int>): (r: seq<Axis>)
    requires |axes| <= |shape|
    ensures |r| == |shape|
  {
    seq(|shape|, k requires 0 <= k < |shape| => if k < |axes| then axes[k] else DefaultAxis(k, shape[k], None))
  }

  /** The first position from `cursor` on whose size is `size`, or the end. */
  function Seek(sizes: seq<int>, size: int, cursor: nat): (r: nat)
    requires cursor <= |sizes|
    ensures cursor <= r <= |sizes|
    ensures r < |sizes| ==> sizes[r] == size
    ensures forall k :: cursor <= k < r ==> sizes[k] != size
    decreases |sizes| - cursor
  {
    if cursor == |sizes| || sizes[cursor] == size then cursor else Seek(sizes, size, cursor + 1)
  }

  /** Where the scan stands after these pairs. */
  function Cursor(at: seq<nat>): nat { if at == [] then 0 else at[|at| - 1] + 1 }

  /** The positions a greedy left-to-right scan pairs with the first `n` output sizes, as far as it gets. */
  function Paired(sizes: seq<int>, shape: seq<int>, n: nat): (r: seq<nat>)
    requires n <= |shape|
    ensures |r| <= n && Cursor(r) <= |sizes|
    decreases n
  {
    if n == 0 then []
    else
      var before := Paired(sizes, shape, n - 1);
      if |before| < n - 1 then before
      else
        var at := Seek(sizes, shape[n - 1], Cursor(before));
        if at == |sizes| then before else before + [at]
  }

  predicate Increasing(at: seq<nat>) { forall j, k :: 0 <= j < k < |at| ==> at[j] < at[k] }

  /** The pairs name axes of the paired sizes, each later than the one before. */
  lemma {:induction false} PairedFacts(sizes: seq<int>, shape: seq<int>, n: nat)
    requires n <= |shape|
    ensures var r := Paired(sizes, shape, n);
            Increasing(r) && forall k :: 0 <= k < |r| ==> r[k] < |sizes| && sizes[r[k]] == shape[k]
    decreases n
  {
    if n > 0 { PairedFacts(sizes, shape, n - 1); }
  }

  function AxesAt(axes: seq<Axis>, at: seq<nat>): (r: seq<Axis>)
    requires forall k :: 0 <= k < |at| ==> at[k] < |axes|
    ensures |r| == |at| && forall k :: 0 <= k < |at| ==> r[k] == axes[at[k]]
  {
    seq(|at|, k requires 0 <= k < |at| => axes[at[k]])
  }

  /** The axes a greedy scan keeps. */
  function Survivors(axes: seq<Axis>, shape: seq<int>): seq<Axis> {
    PairedFacts(Sizes(axes), shape, |shape|);
    AxesAt(axes, Paired(Sizes(axes), shape, |shape|))
  }

  function Synthesized(axes: seq<Axis>, shape: Option<seq<int>>): Result<seq<Axis>, Error> {
    if shape.None? || |shape.value| == |axes| then Ok(axes)
    else
      var out := shape.value;
      if |out| < |axes| then
        if |Survivors(axes, out)| == |out| then Ok(Survivors(axes, out)) else Checked(DefaultAxes(out))
      else if Sizes(axes) == out[..|axes|] then Checked(Appended(axes, out))
      else Checked(DefaultAxes(out))
  }

  // ---------------------------------------------------------------- one operation, and a pipeline

  predicate InRange(axis: int, axes: seq<Axis>) { 0 <= axis < |axes| }

  /** `other % rank`. */
  function Wrapped(other: int, rank: int): (r: int)
    requires rank > 0
    ensures 0 <= r < rank
  {
    if 0 <= other < rank then other else other % rank
  }

  /** `output_axes_for_operation`. */
  function Output(axes: seq<Axis>, op: Operation): Result<seq<Axis>, Error> {
    if Rewrites(op) then
      if InRange(op.axis, axes) then Checked(axes[op.axis := Rewritten(axes[op.axis], op)]) else Err(AxisOutOfBounds)
    else if Drops(op) then
      if InRange(op.axis, axes) then Ok(RemoveAt(axes, op.axis)) else Err(AxisOutOfBounds)
    else if op.Transpose? then
      if InRange(op.axis, axes) then Ok(Swapped(axes, op.axis, Wrapped(op.otherAxis, |axes|))) else Err(AxisOutOfBounds)
    else if op.Unnamed? then Synthesized(axes, op.shape)
    else Ok(axes)
  }

  /** `output_axes_for_operations`. */
  function OutputAll(axes: seq<Axis>, ops: seq<Operation>): Result<seq<Axis>, Error>
    decreases |ops|
  {
    if ops == [] then Ok(axes)
    else
      var r := Output(axes, ops[0]);
      if r.Err? then r else OutputAll(r.value, ops[1..])
  }

  /** The loop over the operations. */
  method OutputAxesForOperations(axes: seq<Axis>, ops: seq<Operation>) returns (r: Result<seq<Axis>, Error>)
    ensures r == OutputAll(axes, ops)
  {
    var result := axes;
    for k := 0 to |ops|
      invariant OutputAll(result, ops[k..]) == OutputAll(axes, ops)
    {
      assert ops[k..][0] == ops[k] && ops[k..][1..] == ops[k + 1..];
      var next := Output(result, ops[k]);
      if next.Err? { return next; }
      result := next.value;
    }
    r := Ok(result);
  }

  /** The inner loop: move the cursor to the next axis of this size. */
  method Advance(axes: seq<Axis>, size: int, from: nat) returns (cursor: nat)
    requires from <= |axes|
    ensures cursor == Seek(Sizes(axes), size, from)
  {
    cursor := from;
    while cursor < |axes| && axes[cursor].size != size
      invariant from <= cursor <= |axes| && Seek(Sizes(axes), size, from) == Seek(Sizes(axes), size, cursor)
    {
      cursor := cursor + 1;
    }
  }

  lemma {:induction false} StuckStays(sizes: seq<int>, shape: seq<int>, k: nat, n: nat)
    requires k <= n <= |shape| && |Paired(sizes, shape, k)| < k
    ensures Paired(sizes, shape, n) == Paired(sizes, shape, k)
    decreases n
  {
    if k < n { StuckStays(sizes, shape, k, n - 1); }
  }

  /** The survivors paired so far. */
  ghost predicate SoFar(axes: seq<Axis>, shape: seq<int>, n: nat, survivors: seq<Axis>) {
    n <= |shape|
    && var at := Paired(Sizes(axes), shape, n);
       |survivors| == |at| && forall j :: 0 <= j < |at| ==> at[j] < |axes| && survivors[j] == axes[at[j]]
  }

  /** One more output size either finds its axis or ends the pairing. */
  lemma PairedOn(sizes: seq<int>, shape: seq<int>, n: nat)
    requires n < |shape| && |Paired(sizes, shape, n)| == n
    ensures var before := Paired(sizes, shape, n);
            var next := Seek(sizes, shape[n], Cursor(before));
            Paired(sizes, shape, n + 1) == if next == |sizes| then before else before + [next]
  {
  }

  lemma SoFarOn(axes: seq<Axis>, shape: seq<int>, n: nat, survivors: seq<Axis>, next: nat)
    requires SoFar(axes, shape, n, survivors) && |survivors| == n < |shape|
    requires next == Seek(Sizes(axes), shape[n], Cursor(Paired(Sizes(axes), shape, n)))
    ensures SoFar(axes, shape, n + 1, if next == |axes| then survivors else survivors + [axes[next]])
    ensures next < |axes| ==> Cursor(Paired(Sizes(axes), shape, n + 1)) == next + 1
    ensures next == |axes| ==> SoFar(axes, shape, |shape|, survivors)
  {
    PairedOn(Sizes(axes), shape, n);
    if next == |axes| { StuckStays(Sizes(axes), shape, n + 1, |shape|); }
  }

  lemma SoFarAtEnd(axes: seq<Axis>, shape: seq<int>, survivors: seq<Axis>)
    requires SoFar(axes, shape, |shape|, survivors)
    ensures survivors == Survivors(axes, shape)
  {
  }

  /** The cursor loop that pairs output sizes with surviving axes. */
  method PairSurvivors(axes: seq<Axis>, shape: seq<int>) returns (survivors: seq<Axis>)
    ensures survivors == Survivors(axes, shape)
  {
    survivors := [];
    var cursor := 0;
    for k := 0 to |shape|
      invariant |survivors| == k && cursor <= |axes| && SoFar(axes, shape, k, survivors)
      invariant cursor == Cursor(Paired(Sizes(axes), shape, k))
    {
      ghost var before := survivors;
      cursor := Advance(axes, shape[k], cursor);
      SoFarOn(axes, shape, k, before, cursor);
      if cursor >= |axes| {
        SoFarAtEnd(axes, shape, survivors);
        return;
      }
      survivors := survivors + [axes[cursor]];
      cursor := cursor + 1;
    }
    SoFarAtEnd(axes, shape, survivors);
  }

  // ---------------------------------------------------------------- what the greedy scan finds

  /** `at` picks axes of exactly the output sizes, in order. */
  ghost predicate Embeds(at: seq<nat>, sizes: seq<int>, shape: seq<int>) {
    |at| == |shape| && Increasing(at) && forall k :: 0 <= k < |at| ==> at[k] < |sizes| && sizes[at[k]] == shape[k]
  }

  ghost predicate Subsequence(shape: seq<int>, sizes: seq<int>) { exists at :: Embeds(at, sizes, shape) }

  /** Against any way of picking axes, the greedy scan never falls behind. */
  lemma {:induction false} GreedyStaysAhead(sizes: seq<int>, shape: seq<int>, at: seq<nat>, n: nat)
    requires Embeds(at, sizes, shape) && n <= |shape|
    ensures var r := Paired(sizes, shape, n); |r| == n && (n > 0 ==> Cursor(r) <= at[n - 1] + 1)
    decreases n
  {
    if n > 0 {
      GreedyStaysAhead(sizes, shape, at, n - 1);
      if n > 1 { assert at[n - 2] < at[n - 1]; }
    }
  }

  /** The scan pairs every output size exactly when the output shape is a subsequence of the input sizes. */
  lemma PairsExactlySubsequences(axes: seq<Axis>, shape: seq<int>)
    ensures |Survivors(axes, shape)| == |shape| <==> Subsequence(shape, Sizes(axes))
  {
    var at := Paired(Sizes(axes), shape, |shape|);
    PairedFacts(Sizes(axes), shape, |shape|);
    if |at| == |shape| { assert Embeds(at, Sizes(axes), shape); }
    if Subsequence(shape, Sizes(axes)) {
      var other :| Embeds(other, Sizes(axes), shape);
      GreedyStaysAhead(Sizes(axes), shape, other, |shape|);
    }
  }

  /** The axes kept are input axes unchanged, in their order, of the sizes they were paired with. */
  lemma SurvivorsAreInputAxes(axes: seq<Axis>, shape: seq<int>) returns (at: seq<nat>)
    requires |Survivors(axes, shape)| == |shape|
    ensures Embeds(at, Sizes(axes), shape) && Survivors(axes, shape) == AxesAt(axes, at)
    ensures Sizes(Survivors(axes, shape)) == shape
  {
    at := Paired(Sizes(axes), shape, |shape|);
    PairedFacts(Sizes(axes), shape, |shape|);
  }

  /** For an operation the table does not name: a change of rank always ends with the output sizes, and fails
      only where a fresh axis would have no samples; without one the metadata is returned as it came. */
  lemma SynthesizedSizes(axes: seq<Axis>, shape: seq<int>)
    requires WellFormed(axes)
    ensures |shape| == |axes| ==> Synthesized(axes, Some(shape)) == Ok(axes)
    ensures |shape| != |axes| ==> (Synthesized(axes, Some(shape)).Ok? <==> Positive(shape))
    ensures |shape| != |axes| && Synthesized(axes, Some(shape)).Ok? ==>
              Sizes(Synthesized(axes, Some(shape)).value) == shape
  {
    if |shape| < |axes| && |Survivors(axes, shape)| == |shape| {
      var at := SurvivorsAreInputAxes(axes, shape);
    } else if |shape| > |axes| && Sizes(axes) == shape[..|axes|] {
      assert Sizes(Appended(axes, shape)) == shape by {
        forall k | 0 <= k < |shape| ensures Appended(axes, shape)[k].size == shape[k] {
          if k < |axes| { assert Sizes(axes)[k] == shape[..|axes|][k]; }
        }
      }
      assert WellFormed(Appended(axes, shape)) <==> Positive(shape);
    } else {
      assert WellFormed(DefaultAxes(shape)) <==> Positive(shape);
    }
  }

  /** A placeholder for a position, with nothing measured. */
  predicate Fresh(a: Axis, position: nat, size: int) {
    && a.id == "axis-" + Text.Show(position) && a.name == "Dim " + Text.Show(position) && a.size == size
    && a.unit.None? && a.coordinate.None? && a.spacing.None? && a.origin.None?
  }

  lemma DefaultsAreFresh(shape: seq<int>, k: nat, source: Option<int>)
    requires k < |shape|
    ensures Fresh(DefaultAxis(k, shape[k], source), k, shape[k])
  {
  }

  predicate AllFresh(r: seq<Axis>, shape: seq<int>, from: nat) {
    |r| == |shape| && forall k :: from <= k < |shape| ==> Fresh(r[k], k, shape[k])
  }

  lemma DefaultAxesAreFresh(shape: seq<int>)
    ensures AllFresh(DefaultAxes(shape), shape, 0)
  {
    forall k | 0 <= k < |shape| ensures Fresh(DefaultAxes(shape)[k], k, shape[k]) {
      DefaultsAreFresh(shape, k, Some(k));
    }
  }

  lemma AppendedAreFresh(axes: seq<Axis>, shape: seq<int>)
    requires |axes| <= |shape|
    ensures AllFresh(Appended(axes, shape), shape, |axes|) && Appended(axes, shape)[..|axes|] == axes
  {
    forall k | |axes| <= k < |shape| ensures Fresh(Appended(axes, shape)[k], k, shape[k]) {
      DefaultsAreFresh(shape, k, None);
    }
  }

  lemma DropIsTimid(axes: seq<Axis>, shape: seq<int>)
    requires |shape| < |axes| && Synthesized(axes, Some(shape)).Ok?
    ensures var r := Synthesized(axes, Some(shape)).value;
            && |r| == |shape|
            && if Subsequence(shape, Sizes(axes))
               then exists at :: Embeds(at, Sizes(axes), shape) && r == AxesAt(axes, at)
               else AllFresh(r, shape, 0)
  {
    PairsExactlySubsequences(axes, shape);
    if Subsequence(shape, Sizes(axes)) {
      var at := SurvivorsAreInputAxes(axes, shape);
    } else {
      DefaultAxesAreFresh(shape);
    }
  }

  lemma RiseIsTimid(axes: seq<Axis>, shape: seq<int>)
    requires |shape| > |axes| && Synthesized(axes, Some(shape)).Ok?
    ensures var r := Synthesized(axes, Some(shape)).value;
            && |r| == |shape|
            && if Sizes(axes) == shape[..|axes|] then r[..|axes|] == axes && AllFresh(r, shape, |axes|)
               else AllFresh(r, shape, 0)
  {
    if Sizes(axes) == shape[..|axes|] { AppendedAreFresh(axes, shape); } else { DefaultAxesAreFresh(shape); }
  }

  /** An operation the table does not name never puts a place or a unit on an axis it may not belong to: a drop in rank
      keeps input axes only where the output sizes are a subsequence of theirs, a rise only where they lead the
      output sizes, and every other axis is a placeholder. Where nothing is known of the shape nothing changes. */
  lemma UnnamedIsTimid(axes: seq<Axis>, shape: seq<int>)
    requires Output(axes, Unnamed(Some(shape))).Ok?
    ensures Output(axes, Unnamed(None)) == Ok(axes) && |Output(axes, Unnamed(Some(shape))).value| == |shape|
    ensures var r := Output(axes, Unnamed(Some(shape))).value;
            if |shape| == |axes| then r == axes
            else if |shape| < |axes| && Subsequence(shape, Sizes(axes))
            then exists at :: Embeds(at, Sizes(axes), shape) && r == AxesAt(axes, at)
            else if |shape| > |axes| && Sizes(axes) == shape[..|axes|]
            then r[..|axes|] == axes && AllFresh(r, shape, |axes|)
            else AllFresh(r, shape, 0)
  {
    if |shape| < |axes| {
      DropIsTimid(axes, shape);
    } else if |shape| > |axes| {
      RiseIsTimid(axes, shape);
    }
  }

  /** Without a change of rank the sizes may be wrong: the metadata keeps the old ones. */
  lemma SameRankKeepsOldSizes(axes: seq<Axis>, shape: seq<int>)
    requires |shape| == |axes| && Sizes(axes) != shape
    ensures Output(axes, Unnamed(Some(shape))).Ok? && Sizes(Output(axes, Unnamed(Some(shape))).value) != shape
  {
  }

  // ---------------------------------------------------------------- what an operation does to shapes

  predicate AxisIn<T>(axis: int, shape: seq<T>) { 0 <= axis < |shape| }

  /** The new size of the axis an operation rewrites, or nothing where it refuses the old one. */
  function NewSize(size: int, op: Operation): Option<int>
    requires Rewrites(op)
  {
    match op
    case Crop(_, start, stop) => if 0 <= start <= stop <= size then Some(stop - start) else None
    case Pad(_, before, after) => if before >= 0 && after >= 0 then Some(size + before + after) else None
    case Difference(_) => if size >= 2 then Some(size - 1) else None
    case Resample(_, length) => if length >= 1 then Some(length) else None
    case CombineComplex(_) => if size == 2 then Some(1) else None
    case SplitComplex(_) => if size == 1 then Some(2) else None
    case _ => Some(size)
  }

  /** The shape an operation answers, or nothing where it refuses its input. */
  function OutputShape(shape: seq<int>, op: Operation): Option<seq<int>> {
    match op
    case Unnamed(answer) => answer
    case Pointwise => Some(shape)
    case Reduce(axis) => if AxisIn(axis, shape) then Some(RemoveAt(shape, axis)) else None
    case Squeeze(axis) => if AxisIn(axis, shape) && shape[axis] == 1 then Some(RemoveAt(shape, axis)) else None
    case Transpose(axis, other) =>
      if AxisIn(axis, shape) && AxisIn(other, shape) then Some(shape[axis := shape[other]][other := shape[axis]])
      else None
    case _ =>
      if AxisIn(op.axis, shape) && NewSize(shape[op.axis], op).Some?
      then Some(shape[op.axis := NewSize(shape[op.axis], op).value]) else None
  }

  /** When an operation answers a shape at all. */
  lemma AnswersExactlyIf(shape: seq<int>, op: Operation)
    requires !op.Unnamed?
    ensures OutputShape(shape, op).Some? <==>
              || op.Pointwise?
              || (&& 0 <= op.axis < |shape|
                  && var size := shape[op.axis];
                     && (op.Crop? ==> 0 <= op.start <= op.stop <= size) && (op.Pad? ==> op.before >= 0 && op.after >= 0)
                     && (op.Squeeze? || op.SplitComplex? ==> size == 1) && (op.CombineComplex? ==> size == 2)
                     && (op.Difference? ==> size >= 2) && (op.Resample? ==> op.length >= 1)
                     && (op.Transpose? ==> 0 <= op.otherAxis < |shape|))
  {
  }

  lemma RewrittenSize(a: Axis, op: Operation)
    requires Rewrites(op) && NewSize(a.size, op).Some?
    ensures Rewritten(a, op).size == NewSize(a.size, op).value
  {
  }

  lemma ReplacedSizes(axes: seq<Axis>, i: int, a: Axis)
    requires WellFormed(axes) && 0 <= i < |axes| && a.spacing != Some(0.0)
    ensures Sizes(axes[i := a]) == Sizes(axes)[i := a.size]
    ensures Checked(axes[i := a]) == if Positive(Sizes(axes)[i := a.size]) then Ok(axes[i := a]) else Err(BadSize)
    ensures Positive(Sizes(axes)[i := a.size]) ==> WellFormed(axes[i := a])
  {
    var r := axes[i := a];
    assert Sizes(r) == Sizes(axes)[i := a.size];
    if Positive(Sizes(r)) {
      forall k | 0 <= k < |r| ensures r[k].size >= 1 && r[k].spacing != Some(0.0) { assert Sizes(r)[k] == r[k].size; }
    }
  }

  lemma SwappedSizes(axes: seq<Axis>, i: int, j: int)
    requires WellFormed(axes) && 0 <= i < |axes| && 0 <= j < |axes|
    ensures Sizes(Swapped(axes, i, j)) == Swapped(Sizes(axes), i, j)
    ensures WellFormed(Swapped(axes, i, j)) && Positive(Swapped(Sizes(axes), i, j))
  {
    var r := Swapped(axes, i, j);
    assert forall k :: 0 <= k < |r| ==> Sizes(r)[k] == Swapped(Sizes(axes), i, j)[k];
  }

  lemma DroppedSizes(axes: seq<Axis>, i: int)
    requires WellFormed(axes) && 0 <= i < |axes|
    ensures Sizes(RemoveAt(axes, i)) == RemoveAt(Sizes(axes), i)
    ensures WellFormed(RemoveAt(axes, i)) && Positive(RemoveAt(Sizes(axes), i))
  {
    var r := RemoveAt(axes, i);
    assert forall k :: 0 <= k < |r| ==> Sizes(r)[k] == RemoveAt(Sizes(axes), i)[k];
  }

  lemma RewritingSizes(axes: seq<Axis>, op: Operation)
    requires WellFormed(axes) && Rewrites(op) && OutputShape(Sizes(axes), op).Some? && AxisIn(op.axis, axes)
    ensures var shape := OutputShape(Sizes(axes), op).value;
            var r := axes[op.axis := Rewritten(axes[op.axis], op)];
            && Sizes(r) == shape && Checked(r) == (if Positive(shape) then Ok(r) else Err(BadSize))
            && (Positive(shape) ==> WellFormed(r))
  {
    RewrittenSize(axes[op.axis], op);
    RewrittenSpacing(axes[op.axis], op);
    ReplacedSizes(axes, op.axis, Rewritten(axes[op.axis], op));
  }

  lemma RewritingOutput(axes: seq<Axis>, op: Operation)
    requires Rewrites(op) && OutputShape(Sizes(axes), op).Some?
    ensures AxisIn(op.axis, axes) && Output(axes, op) == Checked(axes[op.axis := Rewritten(axes[op.axis], op)])
  {
  }

  /** For every operation the table names, the metadata gets the shape the operation answers, and fails
      only where that shape has no samples. */
  lemma SizesFollowShapes(axes: seq<Axis>, op: Operation)
    requires WellFormed(axes) && !op.Unnamed? && OutputShape(Sizes(axes), op).Some?
    ensures Output(axes, op).Ok? <==> Positive(OutputShape(Sizes(axes), op).value)
    ensures Output(axes, op).Ok? ==>
              Sizes(Output(axes, op).value) == OutputShape(Sizes(axes), op).value && WellFormed(Output(axes, op).value)
  {
    if Rewrites(op) {
      RewritingOutput(axes, op);
      RewritingSizes(axes, op);
    } else if op.Transpose? {
      SwappedSizes(axes, op.axis, op.otherAxis);
    } else if Drops(op) {
      DroppedSizes(axes, op.axis);
    }
  }

  lemma RewrittenSpacing(a: Axis, op: Operation)
    requires a.spacing != Some(0.0) && a.size >= 1
    ensures Rewritten(a, op).spacing != Some(0.0)
  {
    if op.Resample? && a.spacing.Some? && op.length > 1 && a.size > 1 {
      var ratio := (a.size - 1) as real / (op.length - 1) as real;
      assert ratio * (op.length - 1) as real == (a.size - 1) as real;
      assert ratio != 0.0;
    }
  }

  // ---------------------------------------------------------------- what an axis still claims

  /** The samples no longer lie where spacing and origin put them. */
  predicate Displaces(op: Operation) { op.Rotate? || op.Fourier? || op.CombineComplex? || op.SplitComplex? }

  /** An operation rewrites one axis and leaves the others: the axis keeps its identity, gives up its place exactly
      where samples leave theirs, and its unit where the samples measure something else. */
  lemma RewrittenClaims(axes: seq<Axis>, op: Operation, k: nat)
    requires Rewrites(op) && Output(axes, op).Ok? && k < |axes|
    ensures AxisIn(op.axis, axes) && |Output(axes, op).value| == |axes|
    ensures var a, b := axes[k], Output(axes, op).value[k];
            if k != op.axis then b == a
            else
              && b.id == a.id && b.name == a.name && b.sourceIndex == a.sourceIndex
              && b.unit == (if op.Fourier? || op.CombineComplex? || op.SplitComplex? then None else a.unit)
              && (Displaces(op) ==> b.spacing.None? && b.origin.None?)
              && (!Displaces(op) ==> (b.spacing.Some? <==> a.spacing.Some?) && (b.origin.Some? <==> a.origin.Some?))
              && b.coordinate == (if op.CombineComplex? then Some("complex")
                                  else if op.SplitComplex? then Some("real-imag") else a.coordinate)
  {
  }

  lemma WrappedIsRemainder(other: int, rank: int)
    requires rank > 0
    ensures Wrapped(other, rank) == other % rank
  {
  }

  lemma RemovedIsJoined<T>(s: seq<T>, i: nat)
    requires i < |s|
    ensures RemoveAt(s, i) == s[..i] + s[i + 1..]
  {
  }

  /** Every other operation moves whole axes: a reduced or squeezed one leaves, two transposed ones trade places. */
  lemma MovedWhole(axes: seq<Axis>, op: Operation)
    requires !Rewrites(op) && !op.Unnamed? && Output(axes, op).Ok?
    ensures op.Pointwise? ==> Output(axes, op).value == axes
    ensures op.Reduce? || op.Squeeze? ==>
              InRange(op.axis, axes) && Output(axes, op).value == axes[..op.axis] + axes[op.axis + 1..]
    ensures op.Transpose? ==>
              && InRange(op.axis, axes)
              && var other := op.otherAxis % |axes|;
                 Output(axes, op).value == axes[op.axis := axes[other]][other := axes[op.axis]]
  {
    if op.Reduce? || op.Squeeze? { RemovedIsJoined(axes, op.axis); }
    if op.Transpose? && |axes| > 0 { WrappedIsRemainder(op.otherAxis, |axes|); }
  }

  // ---------------------------------------------------------------- where samples come from

  datatype Sample = Sample(axis: int, index: int)

  /** Which input sample, along which input axis, index `i` of output axis `k` comes from; none where no
      single input sample does, or where indexes no longer run along the axis. */
  function Source(shape: seq<int>, op: Operation, k: int, i: int): Option<Sample> {
    match op
    case Unnamed(_) => None
    case Pointwise => Some(Sample(k, i))
    case Reduce(axis) => Some(Sample(if k < axis then k else k + 1, i))
    case Squeeze(axis) => Some(Sample(if k < axis then k else k + 1, i))
    case Transpose(axis, other) => Some(Sample(if k == axis then other else if k == other then axis else k, i))
    case _ =>
      if k != op.axis then Some(Sample(k, i))
      else if AxisIn(k, shape) then SourceAlong(shape[k], op, k, i) else None
  }

  function SourceAlong(size: int, op: Operation, k: int, i: int): Option<Sample> {
    match op
    case Crop(_, start, _) => Some(Sample(k, i + start))
    case Reverse(_) => Some(Sample(k, size - 1 - i))
    case Pad(_, before, _) => if 0 <= i - before < size then Some(Sample(k, i - before)) else None
    case _ => None
  }

  /** The physical coordinate of index `i`, where the axis has one. */
  function Coordinate(a: Axis, i: int): Option<real> {
    if a.origin.Some? && a.spacing.Some? then Some(a.origin.value + Along(i, a.spacing.value)) else None
  }

  /** A measured axis starts at its origin and goes on by its spacing; no other has coordinates. */
  lemma CoordinatesStep(a: Axis, i: int)
    ensures Coordinate(a, i).Some? <==> a.origin.Some? && a.spacing.Some?
    ensures Coordinate(a, i).Some? ==>
              Coordinate(a, 0) == a.origin && Coordinate(a, i + 1) == Some(Coordinate(a, i).value + a.spacing.value)
  {
    if a.spacing.Some? { AlongAdds(i, 1, a.spacing.value); }
  }

  lemma AlongAdds(i: int, j: int, spacing: real)
    ensures Along(i + j, spacing) == Along(i, spacing) + Along(j, spacing)
    ensures Along(-i, spacing) == -Along(i, spacing) && Along(i, -spacing) == -Along(i, spacing)
  {
  }

  lemma RewrittenKeepsPlace(a: Axis, op: Operation, i: int, j: int)
    requires (op.Crop? && j == i + op.start) || (op.Reverse? && j == a.size - 1 - i) || (op.Pad? && j == i - op.before)
    ensures Coordinate(Rewritten(a, op), i) == Coordinate(a, j)
    ensures Rewritten(a, op).id == a.id && Rewritten(a, op).name == a.name && Rewritten(a, op).unit == a.unit
  {
    if a.spacing.Some? {
      var s := a.spacing.value;
      match op {
        case Crop(_, start, _) => AlongAdds(i, start, s);
        case Reverse(_) => AlongAdds(a.size - 1, -i, s); AlongAdds(i, 0, s);
        case Pad(_, before, _) => AlongAdds(i, -before, s);
      }
    }
  }

  ghost predicate SamePlace(a: Axis, i: int, b: Axis, j: int) {
    Coordinate(a, i) == Coordinate(b, j) && a.id == b.id && a.name == b.name && a.unit == b.unit
  }

  lemma RewrittenSample(axes: seq<Axis>, op: Operation, k: int, i: int)
    requires Rewrites(op) && AxisIn(op.axis, axes) && AxisIn(k, axes) && Source(Sizes(axes), op, k, i).Some?
    ensures var from := Source(Sizes(axes), op, k, i).value;
            0 <= from.axis < |axes|
            && SamePlace(axes[op.axis := Rewritten(axes[op.axis], op)][k], i, axes[from.axis], from.index)
  {
    if k == op.axis {
      RewrittenKeepsPlace(axes[k], op, i, Source(Sizes(axes), op, k, i).value.index);
    }
  }

  lemma MovedSample(axes: seq<Axis>, op: Operation, k: int, i: int)
    requires !Rewrites(op) && Output(axes, op).Ok? && OutputShape(Sizes(axes), op).Some?
    requires 0 <= k < |Output(axes, op).value| && Source(Sizes(axes), op, k, i).Some?
    ensures var from := Source(Sizes(axes), op, k, i).value;
            0 <= from.axis < |axes| && from.index == i && Output(axes, op).value[k] == axes[from.axis]
  {
  }

  /** One operation: every sample that survives keeps its physical coordinate, and its axis the same name and unit. */
  lemma SampleKeepsPlace(axes: seq<Axis>, op: Operation, k: int, i: int)
    requires Output(axes, op).Ok? && OutputShape(Sizes(axes), op).Some?
    requires 0 <= k < |Output(axes, op).value| && Source(Sizes(axes), op, k, i).Some?
    ensures var from := Source(Sizes(axes), op, k, i).value;
            0 <= from.axis < |axes| && SamePlace(Output(axes, op).value[k], i, axes[from.axis], from.index)
  {
    if Rewrites(op) {
      RewritingOutput(axes, op);
      RewrittenSample(axes, op, k, i);
    } else {
      MovedSample(axes, op, k, i);
    }
  }

  /** Where samples are only picked, padded or reordered, every output sample comes from an input sample that exists,
      those of a padding apart. */
  lemma EverySampleHasASource(shape: seq<int>, op: Operation, k: int, i: int)
    requires !op.Unnamed? && (Rewrites(op) && k == op.axis ==> op.Crop? || op.Reverse? || op.Pad?)
    requires OutputShape(shape, op).Some? && 0 <= k < |OutputShape(shape, op).value|
    requires 0 <= i < OutputShape(shape, op).value[k]
    ensures var from := Source(shape, op, k, i);
            && (from.Some? <==> !(op.Pad? && k == op.axis) || op.before <= i < op.before + shape[k])
            && (from.Some? ==> 0 <= from.value.axis < |shape| && 0 <= from.value.index < shape[from.value.axis])
  {
  }

  // ---------------------------------------------------------------- pipelines

  /** The shape a pipeline ends with, or nothing where an operation refuses its input or leaves an axis empty. */
  function OutputShapes(shape: seq<int>, ops: seq<Operation>): Option<seq<int>>
    decreases |ops|
  {
    if ops == [] then Some(shape)
    else
      var r := OutputShape(shape, ops[0]);
      if r.None? || !Positive(r.value) then None else OutputShapes(r.value, ops[1..])
  }

  /** The input sample an output sample of a whole pipeline comes from. */
  function Trace(shape: seq<int>, ops: seq<Operation>, k: int, i: int): Option<Sample>
    decreases |ops|
  {
    if ops == [] then Some(Sample(k, i))
    else
      var r := OutputShape(shape, ops[0]);
      if r.None? then None
      else
        var later := Trace(r.value, ops[1..], k, i);
        if later.None? then None else Source(shape, ops[0], later.value.axis, later.value.index)
  }

  /** Through any pipeline of named operations the metadata succeeds with the arrays' own shape. */
  lemma {:induction false} PipelineShape(axes: seq<Axis>, ops: seq<Operation>)
    requires WellFormed(axes) && OutputShapes(Sizes(axes), ops).Some?
    requires forall n :: 0 <= n < |ops| ==> !ops[n].Unnamed?
    ensures OutputAll(axes, ops).Ok? && WellFormed(OutputAll(axes, ops).value)
    ensures Sizes(OutputAll(axes, ops).value) == OutputShapes(Sizes(axes), ops).value
    decreases |ops|
  {
    if ops != [] {
      SizesFollowShapes(axes, ops[0]);
      PipelineShape(Output(axes, ops[0]).value, ops[1..]);
    }
  }

  /** Through any pipeline every sample that can be followed keeps its physical coordinate, and its axis the
      same name and unit. */
  lemma {:induction false} PipelineKeepsPlaces(axes: seq<Axis>, ops: seq<Operation>, k: int, i: int)
    requires WellFormed(axes) && OutputShapes(Sizes(axes), ops).Some?
    requires 0 <= k < |OutputShapes(Sizes(axes), ops).value| && Trace(Sizes(axes), ops, k, i).Some?
    ensures OutputAll(axes, ops).Ok? && Sizes(OutputAll(axes, ops).value) == OutputShapes(Sizes(axes), ops).value
    ensures var from := Trace(Sizes(axes), ops, k, i).value;
            0 <= from.axis < |axes| && SamePlace(OutputAll(axes, ops).value[k], i, axes[from.axis], from.index)
    decreases |ops|
  {
    if ops != [] {
      SizesFollowShapes(axes, ops[0]);
      var next := Output(axes, ops[0]).value;
      PipelineKeepsPlaces(next, ops[1..], k, i);
      var later := Trace(Sizes(next), ops[1..], k, i).value;
      SampleKeepsPlace(axes, ops[0], later.axis, later.index);
    }
  }

  // ---------------------------------------------------------------- operations that undo each other

  /** Reversing twice, or cropping a padding away, restores the metadata exactly. */
  lemma UndoneExactly(a: Axis, before: int, after: int)
    ensures Reversed(Reversed(a)) == a
    ensures Cropped(Padded(a, before, after), before, before + a.size) == a
  {
    if a.spacing.Some? {
      AlongAdds(a.size - 1, 0, a.spacing.value);
      AlongAdds(before, 0, a.spacing.value);
    }
  }

  /** Differences sit half-way between the samples they subtract. */
  lemma DifferencesSitBetween(a: Axis, i: int)
    requires Coordinate(a, i).Some?
    ensures Coordinate(Differenced(a), i) == Some((Coordinate(a, i).value + Coordinate(a, i + 1).value) / 2.0)
  {
    AlongAdds(i, 1, a.spacing.value);
  }

  /** Resampling keeps the first and the last sample where they were. */
  lemma ResamplingKeepsTheEnds(a: Axis, length: int)
    requires a.size > 1 && length > 1
    ensures Coordinate(Resampled(a, length), 0) == Coordinate(a, 0)
    ensures Coordinate(Resampled(a, length), length - 1) == Coordinate(a, a.size - 1)
  {
    if a.spacing.Some? {
      var n, m, s := (a.size - 1) as real, (length - 1) as real, a.spacing.value;
      var ratio := n / m;
      assert ratio * m == n;
      assert Along(length - 1, s * ratio) == s * (ratio * m);
      assert Along(a.size - 1, s) == s * n;
    }
  }
}
