/** Python's `range` and `slice.indices`, as the selection parser and the region reader use them. */
module PythonRange {
  import opened Prelude

  /** `tuple(range(start, stop, step))`. */
  function Range(start: int, stop: int, step: int): (r: seq<int>)
    requires step != 0
    decreases if step > 0 then stop - start else start - stop
  {
    if (step > 0 && start < stop) || (step < 0 && start > stop)
    then [start] + Range(start + step, stop, step)
    else []
  }

  /** `n` indices from `start`, `step` apart. */
  function Arith(start: int, step: int, n: nat): (r: seq<int>)
    ensures |r| == n
    decreases n
  {
    if n == 0 then [] else [start] + Arith(start + step, step, n - 1)
  }

  /** Is `b` still to be visited when walking towards `stop` by `step`? */
  predicate Before(a: int, stop: int, step: int) {
    (step > 0 && a < stop) || (step < 0 && a > stop)
  }

  /** Neighbours are `step` apart, the first is `start`, and moving the start moves every index. */
  lemma {:induction false} ArithShape(start: int, step: int, n: nat, offset: int)
    ensures n > 0 ==> Arith(start, step, n)[0] == start
    ensures forall k :: 0 < k < n ==> Arith(start, step, n)[k] == Arith(start, step, n)[k - 1] + step
    ensures forall k :: 0 <= k < n ==> Arith(start + offset, step, n)[k] == Arith(start, step, n)[k] + offset
    decreases n
  {
    if n > 0 {
      ArithShape(start + step, step, n - 1, offset);
      assert start + offset + step == start + step + offset;
    }
  }

  /** The last of a nonempty walk lies on the side of `start` that `step` points to. */
  lemma {:induction false} ArithLast(start: int, step: int, n: nat)
    requires n > 0
    ensures step >= 0 ==> forall k :: 0 <= k < n ==> start <= Arith(start, step, n)[k] <= Arith(start, step, n)[n - 1]
    ensures step <= 0 ==> forall k :: 0 <= k < n ==> start >= Arith(start, step, n)[k] >= Arith(start, step, n)[n - 1]
    ensures n > 1 && step > 0 ==> start + step <= Arith(start, step, n)[n - 1]
    ensures n > 1 && step < 0 ==> start + step >= Arith(start, step, n)[n - 1]
    decreases n
  {
    if n > 1 { ArithLast(start + step, step, n - 1); }
  }

  /** A range is a walk that stops just short of `stop`. */
  lemma {:induction false} RangeIsArith(start: int, stop: int, step: int)
    requires step != 0
    ensures var r := Range(start, stop, step);
            && r == Arith(start, step, |r|)
            && (forall k :: 0 <= k < |r| ==> Before(r[k], stop, step))
            && (r == [] <==> !Before(start, stop, step))
            && (r != [] ==> !Before(r[|r| - 1] + step, stop, step))
    decreases if step > 0 then stop - start else start - stop
  {
    if Before(start, stop, step) { RangeIsArith(start + step, stop, step); }
  }

  /** Any `stop` strictly after the last index and at most one step on reproduces the whole walk. */
  lemma {:induction false} RangeExact(start: int, stop: int, step: int, n: nat)
    requires step != 0 && n > 0
    requires Before(Arith(start, step, n)[n - 1], stop, step)
    requires !Before(Arith(start, step, n)[n - 1] + step, stop, step)
    ensures Range(start, stop, step) == Arith(start, step, n)
    decreases n
  {
    ArithLast(start, step, n);
    if n > 1 { RangeExact(start + step, stop, step, n - 1); }
  }

  /** Where `slice(start, stop, step).indices(size)` begins. */
  function SliceStart(start: Option<int>, step: int, size: nat): int {
    if start.None? then (if step > 0 then 0 else size - 1) else Endpoint(start.value, step, size)
  }

  /** Where it stops (exclusive). */
  function SliceStop(stop: Option<int>, step: int, size: nat): int {
    if stop.None? then (if step > 0 then size else -1) else Endpoint(stop.value, step, size)
  }

  /** One endpoint: negative values count from the end, then clamp to the walkable interval. */
  function Endpoint(value: int, step: int, size: nat): int {
    var v := if value < 0 then value + size else value;
    if step > 0 then Clamp(v, 0, size) else Clamp(v, -1, size - 1)
  }

  /** `tuple(range(*slice(start, stop, step).indices(size)))`. */
  function SliceIndices(start: Option<int>, stop: Option<int>, step: int, size: nat): (r: seq<int>)
    requires step != 0
  {
    Range(SliceStart(start, step, size), SliceStop(stop, step, size), step)
  }

  /** A slice never selects outside its axis, whatever its endpoints. */
  lemma {:induction false} SliceInBounds(start: Option<int>, stop: Option<int>, step: int, size: nat)
    requires step != 0
    ensures forall k :: 0 <= k < |SliceIndices(start, stop, step, size)| ==>
              0 <= SliceIndices(start, stop, step, size)[k] < size
  {
    var r := SliceIndices(start, stop, step, size);
    RangeIsArith(SliceStart(start, step, size), SliceStop(stop, step, size), step);
    if r != [] { ArithLast(SliceStart(start, step, size), step, |r|); }
  }

  /** The full slice of an axis is the identity selection. */
  lemma FullSlice(size: nat)
    ensures |SliceIndices(None, None, 1, size)| == size
    ensures forall k :: 0 <= k < size ==> SliceIndices(None, None, 1, size)[k] == k
  {
    FullRange(0, size);
  }

  lemma {:induction false} FullRange(low: int, high: int)
    requires low <= high
    ensures |Range(low, high, 1)| == high - low
    ensures forall k :: 0 <= k < high - low ==> Range(low, high, 1)[k] == low + k
    decreases high - low
  {
    if low < high { FullRange(low + 1, high); }
  }
}
