/** Ramer-Douglas-Peucker simplification of a drawn curve.  Distances are compared squared, so a
    distance to a line is its cross product squared against the tolerance times the line's length. */
module Polyline {
  import opened RealFacts

  datatype Point = Point(x: real, y: real)

  /** Twice the area spanned by the line and the point: the distance times the line's length. */
  function Cross(p: Point, start: Point, end: Point): real {
    (end.x - start.x) * (start.y - p.y) - (end.y - start.y) * (start.x - p.x)
  }

  function SquaredDistance(p: Point, q: Point): real { (p.x - q.x) * (p.x - q.x) + (p.y - q.y) * (p.y - q.y) }

  /** What the points of one range are ranked by: squared distance to the line through its ends, up to
      the common factor of the line's squared length, or to the point when both ends coincide. */
  function Measure(p: Point, start: Point, end: Point): real {
    if start == end then SquaredDistance(p, start) else Cross(p, start, end) * Cross(p, start, end)
  }

  /** The measure at which a point is exactly `tolerance` away. */
  function Limit(start: Point, end: Point, tolerance: real): real {
    if start == end then tolerance * tolerance else tolerance * tolerance * SquaredDistance(end, start)
  }

  /** A way of measuring points against the ends of their range, and the limit for being far. */
  datatype Metric = Metric(measure: (Point, Point, Point) -> real, limit: (Point, Point) -> real) {
    predicate IsFar(p: Point, start: Point, end: Point) { measure(p, start, end) > limit(start, end) }

    /** The ends of a range are never far from it. */
    ghost predicate EndsAreNear() { forall s, e :: !IsFar(s, s, e) && !IsFar(e, s, e) }
  }

  /** Distance to the line through the ends, at a tolerance. */
  function ToLine(tolerance: real): (m: Metric)
    ensures m.EndsAreNear()
  {
    var m := Metric((p, start, end) => Measure(p, start, end), (start, end) => Limit(start, end, tolerance));
    assert m.EndsAreNear() by {
      forall s, e ensures !m.IsFar(s, s, e) && !m.IsFar(e, s, e) { EndsMeasureNothing(s, e, tolerance); }
    }
    m
  }

  lemma EndsMeasureNothing(start: Point, end: Point, tolerance: real)
    ensures Measure(start, start, end) == 0.0 && Measure(end, start, end) == 0.0
    ensures Limit(start, end, tolerance) >= 0.0
  {
    var square := Square(tolerance);
    var dx := Square(end.x - start.x);
    var dy := Square(end.y - start.y);
    var limit := Product(square, dx + dy);
    assert Limit(start, end, tolerance) == if start == end then square else limit;
  }

  // ---------------------------------------------------------------- what far means

  /** A point of the line through the ends. */
  function At(start: Point, end: Point, t: real): Point {
    Point(start.x + t * (end.x - start.x), start.y + t * (end.y - start.y))
  }

  /** Every point of the line through the ends is farther off than the tolerance. */
  ghost predicate Beyond(p: Point, start: Point, end: Point, tolerance: real) {
    forall t :: SquaredDistance(p, At(start, end, t)) > Squared(tolerance)
  }

  function Dot(a: Point, b: Point): real { Times(a.x, b.x) + Times(a.y, b.y) }

  function Minus(a: Point, b: Point): Point { Point(a.x - b.x, a.y - b.y) }

  /** How far along the line a point lies, times the line's squared length. */
  function Along(p: Point, start: Point, end: Point): real { Dot(Minus(p, start), Minus(end, start)) }

  lemma CrossFrom(p: Point, start: Point, end: Point)
    ensures var u, d := Minus(p, start), Minus(end, start); Cross(p, start, end) == Times(d.y, u.x) - Times(d.x, u.y)
  {
  }

  lemma DistanceIsDot(p: Point, q: Point)
    ensures SquaredDistance(p, q) == Dot(Minus(p, q), Minus(p, q))
  {
  }

  lemma Lagrange(v: Point, d: Point)
    ensures Times(Dot(d, d), Dot(v, v)) == Squared(Times(d.y, v.x) - Times(d.x, v.y)) + Squared(Dot(v, d))
  {
  }

  /** Moving along the line changes how far along a point lies, and not how far off. */
  lemma MovedAlong(u: Point, v: Point, d: Point, t: real)
    requires v == Point(u.x - Times(t, d.x), u.y - Times(t, d.y))
    ensures Dot(v, d) == Dot(u, d) - Times(t, Dot(d, d))
    ensures Times(d.y, v.x) - Times(d.x, v.y) == Times(d.y, u.x) - Times(d.x, u.y)
  {
  }

  lemma DistanceAt(p: Point, start: Point, end: Point, t: real)
    ensures var long := SquaredDistance(end, start);
            Times(long, SquaredDistance(p, At(start, end, t)))
            == Squared(Cross(p, start, end)) + Squared(Along(p, start, end) - Times(t, long))
  {
    var q, u, d := At(start, end, t), Minus(p, start), Minus(end, start);
    DistanceIsDot(p, q);
    DistanceIsDot(end, start);
    CrossFrom(p, start, end);
    MovedAlong(u, Minus(p, q), d, t);
    Lagrange(Minus(p, q), d);
  }

  /** Far is what it says: no point of the line, or not the one point of it, is within the tolerance. */
  lemma FarMeansBeyond(p: Point, start: Point, end: Point, tolerance: real)
    ensures ToLine(tolerance).IsFar(p, start, end) <==> Beyond(p, start, end, tolerance)
  {
    if start == end {
      forall t ensures At(start, end, t) == start {}
      assert Beyond(p, start, end, tolerance) <==> SquaredDistance(p, At(start, end, 0.0)) > Squared(tolerance);
    } else {
      FarFromLine(p, start, end, tolerance);
    }
  }

  lemma LengthIsPositive(start: Point, end: Point)
    requires start != end
    ensures SquaredDistance(end, start) > 0.0
  {
    var dx := Square(end.x - start.x);
    var dy := Square(end.y - start.y);
  }

  lemma FarFromLine(p: Point, start: Point, end: Point, tolerance: real)
    requires start != end
    ensures Squared(Cross(p, start, end)) > Squared(tolerance) * SquaredDistance(end, start)
            <==> Beyond(p, start, end, tolerance)
  {
    var long, bound, far := SquaredDistance(end, start), Squared(tolerance), Squared(Cross(p, start, end));
    LengthIsPositive(start, end);
    if far > bound * long {
      forall t ensures SquaredDistance(p, At(start, end, t)) > bound {
        DistanceAt(p, start, end, t);
        var rest := Square(Along(p, start, end) - Times(t, long));
        CancelLength(long, SquaredDistance(p, At(start, end, t)), bound);
      }
    } else {
      var t := Along(p, start, end) / long;
      DistanceAt(p, start, end, t);
      assert Times(t, long) == Along(p, start, end);
      CancelLength(long, SquaredDistance(p, At(start, end, t)), bound);
    }
  }

  lemma CancelLength(long: real, a: real, b: real)
    requires long > 0.0
    ensures Times(long, a) > b * long <==> a > b
  {
    if a > b { var p := Product(long, a - b); }
    if a <= b { var p := Product(long, b - a); }
  }

  // ---------------------------------------------------------------- the algorithm

  function Measures(points: seq<Point>, m: Metric): (r: seq<real>)
    requires points != []
    ensures |r| == |points|
  {
    seq(|points|, k requires 0 <= k < |points| => m.measure(points[k], points[0], points[|points| - 1]))
  }

  /** `np.argmax`: the first position of the largest value. */
  function ArgMax(s: seq<real>): (i: nat)
    requires s != []
    ensures i < |s| && (forall k :: 0 <= k < |s| ==> s[k] <= s[i]) && (forall k :: 0 <= k < i ==> s[k] < s[i])
  {
    if |s| == 1 then 0
    else
      var rest := ArgMax(s[1..]);
      assert forall k :: 1 <= k < |s| ==> s[k] == s[1..][k - 1];
      if s[1 + rest] > s[0] then 1 + rest else 0
  }

  function Farthest(points: seq<Point>, m: Metric): (i: nat)
    requires points != []
    ensures i < |points|
  {
    ArgMax(Measures(points, m))
  }

  /** The farthest point is too far from the line through the ends: the range is split there. */
  predicate Splits(points: seq<Point>, m: Metric) {
    |points| > 2 && m.IsFar(points[Farthest(points, m)], points[0], points[|points| - 1])
  }

  /** The split is strictly inside, which is what makes the recursion end. */
  lemma SplitIsInterior(points: seq<Point>, m: Metric)
    requires Splits(points, m) && m.EndsAreNear()
    ensures 0 < Farthest(points, m) < |points| - 1
  {}

  function Rdp(points: seq<Point>, m: Metric): seq<Point>
    requires m.EndsAreNear()
    decreases |points|
  {
    if |points| <= 2 then points
    else if Splits(points, m) then
      SplitIsInterior(points, m);
      var i := Farthest(points, m);
      var left, right := Rdp(points[..i + 1], m), Rdp(points[i..], m);
      AllButLast(left) + right
    else [points[0], points[|points| - 1]]
  }

  function AllButLast<T>(s: seq<T>): seq<T> { if s == [] then [] else s[..|s| - 1] }

  function Simplify(points: seq<Point>, tolerance: real): seq<Point> {
    if |points| <= 2 || tolerance <= 0.0 then points else Rdp(points, ToLine(tolerance))
  }

  // ---------------------------------------------------------------- what is kept

  /** `kept` lists, in order, positions of `points` from the first to the last. */
  predicate Subsequence(kept: seq<int>, points: seq<Point>, result: seq<Point>) {
    && |kept| == |result|
    && (forall j :: 0 <= j < |kept| ==> 0 <= kept[j] < |points| && result[j] == points[kept[j]])
    && Ascending(kept)
    && (points != [] ==> kept != [] && kept[0] == 0 && kept[|kept| - 1] == |points| - 1)
    && (|points| >= 2 ==> |kept| >= 2)
  }

  /** No point strictly between positions `a` and `b` is far from the line through them. */
  predicate NearBetween(points: seq<Point>, a: int, b: int, m: Metric)
    requires 0 <= a < |points| && 0 <= b < |points|
  {
    forall c :: a < c < b ==> !m.IsFar(points[c], points[a], points[b])
  }

  /** No dropped point is far from the line through the kept points around it. */
  predicate DroppedAreNear(kept: seq<int>, points: seq<Point>, m: Metric)
    requires forall j :: 0 <= j < |kept| ==> 0 <= kept[j] < |points|
  {
    forall j :: 0 < j < |kept| ==> NearBetween(points, kept[j - 1], kept[j], m)
  }

  /** The kept position was far from the line through two others kept, one on either side. */
  predicate IsNeeded(kept: seq<int>, points: seq<Point>, m: Metric, j: int)
    requires forall j :: 0 <= j < |kept| ==> 0 <= kept[j] < |points|
    requires 0 <= j < |kept|
  {
    exists a, b :: 0 <= a < j < b < |kept| && m.IsFar(points[kept[j]], points[kept[a]], points[kept[b]])
  }

  /** Nothing is kept without need but the two ends. */
  predicate KeptAreNeeded(kept: seq<int>, points: seq<Point>, m: Metric)
    requires forall j :: 0 <= j < |kept| ==> 0 <= kept[j] < |points|
  {
    forall j :: 0 < j < |kept| - 1 ==> IsNeeded(kept, points, m, j)
  }

  /** The kept positions of both halves, the split point counted once. */
  function JoinKept(left: seq<int>, right: seq<int>, i: nat): (kept: seq<int>)
    requires left != [] && right != []
    ensures |kept| == |left| + |right| - 1
  {
    seq(|left| + |right| - 1, k requires 0 <= k < |left| + |right| - 1 =>
      if k < |left| then left[k] else right[k - (|left| - 1)] + i)
  }

  /** Position `k` of the joined curve comes from one half, or from both at the split. */
  lemma JoinedPoint(points: seq<Point>, i: nat, left: seq<int>, right: seq<int>, l: seq<Point>, r: seq<Point>, k: nat)
    requires 0 < i < |points| - 1
    requires Subsequence(left, points[..i + 1], l) && Subsequence(right, points[i..], r)
    requires k < |left| + |right| - 1
    ensures var kept := JoinKept(left, right, i);
            && (k < |left| ==> kept[k] == left[k] <= i)
            && (k >= |left| - 1 ==> kept[k] == right[k - (|left| - 1)] + i >= i)
            && 0 <= kept[k] < |points| && (AllButLast(l) + r)[k] == points[kept[k]]
  {
    var n := |left| - 1;
    if k < n {
      assert l[k] == points[..i + 1][left[k]] == points[left[k]];
    } else {
      assert r[k - n] == points[i..][right[k - n]] == points[right[k - n] + i];
    }
  }

  predicate Ascending(s: seq<int>) { forall j, k :: 0 <= j < k < |s| ==> s[j] < s[k] }

  lemma JoinIsAscending(left: seq<int>, right: seq<int>, i: nat)
    requires left != [] && right != [] && left[|left| - 1] == i && right[0] == 0
    requires Ascending(left) && Ascending(right)
    ensures Ascending(JoinKept(left, right, i))
  {
    var kept, n := JoinKept(left, right, i), |left| - 1;
    forall j, k | 0 <= j < k < |kept| ensures kept[j] < kept[k] {
      assert j < n ==> left[j] < left[n];
      assert k > n ==> right[0] < right[k - n];
    }
  }

  lemma JoinIsSubsequence(points: seq<Point>, i: nat, left: seq<int>, right: seq<int>, l: seq<Point>, r: seq<Point>)
    requires 0 < i < |points| - 1
    requires Subsequence(left, points[..i + 1], l) && Subsequence(right, points[i..], r)
    ensures Subsequence(JoinKept(left, right, i), points, AllButLast(l) + r)
    ensures JoinKept(left, right, i)[|left| - 1] == i
  {
    var kept := JoinKept(left, right, i);
    forall k | 0 <= k < |kept| ensures 0 <= kept[k] < |points| && (AllButLast(l) + r)[k] == points[kept[k]] {
      JoinedPoint(points, i, left, right, l, r, k);
    }
    JoinIsAscending(left, right, i);
  }

  lemma NearInPart(points: seq<Point>, low: nat, high: nat, a: int, b: int, m: Metric)
    requires low <= high <= |points| && 0 <= a < high - low && 0 <= b < high - low
    requires NearBetween(points[low..high], a, b, m)
    ensures NearBetween(points, a + low, b + low, m)
  {
    forall c | a + low < c < b + low ensures !m.IsFar(points[c], points[a + low], points[b + low]) {
      assert points[low..high][c - low] == points[c];
    }
  }

  /** What a part needs the whole needs too, its positions starting `from` places later in the list. */
  lemma NeededInPart(points: seq<Point>, low: nat, high: nat, part: seq<int>, kept: seq<int>, from: nat, j: nat,
                     m: Metric)
    requires low <= high <= |points| && 0 < j < |part| - 1 && Stands(part, kept, from, low)
    requires Positions(part, high - low) && Positions(kept, |points|)
    requires IsNeeded(part, points[low..high], m, j)
    ensures IsNeeded(kept, points, m, from + j)
  {
    var a, b :| 0 <= a < j < b < |part| && m.IsFar(points[low..high][part[j]], points[low..high][part[a]],
                                                   points[low..high][part[b]]);
    assert m.IsFar(points[kept[from + j]], points[kept[from + a]], points[kept[from + b]]);
  }

  /** A part of the kept list, `from` places on, holds the part's own list moved by `low`. */
  predicate Stands(part: seq<int>, kept: seq<int>, from: nat, low: nat) {
    from + |part| <= |kept| && forall k :: 0 <= k < |part| ==> kept[from + k] == part[k] + low
  }

  predicate Positions(kept: seq<int>, n: nat) { forall k :: 0 <= k < |kept| ==> 0 <= kept[k] < n }

  /** Both halves stand in the joined list, the second one moved. */
  lemma JoinedParts(left: seq<int>, right: seq<int>, i: nat, n: nat)
    requires left != [] && right != [] && left[|left| - 1] == i && right[0] == 0 && i < n
    requires Positions(left, i + 1) && Positions(right, n - i)
    ensures Stands(left, JoinKept(left, right, i), 0, 0) && Stands(right, JoinKept(left, right, i), |left| - 1, i)
    ensures Positions(JoinKept(left, right, i), n)
  {
  }

  lemma InnerNear(points: seq<Point>, low: nat, high: nat, part: seq<int>, kept: seq<int>, from: nat, m: Metric)
    requires low <= high <= |points| && Stands(part, kept, from, low)
    requires Positions(part, high - low) && Positions(kept, |points|) && DroppedAreNear(part, points[low..high], m)
    ensures forall j :: from < j < from + |part| ==> NearBetween(points, kept[j - 1], kept[j], m)
  {
    forall j | from < j < from + |part| ensures NearBetween(points, kept[j - 1], kept[j], m) {
      assert kept[from + (j - from)] == part[j - from] + low && kept[from + (j - 1 - from)] == part[j - 1 - from] + low;
      NearInPart(points, low, high, part[j - 1 - from], part[j - from], m);
    }
  }

  lemma JoinKeepsNear(points: seq<Point>, i: nat, left: seq<int>, right: seq<int>, l: seq<Point>, r: seq<Point>,
                      m: Metric)
    requires 0 < i < |points| - 1
    requires Subsequence(left, points[..i + 1], l) && Subsequence(right, points[i..], r)
    requires DroppedAreNear(left, points[..i + 1], m) && DroppedAreNear(right, points[i..], m)
    ensures Positions(JoinKept(left, right, i), |points|) && DroppedAreNear(JoinKept(left, right, i), points, m)
  {
    assert points[..i + 1] == points[0..i + 1] && points[i..] == points[i..|points|];
    JoinedParts(left, right, i, |points|);
    InnerNear(points, 0, i + 1, left, JoinKept(left, right, i), 0, m);
    InnerNear(points, i, |points|, right, JoinKept(left, right, i), |left| - 1, m);
  }

  /** So the whole needs all that a part needs within. */
  lemma InnerNeeded(points: seq<Point>, low: nat, high: nat, part: seq<int>, kept: seq<int>, from: nat, m: Metric)
    requires low <= high <= |points| && Stands(part, kept, from, low)
    requires Positions(part, high - low) && Positions(kept, |points|) && KeptAreNeeded(part, points[low..high], m)
    ensures forall j {:trigger IsNeeded(kept, points, m, j)} ::
              from < j < from + |part| - 1 ==> IsNeeded(kept, points, m, j)
  {
    forall j {:trigger IsNeeded(kept, points, m, j)} | from < j < from + |part| - 1
      ensures IsNeeded(kept, points, m, j)
    {
      NeededInPart(points, low, high, part, kept, from, j - from, m);
    }
  }

  lemma JoinKeepsNeeded(points: seq<Point>, i: nat, left: seq<int>, right: seq<int>, kept: seq<int>, m: Metric)
    requires 0 < i < |points| - 1 && m.IsFar(points[i], points[0], points[|points| - 1])
    requires |left| > 1 && |right| > 1 && |kept| == |left| + |right| - 1 && Positions(kept, |points|)
    requires Positions(left, i + 1) && Positions(right, |points| - i)
    requires Stands(left, kept, 0, 0) && Stands(right, kept, |left| - 1, i)
    requires kept[0] == 0 && kept[|left| - 1] == i && kept[|kept| - 1] == |points| - 1
    requires KeptAreNeeded(left, points[0..i + 1], m) && KeptAreNeeded(right, points[i..|points|], m)
    ensures KeptAreNeeded(kept, points, m)
  {
    InnerNeeded(points, 0, i + 1, left, kept, 0, m);
    InnerNeeded(points, i, |points|, right, kept, |left| - 1, m);
    NeededAtSplit(points, kept, m, |left| - 1);
  }

  lemma NeededAtSplit(points: seq<Point>, kept: seq<int>, m: Metric, n: nat)
    requires 0 < n < |kept| - 1 && forall k :: 0 <= k < |kept| ==> 0 <= kept[k] < |points|
    requires kept[0] == 0 && kept[|kept| - 1] == |points| - 1
    requires m.IsFar(points[kept[n]], points[0], points[|points| - 1])
    ensures IsNeeded(kept, points, m, n)
  {
    assert m.IsFar(points[kept[n]], points[kept[0]], points[kept[|kept| - 1]]);
  }

  lemma JoinNeeds(points: seq<Point>, i: nat, left: seq<int>, right: seq<int>, l: seq<Point>, r: seq<Point>, m: Metric)
    requires 0 < i < |points| - 1 && m.IsFar(points[i], points[0], points[|points| - 1])
    requires Subsequence(left, points[..i + 1], l) && Subsequence(right, points[i..], r)
    requires KeptAreNeeded(left, points[..i + 1], m) && KeptAreNeeded(right, points[i..], m)
    ensures Positions(JoinKept(left, right, i), |points|) && KeptAreNeeded(JoinKept(left, right, i), points, m)
  {
    assert points[..i + 1] == points[0..i + 1] && points[i..] == points[i..|points|];
    JoinedParts(left, right, i, |points|);
    JoinKeepsNeeded(points, i, left, right, JoinKept(left, right, i), m);
  }

  /** The two halves of a range that splits. */
  lemma Halves(points: seq<Point>, m: Metric) returns (i: nat, left: seq<Point>, right: seq<Point>)
    requires m.EndsAreNear() && Splits(points, m)
    ensures i == Farthest(points, m) && 0 < i < |points| - 1
    ensures left == Rdp(points[..i + 1], m) && right == Rdp(points[i..], m)
    ensures Rdp(points, m) == AllButLast(left) + right
  {
    SplitIsInterior(points, m);
    i := Farthest(points, m);
    left, right := Rdp(points[..i + 1], m), Rdp(points[i..], m);
    assert |points| > 2;
  }

  /** The simplified curve keeps both ends, is a subsequence, drops no far point, and keeps no other without need. */
  lemma {:induction false} RdpIsFaithful(points: seq<Point>, m: Metric) returns (kept: seq<int>)
    requires m.EndsAreNear()
    ensures Subsequence(kept, points, Rdp(points, m))
    ensures DroppedAreNear(kept, points, m) && KeptAreNeeded(kept, points, m)
    ensures Splits(points, m) ==>
              var i := Farthest(points, m);
              0 < i < |points| - 1 && 0 < |Rdp(points[..i + 1], m)| <= |kept|
              && kept[|Rdp(points[..i + 1], m)| - 1] == i
    decreases |points|
  {
    if |points| <= 2 {
      kept := Everything(points, m);
    } else if Splits(points, m) {
      var i, l, r := Halves(points, m);
      var left := RdpIsFaithful(points[..i + 1], m);
      var right := RdpIsFaithful(points[i..], m);
      kept := JoinKept(left, right, i);
      JoinIsSubsequence(points, i, left, right, l, r);
      JoinKeepsNear(points, i, left, right, l, r, m);
      JoinNeeds(points, i, left, right, l, r, m);
    } else {
      kept := OnlyEnds(points, m);
    }
  }

  lemma OnlyEnds(points: seq<Point>, m: Metric) returns (kept: seq<int>)
    requires |points| > 2 && !Splits(points, m)
    ensures Subsequence(kept, points, [points[0], points[|points| - 1]]) && DroppedAreNear(kept, points, m)
  {
    kept := [0, |points| - 1];
    AllNear(points, m);
  }

  lemma Everything(points: seq<Point>, m: Metric) returns (kept: seq<int>)
    ensures Subsequence(kept, points, points) && DroppedAreNear(kept, points, m)
  {
    kept := seq(|points|, k => k);
  }

  lemma AllNear(points: seq<Point>, m: Metric)
    requires |points| > 2 && !Splits(points, m)
    ensures forall c :: 0 <= c < |points| ==> !m.IsFar(points[c], points[0], points[|points| - 1])
  {
    forall c | 0 <= c < |points| ensures !m.IsFar(points[c], points[0], points[|points| - 1]) {
      assert Measures(points, m)[c] <= Measures(points, m)[Farthest(points, m)];
    }
  }

  /** In the simplified curve the split point of the original is again the first farthest point. */
  lemma SplitIsStable(points: seq<Point>, result: seq<Point>, kept: seq<int>, n: nat, m: Metric)
    requires |points| > 2 && Subsequence(kept, points, result)
    requires n < |kept| && kept[n] == Farthest(points, m)
    ensures result != [] && Farthest(result, m) == n
  {
    var i := Farthest(points, m);
    assert result[0] == points[0] && result[|result| - 1] == points[|points| - 1];
    forall j | 0 <= j < |result|
      ensures Measures(result, m)[j] <= Measures(result, m)[n]
      ensures j < n ==> Measures(result, m)[j] < Measures(result, m)[n]
    {
      assert Measures(result, m)[j] == Measures(points, m)[kept[j]];
      assert Measures(result, m)[n] == Measures(points, m)[i];
    }
  }

  /** Simplifying a simplified curve changes nothing. */
  lemma {:induction false} RdpIsIdempotent(points: seq<Point>, m: Metric)
    requires m.EndsAreNear()
    ensures Rdp(Rdp(points, m), m) == Rdp(points, m)
    decreases |points|
  {
    if Splits(points, m) {
      var i, left, right := Halves(points, m);
      var kept := RdpIsFaithful(points, m);
      var keptLeft := RdpIsFaithful(points[..i + 1], m);
      var keptRight := RdpIsFaithful(points[i..], m);
      RdpIsIdempotent(points[..i + 1], m);
      RdpIsIdempotent(points[i..], m);
      SplitIsStable(points, Rdp(points, m), kept, |left| - 1, m);
      Recut(Rdp(points, m), left, right);
      Rejoin(Rdp(points, m), left, right, m);
    }
  }

  /** A joined curve that splits where it was joined simplifies to itself. */
  lemma Rejoin(result: seq<Point>, left: seq<Point>, right: seq<Point>, m: Metric)
    requires m.EndsAreNear() && Splits(result, m) && Farthest(result, m) == |left| - 1
    requires Rdp(result[..|left|], m) == left && Rdp(result[|left| - 1..], m) == right
    requires result == AllButLast(left) + right
    ensures Rdp(result, m) == result
  {
    var i, l, r := Halves(result, m);
  }

  lemma Recut(result: seq<Point>, left: seq<Point>, right: seq<Point>)
    requires |left| >= 2 && |right| >= 2
    requires result == AllButLast(left) + right && left[|left| - 1] == right[0]
    ensures result[..|left|] == left && result[|left| - 1..] == right
  {}

  /** What the caller of the simplification gets, at every tolerance: both ends, a subsequence, every dropped point
      within tolerance of the line through its kept neighbours, no other point kept without need, and a fixed point. */
  lemma SimplifyIsFaithful(points: seq<Point>, tolerance: real) returns (kept: seq<int>)
    ensures Subsequence(kept, points, Simplify(points, tolerance))
    ensures DroppedAreNear(kept, points, ToLine(tolerance))
    ensures tolerance > 0.0 ==> KeptAreNeeded(kept, points, ToLine(tolerance))
    ensures Simplify(Simplify(points, tolerance), tolerance) == Simplify(points, tolerance)
    ensures tolerance <= 0.0 ==> Simplify(points, tolerance) == points
  {
    if |points| <= 2 || tolerance <= 0.0 {
      kept := Everything(points, ToLine(tolerance));
    } else {
      kept := RdpIsFaithful(points, ToLine(tolerance));
      RdpIsIdempotent(points, ToLine(tolerance));
    }
  }
}
