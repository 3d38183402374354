/** Even-odd rasterisation of a closed freehand outline, and the rectangle mask next to it. */
module Raster {
  import opened Prelude
  import opened RealFacts
  import opened Polyline

  /** The edge straddles the pixel's horizontal line. */
  predicate Straddles(p: Point, q: Point, y: real) { (p.y > y) != (q.y > y) }

  /** Abscissa at which the edge meets that line. */
  function MeetsAt(p: Point, q: Point, y: real): real
    requires p.y != q.y
  {
    (q.x - p.x) * (y - p.y) / (q.y - p.y) + p.x
  }

  predicate Crosses(p: Point, q: Point, x: real, y: real) {
    Straddles(p, q, y) && x < MeetsAt(p, q, y)
  }

  /** Exclusive or of the crossings of consecutive vertices. */
  function Parity(chain: seq<Point>, x: real, y: real): bool {
    if |chain| < 2 then false else Crosses(chain[0], chain[1], x, y) != Parity(chain[1..], x, y)
  }

  /** The first vertex is repeated at the end unless it already stands there. */
  function Close(points: seq<Point>): seq<Point> {
    if points == [] || points[0] == points[|points| - 1] then points else points + [points[0]]
  }

  function PixelInside(points: seq<Point>, x: real, y: real): bool {
    |Close(points)| >= 4 && Parity(Close(points), x, y)
  }

  // ---------------------------------------------------------------- one edge

  /** Twice the signed area of the edge and the pixel: positive on one side of the line, negative on the other. */
  function Side(p: Point, q: Point, x: real, y: real): real {
    Area(q.x - p.x, y - p.y) - Area(q.y - p.y, x - p.x)
  }

  function Area(w: real, h: real): real { w * h }

  /** The meeting point lies at the pixel's height on the line through both ends. */
  lemma MeetsOnTheLine(p: Point, q: Point, y: real)
    requires p.y != q.y
    ensures Side(p, q, MeetsAt(p, q, y), y) == 0.0
  {
    var h := q.y - p.y;
    var t := (q.x - p.x) * (y - p.y) / h;
    assert t * h == (q.x - p.x) * (y - p.y);
    assert MeetsAt(p, q, y) - p.x == t;
  }

  lemma SideMoves(p: Point, q: Point, x: real, m: real, y: real)
    ensures Side(p, q, x, y) - Side(p, q, m, y) == Area(q.y - p.y, m - x)
  {
  }

  /** An edge is crossed where it straddles the pixel's height with the pixel on the side it turns to. */
  lemma CrossesBySide(p: Point, q: Point, x: real, y: real)
    ensures Crosses(p, q, x, y) <==>
              (p.y <= y < q.y && Side(p, q, x, y) > 0.0) || (q.y <= y < p.y && Side(p, q, x, y) < 0.0)
  {
    if Straddles(p, q, y) {
      var m := MeetsAt(p, q, y);
      MeetsOnTheLine(p, q, y);
      SideMoves(p, q, x, m, y);
      AreaSign(q.y - p.y, m - x);
    }
  }

  /** The same from the ends: how far the pixel is from being level with either, weighed by how far right of it the
      other lies. */
  lemma SideFromEnds(p: Point, q: Point, x: real, y: real)
    ensures Side(p, q, x, y) == Area(q.x - x, y - p.y) + Area(p.x - x, q.y - y)
    ensures Side(q, p, x, y) == -Side(p, q, x, y)
  {
  }

  /** An edge and its reverse cross alike. */
  lemma CrossesReversed(p: Point, q: Point, x: real, y: real)
    ensures Crosses(p, q, x, y) == Crosses(q, p, x, y)
  {
    CrossesBySide(p, q, x, y);
    CrossesBySide(q, p, x, y);
    SideFromEnds(p, q, x, y);
  }

  /** Left of both ends an edge is crossed wherever it straddles, right of both nowhere. */
  lemma CrossesBeside(p: Point, q: Point, x: real, y: real)
    ensures x < p.x && x < q.x ==> (Crosses(p, q, x, y) <==> Straddles(p, q, y))
    ensures x >= p.x && x >= q.x ==> !Crosses(p, q, x, y)
  {
    CrossesBySide(p, q, x, y);
    SideFromEnds(p, q, x, y);
    if Straddles(p, q, y) {
      AreaSign(q.x - x, y - p.y);
      AreaSign(p.x - x, q.y - y);
    }
  }

  lemma AreaSign(w: real, h: real)
    ensures (w >= 0.0 && h >= 0.0) || (w <= 0.0 && h <= 0.0) ==> Area(w, h) >= 0.0
    ensures (w >= 0.0 && h <= 0.0) || (w <= 0.0 && h >= 0.0) ==> Area(w, h) <= 0.0
    ensures (w > 0.0 && h > 0.0) || (w < 0.0 && h < 0.0) ==> Area(w, h) > 0.0
    ensures (w > 0.0 && h < 0.0) || (w < 0.0 && h > 0.0) ==> Area(w, h) < 0.0
  {
    if w >= 0.0 && h >= 0.0 { var p := Product(w, h); }
    if w <= 0.0 && h <= 0.0 { var p := Product(-w, -h); }
    if w >= 0.0 && h <= 0.0 { var p := Product(w, -h); }
    if w <= 0.0 && h >= 0.0 { var p := Product(-w, h); }
  }

  // ---------------------------------------------------------------- closed cycles

  lemma {:induction false} ParitySnoc(chain: seq<Point>, p: Point, x: real, y: real)
    requires chain != []
    ensures Parity(chain + [p], x, y) == (Parity(chain, x, y) != Crosses(chain[|chain| - 1], p, x, y))
  {
    if |chain| == 1 {
      assert (chain + [p])[1..] == [p];
    } else {
      ParitySnoc(chain[1..], p, x, y);
      assert (chain + [p])[1..] == chain[1..] + [p];
    }
  }

  /** One more vertex toggles what its edge crosses, at every pixel. */
  lemma NextEdge(chain: seq<Point>, longer: seq<Point>, p: Point)
    requires chain != [] && longer == chain + [p]
    ensures forall x: real, y: real {:trigger Parity(longer, x, y)} ::
              Parity(longer, x, y) == (Parity(chain, x, y) != Crosses(chain[|chain| - 1], p, x, y))
  {
    forall x: real, y: real {:trigger Parity(longer, x, y)}
      ensures Parity(longer, x, y) == (Parity(chain, x, y) != Crosses(chain[|chain| - 1], p, x, y))
    {
      ParitySnoc(chain, p, x, y);
    }
  }

  /** The mask as the program fills it: each edge in turn toggles the pixels to its left. */
  method PolygonMask(height: int, width: int, points: seq<Point>) returns (mask: array2<bool>)
    ensures fresh(mask) && mask.Length0 == Max(0, height) && mask.Length1 == Max(0, width)
    ensures forall r, c :: 0 <= r < mask.Length0 && 0 <= c < mask.Length1 ==>
              mask[r, c] == PixelInside(points, c as real, r as real)
  {
    mask := new bool[Max(0, height), Max(0, width)]((_, _) => false);
    var polygon := Close(points);
    if height <= 0 || width <= 0 || |polygon| < 4 { return; }
    for i := 0 to |polygon| - 1
      invariant mask.Length0 == height && mask.Length1 == width && fresh(mask)
      invariant forall r, c :: 0 <= r < height && 0 <= c < width ==>
                  mask[r, c] == Parity(polygon[..i + 1], c as real, r as real)
    {
      NextEdge(polygon[..i + 1], polygon[..i + 2], polygon[i + 1]);
      forall r, c | 0 <= r < height && 0 <= c < width {
        mask[r, c] := mask[r, c] != Crosses(polygon[i], polygon[i + 1], c as real, r as real);
      }
    }
    assert polygon[..|polygon|] == polygon;
  }

  /** The whole cycle through `points`, back to its first vertex. */
  function Cycle(points: seq<Point>): seq<Point> { if points == [] then [] else points + [points[0]] }

  /** The filled pixels depend on the vertex cycle only, closed or not, degenerate or not. */
  lemma InsideIsCycleParity(points: seq<Point>, x: real, y: real)
    ensures PixelInside(points, x, y) == Parity(Cycle(points), x, y)
  {
    if points != [] {
      ParitySnoc(points, points[0], x, y);
      if |Close(points)| < 4 { FewVerticesFillNothing(points, x, y); }
    }
  }

  lemma FewVerticesFillNothing(points: seq<Point>, x: real, y: real)
    requires points != [] && |Close(points)| < 4
    ensures !Parity(Cycle(points), x, y)
  {
    assert !Parity([points[0]], x, y);
    if |points| == 1 {
      assert Cycle(points)[1..] == points;
    } else if |points| == 2 {
      CrossesReversed(points[0], points[1], x, y);
      assert Cycle(points)[1..] == [points[1], points[0]] && Cycle(points)[1..][1..] == [points[0]];
    } else {
      assert |points| == 3 && points[0] == points[2];
      CrossesReversed(points[0], points[1], x, y);
      assert Cycle(points)[1..] == [points[1], points[0], points[0]];
      var a, b := points[0], points[1];
      assert [b, a, a][1..] == [a, a] && [a, a][1..] == [a];
      assert !Parity([a, a], x, y);
      assert Parity([b, a, a], x, y) == Crosses(b, a, x, y);
    }
  }

  function Rotate(points: seq<Point>, k: nat): seq<Point>
    requires k <= |points|
  {
    points[k..] + points[..k]
  }

  lemma RotateOnce(points: seq<Point>, x: real, y: real)
    requires points != []
    ensures PixelInside(Rotate(points, 1), x, y) == PixelInside(points, x, y)
  {
    InsideIsCycleParity(points, x, y);
    InsideIsCycleParity(Rotate(points, 1), x, y);
    if |points| > 1 {
      var a, t := points[0], points[1..];
      var turned := t + [a];
      assert Rotate(points, 1) == turned && turned[0] == t[0];
      ParitySnoc(turned, t[0], x, y);
      assert Cycle(points)[1..] == turned;
      assert Cycle(points)[..2] == [a, t[0]];
    } else {
      assert Rotate(points, 1) == points;
    }
  }

  /** Starting the outline at another vertex fills the same pixels. */
  lemma {:induction false} RotationInvariant(points: seq<Point>, k: nat, x: real, y: real)
    requires k <= |points|
    ensures PixelInside(Rotate(points, k), x, y) == PixelInside(points, x, y)
  {
    if k == 0 {
      assert Rotate(points, 0) == points;
    } else {
      RotationInvariant(points, k - 1, x, y);
      RotateOnce(Rotate(points, k - 1), x, y);
      assert Rotate(Rotate(points, k - 1), 1) == Rotate(points, k);
    }
  }

  // ---------------------------------------------------------------- nothing outside the outline

  predicate BoxHolds(points: seq<Point>, left: real, right: real, top: real, bottom: real) {
    forall k :: 0 <= k < |points| ==> left <= points[k].x <= right && top <= points[k].y <= bottom
  }

  /** Left of every crossing, the parity of a chain only compares its two ends. */
  lemma {:induction false} ParityLeftOfAll(chain: seq<Point>, x: real, y: real, left: real, right: real,
                                           top: real, bottom: real)
    requires chain != [] && BoxHolds(chain, left, right, top, bottom) && x < left
    ensures Parity(chain, x, y) == Straddles(chain[0], chain[|chain| - 1], y)
  {
    if |chain| > 1 {
      ParityLeftOfAll(chain[1..], x, y, left, right, top, bottom);
      CrossesBeside(chain[0], chain[1], x, y);
    }
  }

  /** Right of, above or below every vertex, no edge crosses at all. */
  lemma {:induction false} ParityBeyondAll(chain: seq<Point>, x: real, y: real, left: real, right: real,
                                           top: real, bottom: real)
    requires BoxHolds(chain, left, right, top, bottom) && (x >= right || y < top || y >= bottom)
    ensures !Parity(chain, x, y)
  {
    if |chain| > 1 {
      ParityBeyondAll(chain[1..], x, y, left, right, top, bottom);
      CrossesBeside(chain[0], chain[1], x, y);
    }
  }

  /** A filled pixel lies in every box around the vertices, open on its right and lower side. */
  lemma NothingOutsideTheBox(points: seq<Point>, x: real, y: real, left: real, right: real, top: real, bottom: real)
    requires BoxHolds(points, left, right, top, bottom) && PixelInside(points, x, y)
    ensures left <= x < right && top <= y < bottom
  {
    InsideIsCycleParity(points, x, y);
    var cycle := Cycle(points);
    if x < left { ParityLeftOfAll(cycle, x, y, left, right, top, bottom); }
    if x >= right || y < top || y >= bottom { ParityBeyondAll(cycle, x, y, left, right, top, bottom); }
  }

  // ---------------------------------------------------------------- rectangles

  /** The pixel block a rectangle region covers. */
  predicate RectanglePixel(x: real, y: real, w: real, h: real, c: int, r: int) {
    && RMin(x, x + w).Floor <= c < Ceil(RMax(x, x + w))
    && RMin(y, y + h).Floor <= r < Ceil(RMax(y, y + h))
  }

  /** The rectangle's corners, in the order they are exported. */
  function Corners(x: real, y: real, w: real, h: real): seq<Point> {
    [Point(x, y), Point(x + w, y), Point(x + w, y + h), Point(x, y + h)]
  }

  lemma FourEdges(a: Point, b: Point, c: Point, d: Point, px: real, py: real)
    ensures PixelInside([a, b, c, d], px, py)
         == (Crosses(a, b, px, py) != (Crosses(b, c, px, py) != (Crosses(c, d, px, py) != Crosses(d, a, px, py))))
  {
    InsideIsCycleParity([a, b, c, d], px, py);
    var cycle := Cycle([a, b, c, d]);
    assert cycle[1..] == [b, c, d, a];
    assert [b, c, d, a][1..] == [c, d, a] && [c, d, a][1..] == [d, a] && [d, a][1..] == [a];
    assert Parity([d, a], px, py) == Crosses(d, a, px, py) by { assert !Parity([a], px, py); }
    assert Parity([c, d, a], px, py) == (Crosses(c, d, px, py) != Crosses(d, a, px, py));
  }

  lemma HorizontalEdge(p: Point, q: Point, px: real, py: real)
    requires p.y == q.y
    ensures !Crosses(p, q, px, py)
  {
  }

  lemma VerticalEdge(p: Point, q: Point, px: real, py: real)
    requires p.x == q.x
    ensures Crosses(p, q, px, py) <==> RMin(p.y, q.y) <= py < RMax(p.y, q.y) && px < p.x
  {
    if Straddles(p, q, py) { assert MeetsAt(p, q, py) == p.x; }
  }

  /** Drawing the corners as an outline fills the rectangle's pixels except those cut off at its low
      edges; so the two masks agree on every pixel exactly when no pixel is cut. */
  lemma RectangleAsOutline(x: real, y: real, w: real, h: real, c: int, r: int)
    ensures PixelInside(Corners(x, y, w, h), c as real, r as real)
        <==> RectanglePixel(x, y, w, h, c, r) && RMin(x, x + w) <= c as real && RMin(y, y + h) <= r as real
  {
    var px, py := c as real, r as real;
    var k := Corners(x, y, w, h);
    FourEdges(k[0], k[1], k[2], k[3], px, py);
    HorizontalEdge(k[0], k[1], px, py);
    VerticalEdge(k[1], k[2], px, py);
    HorizontalEdge(k[2], k[3], px, py);
    VerticalEdge(k[3], k[0], px, py);
    FloorCeil(RMin(x, x + w), RMax(x, x + w), c);
    FloorCeil(RMin(y, y + h), RMax(y, y + h), r);
  }

  /** A whole number at or after `low` is at or after its floor; before the ceiling means before `high`. */
  lemma FloorCeil(low: real, high: real, c: int)
    ensures c as real >= low ==> c >= low.Floor
    ensures c < Ceil(high) <==> (c as real) < high
  {}
}
