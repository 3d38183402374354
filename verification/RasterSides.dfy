/** What an outline fills, told by sides alone: of a triangle the pixels on one side of all its edges, of any outline
    the pixels an odd number of its triangles hold. */
module RasterSides {
  import opened RealFacts
  import opened Polyline
  import opened Raster

  // ---------------------------------------------------------------- one triangle

  predicate OffTheLine(p: Point, q: Point, x: real, y: real) { Side(p, q, x, y) != 0.0 }

  predicate SameSign(a: real, b: real) { (a > 0.0 && b > 0.0) || (a < 0.0 && b < 0.0) }

  /** The pixel lies on the same side of all three edges. */
  predicate Holds(a: Point, b: Point, c: Point, x: real, y: real) {
    SameSign(Side(a, b, x, y), Side(b, c, x, y)) && SameSign(Side(b, c, x, y), Side(c, a, x, y))
  }

  predicate OffTriangle(a: Point, b: Point, c: Point, x: real, y: real) {
    OffTheLine(a, b, x, y) && OffTheLine(b, c, x, y) && OffTheLine(c, a, x, y)
  }

  /** The sides of a triangle weigh its corners into the pixel. */
  lemma SidesBalance(a: Point, b: Point, c: Point, x: real, y: real)
    ensures Area(Side(b, c, x, y), a.y - y) + Area(Side(c, a, x, y), b.y - y) + Area(Side(a, b, x, y), c.y - y) == 0.0
  {
    var ax, ay, bx, by', cx, cy := a.x - x, a.y - y, b.x - x, b.y - y, c.x - x, c.y - y;
    SideFromPixel(a, b, x, y);
    SideFromPixel(b, c, x, y);
    SideFromPixel(c, a, x, y);
    Balance(ax, ay, bx, by', cx, cy);
  }

  lemma SideFromPixel(p: Point, q: Point, x: real, y: real)
    ensures Side(p, q, x, y) == Area(p.x - x, q.y - y) - Area(p.y - y, q.x - x)
  {
  }

  lemma Balance(ax: real, ay: real, bx: real, by': real, cx: real, cy: real)
    ensures Area(Area(bx, cy) - Area(by', cx), ay) + Area(Area(cx, ay) - Area(cy, ax), by')
            + Area(Area(ax, by') - Area(ay, bx), cy) == 0.0
  {
  }

  /** A pixel level with two corners is on the line through them. */
  lemma LevelWithTwo(p: Point, q: Point, x: real, y: real)
    requires p.y == y && q.y == y
    ensures Side(p, q, x, y) == 0.0
  {
  }

  /** No corner stands above the pixel, or all do: then it lies on different sides of two edges. */
  lemma AllAlike(a: Point, b: Point, c: Point, x: real, y: real)
    requires OffTriangle(a, b, c, x, y) && (a.y > y <==> b.y > y) && (b.y > y <==> c.y > y)
    ensures !Holds(a, b, c, x, y)
  {
    if Holds(a, b, c, x, y) {
      SidesBalance(a, b, c, x, y);
      var da, db, dc := Side(b, c, x, y), Side(c, a, x, y), Side(a, b, x, y);
      NoCancelling(da, db, dc, a.y - y, b.y - y, c.y - y);
      LevelWithTwo(a, b, x, y);
    }
  }

  /** Three terms of one sign cancel only if each is nothing. */
  lemma NoCancelling(d: real, e: real, f: real, u: real, v: real, w: real)
    requires SameSign(d, e) && SameSign(e, f) && Area(d, u) + Area(e, v) + Area(f, w) == 0.0
    requires (u > 0.0 && v > 0.0 && w > 0.0) || (u <= 0.0 && v <= 0.0 && w <= 0.0)
    ensures u == 0.0 && v == 0.0 && w == 0.0
  {
    AreaSign(d, u);
    AreaSign(e, v);
    AreaSign(f, w);
    AreaSign(d, -u);
    AreaSign(e, -v);
    AreaSign(f, -w);
    assert Area(d, -u) == -Area(d, u) && Area(e, -v) == -Area(e, v) && Area(f, -w) == -Area(f, w);
  }

  /** One corner apart from the other two, as seen from the pixel's height: the edges that meet there decide. */
  lemma OneApart(a: Point, b: Point, c: Point, x: real, y: real)
    requires OffTriangle(a, b, c, x, y) && (a.y > y) != (b.y > y) && (b.y > y <==> c.y > y)
    ensures Holds(a, b, c, x, y) <==> SameSign(Side(a, b, x, y), Side(c, a, x, y))
  {
    var da, db, dc := Side(b, c, x, y), Side(c, a, x, y), Side(a, b, x, y);
    if SameSign(dc, db) {
      SidesBalance(a, b, c, x, y);
      if b.y == y && c.y == y { LevelWithTwo(b, c, x, y); }
      Apart(da, db, dc, a.y - y, b.y - y, c.y - y);
    }
  }

  /** Two terms of one sign and not both nothing are balanced by a third against them. */
  lemma Apart(d: real, e: real, f: real, u: real, v: real, w: real)
    requires SameSign(e, f) && Area(d, u) + Area(e, v) + Area(f, w) == 0.0 && (v != 0.0 || w != 0.0)
    requires (u > 0.0 && v <= 0.0 && w <= 0.0) || (u <= 0.0 && v > 0.0 && w > 0.0)
    ensures SameSign(d, e)
  {
    AreaSign(e, v);
    AreaSign(f, w);
    AreaSign(e, -v);
    AreaSign(f, -w);
    AreaSign(u, d);
    AreaSign(u, -d);
    assert Area(e, -v) == -Area(e, v) && Area(f, -w) == -Area(f, w) && Area(u, d) == Area(d, u);
    assert Area(u, -d) == -Area(u, d);
  }

  /** Exclusive or of the crossings of the three edges. */
  predicate OddCrossings(a: Point, b: Point, c: Point, x: real, y: real) {
    Crosses(a, b, x, y) != (Crosses(b, c, x, y) != Crosses(c, a, x, y))
  }

  lemma OddExactlyIfHeld(a: Point, b: Point, c: Point, x: real, y: real)
    requires OffTriangle(a, b, c, x, y)
    ensures OddCrossings(a, b, c, x, y) <==> Holds(a, b, c, x, y)
  {
    CrossesBySide(a, b, x, y);
    CrossesBySide(b, c, x, y);
    CrossesBySide(c, a, x, y);
    if (a.y > y) == (b.y > y) && (b.y > y) == (c.y > y) {
      AllAlike(a, b, c, x, y);
    } else if (b.y > y) == (c.y > y) {
      OneApart(a, b, c, x, y);
    } else if (a.y > y) == (c.y > y) {
      OneApart(b, c, a, x, y);
    } else {
      OneApart(c, a, b, x, y);
    }
  }

  lemma ThreeEdges(a: Point, b: Point, c: Point, x: real, y: real)
    ensures PixelInside([a, b, c], x, y) == OddCrossings(a, b, c, x, y)
  {
    InsideIsCycleParity([a, b, c], x, y);
    var cycle := Cycle([a, b, c]);
    assert cycle[1..] == [b, c, a] && [b, c, a][1..] == [c, a] && [c, a][1..] == [a];
    assert Parity([c, a], x, y) == Crosses(c, a, x, y) by { assert !Parity([a], x, y); }
    assert Parity([b, c, a], x, y) == (Crosses(b, c, x, y) != Crosses(c, a, x, y));
  }

  /** A pixel off the lines of a triangle is filled if and only if it lies on the same side of all three edges. */
  lemma TriangleFillsItsInside(a: Point, b: Point, c: Point, x: real, y: real)
    requires OffTriangle(a, b, c, x, y)
    ensures PixelInside([a, b, c], x, y) <==> Holds(a, b, c, x, y)
  {
    ThreeEdges(a, b, c, x, y);
    OddExactlyIfHeld(a, b, c, x, y);
  }

  // ---------------------------------------------------------------- any outline

  /** The pixel is off the line of every edge, and off every line from the first vertex to another. */
  predicate OffTheFan(first: Point, chain: seq<Point>, x: real, y: real) {
    forall k :: 0 <= k < |chain| - 1 ==> OffTriangle(first, chain[k], chain[k + 1], x, y)
  }

  /** Whether an odd number of the triangles between the first vertex and an edge of the chain hold the pixel. */
  predicate OddlyHeld(first: Point, chain: seq<Point>, x: real, y: real) {
    if |chain| < 2 then false else Holds(first, chain[0], chain[1], x, y) != OddlyHeld(first, chain[1..], x, y)
  }

  lemma {:induction false} FanParity(first: Point, chain: seq<Point>, x: real, y: real)
    requires chain != [] && OffTheFan(first, chain, x, y)
    ensures OddlyHeld(first, chain, x, y)
         == (Parity(chain, x, y) != (Crosses(first, chain[0], x, y) != Crosses(chain[|chain| - 1], first, x, y)))
  {
    if |chain| == 1 {
      CrossesReversed(first, chain[0], x, y);
    } else {
      OddExactlyIfHeld(first, chain[0], chain[1], x, y);
      CrossesReversed(first, chain[1], x, y);
      FanParity(first, chain[1..], x, y);
    }
  }

  /** A pixel off those lines is filled by an outline of three or more vertices, crossing itself or not, if and only
      if it lies inside an odd number of the triangles that its first vertex spans with its edges. */
  lemma OutlineFillsOddTriangles(points: seq<Point>, x: real, y: real)
    requires |points| >= 3 && OffTheFan(points[0], points[1..], x, y)
    ensures PixelInside(points, x, y) <==> OddlyHeld(points[0], points[1..], x, y)
  {
    var chain := points[1..];
    InsideIsCycleParity(points, x, y);
    FanParity(points[0], chain, x, y);
    ParitySnoc(points, points[0], x, y);
    assert Parity(points, x, y) == (Crosses(points[0], chain[0], x, y) != Parity(chain, x, y));
  }
}
