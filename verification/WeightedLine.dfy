/** The inner solve of the robust cost fit: the least weighted squared residual of a line
    `intercept + slope * x` over non-negative intercept and slope. */
module WeightedLine {
  import opened Prelude
  import opened RealFacts

  /** One observed callback with the weight the current round gives it. */
  datatype Obs = Obs(w: real, x: real, y: real)

  datatype Line = Line(intercept: real, slope: real)

  const GUARD := 0.000000000001

  function Sum(d: seq<Obs>, f: Obs -> real): real {
    if d == [] then 0.0 else f(d[0]) + Sum(d[1..], f)
  }

  function SumW(d: seq<Obs>): real { Sum(d, (o: Obs) => o.w) }
  function SumX(d: seq<Obs>): real { Sum(d, (o: Obs) => o.w * o.x) }
  function SumY(d: seq<Obs>): real { Sum(d, (o: Obs) => o.w * o.y) }
  function SumXX(d: seq<Obs>): real { Sum(d, (o: Obs) => o.w * o.x * o.x) }
  function SumXY(d: seq<Obs>): real { Sum(d, (o: Obs) => o.w * o.x * o.y) }
  function SumYY(d: seq<Obs>): real { Sum(d, (o: Obs) => o.w * o.y * o.y) }

  /** Weighted spread of the abscissae about `mx`. */
  function Variance(d: seq<Obs>, mx: real): real {
    Sum(d, (o: Obs) => o.w * ((o.x - mx) * (o.x - mx)))
  }

  function Covariance(d: seq<Obs>, mx: real, my: real): real {
    Sum(d, (o: Obs) => o.w * (o.x - mx) * (o.y - my))
  }

  /** Weighted squared residual of a line. */
  function Residual(d: seq<Obs>, l: Line): real { Sum(d, MissTerm(l)) }

  function MissTerm(l: Line): Obs -> real {
    (o: Obs) => o.w * ((o.y - l.intercept - l.slope * o.x) * (o.y - l.intercept - l.slope * o.x))
  }

  function MeanX(d: seq<Obs>): real { SumX(d) / RMax(GUARD, SumW(d)) }
  function MeanY(d: seq<Obs>): real { SumY(d) / RMax(GUARD, SumW(d)) }

  /** The unconstrained least-squares line. */
  function FreeLine(d: seq<Obs>): Line
    requires Variance(d, MeanX(d)) > 0.0
  {
    var slope := Covariance(d, MeanX(d), MeanY(d)) / Variance(d, MeanX(d));
    Line(MeanY(d) - slope * MeanX(d), slope)
  }

  predicate NonNegative(l: Line) { l.intercept >= 0.0 && l.slope >= 0.0 }

  /** The flat line, the free line when it is admissible, the best line through the origin. */
  function Candidates(d: seq<Obs>): (r: seq<Line>)
    ensures r != [] && forall k :: 0 <= k < |r| ==> NonNegative(r[k])
  {
    [Line(RMax(0.0, MeanY(d)), 0.0)]
    + (if Variance(d, MeanX(d)) > GUARD && NonNegative(FreeLine(d)) then [FreeLine(d)] else [])
    + (if SumXX(d) > GUARD then [Line(0.0, RMax(0.0, SumXY(d) / SumXX(d)))] else [])
  }

  /** `min(candidates, key=weighted_residual)`: the first of the least. */
  function Best(d: seq<Obs>, lines: seq<Line>): (l: Line)
    requires lines != []
    ensures l in lines && forall m :: m in lines ==> Residual(d, l) <= Residual(d, m)
  {
    if |lines| == 1 then lines[0]
    else
      var rest := Best(d, lines[1..]);
      if Residual(d, lines[0]) <= Residual(d, rest) then lines[0] else rest
  }

  function Solve(d: seq<Obs>): Line { Best(d, Candidates(d)) }

  // ---------------------------------------------------------------- sums are linear

  lemma {:induction false} SumIsLinear(d: seq<Obs>, f: Obs -> real, g0: Obs -> real, g1: Obs -> real, g2: Obs -> real,
                                       g3: Obs -> real, g4: Obs -> real, g5: Obs -> real,
                                       c1: real, c2: real, c3: real, c4: real, c5: real)
    requires forall o :: f(o) == g0(o) + c1 * g1(o) + c2 * g2(o) + c3 * g3(o) + c4 * g4(o) + c5 * g5(o)
    ensures Sum(d, f) == Sum(d, g0) + c1 * Sum(d, g1) + c2 * Sum(d, g2) + c3 * Sum(d, g3) + c4 * Sum(d, g4)
                         + c5 * Sum(d, g5)
  {
    if d != [] {
      var o, t := d[0], d[1..];
      SumIsLinear(t, f, g0, g1, g2, g3, g4, g5, c1, c2, c3, c4, c5);
      assert c1 * (g1(o) + Sum(t, g1)) == c1 * g1(o) + c1 * Sum(t, g1);
      assert c2 * (g2(o) + Sum(t, g2)) == c2 * g2(o) + c2 * Sum(t, g2);
      assert c3 * (g3(o) + Sum(t, g3)) == c3 * g3(o) + c3 * Sum(t, g3);
      assert c4 * (g4(o) + Sum(t, g4)) == c4 * g4(o) + c4 * Sum(t, g4);
      assert c5 * (g5(o) + Sum(t, g5)) == c5 * g5(o) + c5 * Sum(t, g5);
    }
  }

  lemma ResidualTerm(o: Obs, a: real, b: real, cw: real, cx: real, cy: real, cxx: real, cxy: real)
    requires cw == a * a && cx == 2.0 * a * b && cy == -2.0 * a && cxx == b * b && cxy == -2.0 * b
    ensures o.w * ((o.y - a - b * o.x) * (o.y - a - b * o.x))
         == o.w * o.y * o.y + cw * o.w + cx * (o.w * o.x) + cy * (o.w * o.y) + cxx * (o.w * o.x * o.x)
            + cxy * (o.w * o.x * o.y)
  {}

  lemma ResidualExpanded(d: seq<Obs>, l: Line, cw: real, cx: real, cy: real, cxx: real, cxy: real)
    requires cw == l.intercept * l.intercept && cx == 2.0 * l.intercept * l.slope && cy == -2.0 * l.intercept
    requires cxx == l.slope * l.slope && cxy == -2.0 * l.slope
    ensures Residual(d, l) == SumYY(d) + cw * SumW(d) + cx * SumX(d) + cy * SumY(d) + cxx * SumXX(d) + cxy * SumXY(d)
  {
    var f := MissTerm(l);
    var g0, g1, g2 := (o: Obs) => o.w * o.y * o.y, (o: Obs) => o.w, (o: Obs) => o.w * o.x;
    var g3, g4, g5 := (o: Obs) => o.w * o.y, (o: Obs) => o.w * o.x * o.x, (o: Obs) => o.w * o.x * o.y;
    forall o ensures f(o) == g0(o) + cw * g1(o) + cx * g2(o) + cy * g3(o) + cxx * g4(o) + cxy * g5(o) {
      ResidualTerm(o, l.intercept, l.slope, cw, cx, cy, cxx, cxy);
    }
    SumIsLinear(d, f, g0, g1, g2, g3, g4, g5, cw, cx, cy, cxx, cxy);
  }

  lemma SpreadOfMoments(d: seq<Obs>, mx: real)
    ensures Variance(d, mx) == SumXX(d) + (-2.0 * mx) * SumX(d) + (mx * mx) * SumW(d)
  {
    var zero := (o: Obs) => 0.0;
    SumIsLinear(d, (o: Obs) => o.w * ((o.x - mx) * (o.x - mx)), (o: Obs) => o.w * o.x * o.x,
                (o: Obs) => o.w * o.x, (o: Obs) => o.w, zero, zero, zero, -2.0 * mx, mx * mx, 0.0, 0.0, 0.0);
  }

  lemma CovarianceTerm(o: Obs, mx: real, my: real, both: real)
    requires both == mx * my
    ensures o.w * (o.x - mx) * (o.y - my) ==
            o.w * o.x * o.y + (-mx) * (o.w * o.y) + (-my) * (o.w * o.x) + both * o.w
  {
  }

  lemma CovarianceExpanded(d: seq<Obs>, mx: real, my: real, cx: real, cy: real, both: real)
    requires both == mx * my && cx == -my && cy == -mx
    ensures Covariance(d, mx, my) == SumXY(d) + cy * SumY(d) + cx * SumX(d) + both * SumW(d)
  {
    var f, zero := (o: Obs) => o.w * (o.x - mx) * (o.y - my), (o: Obs) => 0.0;
    var g0, g1 := (o: Obs) => o.w * o.x * o.y, (o: Obs) => o.w * o.y;
    var g2, g3 := (o: Obs) => o.w * o.x, (o: Obs) => o.w;
    forall o ensures f(o) == g0(o) + cy * g1(o) + cx * g2(o) + both * g3(o) + 0.0 * zero(o) + 0.0 * zero(o) {
      CovarianceTerm(o, mx, my, both);
    }
    SumIsLinear(d, f, g0, g1, g2, g3, zero, zero, cy, cx, both, 0.0, 0.0);
  }

  lemma CovarianceOfMoments(d: seq<Obs>, mx: real, my: real)
    ensures Covariance(d, mx, my) == SumXY(d) + (-mx) * SumY(d) + (-my) * SumX(d) + (mx * my) * SumW(d)
  {
    CovarianceExpanded(d, mx, my, -my, -mx, mx * my);
  }

  // ---------------------------------------------------------------- algebra on the moments

  datatype Moments = Moments(w: real, x: real, y: real, xx: real, xy: real, yy: real)

  function MomentsOf(d: seq<Obs>): Moments { Moments(SumW(d), SumX(d), SumY(d), SumXX(d), SumXY(d), SumYY(d)) }

  function Quadratic(m: Moments, l: Line): real {
    var a, b := l.intercept, l.slope;
    m.yy + (a * a) * m.w + (2.0 * a * b) * m.x + (-2.0 * a) * m.y + (b * b) * m.xx + (-2.0 * b) * m.xy
  }

  lemma QuadraticOf(m: Moments, l: Line, cw: real, cx: real, cy: real, cxx: real, cxy: real)
    requires cw == l.intercept * l.intercept && cx == 2.0 * l.intercept * l.slope && cy == -2.0 * l.intercept
    requires cxx == l.slope * l.slope && cxy == -2.0 * l.slope
    ensures Quadratic(m, l) == m.yy + cw * m.w + cx * m.x + cy * m.y + cxx * m.xx + cxy * m.xy
  {
  }

  /** The residual of a line depends on the data through six moments only. */
  lemma ResidualOfMoments(d: seq<Obs>, l: Line)
    ensures Residual(d, l) == Quadratic(MomentsOf(d), l)
  {
    var cw, cx, cy := l.intercept * l.intercept, 2.0 * l.intercept * l.slope, -2.0 * l.intercept;
    var cxx, cxy := l.slope * l.slope, -2.0 * l.slope;
    QuadraticOf(MomentsOf(d), l, cw, cx, cy, cxx, cxy);
    ResidualExpanded(d, l, cw, cx, cy, cxx, cxy);
  }

  /** `f` solves the normal equations of `m`, whose weighted means and spread are `mx`, `my`, `v`. */
  predicate IsFreeLine(m: Moments, f: Line, mx: real, my: real, v: real) {
    && m.w > 0.0 && v > 0.0
    && m.x == mx * m.w && m.y == my * m.w && v == m.xx - mx * m.x
    && f.slope * v == m.xy - mx * m.y && f.intercept == my - f.slope * mx
  }

  lemma NormalEquations(m: Moments, f: Line, mx: real, my: real, v: real)
    requires IsFreeLine(m, f, mx, my, v)
    ensures m.y == f.intercept * m.w + f.slope * m.x
    ensures m.xy == f.intercept * m.x + f.slope * m.xx
  {
    assert f.intercept * m.w == my * m.w - f.slope * (mx * m.w);
    assert f.intercept * m.x == my * (mx * m.w) - f.slope * (mx * m.x);
    assert f.slope * v == f.slope * m.xx - f.slope * (mx * m.x);
    assert mx * m.y == my * (mx * m.w);
  }

  /** Completing the square about the free line. */
  lemma AroundFreeLine(m: Moments, f: Line, mx: real, my: real, v: real,
                       p: real, q: real, r: real, rr: real, qq: real)
    returns (gap: real)
    requires IsFreeLine(m, f, mx, my, v) && r == p + q * mx && rr == r * r && qq == q * q
    ensures gap == m.w * rr + v * qq
    ensures Quadratic(m, Line(f.intercept + p, f.slope + q)) == Quadratic(m, f) + gap
  {
    NormalEquations(m, f, mx, my, v);
    var a, b := f.intercept, f.slope;
    assert (-2.0 * (a + p)) * m.y == (-2.0 * a) * m.y - 2.0 * p * (a * m.w) - 2.0 * p * (b * m.x);
    assert (-2.0 * (b + q)) * m.xy == (-2.0 * b) * m.xy - 2.0 * q * (a * m.x) - 2.0 * q * (b * m.xx);
    assert m.w * rr == p * p * m.w + 2.0 * p * q * m.x + q * q * (mx * m.x);
    assert v * qq == q * q * m.xx - q * q * (mx * m.x);
    gap := m.w * rr + v * qq;
  }

  /** Moving towards the free line by any fraction never raises the residual. */
  lemma TowardsFreeLine(m: Moments, f: Line, mx: real, my: real, v: real, p: real, q: real, t: real, p': real, q': real)
    requires IsFreeLine(m, f, mx, my, v) && 0.0 <= t <= 1.0 && p' == t * p && q' == t * q
    ensures Quadratic(m, Line(f.intercept + p', f.slope + q')) <= Quadratic(m, Line(f.intercept + p, f.slope + q))
  {
    var r, r' := p + q * mx, p' + q' * mx;
    assert r' == t * r;
    var rr, rr', qq, qq' := r * r, r' * r', q * q, q' * q';
    var gap := AroundFreeLine(m, f, mx, my, v, p, q, r, rr, qq);
    var gap' := AroundFreeLine(m, f, mx, my, v, p', q', r', rr', qq');
    GapShrinks(m.w, v, t, r, r', q, q', rr, rr', qq, qq', gap, gap');
  }

  lemma GapShrinks(w: real, v: real, t: real, r: real, r': real, q: real, q': real,
                   rr: real, rr': real, qq: real, qq': real, gap: real, gap': real)
    requires w >= 0.0 && v >= 0.0 && 0.0 <= t <= 1.0 && r' == t * r && q' == t * q
    requires rr == r * r && rr' == r' * r' && qq == q * q && qq' == q' * q'
    requires gap == w * rr + v * qq && gap' == w * rr' + v * qq'
    ensures gap' <= gap
  {
    Shrinks(w, r, r', t, rr, rr');
    Shrinks(v, q, q', t, qq, qq');
  }

  /** The segment from an inadmissible line `(a, b)` to an admissible one meets the boundary. */
  lemma BoundaryPoint(a: real, b: real, p: real, q: real) returns (t: real, p': real, q': real)
    requires (a < 0.0 || b < 0.0) && a + p >= 0.0 && b + q >= 0.0
    ensures 0.0 <= t <= 1.0 && p' == t * p && q' == t * q
    ensures a + p' >= 0.0 && b + q' >= 0.0 && (a + p' == 0.0 || b + q' == 0.0)
  {
    var ta, tb := 0.0, 0.0;
    if a < 0.0 { ta := Crossing(a, p); }
    if b < 0.0 { tb := Crossing(b, q); }
    t := RMax(ta, tb);
    p', q' := t * p, t * q;
    StaysNonNegative(a, p, t, ta);
    StaysNonNegative(b, q, t, tb);
  }

  /** When the free line is inadmissible, some boundary line does at least as well as any admissible one. */
  lemma ToBoundary(m: Moments, f: Line, mx: real, my: real, v: real, l: Line) returns (e: Line)
    requires IsFreeLine(m, f, mx, my, v) && !NonNegative(f) && NonNegative(l)
    ensures NonNegative(e) && (e.intercept == 0.0 || e.slope == 0.0)
    ensures Quadratic(m, e) <= Quadratic(m, l)
  {
    var p, q := l.intercept - f.intercept, l.slope - f.slope;
    var t, p', q' := BoundaryPoint(f.intercept, f.slope, p, q);
    e := Line(f.intercept + p', f.slope + q');
    TowardsFreeLine(m, f, mx, my, v, p, q, t, p', q');
    assert Line(f.intercept + p, f.slope + q) == l;
  }

  lemma Crossing(start: real, move: real) returns (t: real)
    requires start < 0.0 && start + move >= 0.0
    ensures 0.0 < t <= 1.0 && t * move == -start
  {
    t := -start / move;
    assert t * move == -start;
  }

  /** Past its own zero crossing, a coordinate that ends non-negative is non-negative. */
  lemma StaysNonNegative(start: real, move: real, t: real, crossing: real)
    requires start + move >= 0.0 && 0.0 <= crossing <= t <= 1.0
    requires start < 0.0 ==> crossing * move == -start
    ensures start + t * move >= 0.0
  {
    if start < 0.0 {
      assert move > 0.0;
      assert t * move >= crossing * move;
    } else if move < 0.0 {
      assert t * move >= move;
    } else {
      assert t * move >= 0.0;
    }
  }

  /** The best flat line and the best line through the origin are the boundary optima. */
  lemma BestOnBoundary(m: Moments, my: real, slope: real, e: Line)
    requires m.w > 0.0 && m.xx > 0.0 && m.y == my * m.w && m.xy == slope * m.xx
    requires NonNegative(e)
    ensures e.slope == 0.0 ==> Quadratic(m, Line(RMax(0.0, my), 0.0)) <= Quadratic(m, e)
    ensures e.intercept == 0.0 ==> Quadratic(m, Line(0.0, RMax(0.0, slope))) <= Quadratic(m, e)
  {
    OneDimensional(m.w, my, e.intercept);
    OneDimensional(m.xx, slope, e.slope);
  }

  lemma OneDimensional(c: real, best: real, a: real)
    requires c > 0.0 && a >= 0.0
    ensures var r := RMax(0.0, best);
            (r * r) * c + (-2.0 * r) * (best * c) <= (a * a) * c + (-2.0 * a) * (best * c)
  {
    var r := RMax(0.0, best);
    var gap := (a * a - 2.0 * a * best) - (r * r - 2.0 * r * best);
    assert gap >= 0.0 by {
      if best >= 0.0 { assert gap == (a - best) * (a - best); }
      else { assert a * best <= 0.0 && a * a >= 0.0 && r * r == 0.0; assert gap == a * a - 2.0 * (a * best); }
    }
    assert gap * c >= 0.0;
    assert gap * c == ((a * a) * c + (-2.0 * a) * (best * c)) - ((r * r) * c + (-2.0 * r) * (best * c));
  }

  // ---------------------------------------------------------------- the solve is exact

  /** The guards against a vanishing denominator do not bite. */
  predicate WellPosed(d: seq<Obs>) { SumW(d) >= GUARD && Variance(d, MeanX(d)) > GUARD }

  lemma FreeLineIsFree(d: seq<Obs>)
    requires SumW(d) >= GUARD && Variance(d, MeanX(d)) > 0.0
    ensures IsFreeLine(MomentsOf(d), FreeLine(d), MeanX(d), MeanY(d), Variance(d, MeanX(d)))
    ensures SumXX(d) >= Variance(d, MeanX(d))
  {
    var mx, my := MeanX(d), MeanY(d);
    SpreadOfMoments(d, mx);
    CovarianceOfMoments(d, mx, my);
    FreeLineAlgebra(MomentsOf(d), mx, my, Variance(d, mx), Covariance(d, mx, my));
  }

  lemma FreeLineAlgebra(m: Moments, mx: real, my: real, v: real, c: real)
    requires m.w > 0.0 && v > 0.0 && mx == m.x / m.w && my == m.y / m.w
    requires v == m.xx + (-2.0 * mx) * m.x + (mx * mx) * m.w
    requires c == m.xy + (-mx) * m.y + (-my) * m.x + (mx * my) * m.w
    ensures IsFreeLine(m, Line(my - (c / v) * mx, c / v), mx, my, v)
    ensures m.xx >= v
  {
    assert m.x == mx * m.w && m.y == my * m.w;
    assert (mx * mx) * m.w == mx * m.x && (mx * my) * m.w == my * m.x;
    var slope := c / v;
    assert slope * v == c;
    var square := Square(mx);
    WeightedSquare(m.w, mx, square);
  }

  /** Among all lines with non-negative terms none has a smaller weighted squared residual. */
  lemma SolveIsOptimal(d: seq<Obs>, l: Line)
    requires WellPosed(d) && NonNegative(l)
    ensures NonNegative(Solve(d)) && Residual(d, Solve(d)) <= Residual(d, l)
  {
    FreeLineIsFree(d);
    var m, f, my := MomentsOf(d), FreeLine(d), MeanY(d);
    var flat, origin := Line(RMax(0.0, my), 0.0), Line(0.0, RMax(0.0, SumXY(d) / SumXX(d)));
    var c := Candidates(d);
    assert c[0] == flat && c[|c| - 1] == origin;
    assert NonNegative(f) ==> c[1] == f;
    ResidualOfMoments(d, l);
    ResidualOfMoments(d, f);
    ResidualOfMoments(d, flat);
    ResidualOfMoments(d, origin);
    if NonNegative(f) {
      BestCandidate(m, f, MeanX(d), my, Variance(d, MeanX(d)), l);
    } else {
      var e := ToBoundary(m, f, MeanX(d), my, Variance(d, MeanX(d)), l);
      BestOnBoundary(m, my, SumXY(d) / SumXX(d), e);
    }
  }

  /** The free line beats every line, and strictly every other one. */
  lemma BestCandidate(m: Moments, f: Line, mx: real, my: real, v: real, l: Line)
    requires IsFreeLine(m, f, mx, my, v)
    ensures Quadratic(m, f) <= Quadratic(m, l)
    ensures Quadratic(m, l) <= Quadratic(m, f) ==> l == f
  {
    var p, q := l.intercept - f.intercept, l.slope - f.slope;
    var r := p + q * mx;
    var rr, qq := r * r, q * q;
    var gap := AroundFreeLine(m, f, mx, my, v, p, q, r, rr, qq);
    assert l == Line(f.intercept + p, f.slope + q);
    WeightedSquare(m.w, r, rr);
    WeightedSquare(v, q, qq);
  }

  /** A line with non-negative terms that fits the data exactly is found exactly. */
  lemma ExactLineIsFound(d: seq<Obs>, l: Line)
    requires WellPosed(d) && NonNegative(l) && Residual(d, l) == 0.0
    requires forall k :: 0 <= k < |d| ==> d[k].w >= 0.0
    ensures Solve(d) == l
  {
    var f := FreeLine(d);
    FreeLineIsFree(d);
    SolveIsOptimal(d, l);
    ResidualNonNegative(d, f);
    ResidualOfMoments(d, l);
    ResidualOfMoments(d, f);
    ResidualOfMoments(d, Solve(d));
    BestCandidate(MomentsOf(d), f, MeanX(d), MeanY(d), Variance(d, MeanX(d)), l);
    BestCandidate(MomentsOf(d), f, MeanX(d), MeanY(d), Variance(d, MeanX(d)), Solve(d));
  }

  lemma MissTermSign(o: Obs, l: Line)
    requires o.w >= 0.0
    ensures MissTerm(l)(o) >= 0.0
  {
    var e := o.y - l.intercept - l.slope * o.x;
    WeightedSquare(o.w, e, e * e);
  }

  lemma ResidualNonNegative(d: seq<Obs>, l: Line)
    requires forall k :: 0 <= k < |d| ==> d[k].w >= 0.0
    ensures Residual(d, l) >= 0.0
  {
    var f := MissTerm(l);
    forall k | 0 <= k < |d| ensures f(d[k]) >= 0.0 { MissTermSign(d[k], l); }
    SumNonNegative(d, f);
  }

  lemma {:induction false} SumNonNegative(d: seq<Obs>, f: Obs -> real)
    requires forall k :: 0 <= k < |d| ==> f(d[k]) >= 0.0
    ensures Sum(d, f) >= 0.0
  {
    if d != [] { SumNonNegative(d[1..], f); }
  }

  // ---------------------------------------------------------------- exactly when a guard costs the optimum

  /** No line with non-negative terms has a smaller residual. */
  ghost predicate IsOptimal(d: seq<Obs>, s: Line) {
    NonNegative(s) && forall l {:trigger Residual(d, l)} :: NonNegative(l) ==> Residual(d, s) <= Residual(d, l)
  }

  /** The unconstrained line exists and both its terms are positive. */
  predicate FreeLineIsInside(d: seq<Obs>) {
    Variance(d, MeanX(d)) > 0.0 && FreeLine(d).intercept > 0.0 && FreeLine(d).slope > 0.0
  }

  /** The guards drop no candidate that would have won: the spread clears its guard; or only the free line
      is dropped and it was not inside; or the line through the origin is dropped too and the flat line
      cannot be improved by tilting it up. */
  predicate GuardsAreHarmless(d: seq<Obs>) {
    || Variance(d, MeanX(d)) > GUARD
    || (SumXX(d) > GUARD && !FreeLineIsInside(d))
    || (SumXX(d) <= GUARD && SumXY(d) <= RMax(0.0, MeanY(d)) * SumX(d))
  }

  function Flat(d: seq<Obs>): Line { Line(RMax(0.0, MeanY(d)), 0.0) }

  function ThroughOrigin(d: seq<Obs>): Line
    requires SumXX(d) > GUARD
  {
    Line(0.0, RMax(0.0, SumXY(d) / SumXX(d)))
  }

  /** What is left to choose from when the free line is dropped. */
  lemma WithoutFreeLine(d: seq<Obs>)
    requires Variance(d, MeanX(d)) <= GUARD
    ensures SumXX(d) <= GUARD ==> Solve(d) == Flat(d)
    ensures SumXX(d) > GUARD ==>
              (Solve(d) == Flat(d) || Solve(d) == ThroughOrigin(d))
              && Residual(d, Solve(d)) <= Residual(d, Flat(d))
              && Residual(d, Solve(d)) <= Residual(d, ThroughOrigin(d))
  {
    var c := Candidates(d);
    if SumXX(d) > GUARD {
      assert c == [Flat(d), ThroughOrigin(d)];
      assert c[0] in c && c[1] in c;
    } else {
      assert c == [Flat(d)];
    }
  }

  /** A free line that is admissible but not inside is the flat line or the one through the origin. */
  lemma FreeLineOnBoundary(m: Moments, f: Line, mx: real, my: real, v: real)
    requires IsFreeLine(m, f, mx, my, v) && NonNegative(f)
    ensures f.slope == 0.0 ==> f.intercept == my
    ensures f.intercept == 0.0 ==> m.xy == f.slope * m.xx
  {
    NormalEquations(m, f, mx, my, v);
  }

  lemma NarrowSpread(d: seq<Obs>, l: Line)
    requires SumW(d) >= GUARD && 0.0 < Variance(d, MeanX(d)) <= GUARD < SumXX(d)
    requires !FreeLineIsInside(d) && NonNegative(l)
    ensures RMin(Residual(d, Flat(d)), Residual(d, ThroughOrigin(d))) <= Residual(d, l)
  {
    FreeLineIsFree(d);
    var m, f, mx, my, v := MomentsOf(d), FreeLine(d), MeanX(d), MeanY(d), Variance(d, MeanX(d));
    var slope := SumXY(d) / SumXX(d);
    ResidualOfMoments(d, l);
    ResidualOfMoments(d, Flat(d));
    ResidualOfMoments(d, ThroughOrigin(d));
    if NonNegative(f) {
      BestCandidate(m, f, mx, my, v, l);
      FreeLineOnBoundary(m, f, mx, my, v);
      if f.slope != 0.0 { SameSlope(slope, f.slope, m.xx, m.xy); }
    } else {
      var e := ToBoundary(m, f, mx, my, v, l);
      BestOnBoundary(m, my, slope, e);
    }
  }

  lemma SameSlope(a: real, b: real, xx: real, xy: real)
    requires xx > 0.0 && a == xy / xx && xy == b * xx
    ensures a == b
  {
    assert a * xx == xy;
    assert (a - b) * xx == 0.0;
  }

  /** A free line inside beats every other line, so losing it costs something. */
  lemma InsideIsMissed(d: seq<Obs>)
    requires SumW(d) >= GUARD && Variance(d, MeanX(d)) <= GUARD < SumXX(d) && FreeLineIsInside(d)
    ensures Residual(d, FreeLine(d)) < Residual(d, Solve(d))
  {
    FreeLineIsFree(d);
    WithoutFreeLine(d);
    ResidualOfMoments(d, FreeLine(d));
    ResidualOfMoments(d, Solve(d));
    BestCandidate(MomentsOf(d), FreeLine(d), MeanX(d), MeanY(d), Variance(d, MeanX(d)), Solve(d));
  }

  /** A weighted squared distance to `best`, up to a constant. */
  function Parabola(w: real, best: real, t: real): real { (t * t) * w + (-2.0 * t) * (best * w) }

  /** With no spread at all the residual depends on the value at the common abscissa only. */
  lemma OnOneAbscissa(m: Moments, mx: real, my: real, l: Line, t: real)
    requires m.x == mx * m.w && m.y == my * m.w && m.xx == mx * m.x && m.xy == mx * m.y
    requires t == l.intercept + l.slope * mx
    ensures Quadratic(m, l) == m.yy + Parabola(m.w, my, t)
  {
    var a, b := l.intercept, l.slope;
    assert b * b * m.xx == b * b * mx * mx * m.w && (2.0 * a * b) * m.x == 2.0 * a * b * mx * m.w;
    assert (-2.0 * b) * m.xy == -2.0 * b * mx * my * m.w;
    assert t * t == a * a + 2.0 * a * b * mx + b * b * mx * mx;
  }

  /** The least of a parabola, over all values or over the non-negative ones. */
  lemma LeastValue(w: real, my: real, t: real)
    requires w > 0.0
    ensures Parabola(w, my, my) <= Parabola(w, my, t)
    ensures my <= 0.0 && t >= 0.0 ==> Parabola(w, my, 0.0) <= Parabola(w, my, t)
  {
    var q := Square(t - my);
    var p := Product(w, q);
    assert p == (t * t) * w - 2.0 * t * (my * w) + (my * my) * w;
    if my <= 0.0 && t >= 0.0 { OneDimensional(w, my, t); }
  }

  lemma NoSpread(m: Moments, mx: real, my: real, slope: real, l: Line)
    requires m.w > 0.0 && m.xx > 0.0 && m.xy == slope * m.xx && NonNegative(l)
    requires m.x == mx * m.w && m.y == my * m.w && m.xx == mx * m.x && m.xy == mx * m.y
    ensures RMin(Quadratic(m, Line(RMax(0.0, my), 0.0)), Quadratic(m, Line(0.0, RMax(0.0, slope)))) <= Quadratic(m, l)
  {
    var t := l.intercept + l.slope * mx;
    OnOneAbscissa(m, mx, my, l, t);
    LeastValue(m.w, my, t);
    if my >= 0.0 {
      OnOneAbscissa(m, mx, my, Line(my, 0.0), my);
    } else if mx >= 0.0 {
      OnOneAbscissa(m, mx, my, Line(0.0, 0.0), 0.0);
      var up := Product(l.slope, mx);
    } else {
      OriginReaches(m, mx, my, slope);
      OnOneAbscissa(m, mx, my, Line(0.0, slope), my);
    }
  }

  lemma OriginReaches(m: Moments, mx: real, my: real, slope: real)
    requires m.w > 0.0 && mx < 0.0 && my < 0.0 && m.xy == slope * m.xx
    requires m.x == mx * m.w && m.y == my * m.w && m.xx == mx * m.x && m.xy == mx * m.y
    ensures slope > 0.0 && slope * mx == my
  {
    assert (slope * mx - my) * (mx * m.w) == 0.0;
    var p := Product(-mx, m.w);
    assert slope * mx == my;
    if slope <= 0.0 { var q := Product(-slope, -mx); }
  }

  lemma VanishingTerm(w: real, e: real, y: real)
    requires w >= 0.0
    ensures w * (e * e) >= 0.0
    ensures w * (e * e) <= 0.0 ==> w * e * y == 0.0
  {
    var square := Square(e);
    WeightedSquare(w, e, square);
    if w > 0.0 && w * square <= 0.0 { assert e == 0.0; }
  }

  /** What the first observation adds to the spread and to the covariance. */
  lemma FirstTerms(d: seq<Obs>, mx: real, my: real) returns (spread: real, joint: real)
    requires d != [] && d[0].w >= 0.0
    ensures spread >= 0.0 && (spread <= 0.0 ==> joint == 0.0)
    ensures Variance(d, mx) == spread + Variance(d[1..], mx)
    ensures Covariance(d, mx, my) == joint + Covariance(d[1..], mx, my)
  {
    spread := d[0].w * ((d[0].x - mx) * (d[0].x - mx));
    joint := d[0].w * (d[0].x - mx) * (d[0].y - my);
    VanishingTerm(d[0].w, d[0].x - mx, d[0].y - my);
  }

  /** Weights on one abscissa leave no covariance either. */
  lemma {:induction false} NoSpreadNoCovariance(d: seq<Obs>, mx: real, my: real)
    requires (forall k :: 0 <= k < |d| ==> d[k].w >= 0.0) && Variance(d, mx) <= 0.0
    ensures Variance(d, mx) == 0.0 && Covariance(d, mx, my) == 0.0
  {
    if d != [] {
      var spread, joint := FirstTerms(d, mx, my);
      SpreadIsNonNegative(d[1..], mx);
      NoSpreadNoCovariance(d[1..], mx, my);
    }
  }

  lemma {:induction false} SpreadIsNonNegative(d: seq<Obs>, mx: real)
    requires forall k :: 0 <= k < |d| ==> d[k].w >= 0.0
    ensures Variance(d, mx) >= 0.0
  {
    if d != [] {
      var square := Square(d[0].x - mx);
      WeightedSquare(d[0].w, d[0].x - mx, square);
      SpreadIsNonNegative(d[1..], mx);
    }
  }

  /** The moments about the means, whatever the spread. */
  lemma CentredMoments(d: seq<Obs>)
    requires SumW(d) >= GUARD
    ensures SumX(d) == MeanX(d) * SumW(d) && SumY(d) == MeanY(d) * SumW(d)
    ensures Variance(d, MeanX(d)) == SumXX(d) - MeanX(d) * SumX(d)
    ensures Covariance(d, MeanX(d), MeanY(d)) == SumXY(d) - MeanX(d) * SumY(d)
  {
    var mx, my := MeanX(d), MeanY(d);
    SpreadOfMoments(d, mx);
    CovarianceOfMoments(d, mx, my);
    assert (mx * mx) * SumW(d) == mx * SumX(d) && (mx * my) * SumW(d) == my * SumX(d);
  }

  lemma OneAbscissaMoments(d: seq<Obs>)
    requires SumW(d) >= GUARD && Variance(d, MeanX(d)) == 0.0 && forall k :: 0 <= k < |d| ==> d[k].w >= 0.0
    ensures SumX(d) == MeanX(d) * SumW(d) && SumY(d) == MeanY(d) * SumW(d)
    ensures SumXX(d) == MeanX(d) * SumX(d) && SumXY(d) == MeanX(d) * SumY(d)
  {
    CentredMoments(d);
    NoSpreadNoCovariance(d, MeanX(d), MeanY(d));
  }

  lemma SlopeThroughOrigin(d: seq<Obs>) returns (slope: real)
    requires SumXX(d) > GUARD
    ensures SumXY(d) == slope * SumXX(d) && ThroughOrigin(d) == Line(0.0, RMax(0.0, slope))
  {
    slope := SumXY(d) / SumXX(d);
  }

  lemma OneAbscissa(d: seq<Obs>, l: Line)
    requires SumW(d) >= GUARD && Variance(d, MeanX(d)) == 0.0 && SumXX(d) > GUARD && NonNegative(l)
    requires forall k :: 0 <= k < |d| ==> d[k].w >= 0.0
    ensures RMin(Residual(d, Flat(d)), Residual(d, ThroughOrigin(d))) <= Residual(d, l)
  {
    OneAbscissaMoments(d);
    var slope := SlopeThroughOrigin(d);
    ResidualOfMoments(d, l);
    ResidualOfMoments(d, Flat(d));
    ResidualOfMoments(d, ThroughOrigin(d));
    NoSpread(MomentsOf(d), MeanX(d), MeanY(d), slope, l);
  }

  /** The second-order part of a move by `p` and `b`, and the first-order part at the flat line of height `a0`. */
  function Bend(m: Moments, p: real, b: real): real { m.w * (p * p) + 2.0 * (p * b) * m.x + (b * b) * m.xx }

  function Pull(m: Moments, a0: real, p: real, b: real): real {
    2.0 * (p * (a0 * m.w) - p * m.y) + 2.0 * ((a0 * b) * m.x - b * m.xy)
  }

  lemma SpreadTerms(m: Moments, mx: real, v: real, p: real, b: real) returns (first: real, second: real)
    requires m.w > 0.0 && v >= 0.0 && m.x == mx * m.w && v == m.xx - mx * m.x
    ensures first >= 0.0 && second >= 0.0
    ensures first + second == Bend(m, p, b)
  {
    var rr := Square(p + b * mx);
    var bb := Square(b);
    first := Product(m.w, rr);
    second := Product(v, bb);
    assert first == m.w * (p * p) + 2.0 * (p * b) * m.x + (b * b) * (mx * m.x);
    assert second == (b * b) * m.xx - (b * b) * (mx * m.x);
  }

  /** Around the flat line: what any other admissible line changes. */
  lemma AroundFlat(m: Moments, mx: real, my: real, v: real, l: Line)
    requires m.w > 0.0 && v >= 0.0 && m.x == mx * m.w && m.y == my * m.w && v == m.xx - mx * m.x
    requires NonNegative(l) && m.xy <= RMax(0.0, my) * m.x
    ensures Quadratic(m, Line(RMax(0.0, my), 0.0)) <= Quadratic(m, l)
  {
    var b, a0 := l.slope, RMax(0.0, my);
    var p := l.intercept - a0;
    var first, second := SpreadTerms(m, mx, v, p, b);
    var third := Product(b, a0 * m.x - m.xy);
    var fourth := PushesDown(m.w, my, l.intercept, a0);
    SumsUp(m, p, b, a0, my, third, fourth);
    FlatGap(m, l.intercept, b, a0, p);
  }

  lemma SumsUp(m: Moments, p: real, b: real, a0: real, my: real, third: real, fourth: real)
    requires m.y == my * m.w && third == b * (a0 * m.x - m.xy) && fourth == p * (a0 * m.w) - p * (my * m.w)
    ensures 2.0 * fourth + 2.0 * third == Pull(m, a0, p, b)
  {
  }

  lemma PushesDown(w: real, my: real, a: real, a0: real) returns (r: real)
    requires w > 0.0 && a >= 0.0 && a0 == RMax(0.0, my)
    ensures r == (a - a0) * (a0 * w) - (a - a0) * (my * w) && r >= 0.0
  {
    r := (a - a0) * ((a0 - my) * w);
    if my < 0.0 {
      var q := Product(-my, w);
      r := Product(a, q);
    }
  }

  lemma FlatGap(m: Moments, a: real, b: real, a0: real, p: real)
    requires p == a - a0
    ensures Quadratic(m, Line(a, b)) - Quadratic(m, Line(a0, 0.0)) ==
            Bend(m, p, b) + Pull(m, a0, p, b)
  {
    assert a * a == a0 * a0 + 2.0 * p * a0 + p * p && 2.0 * a * b == 2.0 * (a0 * b) + 2.0 * (p * b);
  }

  /** Tilting the flat line up helps while the data pull it up. */
  lemma TiltHelps(m: Moments, a0: real) returns (b: real)
    requires m.xx >= 0.0 && a0 >= 0.0 && m.xy > a0 * m.x
    ensures b >= 0.0 && Quadratic(m, Line(a0, b)) < Quadratic(m, Line(a0, 0.0))
  {
    var pull := m.xy - a0 * m.x;
    if m.xx == 0.0 {
      b := 1.0;
    } else {
      b := pull / m.xx;
      assert b * m.xx == pull;
      if b <= 0.0 { var q := Product(-b, m.xx); }
      var gain := Product(b, pull);
      assert (b * b) * m.xx == gain;
    }
    FlatGap(m, a0, b, a0, 0.0);
    assert (a0 * b) * m.x - b * m.xy == -(b * pull);
  }

  lemma FlatIsOptimal(d: seq<Obs>, l: Line)
    requires SumW(d) >= GUARD && forall k :: 0 <= k < |d| ==> d[k].w >= 0.0
    requires SumXY(d) <= RMax(0.0, MeanY(d)) * SumX(d) && NonNegative(l)
    ensures Residual(d, Flat(d)) <= Residual(d, l)
  {
    CentredMoments(d);
    SpreadIsNonNegative(d, MeanX(d));
    ResidualOfMoments(d, Flat(d));
    ResidualOfMoments(d, l);
    AroundFlat(MomentsOf(d), MeanX(d), MeanY(d), Variance(d, MeanX(d)), l);
  }

  lemma FlatIsBeaten(d: seq<Obs>) returns (l: Line)
    requires forall k :: 0 <= k < |d| ==> d[k].w >= 0.0
    requires SumXY(d) > RMax(0.0, MeanY(d)) * SumX(d)
    ensures NonNegative(l) && Residual(d, l) < Residual(d, Flat(d))
  {
    SquaresAddUp(d);
    var b := TiltHelps(MomentsOf(d), RMax(0.0, MeanY(d)));
    l := Line(RMax(0.0, MeanY(d)), b);
    ResidualOfMoments(d, Flat(d));
    ResidualOfMoments(d, l);
  }

  lemma {:induction false} SquaresAddUp(d: seq<Obs>)
    requires forall k :: 0 <= k < |d| ==> d[k].w >= 0.0
    ensures SumXX(d) >= 0.0
  {
    if d != [] {
      var square := Square(d[0].x);
      WeightedSquare(d[0].w, d[0].x, square);
      assert d[0].w * d[0].x * d[0].x == d[0].w * square;
      SquaresAddUp(d[1..]);
    }
  }

  /** The solved line is optimal if and only if the guards are harmless. */
  lemma SolveIsOptimalExactlyIf(d: seq<Obs>)
    requires SumW(d) >= GUARD && forall k :: 0 <= k < |d| ==> d[k].w >= 0.0
    ensures IsOptimal(d, Solve(d)) <==> GuardsAreHarmless(d)
  {
    var v := Variance(d, MeanX(d));
    SpreadIsNonNegative(d, MeanX(d));
    if v > GUARD {
      FreeLineIsFree(d);
      forall l | NonNegative(l) ensures NonNegative(Solve(d)) && Residual(d, Solve(d)) <= Residual(d, l) {
        SolveIsOptimal(d, l);
      }
      SolveIsOptimal(d, Line(0.0, 0.0));
    } else {
      WithoutFreeLine(d);
      if SumXX(d) <= GUARD {
        if GuardsAreHarmless(d) {
          forall l | NonNegative(l) ensures Residual(d, Solve(d)) <= Residual(d, l) { FlatIsOptimal(d, l); }
        } else {
          var l := FlatIsBeaten(d);
        }
      } else if FreeLineIsInside(d) {
        InsideIsMissed(d);
      } else {
        forall l | NonNegative(l) ensures Residual(d, Solve(d)) <= Residual(d, l) {
          if v > 0.0 { NarrowSpread(d, l); } else { OneAbscissa(d, l); }
        }
      }
    }
  }
}
