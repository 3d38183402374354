/** Samples on which the robust fit misses the optimum: whole sizes, times below an hour, one round. */
module FitOfOutliers {
  import opened Prelude
  import opened RealFacts
  import opened WeightedLine
  import opened RobustFit

  /** Two callbacks of two items, one short and one long, then three of one item that agree. */
  predicate Outliers(xs: seq<real>, ys: seq<real>) {
    && xs == Reals([2, 2, 1, 1, 1])
    && ys == [1000000.0, 3000000.0, 2000000.0, 2000000.0, 2000000.0]
  }

  lemma MedianOfTwo(a: real, b: real)
    requires a <= b
    ensures Median([a, b]) == (a + b) / 2.0
  {
    var s, one := [a, b], [b];
    assert s[1..] == one && one[1..] == [];
    assert Sort(one) == Insert(b, Sort(one[1..])) == one;
    assert Sort(s) == Insert(a, one) == [a, b];
  }

  lemma ThreeOfFive(s: seq<real>, c: real)
    requires |s| == 5 && s[2] == c && s[3] == c && s[4] == c
    ensures Median(s) == c
  {
    assert s == s[..2] + [c, c, c];
    assert multiset(s) == multiset(s[..2]) + multiset([c, c, c]);
    MedianOfMajority(s, c);
  }

  // ---------------------------------------------------------------- the seed is flat

  /** Every sample of one item sees the two others at opposite slopes. */
  lemma OppositeSlopes(xs: seq<real>, ys: seq<real>, i: nat)
    requires Outliers(xs, ys) && 2 <= i < 5
    ensures SlopesFrom(xs, ys, i, 0) == [-1000000.0, 1000000.0]
  {
    assert xs[i] == 1.0 && ys[i] == 2000000.0 && xs[0] == 2.0 && xs[1] == 2.0;
    assert (ys[0] - ys[i]) / (xs[0] - xs[i]) == -1000000.0 / 1.0;
    assert (ys[1] - ys[i]) / (xs[1] - xs[i]) == 1000000.0 / 1.0;
    assert SlopesFrom(xs, ys, i, 5) == [];
    assert SlopesFrom(xs, ys, i, 4) == SlopesFrom(xs, ys, i, 5);
    assert SlopesFrom(xs, ys, i, 3) == SlopesFrom(xs, ys, i, 4);
    assert SlopesFrom(xs, ys, i, 2) == SlopesFrom(xs, ys, i, 3);
    assert SlopesFrom(xs, ys, i, 1) == [1000000.0] + SlopesFrom(xs, ys, i, 2);
    assert SlopesFrom(xs, ys, i, 0) == [-1000000.0] + SlopesFrom(xs, ys, i, 1);
  }

  lemma OutliersVary(xs: seq<real>, ys: seq<real>)
    requires Outliers(xs, ys)
    ensures |xs| == |ys| == 5 && Varied(xs)
  {
    assert xs[2] != xs[0];
  }

  lemma NextSlope(xs: seq<real>, ys: seq<real>, n: nat, k: nat)
    requires |xs| == |ys| && 0 < n <= |xs| && k < |xs| && xs[k] != xs[n - 1]
    ensures SlopesFrom(xs, ys, n - 1, 0) != []
    ensures PointSlopes(xs, ys, n) == PointSlopes(xs, ys, n - 1) + [Median(SlopesFrom(xs, ys, n - 1, 0))]
  {
    SlopesExist(xs, ys, n - 1, 0, k);
  }

  lemma FlatSlopes(xs: seq<real>, ys: seq<real>)
    requires Outliers(xs, ys)
    ensures var slopes := PointSlopes(xs, ys, 5);
            |slopes| == 5 && slopes[2] == 0.0 && slopes[3] == 0.0 && slopes[4] == 0.0
  {
    MedianOfTwo(-1000000.0, 1000000.0);
    assert PointSlopes(xs, ys, 0) == [];
    NextSlope(xs, ys, 1, 2);
    NextSlope(xs, ys, 2, 2);
    for n := 2 to 5
      invariant var slopes := PointSlopes(xs, ys, n);
                |slopes| == n && forall k :: 2 <= k < n ==> slopes[k] == 0.0
    {
      NextSlope(xs, ys, n + 1, 0);
      OppositeSlopes(xs, ys, n);
    }
  }

  lemma FlatSeed(xs: seq<real>, ys: seq<real>)
    requires Outliers(xs, ys)
    ensures |xs| == |ys| && Varied(xs) && Seed(xs, ys) == Line(2000000.0, 0.0)
  {
    OutliersVary(xs, ys);
    FlatSlopes(xs, ys);
    ThreeOfFive(PointSlopes(xs, ys, 5), 0.0);
    ThreeOfFive(Heights(xs, ys, 0.0), 2000000.0);
  }

  // ---------------------------------------------------------------- the weights of its round

  lemma FarInfluence(z: real)
    requires z * 1.1925 == 1000000.0
    ensures 0.00000000000142 < 1.0 / (1.0 + z * z) < 0.0000000000014221
  {
    assert 838574.0 < z < 838575.0;
    var low := Product(z - 838574.0, z + 838574.0);
    var high := Product(838575.0 - z, 838575.0 + z);
    assert 838574.0 * 838574.0 < z * z < 838575.0 * 838575.0;
    var q := 1.0 / (1.0 + z * z);
    assert q * (1.0 + z * z) == 1.0;
  }

  /** The two far samples share one tiny influence; the others keep their recency. */
  function RoundOf(f: real): seq<Obs> {
    [Obs(0.26873856 * f, 2.0, 1000000.0), Obs(0.373248 * f, 2.0, 3000000.0),
     Obs(0.5184, 1.0, 2000000.0), Obs(0.72, 1.0, 2000000.0), Obs(1.0, 1.0, 2000000.0)]
  }

  predicate Tiny(f: real) { 0.00000000000142 < f < 0.0000000000014221 }

  lemma Recencies()
    ensures Recency(5, 0) == 0.26873856 && Recency(5, 1) == 0.373248
    ensures Recency(5, 2) == 0.5184 && Recency(5, 3) == 0.72 && Recency(5, 4) == 1.0
  {
    assert Power(0.72, 1) == 0.72 && Power(0.72, 2) == 0.5184;
    assert Power(0.72, 3) == 0.373248 && Power(0.72, 4) == 0.26873856;
  }

  lemma FarResiduals(xs: seq<real>, ys: seq<real>, l: Line)
    requires Outliers(xs, ys) && l == Line(2000000.0, 0.0)
    ensures |xs| == |ys|
    ensures var r := Residuals(xs, ys, l);
            r == [-1000000.0, 1000000.0, 0.0, 0.0, 0.0] && Median(r) == 0.0 && CauchyWidth(r) == 1.1925
  {
    var r := Residuals(xs, ys, l);
    assert r == [-1000000.0, 1000000.0, 0.0, 0.0, 0.0];
    ThreeOfFive(r, 0.0);
    var deviations := seq(|r|, i requires 0 <= i < |r| => Abs(r[i] - Median(r)));
    ThreeOfFive(deviations, 0.0);
  }

  lemma FarWeights(xs: seq<real>, ys: seq<real>, l: Line) returns (f: real)
    requires Outliers(xs, ys) && l == Line(2000000.0, 0.0)
    ensures |xs| == |ys| > 0 && Weighted(xs, ys, l) == RoundOf(f) && Tiny(f)
  {
    FarResiduals(xs, ys, l);
    Recencies();
    var z := 1000000.0 / 1.1925;
    FarInfluence(z);
    f := 1.0 / (1.0 + z * z);
    var minus := (-1000000.0 - 0.0) / 1.1925;
    assert minus == -z && minus * minus == z * z;
    assert Influence(-1000000.0, 0.0, 1.1925) == f;
    assert Influence(1000000.0, 0.0, 1.1925) == f;
    assert Influence(0.0, 0.0, 1.1925) == 1.0;
    var d := Weighted(xs, ys, l);
    assert d[0] == RoundOf(f)[0] && d[1] == RoundOf(f)[1] && d[2] == RoundOf(f)[2];
    assert d[3] == RoundOf(f)[3] && d[4] == RoundOf(f)[4];
  }

  // ---------------------------------------------------------------- its moments

  lemma SumOfFive(d: seq<Obs>, f: Obs -> real)
    requires |d| == 5
    ensures Sum(d, f) == f(d[0]) + (f(d[1]) + (f(d[2]) + (f(d[3]) + f(d[4]))))
  {
    assert d[1..][1..] == d[2..] && d[2..][1..] == d[3..] && d[3..][1..] == d[4..] && d[4..][1..] == [];
    assert Sum(d[4..], f) == f(d[4]) + Sum(d[4..][1..], f);
    assert Sum(d[3..], f) == f(d[3]) + Sum(d[3..][1..], f);
    assert Sum(d[2..], f) == f(d[2]) + Sum(d[2..][1..], f);
    assert Sum(d[1..], f) == f(d[1]) + Sum(d[1..][1..], f);
  }

  /** With `u` the weight of the two far samples together and `g` by how much the longer one outweighs the other. */
  lemma FarMoments(d: seq<Obs>, f: real, u: real, g: real)
    requires d == RoundOf(f) && u == 0.64198656 * f && g == 0.10450944 * f
    ensures SumW(d) == 2.2384 + u && SumX(d) == 2.2384 + 2.0 * u && SumXX(d) == 2.2384 + 4.0 * u
    ensures SumY(d) == 2000000.0 * (2.2384 + u) + 1000000.0 * g
    ensures SumXY(d) == 2000000.0 * (2.2384 + 2.0 * u) + 2000000.0 * g
  {
    SumOfFive(d, (o: Obs) => o.w);
    SumOfFive(d, (o: Obs) => o.w * o.x);
    SumOfFive(d, (o: Obs) => o.w * o.x * o.x);
    SumOfFive(d, (o: Obs) => o.w * o.y);
    SumOfFive(d, (o: Obs) => o.w * o.x * o.y);
  }

  lemma FarSpread(u: real, e: real, v: real)
    requires 0.0 < u < GUARD && e * (2.2384 + u) == u
    requires v == 2.2384 + 4.0 * u - (1.0 + e) * (2.2384 + 2.0 * u)
    ensures 0.0 < e < 0.5 && v == u - e * u && 0.0 < v <= GUARD
  {
    if e <= 0.0 { var p := Product(-e, 2.2384 + u); }
    if e >= 0.5 { var p := Product(e - 0.5, 2.2384 + u); }
    var p := Product(e, u);
    var q := Product(1.0 - e, u);
    assert (1.0 + e) * (2.2384 + 2.0 * u) == 2.2384 + 2.0 * u + e * (2.2384 + u) + p;
  }

  /** What the longer far sample adds to the covariance. */
  lemma FarCovariance(u: real, g: real, e: real, c: real)
    requires e * (2.2384 + u) == u
    requires c == 2000000.0 * (2.2384 + 2.0 * u) + 2000000.0 * g
                  - (1.0 + e) * (2000000.0 * (2.2384 + u) + 1000000.0 * g)
    ensures c == 1000000.0 * (g - e * g)
  {
    assert (1.0 + e) * (2000000.0 * (2.2384 + u)) == 2000000.0 * (2.2384 + u) + 2000000.0 * (e * (2.2384 + u));
    assert (1.0 + e) * (1000000.0 * g) == 1000000.0 * g + 1000000.0 * (e * g);
  }

  lemma FarSlope(u: real, g: real, e: real, v: real, slope: real)
    requires 0.0 < g < u && 0.0 < e < 0.5 && v == u - e * u && v > 0.0
    requires slope * v == 1000000.0 * (g - e * g)
    ensures 0.0 < slope < 1000000.0
  {
    var c := Product(1.0 - e, g);
    var gap := Product(1.0 - e, u - g);
    if slope <= 0.0 { var p := Product(-slope, v); }
    if slope >= 1000000.0 { var p := Product(slope - 1000000.0, v); }
  }

  /** The spread stays below its guard, and the free line rises from a positive intercept. */
  lemma FarFreeLine(d: seq<Obs>, f: real)
    requires d == RoundOf(f) && Tiny(f)
    ensures SumW(d) >= GUARD && Variance(d, MeanX(d)) <= GUARD < SumXX(d) && FreeLineIsInside(d)
  {
    var u, g := 0.64198656 * f, 0.10450944 * f;
    FarMoments(d, f, u, g);
    CentredMoments(d);
    var mx, my, e, v := MeanX(d), MeanY(d), MeanX(d) - 1.0, Variance(d, MeanX(d));
    assert e * (2.2384 + u) == u;
    FarSpread(u, e, v);
    FarCovariance(u, g, e, Covariance(d, mx, my));
    var l := FreeLine(d);
    assert l.slope * v == Covariance(d, mx, my);
    FarSlope(u, g, e, v, l.slope);
    assert (my - 2000000.0) * (2.2384 + u) == 1000000.0 * g;
    if my <= 2000000.0 { var p := Product(2000000.0 - my, 2.2384 + u); }
    Scale(l.slope, mx, 1.5);
  }

  // ---------------------------------------------------------------- its round settles on the flat line

  /** The best flat line is no worse than the seed, which leaves only the far samples off. */
  lemma FlatIsClose(d: seq<Obs>, f: real)
    requires d == RoundOf(f) && Tiny(f)
    ensures 2000000.0 < Flat(d).intercept < 2000000.0000005
    ensures Residual(d, Flat(d)) < 0.92
  {
    var u, g := 0.64198656 * f, 0.10450944 * f;
    FarMoments(d, f, u, g);
    var my := MeanY(d);
    var rise := my - 2000000.0;
    assert rise * (2.2384 + u) == 1000000.0 * g;
    if rise <= 0.0 { var p := Product(-rise, 2.2384 + u); }
    if rise >= 0.0000005 { var p := Product(rise - 0.0000005, 2.2384 + u); }
    FlatResidual(d, f, rise);
  }

  lemma SquareGrows(a: real, b: real)
    requires 0.0 <= a <= b
    ensures Squared(a) <= Squared(b)
  {
    Scale(a, a, b);
    Scale(b, a, b);
  }

  lemma SquareBetween(v: real, low: real, high: real)
    requires 0.0 <= low <= v <= high || 0.0 <= low <= -v <= high
    ensures Squared(low) <= Squared(v) <= Squared(high)
  {
    if low <= v {
      SquareGrows(low, v);
      SquareGrows(v, high);
    } else {
      assert Squared(v) == Squared(-v);
      SquareGrows(low, -v);
      SquareGrows(-v, high);
    }
  }

  function Miss(o: Obs, l: Line): real { o.w * Squared(o.y - l.intercept - l.slope * o.x) }

  lemma ResidualOfFive(d: seq<Obs>, l: Line)
    requires |d| == 5
    ensures Residual(d, l) == Miss(d[0], l) + (Miss(d[1], l) + (Miss(d[2], l) + (Miss(d[3], l) + Miss(d[4], l))))
  {
    SumOfFive(d, MissTerm(l));
  }

  lemma ThreeAlike(a: real, b: real, near: real)
    ensures a + (b + (0.5184 * near + (0.72 * near + 1.0 * near))) == a + b + 2.2384 * near
  {
  }

  /** What a line misses the short far sample, the long one, and the near ones by. */
  lemma ResidualOfRound(d: seq<Obs>, f: real, l: Line, short: real, long: real, near: real)
    requires d == RoundOf(f)
    requires short == 1000000.0 - l.intercept - l.slope * 2.0 && long == 3000000.0 - l.intercept - l.slope * 2.0
    requires near == 2000000.0 - l.intercept - l.slope * 1.0
    ensures Residual(d, l)
            == (0.26873856 * f) * Squared(short) + (0.373248 * f) * Squared(long) + 2.2384 * Squared(near)
  {
    ResidualOfFive(d, l);
    ThreeAlike((0.26873856 * f) * Squared(short), (0.373248 * f) * Squared(long), Squared(near));
  }

  lemma FlatResidual(d: seq<Obs>, f: real, rise: real)
    requires d == RoundOf(f) && Tiny(f) && Flat(d) == Line(2000000.0 + rise, 0.0) && 0.0 < rise < 0.0000005
    ensures Residual(d, Flat(d)) < 0.92
  {
    var short, long := -1000000.0 - rise, 1000000.0 - rise;
    ResidualOfRound(d, f, Flat(d), short, long, -rise);
    SquareBetween(short, 0.0, 1000001.0);
    SquareBetween(long, 0.0, 1000001.0);
    SquareBetween(-rise, 0.0, 0.001);
    assert Squared(1000001.0) == 1000002000001.0 && Squared(0.001) == 0.000001;
    Scale(0.26873856 * f, Squared(short), 1000002000001.0);
    Scale(0.373248 * f, Squared(long), 1000002000001.0);
  }

  lemma ShortMissed(w: real, v: real)
    requires w > 0.0000000000003 && v <= -2999998.0
    ensures w * Squared(v) > 0.92
  {
    SquareBetween(v, 2999998.0, -v);
    Scale(w, 8000000000000.0, Squared(v));
  }

  lemma WeighsNoLess(w: real, v: real)
    requires w >= 0.0
    ensures w * Squared(v) >= 0.0
  {
    WeightedSquare(w, v, Squared(v));
  }

  /** A line through the origin misses either the near samples or the short far one. */
  lemma OriginIsFar(d: seq<Obs>, f: real, l: Line)
    requires d == RoundOf(f) && Tiny(f) && l.intercept == 0.0
    ensures Residual(d, l) > 0.92
  {
    var short, long, near := 1000000.0 - l.slope * 2.0, 3000000.0 - l.slope * 2.0, 2000000.0 - l.slope;
    ResidualOfRound(d, f, l, short, long, near);
    WeighsNoLess(0.26873856 * f, short);
    WeighsNoLess(0.373248 * f, long);
    WeighsNoLess(2.2384, near);
    if l.slope >= 1999999.0 {
      ShortMissed(0.26873856 * f, short);
    } else {
      SquareBetween(near, 1.0, near);
    }
  }

  lemma SettlesFlat(d: seq<Obs>, f: real)
    requires d == RoundOf(f) && Tiny(f)
    ensures Solve(d) == Flat(d) && Settled(Solve(d), Line(2000000.0, 0.0))
  {
    FarFreeLine(d, f);
    WithoutFreeLine(d);
    FlatIsClose(d, f);
    OriginIsFar(d, f, ThroughOrigin(d));
  }

  /** The fit of these samples: the flat seed settles in one round, whose weights leave a spread below the guard,
      so the free line is dropped although both its terms are positive and its residual is smaller. */
  lemma FitLosesTheOptimum(xs: seq<real>, ys: seq<real>) returns (from: Line, d: seq<Obs>)
    requires Outliers(xs, ys)
    ensures |xs| == |ys| && Varied(xs) && xs != [] && from == Seed(xs, ys) && d == Weighted(xs, ys, from)
    ensures EntersLastRound(Reweigh(xs, ys), Seed(xs, ys), 12, 0, from) && Fit(xs, ys) == Some(Solve(d))
    ensures FreeLineIsInside(d) && Residual(d, FreeLine(d)) < Residual(d, Fit(xs, ys).value)
    ensures !IsOptimal(d, Fit(xs, ys).value)
  {
    FlatSeed(xs, ys);
    from := Line(2000000.0, 0.0);
    var f := FarWeights(xs, ys, from);
    d := Weighted(xs, ys, from);
    SettlesFlat(d, f);
    FarFreeLine(d, f);
    InsideIsMissed(d);
    var step := Reweigh(xs, ys);
    assert step(from) == Solve(d);
    assert Rounds(step, from, ROUNDS) == step(from);
  }
}
