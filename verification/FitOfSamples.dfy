/** The robust fit judged by its samples: how large sizes and how long times keep it optimal. */
module FitOfSamples {
  import opened Prelude
  import opened RealFacts
  import opened WeightedLine
  import opened RobustFit

  // ---------------------------------------------------------------- samples that keep the fit optimal

  /** Sizes from one to `largest`, any two of them equal or at least one apart, and times up to `longest`. */
  predicate Legal(xs: seq<real>, ys: seq<real>, largest: real, longest: real) {
    && |xs| == |ys|
    && (forall k :: 0 <= k < |xs| ==> 1.0 <= xs[k] <= largest && 0.0 <= ys[k] <= longest)
    && forall i, j :: 0 <= i < |xs| && 0 <= j < |xs| ==> Apart(xs[i], xs[j])
  }

  predicate Apart(a: real, b: real) { a == b || a - b >= 1.0 || b - a >= 1.0 }

  /** Between two and eight callbacks of whole sizes, not all of one size, none longer than `longest`. */
  predicate Samples(counts: seq<int>, ys: seq<real>, largest: int, longest: real) {
    && |counts| == |ys| <= 8
    && (forall k :: 0 <= k < |counts| ==> 1 <= counts[k] <= largest && 0.0 <= ys[k] <= longest)
    && exists i, j :: 0 <= i < j < |counts| && counts[i] != counts[j]
  }

  lemma WholeIsApart(a: int, b: int)
    ensures Apart(a as real, b as real)
  {
    assert a as real - b as real == (a - b) as real;
  }

  lemma SamplesVary(counts: seq<int>, ys: seq<real>, largest: int, longest: real)
    requires Samples(counts, ys, largest, longest)
    ensures |counts| > 0 && Varied(Reals(counts)) && longest >= 0.0
  {
    var i, j :| 0 <= i < j < |counts| && counts[i] != counts[j];
    var xs := Reals(counts);
    assert xs[i] != xs[0] || xs[j] != xs[0];
  }

  lemma SamplesAreLegal(counts: seq<int>, ys: seq<real>, largest: int, longest: real)
    requires Samples(counts, ys, largest, longest)
    ensures Legal(Reals(counts), ys, largest as real, longest)
  {
    var xs := Reals(counts);
    forall a, b | 0 <= a < |xs| && 0 <= b < |xs| ensures Apart(xs[a], xs[b]) { WholeIsApart(counts[a], counts[b]); }
  }

  /** Both terms of the line lie between zero and the longest time. */
  predicate Modest(l: Line, longest: real) {
    0.0 <= l.intercept <= longest && 0.0 <= l.slope <= longest
  }

  predicate NoneAbove(s: seq<real>, high: real) { forall k :: 0 <= k < |s| ==> s[k] <= high }

  predicate NoneBelow(s: seq<real>, low: real) { forall k :: 0 <= k < |s| ==> low <= s[k] }

  lemma MedianAtMost(s: seq<real>, high: real)
    requires s != [] && NoneAbove(s, high)
    ensures Median(s) <= high
  {
    SortSorts(s);
    var t := Sort(s);
    forall k | 0 <= k < |t| ensures t[k] <= high {
      assert t[k] in multiset(t);
      assert t[k] in multiset(s);
    }
  }

  lemma MedianAtLeast(s: seq<real>, low: real)
    requires s != [] && NoneBelow(s, low)
    ensures low <= Median(s)
  {
    SortSorts(s);
    var t := Sort(s);
    forall k | 0 <= k < |t| ensures low <= t[k] {
      assert t[k] in multiset(t);
      assert t[k] in multiset(s);
    }
  }

  lemma QuotientInside(q: real, run: real, rise: real, most: real)
    requires run >= 1.0 && q * run == rise && -most <= rise <= most
    ensures -most <= q <= most
  {
    Scale(most, 1.0, run);
    if q > most { var p := Product(q - most, run); }
    if q < -most { var p := Product(-most - q, run); }
  }

  lemma QuotientAtMost(rise: real, run: real, most: real)
    requires (run >= 1.0 || run <= -1.0) && -most <= rise <= most
    ensures -most <= rise / run <= most
  {
    var q := rise / run;
    assert q * run == rise;
    if run >= 1.0 {
      QuotientInside(q, run, rise, most);
    } else {
      assert q * (-run) == -rise;
      QuotientInside(q, -run, -rise, most);
    }
  }

  lemma {:induction false} SlopesAreModest(xs: seq<real>, ys: seq<real>, largest: real, longest: real, i: nat, j: nat)
    requires Legal(xs, ys, largest, longest) && i < |xs| && j <= |xs|
    ensures NoneAbove(SlopesFrom(xs, ys, i, j), longest)
    decreases |xs| - j
  {
    if j < |xs| {
      SlopesAreModest(xs, ys, largest, longest, i, j + 1);
      assert Apart(xs[i], xs[j]);
      if xs[j] != xs[i] { QuotientAtMost(ys[j] - ys[i], xs[j] - xs[i], longest); }
    }
  }

  lemma {:induction false} PointSlopesAreModest(xs: seq<real>, ys: seq<real>, largest: real, longest: real, n: nat)
    requires Legal(xs, ys, largest, longest) && n <= |xs|
    ensures NoneAbove(PointSlopes(xs, ys, n), longest)
    decreases n
  {
    if n > 0 {
      PointSlopesAreModest(xs, ys, largest, longest, n - 1);
      SlopesAreModest(xs, ys, largest, longest, n - 1, 0);
      var slopes := SlopesFrom(xs, ys, n - 1, 0);
      if slopes != [] { MedianAtMost(slopes, longest); }
    }
  }

  lemma SeedIsModest(xs: seq<real>, ys: seq<real>, largest: real, longest: real)
    requires Legal(xs, ys, largest, longest) && Varied(xs) && longest >= 0.0
    ensures Modest(Seed(xs, ys), longest)
  {
    PointSlopesExist(xs, ys, |xs|);
    PointSlopesAreModest(xs, ys, largest, longest, |xs|);
    MedianAtMost(PointSlopes(xs, ys, |xs|), longest);
    var slope := RMax(0.0, Median(PointSlopes(xs, ys, |xs|)));
    HeightsAreModest(xs, ys, largest, longest, slope);
  }

  lemma HeightsAreModest(xs: seq<real>, ys: seq<real>, largest: real, longest: real, slope: real)
    requires Legal(xs, ys, largest, longest) && xs != [] && slope >= 0.0
    ensures Median(Heights(xs, ys, slope)) <= longest
  {
    var heights := Heights(xs, ys, slope);
    forall k | 0 <= k < |heights| ensures heights[k] <= longest { var p := Product(slope, xs[k]); }
    MedianAtMost(heights, longest);
  }

  // ---------------------------------------------------------------- a solve keeps to the samples

  lemma {:induction false} SumGrows(d: seq<Obs>, f: Obs -> real, g: Obs -> real)
    requires forall k :: 0 <= k < |d| ==> f(d[k]) <= g(d[k])
    ensures Sum(d, f) <= Sum(d, g)
  {
    if d != [] { SumGrows(d[1..], f, g); }
  }

  lemma TimesAdds(c: real, a: real, b: real)
    ensures Times(c, a + b) == Times(c, a) + Times(c, b) && Times(c, 0.0) == 0.0
  {
  }

  lemma {:induction false} SumScales(d: seq<Obs>, f: Obs -> real, c: real, g: Obs -> real)
    requires forall o: Obs :: g(o) == Times(c, f(o))
    ensures Sum(d, g) == Times(c, Sum(d, f))
  {
    if d == [] {
      TimesAdds(c, 0.0, 0.0);
    } else {
      SumScales(d[1..], f, c, g);
      TimesAdds(c, f(d[0]), Sum(d[1..], f));
    }
  }

  /** What sizes from one on and times up to the longest leave of the moments. */
  predicate MomentsWithin(m: Moments, longest: real) {
    m.w >= 0.0 && 0.0 <= m.y <= Times(longest, m.w) && m.w <= m.x <= m.xx && 0.0 <= m.xy <= Times(longest, m.x)
  }

  predicate InRange(o: Obs, longest: real) { o.w >= 0.0 && o.x >= 1.0 && 0.0 <= o.y <= longest }

  lemma TermsInRange(o: Obs, longest: real)
    requires InRange(o, longest)
    ensures 0.0 <= o.w * o.y <= Times(longest, o.w) && o.w <= o.w * o.x <= o.w * o.x * o.x
    ensures 0.0 <= o.w * o.x * o.y <= Times(longest, o.w * o.x)
  {
    var wx := Product(o.w, o.x);
    Scale(o.w, 0.0, o.y);
    Scale(o.w, o.y, longest);
    Scale(o.w, 1.0, o.x);
    Scale(wx, 1.0, o.x);
    Scale(wx, 0.0, o.y);
    Scale(wx, o.y, longest);
  }

  lemma YWithin(d: seq<Obs>, longest: real)
    requires forall k :: 0 <= k < |d| ==> InRange(d[k], longest)
    ensures SumW(d) >= 0.0 && 0.0 <= SumY(d) <= Times(longest, SumW(d))
  {
    var w, y, wide := (o: Obs) => o.w, (o: Obs) => o.w * o.y, (o: Obs) => Times(longest, o.w);
    forall k | 0 <= k < |d| ensures 0.0 <= y(d[k]) <= wide(d[k]) { TermsInRange(d[k], longest); }
    SumNonNegative(d, w);
    SumNonNegative(d, y);
    SumGrows(d, y, wide);
    SumScales(d, w, longest, wide);
  }

  lemma XWithin(d: seq<Obs>, longest: real)
    requires forall k :: 0 <= k < |d| ==> InRange(d[k], longest)
    ensures SumW(d) <= SumX(d) <= SumXX(d)
  {
    var w, x, xx := (o: Obs) => o.w, (o: Obs) => o.w * o.x, (o: Obs) => o.w * o.x * o.x;
    forall k | 0 <= k < |d| ensures w(d[k]) <= x(d[k]) <= xx(d[k]) { TermsInRange(d[k], longest); }
    SumGrows(d, w, x);
    SumGrows(d, x, xx);
  }

  lemma XYWithin(d: seq<Obs>, longest: real)
    requires forall k :: 0 <= k < |d| ==> InRange(d[k], longest)
    ensures 0.0 <= SumXY(d) <= Times(longest, SumX(d))
  {
    var x, xy, wide := (o: Obs) => o.w * o.x, (o: Obs) => o.w * o.x * o.y, (o: Obs) => Times(longest, o.w * o.x);
    forall k | 0 <= k < |d| ensures 0.0 <= xy(d[k]) <= wide(d[k]) { TermsInRange(d[k], longest); }
    SumNonNegative(d, xy);
    SumGrows(d, xy, wide);
    SumScales(d, x, longest, wide);
  }

  lemma MomentsAreWithin(d: seq<Obs>, longest: real)
    requires forall k :: 0 <= k < |d| ==> InRange(d[k], longest)
    ensures MomentsWithin(MomentsOf(d), longest)
  {
    YWithin(d, longest);
    XWithin(d, longest);
    XYWithin(d, longest);
  }

  lemma QuotientWithin(a: real, b: real, most: real)
    requires b > 0.0 && 0.0 <= a <= Times(most, b)
    ensures 0.0 <= a / b <= most
  {
    var q := a / b;
    assert q * b == a;
    if q < 0.0 { var p := Product(-q, b); }
    if q > most { var p := Product(q - most, b); }
  }

  /** A line of non-negative terms through a point at or right of one, no higher than `longest`, is modest. */
  lemma ModestThrough(l: Line, mx: real, my: real, longest: real)
    requires NonNegative(l) && mx >= 1.0 && my <= longest && l.intercept == my - l.slope * mx
    ensures Modest(l, longest)
  {
    Scale(l.slope, 1.0, mx);
  }

  lemma MeanPastOne(w: real, x: real, mx: real)
    requires w > 0.0 && x >= w && mx == x / w
    ensures mx >= 1.0
  {
    assert mx * w == x;
    if mx < 1.0 { var p := Product(1.0 - mx, w); }
  }

  lemma OriginIsModest(d: seq<Obs>, longest: real)
    requires SumXX(d) > GUARD && MomentsWithin(MomentsOf(d), longest) && longest >= 0.0
    ensures Modest(ThroughOrigin(d), longest)
  {
    Scale(longest, SumX(d), SumXX(d));
    QuotientWithin(SumXY(d), SumXX(d), longest);
  }

  lemma FreeIsModest(d: seq<Obs>, longest: real)
    requires SumW(d) >= GUARD && MomentsWithin(MomentsOf(d), longest) && MeanY(d) <= longest
    requires Variance(d, MeanX(d)) > 0.0 && NonNegative(FreeLine(d))
    ensures Modest(FreeLine(d), longest)
  {
    MeanPastOne(SumW(d), SumX(d), MeanX(d));
    ModestThrough(FreeLine(d), MeanX(d), MeanY(d), longest);
  }

  /** Whatever the weights, the solved line is modest. */
  lemma SolveIsModest(d: seq<Obs>, longest: real)
    requires SumW(d) >= GUARD && longest >= 0.0 && forall k :: 0 <= k < |d| ==> InRange(d[k], longest)
    ensures Modest(Solve(d), longest)
  {
    MomentsAreWithin(d, longest);
    QuotientWithin(SumY(d), SumW(d), longest);
    if SumXX(d) > GUARD { OriginIsModest(d, longest); }
    if Variance(d, MeanX(d)) > GUARD && NonNegative(FreeLine(d)) { FreeIsModest(d, longest); }
    assert Solve(d) in Candidates(d);
  }

  // ---------------------------------------------------------------- every round is well posed

  lemma RoundIsModest(xs: seq<real>, ys: seq<real>, largest: real, longest: real, l: Line)
    requires Legal(xs, ys, largest, longest) && 0 < |xs| <= 8 && longest >= 0.0
    ensures Modest(Reweigh(xs, ys)(l), longest)
  {
    var d := Weighted(xs, ys, l);
    forall k | 0 <= k < |d| ensures InRange(d[k], longest) { WeightsArePositive(xs, ys, l, k); }
    EightSamplesWeighEnough(xs, ys, l);
    SolveIsModest(d, longest);
  }

  lemma EveryLineIsModest(xs: seq<real>, ys: seq<real>, largest: real, longest: real, k: nat)
    requires Legal(xs, ys, largest, longest) && 0 < |xs| <= 8 && longest >= 0.0 && Varied(xs)
    ensures Modest(Nth(Reweigh(xs, ys), Seed(xs, ys), k), longest)
  {
    if k == 0 {
      SeedIsModest(xs, ys, largest, longest);
    } else {
      RoundIsModest(xs, ys, largest, longest, Nth(Reweigh(xs, ys), Seed(xs, ys), k - 1));
    }
  }

  lemma ResidualWithin(l: Line, x: real, y: real, largest: real, longest: real)
    requires Modest(l, longest) && 1.0 <= x <= largest && 0.0 <= y <= longest
    ensures longest - Times(longest, largest + 2.0) <= y - l.intercept - l.slope * x <= longest
  {
    var p := Product(l.slope, x);
    Scale(l.slope, x, largest);
    Scale(largest, l.slope, longest);
    TimesAdds(longest, largest, 2.0);
    assert Times(longest, largest) == largest * longest && Times(longest, 2.0) == longest + longest;
    assert p <= Times(longest, largest);
  }

  lemma ResidualsWithin(xs: seq<real>, ys: seq<real>, largest: real, longest: real, l: Line)
    requires Legal(xs, ys, largest, longest) && Modest(l, longest)
    ensures NoneAbove(Residuals(xs, ys, l), longest)
    ensures NoneBelow(Residuals(xs, ys, l), longest - Times(longest, largest + 2.0))
  {
    var residuals := Residuals(xs, ys, l);
    forall k | 0 <= k < |residuals|
      ensures longest - Times(longest, largest + 2.0) <= residuals[k] <= longest
    {
      ResidualWithin(l, xs[k], ys[k], largest, longest);
    }
  }

  /** How long a longest time, and how large a largest size, keep every sample near. */
  predicate ShortEnough(largest: real, longest: real) { Times(longest, largest + 2.0) <= 238500.0 }

  /** Every sample lies near a modest line. */
  lemma ModestIsNear(xs: seq<real>, ys: seq<real>, largest: real, longest: real, l: Line, i: nat)
    requires Legal(xs, ys, largest, longest) && ShortEnough(largest, longest) && Modest(l, longest) && i < |xs|
    ensures Near(xs, ys, l, i)
  {
    var residuals := Residuals(xs, ys, l);
    ResidualsWithin(xs, ys, largest, longest, l);
    MedianAtLeast(residuals, longest - Times(longest, largest + 2.0));
    MedianAtMost(residuals, longest);
    FourMinutesAreNear(xs, ys, l, i);
  }

  lemma ModestIsWellPosed(counts: seq<int>, ys: seq<real>, largest: int, longest: real, l: Line)
    requires Samples(counts, ys, largest, longest) && ShortEnough(largest as real, longest) && Modest(l, longest)
    ensures |counts| > 0 && WellPosed(Weighted(Reals(counts), ys, l))
  {
    var i, j :| 0 <= i < j < |counts| && counts[i] != counts[j];
    SamplesAreLegal(counts, ys, largest, longest);
    ModestIsNear(Reals(counts), ys, largest as real, longest, l, i);
    ModestIsNear(Reals(counts), ys, largest as real, longest, l, j);
    NearSamplesAreWellPosed(counts, ys, l, i, j);
  }

  /** No guard bites in any round of the fit. */
  ghost predicate EveryRoundIsWellPosed(xs: seq<real>, ys: seq<real>)
    requires |xs| == |ys| > 0 && Varied(xs)
  {
    forall n: nat :: WellPosed(Weighted(xs, ys, Nth(Reweigh(xs, ys), Seed(xs, ys), n)))
  }

  /** With at most eight samples of whole sizes up to `largest`, none longer than `longest` milliseconds, and
      `longest * (largest + 2)` at most 238500, no guard bites in any round, and no admissible line has a smaller
      residual than the fit under the weights of its last round. */
  lemma ModestSamplesFitOptimally(counts: seq<int>, ys: seq<real>, largest: int, longest: real)
    returns (k: nat, from: Line)
    requires Samples(counts, ys, largest, longest) && ShortEnough(largest as real, longest)
    ensures var xs := Reals(counts);
            && xs != [] && Varied(xs) && EveryRoundIsWellPosed(xs, ys) && Fit(xs, ys).Some?
            && EntersLastRound(Reweigh(xs, ys), Seed(xs, ys), 12, k, from)
            && Fit(xs, ys).value == Solve(Weighted(xs, ys, from))
            && IsOptimal(Weighted(xs, ys, from), Fit(xs, ys).value)
  {
    var xs := Reals(counts);
    SamplesAreLegal(counts, ys, largest, longest);
    SamplesVary(counts, ys, largest, longest);
    forall n: nat ensures WellPosed(Weighted(xs, ys, Nth(Reweigh(xs, ys), Seed(xs, ys), n))) {
      EveryLineIsModest(xs, ys, largest as real, longest, n);
      ModestIsWellPosed(counts, ys, largest, longest, Nth(Reweigh(xs, ys), Seed(xs, ys), n));
    }
    var d;
    k, from, d := FitIsOptimal(xs, ys);
  }
}
