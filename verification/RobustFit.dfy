/** The robust fixed-plus-item cost fit: a repeated-median seed followed by at most twelve rounds of
    recency-weighted Cauchy reweighting, each ending in the non-negative solve of `WeightedLine`. */
module RobustFit {
  import opened Prelude
  import opened RealFacts
  import opened WeightedLine

  /** The most reweighting rounds one fit runs. */
  const ROUNDS: nat := 12

  // ---------------------------------------------------------------- the statistics used

  function Insert(v: real, s: seq<real>): seq<real> {
    if s == [] || v <= s[0] then [v] + s else [s[0]] + Insert(v, s[1..])
  }

  function Sort(s: seq<real>): seq<real> { if s == [] then [] else Insert(s[0], Sort(s[1..])) }

  predicate Ascending(s: seq<real>) { forall i, j :: 0 <= i < j < |s| ==> s[i] <= s[j] }

  lemma {:induction false} InsertCounts(v: real, s: seq<real>)
    ensures multiset(Insert(v, s)) == multiset{v} + multiset(s)
  {
    if s != [] && v > s[0] {
      InsertCounts(v, s[1..]);
      assert s == [s[0]] + s[1..];
    }
  }

  lemma {:induction false} InsertMembers(v: real, s: seq<real>, k: nat)
    requires k < |Insert(v, s)|
    ensures Insert(v, s)[k] == v || exists j :: 0 <= j < |s| && s[j] == Insert(v, s)[k]
  {
    if s != [] && v > s[0] && k > 0 {
      InsertMembers(v, s[1..], k - 1);
      if j :| 0 <= j < |s[1..]| && s[1..][j] == Insert(v, s[1..])[k - 1] { assert s[j + 1] == Insert(v, s)[k]; }
    } else if s != [] && !(v > s[0]) && k > 0 {
      assert s[k - 1] == Insert(v, s)[k];
    } else if s != [] && v > s[0] {
      assert s[0] == Insert(v, s)[k];
    }
  }

  lemma {:induction false} InsertKeepsOrder(v: real, s: seq<real>)
    requires Ascending(s)
    ensures Ascending(Insert(v, s))
  {
    if s != [] && v > s[0] {
      InsertKeepsOrder(v, s[1..]);
      var t := Insert(v, s[1..]);
      forall k | 0 <= k < |t| ensures s[0] <= t[k] { InsertMembers(v, s[1..], k); }
    }
  }

  lemma {:induction false} SortSorts(s: seq<real>)
    ensures Ascending(Sort(s)) && multiset(Sort(s)) == multiset(s) && |Sort(s)| == |s|
  {
    if s != [] {
      SortSorts(s[1..]);
      InsertKeepsOrder(s[0], Sort(s[1..]));
      InsertCounts(s[0], Sort(s[1..]));
      assert s == [s[0]] + s[1..];
    }
    assert |multiset(Sort(s))| == |multiset(s)|;
  }

  /** `statistics.median`. */
  function Median(s: seq<real>): real
    requires s != []
  {
    SortSorts(s);
    var t, h := Sort(s), |s| / 2;
    if |s| % 2 == 1 then t[h] else (t[h - 1] + t[h]) / 2.0
  }

  /** The median of values that all agree is that value. */
  lemma MedianOfConstant(s: seq<real>, c: real)
    requires s != [] && forall k :: 0 <= k < |s| ==> s[k] == c
    ensures Median(s) == c
  {
    SortSorts(s);
    var t := Sort(s);
    forall k | 0 <= k < |t| ensures t[k] == c {
      assert t[k] in multiset(t);
      assert t[k] in multiset(s);
    }
  }

  function Power(base: real, n: nat): real { if n == 0 then 1.0 else base * Power(base, n - 1) }

  /** How much the observation at `i` of `n` still counts. */
  function Recency(n: nat, i: nat): real
    requires i < n
  {
    Power(0.72, n - i - 1)
  }

  lemma {:induction false} PowerBounds(n: nat)
    ensures 0.0 < Power(0.72, n) <= 1.0
    ensures n <= 7 ==> Power(0.72, n) >= 0.1
  {
    if n > 0 { PowerBounds(n - 1); }
    if n <= 7 {
      assert Power(0.72, 1) == 0.72 && Power(0.72, 2) == 0.5184 && Power(0.72, 3) == 0.373248;
      assert Power(0.72, 4) == 0.26873856 && Power(0.72, 5) == 0.1934917632;
      assert Power(0.72, 6) == 0.139314069504 && Power(0.72, 7) >= 0.1003;
    }
  }

  function Abs(v: real): real { if v < 0.0 then -v else v }

  // ---------------------------------------------------------------- the fit

  predicate Varied(xs: seq<real>) { exists k :: 0 <= k < |xs| && xs[k] != xs[0] }

  function Slope(x: real, y: real, x': real, y': real): real
    requires x != x'
  {
    (y' - y) / (x' - x)
  }

  /** Slopes from observation `i` to every observation from `j` on with another abscissa. */
  function SlopesFrom(xs: seq<real>, ys: seq<real>, i: nat, j: nat): seq<real>
    requires |xs| == |ys| && i < |xs| && j <= |xs|
    decreases |xs| - j
  {
    if j == |xs| then []
    else (if xs[j] != xs[i] then [Slope(xs[i], ys[i], xs[j], ys[j])] else []) + SlopesFrom(xs, ys, i, j + 1)
  }

  /** The median slope through each of the first `n` observations that has one. */
  function PointSlopes(xs: seq<real>, ys: seq<real>, n: nat): seq<real>
    requires |xs| == |ys| && n <= |xs|
  {
    if n == 0 then []
    else
      var slopes := SlopesFrom(xs, ys, n - 1, 0);
      PointSlopes(xs, ys, n - 1) + (if slopes == [] then [] else [Median(slopes)])
  }

  lemma {:induction false} SlopesExist(xs: seq<real>, ys: seq<real>, i: nat, j: nat, k: nat)
    requires |xs| == |ys| && i < |xs| && j <= k < |xs| && xs[k] != xs[i]
    ensures SlopesFrom(xs, ys, i, j) != []
    decreases k - j
  {
    if j < k { SlopesExist(xs, ys, i, j + 1, k); }
  }

  lemma {:induction false} PointSlopesExist(xs: seq<real>, ys: seq<real>, n: nat)
    requires |xs| == |ys| && Varied(xs) && 0 < n <= |xs|
    ensures PointSlopes(xs, ys, n) != []
  {
    if n == 1 {
      var k :| 0 <= k < |xs| && xs[k] != xs[0];
      SlopesExist(xs, ys, 0, 0, k);
    } else {
      PointSlopesExist(xs, ys, n - 1);
    }
  }

  /** Where a line of this slope through each observation starts. */
  function Heights(xs: seq<real>, ys: seq<real>, slope: real): (r: seq<real>)
    requires |xs| == |ys|
    ensures |r| == |xs|
  {
    seq(|xs|, i requires 0 <= i < |xs| => ys[i] - slope * xs[i])
  }

  function Seed(xs: seq<real>, ys: seq<real>): Line
    requires |xs| == |ys| && Varied(xs)
  {
    PointSlopesExist(xs, ys, |xs|);
    var slope := RMax(0.0, Median(PointSlopes(xs, ys, |xs|)));
    Line(RMax(0.0, Median(Heights(xs, ys, slope))), slope)
  }

  function Residuals(xs: seq<real>, ys: seq<real>, l: Line): seq<real>
    requires |xs| == |ys|
  {
    seq(|xs|, i requires 0 <= i < |xs| => ys[i] - l.intercept - l.slope * xs[i])
  }

  /** Width of the Cauchy weight: proportional to the spread of the residuals, never below a floor. */
  function CauchyWidth(residuals: seq<real>): real
    requires residuals != []
  {
    var centre := Median(residuals);
    var deviations := seq(|residuals|, i requires 0 <= i < |residuals| => Abs(residuals[i] - centre));
    2.385 * RMax(0.5, 1.4826 * Median(deviations))
  }

  function Influence(residual: real, centre: real, width: real): real
    requires width > 0.0
  {
    var z := (residual - centre) / width;
    1.0 / (1.0 + z * z)
  }

  /** The observations as one round weighs them. */
  function Weighted(xs: seq<real>, ys: seq<real>, l: Line): seq<Obs>
    requires |xs| == |ys| > 0
  {
    var residuals := Residuals(xs, ys, l);
    var centre, width := Median(residuals), CauchyWidth(residuals);
    seq(|xs|, i requires 0 <= i < |xs| =>
      Obs(Recency(|xs|, i) * Influence(residuals[i], centre, width), xs[i], ys[i]))
  }

  predicate Settled(a: Line, b: Line) {
    RMax(Abs(a.intercept - b.intercept), Abs(a.slope - b.slope)) <= 0.000001
  }

  /** At most `n` rounds of `step`, stopping once the line no longer moves. */
  function Rounds(step: Line -> Line, l: Line, n: nat): Line
    decreases n
  {
    if n == 0 then l
    else
      var updated := step(l);
      if Settled(updated, l) then updated else Rounds(step, updated, n - 1)
  }

  /** One reweighting round over the given observations. */
  function Reweigh(xs: seq<real>, ys: seq<real>): Line -> Line {
    (l: Line) => if |xs| == |ys| > 0 then Solve(Weighted(xs, ys, l)) else l
  }

  function Fit(xs: seq<real>, ys: seq<real>): Option<Line> {
    if |xs| != |ys| || xs == [] || !Varied(xs) then None else Some(Rounds(Reweigh(xs, ys), Seed(xs, ys), ROUNDS))
  }

  /** The repeated-median seed, one observation at a time. */
  method SeedLine(xs: seq<real>, ys: seq<real>) returns (r: Line)
    requires |xs| == |ys| && Varied(xs)
    ensures r == Seed(xs, ys)
  {
    var pointSlopes := [];
    for index := 0 to |xs|
      invariant pointSlopes == PointSlopes(xs, ys, index)
    {
      var slopes := SlopesFrom(xs, ys, index, 0);
      if slopes != [] { pointSlopes := pointSlopes + [Median(slopes)]; }
    }
    PointSlopesExist(xs, ys, |xs|);
    var slope := RMax(0.0, Median(pointSlopes));
    r := Line(RMax(0.0, Median(Heights(xs, ys, slope))), slope);
  }

  /** The reweighting loop. */
  method Iterate(step: Line -> Line, seed: Line, rounds: nat) returns (estimate: Line)
    ensures estimate == Rounds(step, seed, rounds)
  {
    estimate := seed;
    var left := rounds;
    while left > 0
      invariant 0 <= left <= rounds && Rounds(step, estimate, left) == Rounds(step, seed, rounds)
    {
      var updated := step(estimate);
      if Settled(updated, estimate) { return updated; }
      estimate, left := updated, left - 1;
    }
  }

  /** The fit as the program runs it. */
  method RobustLinearFit(xs: seq<real>, ys: seq<real>) returns (r: Option<Line>)
    ensures r == Fit(xs, ys)
  {
    if |xs| != |ys| || xs == [] || !Varied(xs) { return None; }
    var seed := SeedLine(xs, ys);
    var estimate := Iterate(Reweigh(xs, ys), seed, ROUNDS);
    r := Some(estimate);
  }

  // ---------------------------------------------------------------- what the fit guarantees

  /** Every weight stays positive, so no observation is ever dropped, and none outweighs its recency. */
  lemma WeightsArePositive(xs: seq<real>, ys: seq<real>, l: Line, i: nat)
    requires |xs| == |ys| && i < |xs|
    ensures 0.0 < Weighted(xs, ys, l)[i].w <= Recency(|xs|, i)
  {
    var residuals := Residuals(xs, ys, l);
    var k := Influence(residuals[i], Median(residuals), CauchyWidth(residuals));
    var w := Recency(|xs|, i);
    PowerBounds(|xs| - i - 1);
    var p := Product(w, k);
    Scale(w, k, 1.0);
  }

  /** The line after `k` rounds that never stop early. */
  function Nth(step: Line -> Line, seed: Line, k: nat): Line { if k == 0 then seed else step(Nth(step, seed, k - 1)) }

  lemma {:induction false} NthOfNext(step: Line -> Line, seed: Line, k: nat)
    ensures Nth(step, step(seed), k) == Nth(step, seed, k + 1)
  {
    if k > 0 { NthOfNext(step, seed, k - 1); }
  }

  /** Both terms are where they were, to a millionth either way. */
  predicate Rests(from: Line, to: Line) {
    && from.intercept - 0.000001 <= to.intercept <= from.intercept + 0.000001
    && from.slope - 0.000001 <= to.slope <= from.slope + 0.000001
  }

  /** `from` enters the last round: in each of the `k` rounds before it a term moved by more than a millionth, and
      its own round is the last one allowed or moves neither. */
  ghost predicate EntersLastRound(step: Line -> Line, seed: Line, rounds: nat, k: nat, from: Line) {
    && k < rounds && from == Nth(step, seed, k) && (k == rounds - 1 || Rests(from, step(from)))
    && forall j: nat :: j < k ==> !Rests(Nth(step, seed, j), step(Nth(step, seed, j)))
  }

  lemma EntersLastRoundLater(step: Line -> Line, seed: Line, rounds: nat, k: nat, from: Line)
    requires !Rests(seed, step(seed)) && EntersLastRound(step, step(seed), rounds, k, from)
    ensures EntersLastRound(step, seed, rounds + 1, k + 1, from)
  {
    NthOfNext(step, seed, k);
    forall j: nat | j < k + 1 ensures !Rests(Nth(step, seed, j), step(Nth(step, seed, j))) {
      if j > 0 { NthOfNext(step, seed, j - 1); }
    }
  }

  /** The rounds end in the solve of the line that enters the last one. */
  lemma {:induction false} RoundsEndInAStep(step: Line -> Line, l: Line, n: nat) returns (k: nat, from: Line)
    requires n > 0
    ensures EntersLastRound(step, l, n, k, from) && Rounds(step, l, n) == step(from)
    decreases n
  {
    var updated := step(l);
    if Settled(updated, l) || n == 1 {
      k, from := 0, l;
    } else {
      var later;
      later, from := RoundsEndInAStep(step, updated, n - 1);
      EntersLastRoundLater(step, l, n - 1, later, from);
      k := later + 1;
    }
  }

  /** A fit exists exactly when the samples show two different cohort sizes. It is the solve of its last round's
      weights, the twelfth round or the first that moves neither term by more than a millionth. With the eight
      samples a group retains at most, their sum clears its guard, and then no admissible line has a smaller residual
      under those weights if and only if the remaining guards are harmless. */
  lemma FitIsOptimal(xs: seq<real>, ys: seq<real>) returns (k: nat, from: Line, d: seq<Obs>)
    ensures Fit(xs, ys).Some? <==> |xs| == |ys| && exists i, j :: 0 <= i < j < |xs| && xs[i] != xs[j]
    ensures Fit(xs, ys).Some? ==>
              && xs != [] && |xs| == |ys| && Varied(xs)
              && EntersLastRound(Reweigh(xs, ys), Seed(xs, ys), 12, k, from)
              && d == Weighted(xs, ys, from) && Fit(xs, ys).value == Solve(d) && NonNegative(Solve(d))
              && (|xs| <= 8 ==> SumW(d) >= GUARD)
              && (SumW(d) >= GUARD ==> (IsOptimal(d, Solve(d)) <==> GuardsAreHarmless(d)))
  {
    k, from, d := 0, Line(0.0, 0.0), [];
    if Fit(xs, ys).Some? {
      var i :| 0 <= i < |xs| && xs[i] != xs[0];
      assert 0 < i && xs[0] != xs[i];
      k, from := RoundsEndInAStep(Reweigh(xs, ys), Seed(xs, ys), ROUNDS);
      d := Weighted(xs, ys, from);
      forall j | 0 <= j < |d| ensures d[j].w >= 0.0 { WeightsArePositive(xs, ys, from, j); }
      if |xs| <= 8 { EightSamplesWeighEnough(xs, ys, from); }
      if SumW(d) >= GUARD { SolveIsOptimalExactlyIf(d); }
    }
  }

  // ---------------------------------------------------------------- how light a weight can get

  /** Some value is at most the median. */
  lemma SomeAtMostMedian(s: seq<real>) returns (i: nat)
    requires s != []
    ensures i < |s| && s[i] <= Median(s)
  {
    SortSorts(s);
    var t, h := Sort(s), |s| / 2;
    assert t[0] <= t[h] && (h > 0 ==> t[0] <= t[h - 1]);
    assert t[0] in multiset(t) && t[0] in multiset(s);
    i :| 0 <= i < |s| && s[i] == t[0];
  }

  /** A residual within `k` widths of the centre keeps at least `1 / (1 + k * k)` of its weight. */
  lemma InfluenceWithin(residual: real, centre: real, width: real, k: real, kk: real)
    requires width > 0.0 && k >= 0.0 && kk == k * k && Abs(residual - centre) <= k * width
    ensures Influence(residual, centre, width) >= 1.0 / (1.0 + kk)
  {
    var z := (residual - centre) / width;
    assert z * width == residual - centre;
    if z > k { var p := Product(z - k, width); }
    if z < -k { var p := Product(-k - z, width); }
    var below := Product(k - z, k + z);
    var zz := Square(z);
    assert below == kk - zz;
    Reciprocal(1.0 + zz, 1.0 + kk);
  }

  lemma Reciprocal(a: real, b: real)
    requires 0.0 < a <= b
    ensures 1.0 / a >= 1.0 / b
  {
    var x, y := 1.0 / a, 1.0 / b;
    assert x * a == 1.0 && y * b == 1.0;
    if x < y {
      if y > 0.0 { Scale(y, a, b); }
      var p := Product(y - x, a);
    }
  }

  /** Some residual lies within a third of a width of the centre. */
  lemma SomeResidualIsCentral(residuals: seq<real>) returns (i: nat)
    requires residuals != []
    ensures i < |residuals| && Abs(residuals[i] - Median(residuals)) <= (1.0 / 3.0) * CauchyWidth(residuals)
  {
    var centre := Median(residuals);
    var deviations := seq(|residuals|, j requires 0 <= j < |residuals| => Abs(residuals[j] - centre));
    i := SomeAtMostMedian(deviations);
    assert deviations[i] == Abs(residuals[i] - centre);
  }

  lemma KeepsWeight(xs: seq<real>, ys: seq<real>, l: Line, i: nat, influence: real)
    requires |xs| == |ys| && i < |xs| && influence >= 0.0
    requires var rs := Residuals(xs, ys, l); Influence(rs[i], Median(rs), CauchyWidth(rs)) >= influence
    ensures Weighted(xs, ys, l)[i].w >= influence * Recency(|xs|, i)
    ensures |xs| <= 8 ==> Weighted(xs, ys, l)[i].w >= 0.1 * influence
  {
    var rs := Residuals(xs, ys, l);
    PowerBounds(|xs| - i - 1);
    WeightKept(Recency(|xs|, i), Influence(rs[i], Median(rs), CauchyWidth(rs)), influence, Weighted(xs, ys, l)[i].w);
  }

  lemma WeightKept(recency: real, kept: real, influence: real, weight: real)
    requires weight == recency * kept && kept >= influence >= 0.0 && recency > 0.0
    ensures weight >= influence * recency && (recency >= 0.1 ==> weight >= 0.1 * influence)
  {
    Scale(recency, influence, kept);
    if recency >= 0.1 { Scale(influence, 0.1, recency); }
  }

  /** In every round some sample keeps nine tenths of its recency. */
  lemma SomeWeightIsHeavy(xs: seq<real>, ys: seq<real>, l: Line) returns (i: nat)
    requires |xs| == |ys| > 0
    ensures i < |xs| && Weighted(xs, ys, l)[i].w >= 0.9 * Recency(|xs|, i)
  {
    var residuals := Residuals(xs, ys, l);
    var centre, width := Median(residuals), CauchyWidth(residuals);
    i := SomeResidualIsCentral(residuals);
    InfluenceWithin(residuals[i], centre, width, 1.0 / 3.0, 1.0 / 9.0);
    KeepsWeight(xs, ys, l, i, 0.9);
  }

  lemma EightSamplesWeighEnough(xs: seq<real>, ys: seq<real>, l: Line)
    requires 0 < |xs| == |ys| <= 8
    ensures SumW(Weighted(xs, ys, l)) >= GUARD
  {
    var d := Weighted(xs, ys, l);
    var i := SomeWeightIsHeavy(xs, ys, l);
    PowerBounds(|xs| - i - 1);
    forall k | 0 <= k < |d| ensures d[k].w >= 0.0 { WeightsArePositive(xs, ys, l, k); }
    SumAtLeastOne(d, (o: Obs) => o.w, i);
  }

  // ---------------------------------------------------------------- the seed resists a minority

  lemma {:induction false} OccursAtMost(s: seq<real>, c: real)
    ensures multiset(s)[c] <= |s|
    ensures c !in s ==> multiset(s)[c] == 0
  {
    if s != [] {
      OccursAtMost(s[1..], c);
      assert s == [s[0]] + s[1..];
    }
  }

  /** A stretch that holds no `c` leaves it only the places outside. */
  lemma OccursOutside(s: seq<real>, a: nat, b: nat, c: real)
    requires a <= b <= |s| && c !in s[a..b]
    ensures multiset(s)[c] <= |s| - (b - a)
  {
    assert s == s[..a] + s[a..b] + s[b..];
    OccursAtMost(s[..a], c);
    OccursAtMost(s[a..b], c);
    OccursAtMost(s[b..], c);
  }

  /** In an ascending sequence a value that takes more than half of the places takes the middle ones. */
  lemma MajorityTakesTheMiddle(t: seq<real>, c: real, k: nat)
    requires Ascending(t) && 2 * multiset(t)[c] > |t| && k < |t| && |t| - 1 <= 2 * k + 1 && 2 * k <= |t|
    ensures t[k] == c
  {
    if t[k] < c {
      assert forall j :: 0 <= j <= k ==> t[j] <= t[k];
      OccursOutside(t, 0, k + 1, c);
    } else if t[k] > c {
      assert forall j :: k <= j < |t| ==> t[k] <= t[j];
      OccursOutside(t, k, |t|, c);
    }
  }

  lemma MedianOfMajority(s: seq<real>, c: real)
    requires 2 * multiset(s)[c] > |s|
    ensures s != [] && Median(s) == c
  {
    OccursAtMost(s, c);
    SortSorts(s);
    var t, h := Sort(s), |s| / 2;
    MajorityTakesTheMiddle(t, c, h);
    if |s| % 2 == 0 { MajorityTakesTheMiddle(t, c, h - 1); }
  }

  function HeightAt(l: Line, x: real): real { l.intercept + l.slope * x }

  predicate On(xs: seq<real>, ys: seq<real>, l: Line, i: nat)
    requires i < |xs| == |ys|
  {
    ys[i] == HeightAt(l, xs[i])
  }

  /** How many of the first `n` samples lie on the line. */
  function OnCount(xs: seq<real>, ys: seq<real>, l: Line, n: nat): nat
    requires n <= |xs| == |ys|
  {
    if n == 0 then 0 else OnCount(xs, ys, l, n - 1) + (if On(xs, ys, l, n - 1) then 1 else 0)
  }

  /** How many samples from `j` on differ from sample `i` in size, and how many of those lie on the line. */
  function Partners(xs: seq<real>, ys: seq<real>, l: Line, i: nat, j: nat): (nat, nat)
    requires i < |xs| == |ys| && j <= |xs|
    decreases |xs| - j
  {
    if j == |xs| then (0, 0)
    else
      var (all, on) := Partners(xs, ys, l, i, j + 1);
      if xs[j] == xs[i] then (all, on) else (all + 1, if On(xs, ys, l, j) then on + 1 else on)
  }

  lemma SlopeThroughTwo(x: real, x': real, l: Line)
    requires x != x'
    ensures Slope(x, HeightAt(l, x), x', HeightAt(l, x')) == l.slope
  {
    assert HeightAt(l, x') - HeightAt(l, x) == l.slope * (x' - x);
  }

  lemma OneMore(s: seq<real>, v: real, c: real)
    ensures multiset([v] + s)[c] == multiset(s)[c] + (if v == c then 1 else 0)
    ensures multiset(s + [v])[c] == multiset(s)[c] + (if v == c then 1 else 0)
  {
  }

  lemma NextSlope(xs: seq<real>, ys: seq<real>, l: Line, i: nat, j: nat)
    requires i < |xs| == |ys| && j < |xs| && xs[j] != xs[i]
    ensures var rest, slopes := SlopesFrom(xs, ys, i, j + 1), SlopesFrom(xs, ys, i, j);
            && |slopes| == |rest| + 1 && multiset(slopes)[l.slope] >= multiset(rest)[l.slope]
            && (On(xs, ys, l, i) && On(xs, ys, l, j) ==> multiset(slopes)[l.slope] == multiset(rest)[l.slope] + 1)
  {
    var slope := Slope(xs[i], ys[i], xs[j], ys[j]);
    OneMore(SlopesFrom(xs, ys, i, j + 1), slope, l.slope);
    if On(xs, ys, l, i) && On(xs, ys, l, j) { SlopeThroughTwo(xs[i], xs[j], l); }
  }

  lemma {:induction false} SlopesToPartners(xs: seq<real>, ys: seq<real>, l: Line, i: nat, j: nat)
    requires i < |xs| == |ys| && j <= |xs|
    ensures var slopes := SlopesFrom(xs, ys, i, j);
            && |slopes| == Partners(xs, ys, l, i, j).0
            && (On(xs, ys, l, i) ==> multiset(slopes)[l.slope] >= Partners(xs, ys, l, i, j).1)
    decreases |xs| - j
  {
    if j < |xs| {
      SlopesToPartners(xs, ys, l, i, j + 1);
      if xs[j] != xs[i] { NextSlope(xs, ys, l, i, j); }
    }
  }

  /** Most samples lie on the line, and seen from each of them so do most of those that differ from it in size. */
  ghost predicate MostlyOn(xs: seq<real>, ys: seq<real>, l: Line) {
    && |xs| == |ys| && 2 * OnCount(xs, ys, l, |xs|) > |xs|
    && forall i :: 0 <= i < |xs| && On(xs, ys, l, i) ==>
         2 * Partners(xs, ys, l, i, 0).1 > Partners(xs, ys, l, i, 0).0
  }

  /** Seen from sample `i` the median slope is that of the line. */
  predicate PointsAlong(xs: seq<real>, ys: seq<real>, l: Line, i: nat)
    requires i < |xs| == |ys|
  {
    SlopesFrom(xs, ys, i, 0) != [] && Median(SlopesFrom(xs, ys, i, 0)) == l.slope
  }

  lemma SlopeFromThere(xs: seq<real>, ys: seq<real>, l: Line, i: nat)
    requires MostlyOn(xs, ys, l) && i < |xs| && On(xs, ys, l, i)
    ensures PointsAlong(xs, ys, l, i)
  {
    SlopesToPartners(xs, ys, l, i, 0);
    MedianOfMajority(SlopesFrom(xs, ys, i, 0), l.slope);
  }

  lemma NextPointSlope(xs: seq<real>, ys: seq<real>, l: Line, n: nat)
    requires 0 < n <= |xs| == |ys| && (On(xs, ys, l, n - 1) ==> PointsAlong(xs, ys, l, n - 1))
    ensures var before, now := PointSlopes(xs, ys, n - 1), PointSlopes(xs, ys, n);
            && |now| <= |before| + 1 && multiset(now)[l.slope] >= multiset(before)[l.slope]
            && (On(xs, ys, l, n - 1) ==> multiset(now)[l.slope] == multiset(before)[l.slope] + 1)
  {
    var before, slopes := PointSlopes(xs, ys, n - 1), SlopesFrom(xs, ys, n - 1, 0);
    if slopes != [] { OneMore(before, Median(slopes), l.slope); }
  }

  ghost predicate AllPointAlong(xs: seq<real>, ys: seq<real>, l: Line)
    requires |xs| == |ys|
  {
    forall i {:trigger PointsAlong(xs, ys, l, i)} :: 0 <= i < |xs| && On(xs, ys, l, i) ==> PointsAlong(xs, ys, l, i)
  }

  /** No more slopes than points so far, and as many of the line's as points on it. */
  ghost predicate Agreeing(xs: seq<real>, ys: seq<real>, l: Line, slopes: seq<real>, n: nat)
    requires n <= |xs| == |ys|
  {
    |slopes| <= n && multiset(slopes)[l.slope] >= OnCount(xs, ys, l, n)
  }

  lemma MoreSlopesAgree(xs: seq<real>, ys: seq<real>, l: Line, n: nat)
    requires 0 < n <= |xs| == |ys| && AllPointAlong(xs, ys, l) && Agreeing(xs, ys, l, PointSlopes(xs, ys, n - 1), n - 1)
    ensures Agreeing(xs, ys, l, PointSlopes(xs, ys, n), n)
  {
    NextPointSlope(xs, ys, l, n);
  }

  lemma NoSlopesAgree(xs: seq<real>, ys: seq<real>, l: Line)
    requires |xs| == |ys|
    ensures Agreeing(xs, ys, l, PointSlopes(xs, ys, 0), 0)
  {
  }

  lemma {:induction false} PointSlopesMostlyAgree(xs: seq<real>, ys: seq<real>, l: Line, n: nat)
    requires n <= |xs| == |ys| && AllPointAlong(xs, ys, l)
    ensures Agreeing(xs, ys, l, PointSlopes(xs, ys, n), n)
  {
    if n == 0 {
      NoSlopesAgree(xs, ys, l);
    } else {
      PointSlopesMostlyAgree(xs, ys, l, n - 1);
      MoreSlopesAgree(xs, ys, l, n);
    }
  }

  lemma {:induction false} MostlyThatIntercept(xs: seq<real>, ys: seq<real>, l: Line, heights: seq<real>, n: nat)
    requires n <= |xs| == |ys| == |heights|
    requires forall i :: 0 <= i < |xs| && On(xs, ys, l, i) ==> heights[i] == l.intercept
    ensures multiset(heights[..n])[l.intercept] >= OnCount(xs, ys, l, n)
  {
    if n > 0 {
      MostlyThatIntercept(xs, ys, l, heights, n - 1);
      assert heights[..n] == heights[..n - 1] + [heights[n - 1]];
      OneMore(heights[..n - 1], heights[n - 1], l.intercept);
    }
  }

  lemma SlopeResists(xs: seq<real>, ys: seq<real>, l: Line)
    requires MostlyOn(xs, ys, l)
    ensures PointSlopes(xs, ys, |xs|) != [] && Median(PointSlopes(xs, ys, |xs|)) == l.slope
  {
    forall i | 0 <= i < |xs| && On(xs, ys, l, i) ensures PointsAlong(xs, ys, l, i) { SlopeFromThere(xs, ys, l, i); }
    PointSlopesMostlyAgree(xs, ys, l, |xs|);
    MedianOfMajority(PointSlopes(xs, ys, |xs|), l.slope);
  }

  lemma StartsAtIntercept(y: real, x: real, l: Line)
    requires y == HeightAt(l, x)
    ensures y - l.slope * x == l.intercept
  {
  }

  lemma HeightsAgree(xs: seq<real>, ys: seq<real>, l: Line)
    requires |xs| == |ys|
    ensures forall i :: 0 <= i < |xs| && On(xs, ys, l, i) ==> Heights(xs, ys, l.slope)[i] == l.intercept
  {
    forall i | 0 <= i < |xs| && On(xs, ys, l, i) ensures Heights(xs, ys, l.slope)[i] == l.intercept {
      StartsAtIntercept(ys[i], xs[i], l);
    }
  }

  lemma InterceptResists(xs: seq<real>, ys: seq<real>, l: Line, heights: seq<real>)
    requires |xs| == |ys| && 2 * OnCount(xs, ys, l, |xs|) > |xs| && heights == Heights(xs, ys, l.slope)
    ensures heights != [] && Median(heights) == l.intercept
  {
    HeightsAgree(xs, ys, l);
    MostlyThatIntercept(xs, ys, l, heights, |xs|);
    assert heights[..|xs|] == heights;
    MedianOfMajority(heights, l.intercept);
  }

  /** The seed resists stalled callbacks: while most samples lie on an admissible line it is that line, however far
      off the others are. */
  lemma SeedResists(xs: seq<real>, ys: seq<real>, l: Line)
    requires MostlyOn(xs, ys, l) && Varied(xs) && NonNegative(l)
    ensures Seed(xs, ys) == l
  {
    SlopeResists(xs, ys, l);
    InterceptResists(xs, ys, l, Heights(xs, ys, l.slope));
  }

  // ---------------------------------------------------------------- what a weight says

  /** The newest sample has recency one, every earlier one 0.72 of the next. */
  lemma RecencyFades(n: nat, i: nat)
    requires i < n
    ensures Recency(n, i) == if i == n - 1 then 1.0 else 0.72 * Recency(n, i + 1)
  {
  }

  /** The width is a little over three and a half times the median distance from the median residual, and never below
      the one that half a millisecond of scatter gives. */
  lemma WidthFollowsSpread(residuals: seq<real>, distances: seq<real>)
    requires residuals != [] && |distances| == |residuals|
    requires forall i :: 0 <= i < |residuals| ==> distances[i] == Abs(residuals[i] - Median(residuals))
    ensures var width, spread := CauchyWidth(residuals), Median(distances);
            width >= 1.1925 && width >= 3.536001 * spread && (width == 1.1925 || width == 3.536001 * spread)
  {
    assert distances == seq(|residuals|, i requires 0 <= i < |residuals| => Abs(residuals[i] - Median(residuals)));
  }

  lemma UnitSquares(z: real, square: real)
    requires square == z * z
    ensures square <= 1.0 <==> -1.0 <= z <= 1.0
    ensures square >= 1.0 <==> z <= -1.0 || z >= 1.0
  {
    var inside := Product(1.0 - z, 1.0 + z);
    assert inside == 1.0 - square;
    if z > 1.0 { var p := Product(z - 1.0, z + 1.0); }
    if z < -1.0 { var p := Product(-1.0 - z, 1.0 - z); }
  }

  lemma OneOver(a: real)
    requires a > 0.0
    ensures 1.0 / a >= 0.5 <==> a <= 2.0
    ensures 1.0 / a <= 0.5 <==> a >= 2.0
  {
    if a <= 2.0 { Reciprocal(a, 2.0); }
    if a >= 2.0 { Reciprocal(2.0, a); }
    assert (1.0 / a) * a == 1.0;
  }

  /** A residual keeps all its influence at the centre, and half of it one width away. */
  lemma InfluenceFalls(r: real, centre: real, width: real)
    requires width > 0.0
    ensures r == centre ==> Influence(r, centre, width) == 1.0
    ensures Influence(r, centre, width) >= 0.5 <==> Abs(r - centre) <= width
    ensures Influence(r, centre, width) <= 0.5 <==> Abs(r - centre) >= width
  {
    var z := (r - centre) / width;
    var square := Square(z);
    assert z * width == r - centre;
    UnitSquares(z, square);
    OneOver(1.0 + square);
    ScaledUnit(z, width);
  }

  lemma ScaledUnit(z: real, width: real)
    requires width > 0.0
    ensures Abs(z * width) <= width <==> -1.0 <= z <= 1.0
    ensures Abs(z * width) >= width <==> z <= -1.0 || z >= 1.0
  {
    if z >= 1.0 { Scale(width, 1.0, z); }
    if z <= 1.0 { Scale(width, z, 1.0); }
    if z >= -1.0 { Scale(width, -1.0, z); }
    if z <= -1.0 { Scale(width, z, -1.0); }
    if z > 1.0 { var p := Product(width, z - 1.0); }
    if z < -1.0 { var p := Product(width, -1.0 - z); }
    if -1.0 < z < 1.0 {
      var p := Product(width, 1.0 - z);
      var q := Product(width, z + 1.0);
    }
  }

  // ---------------------------------------------------------------- exact data is recovered exactly

  ghost predicate OnLine(xs: seq<real>, ys: seq<real>, l: Line) {
    |xs| == |ys| && forall k :: 0 <= k < |xs| ==> ys[k] == HeightAt(l, xs[k])
  }

  function ByRecency(xs: seq<real>, ys: seq<real>): seq<Obs>
    requires |xs| == |ys|
  {
    seq(|xs|, i requires 0 <= i < |xs| => Obs(Recency(|xs|, i), xs[i], ys[i]))
  }

  lemma {:induction false} AllOn(xs: seq<real>, ys: seq<real>, l: Line, n: nat)
    requires OnLine(xs, ys, l) && n <= |xs|
    ensures OnCount(xs, ys, l, n) == n
  {
    if n > 0 { AllOn(xs, ys, l, n - 1); }
  }

  lemma {:induction false} AllPartnersOn(xs: seq<real>, ys: seq<real>, l: Line, i: nat, j: nat, k: nat)
    requires OnLine(xs, ys, l) && i < |xs| && j <= |xs|
    ensures Partners(xs, ys, l, i, j).1 == Partners(xs, ys, l, i, j).0
    ensures j <= k < |xs| && xs[k] != xs[i] ==> Partners(xs, ys, l, i, j).0 > 0
    decreases |xs| - j
  {
    if j < |xs| { AllPartnersOn(xs, ys, l, i, j + 1, k); }
  }

  lemma SeedOfExactData(xs: seq<real>, ys: seq<real>, l: Line)
    requires OnLine(xs, ys, l) && Varied(xs) && NonNegative(l)
    ensures Seed(xs, ys) == l
  {
    var k :| 0 <= k < |xs| && xs[k] != xs[0];
    AllOn(xs, ys, l, |xs|);
    forall i | 0 <= i < |xs| ensures 2 * Partners(xs, ys, l, i, 0).1 > Partners(xs, ys, l, i, 0).0 {
      AllPartnersOn(xs, ys, l, i, 0, if xs[i] == xs[0] then k else 0);
    }
    SeedResists(xs, ys, l);
  }

  /** Without residuals the Cauchy weights are the recency weights. */
  lemma WeightsOfExactData(xs: seq<real>, ys: seq<real>, l: Line)
    requires OnLine(xs, ys, l) && xs != []
    ensures Weighted(xs, ys, l) == ByRecency(xs, ys)
  {
    var residuals := Residuals(xs, ys, l);
    MedianOfConstant(residuals, 0.0);
    var width := CauchyWidth(residuals);
    assert (0.0 - 0.0) / width == 0.0;
    assert Influence(0.0, 0.0, width) == 1.0;
  }

  lemma {:induction false} ResidualOfExactData(d: seq<Obs>, l: Line)
    requires forall k :: 0 <= k < |d| ==> d[k].y == l.intercept + l.slope * d[k].x
    ensures Residual(d, l) == 0.0
  {
    if d != [] { ResidualOfExactData(d[1..], l); }
  }

  lemma RoundOfExactData(xs: seq<real>, ys: seq<real>, l: Line)
    requires OnLine(xs, ys, l) && xs != [] && NonNegative(l) && WellPosed(ByRecency(xs, ys))
    ensures Reweigh(xs, ys)(l) == l
  {
    var d := ByRecency(xs, ys);
    WeightsOfExactData(xs, ys, l);
    forall k | 0 <= k < |d| ensures d[k].w >= 0.0 { PowerBounds(|xs| - k - 1); }
    ResidualOfExactData(d, l);
    ExactLineIsFound(d, l);
  }

  /** Samples lying exactly on an admissible line give back that line, whatever their order. */
  lemma ExactDataIsRecovered(xs: seq<real>, ys: seq<real>, l: Line)
    requires OnLine(xs, ys, l) && Varied(xs) && NonNegative(l) && WellPosed(ByRecency(xs, ys))
    ensures Fit(xs, ys) == Some(l)
  {
    SeedOfExactData(xs, ys, l);
    RoundOfExactData(xs, ys, l);
  }

  lemma {:induction false} SumAtLeast(d: seq<Obs>, f: Obs -> real, i: nat, j: nat)
    requires i < j < |d| && forall k :: 0 <= k < |d| ==> f(d[k]) >= 0.0
    ensures Sum(d, f) >= f(d[i]) + f(d[j])
  {
    if i > 0 { SumAtLeast(d[1..], f, i - 1, j - 1); } else { SumAtLeastOne(d[1..], f, j - 1); }
  }

  lemma {:induction false} SumAtLeastOne(d: seq<Obs>, f: Obs -> real, j: nat)
    requires j < |d| && forall k :: 0 <= k < |d| ==> f(d[k]) >= 0.0
    ensures Sum(d, f) >= f(d[j])
  {
    if j > 0 { SumAtLeastOne(d[1..], f, j - 1); } else { SumNonNegative(d[1..], f); }
  }

  /** Two abscissae one apart are together at least a half-unit of squared distance from any centre. */
  lemma SpreadOfPair(x: real, x': real, m: real, w: real, w': real, c: real)
    requires x' - x >= 1.0 || x - x' >= 1.0
    requires w >= c && w' >= c && c >= 0.0
    ensures w * ((x - m) * (x - m)) + w' * ((x' - m) * (x' - m)) >= 0.5 * c
  {
    var p, q := x - m, x' - m;
    var pp := Square(p);
    var qq := Square(q);
    var sum := Square(p + q);
    var gap := Square(p - q);
    assert gap >= 1.0 by {
      var g := if p >= q then p - q else q - p;
      var extra := Product(g - 1.0, g + 1.0);
      assert g * g == gap && extra == g * g - 1.0;
    }
    assert sum + gap == 2.0 * pp + 2.0 * qq;
    var a := Product(w - c, pp);
    var b := Product(w' - c, qq);
    assert w * pp == a + c * pp && w' * qq == b + c * qq;
    Scale(c, 0.5, pp + qq);
  }

  function SpreadTerm(mx: real): Obs -> real { (o: Obs) => o.w * ((o.x - mx) * (o.x - mx)) }

  lemma SpreadTermSign(o: Obs, mx: real)
    requires o.w >= 0.0
    ensures SpreadTerm(mx)(o) >= 0.0
  {
    WeightedSquare(o.w, o.x - mx, (o.x - mx) * (o.x - mx));
  }

  lemma SpreadTermOfPair(a: Obs, b: Obs, mx: real, c: real)
    requires a.w >= c && b.w >= c && c >= 0.0 && (b.x - a.x >= 1.0 || a.x - b.x >= 1.0)
    ensures SpreadTerm(mx)(a) + SpreadTerm(mx)(b) >= 0.5 * c
  {
    SpreadOfPair(a.x, b.x, mx, a.w, b.w, c);
  }

  /** Non-negative terms add up to at least what two of them make. */
  lemma SumReaches(d: seq<Obs>, f: Obs -> real, i: nat, j: nat, bound: real)
    requires i < j < |d| && (forall o: Obs :: o.w >= 0.0 ==> f(o) >= 0.0)
    requires (forall k :: 0 <= k < |d| ==> d[k].w >= 0.0) && f(d[i]) + f(d[j]) >= bound
    ensures Sum(d, f) >= bound
  {
    SumAtLeast(d, f, i, j);
  }

  /** Two samples at least one apart, neither lighter than `c`, keep a spread of half of `c`. */
  lemma SpreadReaches(d: seq<Obs>, mx: real, i: nat, j: nat, c: real)
    requires i < j < |d| && (forall k :: 0 <= k < |d| ==> d[k].w >= 0.0) && d[i].w >= c >= 0.0 && d[j].w >= c
    requires d[j].x - d[i].x >= 1.0 || d[i].x - d[j].x >= 1.0
    ensures Variance(d, mx) >= 0.5 * c && SumW(d) >= c
  {
    var f := SpreadTerm(mx);
    forall o: Obs | o.w >= 0.0 ensures f(o) >= 0.0 { SpreadTermSign(o, mx); }
    SpreadTermOfPair(d[i], d[j], mx, c);
    SumReaches(d, f, i, j, 0.5 * c);
    SumAtLeastOne(d, (o: Obs) => o.w, i);
  }

  /** With the eight samples a group retains at most, whole item counts never let the guards bite on
      weights that fall with age only. */
  lemma EightSamplesAreWellPosed(counts: seq<int>, ys: seq<real>)
    requires |counts| == |ys| <= 8
    requires exists i, j :: 0 <= i < j < |counts| && counts[i] != counts[j]
    ensures WellPosed(ByRecency(Reals(counts), ys))
  {
    var d := ByRecency(Reals(counts), ys);
    var i, j :| 0 <= i < j < |counts| && counts[i] != counts[j];
    forall k | 0 <= k < |d| ensures d[k].w >= 0.1 { PowerBounds(|counts| - k - 1); }
    SpreadReaches(d, MeanX(d), i, j, 0.1);
  }

  /** How many widths a residual may lie from the median of the residuals without starving the spread. */
  const FAR: real := 200000.0

  predicate Near(xs: seq<real>, ys: seq<real>, l: Line, i: nat)
    requires |xs| == |ys| && i < |xs|
  {
    var residuals := Residuals(xs, ys, l);
    Abs(residuals[i] - Median(residuals)) <= FAR * CauchyWidth(residuals)
  }

  lemma NearKeepsWeight(xs: seq<real>, ys: seq<real>, l: Line, i: nat)
    requires |xs| == |ys| <= 8 && i < |xs| && Near(xs, ys, l, i)
    ensures Weighted(xs, ys, l)[i].w >= 0.0000000000024
  {
    var residuals := Residuals(xs, ys, l);
    InfluenceWithin(residuals[i], Median(residuals), CauchyWidth(residuals), FAR, 40000000000.0);
    assert 1.0 / 40000000001.0 >= 0.000000000024;
    KeepsWeight(xs, ys, l, i, 0.000000000024);
  }

  /** In a round of at most eight samples of whole sizes the guards do not bite while two samples of
      different sizes lie within 200000 widths of the median residual. */
  lemma NearSamplesAreWellPosed(counts: seq<int>, ys: seq<real>, l: Line, i: nat, j: nat)
    requires |counts| == |ys| <= 8 && i < j < |counts| && counts[i] != counts[j]
    requires Near(Reals(counts), ys, l, i) && Near(Reals(counts), ys, l, j)
    ensures WellPosed(Weighted(Reals(counts), ys, l))
  {
    var xs := Reals(counts);
    var d := Weighted(xs, ys, l);
    forall k | 0 <= k < |d| ensures d[k].w >= 0.0 { WeightsArePositive(xs, ys, l, k); }
    NearKeepsWeight(xs, ys, l, i);
    NearKeepsWeight(xs, ys, l, j);
    SpreadReaches(d, MeanX(d), i, j, 0.0000000000024);
  }

  /** In milliseconds: elapsed times that leave residuals within 238.5 seconds of their median always do. */
  lemma FourMinutesAreNear(xs: seq<real>, ys: seq<real>, l: Line, i: nat)
    requires |xs| == |ys| && i < |xs|
    requires var residuals := Residuals(xs, ys, l); Abs(residuals[i] - Median(residuals)) <= 238500.0
    ensures Near(xs, ys, l, i)
  {
    Scale(FAR, 1.1925, CauchyWidth(Residuals(xs, ys, l)));
  }

  function Reals(counts: seq<int>): seq<real> {
    seq(|counts|, i requires 0 <= i < |counts| => counts[i] as real)
  }
}
