/** How many items the next chunk of a render pass takes: fill time and responsiveness paid by every
    chunk, a surcharge paid by the first, and a price on stepping beyond the evidence. */
module CohortChoice {
  import opened Prelude
  import opened RealFacts
  import opened LatencyPrice

  /** `evidence` is the price of a ratio to the largest observed size, `confidence` its weight. */
  datatype Problem = Problem(
    fixedMs: real, marginalMs: real, remainingItems: int, observedItems: int, observedBytes: int, bytesPerItem: real,
    residualMs: real, responsiveness: real, exploration: real, callbackMs: real, frameBudgetMs: real,
    evidence: real -> real, confidence: real)

  function Remaining(p: Problem): (r: int) ensures r >= 1 { Max(1, p.remainingItems) }

  function Latency(p: Problem, items: real): real { p.fixedMs + Charged(RMax(0.0, p.marginalMs), items) }

  /** A chunk's predicted time plus what the model's residual puts at risk. */
  function Risked(p: Problem, items: real): real { Latency(p, items) + RMax(0.0, p.residualMs) }

  function Knees(p: Problem): (real, real) {
    var frame := FrameKnees(p.frameBudgetMs, p.fixedMs, Risked(p, 1.0));
    if frame.Some? then frame.value else (KNEE_MS, STEEP_MS)
  }

  function ChunkPrice(p: Problem): real -> real { Curve(Knees(p).0, Knees(p).1) }

  function Weight(p: Problem): real { RMax(0.0, p.responsiveness) }

  /** What a chunk of this risked time costs each time it runs. */
  function PerChunk(p: Problem, price: real -> real, risked: real): real { risked + Charged(Weight(p), price(risked)) }

  function Ratio(x: real, d: real): real { if d == 0.0 then 0.0 else x / d }

  function ItemRatio(p: Problem, items: real): real {
    Ratio(items, RMax(1.0, p.observedItems as real * RMax(1.0, p.exploration)))
  }

  function ByteRatio(p: Problem, items: real): real { Ratio(Charged(p.bytesPerItem, items), p.observedBytes as real) }

  /** The price of stepping beyond the observed items, and beyond the observed bytes where bytes are known. */
  function Extrapolation(p: Problem, items: real): real {
    Charged(p.confidence, p.evidence(ItemRatio(p, items)))
    + if p.observedBytes > 0 && p.bytesPerItem > 0.0
      then Charged(p.confidence, p.evidence(ByteRatio(p, items))) else 0.0
  }

  /** Python's `round`: to the nearest integer, halves to the even one. */
  function Round(x: real): int {
    var low := x.Floor;
    var part := x - low as real;
    if part < 0.5 then low else if part > 0.5 then low + 1 else if low % 2 == 0 then low else low + 1
  }

  function Chunks(remaining: int, items: int): int
    requires items >= 1
  {
    Ceil(remaining as real / items as real)
  }

  /** The search's objective under a responsiveness price. */
  function ObjectiveUnder(p: Problem, price: real -> real, items: int): real
    requires items >= 1
  {
    var risked := Risked(p, items as real);
    Charged(Chunks(Remaining(p), items) as real, PerChunk(p, price, risked))
    + Surcharge(price, Weight(p), p.callbackMs, risked) + Extrapolation(p, items as real)
  }

  lemma OnlyTheSurchargeMoves(p: Problem, price: real -> real, callback: real, items: int)
    requires items >= 1
    ensures ObjectiveUnder(p.(callbackMs := callback), price, items) - ObjectiveUnder(p, price, items) ==
            Surcharge(price, Weight(p), callback, Risked(p, items as real))
            - Surcharge(price, Weight(p), p.callbackMs, Risked(p, items as real))
  {
    var q := p.(callbackMs := callback);
    assert Risked(q, items as real) == Risked(p, items as real);
    assert PerChunk(q, price, Risked(p, items as real)) == PerChunk(p, price, Risked(p, items as real));
    assert Extrapolation(q, items as real) == Extrapolation(p, items as real) by {
      assert ItemRatio(q, items as real) == ItemRatio(p, items as real);
      assert ByteRatio(q, items as real) == ByteRatio(p, items as real);
    }
  }

  function Objective(p: Problem, items: int): real
    requires items >= 1
  {
    ObjectiveUnder(p, ChunkPrice(p), items)
  }

  // ---------------------------------------------------------------- choosing among candidates

  /** The order of the search's key: objective, then chunk time, then the larger cohort. */
  predicate Better(p: Problem, i: int, j: int)
    requires i >= 1 && j >= 1
  {
    var oi, oj, ci, cj := Objective(p, i), Objective(p, j), Latency(p, i as real), Latency(p, j as real);
    oi < oj || (oi == oj && (ci < cj || (ci == cj && i > j)))
  }

  predicate Sizes(s: set<int>) { forall i :: i in s ==> i >= 1 }

  function Members(s: seq<int>): set<int> { set i | i in s }

  predicate Best(p: Problem, s: set<int>, i: int)
    requires Sizes(s)
  {
    i in s && forall j :: j in s && j != i ==> Better(p, i, j)
  }

  /** The best candidate, by one pass over the candidates in whatever order they come. */
  method Select(p: Problem, candidates: seq<int>) returns (best: int)
    requires candidates != [] && forall k :: 0 <= k < |candidates| ==> candidates[k] >= 1
    ensures Best(p, Members(candidates), best)
  {
    best := candidates[0];
    for k := 1 to |candidates|
      invariant best in candidates[..k] && best >= 1
      invariant forall j :: 0 <= j < k && candidates[j] != best ==> Better(p, best, candidates[j])
    {
      if Better(p, candidates[k], best) { best := candidates[k]; }
    }
  }

  lemma BestIsUnique(p: Problem, s: set<int>, i: int, j: int)
    requires Sizes(s) && Best(p, s, i) && Best(p, s, j)
    ensures i == j
  {
  }

  // ---------------------------------------------------------------- an enclosing callback shortens

  /** A longer enclosing callback adds at least as much to the objective of a longer chunk. */
  lemma LongerCallbackWidens(p: Problem, price: real -> real, callback: real, i: int, j: int)
    requires Responsive(price) && p.callbackMs <= callback && i >= 1 && j >= 1
             && Latency(p, i as real) <= Latency(p, j as real)
    ensures var q := p.(callbackMs := callback);
            ObjectiveUnder(q, price, i) - ObjectiveUnder(p, price, i) <=
            ObjectiveUnder(q, price, j) - ObjectiveUnder(p, price, j)
  {
    OnlyTheSurchargeMoves(p, price, callback, i);
    OnlyTheSurchargeMoves(p, price, callback, j);
    SurchargeGrows(price, Weight(p), p.callbackMs, callback, Risked(p, i as real), Risked(p, j as real));
  }

  /** Over fixed candidates, running inside a longer callback never selects a chunk of larger predicted time. */
  lemma EnclosingNeverLengthens(p: Problem, q: Problem, s: set<int>, i: int, j: int)
    requires Sizes(s) && q == p.(callbackMs := q.callbackMs) && p.callbackMs <= q.callbackMs
    requires Best(p, s, i) && Best(q, s, j)
    ensures Latency(p, j as real) <= Latency(p, i as real)
  {
    if i != j && Latency(p, j as real) > Latency(p, i as real) {
      PriceIsResponsive(Knees(p).0, Knees(p).1);
      LongerCallbackWidens(p, ChunkPrice(p), q.callbackMs, i, j);
    }
  }

  // ---------------------------------------------------------------- even splits suffice

  lemma ChunksCover(remaining: int, items: int)
    requires items >= 1 && remaining >= 1
    ensures var k := Chunks(remaining, items); k >= 1 && (k - 1) * items < remaining <= k * items
  {
    var x := remaining as real / items as real;
    var k := Chunks(remaining, items);
    assert k as real - 1.0 < x <= k as real;
    assert x * items as real == remaining as real;
    var low := Product(items as real, x - (k as real - 1.0));
    var high := Product(items as real, k as real - x);
    assert ((k - 1) * items) as real == (k as real - 1.0) * items as real;
    assert (k * items) as real == k as real * items as real;
    if k < 1 { var none := Product(items as real, 1.0 - k as real); }
  }

  lemma ChunksLeast(remaining: int, items: int, k: int)
    requires items >= 1 && remaining >= 1 && (k - 1) * items < remaining <= k * items
    ensures Chunks(remaining, items) == k
  {
    var c := Chunks(remaining, items);
    ChunksCover(remaining, items);
    if c < k { InSteps(c, k - 1, items); }
    if k < c { InSteps(k, c - 1, items); }
  }

  /** Spreading the same number of chunks evenly takes no more items a chunk, and no more chunks. */
  lemma EvenSplit(remaining: int, items: int)
    requires 1 <= items && remaining >= 1
    ensures var k := Chunks(remaining, items);
            k >= 1 && 1 <= Chunks(remaining, k) <= items && Chunks(remaining, Chunks(remaining, k)) == k
  {
    var k := Chunks(remaining, items);
    ChunksCover(remaining, items);
    var m := Chunks(remaining, k);
    ChunksCover(remaining, k);
    if m > items { InSteps(items, m - 1, k); }
    assert (k - 1) * m <= (k - 1) * items by { InSteps(m, items, k - 1); assert m * (k - 1) == (k - 1) * m; }
    ChunksLeast(remaining, m, k);
  }

  /** The evidence price never falls as sizes grow, and its weight is no discount. */
  ghost predicate EvidenceGrows(p: Problem) {
    && p.confidence >= 0.0
    && forall x, y {:trigger p.evidence(x), p.evidence(y)} :: x <= y ==> p.evidence(x) <= p.evidence(y)
  }

  lemma ChargedGrows(w: real, x: real, y: real)
    requires w >= 0.0 && x <= y
    ensures Charged(w, x) <= Charged(w, y)
  {
    Scale(w, x, y);
  }

  lemma RatioGrows(x: real, y: real, d: real)
    requires d > 0.0 && x <= y
    ensures Ratio(x, d) <= Ratio(y, d)
  {
    var a, b := Ratio(x, d), Ratio(y, d);
    assert a * d == x && b * d == y;
    if a > b { var p := Product(a - b, d); }
  }

  lemma ExtrapolationGrows(p: Problem, m: real, n: real)
    requires EvidenceGrows(p) && m <= n
    ensures Extrapolation(p, m) <= Extrapolation(p, n)
  {
    RatioGrows(m, n, RMax(1.0, p.observedItems as real * RMax(1.0, p.exploration)));
    ChargedGrows(p.confidence, p.evidence(ItemRatio(p, m)), p.evidence(ItemRatio(p, n)));
    if p.observedBytes > 0 && p.bytesPerItem > 0.0 {
      ChargedGrows(p.bytesPerItem, m, n);
      RatioGrows(Charged(p.bytesPerItem, m), Charged(p.bytesPerItem, n), p.observedBytes as real);
      ChargedGrows(p.confidence, p.evidence(ByteRatio(p, m)), p.evidence(ByteRatio(p, n)));
    }
  }

  lemma RiskedGrows(p: Problem, m: real, n: real)
    requires m <= n
    ensures Latency(p, m) <= Latency(p, n) && Risked(p, m) <= Risked(p, n)
  {
    ChargedGrows(RMax(0.0, p.marginalMs), m, n);
  }

  lemma PerChunkGrows(p: Problem, price: real -> real, a: real, b: real)
    requires Responsive(price) && a <= b
    ensures PerChunk(p, price, a) <= PerChunk(p, price, b)
  {
    assert price(a) <= price(b);
    ChargedGrows(Weight(p), price(a), price(b));
  }

  lemma SameChunksCheaper(p: Problem, price: real -> real, m: int, n: int)
    requires Responsive(price) && EvidenceGrows(p) && 1 <= m <= n
    requires 0 <= Chunks(Remaining(p), m) == Chunks(Remaining(p), n)
    ensures ObjectiveUnder(p, price, m) <= ObjectiveUnder(p, price, n)
  {
    var a, b := Risked(p, m as real), Risked(p, n as real);
    RiskedGrows(p, m as real, n as real);
    PerChunkGrows(p, price, a, b);
    ChargedGrows(Chunks(Remaining(p), m) as real, PerChunk(p, price, a), PerChunk(p, price, b));
    SurchargeGrows(price, Weight(p), p.callbackMs, p.callbackMs, a, b);
    ExtrapolationGrows(p, m as real, n as real);
  }

  /** No cohort size beats the even split into as many chunks: the search loses nothing by trying chunk
      counts instead of every size. */
  lemma EvenSplitsSuffice(p: Problem, items: int)
    requires items >= 1 && EvidenceGrows(p)
    ensures var k := Chunks(Remaining(p), items);
            k >= 1 && Chunks(Remaining(p), k) >= 1 && Objective(p, Chunks(Remaining(p), k)) <= Objective(p, items)
  {
    EvenSplit(Remaining(p), items);
    PriceIsResponsive(Knees(p).0, Knees(p).1);
    SameChunksCheaper(p, ChunkPrice(p), Chunks(Remaining(p), Chunks(Remaining(p), items)), items);
  }

  // ---------------------------------------------------------------- the search

  /** The objective with chunks counted as a real number. */
  function Relaxed(p: Problem, items: real): real {
    var risked := Risked(p, items);
    Charged(Ratio(Remaining(p) as real, RMax(1.0, items)), PerChunk(p, ChunkPrice(p), risked))
    + Surcharge(ChunkPrice(p), Weight(p), p.callbackMs, risked) + Extrapolation(p, items)
  }

  /** Its slope, by a central difference kept inside the range of sizes. */
  function Derivative(p: Problem, items: real): real {
    var step := RMax(0.0001, items * 0.0001);
    var low, high := RMax(1.0, items - step), RMin(Remaining(p) as real, items + step);
    if high <= low then 0.0 else (Relaxed(p, high) - Relaxed(p, low)) / (high - low)
  }

  function Halved(width: real, times: nat): real { if times == 0 then width else Halved(width, times - 1) / 2.0 }

  const BISECTIONS := 56

  ghost predicate Between(p: Problem, root: real, low: real, high: real) {
    && 1.0 <= low <= root <= high <= Remaining(p) as real
    && high - low == Halved(Remaining(p) as real - 1.0, BISECTIONS)
    && Derivative(p, low) < 0.0 <= Derivative(p, high)
  }

  /** The knee of the relaxed objective: an end it slopes away from, or the middle of the last bracket of a sign
      change. */
  ghost predicate Knot(p: Problem, root: real) {
    || (root == 1.0 && Derivative(p, 1.0) >= 0.0)
    || (root == Remaining(p) as real && Derivative(p, root) <= 0.0)
    || exists low, high :: Between(p, root, low, high) && root == 0.5 * (low + high)
  }

  method FindRoot(p: Problem) returns (root: real)
    ensures Knot(p, root) && 1.0 <= root <= Remaining(p) as real
  {
    var low, high := 1.0, Remaining(p) as real;
    if Derivative(p, low) >= 0.0 { return low; }
    if Derivative(p, high) <= 0.0 { return high; }
    for k := 0 to BISECTIONS
      invariant 1.0 <= low <= high <= Remaining(p) as real
      invariant high - low == Halved(Remaining(p) as real - 1.0, k)
      invariant Derivative(p, low) < 0.0 <= Derivative(p, high)
    {
      var midpoint := 0.5 * (low + high);
      if Derivative(p, midpoint) < 0.0 { low := midpoint; } else { high := midpoint; }
    }
    root := 0.5 * (low + high);
    assert Between(p, root, low, high);
  }

  function Limited(size: int, remaining: int): int { Max(1, Min(remaining, size)) }

  function RootChunks(p: Problem, root: real): int { Max(1, Round(Ratio(Remaining(p) as real, RMax(1.0, root)))) }

  /** The even split into a chunk count near the root's. */
  function Split(p: Problem, root: real, delta: int): int {
    Limited(Chunks(Remaining(p), Max(1, RootChunks(p, root) + delta)), Remaining(p))
  }

  /** The ends, the largest observed size, the sizes around the root, and the even splits around it. */
  function Candidates(p: Problem, root: real): seq<int> {
    [1, Remaining(p), Max(1, p.observedItems)]
    + seq(9, k requires 0 <= k < 9 => Limited(Limited(Round(root), Remaining(p)) + k - 4, Remaining(p)))
    + seq(17, k requires 0 <= k < 17 => Split(p, root, k - 8))
  }

  /** Every candidate is a legal size; the largest may exceed what remains, up to the largest size observed. */
  lemma CandidatesAreLegal(p: Problem, root: real)
    ensures forall i :: i in Members(Candidates(p, root)) ==> 1 <= i <= Max(Remaining(p), p.observedItems)
  {
    var c := Candidates(p, root);
    forall i | i in Members(c) ensures 1 <= i <= Max(Remaining(p), p.observedItems) {
      var k :| 0 <= k < |c| && c[k] == i;
      if k >= 12 {
        assert i == Split(p, root, k - 12 - 8);
      } else if k >= 3 {
        assert i == Limited(Limited(Round(root), Remaining(p)) + (k - 3) - 4, Remaining(p));
      }
    }
  }

  /** The whole search. */
  method OptimalPoint(p: Problem) returns (items: int, chunkMs: real, latencyCost: real, ghost root: real)
    ensures Knot(p, root) && 1.0 <= root <= Remaining(p) as real
    ensures 1 <= items <= Max(Remaining(p), p.observedItems)
    ensures Sizes(Members(Candidates(p, root))) && Best(p, Members(Candidates(p, root)), items)
    ensures chunkMs == Latency(p, items as real)
    ensures latencyCost == Charged(Weight(p), ChunkPrice(p)(Risked(p, items as real)))
  {
    var knot := FindRoot(p);
    root := knot;
    var candidates := Candidates(p, knot);
    CandidatesAreLegal(p, knot);
    assert forall k :: 0 <= k < |candidates| ==> candidates[k] in Members(candidates);
    items := Select(p, candidates);
    chunkMs := Latency(p, items as real);
    latencyCost := Charged(Weight(p), ChunkPrice(p)(Risked(p, items as real)));
  }

  lemma BestBeats(p: Problem, s: set<int>, i: int, j: int)
    requires Sizes(s) && Best(p, s, i) && j in s
    ensures Objective(p, i) <= Objective(p, j)
  {
  }

  lemma SplitIsCandidate(p: Problem, root: real, delta: int)
    requires -8 <= delta <= 8
    ensures Split(p, root, delta) in Members(Candidates(p, root))
  {
    assert Candidates(p, root)[12 + (delta + 8)] == Split(p, root, delta);
  }

  /** The nearest whole number, the even one of two that are as near. */
  lemma RoundIsNearest(x: real)
    ensures -0.5 <= Round(x) as real - x <= 0.5
    ensures Round(x) as real - x == 0.5 || Round(x) as real - x == -0.5 ==> Round(x) % 2 == 0
  {
  }

  lemma NearRootIsCandidate(p: Problem, root: real, other: int)
    requires 1 <= other <= Remaining(p) && -3.5 <= other as real - root <= 3.5 && 1.0 <= root <= Remaining(p) as real
    ensures other in Members(Candidates(p, root))
  {
    RoundIsNearest(root);
    var centre := Limited(Round(root), Remaining(p));
    assert -4 <= other - centre <= 4;
    assert Candidates(p, root)[3 + (other - centre + 4)] == Limited(centre + (other - centre + 4) - 4, Remaining(p));
  }

  lemma NearChunksIsDelta(p: Problem, root: real, k: int)
    requires k >= 1 && root >= 1.0 && -7.5 <= k as real - Remaining(p) as real / root <= 7.5
    ensures -8 <= k - RootChunks(p, root) <= 8
  {
    var x := Remaining(p) as real / root;
    RoundIsNearest(x);
    assert x * root == Remaining(p) as real;
    if x < 0.0 { var q := Product(-x, root); }
  }

  /** Of all sizes, from one item to everything, that lie within three and a half of the root, or whose chunk count
      lies within seven and a half of what the root would take, none beats the selected size; nor does one item at a
      time, everything at once, or the largest size observed. */
  lemma SelectedIsNearlyOptimal(p: Problem, root: real, items: int, other: int)
    requires EvidenceGrows(p) && 1 <= other <= Remaining(p) && 1.0 <= root <= Remaining(p) as real
    requires Sizes(Members(Candidates(p, root))) && Best(p, Members(Candidates(p, root)), items)
    requires -3.5 <= other as real - root <= 3.5
             || -7.5 <= Chunks(Remaining(p), other) as real - Remaining(p) as real / root <= 7.5
    ensures Objective(p, items) <= Objective(p, other)
    ensures Objective(p, items) <=
            RMin(Objective(p, 1), RMin(Objective(p, Remaining(p)), Objective(p, Max(1, p.observedItems))))
  {
    var c := Candidates(p, root);
    if -3.5 <= other as real - root <= 3.5 {
      NearRootIsCandidate(p, root, other);
      BestBeats(p, Members(c), items, other);
    } else {
      var k := Chunks(Remaining(p), other);
      EvenSplitsSuffice(p, other);
      EvenSplit(Remaining(p), other);
      NearChunksIsDelta(p, root, k);
      SplitIsCandidate(p, root, k - RootChunks(p, root));
      BestBeats(p, Members(c), items, Split(p, root, k - RootChunks(p, root)));
    }
    EndsAreCandidates(p, root);
    BestBeats(p, Members(c), items, 1);
    BestBeats(p, Members(c), items, Remaining(p));
    BestBeats(p, Members(c), items, Max(1, p.observedItems));
  }

  lemma EndsAreCandidates(p: Problem, root: real)
    ensures var s := Members(Candidates(p, root)); 1 in s && Remaining(p) in s && Max(1, p.observedItems) in s
  {
    var c := Candidates(p, root);
    assert c[0] == 1 && c[1] == Remaining(p) && c[2] == Max(1, p.observedItems);
  }

  // ---------------------------------------------------------------- the knees of a pass

  /** A pass that owes the display a frame, and can pay twice its fixed cost within it, has its steep point at the
      frame, or at its cheapest chunk if that takes longer, and its knee at half of that; every other has the usual
      ones. The cheapest chunk then never pays the steep branch. */
  lemma KneesOfAPass(p: Problem)
    ensures var cheapest := p.fixedMs + RMax(0.0, p.marginalMs) + RMax(0.0, p.residualMs);
            if p.frameBudgetMs > 0.0 && p.frameBudgetMs >= 2.0 * p.fixedMs then
              && Knees(p).1 >= p.frameBudgetMs && Knees(p).1 >= cheapest
              && (Knees(p).1 == p.frameBudgetMs || Knees(p).1 == cheapest) && 2.0 * Knees(p).0 == Knees(p).1
              && ChunkPrice(p)(cheapest) <= 0.01 * (Knees(p).0 * Knees(p).0)
            else Knees(p) == (18.0, 45.0)
  {
    assert Charged(RMax(0.0, p.marginalMs), 1.0) == RMax(0.0, p.marginalMs);
    FramePrice(p.frameBudgetMs, p.fixedMs, Risked(p, 1.0));
  }
}
