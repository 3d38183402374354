/** The objective of the cohort search as the bill of the pass it stands for, chunk by chunk. */
module CohortRun {
  import opened Prelude
  import opened RealFacts
  import opened LatencyPrice
  import opened CohortChoice

  // ---------------------------------------------------------------- the bill of a pass

  /** What a chunk is expected to take: fixed cost, cost of its items, and the residual put at risk. */
  function ChunkMs(p: Problem, items: int): real {
    p.fixedMs + Charged(RMax(0.0, p.marginalMs), items as real) + RMax(0.0, p.residualMs)
  }

  /** A chunk that ends a callback already `enclosing` long: its own time, and the price of the whole callback. */
  function Bill(p: Problem, items: int, enclosing: real): real {
    ChunkMs(p, items) + Charged(RMax(0.0, p.responsiveness), ChunkPrice(p)(enclosing + ChunkMs(p, items)))
  }

  /** The chunks that take `left` items, each in a callback of its own but for the first. A last, smaller chunk is
      billed as a whole one. */
  function RunCost(p: Problem, items: int, left: int, enclosing: real): real
    requires items >= 1
    decreases left
  {
    if left <= 0 then 0.0 else Bill(p, items, enclosing) + RunCost(p, items, left - items, 0.0)
  }

  lemma OneChunkFewer(left: int, items: int)
    requires items >= 1 && left >= 1
    ensures Chunks(left, items) == 1 + if left <= items then 0 else Chunks(left - items, items)
  {
    if left <= items {
      ChunksLeast(left, items, 1);
    } else {
      var k := Chunks(left - items, items);
      ChunksCover(left - items, items);
      assert (k + 1) * items == k * items + items && (k - 1) * items + items == k * items;
      ChunksLeast(left, items, k + 1);
    }
  }

  lemma OneBillMore(k: int, bill: real)
    ensures Charged((1 + k) as real, bill) == bill + Charged(k as real, bill)
  {
    assert (1 + k) as real == 1.0 + k as real;
  }

  lemma {:induction false} LaterChunksCost(p: Problem, items: int, left: int)
    requires items >= 1 && left >= 1
    ensures RunCost(p, items, left, 0.0) == Charged(Chunks(left, items) as real, Bill(p, items, 0.0))
    decreases left
  {
    OneChunkFewer(left, items);
    if left <= items {
      OneBillMore(0, Bill(p, items, 0.0));
    } else {
      LaterChunksCost(p, items, left - items);
      OneBillMore(Chunks(left - items, items), Bill(p, items, 0.0));
    }
  }

  lemma FirstChunkCosts(p: Problem, items: int, left: int, enclosing: real)
    requires items >= 1 && left >= 1
    ensures RunCost(p, items, left, enclosing) - RunCost(p, items, left, 0.0)
            == Bill(p, items, enclosing) - Bill(p, items, 0.0)
  {
  }

  lemma BillIsPerChunk(p: Problem, items: int)
    ensures ChunkMs(p, items) == Risked(p, items as real)
    ensures Bill(p, items, 0.0) == PerChunk(p, ChunkPrice(p), Risked(p, items as real))
  {
  }

  lemma ChargedDiffers(w: real, a: real, b: real)
    ensures Charged(w, a - b) == Charged(w, a) - Charged(w, b)
  {
  }

  lemma SurchargeIsDifference(p: Problem, items: int)
    ensures Surcharge(ChunkPrice(p), Weight(p), p.callbackMs, Risked(p, items as real))
            == Bill(p, items, RMax(0.0, p.callbackMs)) - Bill(p, items, 0.0)
  {
    BillIsPerChunk(p, items);
    var price, enclosing, ms := ChunkPrice(p), RMax(0.0, p.callbackMs), ChunkMs(p, items);
    ChargedDiffers(Weight(p), price(enclosing + ms), price(ms));
    assert price(0.0 + ms) == price(ms);
  }

  /** The price of stepping beyond the evidence: of the items against the largest cohort observed, stretched by the
      exploration allowed, and where bytes are known of the bytes against the most observed. */
  function EvidencePrice(p: Problem, items: int): real {
    var reach := RMax(1.0, p.observedItems as real * RMax(1.0, p.exploration));
    var known := p.observedBytes > 0 && p.bytesPerItem > 0.0;
    Charged(p.confidence, p.evidence(items as real / reach))
    + if known then Charged(p.confidence, p.evidence(Charged(p.bytesPerItem, items as real) / p.observedBytes as real))
      else 0.0
  }

  lemma ExtrapolationIsEvidence(p: Problem, items: int)
    ensures Extrapolation(p, items as real) == EvidencePrice(p, items)
  {
    var reach := RMax(1.0, p.observedItems as real * RMax(1.0, p.exploration));
    assert reach != 0.0 && ItemRatio(p, items as real) == items as real / reach;
    if p.observedBytes > 0 {
      assert ByteRatio(p, items as real) == Charged(p.bytesPerItem, items as real) / p.observedBytes as real;
    }
  }

  /** The objective is what the pass costs chunk by chunk, and once the price of stepping beyond the evidence. */
  lemma ObjectiveIsTheBill(p: Problem, items: int)
    requires items >= 1
    ensures Objective(p, items)
            == RunCost(p, items, Remaining(p), RMax(0.0, p.callbackMs)) + EvidencePrice(p, items)
  {
    ExtrapolationIsEvidence(p, items);
    BillIsPerChunk(p, items);
    LaterChunksCost(p, items, Remaining(p));
    FirstChunkCosts(p, items, Remaining(p), RMax(0.0, p.callbackMs));
    SurchargeIsDifference(p, items);
  }

  // ---------------------------------------------------------------- the relaxation stays below

  lemma RatioOfSizes(remaining: int, items: int) returns (r: real)
    requires items >= 1 && remaining >= 1
    ensures r == Ratio(remaining as real, RMax(1.0, items as real)) && r <= Chunks(remaining, items) as real
    ensures r == Chunks(remaining, items) as real <==> remaining % items == 0
  {
    var k := Chunks(remaining, items);
    ChunksCover(remaining, items);
    r := Ratio(remaining as real, RMax(1.0, items as real));
    assert r * items as real == remaining as real;
    assert (k * items) as real == k as real * items as real;
    if r > k as real { var p := Product(items as real, r - k as real); }
    if r == k as real {
      assert remaining == k * items;
      Multiples(remaining, k, items);
    }
    if remaining % items == 0 {
      var q := remaining / items;
      assert q * items == remaining;
      assert (q - 1) * items == q * items - items;
      ChunksLeast(remaining, items, q);
      assert r == q as real by {
        assert (q * items) as real == q as real * items as real;
        if r < q as real { var p := Product(items as real, q as real - r); }
      }
    }
  }

  lemma Multiples(n: int, k: int, items: int)
    requires items >= 1 && n == k * items
    ensures n % items == 0
  {
    if n % items != 0 {
      var q := n / items;
      if q < k { InSteps(q + 1, k, items); }
      if k < q { InSteps(k + 1, q, items); }
    }
  }

  /** Counting chunks as a real number never adds to the objective, and takes something off exactly where the last
      chunk would not be full, a chunk costing something. */
  lemma RelaxedIsBelow(p: Problem, items: int)
    requires items >= 1 && Bill(p, items, 0.0) >= 0.0
    ensures Relaxed(p, items as real) <= Objective(p, items)
    ensures Bill(p, items, 0.0) > 0.0 ==>
              (Relaxed(p, items as real) == Objective(p, items) <==> Remaining(p) % items == 0)
    ensures Remaining(p) % items == 0 ==> Relaxed(p, items as real) == Objective(p, items)
  {
    BillIsPerChunk(p, items);
    var bill, k := Bill(p, items, 0.0), Chunks(Remaining(p), items) as real;
    var r := RatioOfSizes(Remaining(p), items);
    Scale(bill, r, k);
    assert Charged(k, bill) - Charged(r, bill) == (k - r) * bill;
    if k > r && bill > 0.0 { var q := Product(k - r, bill); }
  }

  // ---------------------------------------------------------------- what the search then answers

  /** What it is to be the best: least objective, of those the shortest chunk, of those the most items. */
  lemma BestMeans(p: Problem, s: set<int>, i: int, j: int)
    requires Sizes(s) && Best(p, s, i) && j in s
    ensures Objective(p, i) <= Objective(p, j)
    ensures Objective(p, i) == Objective(p, j) ==> Latency(p, i as real) <= Latency(p, j as real)
    ensures Objective(p, i) == Objective(p, j) && Latency(p, i as real) == Latency(p, j as real) ==> i >= j
  {
  }

  /** Neither responsiveness nor evidence is priced: chunks cost their time alone. */
  ghost predicate OnlyTimeCounts(p: Problem) {
    p.responsiveness <= 0.0 && p.confidence == 0.0
  }

  lemma TimeAlone(p: Problem, items: int)
    requires items >= 1 && OnlyTimeCounts(p)
    ensures Objective(p, items) == Charged(Chunks(Remaining(p), items) as real, ChunkMs(p, items))
  {
    BillIsPerChunk(p, items);
    assert Weight(p) == 0.0;
    assert forall ms :: Charged(0.0, ms) == 0.0;
  }

  lemma SplitPays(k: int, n: int, items: int, f: real, m: real)
    requires k >= 2 && f > 0.0 && m >= 0.0 && n <= k * items
    ensures f + Charged(m, n as real) < Charged(k as real, f + Charged(m, items as real))
  {
    Scale(m, n as real, (k * items) as real);
    assert (k * items) as real == k as real * items as real;
    assert m * (k as real * items as real) == k as real * (m * items as real);
    var extra := Product(k as real - 1.0, f);
  }

  /** Splitting a pass in two or more chunks pays the fixed cost more than once. */
  lemma SplittingCostsMore(p: Problem, items: int)
    requires items >= 1 && OnlyTimeCounts(p) && p.fixedMs > 0.0 && Chunks(Remaining(p), items) >= 2
    ensures Objective(p, Remaining(p)) < Objective(p, items)
  {
    var k, n := Chunks(Remaining(p), items), Remaining(p);
    var m, f := RMax(0.0, p.marginalMs), p.fixedMs + RMax(0.0, p.residualMs);
    TimeAlone(p, items);
    TimeAlone(p, n);
    ChunksLeast(n, n, 1);
    ChunksCover(n, items);
    SplitPays(k, n, items, f, m);
    assert ChunkMs(p, items) == f + Charged(m, items as real) && ChunkMs(p, n) == f + Charged(m, n as real);
    assert Charged(1.0, ChunkMs(p, n)) == ChunkMs(p, n);
  }

  /** When only time counts and a chunk has a fixed cost, the size selected takes the pass in one chunk. */
  lemma OneChunkIsSelected(p: Problem, root: real, items: int)
    requires OnlyTimeCounts(p) && p.fixedMs > 0.0
    requires Sizes(Members(Candidates(p, root))) && Best(p, Members(Candidates(p, root)), items)
    ensures Chunks(Remaining(p), items) == 1 && items >= Remaining(p)
  {
    var c := Candidates(p, root);
    assert c[1] == Remaining(p);
    BestMeans(p, Members(c), items, Remaining(p));
    ChunksCover(Remaining(p), items);
    if Chunks(Remaining(p), items) >= 2 { SplittingCostsMore(p, items); }
  }
}
