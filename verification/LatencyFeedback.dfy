/** Per-channel running averages of callback cost, and the budgets read off them. */
module LatencyFeedback {
  import opened Prelude
  import opened RealFacts

  datatype Profile = Conservative | Balanced | Aggressive | Custom

  datatype Tuning = Tuning(targetIdleMs: real, targetInteractiveMs: real, maxBatch: int)

  const MIN_BUDGET_MS: real := 2.0
  const MAX_BUDGET_MS: real := 12.0
  const ALPHA: real := 0.25

  function TuningOf(p: Profile): Tuning {
    match p
    case Conservative => Tuning(7.0, 3.5, 6)
    case Balanced => Tuning(8.0, 4.0, 12)
    case Aggressive => Tuning(11.0, 5.5, 18)
    case Custom => Tuning(8.0, 4.0, 12)
  }

  datatype Channel = Channel(elapsed: Option<real>, perItem: Option<real>, perByte: Option<real>,
                             lastElapsed: real, lastCount: int, lastBytes: int, observations: nat)

  const FRESH := Channel(None, None, None, 0.0, 0, 0, 0)

  function Ewma(previous: Option<real>, value: real): real {
    if previous.None? then value else previous.value * (1.0 - ALPHA) + value * ALPHA
  }

  function Observe(c: Channel, elapsedMs: real, items: int, bytes: int): Channel {
    var elapsed, count, size := RMax(0.0, elapsedMs), Max(1, items), Max(0, bytes);
    Channel(Some(Ewma(c.elapsed, elapsed)), Some(Ewma(c.perItem, elapsed / count as real)),
            if size > 0 then Some(Ewma(c.perByte, elapsed / size as real)) else c.perByte,
            elapsed, count, size, c.observations + 1)
  }

  function Target(t: Tuning, interactive: bool): real { if interactive then t.targetInteractiveMs else t.targetIdleMs }

  function Scaled(target: real, average: real): real { Times(target, target / RMax(average, 0.25)) }

  /** Milliseconds of work a channel may take at once: its target, scaled down by how far its average exceeds it. */
  function WorkBudget(c: Channel, t: Tuning, interactive: bool): real {
    var target := Target(t, interactive);
    if c.elapsed.None? || c.elapsed.value <= 0.0 then RClamp(target, MIN_BUDGET_MS, MAX_BUDGET_MS)
    else RClamp(Scaled(target, c.elapsed.value), MIN_BUDGET_MS, MAX_BUDGET_MS)
  }

  /** How many items fit the target at the channel's average item cost. */
  function BatchLimit(c: Channel, t: Tuning, interactive: bool): int {
    if c.perItem.None? || c.perItem.value <= 0.0 then t.maxBatch
    else Max(1, Min(t.maxBatch, Max(1, (Target(t, interactive) / RMax(c.perItem.value, 0.25)).Floor)))
  }

  /** A larger divisor never gives a larger quotient. */
  lemma QuotientShrinks(target: real, a: real, b: real)
    requires target >= 0.0 && 0.0 < a <= b
    ensures 0.0 <= target / b <= target / a
  {
    var p, q := target / a, target / b;
    assert p * a == target && q * b == target;
    assert (q - p) * a + q * (b - a) == 0.0;
    if q < 0.0 { var z := Product(-q, b); }
    var y := Product(q, b - a);
    if p < q { var x := Product(q - p, a); }
  }

  lemma QuotientAtMostOne(target: real, a: real)
    requires 0.0 < target <= a
    ensures target / a <= 1.0
  {
    var p := target / a;
    assert p * a == target;
    if p > 1.0 { var w := Product(p - 1.0, a); }
  }

  lemma TimesGrows(c: real, p: real, q: real)
    requires c >= 0.0 && p <= q
    ensures Times(c, p) <= Times(c, q)
  {
    Scale(c, p, q);
  }

  lemma ScaledFacts(target: real, average: real, more: real)
    requires 0.25 <= target && 0.0 < average <= more
    ensures 0.0 <= Scaled(target, more) <= Scaled(target, average)
    ensures average >= target ==> Scaled(target, average) <= target
  {
    var a, b := RMax(average, 0.25), RMax(more, 0.25);
    QuotientShrinks(target, a, b);
    TimesGrows(target, target / b, target / a);
    TimesGrows(target, 0.0, target / b);
    assert Times(target, 0.0) == 0.0 && Times(target, 1.0) == target;
    if average >= target {
      QuotientAtMostOne(target, a);
      TimesGrows(target, target / a, 1.0);
    }
  }

  /** A budget stays within its bounds, and a costlier channel never gets a larger one. */
  lemma BudgetShrinks(c: Channel, d: Channel, t: Tuning, interactive: bool)
    requires c.elapsed.Some? && d.elapsed.Some? && 0.0 < c.elapsed.value <= d.elapsed.value
             && Target(t, interactive) >= 0.25
    ensures MIN_BUDGET_MS <= WorkBudget(d, t, interactive) <= WorkBudget(c, t, interactive) <= MAX_BUDGET_MS
  {
    ScaledFacts(Target(t, interactive), c.elapsed.value, d.elapsed.value);
  }

  /** So does a batch: between one item and the profile's limit, and never larger on a costlier channel. */
  lemma BatchShrinks(c: Channel, d: Channel, t: Tuning, interactive: bool)
    requires c.perItem.Some? && d.perItem.Some? && 0.0 < c.perItem.value <= d.perItem.value
    requires Target(t, interactive) >= 0.0 && t.maxBatch >= 1
    ensures 1 <= BatchLimit(d, t, interactive) <= BatchLimit(c, t, interactive) <= t.maxBatch
  {
    QuotientShrinks(Target(t, interactive), RMax(c.perItem.value, 0.25), RMax(d.perItem.value, 0.25));
  }

  // ---------------------------------------------------------------- what an average and a budget are

  /** The average is the value where there was none, and otherwise goes a quarter of the way there. */
  predicate GoesAQuarter(before: Option<real>, now: Option<real>, value: real) {
    now.Some? && if before.None? then now.value == value else 4.0 * (now.value - before.value) == value - before.value
  }

  /** An observation moves the averages of elapsed time and of time per item, and that per byte where bytes were moved;
      negative times, counts below one and negative sizes are read as zero, one and zero. */
  lemma ObserveMovesAverages(c: Channel, elapsedMs: real, items: int, bytes: int)
    ensures var r, ms := Observe(c, elapsedMs, items, bytes), if elapsedMs < 0.0 then 0.0 else elapsedMs;
            && GoesAQuarter(c.elapsed, r.elapsed, ms)
            && GoesAQuarter(c.perItem, r.perItem, if items < 1 then ms else ms / items as real)
            && (if bytes > 0 then GoesAQuarter(c.perByte, r.perByte, ms / bytes as real) else r.perByte == c.perByte)
            && r.lastElapsed == ms && r.lastCount == (if items < 1 then 1 else items)
            && r.lastBytes == (if bytes < 0 then 0 else bytes) && r.observations == c.observations + 1
  {
  }

  /** The same callback observed again and again. */
  function Repeated(c: Channel, elapsedMs: real, items: int, bytes: int, times: nat): Channel {
    if times == 0 then c else Observe(Repeated(c, elapsedMs, items, bytes, times - 1), elapsedMs, items, bytes)
  }

  function ThreeQuarters(distance: real, times: nat): real {
    if times == 0 then distance else 0.75 * ThreeQuarters(distance, times - 1)
  }

  /** Under a constant cost the average closes in on it, a quarter of the distance at a time. */
  lemma {:induction false} ConstantCostIsApproached(c: Channel, elapsedMs: real, items: int, bytes: int, times: nat)
    requires c.elapsed.Some? && elapsedMs >= 0.0
    ensures var r := Repeated(c, elapsedMs, items, bytes, times);
            r.elapsed.Some? && r.elapsed.value - elapsedMs == ThreeQuarters(c.elapsed.value - elapsedMs, times)
  {
    if times > 0 { ConstantCostIsApproached(c, elapsedMs, items, bytes, times - 1); }
  }

  function Cost(average: real): real { RMax(average, 0.25) }

  lemma ScaledMeans(target: real, average: real)
    ensures Scaled(target, average) * Cost(average) == target * target
  {
    assert (target / RMax(average, 0.25)) * RMax(average, 0.25) == target;
  }

  /** The budget and the average balance about the target: their product is its square, within two and twelve
      milliseconds; without an average the budget is the target, within the same bounds. */
  lemma BudgetBalances(c: Channel, t: Tuning, interactive: bool)
    ensures var target, budget := if interactive then t.targetInteractiveMs else t.targetIdleMs,
                                  WorkBudget(c, t, interactive);
            && 2.0 <= budget <= 12.0
            && if c.elapsed.None? || c.elapsed.value <= 0.0
               then budget == target || (budget == 2.0 && target < 2.0) || (budget == 12.0 && target > 12.0)
               else
                 var product, square := budget * Cost(c.elapsed.value), target * target;
                 product == square || (budget == 2.0 && product > square) || (budget == 12.0 && product < square)
  {
    if !(c.elapsed.None? || c.elapsed.value <= 0.0) {
      var target, cost := Target(t, interactive), Cost(c.elapsed.value);
      var scaled := Scaled(target, c.elapsed.value);
      ScaledMeans(target, c.elapsed.value);
      if scaled < 2.0 { var p := Product(2.0 - scaled, cost); }
      if scaled > 12.0 { var p := Product(scaled - 12.0, cost); }
    }
  }

  /** A batch is as many items as fit the target at the average cost of one, at least one and at most the profile's
      limit; without an average it is that limit. */
  lemma BatchIsTheMostThatFit(c: Channel, t: Tuning, interactive: bool, n: int)
    requires t.maxBatch >= 1
    ensures var target := if interactive then t.targetInteractiveMs else t.targetIdleMs;
            var batch := BatchLimit(c, t, interactive);
            if c.perItem.None? || c.perItem.value <= 0.0 then batch == t.maxBatch
            else
              && 1 <= batch <= t.maxBatch
              && (batch > 1 ==> batch as real * Cost(c.perItem.value) <= target)
              && (n <= t.maxBatch && n as real * Cost(c.perItem.value) <= target ==> n <= batch)
  {
    if !(c.perItem.None? || c.perItem.value <= 0.0) {
      var target, cost, batch := Target(t, interactive), Cost(c.perItem.value), BatchLimit(c, t, interactive);
      var fit := target / cost;
      assert fit * cost == target;
      if batch > 1 { Scale(cost, batch as real, fit); }
      if n as real * cost <= target && n as real > fit { var p := Product(n as real - fit, cost); }
    }
  }

  /** In every profile work during interaction aims at half the time. */
  lemma InteractionHalvesTheTarget(p: Profile)
    ensures 2.0 * TuningOf(p).targetInteractiveMs == TuningOf(p).targetIdleMs
    ensures TuningOf(Conservative).targetIdleMs <= TuningOf(p).targetIdleMs <= TuningOf(Aggressive).targetIdleMs
    ensures TuningOf(Conservative).maxBatch <= TuningOf(p).maxBatch <= TuningOf(Aggressive).maxBatch
  {
  }
}
