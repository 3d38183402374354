/** The responsiveness price of a stretch of work: free up to a knee, gently quadratic up to a steep
    point, strongly quadratic beyond; and the surcharge for work that runs inside a callback. */
module LatencyPrice {
  import opened Prelude
  import opened RealFacts

  const KNEE_MS: real := 18.0
  const STEEP_MS: real := 45.0

  function Knee(knee: real): real { RMax(0.0, knee) }

  function Steep(knee: real, steep: real): real { RMax(Knee(knee) + 1.0, steep) }

  /** The three branches, as the code has them. */
  function Price(elapsedMs: real, kneeMs: real, steepMs: real): real {
    var elapsed, knee, steep := RMax(0.0, elapsedMs), Knee(kneeMs), Steep(kneeMs, steepMs);
    if elapsed <= knee then 0.0
    else if elapsed <= steep then 0.01 * ((elapsed - knee) * (elapsed - knee))
    else
      var atSteep, slope := 0.01 * ((steep - knee) * (steep - knee)), 2.0 * 0.01 * (steep - knee);
      var beyond := elapsed - steep;
      atSteep + slope * beyond + 0.5 * (beyond * beyond)
  }

  /** Knees for a pass that owes the display a frame; none when a frame cannot hold two of the fixed cost. */
  function FrameKnees(frameBudgetMs: real, fixedMs: real, minimumChunkMs: real): Option<(real, real)> {
    var budget := RMax(0.0, frameBudgetMs);
    if budget <= 0.0 || budget < 2.0 * RMax(0.0, fixedMs) then None
    else
      var steep := RMax(budget, minimumChunkMs);
      Some((0.5 * steep, steep))
  }

  /** The knee is the one asked for, from zero on, and the steep point too, from one millisecond past the knee on. */
  lemma KneesAreApart(knee: real, steep: real)
    ensures Knee(knee) == (if knee < 0.0 then 0.0 else knee) && Steep(knee, steep) >= Knee(knee) + 1.0
    ensures Steep(knee, steep) == if steep < Knee(knee) + 1.0 then Knee(knee) + 1.0 else steep
  {
  }

  // ---------------------------------------------------------------- the square of the positive part

  function Hinge(x: real): real { RMax(0.0, x) * RMax(0.0, x) }

  lemma HingeOf(x: real) returns (square: real)
    ensures square == x * x && square >= 0.0 && Hinge(x) == if x > 0.0 then square else 0.0
  {
    square := Square(x);
  }

  /** The square of the positive part lies above each of its tangents, by at most the squared distance. */
  lemma HingeCurve(x: real, y: real, gap: real)
    requires gap == (y - x) * (y - x)
    ensures 0.0 <= Hinge(y) - Hinge(x) - 2.0 * RMax(0.0, x) * (y - x) <= gap
  {
    var qx := HingeOf(x);
    var qy := HingeOf(y);
    var g := Square(y - x);
    var p := Product(x, -y);
    assert gap == qx + 2.0 * p + qy;
    if x > 0.0 {
      assert 2.0 * RMax(0.0, x) * (y - x) == -2.0 * p - 2.0 * qx;
    } else {
      assert 2.0 * RMax(0.0, x) * (y - x) == 0.0;
      var m := Product(-x, y);
      assert m == p;
    }
    if y <= 0.0 && x > 0.0 { assert p >= 0.0; }
  }

  lemma HingeGrows(x: real, y: real)
    requires x <= y
    ensures 0.0 <= Hinge(x) <= Hinge(y)
  {
    var qx := HingeOf(x);
    var qy := HingeOf(y);
    if x > 0.0 {
      var p := Product(y - x, y + x);
      assert p == qy - qx;
    }
  }

  lemma HingeBelow(x: real)
    requires x <= 0.0
    ensures Hinge(x) == 0.0
  {
    assert RMax(0.0, x) == 0.0;
  }

  /** The same step up costs more further out. */
  lemma HingeSteps(x: real, y: real, h: real)
    requires x <= y && h >= 0.0
    ensures Hinge(x + h) - Hinge(x) <= Hinge(y + h) - Hinge(y)
  {
    if x + h <= 0.0 {
      HingeGrows(y, y + h);
      HingeBelow(x);
      HingeBelow(x + h);
    } else if x > 0.0 {
      Scale(h, x, y);
    } else if y > 0.0 {
      var p := Product(h, y);
      var q := Product(-x, h + (x + h));
      assert Hinge(x + h) == h * h - q;
      HingeBelow(x);
    } else {
      HingeGrows(x + h, y + h);
      HingeBelow(x);
      HingeBelow(y);
    }
  }

  // ---------------------------------------------------------------- the price

  /** One formula for all three branches. */
  lemma PriceIsTwoHinges(e: real, knee: real, steep: real)
    ensures Price(e, knee, steep) == 0.01 * Hinge(e - Knee(knee)) + 0.49 * Hinge(e - Steep(knee, steep))
  {
    var k, s := Knee(knee), Steep(knee, steep);
    if e > s {
      assert (e - k) * (e - k) == (s - k) * (s - k) + 2.0 * ((s - k) * (e - s)) + (e - s) * (e - s);
      assert 2.0 * 0.01 * (s - k) * (e - s) == 0.02 * ((s - k) * (e - s));
    }
  }

  /** The two parts of the price, weighed together: `rise` and `tangent` are what each part does from one
      point to the other, and what its tangent does. */
  lemma Weigh(rise: real, tangent: real, rise': real, tangent': real, gap: real)
    requires 0.0 <= rise - tangent <= gap && 0.0 <= rise' - tangent' <= gap
    ensures 0.0 <= (0.01 * rise + 0.49 * rise') - (0.01 * tangent + 0.49 * tangent') <= 0.5 * gap
  {
  }

  lemma PriceRise(e: real, f: real, knee: real, steep: real)
    ensures Price(f, knee, steep) - Price(e, knee, steep) ==
            0.01 * (Hinge(f - Knee(knee)) - Hinge(e - Knee(knee)))
            + 0.49 * (Hinge(f - Steep(knee, steep)) - Hinge(e - Steep(knee, steep)))
  {
    PriceIsTwoHinges(e, knee, steep);
    PriceIsTwoHinges(f, knee, steep);
  }

  /** What the tangent of the squared positive part at `x` does over a step of `d`. */
  function HingeTangent(x: real, d: real): real { 2.0 * RMax(0.0, x) * d }

  /** What the tangent of the price at `e` does over a step of `d`: the same from both sides at both knees. */
  function Tangent(e: real, d: real, knee: real, steep: real): real {
    0.01 * HingeTangent(e - Knee(knee), d) + 0.49 * HingeTangent(e - Steep(knee, steep), d)
  }

  lemma PartRises(e: real, f: real, k: real, gap: real)
    requires gap == (f - e) * (f - e)
    ensures 0.0 <= Hinge(f - k) - Hinge(e - k) - HingeTangent(e - k, f - e) <= gap
  {
    assert (f - k) - (e - k) == f - e;
    HingeCurve(e - k, f - k, gap);
  }

  /** The price lies above every tangent and below every parabola of curvature one, which makes it
      convex and continuous with one slope everywhere, at both knees in particular. */
  lemma PriceIsSmoothAndConvex(e: real, f: real, knee: real, steep: real, gap: real)
    requires gap == (f - e) * (f - e)
    ensures 0.0 <= Price(f, knee, steep) - Price(e, knee, steep) - Tangent(e, f - e, knee, steep) <= 0.5 * gap
  {
    var k, s := Knee(knee), Steep(knee, steep);
    PartRises(e, f, k, gap);
    PartRises(e, f, s, gap);
    PriceRise(e, f, knee, steep);
    Weigh(Hinge(f - k) - Hinge(e - k), HingeTangent(e - k, f - e),
          Hinge(f - s) - Hinge(e - s), HingeTangent(e - s, f - e), gap);
  }

  /** Longer work is never cheaper, and nothing is ever paid back. */
  lemma PriceGrows(e: real, f: real, knee: real, steep: real)
    requires e <= f
    ensures 0.0 <= Price(e, knee, steep) <= Price(f, knee, steep)
  {
    PriceIsTwoHinges(e, knee, steep);
    PriceIsTwoHinges(f, knee, steep);
    HingeGrows(e - Knee(knee), f - Knee(knee));
    HingeGrows(e - Steep(knee, steep), f - Steep(knee, steep));
  }

  /** Moving the knees down never makes the same milliseconds cheaper. */
  lemma LowerKneesCostMore(e: real, knee: real, steep: real, knee': real, steep': real)
    requires knee' <= knee && steep' <= steep
    ensures Price(e, knee, steep) <= Price(e, knee', steep')
  {
    PriceIsTwoHinges(e, knee, steep);
    PriceIsTwoHinges(e, knee', steep');
    HingeGrows(e - Knee(knee), e - Knee(knee'));
    HingeGrows(e - Steep(knee, steep), e - Steep(knee', steep'));
  }

  /** The same extra milliseconds cost more on top of longer work. */
  lemma ExtraCostsMoreLater(e: real, f: real, h: real, knee: real, steep: real)
    requires e <= f && h >= 0.0
    ensures Price(e + h, knee, steep) - Price(e, knee, steep) <= Price(f + h, knee, steep) - Price(f, knee, steep)
  {
    var k, s := Knee(knee), Steep(knee, steep);
    PriceIsTwoHinges(e, knee, steep);
    PriceIsTwoHinges(f, knee, steep);
    PriceIsTwoHinges(e + h, knee, steep);
    PriceIsTwoHinges(f + h, knee, steep);
    assert (e - k) + h == (e + h) - k && (f - k) + h == (f + h) - k;
    assert (e - s) + h == (e + h) - s && (f - s) + h == (f + h) - s;
    HingeSteps(e - k, f - k, h);
    HingeSteps(e - s, f - s, h);
  }

  /** A frame's knees exist exactly when the frame can hold twice the fixed cost; the steep point is then
      no lower than the frame nor the cheapest chunk, so the cheapest chunk pays at most the gentle price. */
  lemma FramePrice(budget: real, fixedMs: real, chunk: real)
    ensures FrameKnees(budget, fixedMs, chunk).Some? <==> budget > 0.0 && budget >= 2.0 * fixedMs
    ensures FrameKnees(budget, fixedMs, chunk).Some? ==>
              var (knee, steep) := FrameKnees(budget, fixedMs, chunk).value;
              && steep >= budget && steep >= chunk && knee == 0.5 * steep
              && Price(chunk, knee, steep) <= 0.01 * (knee * knee)
  {
    if FrameKnees(budget, fixedMs, chunk).Some? {
      var (knee, steep) := FrameKnees(budget, fixedMs, chunk).value;
      PriceIsTwoHinges(chunk, knee, steep);
      HingeGrows(chunk - knee, knee);
      var q := HingeOf(chunk - Steep(knee, steep));
    }
  }

  // ---------------------------------------------------------------- the enclosing callback

  /** What `extra` more milliseconds add to the price of `work`. */
  function Extra(price: real -> real, work: real, extra: real): real { price(work + extra) - price(work) }

  function Charged(weight: real, ms: real): real { weight * ms }

  /** What the first chunk owes, on top of its own price, for the callback it runs in. */
  function Surcharge(price: real -> real, weight: real, enclosing: real, chunk: real): real {
    if RMax(0.0, enclosing) <= 0.0 then 0.0
    else Charged(weight, price(RMax(0.0, enclosing) + chunk) - price(chunk))
  }

  /** Longer work costs no less, and the same extra costs no less on top of longer work. */
  ghost predicate Responsive(price: real -> real) {
    && (forall e, f {:trigger price(e), price(f)} :: e <= f ==> 0.0 <= price(e) <= price(f))
    && (forall e, f, h {:trigger Extra(price, e, h), Extra(price, f, h)} ::
          e <= f && h >= 0.0 ==> Extra(price, e, h) <= Extra(price, f, h))
  }

  /** The price as the search uses it, its knees fixed. */
  function Curve(knee: real, steep: real): real -> real { (e: real) => Price(e, knee, steep) }

  lemma PriceIsResponsive(knee: real, steep: real)
    ensures Responsive(Curve(knee, steep))
  {
    var price := Curve(knee, steep);
    forall e: real, f: real | e <= f ensures 0.0 <= price(e) <= price(f) { PriceGrows(e, f, knee, steep); }
    forall e: real, f: real, h: real | e <= f && h >= 0.0 ensures Extra(price, e, h) <= Extra(price, f, h) {
      ExtraCostsMoreLater(e, f, h, knee, steep);
    }
  }

  lemma ExtraGrows(price: real -> real, a: real, b: real, chunk: real, chunk': real)
    requires Responsive(price) && 0.0 <= a <= b && chunk <= chunk'
    ensures 0.0 <= Extra(price, chunk, a) <= Extra(price, chunk', a) && Extra(price, chunk, a) <= Extra(price, chunk, b)
    ensures Extra(price, chunk, b) - Extra(price, chunk, a) <= Extra(price, chunk', b) - Extra(price, chunk', a)
  {
    assert price(chunk) <= price(chunk + a) <= price(chunk + b);
    assert Extra(price, chunk + a, b - a) <= Extra(price, chunk' + a, b - a);
    assert chunk + a + (b - a) == chunk + b && chunk' + a + (b - a) == chunk' + b;
  }

  lemma ChargedSteps(w: real, x: real, x': real, y: real, y': real)
    requires w >= 0.0 && 0.0 <= x <= y && x <= x' && y - x <= y' - x'
    ensures 0.0 <= Charged(w, x) <= Charged(w, y) && Charged(w, x) <= Charged(w, x')
    ensures Charged(w, y) - Charged(w, x) <= Charged(w, y') - Charged(w, x')
  {
    Scale(w, 0.0, x);
    Scale(w, x, y);
    Scale(w, x, x');
    Scale(w, y - x, y' - x');
    assert w * (y - x) == w * y - w * x && w * (y' - x') == w * y' - w * x';
  }

  /** The surcharge is never negative, grows with the chunk and with the enclosing callback, and what a
      longer enclosing callback adds to it is more for a longer chunk. */
  lemma SurchargeGrows(price: real -> real, weight: real, enclosing: real, longer: real, chunk: real, chunk': real)
    requires Responsive(price) && weight >= 0.0 && enclosing <= longer && chunk <= chunk'
    ensures 0.0 <= Surcharge(price, weight, enclosing, chunk) <= Surcharge(price, weight, enclosing, chunk')
    ensures Surcharge(price, weight, enclosing, chunk) <= Surcharge(price, weight, longer, chunk)
    ensures Surcharge(price, weight, longer, chunk) - Surcharge(price, weight, enclosing, chunk)
            <= Surcharge(price, weight, longer, chunk') - Surcharge(price, weight, enclosing, chunk')
  {
    var a, b := RMax(0.0, enclosing), RMax(0.0, longer);
    ExtraGrows(price, a, b, chunk, chunk');
    ChargedSteps(weight, Extra(price, chunk, a), Extra(price, chunk', a),
                 Extra(price, chunk, b), Extra(price, chunk', b));
  }
}
