/** The relaxed objective of the cohort search is convex, so the bisection brackets a least point of it. */
module RelaxedObjective {
  import opened Prelude
  import opened RealFacts
  import opened LatencyPrice
  import opened CohortChoice

  // ---------------------------------------------------------------- chords

  /** Between the ends of a chord, `right` from the one and `left` from the other, the curve is no higher. */
  predicate UnderChord(right: real, left: real, gx: real, gy: real, gz: real) {
    Charged(right + left, gy) <= Charged(right, gx) + Charged(left, gz)
  }

  lemma ChordsAdd(right: real, left: real, ax: real, ay: real, az: real, bx: real, by': real, bz: real)
    requires UnderChord(right, left, ax, ay, az) && UnderChord(right, left, bx, by', bz)
    ensures UnderChord(right, left, ax + bx, ay + by', az + bz)
  {
  }

  lemma ChordScales(right: real, left: real, c: real, gx: real, gy: real, gz: real)
    requires c >= 0.0 && UnderChord(right, left, gx, gy, gz)
    ensures UnderChord(right, left, Charged(c, gx), Charged(c, gy), Charged(c, gz))
  {
    Scale(c, Charged(right + left, gy), Charged(right, gx) + Charged(left, gz));
  }

  lemma ChordOfConstant(right: real, left: real, c: real)
    ensures UnderChord(right, left, c, c, c)
  {
  }

  /** The curve is no lower than a line of slope `c` through its value `here`, at `away` from there. */
  predicate Supports(c: real, away: real, here: real, there: real) { there >= here + Charged(c, away) }

  /** A curve above a line it meets at the middle point is under the chord there. */
  lemma ChordOfSupport(x: real, y: real, z: real, c: real, gx: real, gy: real, gz: real)
    requires x <= y <= z && Supports(c, x - y, gy, gx) && Supports(c, z - y, gy, gz)
    ensures UnderChord(z - y, y - x, gx, gy, gz)
  {
    Scale(z - y, gy + c * (x - y), gx);
    Scale(y - x, gy + c * (z - y), gz);
    assert (z - y) * (c * (x - y)) + (y - x) * (c * (z - y)) == 0.0;
  }

  // ---------------------------------------------------------------- the parts of the objective

  /** The squared positive part, shared out. */
  function Over(s: real, x: real): real { Ratio(Hinge(s), x) }

  /** What `enclosing` adds to the squared positive part. */
  function Rise(s: real, enclosing: real): real { Hinge(s + enclosing) - Hinge(s) }

  lemma OverAbove(s: real, x: real, t: real, tt: real)
    requires x > 0.0 && t >= 0.0 && tt == t * t
    ensures Over(s, x) >= 2.0 * (t * s) - tt * x
  {
    var h, v := RMax(0.0, s), Over(s, x);
    assert v * x == h * h;
    var square := Square(h - t * x);
    assert square == x * (v - 2.0 * (t * h) + tt * x);
    if v < 2.0 * (t * h) - tt * x { var p := Product(x, 2.0 * (t * h) - tt * x - v); }
    Scale(t, s, h);
  }

  predicate OverTouches(s: real, x: real, t: real, tt: real) {
    t >= 0.0 && tt == t * t && Over(s, x) == 2.0 * (t * s) - tt * x
  }

  lemma OverMeets(s: real, x: real) returns (t: real, tt: real)
    requires x > 0.0
    ensures OverTouches(s, x, t, tt)
  {
    var h := RMax(0.0, s);
    t := h / x;
    tt := t * t;
    assert t * x == h;
    if t < 0.0 { var p := Product(-t, x); }
    assert tt * x == t * h;
    assert Over(s, x) * x == h * h == (t * h) * x;
    SameQuotient(Over(s, x), t * h, x);
    if s <= 0.0 { assert t * x == 0.0; SameQuotient(t, 0.0, x); }
  }

  lemma SameQuotient(a: real, b: real, x: real)
    requires x > 0.0 && a * x == b * x
    ensures a == b
  {
    if a < b { var p := Product(b - a, x); }
    if b < a { var p := Product(a - b, x); }
  }

  /** A line of slope `m`, `d` further on. */
  function Along(s: real, m: real, d: real): real { s + m * d }

  function TangentSlope(t: real, tt: real, m: real): real { 2.0 * (t * m) - tt }

  /** Both tangents below are `2t` times the line, less a multiple of the place; this is how they move. */
  lemma LineMoves(t: real, tt: real, m: real, s: real, d: real)
    ensures 2.0 * (t * Along(s, m, d)) - tt * d == 2.0 * (t * s) + Charged(TangentSlope(t, tt, m), d)
  {
    assert t * (s + m * d) == t * s + (t * m) * d;
    assert (2.0 * (t * m) - tt) * d == 2.0 * ((t * m) * d) - tt * d;
  }

  lemma OverTangent(x: real, y: real, m: real, s: real, t: real, tt: real)
    requires x > 0.0 && OverTouches(s, y, t, tt)
    ensures Supports(TangentSlope(t, tt, m), x - y, Over(s, y), Over(Along(s, m, x - y), x))
  {
    OverAbove(Along(s, m, x - y), x, t, tt);
    LineMoves(t, tt, m, s, x - y);
    assert tt * (x - y) == tt * x - tt * y;
  }

  /** A squared positive part of a line, shared out over `x`, is under its chords. */
  lemma OverIsConvex(x: real, y: real, z: real, m: real, s: real)
    requires 0.0 < x <= y <= z
    ensures UnderChord(z - y, y - x, Over(Along(s, m, x - y), x), Over(s, y), Over(Along(s, m, z - y), z))
  {
    var t, tt := OverMeets(s, y);
    OverTangent(x, y, m, s, t, tt);
    OverTangent(z, y, m, s, t, tt);
    ChordOfSupport(x, y, z, TangentSlope(t, tt, m),
                   Over(Along(s, m, x - y), x), Over(s, y), Over(Along(s, m, z - y), z));
  }

  lemma RiseAbove(s: real, enclosing: real, t: real, tt: real)
    requires 0.0 <= t <= enclosing && tt == t * t
    ensures Rise(s, enclosing) >= 2.0 * (t * (s + enclosing)) - tt
  {
    var top := s + enclosing;
    if top <= 0.0 {
      HingeBelow(top);
      HingeBelow(s);
      var p := Product(t, -top);
      var q := Square(t);
    } else if s <= 0.0 {
      HingeBelow(s);
      var q := Square(top - t);
    } else {
      var q := Product(enclosing - t, 2.0 * top - enclosing - t);
      assert Rise(s, enclosing) == 2.0 * (enclosing * top) - enclosing * enclosing;
    }
  }

  predicate RiseTouches(s: real, enclosing: real, t: real, tt: real) {
    0.0 <= t <= enclosing && tt == t * t && Rise(s, enclosing) == 2.0 * (t * (s + enclosing)) - tt
  }

  lemma RiseMeets(s: real, enclosing: real) returns (t: real, tt: real)
    requires enclosing >= 0.0
    ensures RiseTouches(s, enclosing, t, tt)
  {
    var top := s + enclosing;
    t := RMin(enclosing, RMax(0.0, top));
    tt := t * t;
    if top <= 0.0 {
      HingeBelow(top);
      HingeBelow(s);
    } else if s <= 0.0 {
      HingeBelow(s);
    } else {
      assert Rise(s, enclosing) == 2.0 * (enclosing * top) - enclosing * enclosing;
    }
  }

  lemma RiseTangent(m: real, s: real, d: real, enclosing: real, t: real, tt: real)
    requires RiseTouches(s, enclosing, t, tt)
    ensures Supports(TangentSlope(t, 0.0, m), d, Rise(s, enclosing), Rise(Along(s, m, d), enclosing))
  {
    RiseAbove(Along(s, m, d), enclosing, t, tt);
    LineMoves(t, 0.0, m, s + enclosing, d);
    assert Along(s, m, d) + enclosing == Along(s + enclosing, m, d);
  }

  /** What a fixed stretch adds to the squared positive part of a line is under its chords. */
  lemma RiseIsConvex(x: real, y: real, z: real, m: real, s: real, enclosing: real)
    requires x <= y <= z && enclosing >= 0.0
    ensures UnderChord(z - y, y - x, Rise(Along(s, m, x - y), enclosing), Rise(s, enclosing),
                       Rise(Along(s, m, z - y), enclosing))
  {
    var t, tt := RiseMeets(s, enclosing);
    RiseTangent(m, s, x - y, enclosing, t, tt);
    RiseTangent(m, s, z - y, enclosing, t, tt);
    ChordOfSupport(x, y, z, TangentSlope(t, 0.0, m), Rise(Along(s, m, x - y), enclosing), Rise(s, enclosing),
                   Rise(Along(s, m, z - y), enclosing));
  }

  // ---------------------------------------------------------------- the objective in its parts

  function Fixed(p: Problem): real { p.fixedMs + RMax(0.0, p.residualMs) }

  function Marginal(p: Problem): real { RMax(0.0, p.marginalMs) }

  /** The two hinges of the price, weighed. */
  function Weighed(gentle: real, strong: real): real { 0.01 * gentle + 0.49 * strong }

  /** How far the risked time lies past the knee, and past the steep point. */
  function PastKnee(p: Problem, items: real): real { Risked(p, items) - Knee(Knees(p).0) }

  function PastSteep(p: Problem, items: real): real { Risked(p, items) - Steep(Knees(p).0, Knees(p).1) }

  /** What each item of a chunk of this size pays. */
  function Share(p: Problem, x: real): real {
    Charged(Fixed(p), Over(1.0, x)) + Marginal(p)
    + Charged(Weight(p), Weighed(Over(PastKnee(p, x), x), Over(PastSteep(p, x), x)))
  }

  function Stretch(p: Problem, x: real): real {
    var enclosing := RMax(0.0, p.callbackMs);
    Charged(Weight(p), Weighed(Rise(PastKnee(p, x), enclosing), Rise(PastSteep(p, x), enclosing)))
  }

  lemma RatioIsProduct(a: real, x: real, v: real)
    requires x > 0.0 && v * x == 1.0
    ensures Ratio(a, x) == Charged(a, v)
  {
    assert Ratio(a, x) * x == a == a * (v * x) == (a * v) * x;
    SameQuotient(Ratio(a, x), a * v, x);
  }

  lemma Shared(r: real, f: real, m: real, w: real, price: real, x: real, v: real)
    requires v * x == 1.0
    ensures Charged(Charged(r, v), f + Charged(m, x) + Charged(w, price))
            == Charged(r, Charged(f, v) + m + Charged(w, Charged(price, v)))
  {
    assert v * (m * x) == m * (v * x);
    assert v * (w * price) == w * (price * v);
    assert v * (f + m * x + w * price) == f * v + m + w * (price * v);
    assert (r * v) * (f + m * x + w * price) == r * (v * (f + m * x + w * price));
  }

  lemma WeighedShared(gentle: real, strong: real, v: real)
    ensures Weighed(Charged(gentle, v), Charged(strong, v)) == Charged(Weighed(gentle, strong), v)
  {
  }

  lemma PriceIsWeighed(p: Problem, x: real)
    ensures ChunkPrice(p)(Risked(p, x)) == Weighed(Hinge(PastKnee(p, x)), Hinge(PastSteep(p, x)))
  {
    PriceIsTwoHinges(Risked(p, x), Knees(p).0, Knees(p).1);
  }

  lemma OneShared(x: real, v: real)
    requires x > 0.0 && v * x == 1.0
    ensures Over(1.0, x) == v
  {
    RatioIsProduct(1.0, x, v);
  }

  lemma ShareIs(p: Problem, x: real, v: real)
    requires x > 0.0 && v * x == 1.0
    ensures Share(p, x) ==
            Charged(Fixed(p), v) + Marginal(p) + Charged(Weight(p), Charged(ChunkPrice(p)(Risked(p, x)), v))
  {
    RatioIsProduct(Hinge(PastKnee(p, x)), x, v);
    RatioIsProduct(Hinge(PastSteep(p, x)), x, v);
    OneShared(x, v);
    PriceIsWeighed(p, x);
    WeighedShared(Hinge(PastKnee(p, x)), Hinge(PastSteep(p, x)), v);
  }

  lemma FillIsShared(p: Problem, x: real)
    requires x >= 1.0
    ensures Charged(Ratio(Remaining(p) as real, x), PerChunk(p, ChunkPrice(p), Risked(p, x)))
            == Charged(Remaining(p) as real, Share(p, x))
  {
    var v := 1.0 / x;
    RatioIsProduct(Remaining(p) as real, x, v);
    ShareIs(p, x, v);
    Shared(Remaining(p) as real, Fixed(p), Marginal(p), Weight(p), ChunkPrice(p)(Risked(p, x)), x, v);
  }

  lemma SurchargeIsStretch(p: Problem, x: real)
    ensures Surcharge(ChunkPrice(p), Weight(p), p.callbackMs, Risked(p, x)) == Stretch(p, x)
  {
    var enclosing, risked := RMax(0.0, p.callbackMs), Risked(p, x);
    PriceIsTwoHinges(risked, Knees(p).0, Knees(p).1);
    PriceIsTwoHinges(enclosing + risked, Knees(p).0, Knees(p).1);
    assert enclosing + risked - Knee(Knees(p).0) == PastKnee(p, x) + enclosing;
    assert enclosing + risked - Steep(Knees(p).0, Knees(p).1) == PastSteep(p, x) + enclosing;
  }

  lemma RelaxedInParts(p: Problem, x: real)
    requires x >= 1.0
    ensures Relaxed(p, x) == Charged(Remaining(p) as real, Share(p, x)) + Stretch(p, x) + Extrapolation(p, x)
  {
    FillIsShared(p, x);
    SurchargeIsStretch(p, x);
  }

  // ---------------------------------------------------------------- convexity

  lemma RiskedIsStraight(p: Problem, x: real, y: real)
    ensures PastKnee(p, x) == Along(PastKnee(p, y), Marginal(p), x - y)
    ensures PastSteep(p, x) == Along(PastSteep(p, y), Marginal(p), x - y)
  {
    assert Marginal(p) * (x - y) == Marginal(p) * x - Marginal(p) * y;
  }

  lemma WeighedUnderChord(right: real, left: real, ax: real, ay: real, az: real, bx: real, by': real, bz: real)
    requires UnderChord(right, left, ax, ay, az) && UnderChord(right, left, bx, by', bz)
    ensures UnderChord(right, left, Weighed(ax, bx), Weighed(ay, by'), Weighed(az, bz))
  {
    ChordScales(right, left, 0.01, ax, ay, az);
    ChordScales(right, left, 0.49, bx, by', bz);
    ChordsAdd(right, left, 0.01 * ax, 0.01 * ay, 0.01 * az, 0.49 * bx, 0.49 * by', 0.49 * bz);
  }

  lemma ShareIsConvex(p: Problem, x: real, y: real, z: real)
    requires Fixed(p) >= 0.0 && 1.0 <= x <= y <= z
    ensures UnderChord(z - y, y - x, Share(p, x), Share(p, y), Share(p, z))
  {
    var a, b := z - y, y - x;
    RiskedIsStraight(p, x, y);
    RiskedIsStraight(p, z, y);
    OverIsConvex(x, y, z, 0.0, 1.0);
    assert Along(1.0, 0.0, x - y) == 1.0 && Along(1.0, 0.0, z - y) == 1.0;
    ChordScales(a, b, Fixed(p), Over(1.0, x), Over(1.0, y), Over(1.0, z));
    OverIsConvex(x, y, z, Marginal(p), PastKnee(p, y));
    OverIsConvex(x, y, z, Marginal(p), PastSteep(p, y));
    WeighedUnderChord(a, b, Over(PastKnee(p, x), x), Over(PastKnee(p, y), y), Over(PastKnee(p, z), z),
                      Over(PastSteep(p, x), x), Over(PastSteep(p, y), y), Over(PastSteep(p, z), z));
    var fx, fy, fz := Charged(Fixed(p), Over(1.0, x)), Charged(Fixed(p), Over(1.0, y)), Charged(Fixed(p), Over(1.0, z));
    var wx := Weighed(Over(PastKnee(p, x), x), Over(PastSteep(p, x), x));
    var wy := Weighed(Over(PastKnee(p, y), y), Over(PastSteep(p, y), y));
    var wz := Weighed(Over(PastKnee(p, z), z), Over(PastSteep(p, z), z));
    ChordScales(a, b, Weight(p), wx, wy, wz);
    ChordOfConstant(a, b, Marginal(p));
    ChordsAdd(a, b, fx, fy, fz, Marginal(p), Marginal(p), Marginal(p));
    ChordsAdd(a, b, fx + Marginal(p), fy + Marginal(p), fz + Marginal(p),
              Charged(Weight(p), wx), Charged(Weight(p), wy), Charged(Weight(p), wz));
  }

  lemma StretchIsConvex(p: Problem, x: real, y: real, z: real)
    requires x <= y <= z
    ensures UnderChord(z - y, y - x, Stretch(p, x), Stretch(p, y), Stretch(p, z))
  {
    var enclosing := RMax(0.0, p.callbackMs);
    RiskedIsStraight(p, x, y);
    RiskedIsStraight(p, z, y);
    RiseIsConvex(x, y, z, Marginal(p), PastKnee(p, y), enclosing);
    RiseIsConvex(x, y, z, Marginal(p), PastSteep(p, y), enclosing);
    var kx, ky, kz := Rise(PastKnee(p, x), enclosing), Rise(PastKnee(p, y), enclosing), Rise(PastKnee(p, z), enclosing);
    var sx, sy := Rise(PastSteep(p, x), enclosing), Rise(PastSteep(p, y), enclosing);
    var sz := Rise(PastSteep(p, z), enclosing);
    WeighedUnderChord(z - y, y - x, kx, ky, kz, sx, sy, sz);
    ChordScales(z - y, y - x, Weight(p), Weighed(kx, sx), Weighed(ky, sy), Weighed(kz, sz));
  }

  /** The price of stepping beyond the evidence is under its chords, and its weight is no discount. */
  ghost predicate EvidenceIsConvex(p: Problem) {
    && p.confidence >= 0.0
    && forall x, y, z {:trigger p.evidence(x), p.evidence(y), p.evidence(z)} ::
         x <= y <= z ==> UnderChord(z - y, y - x, p.evidence(x), p.evidence(y), p.evidence(z))
  }

  /** A curve under its chords over a scale is so over what is scaled. */
  lemma ScaledChord(right: real, left: real, c: real, a: real, b: real, gx: real, gy: real, gz: real)
    requires c > 0.0 && a == c * right && b == c * left && UnderChord(a, b, gx, gy, gz)
    ensures UnderChord(right, left, gx, gy, gz)
  {
    var high, low := (right + left) * gy, right * gx + left * gz;
    assert (a + b) * gy == c * high by { assert a + b == c * (right + left); }
    assert a * gx == c * (right * gx) && b * gz == c * (left * gz);
    assert c * high <= c * low;
    if high > low { var p := Product(c, high - low); }
  }

  lemma EvidenceChord(p: Problem, x: real, y: real, z: real)
    requires EvidenceIsConvex(p) && x <= y <= z
    ensures UnderChord(z - y, y - x, p.evidence(x), p.evidence(y), p.evidence(z))
  {
  }

  lemma EvidenceUnderChord(p: Problem, c: real, x: real, y: real, z: real, rx: real, ry: real, rz: real)
    requires EvidenceIsConvex(p) && c > 0.0 && x <= y <= z && rx == c * x && ry == c * y && rz == c * z
    ensures UnderChord(z - y, y - x, Charged(p.confidence, p.evidence(rx)), Charged(p.confidence, p.evidence(ry)),
                       Charged(p.confidence, p.evidence(rz)))
  {
    Scale(c, x, y);
    Scale(c, y, z);
    EvidenceChord(p, rx, ry, rz);
    assert rz - ry == c * (z - y) && ry - rx == c * (y - x);
    ScaledChord(z - y, y - x, c, rz - ry, ry - rx, p.evidence(rx), p.evidence(ry), p.evidence(rz));
    ChordScales(z - y, y - x, p.confidence, p.evidence(rx), p.evidence(ry), p.evidence(rz));
  }

  lemma RatioScales(a: real, d: real, c: real, x: real)
    requires d > 0.0 && c == a / d
    ensures Ratio(a * x, d) == c * x
  {
    assert Ratio(a * x, d) * d == a * x == (c * d) * x == (c * x) * d;
    SameQuotient(Ratio(a * x, d), c * x, d);
  }

  lemma RatioIsPositive(a: real, d: real) returns (c: real)
    requires a > 0.0 && d > 0.0
    ensures c == a / d && c > 0.0
  {
    c := a / d;
    assert c * d == a;
    if c <= 0.0 { var q := Product(-c, d); }
  }

  function ItemPrice(p: Problem, x: real): real { Charged(p.confidence, p.evidence(ItemRatio(p, x))) }

  function BytePrice(p: Problem, x: real): real { Charged(p.confidence, p.evidence(ByteRatio(p, x))) }

  lemma ItemPriceIsConvex(p: Problem, x: real, y: real, z: real)
    requires EvidenceIsConvex(p) && x <= y <= z
    ensures UnderChord(z - y, y - x, ItemPrice(p, x), ItemPrice(p, y), ItemPrice(p, z))
  {
    var d := RMax(1.0, p.observedItems as real * RMax(1.0, p.exploration));
    var c := RatioIsPositive(1.0, d);
    RatioScales(1.0, d, c, x);
    RatioScales(1.0, d, c, y);
    RatioScales(1.0, d, c, z);
    EvidenceUnderChord(p, c, x, y, z, ItemRatio(p, x), ItemRatio(p, y), ItemRatio(p, z));
  }

  lemma BytePriceIsConvex(p: Problem, x: real, y: real, z: real)
    requires EvidenceIsConvex(p) && x <= y <= z && p.observedBytes > 0 && p.bytesPerItem > 0.0
    ensures UnderChord(z - y, y - x, BytePrice(p, x), BytePrice(p, y), BytePrice(p, z))
  {
    var d := p.observedBytes as real;
    var c := RatioIsPositive(p.bytesPerItem, d);
    RatioScales(p.bytesPerItem, d, c, x);
    RatioScales(p.bytesPerItem, d, c, y);
    RatioScales(p.bytesPerItem, d, c, z);
    EvidenceUnderChord(p, c, x, y, z, ByteRatio(p, x), ByteRatio(p, y), ByteRatio(p, z));
  }

  lemma ExtrapolationIsConvex(p: Problem, x: real, y: real, z: real)
    requires EvidenceIsConvex(p) && x <= y <= z
    ensures UnderChord(z - y, y - x, Extrapolation(p, x), Extrapolation(p, y), Extrapolation(p, z))
  {
    ItemPriceIsConvex(p, x, y, z);
    if p.observedBytes > 0 && p.bytesPerItem > 0.0 {
      BytePriceIsConvex(p, x, y, z);
      ChordsAdd(z - y, y - x, ItemPrice(p, x), ItemPrice(p, y), ItemPrice(p, z),
                BytePrice(p, x), BytePrice(p, y), BytePrice(p, z));
    }
  }

  /** For a non-negative fixed cost and a convex price of stepping beyond the evidence, the relaxed objective lies
      under its chords over the sizes from one item on. */
  lemma RelaxedIsConvex(p: Problem, x: real, y: real, z: real)
    requires Fixed(p) >= 0.0 && EvidenceIsConvex(p) && 1.0 <= x <= y <= z
    ensures UnderChord(z - y, y - x, Relaxed(p, x), Relaxed(p, y), Relaxed(p, z))
  {
    var a, b, r := z - y, y - x, Remaining(p) as real;
    RelaxedInParts(p, x);
    RelaxedInParts(p, y);
    RelaxedInParts(p, z);
    ShareIsConvex(p, x, y, z);
    StretchIsConvex(p, x, y, z);
    ExtrapolationIsConvex(p, x, y, z);
    ChordScales(a, b, r, Share(p, x), Share(p, y), Share(p, z));
    var sx, sy, sz := Charged(r, Share(p, x)), Charged(r, Share(p, y)), Charged(r, Share(p, z));
    ChordsAdd(a, b, sx, sy, sz, Stretch(p, x), Stretch(p, y), Stretch(p, z));
    ChordsAdd(a, b, sx + Stretch(p, x), sy + Stretch(p, y), sz + Stretch(p, z),
              Extrapolation(p, x), Extrapolation(p, y), Extrapolation(p, z));
  }

  // ---------------------------------------------------------------- where the bisection ends

  /** The steps of the central difference, kept inside the range of sizes. */
  function Below(x: real): real { RMax(1.0, x - RMax(0.0001, x * 0.0001)) }

  function Above(p: Problem, x: real): real { RMin(Remaining(p) as real, x + RMax(0.0001, x * 0.0001)) }

  lemma Outweighs(w: real, v: real, g: real, g': real)
    requires w > 0.0 && (w + v) * g <= w * g' + v * g
    ensures g <= g'
  {
    assert (w + v) * g == w * g + v * g;
    if g > g' { var p := Product(w, g - g'); }
  }

  lemma ChordFalls(a: real, b: real, y: real, ga: real, gb: real, gy: real)
    requires y < a < b && gb <= ga && UnderChord(b - a, a - y, gy, ga, gb)
    ensures ga <= gy
  {
    Scale(a - y, gb, ga);
    Outweighs(b - a, a - y, ga, gy);
  }

  lemma ChordRises(a: real, b: real, y: real, ga: real, gb: real, gy: real)
    requires a < b < y && ga <= gb && UnderChord(y - b, b - a, ga, gb, gy)
    ensures gb <= gy
  {
    Scale(y - b, ga, gb);
    Outweighs(b - a, y - b, gb, gy);
  }

  lemma QuotientSign(d: real, w: real, q: real)
    requires w > 0.0 && q == d / w
    ensures (q < 0.0 <==> d < 0.0) && (q > 0.0 <==> d > 0.0)
  {
    assert q * w == d;
    if q < 0.0 { var p := Product(-q, w); }
    if q > 0.0 { var p := Product(q, w); }
  }

  ghost predicate Legal(p: Problem, x: real) { 1.0 <= x <= Remaining(p) as real }

  /** Where the slope is not upwards, nothing further left is better than the left of its two points. */
  lemma FallingRulesOutLeft(p: Problem, at: real, y: real)
    requires Fixed(p) >= 0.0 && EvidenceIsConvex(p) && Legal(p, at) && 1.0 <= y < Below(at)
    requires Derivative(p, at) <= 0.0
    ensures Relaxed(p, Below(at)) <= Relaxed(p, y)
  {
    var a, b := Below(at), Above(p, at);
    QuotientSign(Relaxed(p, b) - Relaxed(p, a), b - a, Derivative(p, at));
    RelaxedIsConvex(p, y, a, b);
    ChordFalls(a, b, y, Relaxed(p, a), Relaxed(p, b), Relaxed(p, y));
  }

  /** Where the slope is not downwards, nothing further right is better than the right of its two points. */
  lemma RisingRulesOutRight(p: Problem, at: real, y: real)
    requires Fixed(p) >= 0.0 && EvidenceIsConvex(p) && Legal(p, at) && Above(p, at) < y <= Remaining(p) as real
    requires Derivative(p, at) >= 0.0
    ensures Relaxed(p, Above(p, at)) <= Relaxed(p, y)
  {
    var a, b := Below(at), Above(p, at);
    QuotientSign(Relaxed(p, b) - Relaxed(p, a), b - a, Derivative(p, at));
    RelaxedIsConvex(p, a, b, y);
    ChordRises(a, b, y, Relaxed(p, a), Relaxed(p, b), Relaxed(p, y));
  }

  /** Every size is matched or beaten by one between the two. */
  ghost predicate HoldsTheLeast(p: Problem, low: real, high: real) {
    forall y {:trigger Relaxed(p, y)} :: Legal(p, y) ==>
      exists x :: low <= x <= high && Relaxed(p, x) <= Relaxed(p, y)
  }

  lemma BothSidesRuledOut(p: Problem, left: real, right: real)
    requires Fixed(p) >= 0.0 && EvidenceIsConvex(p) && Legal(p, left) && Legal(p, right) && left <= right
    requires left == 1.0 || Derivative(p, left) <= 0.0
    requires right == Remaining(p) as real || Derivative(p, right) >= 0.0
    ensures HoldsTheLeast(p, Below(left), Above(p, right))
  {
    forall y {:trigger Relaxed(p, y)} | Legal(p, y)
      ensures exists x :: Below(left) <= x <= Above(p, right) && Relaxed(p, x) <= Relaxed(p, y)
    {
      if y < Below(left) {
        FallingRulesOutLeft(p, left, y);
      } else if y > Above(p, right) {
        RisingRulesOutRight(p, right, y);
      }
    }
  }

  lemma StepIsSmall(p: Problem, x: real)
    requires Legal(p, x)
    ensures 0.0 <= x - Below(x) <= 0.0001 * Remaining(p) as real
    ensures 0.0 <= Above(p, x) - x <= 0.0001 * Remaining(p) as real
  {
  }

  /** The last bracket of the bisection, or the end it chose. */
  lemma LastBracket(p: Problem, root: real) returns (left: real, right: real)
    requires Knot(p, root) && Legal(p, root)
    ensures Legal(p, left) && Legal(p, right) && left <= root <= right
    ensures right - left <= Halved(Remaining(p) as real - 1.0, BISECTIONS)
    ensures left == 1.0 || Derivative(p, left) <= 0.0
    ensures right == Remaining(p) as real || Derivative(p, right) >= 0.0
  {
    left, right := root, root;
    HalvedIsNotNegative(Remaining(p) as real - 1.0, BISECTIONS);
    if !(root == 1.0 && Derivative(p, 1.0) >= 0.0) && !(root == Remaining(p) as real && Derivative(p, root) <= 0.0) {
      left, right :| Between(p, root, left, right) && root == 0.5 * (left + right);
    }
  }

  /** The knee lies where the relaxed objective is least: around it is a stretch, no longer than the bisection's last
      bracket and one step of the slope at each end, in which every size is matched or beaten. */
  lemma KneeIsNearTheLeast(p: Problem, root: real) returns (low: real, high: real)
    requires Fixed(p) >= 0.0 && EvidenceIsConvex(p) && Knot(p, root) && Legal(p, root)
    ensures 1.0 <= low <= root <= high <= Remaining(p) as real && HoldsTheLeast(p, low, high)
    ensures high - low <= Halved(Remaining(p) as real - 1.0, BISECTIONS) + 0.0002 * Remaining(p) as real
  {
    var left, right := LastBracket(p, root);
    StepIsSmall(p, left);
    StepIsSmall(p, right);
    BothSidesRuledOut(p, left, right);
    low, high := Below(left), Above(p, right);
  }

  lemma HalvedIsNotNegative(width: real, times: nat)
    requires width >= 0.0
    ensures Halved(width, times) >= 0.0
  {
  }
}
