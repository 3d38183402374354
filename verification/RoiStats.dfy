/** Statistics of a region gathered chunk by chunk. */
module RoiStats {
  import opened Prelude
  import opened RealFacts

  /** A sample, a complex one with its magnitude; non-finite ones count, and enter nothing else. */
  datatype Sample = NonFinite | Real(x: real) | Complex(re: real, im: real, magnitude: real)

  /** What a sample enters the statistics as: a complex one by its magnitude. */
  function Entered(v: Sample): seq<real> {
    match v
    case NonFinite => []
    case Real(x) => [x]
    case Complex(_, _, magnitude) => [magnitude]
  }

  function Finite(values: seq<Sample>): seq<real> {
    if values == [] then [] else Entered(values[0]) + Finite(values[1..])
  }

  function Sum(s: seq<real>): real { if s == [] then 0.0 else s[0] + Sum(s[1..]) }

  function SumOfSquares(s: seq<real>): real { if s == [] then 0.0 else Squared(s[0]) + SumOfSquares(s[1..]) }

  function Least(s: seq<real>): Option<real> {
    if s == [] then None
    else var rest := Least(s[1..]); if rest.None? then Some(s[0]) else Some(RMin(s[0], rest.value))
  }

  function Greatest(s: seq<real>): Option<real> {
    if s == [] then None
    else var rest := Greatest(s[1..]); if rest.None? then Some(s[0]) else Some(RMax(s[0], rest.value))
  }

  function Concat(chunks: seq<seq<real>>): seq<real> { if chunks == [] then [] else chunks[0] + Concat(chunks[1..]) }

  function MeetLeast(a: Option<real>, b: Option<real>): Option<real> {
    if a.None? then b else if b.None? then a else Some(RMin(a.value, b.value))
  }

  function MeetGreatest(a: Option<real>, b: Option<real>): Option<real> {
    if a.None? then b else if b.None? then a else Some(RMax(a.value, b.value))
  }

  // ---------------------------------------------------------------- every statistic splits over chunks

  lemma {:induction false} FiniteSplits(a: seq<Sample>, b: seq<Sample>)
    ensures Finite(a + b) == Finite(a) + Finite(b)
  {
    if a == [] {
      assert a + b == b;
    } else {
      FiniteSplits(a[1..], b);
      assert (a + b)[1..] == a[1..] + b;
      var head := Entered(a[0]);
      assert head + (Finite(a[1..]) + Finite(b)) == head + Finite(a[1..]) + Finite(b);
    }
  }

  /** With the way they split this determines the finite samples: one each, none for a sample that is not finite. */
  lemma FiniteOfOne(v: Sample)
    ensures Finite([]) == []
    ensures Finite([v]) == match v case NonFinite => [] case Real(x) => [x] case Complex(_, _, magnitude) => [magnitude]
  {
    assert [v][1..] == [];
  }

  lemma {:induction false} SumsSplit(a: seq<real>, b: seq<real>)
    ensures Sum(a + b) == Sum(a) + Sum(b) && SumOfSquares(a + b) == SumOfSquares(a) + SumOfSquares(b)
  {
    if a == [] {
      assert a + b == b;
    } else {
      assert (a + b)[1..] == a[1..] + b;
      SumsSplit(a[1..], b);
    }
  }

  /** With the way they split this determines both sums. */
  lemma SumsOfOne(x: real)
    ensures Sum([x]) == x && SumOfSquares([x]) == x * x && Sum([]) == 0.0 && SumOfSquares([]) == 0.0
  {
    assert [x][1..] == [];
  }

  /** The extremes are samples, and no sample lies beyond them; only without samples is there none. */
  lemma {:induction false} ExtremesMean(s: seq<real>)
    ensures (Least(s).Some? <==> s != []) && (Greatest(s).Some? <==> s != [])
    ensures s != [] ==> Least(s).value in s && forall k :: 0 <= k < |s| ==> Least(s).value <= s[k]
    ensures s != [] ==> Greatest(s).value in s && forall k :: 0 <= k < |s| ==> s[k] <= Greatest(s).value
  {
    if s != [] { ExtremesMean(s[1..]); }
  }

  lemma {:induction false} ExtremesSplit(a: seq<real>, b: seq<real>)
    ensures Least(a + b) == MeetLeast(Least(a), Least(b)) && Greatest(a + b) == MeetGreatest(Greatest(a), Greatest(b))
  {
    if a == [] {
      assert a + b == b;
    } else {
      assert (a + b)[1..] == a[1..] + b;
      ExtremesSplit(a[1..], b);
    }
  }

  lemma {:induction false} ConcatAppends(chunks: seq<seq<real>>, chunk: seq<real>)
    ensures Concat(chunks + [chunk]) == Concat(chunks) + chunk
  {
    if chunks == [] {
      assert chunks + [chunk] == [chunk];
    } else {
      assert (chunks + [chunk])[1..] == chunks[1..] + [chunk];
      ConcatAppends(chunks[1..], chunk);
    }
  }

  // ---------------------------------------------------------------- the accumulator

  class RoiStatsAccumulator {
    const exactLimit: int
    var count: nat
    var finiteCount: nat
    var minimum: Option<real>
    var maximum: Option<real>
    var sum: real
    var sumOfSquares: real
    /** The finite samples, chunk by chunk, or nothing once there were too many. */
    var exact: Option<seq<seq<real>>>

    /** The accumulator holds the statistics of `values`, however they were cut into chunks; the samples
        themselves are held exactly while the limit is not exceeded. */
    ghost predicate Holds(values: seq<Sample>)
      reads this
    {
      var finite := Finite(values);
      && count == |values| && finiteCount == |finite|
      && minimum == Least(finite) && maximum == Greatest(finite)
      && sum == Sum(finite) && sumOfSquares == SumOfSquares(finite)
      && (exact.Some? ==> Concat(exact.value) == finite)
      && (exact.Some? <==> |finite| <= exactLimit || finite == [])
    }

    constructor (exactLimit: int)
      ensures Holds([]) && this.exactLimit == exactLimit
    {
      this.exactLimit := exactLimit;
      count, finiteCount, minimum, maximum, sum, sumOfSquares, exact := 0, 0, None, None, 0.0, 0.0, Some([]);
    }

    method AddValues(chunk: seq<Sample>, ghost before: seq<Sample>)
      requires Holds(before)
      modifies this
      ensures Holds(before + chunk)
    {
      FiniteSplits(before, chunk);
      count := count + |chunk|;
      var finite := Finite(chunk);
      if |finite| == 0 {
        assert Finite(before) + finite == Finite(before);
        return;
      }
      SumsSplit(Finite(before), finite);
      ExtremesSplit(Finite(before), finite);
      finiteCount := finiteCount + |finite|;
      minimum := MeetLeast(minimum, Least(finite));
      maximum := MeetGreatest(maximum, Greatest(finite));
      sum := sum + Sum(finite);
      sumOfSquares := sumOfSquares + SumOfSquares(finite);
      if exact.Some? {
        var retained := |Concat(exact.value)|;
        ConcatAppends(exact.value, finite);
        exact := if retained + |finite| <= exactLimit then Some(exact.value + [finite]) else None;
      }
    }
  }

  // ---------------------------------------------------------------- complex samples

  /** The magnitude is that of the parts. */
  predicate IsMagnitude(v: Sample) {
    v.Complex? ==> v.magnitude >= 0.0 && Squared(v.magnitude) == Squared(v.re) + Squared(v.im)
  }

  /** The squares of all real samples and of all parts of complex ones. */
  function SquaresOfParts(values: seq<Sample>): real {
    if values == [] then 0.0
    else
      (match values[0]
       case NonFinite => 0.0
       case Real(x) => Squared(x)
       case Complex(re, im, _) => Squared(re) + Squared(im))
      + SquaresOfParts(values[1..])
  }

  /** Going through magnitudes, the sum of squares is still the sum over all parts. */
  lemma {:induction false} SquaresArePartSquares(values: seq<Sample>)
    requires forall k :: 0 <= k < |values| ==> IsMagnitude(values[k])
    ensures SumOfSquares(Finite(values)) == SquaresOfParts(values)
  {
    if values != [] {
      SquaresArePartSquares(values[1..]);
      SumsSplit(Entered(values[0]), Finite(values[1..]));
      assert IsMagnitude(values[0]);
      if !values[0].NonFinite? { assert Entered(values[0])[1..] == []; }
    }
  }

  // ---------------------------------------------------------------- the variance

  lemma {:induction false} SquareOfSum(s: seq<real>, n: real, sum: real, squares: real)
    requires n == |s| as real && sum == Sum(s) && squares == SumOfSquares(s)
    ensures squares >= 0.0 && Squared(sum) <= n * squares
  {
    if s != [] {
      var rest := Sum(s[1..]);
      var q := SumOfSquares(s[1..]);
      SquareOfSum(s[1..], n - 1.0, rest, q);
      Grow(s[0], rest, q, n - 1.0);
    }
  }

  /** Twice the product of a sample with the sum so far is at most what its square adds. */
  lemma CrossTerm(x: real, sum: real, n: real, xx: real, ss: real, p: real, squares: real)
    requires n > 0.0 && xx == x * x && ss == sum * sum && p == x * sum && ss <= n * squares
    ensures 2.0 * p <= n * xx + squares
  {
    var d := Square(n * x - sum);
    var t := n * xx - 2.0 * p + squares;
    assert d == n * (n * xx) - 2.0 * (n * p) + ss;
    assert n * t == n * (n * xx) - 2.0 * (n * p) + n * squares;
    if t < 0.0 { var q := Product(n, -t); }
  }

  /** One more sample keeps the square of the sum within the count times the sum of the squares. */
  lemma Grow(x: real, sum: real, squares: real, n: real)
    requires n >= 0.0 && squares >= 0.0 && Squared(sum) <= n * squares
    ensures Squared(x) >= 0.0 && Squared(x + sum) <= (n + 1.0) * (Squared(x) + squares)
  {
    var xx := Square(x);
    var ss := Square(sum);
    var p := x * sum;
    if n > 0.0 { CrossTerm(x, sum, n, xx, ss, p, squares); }
    assert n == 0.0 ==> ss <= 0.0;
    assert Squared(x + sum) == xx + 2.0 * p + ss;
    assert (n + 1.0) * (xx + squares) == n * xx + xx + n * squares + squares;
  }

  /** The mean of the squares is never below the square of the mean: clamping the variance at zero only undoes
      rounding. */
  lemma VarianceIsNotNegative(s: seq<real>, n: real, mean: real)
    requires s != [] && n == |s| as real && mean == Sum(s) / n
    ensures SumOfSquares(s) / n - Squared(mean) >= 0.0
  {
    var sum, squares := Sum(s), SumOfSquares(s);
    SquareOfSum(s, n, sum, squares);
    var v := squares / n - Squared(mean);
    assert mean * n == sum && (squares / n) * n == squares;
    assert v * (n * n) == n * squares - Squared(sum);
    if v < 0.0 {
      var nn := Product(n, n);
      var p := Product(-v, nn);
    }
  }
}
