/** Signs of real products and squares, each handed to the caller as a named value. */
module RealFacts {

  function Squared(x: real): real { x * x }

  function Times(a: real, b: real): real { a * b }

  lemma Product(a: real, b: real) returns (p: real)
    ensures p == a * b
    ensures a >= 0.0 && b >= 0.0 ==> p >= 0.0
    ensures a > 0.0 && b > 0.0 ==> p > 0.0
  { p := a * b; }

  lemma Square(s: real) returns (p: real)
    ensures p == s * s && p >= 0.0
    ensures s != 0.0 ==> p > 0.0
  {
    if s < 0.0 { p := Product(-s, -s); } else { p := Product(s, s); }
  }

  lemma WeightedSquare(w: real, e: real, square: real)
    requires w >= 0.0 && square == e * e
    ensures w * square >= 0.0
    ensures w > 0.0 && w * square == 0.0 ==> e == 0.0
  {
    var q := Square(e);
    var p := Product(w, square);
  }

  lemma Scale(c: real, a: real, b: real)
    requires c >= 0.0 && a <= b
    ensures c * a <= c * b
  {
    var p := Product(c, b - a);
  }

  lemma UnitSquare(t: real) returns (u: real)
    requires 0.0 <= t <= 1.0
    ensures u == t * t && 0.0 <= u <= 1.0
  {
    u := Square(t);
    var p := Product(t, 1.0 - t);
    assert p == t - u;
  }

  lemma Shrinks(c: real, s: real, s': real, t: real, square: real, square': real)
    requires c >= 0.0 && 0.0 <= t <= 1.0 && s' == t * s && square == s * s && square' == s' * s'
    ensures c * square' <= c * square
  {
    var u := UnitSquare(t);
    assert square' == u * square;
    var q := Square(s);
    Scale(square, u, 1.0);
    Scale(c, square', square);
  }
}
