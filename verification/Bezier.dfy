/** The cubic-bezier easing function and the solver behind it, over the real numbers. */
module Bezier {
  datatype Curve = Curve(x1: real, y1: real, x2: real, y2: real)

  datatype Result = Ok(curve: Curve) | Invalid

  predicate Proper(c: Curve) {
    0.0 <= c.x1 <= 1.0 && 0.0 <= c.x2 <= 1.0
  }

  function NewCubicBezier(x1: real, y1: real, x2: real, y2: real): (r: Result)
    ensures r.Ok? <==> 0.0 <= x1 <= 1.0 && 0.0 <= x2 <= 1.0
    ensures r.Ok? ==> Proper(r.curve) && r.curve == Curve(x1, y1, x2, y2)
  {
    if x1 < 0.0 || x1 > 1.0 || x2 < 0.0 || x2 > 1.0 then Invalid else Ok(Curve(x1, y1, x2, y2))
  }

  function Abs(x: real): real {
    if x < 0.0 then -x else x
  }

  function Coordinate(t: real, p: real, q: real): real {
    var s := 1.0 - t;
    3.0 * s * s * t * p + 3.0 * s * t * t * q + t * t * t
  }

  function Derivative(t: real, p: real, q: real): real {
    var s := 1.0 - t;
    3.0 * s * s * p + 6.0 * s * t * (q - p) + 3.0 * t * t * (1.0 - q)
  }

  const TOLERANCE: real := 0.0000001

  /** Three times the width of the bracket after 24 halvings. */
  const BOUND: real := 3.0 / 16777216.0

  // ---------------------------------------------------------------- the curve

  /** The polar form of the derivative: the slope between two parameters, a third at a time. */
  function Slope(v: real, w: real, p: real, q: real): real {
    (1.0 - v) * (1.0 - w) * p + ((1.0 - v) * w + v * (1.0 - w)) * (q - p) + v * w * (1.0 - q)
  }

  function Slopes(a: real, b: real, p: real, q: real): real {
    Slope(a, a, p, q) + Slope(a, b, p, q) + Slope(b, b, p, q)
  }

  /** The rise between two parameters, as a multiple of their distance. */
  lemma Rise(a: real, b: real, p: real, q: real)
    ensures Coordinate(b, p, q) - Coordinate(a, p, q) == (b - a) * Slopes(a, b, p, q)
  {
  }

  lemma DerivativeIsSlope(t: real, p: real, q: real)
    ensures Derivative(t, p, q) == 3.0 * Slope(t, t, p, q)
  {
  }

  lemma Combination(a: real, b: real, c: real, x: real, y: real, z: real)
    requires a >= 0.0 && b >= 0.0 && c >= 0.0 && a + b + c == 1.0
    requires -1.0 <= x <= 1.0 && -1.0 <= y <= 1.0 && -1.0 <= z <= 1.0
    ensures -1.0 <= a * x + b * y + c * z <= 1.0
  {
    Below(a, b, c, x, y, z);
    Below(a, b, c, -x, -y, -z);
  }

  lemma Below(a: real, b: real, c: real, x: real, y: real, z: real)
    requires a >= 0.0 && b >= 0.0 && c >= 0.0 && x <= 1.0 && y <= 1.0 && z <= 1.0
    ensures a * x + b * y + c * z <= a + b + c
  {
    Product(a, 1.0 - x);
    Product(b, 1.0 - y);
    Product(c, 1.0 - z);
  }

  lemma Product(a: real, b: real)
    requires a >= 0.0 && b >= 0.0
    ensures a * b >= 0.0
  {
  }

  lemma SlopeBounded(v: real, w: real, p: real, q: real)
    requires 0.0 <= v <= 1.0 && 0.0 <= w <= 1.0 && 0.0 <= p <= 1.0 && 0.0 <= q <= 1.0
    ensures -1.0 <= Slope(v, w, p, q) <= 1.0
  {
    var a, b, c := (1.0 - v) * (1.0 - w), (1.0 - v) * w + v * (1.0 - w), v * w;
    Product(1.0 - v, 1.0 - w);
    Product(1.0 - v, w);
    Product(v, 1.0 - w);
    Product(v, w);
    assert a + b + c == 1.0;
    Combination(a, b, c, p, q - p, 1.0 - q);
  }

  lemma SlopesBounded(a: real, b: real, p: real, q: real)
    requires 0.0 <= a <= 1.0 && 0.0 <= b <= 1.0 && 0.0 <= p <= 1.0 && 0.0 <= q <= 1.0
    ensures -3.0 <= Slopes(a, b, p, q) <= 3.0
  {
    SlopeBounded(a, a, p, q);
    SlopeBounded(a, b, p, q);
    SlopeBounded(b, b, p, q);
  }

  lemma RiseGap(a: real, b: real, p: real, q: real)
    ensures 3.0 * (b - a) - (Coordinate(b, p, q) - Coordinate(a, p, q)) == (b - a) * (3.0 - Slopes(a, b, p, q))
    ensures 3.0 * (b - a) + (Coordinate(b, p, q) - Coordinate(a, p, q)) == (b - a) * (3.0 + Slopes(a, b, p, q))
  {
  }

  /** The curve is nowhere steeper than three. */
  lemma Lipschitz(a: real, b: real, p: real, q: real)
    requires 0.0 <= a <= b <= 1.0 && 0.0 <= p <= 1.0 && 0.0 <= q <= 1.0
    ensures Abs(Coordinate(b, p, q) - Coordinate(a, p, q)) <= 3.0 * (b - a)
  {
    hide Coordinate, Slopes;
    SlopesBounded(a, b, p, q);
    RiseGap(a, b, p, q);
    Product(b - a, 3.0 - Slopes(a, b, p, q));
    Product(b - a, 3.0 + Slopes(a, b, p, q));
  }

  /** A bilinear form that is not negative at the corners of the unit square is not negative in it. */
  lemma Corners(p: real, q: real, f00: real, f10: real, f01: real, f11: real)
    requires 0.0 <= p <= 1.0 && 0.0 <= q <= 1.0 && f00 >= 0.0 && f10 >= 0.0 && f01 >= 0.0 && f11 >= 0.0
    ensures (1.0 - p) * (1.0 - q) * f00 + p * (1.0 - q) * f10 + (1.0 - p) * q * f01 + p * q * f11 >= 0.0
  {
    Product(1.0 - p, 1.0 - q);
    Product(p, 1.0 - q);
    Product(1.0 - p, q);
    Product(p, q);
    Product((1.0 - p) * (1.0 - q), f00);
    Product(p * (1.0 - q), f10);
    Product((1.0 - p) * q, f01);
    Product(p * q, f11);
  }

  lemma SlopesAtCorners(a: real, b: real, p: real, q: real)
    ensures Slopes(a, b, p, q) ==
      (1.0 - p) * (1.0 - q) * Slopes(a, b, 0.0, 0.0) + p * (1.0 - q) * Slopes(a, b, 1.0, 0.0)
      + (1.0 - p) * q * Slopes(a, b, 0.0, 1.0) + p * q * Slopes(a, b, 1.0, 1.0)
  {
  }

  lemma SquaresSum(x: real, y: real)
    ensures x * x + x * y + y * y >= 0.0
  {
    var z := x + y / 2.0;
    assert x * x + x * y + y * y == z * z + 0.75 * (y * y);
    Square(z);
    Square(y);
  }

  lemma Square(x: real)
    ensures x * x >= 0.0
  {
  }

  lemma BothAtStart(a: real, b: real)
    ensures Slopes(a, b, 0.0, 0.0) == a * a + a * b + b * b
  {
  }

  lemma BothAtEnd(a: real, b: real)
    ensures var x, y := 1.0 - a, 1.0 - b; Slopes(a, b, 1.0, 1.0) == x * x + x * y + y * y
  {
  }

  lemma Crossed(a: real, b: real)
    ensures var x, y := 1.0 - 2.0 * a, 1.0 - 2.0 * b; Slopes(a, b, 1.0, 0.0) == x * x + x * y + y * y
  {
  }

  /** The slopes of three of the four curves with extreme control points are sums of squares. */
  lemma CornerSlopes(a: real, b: real)
    ensures Slopes(a, b, 0.0, 0.0) >= 0.0 && Slopes(a, b, 1.0, 1.0) >= 0.0 && Slopes(a, b, 1.0, 0.0) >= 0.0
  {
    hide Slopes;
    BothAtStart(a, b);
    SquaresSum(a, b);
    BothAtEnd(a, b);
    SquaresSum(1.0 - a, 1.0 - b);
    Crossed(a, b);
    SquaresSum(1.0 - 2.0 * a, 1.0 - 2.0 * b);
  }

  lemma LastCorner(a: real, b: real)
    requires 0.0 <= a <= 1.0 && 0.0 <= b <= 1.0
    ensures Slopes(a, b, 0.0, 1.0) >= 0.0
  {
    Product(a, 1.0 - a);
    Product(1.0 - a, b);
    Product(a, 1.0 - b);
    Product(b, 1.0 - b);
    assert Slopes(a, b, 0.0, 1.0) == 2.0 * (a * (1.0 - a)) + (1.0 - a) * b + a * (1.0 - b) + 2.0 * (b * (1.0 - b));
  }

  lemma SlopesSign(a: real, b: real, p: real, q: real)
    requires 0.0 <= a <= 1.0 && 0.0 <= b <= 1.0 && 0.0 <= p <= 1.0 && 0.0 <= q <= 1.0
    ensures Slopes(a, b, p, q) >= 0.0
  {
    hide Slopes;
    CornerSlopes(a, b);
    LastCorner(a, b);
    SlopesAtCorners(a, b, p, q);
    Corners(p, q, Slopes(a, b, 0.0, 0.0), Slopes(a, b, 1.0, 0.0), Slopes(a, b, 0.0, 1.0), Slopes(a, b, 1.0, 1.0));
  }

  /** With valid control points the curve never runs backwards: it is the graph of a function. */
  lemma Monotone(a: real, b: real, p: real, q: real)
    requires 0.0 <= a <= b <= 1.0 && 0.0 <= p <= 1.0 && 0.0 <= q <= 1.0
    ensures Coordinate(a, p, q) <= Coordinate(b, p, q)
  {
    hide Coordinate, Slopes;
    SlopesSign(a, b, p, q);
    Rise(a, b, p, q);
    Product(b - a, Slopes(a, b, p, q));
  }

  /** The derivative that the Newton steps divide by lies between zero and three. */
  lemma DerivativeBounded(t: real, p: real, q: real)
    requires 0.0 <= t <= 1.0 && 0.0 <= p <= 1.0 && 0.0 <= q <= 1.0
    ensures 0.0 <= Derivative(t, p, q) <= 3.0
  {
    hide Slope, Derivative;
    DerivativeIsSlope(t, p, q);
    SlopesBounded(t, t, p, q);
    SlopesSign(t, t, p, q);
  }

  lemma Ends(p: real, q: real)
    ensures Coordinate(0.0, p, q) == 0.0 && Coordinate(1.0, p, q) == 1.0
  {
  }

  // ---------------------------------------------------------------- the solver

  /** The parameter meets the progress to within the tolerance. */
  predicate Meets(c: Curve, progress: real, t: real) {
    Abs(Coordinate(t, c.x1, c.x2) - progress) < TOLERANCE
  }

  /** What the solver promises of the parameter it stops at. */
  predicate Solves(c: Curve, progress: real, t: real) {
    0.0 <= t <= 1.0 && -BOUND <= Coordinate(t, c.x1, c.x2) - progress <= BOUND
  }

  predicate Bracket(c: Curve, progress: real, lower: real, upper: real) {
    && 0.0 <= lower <= upper <= 1.0
    && Coordinate(lower, c.x1, c.x2) < progress <= Coordinate(upper, c.x1, c.x2)
  }

  function Half(k: nat): real {
    if k == 0 then 1.0 else Half(k - 1) / 2.0
  }

  lemma HalfTwentyFour()
    ensures 3.0 * Half(24) == BOUND
  {
    assert Half(4) == 1.0 / 16.0;
    assert Half(8) == 1.0 / 256.0;
    assert Half(12) == 1.0 / 4096.0;
    assert Half(16) == 1.0 / 65536.0;
    assert Half(20) == 1.0 / 1048576.0;
    assert Half(24) == 1.0 / 16777216.0;
  }

  /** Either end of a bracket misses the progress by at most three times the bracket's width. */
  lemma BracketBounds(c: Curve, progress: real, lower: real, upper: real, t: real)
    requires Proper(c) && Bracket(c, progress, lower, upper) && (t == lower || t == upper)
    ensures 0.0 <= t <= 1.0 && Abs(Coordinate(t, c.x1, c.x2) - progress) <= 3.0 * (upper - lower)
  {
    Lipschitz(lower, upper, c.x1, c.x2);
  }

  lemma MeetsSolves(c: Curve, progress: real, t: real)
    requires Meets(c, progress, t) && 0.0 <= t <= 1.0
    ensures Solves(c, progress, t)
  {
  }

  /** Up to eight Newton steps from the progress itself; gives up at a flat spot or outside the
      unit interval. */
  method Newton(c: Curve, progress: real) returns (found: bool, parameter: real)
    requires 0.0 < progress < 1.0
    ensures found ==> 0.0 <= parameter <= 1.0 && Meets(c, progress, parameter)
    ensures found ==> -TOLERANCE < Coordinate(parameter, c.x1, c.x2) - progress < TOLERANCE
  {
    parameter, found := progress, false;
    for step := 0 to 8
      invariant 0.0 <= parameter <= 1.0
    {
      if Meets(c, progress, parameter) {
        return true, parameter;
      }
      var derivative := Derivative(parameter, c.x1, c.x2);
      if Abs(derivative) < TOLERANCE {
        return;
      }
      parameter := NewtonStep(parameter, Coordinate(parameter, c.x1, c.x2) - progress, derivative);
      if parameter < 0.0 || parameter > 1.0 {
        return;
      }
    }
  }

  method NewtonStep(parameter: real, x: real, derivative: real) returns (next: real)
    requires derivative != 0.0
    ensures next == parameter - x / derivative
  {
    next := parameter - x / derivative;
  }

  /** Up to 24 halvings of a bracket around the solution. */
  method Bisect(c: Curve, progress: real) returns (parameter: real)
    requires Proper(c) && 0.0 < progress < 1.0
    ensures Solves(c, progress, parameter)
  {
    var lower, upper := 0.0, 1.0;
    parameter := 1.0;
    Ends(c.x1, c.x2);
    for step := 0 to 24
      invariant Bracket(c, progress, lower, upper) && upper - lower == Half(step)
      invariant parameter == lower || parameter == upper
    {
      parameter := (lower + upper) / 2.0;
      if Meets(c, progress, parameter) {
        MeetsSolves(c, progress, parameter);
        return;
      }
      if Coordinate(parameter, c.x1, c.x2) < progress {
        lower := parameter;
      } else {
        upper := parameter;
      }
    }
    HalfTwentyFour();
    BracketBounds(c, progress, lower, upper, parameter);
  }

  /** The easing: the curve's height at a parameter in the unit interval whose x coordinate is the
      progress to within three times two to the minus 24, whichever way the search ends. */
  method Transform(c: Curve, progress: real) returns (y: real, ghost parameter: real)
    requires Proper(c)
    ensures progress <= 0.0 ==> y == 0.0
    ensures progress >= 1.0 ==> y == 1.0
    ensures 0.0 < progress < 1.0 ==> Solves(c, progress, parameter) && y == Coordinate(parameter, c.y1, c.y2)
  {
    parameter := progress;
    if progress <= 0.0 {
      return 0.0, progress;
    }
    if progress >= 1.0 {
      return 1.0, progress;
    }
    var found, t := Newton(c, progress);
    if found {
      MeetsSolves(c, progress, t);
    } else {
      t := Bisect(c, progress);
    }
    return Coordinate(t, c.y1, c.y2), t;
  }

  /** Between the parameter found and an exact solution the curve stays within the bound all the
      way, so only a flat stretch can separate them. */
  lemma FlatBetween(c: Curve, progress: real, t: real, exact: real, cut: real)
    requires Proper(c) && Solves(c, progress, t) && 0.0 <= exact <= 1.0 && Coordinate(exact, c.x1, c.x2) == progress
    requires t <= cut <= exact || exact <= cut <= t
    ensures Solves(c, progress, cut)
  {
    if t <= cut <= exact {
      Monotone(t, cut, c.x1, c.x2);
      Monotone(cut, exact, c.x1, c.x2);
    } else {
      Monotone(exact, cut, c.x1, c.x2);
      Monotone(cut, t, c.x1, c.x2);
    }
  }
}
