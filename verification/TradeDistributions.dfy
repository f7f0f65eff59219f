/** Least squares over the finite points, and evenly spaced sampling. Sums are exact reals. */
module TradeDistributions {
  import opened Wrappers

  datatype Num = Finite(value: real) | NotFinite

  datatype RawPoint = RawPoint(x: Num, y: Num)

  datatype Point = Point(x: real, y: real)

  datatype Summary = Summary(
    slope: real, intercept: real, rSquared: real, residualVariation: real, sampleSize: nat, minX: real, maxX: real)

  /** 2 to the power -52. */
  const EPSILON: real := 1.0 / 4503599627370496.0

  function FinitePoints(input: seq<RawPoint>): seq<Point> {
    if input == [] then []
    else
      var p := input[|input| - 1];
      FinitePoints(input[..|input| - 1])
      + (if p.x.Finite? && p.y.Finite? then [Point(p.x.value, p.y.value)] else [])
  }

  function Times(x: real, y: real): real {
    x * y
  }

  function Square(x: real): real {
    Times(x, x)
  }

  function SumX(s: seq<Point>): real {
    if s == [] then 0.0 else SumX(s[..|s| - 1]) + s[|s| - 1].x
  }

  function SumY(s: seq<Point>): real {
    if s == [] then 0.0 else SumY(s[..|s| - 1]) + s[|s| - 1].y
  }

  function SumXY(s: seq<Point>): real {
    if s == [] then 0.0 else SumXY(s[..|s| - 1]) + Times(s[|s| - 1].x, s[|s| - 1].y)
  }

  function SumX2(s: seq<Point>): real {
    if s == [] then 0.0 else SumX2(s[..|s| - 1]) + Square(s[|s| - 1].x)
  }

  function DenominatorOf(n: real, sumX: real, sumX2: real): real {
    n * sumX2 - Square(sumX)
  }

  function SlopeOf(n: real, sumX: real, sumY: real, sumXY: real, denominator: real): real
    requires denominator != 0.0
  {
    (n * sumXY - sumX * sumY) / denominator
  }

  function InterceptOf(n: real, sumX: real, sumY: real, slope: real): real
    requires n != 0.0
  {
    (sumY - slope * sumX) / n
  }

  function RSquaredOf(total: real, residual: real): real {
    if total == 0.0 then 1.0 else 1.0 - residual / total
  }

  function Denominator(s: seq<Point>): real {
    DenominatorOf(|s| as real, SumX(s), SumX2(s))
  }

  function LineAt(slope: real, intercept: real, x: real): real {
    slope * x + intercept
  }

  /** What a line leaves of a point. */
  function Error(slope: real, intercept: real, p: Point): real {
    p.y - LineAt(slope, intercept, p.x)
  }

  /** The sum of squared errors of a line. */
  function Variation(slope: real, intercept: real, s: seq<Point>): real {
    if s == [] then 0.0
    else Variation(slope, intercept, s[..|s| - 1]) + Square(Error(slope, intercept, s[|s| - 1]))
  }

  function Errors(slope: real, intercept: real, s: seq<Point>): real {
    if s == [] then 0.0 else Errors(slope, intercept, s[..|s| - 1]) + Error(slope, intercept, s[|s| - 1])
  }

  function ErrorsTimesX(slope: real, intercept: real, s: seq<Point>): real {
    if s == [] then 0.0
    else ErrorsTimesX(slope, intercept, s[..|s| - 1]) + Times(s[|s| - 1].x, Error(slope, intercept, s[|s| - 1]))
  }

  function Slope(s: seq<Point>): real
    requires Denominator(s) != 0.0
  {
    SlopeOf(|s| as real, SumX(s), SumY(s), SumXY(s), Denominator(s))
  }

  function Intercept(s: seq<Point>): real
    requires Denominator(s) != 0.0 && s != []
  {
    InterceptOf(|s| as real, SumX(s), SumY(s), Slope(s))
  }

  function MeanY(s: seq<Point>): real
    requires s != []
  {
    SumY(s) / |s| as real
  }

  function RSquared(s: seq<Point>): real
    requires Denominator(s) != 0.0 && s != []
  {
    RSquaredOf(Variation(0.0, MeanY(s), s), Variation(Slope(s), Intercept(s), s))
  }

  ghost predicate Extremes(s: seq<Point>, lo: real, hi: real) {
    && (forall i | 0 <= i < |s| :: lo <= s[i].x <= hi)
    && (exists i | 0 <= i < |s| :: s[i].x == lo)
    && (exists i | 0 <= i < |s| :: s[i].x == hi)
  }

  lemma PrefixNext<T>(s: seq<T>, i: nat)
    requires i < |s|
    ensures s[..i + 1] != [] && s[..i + 1][..i] == s[..i] && s[..i + 1][i] == s[i] && |s[..i + 1]| - 1 == i
  {
  }

  method KeepFinite(input: seq<RawPoint>) returns (s: seq<Point>)
    ensures s == FinitePoints(input)
  {
    s := [];
    for i := 0 to |input|
      invariant s == FinitePoints(input[..i])
    {
      PrefixNext(input, i);
      if input[i].x.Finite? && input[i].y.Finite? {
        s := s + [Point(input[i].x.value, input[i].y.value)];
      }
    }
    assert input[..|input|] == input;
  }

  /** The sum of squared errors, as the two reduce passes compute it. */
  method Reduce(slope: real, intercept: real, s: seq<Point>) returns (sum: real)
    ensures sum == Variation(slope, intercept, s)
  {
    sum := 0.0;
    for i := 0 to |s|
      invariant sum == Variation(slope, intercept, s[..i])
    {
      PrefixNext(s, i);
      sum := sum + Square(Error(slope, intercept, s[i]));
    }
    assert s[..|s|] == s;
  }

  /** The single pass over the points. */
  method Accumulate(points: seq<Point>)
    returns (sumX: real, sumY: real, sumXY: real, sumX2: real, minX: real, maxX: real)
    requires points != []
    ensures sumX == SumX(points) && sumY == SumY(points) && sumXY == SumXY(points) && sumX2 == SumX2(points)
    ensures Extremes(points, minX, maxX)
  {
    sumX, sumY, sumXY, sumX2 := 0.0, 0.0, 0.0, 0.0;
    minX, maxX := points[0].x, points[0].x;
    ghost var least, greatest := 0, 0;
    for i := 0 to |points|
      invariant sumX == SumX(points[..i]) && sumY == SumY(points[..i])
      invariant sumXY == SumXY(points[..i]) && sumX2 == SumX2(points[..i])
      invariant 0 <= least < |points| && points[least].x == minX && 0 <= greatest < |points| && points[greatest].x == maxX
      invariant forall k | 0 <= k < i :: minX <= points[k].x <= maxX
    {
      PrefixNext(points, i);
      var p := points[i];
      sumX, sumY := sumX + p.x, sumY + p.y;
      sumXY, sumX2 := sumXY + Times(p.x, p.y), sumX2 + Square(p.x);
      if p.x < minX {
        minX, least := p.x, i;
      }
      if p.x > maxX {
        maxX, greatest := p.x, i;
      }
    }
    assert points[..|points|] == points;
  }

  /** The line of best fit, or nothing for fewer than two points or a negligible spread of x. */
  method ComputeLinearRegression(input: seq<RawPoint>) returns (r: Option<Summary>)
    ensures var s := FinitePoints(input);
            r.None? <==> |s| < 2 || Denominator(s) * 4503599627370496.0 < 1.0
    ensures var s := FinitePoints(input);
            r.Some? ==>
              && Denominator(s) > 0.0 && |s| >= 2
              && r.value.slope == Slope(s) && r.value.intercept == Intercept(s)
              && r.value.rSquared == RSquared(s)
              && r.value.residualVariation == Variation(Slope(s), Intercept(s), s)
              && r.value.sampleSize == |s|
              && Extremes(s, r.value.minX, r.value.maxX)
  {
    var points := KeepFinite(input);
    if |points| < 2 {
      return None;
    }
    var n := |points| as real;
    var sumX, sumY, sumXY, sumX2, minX, maxX := Accumulate(points);
    var denominator := DenominatorOf(n, sumX, sumX2);
    DenominatorNonNegative(points);
    if denominator < EPSILON {
      return None;
    }
    var slope := SlopeOf(n, sumX, sumY, sumXY, denominator);
    var intercept := InterceptOf(n, sumX, sumY, slope);
    var totalVariation := Reduce(0.0, sumY / n, points);
    var residualVariation := Reduce(slope, intercept, points);
    r := Some(Summary(slope, intercept, RSquaredOf(totalVariation, residualVariation), residualVariation, |points|, minX, maxX));
  }

  // ---------------------------------------------------------------------
  // The denominator
  // ---------------------------------------------------------------------

  /** The squared distances of all x from one value. */
  function Spread(s: seq<Point>, x: real): real {
    if s == [] then 0.0 else Spread(s[..|s| - 1], x) + Square(s[|s| - 1].x - x)
  }

  lemma SquareNonNegative(x: real)
    ensures Square(x) >= 0.0 && (Square(x) == 0.0 <==> x == 0.0)
  {
    if x > 0.0 {
      PositiveProduct(x, x);
    } else if x < 0.0 {
      PositiveProduct(-x, -x);
      assert Times(-x, -x) == Times(x, x);
    }
  }

  lemma PositiveProduct(x: real, y: real)
    requires x > 0.0 && y > 0.0
    ensures Times(x, y) > 0.0
  {
  }

  /** The sums, one point on. */
  lemma {:induction false} SumsNext(s: seq<Point>, n: nat)
    requires |s| == n + 1
    ensures SumX(s) == SumX(s[..n]) + s[n].x && SumY(s) == SumY(s[..n]) + s[n].y
    ensures SumXY(s) == SumXY(s[..n]) + Times(s[n].x, s[n].y) && SumX2(s) == SumX2(s[..n]) + Square(s[n].x)
    ensures |s| as real == n as real + 1.0 && |s[..n]| == n
  {
  }

  lemma {:induction false} SpreadNonNegative(s: seq<Point>, x: real)
    ensures Spread(s, x) >= 0.0
    ensures Spread(s, x) == 0.0 <==> forall i | 0 <= i < |s| :: s[i].x == x
  {
    if s != [] {
      var n := |s| - 1;
      SpreadNonNegative(s[..n], x);
      SquareNonNegative(s[n].x - x);
    }
  }

  /** Spread of n points with the given sums, in closed form. */
  function SpreadOf(n: real, sumX: real, sumX2: real, x: real): real {
    sumX2 - 2.0 * x * sumX + n * (x * x)
  }

  lemma SpreadStep(n: real, sumX: real, sumX2: real, x: real, z: real)
    ensures SpreadOf(n + 1.0, sumX + z, sumX2 + Square(z), x) == SpreadOf(n, sumX, sumX2, x) + Square(z - x)
  {
  }

  lemma {:induction false} SpreadExpanded(s: seq<Point>, x: real)
    ensures Spread(s, x) == SpreadOf(|s| as real, SumX(s), SumX2(s), x)
  {
    if s != [] {
      var n := |s| - 1;
      SpreadExpanded(s[..n], x);
      SumsNext(s, n);
      SpreadStep(n as real, SumX(s[..n]), SumX2(s[..n]), x, s[n].x);
    }
  }

  lemma DenominatorStep(n: real, sumX: real, sumX2: real, x: real)
    ensures DenominatorOf(n + 1.0, sumX + x, sumX2 + Square(x))
            == DenominatorOf(n, sumX, sumX2) + SpreadOf(n, sumX, sumX2, x)
  {
  }

  /** Each point adds its squared distances from the points before it. */
  lemma {:induction false} DenominatorGrows(s: seq<Point>, n: nat)
    requires |s| == n + 1
    ensures Denominator(s) == Denominator(s[..n]) + Spread(s[..n], s[n].x)
  {
    SpreadExpanded(s[..n], s[n].x);
    SumsNext(s, n);
    DenominatorStep(n as real, SumX(s[..n]), SumX2(s[..n]), s[n].x);
  }

  ghost predicate AllXEqual(s: seq<Point>) {
    forall i, j | 0 <= i < |s| && 0 <= j < |s| :: s[i].x == s[j].x
  }

  lemma AllEqualNext(s: seq<Point>, n: nat)
    requires |s| == n + 1
    ensures AllXEqual(s) <==> AllXEqual(s[..n]) && forall i | 0 <= i < n :: s[..n][i].x == s[n].x
  {
    if AllXEqual(s) {
      forall i | 0 <= i < n ensures s[..n][i].x == s[n].x {
        assert s[i].x == s[n].x;
      }
    }
  }

  lemma NoDenominator()
    ensures Denominator([]) == 0.0
  {
    assert Square(0.0) == 0.0;
  }

  /** The denominator is never negative, and zero exactly when all x are equal. */
  lemma {:induction false} DenominatorNonNegative(s: seq<Point>)
    ensures Denominator(s) >= 0.0
    ensures Denominator(s) == 0.0 <==> AllXEqual(s)
  {
    if s == [] {
      NoDenominator();
    } else {
      var n := |s| - 1;
      DenominatorNonNegative(s[..n]);
      SpreadNonNegative(s[..n], s[n].x);
      DenominatorGrows(s, n);
      AllEqualNext(s, n);
    }
  }

  // ---------------------------------------------------------------------
  // Best fit
  // ---------------------------------------------------------------------

  lemma {:induction false} VariationNext(slope: real, intercept: real, s: seq<Point>, n: nat)
    requires |s| == n + 1
    ensures Variation(slope, intercept, s) == Variation(slope, intercept, s[..n]) + Square(Error(slope, intercept, s[n]))
    ensures Errors(slope, intercept, s) == Errors(slope, intercept, s[..n]) + Error(slope, intercept, s[n])
    ensures ErrorsTimesX(slope, intercept, s)
            == ErrorsTimesX(slope, intercept, s[..n]) + Times(s[n].x, Error(slope, intercept, s[n]))
  {
  }

  function ErrorsOf(n: real, sumX: real, sumY: real, slope: real, intercept: real): real {
    sumY - slope * sumX - intercept * n
  }

  function ErrorsTimesXOf(sumX: real, sumXY: real, sumX2: real, slope: real, intercept: real): real {
    sumXY - slope * sumX2 - intercept * sumX
  }

  lemma ErrorsStep(n: real, sumX: real, sumY: real, slope: real, intercept: real, p: Point)
    ensures ErrorsOf(n + 1.0, sumX + p.x, sumY + p.y, slope, intercept)
            == ErrorsOf(n, sumX, sumY, slope, intercept) + Error(slope, intercept, p)
  {
  }

  lemma ErrorsTimesXStep(sumX: real, sumXY: real, sumX2: real, slope: real, intercept: real, p: Point)
    ensures ErrorsTimesXOf(sumX + p.x, sumXY + Times(p.x, p.y), sumX2 + Square(p.x), slope, intercept)
            == ErrorsTimesXOf(sumX, sumXY, sumX2, slope, intercept) + Times(p.x, Error(slope, intercept, p))
  {
  }

  lemma {:induction false} ErrorsExpanded(slope: real, intercept: real, s: seq<Point>)
    ensures Errors(slope, intercept, s) == ErrorsOf(|s| as real, SumX(s), SumY(s), slope, intercept)
  {
    if s != [] {
      var n := |s| - 1;
      ErrorsExpanded(slope, intercept, s[..n]);
      SumsNext(s, n);
      VariationNext(slope, intercept, s, n);
      ErrorsStep(n as real, SumX(s[..n]), SumY(s[..n]), slope, intercept, s[n]);
    }
  }

  lemma {:induction false} ErrorsTimesXExpanded(slope: real, intercept: real, s: seq<Point>)
    ensures ErrorsTimesX(slope, intercept, s) == ErrorsTimesXOf(SumX(s), SumXY(s), SumX2(s), slope, intercept)
  {
    if s != [] {
      var n := |s| - 1;
      ErrorsTimesXExpanded(slope, intercept, s[..n]);
      SumsNext(s, n);
      VariationNext(slope, intercept, s, n);
      ErrorsTimesXStep(SumX(s[..n]), SumXY(s[..n]), SumX2(s[..n]), slope, intercept, s[n]);
    }
  }

  /** A quotient times its divisor. */
  lemma Quotient(a: real, b: real, q: real)
    requires b != 0.0 && q == a / b
    ensures q * b == a
  {
  }

  /** The algebra of the normal equations. */
  lemma NormalAlgebra(n: real, sumX: real, sumY: real, sumXY: real, sumX2: real, slope: real, intercept: real)
    requires n != 0.0
    requires slope * DenominatorOf(n, sumX, sumX2) == n * sumXY - sumX * sumY
    requires intercept * n == sumY - slope * sumX
    ensures ErrorsOf(n, sumX, sumY, slope, intercept) == 0.0
    ensures ErrorsTimesXOf(sumX, sumXY, sumX2, slope, intercept) == 0.0
  {
    var e := ErrorsTimesXOf(sumX, sumXY, sumX2, slope, intercept);
    assert n * e == n * sumXY - slope * (n * sumX2) - (intercept * n) * sumX;
    assert (intercept * n) * sumX == sumY * sumX - slope * (sumX * sumX);
    assert n * e == n * sumXY - sumX * sumY - slope * DenominatorOf(n, sumX, sumX2);
    ZeroFactor(n, e);
  }

  lemma ZeroFactor(n: real, e: real)
    requires n != 0.0 && n * e == 0.0
    ensures e == 0.0
  {
  }

  lemma FitSolves(n: real, sumX: real, sumY: real, sumXY: real, sumX2: real, slope: real, intercept: real)
    requires n != 0.0 && DenominatorOf(n, sumX, sumX2) != 0.0
    requires slope == SlopeOf(n, sumX, sumY, sumXY, DenominatorOf(n, sumX, sumX2))
    requires intercept == InterceptOf(n, sumX, sumY, slope)
    ensures ErrorsOf(n, sumX, sumY, slope, intercept) == 0.0
    ensures ErrorsTimesXOf(sumX, sumXY, sumX2, slope, intercept) == 0.0
  {
    Quotient(n * sumXY - sumX * sumY, DenominatorOf(n, sumX, sumX2), slope);
    Quotient(sumY - slope * sumX, n, intercept);
    NormalAlgebra(n, sumX, sumY, sumXY, sumX2, slope, intercept);
  }

  /** The errors of the fitted line sum to zero, alone and weighted by x. */
  lemma {:induction false} NormalEquations(s: seq<Point>)
    requires s != [] && Denominator(s) != 0.0
    ensures Errors(Slope(s), Intercept(s), s) == 0.0
    ensures ErrorsTimesX(Slope(s), Intercept(s), s) == 0.0
  {
    ErrorsExpanded(Slope(s), Intercept(s), s);
    ErrorsTimesXExpanded(Slope(s), Intercept(s), s);
    FitSolves(|s| as real, SumX(s), SumY(s), SumXY(s), SumX2(s), Slope(s), Intercept(s));
  }

  /** The squared distances between two lines at all x. */
  function Gap(slope: real, intercept: real, s: seq<Point>): real {
    if s == [] then 0.0
    else Gap(slope, intercept, s[..|s| - 1]) + Square(LineAt(slope, intercept, s[|s| - 1].x))
  }

  lemma {:induction false} GapNonNegative(slope: real, intercept: real, s: seq<Point>)
    ensures Gap(slope, intercept, s) >= 0.0
  {
    if s != [] {
      GapNonNegative(slope, intercept, s[..|s| - 1]);
      SquareNonNegative(LineAt(slope, intercept, s[|s| - 1].x));
    }
  }

  function Cross(a: real, b: real, errors: real, errorsTimesX: real): real {
    2.0 * (a * errorsTimesX + b * errors)
  }

  function Twice(e: real, d: real): real {
    2.0 * e * d
  }

  lemma CrossStep(a: real, b: real, errors: real, errorsTimesX: real, x: real, e: real)
    ensures Cross(a, b, errors + e, errorsTimesX + Times(x, e))
            == Cross(a, b, errors, errorsTimesX) + Twice(e, LineAt(a, b, x))
  {
  }

  lemma SquareOfSum(e: real, d: real)
    ensures Square(e + d) == Square(e) + Twice(e, d) + Square(d)
  {
  }

  /** The line that lies (a, b) below. */
  predicate Below(slope: real, intercept: real, a: real, b: real, slope': real, intercept': real) {
    slope' == slope - a && intercept' == intercept - b
  }

  lemma PointShifts(slope: real, intercept: real, a: real, b: real, slope': real, intercept': real, p: Point)
    requires Below(slope, intercept, a, b, slope', intercept')
    ensures Square(Error(slope', intercept', p))
            == Square(Error(slope, intercept, p)) + Twice(Error(slope, intercept, p), LineAt(a, b, p.x))
               + Square(LineAt(a, b, p.x))
  {
    assert LineAt(slope', intercept', p.x) == LineAt(slope, intercept, p.x) - LineAt(a, b, p.x);
    SquareOfSum(Error(slope, intercept, p), LineAt(a, b, p.x));
  }

  lemma {:induction false} GapNext(a: real, b: real, s: seq<Point>, n: nat)
    requires |s| == n + 1
    ensures Gap(a, b, s) == Gap(a, b, s[..n]) + Square(LineAt(a, b, s[n].x))
  {
  }

  /** Moving the line changes the variation by a cross term and the squared gap. */
  lemma {:induction false} VariationShifts(
    slope: real, intercept: real, a: real, b: real, slope': real, intercept': real, s: seq<Point>)
    requires Below(slope, intercept, a, b, slope', intercept')
    ensures Variation(slope', intercept', s)
            == Variation(slope, intercept, s)
               + Cross(a, b, Errors(slope, intercept, s), ErrorsTimesX(slope, intercept, s))
               + Gap(a, b, s)
  {
    if s != [] {
      var n := |s| - 1;
      VariationShifts(slope, intercept, a, b, slope', intercept', s[..n]);
      VariationNext(slope, intercept, s, n);
      VariationNext(slope', intercept', s, n);
      GapNext(a, b, s, n);
      PointShifts(slope, intercept, a, b, slope', intercept', s[n]);
      CrossStep(a, b, Errors(slope, intercept, s[..n]), ErrorsTimesX(slope, intercept, s[..n]), s[n].x,
                Error(slope, intercept, s[n]));
    }
  }

  /** No line leaves less variation than the fitted one. */
  lemma {:induction false} BestFit(s: seq<Point>, slope: real, intercept: real)
    requires s != [] && Denominator(s) != 0.0
    ensures Variation(Slope(s), Intercept(s), s) <= Variation(slope, intercept, s)
  {
    var a, b := Slope(s) - slope, Intercept(s) - intercept;
    NormalEquations(s);
    VariationShifts(Slope(s), Intercept(s), a, b, slope, intercept, s);
    GapNonNegative(a, b, s);
    assert Cross(a, b, 0.0, 0.0) == 0.0;
  }

  lemma {:induction false} VariationNonNegative(slope: real, intercept: real, s: seq<Point>)
    ensures Variation(slope, intercept, s) >= 0.0
  {
    if s != [] {
      VariationNonNegative(slope, intercept, s[..|s| - 1]);
      SquareNonNegative(Error(slope, intercept, s[|s| - 1]));
    }
  }

  lemma QuotientInUnit(part: real, whole: real)
    requires 0.0 <= part <= whole && whole > 0.0
    ensures 0.0 <= part / whole <= 1.0
  {
  }

  /** The share of the variation that the fit explains is a proportion. */
  lemma {:induction false} RSquaredIsProportion(s: seq<Point>)
    requires s != [] && Denominator(s) != 0.0
    ensures 0.0 <= RSquared(s) <= 1.0
  {
    var total, residual := Variation(0.0, MeanY(s), s), Variation(Slope(s), Intercept(s), s);
    BestFit(s, 0.0, MeanY(s));
    VariationNonNegative(Slope(s), Intercept(s), s);
    VariationNonNegative(0.0, MeanY(s), s);
    if total > 0.0 {
      QuotientInUnit(residual, total);
    }
  }

  /** The points that enter the fit are those with two finite coordinates, as often as they were given. */
  lemma {:induction false} FiniteExactly(input: seq<RawPoint>, p: Point)
    ensures multiset(FinitePoints(input))[p] == multiset(input)[RawPoint(Finite(p.x), Finite(p.y))]
  {
    if input != [] {
      var n := |input| - 1;
      FiniteExactly(input[..n], p);
      assert input == input[..n] + [input[n]];
    }
  }

  lemma {:induction false} MeanIs(s: seq<Point>)
    requires s != []
    ensures MeanY(s) * |s| as real == SumY(s)
  {
    Quotient(SumY(s), |s| as real, MeanY(s));
  }

  lemma Complement(total: real, residual: real, share: real)
    requires total != 0.0 && share == 1.0 - residual / total
    ensures share * total == total - residual
  {
    Quotient(residual, total, residual / total);
    assert share * total == total - (residual / total) * total;
  }

  /**
    The share is what the fit removes of the squared distances of y from their mean; it is 1 exactly
    when the fit leaves nothing, and when all y are equal it is 1.
   */
  lemma {:induction false} RSquaredExactly(s: seq<Point>, mean: real)
    requires s != [] && Denominator(s) != 0.0 && mean * |s| as real == SumY(s)
    ensures var total, residual := Variation(0.0, mean, s), Variation(Slope(s), Intercept(s), s);
            && (total != 0.0 ==> RSquared(s) * total == total - residual)
            && (total == 0.0 ==> RSquared(s) == 1.0 && residual == 0.0)
            && (RSquared(s) == 1.0 <==> residual == 0.0)
  {
    MeanIs(s);
    SameMean(mean, MeanY(s), |s| as real);
    var total, residual := Variation(0.0, mean, s), Variation(Slope(s), Intercept(s), s);
    BestFit(s, 0.0, mean);
    VariationNonNegative(Slope(s), Intercept(s), s);
    if total != 0.0 {
      Complement(total, residual, RSquared(s));
      OneExactly(total, residual, RSquared(s));
    }
  }

  lemma SameMean(a: real, b: real, n: real)
    requires n != 0.0 && a * n == b * n
    ensures a == b
  {
    assert (a - b) * n == 0.0;
    ZeroFactor(n, a - b);
  }

  lemma OneExactly(total: real, residual: real, share: real)
    requires total != 0.0 && share * total == total - residual
    ensures share == 1.0 <==> residual == 0.0
  {
    if residual == 0.0 {
      assert (share - 1.0) * total == 0.0;
      ZeroFactor(total, share - 1.0);
    }
  }

  // ---------------------------------------------------------------------
  // Even sampling
  // ---------------------------------------------------------------------

  /** The nearest integer to index * last / steps, halves up. */
  function SourceIndex(index: nat, last: nat, steps: nat): nat
    requires steps > 0
  {
    (2 * (index * last) + steps) / (2 * steps)
  }

  /** Rounding moves a quotient by at most half a step. */
  lemma SourceIndexRounds(index: nat, last: nat, steps: nat)
    requires steps > 0
    ensures var k := SourceIndex(index, last, steps);
            2 * (index * last) - steps < 2 * (k * steps) <= 2 * (index * last) + steps
  {
    DivisionBounds(2 * (index * last) + steps, 2 * steps, SourceIndex(index, last, steps));
    Doubled(SourceIndex(index, last, steps), steps);
  }

  lemma DivisionBounds(a: nat, b: nat, q: nat)
    requires b > 0 && q == a / b
    ensures q * b <= a < q * b + b
  {
  }

  lemma Doubled(q: nat, steps: nat)
    ensures q * (2 * steps) == 2 * (q * steps)
  {
  }

  /** Consecutive picks are a floor or a ceiling of the step apart, and never the same. */
  lemma PicksEvenlySpaced(index: nat, last: nat, steps: nat)
    requires 0 < steps < last
    ensures last / steps <= SourceIndex(index + 1, last, steps) - SourceIndex(index, last, steps) <= last / steps + 1
    ensures SourceIndex(index, last, steps) < SourceIndex(index + 1, last, steps)
  {
    var k, l := SourceIndex(index, last, steps), SourceIndex(index + 1, last, steps);
    SourceIndexRounds(index, last, steps);
    SourceIndexRounds(index + 1, last, steps);
    assert (index + 1) * last == index * last + last;
    DivisionBounds(last, steps, last / steps);
    GapBounds(k * steps, l * steps, last, steps);
    GapInSteps(k, l, last / steps, last, steps);
  }

  lemma GapBounds(k: int, l: int, last: int, steps: int)
    requires exists m :: 2 * m - steps < 2 * k <= 2 * m + steps && 2 * (m + last) - steps < 2 * l <= 2 * (m + last) + steps
    ensures last - steps < l - k < last + steps
  {
  }

  lemma GapInSteps(k: int, l: int, q: int, last: int, steps: int)
    requires steps > 0 && q >= 1 && q * steps <= last < q * steps + steps
    requires last - steps < l * steps - k * steps < last + steps
    ensures q <= l - k <= q + 1
  {
    assert l * steps - k * steps == (l - k) * steps;
    Cancels(l - k, q + 2, steps);
    Cancels(q - 1, l - k, steps);
  }

  lemma Cancels(a: int, b: int, steps: int)
    requires steps > 0
    ensures a * steps < b * steps ==> a < b
  {
    if a >= b {
      assert (a - b) * steps >= 0;
    }
  }

  lemma NoHalfStep(steps: nat)
    requires steps > 0
    ensures steps / (2 * steps) == 0
  {
  }

  /** The first and the last item are always picked. */
  lemma PicksEnds(last: nat, steps: nat)
    requires 0 < steps
    ensures SourceIndex(0, last, steps) == 0 && SourceIndex(steps, last, steps) == last
  {
    NoHalfStep(steps);
    SourceIndexRounds(steps, last, steps);
    var k := SourceIndex(steps, last, steps);
    assert steps * last == last * steps;
    Cancels(last - 1, k, steps);
    Cancels(k, last + 1, steps);
  }

  lemma ProductMonotone(a: nat, b: nat, x: nat)
    requires a <= b
    ensures a * x <= b * x
  {
    assert (b - a) * x >= 0;
  }

  lemma PickInRange(index: nat, last: nat, steps: nat)
    requires 0 < steps && index <= steps
    ensures SourceIndex(index, last, steps) <= last
  {
    var k := SourceIndex(index, last, steps);
    SourceIndexRounds(index, last, steps);
    ProductMonotone(index, steps, last);
    Cancels(k, last + 1, steps);
  }

  ghost predicate Picked<T>(items: seq<T>, sampled: seq<T>, i: nat, last: nat, steps: nat)
    requires i < |sampled| && steps > 0
  {
    SourceIndex(i, last, steps) < |items| && sampled[i] == items[SourceIndex(i, last, steps)]
  }

  ghost predicate EvenSample<T>(items: seq<T>, sampled: seq<T>, last: nat, steps: nat)
    requires steps > 0
  {
    forall i | 0 <= i < |sampled| :: Picked(items, sampled, i, last, steps)
  }

  /** All items when there are few; otherwise `limit` of them, in order, evenly spaced, both ends included. */
  method SampleEvenly<T>(items: seq<T>, limit: int) returns (sampled: seq<T>)
    ensures |items| <= limit ==> sampled == items
    ensures |items| > limit && limit <= 1 ==> sampled == if items == [] then [] else [items[|items| - 1]]
    ensures |items| > limit && limit > 1 ==>
              && |sampled| == limit && EvenSample(items, sampled, |items| - 1, limit - 1)
              && sampled[0] == items[0] && sampled[limit - 1] == items[|items| - 1]
  {
    if |items| <= limit {
      return items;
    }
    if limit <= 1 {
      return if |items| == 0 then [] else [items[|items| - 1]];
    }
    sampled := [];
    var lastIndex, steps := |items| - 1, limit - 1;
    for index := 0 to limit
      invariant |sampled| == index && EvenSample(items, sampled, lastIndex, steps)
    {
      PickInRange(index, lastIndex, steps);
      ghost var before := sampled;
      sampled := sampled + [items[SourceIndex(index, lastIndex, steps)]];
      forall i | 0 <= i < |sampled| ensures Picked(items, sampled, i, lastIndex, steps) {
        assert i < |before| ==> Picked(items, before, i, lastIndex, steps);
      }
    }
    PicksEnds(lastIndex, steps);
    assert Picked(items, sampled, 0, lastIndex, steps) && Picked(items, sampled, steps, lastIndex, steps);
  }
}
