/** The regression channel that the gateway draws over a chart: a straight line
    fitted to the last closes, and a band around its value at the newest bar.
    The fit is what least squares promises: no other line is as close. */
module RegressionStudy {

  import opened ExchangeTypes

  const MIN_LOOKBACK := 2
  const MAX_LOOKBACK := 2000
  const MAX_DEVIATIONS := 20.0

  datatype Study =
    | Fitted(slope: real, intercept: real, sigma: real, mean: real, upper: real, lower: real)
    | Failed(error: string)

  function Lookback(raw: int): int {
    if raw < MIN_LOOKBACK then MIN_LOOKBACK else if raw > MAX_LOOKBACK then MAX_LOOKBACK else raw
  }

  function Deviations(raw: real): real {
    if raw < 0.0 then 0.0 else if raw > MAX_DEVIATIONS then MAX_DEVIATIONS else raw
  }

  /** A lookback is brought into 2 to 2000 and a number of deviations into 0 to 20, and left alone
      if it is there already. */
  lemma ParametersAreClamped(raw: int, deviations: real)
    ensures 2 <= Lookback(raw) <= 2000
    ensures 2 <= raw <= 2000 ==> Lookback(raw) == raw
    ensures raw > 2000 ==> Lookback(raw) == 2000
    ensures 0.0 <= Deviations(deviations) <= 20.0
    ensures 0.0 <= deviations <= 20.0 ==> Deviations(deviations) == deviations
    ensures deviations > 20.0 ==> Deviations(deviations) == 20.0
  {
  }

  predicate AllFinite(closes: seq<Price>) {
    forall i :: 0 <= i < |closes| ==> closes[i].Finite?
  }

  function Amounts(closes: seq<Price>): (ys: seq<real>)
    requires AllFinite(closes)
  {
    seq(|closes|, i requires 0 <= i < |closes| => closes[i].amount)
  }

  // ----- Sums over a sample, in the order the loops take them -----

  function Times(a: real, b: real): real { a * b }

  function Line(a: real, b: real, i: int): real { a + Times(b, i as real) }

  function Total(ys: seq<real>): real {
    if ys == [] then 0.0 else Total(ys[..|ys| - 1]) + ys[|ys| - 1]
  }

  /** The sum of the residuals of the line a + b i. */
  function Residuals(ys: seq<real>, a: real, b: real): real {
    if ys == [] then 0.0
    else Residuals(ys[..|ys| - 1], a, b) + (ys[|ys| - 1] - Line(a, b, |ys| - 1))
  }

  /** The sum of the residuals, each weighted by its distance from `centre`. */
  function Moment(ys: seq<real>, a: real, b: real, centre: real): real {
    if ys == [] then 0.0
    else Moment(ys[..|ys| - 1], a, b, centre)
         + Times((|ys| - 1) as real - centre, ys[|ys| - 1] - Line(a, b, |ys| - 1))
  }

  /** The sum of the squared residuals. */
  function Error(ys: seq<real>, a: real, b: real): real {
    if ys == [] then 0.0
    else
      var r := ys[|ys| - 1] - Line(a, b, |ys| - 1);
      Error(ys[..|ys| - 1], a, b) + Times(r, r)
  }

  function Numerator(ys: seq<real>, xMean: real, yMean: real): real {
    if ys == [] then 0.0
    else Numerator(ys[..|ys| - 1], xMean, yMean) + Times((|ys| - 1) as real - xMean, ys[|ys| - 1] - yMean)
  }

  function Denominator(n: nat, xMean: real): real {
    if n == 0 then 0.0
    else
      var d := (n - 1) as real - xMean;
      Denominator(n - 1, xMean) + Times(d, d)
  }

  /** How far two lines that differ by da + db i are apart over n points. */
  function Gap(n: nat, da: real, db: real): real {
    if n == 0 then 0.0
    else Gap(n - 1, da, db) + Times(Line(da, db, n - 1), Line(da, db, n - 1))
  }

  // ----- What the closed forms are -----

  lemma DenominatorStep(n: real, c: real, before: real)
    requires 6.0 * before
        == (n - 1.0) * (n - 2.0) * (2.0 * n - 3.0) - 6.0 * c * (n - 1.0) * (n - 2.0) + 6.0 * (n - 1.0) * c * c
    ensures 6.0 * (before + (n - 1.0 - c) * (n - 1.0 - c))
         == n * (n - 1.0) * (2.0 * n - 1.0) - 6.0 * c * n * (n - 1.0) + 6.0 * n * c * c
  {
  }

  lemma {:induction false} DenominatorExpands(n: nat, c: real)
    ensures var m := n as real;
            6.0 * Denominator(n, c) == m * (m - 1.0) * (2.0 * m - 1.0) - 6.0 * c * m * (m - 1.0) + 6.0 * m * c * c
  {
    if n > 0 {
      DenominatorExpands(n - 1, c);
      var m := n as real;
      assert (n - 1) as real == m - 1.0;
      DenominatorStep(m, c, Denominator(n - 1, c));
    }
  }

  lemma CentredSquares(m: real, c: real)
    requires c == (m - 1.0) / 2.0
    ensures 2.0 * (m * (m - 1.0) * (2.0 * m - 1.0) - 6.0 * c * m * (m - 1.0) + 6.0 * m * c * c) == m * (m * m - 1.0)
  {
    assert 2.0 * c == m - 1.0;
    assert 6.0 * c * m * (m - 1.0) == 3.0 * (m - 1.0) * m * (m - 1.0);
    assert 4.0 * (m * c * c) == m * (m - 1.0) * (m - 1.0);
  }

  /** Around its own mean index the denominator is n(n^2 - 1)/12, so the guard
      against a zero denominator never fires for two bars or more. */
  lemma {:induction false} DenominatorIsPositive(n: nat, xMean: real)
    requires n >= 2 && xMean == (n as real - 1.0) / 2.0
    ensures 12.0 * Denominator(n, xMean) == n as real * (n as real * n as real - 1.0)
    ensures Denominator(n, xMean) > 0.0
  {
    var m := n as real;
    DenominatorExpands(n, xMean);
    CentredSquares(m, xMean);
    assert m >= 2.0;
    assert m * m >= 4.0;
    assert m * (m * m - 1.0) > 0.0;
  }

  lemma {:induction false} ResidualsExpand(ys: seq<real>, a: real, b: real)
    ensures var m := |ys| as real;
            2.0 * Residuals(ys, a, b) == 2.0 * Total(ys) - 2.0 * Times(m, a) - Times(b, m * (m - 1.0))
  {
    if ys != [] {
      var m := |ys| as real;
      ResidualsExpand(ys[..|ys| - 1], a, b);
      assert |ys[..|ys| - 1]| as real == m - 1.0;
      assert Times(m - 1.0, a) == Times(m, a) - a;
      assert Times(b, (m - 1.0) * (m - 2.0)) == Times(b, m * (m - 1.0)) - 2.0 * Times(b, m - 1.0);
    }
  }

  lemma MomentStep(x: real, y: real, a: real, b: real, i: real, yMean: real)
    requires a == yMean - Times(b, x)
    ensures Times(i - x, y - (a + Times(b, i)))
         == Times(i - x, y - yMean) - Times(b, Times(i - x, i - x))
  {
    assert y - (a + Times(b, i)) == (y - yMean) - Times(b, i - x);
  }

  lemma {:induction false} MomentExpands(ys: seq<real>, a: real, b: real, xMean: real, yMean: real)
    requires a == yMean - Times(b, xMean)
    ensures Moment(ys, a, b, xMean) == Numerator(ys, xMean, yMean) - Times(b, Denominator(|ys|, xMean))
  {
    hide Times;
    Zero(b);
    if ys != [] {
      var n := |ys| - 1;
      MomentExpands(ys[..n], a, b, xMean, yMean);
      MomentStep(xMean, ys[n], a, b, n as real, yMean);
      Distribute(b, Denominator(n, xMean), Times(n as real - xMean, n as real - xMean));
    }
  }

  /** Moving the centre of the weights moves the weighted sum by the plain sum. */
  lemma {:induction false} MomentShifts(ys: seq<real>, a: real, b: real, centre: real)
    ensures Moment(ys, a, b, centre) == Moment(ys, a, b, 0.0) - Times(centre, Residuals(ys, a, b))
  {
    if ys != [] {
      var n := |ys| - 1;
      MomentShifts(ys[..n], a, b, centre);
      var r := ys[n] - Line(a, b, n);
      assert Times(n as real - centre, r) == Times(n as real, r) - Times(centre, r);
      assert Times(centre, Residuals(ys[..n], a, b) + r) == Times(centre, Residuals(ys[..n], a, b)) + Times(centre, r);
    }
  }

  // ----- The fit -----

  /** The line that the two loops arrive at. */
  predicate IsFit(ys: seq<real>, slope: real, intercept: real) {
    |ys| >= 2 &&
    var n := |ys| as real;
    var xMean := (n - 1.0) / 2.0;
    var yMean := Total(ys) / n;
    && Times(slope, Denominator(|ys|, xMean)) == Numerator(ys, xMean, yMean)
    && intercept == yMean - Times(slope, xMean)
  }

  lemma DoubleCentre(m: real, b: real, x: real)
    requires x == (m - 1.0) / 2.0
    ensures Times(b, m * (m - 1.0)) == 2.0 * Times(m, Times(b, x))
  {
    assert m - 1.0 == 2.0 * x;
    assert b * (m * (2.0 * x)) == 2.0 * (m * (b * x));
  }

  /** Both normal equations hold: the residuals sum to zero, and so do the
      residuals weighted by bar index. */
  lemma {:induction false} NormalEquations(ys: seq<real>, slope: real, intercept: real)
    requires IsFit(ys, slope, intercept)
    ensures Residuals(ys, intercept, slope) == 0.0
    ensures Moment(ys, intercept, slope, 0.0) == 0.0
  {
    hide Times, Residuals, Moment, Numerator, Denominator, Total;
    var m := |ys| as real;
    var xMean := (m - 1.0) / 2.0;
    var yMean := Total(ys) / m;
    ResidualsExpand(ys, intercept, slope);
    DoubleCentre(m, slope, xMean);
    MeanTimesCount(m, Total(ys), yMean);
    Distribute(m, intercept, Times(slope, xMean));
    assert intercept + Times(slope, xMean) == yMean;
    MomentExpands(ys, intercept, slope, xMean, yMean);
    MomentShifts(ys, intercept, slope, xMean);
    Zero(xMean);
  }

  lemma SquareOfSum(r: real, d: real, da: real, db: real, i: real)
    requires d == da + Times(db, i)
    ensures Times(r + d, r + d)
         == Times(r, r) + 2.0 * Times(da, r) + 2.0 * Times(db, Times(i, r)) + Times(d, d)
  {
    assert Times(d, r) == Times(da, r) + Times(db, Times(i, r));
  }

  /** The squared error of any other line, expanded around this one. */
  lemma {:induction false} ErrorExpands(ys: seq<real>, a: real, b: real, a': real, b': real)
    ensures Error(ys, a', b')
         == Error(ys, a, b) + 2.0 * Times(a - a', Residuals(ys, a, b))
            + 2.0 * Times(b - b', Moment(ys, a, b, 0.0)) + Gap(|ys|, a - a', b - b')
  {
    if ys != [] {
      var n := |ys| - 1;
      var x := n as real;
      ErrorExpands(ys[..n], a, b, a', b');
      var r := ys[n] - Line(a, b, n);
      var d := Line(a - a', b - b', n);
      assert ys[n] - Line(a', b', n) == r + d;
      SquareOfSum(r, d, a - a', b - b', x);
      Distribute(a - a', Residuals(ys[..n], a, b), r);
      Distribute(b - b', Moment(ys[..n], a, b, 0.0), Times(x, r));
      assert Times(x - 0.0, r) == Times(x, r);
    }
  }

  lemma Zero(k: real)
    ensures Times(k, 0.0) == 0.0
  {
  }

  lemma Distribute(k: real, u: real, v: real)
    ensures Times(k, u + v) == Times(k, u) + Times(k, v)
  {
  }

  lemma ProductIsPositive(a: real, b: real)
    requires a > 0.0 && b > 0.0
    ensures Times(a, b) > 0.0
  {
  }

  lemma SquareIsPositive(d: real)
    ensures Times(d, d) >= 0.0
    ensures d != 0.0 ==> Times(d, d) > 0.0
  {
    assert Times(-d, -d) == Times(d, d);
    if d > 0.0 {
      ProductIsPositive(d, d);
    } else if d < 0.0 {
      ProductIsPositive(-d, -d);
    } else {
      assert d == 0.0;
      Zero(d);
    }
  }

  lemma {:induction false} GapIsPositive(n: nat, da: real, db: real)
    ensures Gap(n, da, db) >= 0.0
    ensures n >= 2 && (da != 0.0 || db != 0.0) ==> Gap(n, da, db) > 0.0
  {
    if n > 0 {
      GapIsPositive(n - 1, da, db);
      SquareIsPositive(Line(da, db, n - 1));
      if n == 2 {
        SquareIsPositive(Line(da, db, 0));
        assert Line(da, db, 0) == da && Line(da, db, 1) == da + db;
        assert Gap(1, da, db) == Gap(0, da, db) + Times(Line(da, db, 0), Line(da, db, 0));
      }
    }
  }

  /** No line is closer to the sample. */
  ghost predicate LeastSquares(ys: seq<real>, slope: real, intercept: real) {
    forall a: real, b: real {:trigger Error(ys, a, b)} ::
      Error(ys, a, b) >= Error(ys, intercept, slope)
      && (Error(ys, a, b) == Error(ys, intercept, slope) ==> a == intercept && b == slope)
  }

  /** The fitted line minimises the squared error over all lines, and it is the
      only line that does. */
  lemma {:induction false} FitIsBest(ys: seq<real>, slope: real, intercept: real)
    requires IsFit(ys, slope, intercept)
    ensures LeastSquares(ys, slope, intercept)
  {
    NormalEquations(ys, slope, intercept);
    forall a: real, b: real
      ensures Error(ys, a, b) >= Error(ys, intercept, slope)
      ensures Error(ys, a, b) == Error(ys, intercept, slope) ==> a == intercept && b == slope
    {
      ErrorExpands(ys, intercept, slope, a, b);
      assert Times(intercept - a, 0.0) == 0.0 && Times(slope - b, 0.0) == 0.0;
      GapIsPositive(|ys|, intercept - a, slope - b);
    }
  }

  predicate OnLine(ys: seq<real>, a: real, b: real) {
    forall i :: 0 <= i < |ys| ==> ys[i] == Line(a, b, i)
  }

  lemma OnLineStep(ys: seq<real>, a: real, b: real)
    requires ys != []
    ensures OnLine(ys, a, b) <==> OnLine(ys[..|ys| - 1], a, b) && ys[|ys| - 1] == Line(a, b, |ys| - 1)
  {
    var n := |ys| - 1;
    assert forall i :: 0 <= i < n ==> ys[..n][i] == ys[i];
  }

  lemma {:induction false} ErrorIsPositive(ys: seq<real>, a: real, b: real)
    ensures Error(ys, a, b) >= 0.0
    ensures Error(ys, a, b) == 0.0 <==> OnLine(ys, a, b)
  {
    if ys != [] {
      var n := |ys| - 1;
      ErrorIsPositive(ys[..n], a, b);
      SquareIsPositive(ys[n] - Line(a, b, n));
      OnLineStep(ys, a, b);
    }
  }

  /** The band has no width exactly when every close lies on one line, and then
      the study finds that line. */
  lemma {:induction false} FlatBandMeansALine(ys: seq<real>, slope: real, intercept: real)
    requires LeastSquares(ys, slope, intercept)
    ensures Error(ys, intercept, slope) == 0.0 <==> exists a: real, b: real :: OnLine(ys, a, b)
    ensures forall a: real, b: real :: OnLine(ys, a, b) ==> a == intercept && b == slope
  {
    ErrorIsPositive(ys, intercept, slope);
    forall a: real, b: real | OnLine(ys, a, b)
      ensures a == intercept && b == slope && Error(ys, intercept, slope) == 0.0
    {
      ErrorIsPositive(ys, a, b);
    }
  }

  // ----- The loops -----

  lemma TakeOneMore(ys: seq<real>, i: nat)
    requires i < |ys|
    ensures ys[..i + 1][..i] == ys[..i] && |ys[..i + 1]| == i + 1 && ys[..i + 1][i] == ys[i]
  {
  }

  method SumCloses(closes: seq<Price>) returns (sum: Option<real>)
    ensures sum.Some? <==> AllFinite(closes)
    ensures sum.Some? ==> sum.value == Total(Amounts(closes))
  {
    var ySum := 0.0;
    for i := 0 to |closes|
      invariant AllFinite(closes[..i])
      invariant ySum == Total(Amounts(closes[..i]))
    {
      if !closes[i].Finite? {
        return None;
      }
      assert Amounts(closes[..i + 1])[..i] == Amounts(closes[..i]);
      ySum := ySum + closes[i].amount;
    }
    assert closes[..|closes|] == closes;
    sum := Some(ySum);
  }

  /** The loop over the centred sums. */
  method CentredSums(ys: seq<real>, xMean: real, yMean: real) returns (numerator: real, denominator: real)
    ensures numerator == Numerator(ys, xMean, yMean)
    ensures denominator == Denominator(|ys|, xMean)
  {
    numerator, denominator := 0.0, 0.0;
    for i := 0 to |ys|
      invariant numerator == Numerator(ys[..i], xMean, yMean)
      invariant denominator == Denominator(i, xMean)
    {
      TakeOneMore(ys, i);
      var xDelta := i as real - xMean;
      numerator := numerator + Times(xDelta, ys[i] - yMean);
      denominator := denominator + Times(xDelta, xDelta);
    }
    assert ys[..|ys|] == ys;
  }

  lemma Quotient(numerator: real, denominator: real)
    requires denominator != 0.0
    ensures Times(numerator / denominator, denominator) == numerator
  {
  }

  /** The slope and intercept of the sample. */
  method FitLine(ys: seq<real>, ySum: real) returns (slope: real, intercept: real)
    requires |ys| >= 2 && ySum == Total(ys)
    ensures LeastSquares(ys, slope, intercept)
  {
    hide Times, LeastSquares, Numerator, Denominator;
    var n := |ys| as real;
    var xMean := (n - 1.0) / 2.0;
    var yMean := ySum / n;
    var numerator, denominator := CentredSums(ys, xMean, yMean);
    DenominatorIsPositive(|ys|, xMean);
    slope := if denominator != 0.0 then numerator / denominator else 0.0;
    Quotient(numerator, denominator);
    intercept := yMean - Times(slope, xMean);
    FitIsBest(ys, slope, intercept);
  }

  method SquaredError(ys: seq<real>, slope: real, intercept: real) returns (residualSquares: real)
    ensures residualSquares == Error(ys, intercept, slope)
  {
    residualSquares := 0.0;
    for i := 0 to |ys|
      invariant residualSquares == Error(ys[..i], intercept, slope)
    {
      TakeOneMore(ys, i);
      var fitted := intercept + slope * i as real;
      var residual := ys[i] - fitted;
      residualSquares := residualSquares + residual * residual;
    }
    assert ys[..|ys|] == ys;
  }

  ghost predicate IsRoot(root: real -> real) {
    forall v: real :: v >= 0.0 ==> root(v) >= 0.0 && Times(root(v), root(v)) == v
  }

  /** What a study says about the sample it was fitted to. */
  ghost predicate Describes(study: Study, ys: seq<real>, deviations: real) {
    && study.Fitted?
    && LeastSquares(ys, study.slope, study.intercept)
    && study.sigma >= 0.0
    && Times(|ys| as real, Times(study.sigma, study.sigma)) == Error(ys, study.intercept, study.slope)
    && study.mean == Line(study.intercept, study.slope, |ys| - 1)
    && study.lower <= study.mean <= study.upper
    && study.upper - study.mean == study.mean - study.lower == Times(deviations, study.sigma)
  }

  lemma MeanTimesCount(n: real, error: real, variance: real)
    requires n > 0.0 && variance == error / n
    ensures Times(n, variance) == error
    ensures error >= 0.0 ==> variance >= 0.0
  {
  }

  /** The arithmetic of the study over the closes that the history returned.
      The square root is a parameter. */
  method CalculateRegressionStudy(
    closes: seq<Price>, rawLookback: int, rawDeviations: real, root: real -> real) returns (study: Study)
    requires IsRoot(root)
    ensures rawLookback < 2 ==> study == Failed("regression lookback is required")
    ensures rawLookback >= 2 && |closes| < Lookback(rawLookback) ==>
              study == Failed("not enough bars for requested regression lookback")
    ensures rawLookback >= 2 && |closes| >= Lookback(rawLookback) ==>
              var sample := closes[|closes| - Lookback(rawLookback)..];
              if AllFinite(sample) then Describes(study, Amounts(sample), Deviations(rawDeviations))
              else study == Failed("non-finite close in regression sample")
  {
    if rawLookback < 2 {
      return Failed("regression lookback is required");
    }
    var lookback := Lookback(rawLookback);
    var deviations := Deviations(rawDeviations);
    if |closes| < lookback {
      return Failed("not enough bars for requested regression lookback");
    }
    var sample := closes[|closes| - lookback..];
    var ySum := SumCloses(sample);
    if ySum.None? {
      return Failed("non-finite close in regression sample");
    }
    var ys := Amounts(sample);
    var slope, intercept := FitLine(ys, ySum.value);
    var residualSquares := SquaredError(ys, slope, intercept);
    ErrorIsPositive(ys, intercept, slope);
    study := Band(lookback, slope, intercept, residualSquares, deviations, root);
  }

  /** The fitted value at the newest bar, and the band around it. */
  method Band(
    n: int, slope: real, intercept: real, residualSquares: real, deviations: real, root: real -> real)
    returns (study: Study)
    requires IsRoot(root)
    requires n >= 2 && residualSquares >= 0.0 && deviations >= 0.0
    ensures study.Fitted? && study.slope == slope && study.intercept == intercept
    ensures study.sigma >= 0.0 && Times(n as real, Times(study.sigma, study.sigma)) == residualSquares
    ensures study.mean == Line(intercept, slope, n - 1)
    ensures study.lower <= study.mean <= study.upper
    ensures study.upper - study.mean == study.mean - study.lower == Times(deviations, study.sigma)
  {
    MeanTimesCount(n as real, residualSquares, residualSquares / n as real);
    var sigma := root(residualSquares / n as real);
    var mean := intercept + Times(slope, (n - 1) as real);
    var width := Times(deviations, sigma);
    assert width >= 0.0;
    study := Fitted(slope, intercept, sigma, mean, mean + width, mean - width);
  }
}
