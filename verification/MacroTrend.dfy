/** The deterministic macro trend classifier and the statistics that bound what it can report. */
module MacroTrend {
  import opened Prelude
  import opened RealFacts

  datatype Horizon = Short | Medium | Long
  datatype TrendState = Anomaly | Rising | Falling | Stable

  datatype MacroObservation = MacroObservation(seriesId: string, seasonalAdjustment: string, value: real)
  datatype TrendSignal = TrendSignal(seriesId: string, state: TrendState, slope: real, mean: real, zScore: real,
    window: seq<MacroObservation>)

  function WindowSize(h: Horizon): nat {
    match h
    case Short => 3
    case Medium => 6
    case Long => 12
  }

  function Sum(xs: seq<real>): real {
    if xs == [] then 0.0 else Sum(xs[..|xs| - 1]) + xs[|xs| - 1]
  }

  function Mean(xs: seq<real>): real
    requires xs != []
  {
    Sum(xs) / |xs| as real
  }

  /** The sum of (x - m)^2. */
  function SquaredDeviations(xs: seq<real>, m: real): real {
    if xs == [] then 0.0
    else SquaredDeviations(xs[..|xs| - 1], m) + Square(xs[|xs| - 1] - m)
  }

  function Variance(xs: seq<real>): real
    requires xs != []
  {
    SquaredDeviations(xs, Mean(xs)) / |xs| as real
  }

  function Last(xs: seq<real>): real
    requires xs != []
  {
    xs[|xs| - 1]
  }

  function Slope(xs: seq<real>): real
    requires xs != []
  {
    if |xs| == 1 then 0.0 else (Last(xs) - xs[0]) / (|xs| - 1) as real
  }

  function ZScore(xs: seq<real>, deviation: real): real
    requires xs != []
  {
    if deviation == 0.0 then 0.0 else (Last(xs) - Mean(xs)) / deviation
  }

  function Abs(x: real): real {
    if x < 0.0 then -x else x
  }

  function Classify(xs: seq<real>, deviation: real): TrendState
    requires xs != []
  {
    if Abs(ZScore(xs, deviation)) >= 2.0 then Anomaly
    else if Slope(xs) > 0.0 then Rising
    else if Slope(xs) < 0.0 then Falling
    else Stable
  }

  function Window(observations: seq<MacroObservation>, h: Horizon): seq<MacroObservation> {
    if |observations| <= WindowSize(h) then observations else observations[|observations| - WindowSize(h)..]
  }

  function Values(observations: seq<MacroObservation>): seq<real> {
    seq(|observations|, i requires 0 <= i < |observations| => observations[i].value)
  }

  /** The source takes the root in floating point; here it is a function that the laws constrain. */
  type Root = real -> real

  function CalculateTrend(observations: seq<MacroObservation>, h: Horizon, root: Root): Result<TrendSignal, Violation> {
    if observations == [] then Err(IntegrityViolation)
    else if exists i :: 0 <= i < |observations| && (observations[i].seriesId != observations[0].seriesId
                        || observations[i].seasonalAdjustment != observations[0].seasonalAdjustment)
    then Err(IntegrityViolation)
    else
      var window := Window(observations, h);
      var values := Values(window);
      var deviation := root(Variance(values));
      Ok(TrendSignal(observations[0].seriesId, Classify(values, deviation), Slope(values), Mean(values),
                     ZScore(values, deviation), window))
  }

  /**
   The answer is about the last values of one series, at most as many as the horizon names, and mixed input raises.
   */
  lemma TrendIsAboutTheLastValues(observations: seq<MacroObservation>, h: Horizon, root: Root)
    ensures var r := CalculateTrend(observations, h, root);
            && (r.Ok? <==> observations != [] && forall o: MacroObservation :: o in observations ==>
                             o.seriesId == observations[0].seriesId
                                 && o.seasonalAdjustment == observations[0].seasonalAdjustment)
            && (r.Ok? ==> && r.value.seriesId == observations[0].seriesId
                          && 1 <= |r.value.window| <= WindowSize(h)
                              && (|r.value.window| < WindowSize(h) ==> r.value.window == observations)
                          && observations[|observations| - |r.value.window|..] == r.value.window
                          && r.value.mean == Mean(Values(r.value.window)))
  {
    hide Mean, Variance, Slope, ZScore, Classify;
  }

  /** Slope, mean and score multiplied out, and how the state follows from them. */
  ghost predicate Adds(xs: seq<real>, deviation: real, t: TrendSignal)
    requires xs != []
  {
    var n := |xs|;
    && t.slope * (n - 1) as real == xs[n - 1] - xs[0] && (n == 1 ==> t.slope == 0.0)
    && t.mean * n as real == Sum(xs)
    && (if deviation == 0.0 then t.zScore == 0.0 else t.zScore * deviation == xs[n - 1] - t.mean)
    && t.state == if t.zScore >= 2.0 || t.zScore <= -2.0 then Anomaly
                  else if t.slope > 0.0 then Rising else if t.slope < 0.0 then Falling else Stable
  }

  lemma FiguresAdd(xs: seq<real>, deviation: real, t: TrendSignal)
    requires xs != [] && t.slope == Slope(xs) && t.mean == Mean(xs) && t.zScore == ZScore(xs, deviation)
    requires t.state == Classify(xs, deviation)
    ensures Adds(xs, deviation, t)
  {
    if |xs| > 1 {
      QuotientTimes(Last(xs) - xs[0], (|xs| - 1) as real);
    }
    QuotientTimes(Sum(xs), |xs| as real);
    if deviation != 0.0 {
      QuotientTimes(Last(xs) - Mean(xs), deviation);
    }
    hide Sum;
  }

  /** The figures of a signal are those of the last values, as many as the horizon looks at. */
  lemma TrendFigures(observations: seq<MacroObservation>, h: Horizon, root: Root)
    requires CalculateTrend(observations, h, root).Ok?
    ensures var t := CalculateTrend(observations, h, root).value;
            && |t.window| == (if |observations| < Longest(h) then |observations| else Longest(h)) && t.window != []
            && Adds(Values(t.window), root(Variance(Values(t.window))), t)
  {
    hide Variance, Slope, Mean, ZScore, Classify, Adds;
    var xs := Values(Window(observations, h));
    FiguresAdd(xs, root(Variance(xs)), CalculateTrend(observations, h, root).value);
  }

  /** The most values that each horizon looks at. */
  function Longest(h: Horizon): nat {
    if h == Short then 3 else if h == Medium then 6 else 12
  }

  /** Short of an anomaly the state is the direction from the first to the last value of the window. */
  lemma TrendIsDirection(xs: seq<real>, deviation: real)
    requires xs != [] && Classify(xs, deviation) != Anomaly
    ensures Classify(xs, deviation) == Rising <==> Last(xs) > xs[0]
    ensures Classify(xs, deviation) == Falling <==> Last(xs) < xs[0]
  {
    hide ZScore;
    if |xs| > 1 {
      QuotientSign(Last(xs) - xs[0], (|xs| - 1) as real);
    }
  }

  lemma QuotientSign(a: real, n: real)
    requires n > 0.0
    ensures a / n > 0.0 <==> a > 0.0
    ensures a / n < 0.0 <==> a < 0.0
  {
    QuotientTimes(a, n);
    if a / n > 0.0 {
      ProductPositive(a / n, n);
    } else if a / n < 0.0 {
      ProductPositive(-(a / n), n);
    }
  }

  // ---------------------------------------------------------------------------------------------
  // Samuelson's inequality
  // ---------------------------------------------------------------------------------------------

  lemma {:induction false} SquaredDeviationsNonNegative(xs: seq<real>, m: real)
    ensures SquaredDeviations(xs, m) >= 0.0
    ensures SquaredDeviations(xs, m) == 0.0 <==> forall i :: 0 <= i < |xs| ==> xs[i] == m
  {
    hide Square;
    if xs != [] {
      var n := |xs| - 1;
      SquaredDeviationsNonNegative(xs[..n], m);
      SquareSign(xs[n] - m);
      assert forall i :: 0 <= i < n ==> xs[i] == xs[..n][i];
    }
  }

  /** Moving the centre of the squared deviations from m to c. */
  lemma {:induction false} Recentre(xs: seq<real>, m: real, c: real)
    ensures SquaredDeviations(xs, c) == Moved(SquaredDeviations(xs, m), m, c, Sum(xs), |xs| as real)
  {
    hide Square, Moved;
    if xs == [] {
      MovedZero(m, c);
    } else {
      var n := |xs| - 1;
      Recentre(xs[..n], m, c);
      MovedStep(SquaredDeviations(xs[..n], m), xs[n], m, c, Sum(xs[..n]), n as real);
      assert |xs| as real == n as real + 1.0;
    }
  }

  function Moved(squares: real, m: real, c: real, sum: real, n: real): real {
    squares + 2.0 * (m - c) * (sum - n * m) + n * ((m - c) * (m - c))
  }

  lemma MovedZero(m: real, c: real)
    ensures Moved(0.0, m, c, 0.0, 0.0) == 0.0
  {
  }

  lemma MovedStep(squares: real, x: real, m: real, c: real, sum: real, n: real)
    ensures Moved(squares, m, c, sum, n) + Square(x - c) == Moved(squares + Square(x - m), m, c, sum + x, n + 1.0)
  {
    var d := m - c;
    assert Square(x - c) == Square(x - m) + 2.0 * d * (x - m) + d * d;
    assert sum + x - (n + 1.0) * m == (sum - n * m) + (x - m);
    assert 2.0 * d * ((sum - n * m) + (x - m)) == 2.0 * d * (sum - n * m) + 2.0 * d * (x - m);
    assert (n + 1.0) * (d * d) == n * (d * d) + d * d;
  }

  /**
   How far the last value can lie from the mean: the exact slack in Samuelson's inequality is the
   scatter of the earlier values around their own mean.
   */
  lemma SamuelsonIdentity(xs: seq<real>)
    requires |xs| >= 2
    ensures var n, ys := |xs| as real, xs[..|xs| - 1];
            n * ((n - 1.0) * Variance(xs)) == n * Square(Last(xs) - Mean(xs)) + (n - 1.0) * SquaredDeviations(ys,
                Mean(ys))
  {
    hide *;
    var ys := xs[..|xs| - 1];
    SumFacts(xs);
    EarlierSum(xs);
    SquareFacts(xs);
    EarlierScatter(xs);
    SamuelsonCore(|xs| as real, Last(xs), Sum(ys), Mean(xs), Mean(ys), Variance(xs), SquaredDeviations(ys, Mean(xs)),
                  SquaredDeviations(ys, Mean(ys)));
  }

  lemma SumFacts(xs: seq<real>)
    requires |xs| >= 2
    ensures |xs| as real * Mean(xs) == Sum(xs[..|xs| - 1]) + Last(xs)
  {
    MeanTimes(xs);
  }

  lemma EarlierSum(xs: seq<real>)
    requires |xs| >= 2
    ensures (|xs| as real - 1.0) * Mean(xs[..|xs| - 1]) == Sum(xs[..|xs| - 1])
  {
    var ys := xs[..|xs| - 1];
    assert |ys| as real == |xs| as real - 1.0;
    QuotientTimes(Sum(ys), |xs| as real - 1.0);
  }

  lemma SquareFacts(xs: seq<real>)
    requires |xs| >= 2
    ensures |xs| as real * Variance(xs) == SquaredDeviations(xs[..|xs| - 1], Mean(xs)) + Square(Last(xs) - Mean(xs))
  {
    VarianceTimes(xs);
    LastDeviation(xs, Mean(xs));
  }

  lemma EarlierScatter(xs: seq<real>)
    requires |xs| >= 2
    ensures var ys := xs[..|xs| - 1];
            SquaredDeviations(ys, Mean(ys)) == Moved(SquaredDeviations(ys, Mean(xs)), Mean(xs), Mean(ys), Sum(ys),
                                                     |xs| as real - 1.0)
  {
    Recentre(xs[..|xs| - 1], Mean(xs), Mean(xs[..|xs| - 1]));
    assert |xs[..|xs| - 1]| as real == |xs| as real - 1.0;
  }

  lemma LastDeviation(xs: seq<real>, m: real)
    requires xs != []
    ensures SquaredDeviations(xs, m) == SquaredDeviations(xs[..|xs| - 1], m) + Square(Last(xs) - m)
  {
  }

  lemma MeanTimes(xs: seq<real>)
    requires xs != []
    ensures |xs| as real * Mean(xs) == Sum(xs)
  {
    QuotientTimes(Sum(xs), |xs| as real);
  }

  lemma VarianceTimes(xs: seq<real>)
    requires xs != []
    ensures |xs| as real * Variance(xs) == SquaredDeviations(xs, Mean(xs))
  {
    hide SquaredDeviations, Mean;
    QuotientTimes(SquaredDeviations(xs, Mean(xs)), |xs| as real);
  }

  lemma SamuelsonCore(n: real, last: real, sum: real, m: real, c: real, v: real, others: real, centred: real)
    requires n * m == sum + last && (n - 1.0) * c == sum
    requires n * v == others + Square(last - m)
    requires centred == Moved(others, m, c, sum, n - 1.0)
    ensures n * ((n - 1.0) * v) == n * Square(last - m) + (n - 1.0) * centred
  {
    var d, e := last - m, m - c;
    assert (n - 1.0) * m == sum + d by {
      assert (n - 1.0) * m == n * m - m;
    }
    assert (n - 1.0) * e == d by {
      assert (n - 1.0) * e == (n - 1.0) * m - (n - 1.0) * c;
    }
    SamuelsonAlgebra(n, e, d, others, centred, v);
  }

  lemma SamuelsonAlgebra(n: real, e: real, d: real, others: real, centred: real, variance: real)
    requires (n - 1.0) * e == d
    requires centred == others + 2.0 * e * -d + (n - 1.0) * (e * e)
    requires n * variance == others + Square(d)
    ensures n * ((n - 1.0) * variance) == n * Square(d) + (n - 1.0) * centred
  {
    assert (n - 1.0) * (e * e) == d * e;
    assert centred == others - e * d;
    assert (n - 1.0) * (e * d) == d * d;
    assert (n - 1.0) * centred == (n - 1.0) * others - d * d;
    assert n * ((n - 1.0) * variance) == (n - 1.0) * (n * variance);
    assert (n - 1.0) * (others + d * d) == (n - 1.0) * others + (n - 1.0) * (d * d);
    assert n * (d * d) - d * d == (n - 1.0) * (d * d);
  }

  /** Samuelson's inequality, with its equality case. */
  lemma SamuelsonBound(xs: seq<real>)
    requires |xs| >= 1
    ensures Square(Last(xs) - Mean(xs)) <= (|xs| as real - 1.0) * Variance(xs)
    ensures Square(Last(xs) - Mean(xs)) == (|xs| as real - 1.0) * Variance(xs) <==>
            forall i :: 0 <= i < |xs| - 1 ==> xs[i] == xs[0]
  {
    hide *;
    if |xs| == 1 {
      SingleValue(xs);
    } else {
      var ys := xs[..|xs| - 1];
      SamuelsonIdentity(xs);
      SquaredDeviationsNonNegative(ys, Mean(ys));
      Slack(|xs| as real, Variance(xs), Square(Last(xs) - Mean(xs)), SquaredDeviations(ys, Mean(ys)));
      ConstantSequence(ys);
      assert forall i :: 0 <= i < |xs| - 1 ==> xs[i] == ys[i];
    }
  }

  lemma SingleValue(xs: seq<real>)
    requires |xs| == 1
    ensures Square(Last(xs) - Mean(xs)) == 0.0 == (|xs| as real - 1.0) * Variance(xs)
  {
    assert Sum(xs) == xs[0] by { assert xs[..0] == []; }
    assert Mean(xs) == xs[0];
  }

  lemma Slack(n: real, v: real, square: real, scatter: real)
    requires n >= 2.0 && scatter >= 0.0
    requires n * ((n - 1.0) * v) == n * square + (n - 1.0) * scatter
    ensures square <= (n - 1.0) * v && (square == (n - 1.0) * v <==> scatter == 0.0)
  {
    var slack := (n - 1.0) * v - square;
    assert n * slack == (n - 1.0) * scatter;
    ScaledNonNegative(n, slack, n - 1.0, scatter);
  }

  lemma ScaledNonNegative(a: real, x: real, b: real, y: real)
    requires 0.0 < a && 0.0 < b && 0.0 <= y && a * x == b * y
    ensures 0.0 <= x && (x == 0.0 <==> y == 0.0)
  {
    ProductNonNegative(b, y);
    QuotientMonotone(0.0, b * y, a);
    QuotientCancel(x, a);
    QuotientCancel(y, b);
  }

  lemma VarianceNonNegative(xs: seq<real>)
    requires xs != []
    ensures Variance(xs) >= 0.0
  {
    SquaredDeviationsNonNegative(xs, Mean(xs));
    QuotientMonotone(0.0, SquaredDeviations(xs, Mean(xs)), |xs| as real);
  }

  /** All values equal their mean exactly when they equal each other. */
  lemma ConstantSequence(ys: seq<real>)
    requires ys != []
    ensures (forall i :: 0 <= i < |ys| ==> ys[i] == Mean(ys)) <==> (forall i :: 0 <= i < |ys| ==> ys[i] == ys[0])
  {
    if forall i :: 0 <= i < |ys| ==> ys[i] == ys[0] {
      SumOfConstant(ys, ys[0]);
      QuotientCancel(ys[0], |ys| as real);
    }
  }

  lemma {:induction false} SumOfConstant(ys: seq<real>, c: real)
    requires forall i :: 0 <= i < |ys| ==> ys[i] == c
    ensures Sum(ys) == |ys| as real * c
  {
    if ys != [] {
      SumOfConstant(ys[..|ys| - 1], c);
      assert |ys| as real * c == (|ys| - 1) as real * c + c;
    }
  }

  // ---------------------------------------------------------------------------------------------
  // Which states can be reported
  // ---------------------------------------------------------------------------------------------

  /** d is the non-negative square root of v. */
  predicate ExactRoot(v: real, d: real) {
    d >= 0.0 && Square(d) == v
  }

  /**
   Any root that falls short of the true deviation by less than a factor 2 / sqrt(3), or is zero; it may be too
   large.
   */
  predicate NearRoot(v: real, d: real) {
    d >= 0.0 && (d == 0.0 || 3.0 * v < 4.0 * Square(d))
  }

  lemma ExactRootIsNear(v: real, d: real)
    requires ExactRoot(v, d)
    ensures NearRoot(v, d)
  {
    SquareSign(d);
  }

  lemma AtLeastTwo(q: real)
    ensures Abs(q) >= 2.0 <==> Square(q) >= 4.0
  {
    var a := Abs(q);
    assert Square(a) == Square(q);
    if a >= 2.0 {
      ProductNonNegative(a - 2.0, a + 2.0);
      assert (a - 2.0) * (a + 2.0) == Square(a) - 4.0;
    } else {
      ProductPositive(2.0 - a, 2.0 + a);
      assert Product(2.0 - a, 2.0 + a) == 4.0 - Square(a);
    }
  }

  /** |a / d| >= 2 without the division and without the root. */
  lemma RatioAtLeastTwo(a: real, d: real)
    requires d > 0.0
    ensures Abs(a / d) >= 2.0 <==> Square(a) >= 4.0 * Square(d)
  {
    hide Square;
    QuotientTimes(a, d);
    ScaledAtLeastTwo(a / d, d, a);
  }

  lemma ScaledAtLeastTwo(q: real, d: real, a: real)
    requires d > 0.0 && Product(q, d) == a
    ensures Abs(q) >= 2.0 <==> Square(a) >= 4.0 * Square(d)
  {
    hide Square;
    AtLeastTwo(q);
    SquareOfProduct(q, d);
    SquareSign(d);
    CompareScaled(Square(q), 4.0, Square(d));
  }

  lemma SquareOfProduct(q: real, d: real)
    ensures Square(Product(q, d)) == Product(Square(q), Square(d))
  {
    assert (q * d) * (q * d) == (q * q) * (d * d);
  }

  lemma CompareScaled(a: real, b: real, c: real)
    requires c > 0.0
    ensures a >= b <==> a * c >= b * c
  {
    if a >= b {
      ProductMonotone(b, a, c);
    } else {
      ProductPositive(b - a, c);
      assert Product(b - a, c) == b * c - a * c;
    }
  }

  /** ANOMALY means a deviation of at least two standard deviations. */
  lemma AnomalyMeansTwoDeviations(xs: seq<real>, deviation: real)
    requires xs != [] && deviation >= 0.0
    ensures Classify(xs, deviation) == Anomaly <==>
            deviation > 0.0 && Square(Last(xs) - Mean(xs)) >= 4.0 * Square(deviation)
  {
    hide Square, Mean;
    if deviation > 0.0 {
      RatioAtLeastTwo(Last(xs) - Mean(xs), deviation);
    }
  }

  /** No window of fewer than five values can be an anomaly, even with a rough square root. */
  lemma AnomalyNeedsFiveValues(xs: seq<real>, deviation: real)
    requires xs != [] && NearRoot(Variance(xs), deviation)
    requires Classify(xs, deviation) == Anomaly
    ensures |xs| >= 5
  {
    hide Square, Mean, Variance, Classify;
    AnomalyMeansTwoDeviations(xs, deviation);
    SamuelsonBound(xs);
    VarianceNonNegative(xs);
    if |xs| < 5 {
      ProductMonotone(|xs| as real - 1.0, 3.0, Variance(xs));
    }
  }

  /** Five values sit exactly on the threshold: an anomaly is a step after four equal values. */
  lemma AnomalyAmongFiveValues(xs: seq<real>, deviation: real)
    requires |xs| == 5 && ExactRoot(Variance(xs), deviation)
    ensures Classify(xs, deviation) == Anomaly <==> xs[0] == xs[1] == xs[2] == xs[3] != xs[4]
  {
    hide Square, Mean, Variance, Classify;
    AnomalyMeansTwoDeviations(xs, deviation);
    SamuelsonBound(xs);
    SquareSign(deviation);
    ZeroVariance(xs);
    assert (|xs| as real - 1.0) * Variance(xs) == 4.0 * Variance(xs);
  }

  lemma ZeroVariance(xs: seq<real>)
    requires xs != []
    ensures Variance(xs) == 0.0 <==> forall i :: 0 <= i < |xs| ==> xs[i] == xs[0]
  {
    VarianceTimes(xs);
    ZeroFactor(|xs| as real, Variance(xs));
    SquaredDeviationsNonNegative(xs, Mean(xs));
    ConstantSequence(xs);
  }

  lemma ZeroFactor(a: real, b: real)
    requires a != 0.0
    ensures a * b == 0.0 <==> b == 0.0
  {
    QuotientCancel(b, a);
  }

  /** The SHORT horizon looks at three values and never reports an anomaly. */
  lemma ShortHorizonNeverAnomalous(observations: seq<MacroObservation>, root: Root)
    requires observations != []
    requires var v := Variance(Values(Window(observations, Short))); NearRoot(v, root(v))
    ensures var r := CalculateTrend(observations, Short, root); r.Ok? ==> r.value.state != Anomaly
  {
    var values := Values(Window(observations, Short));
    if Classify(values, root(Variance(values))) == Anomaly {
      AnomalyNeedsFiveValues(values, root(Variance(values)));
    }
  }

  /** An input for which the horizon reports ANOMALY, with the exact root. */
  ghost predicate ReportsAnomaly(observations: seq<MacroObservation>, h: Horizon, root: Root) {
    && observations != []
    && (var v := Variance(Values(Window(observations, h))); ExactRoot(v, root(v)))
    && CalculateTrend(observations, h, root).Ok?
    && CalculateTrend(observations, h, root).value.state == Anomaly
  }

  /** Exactly the MEDIUM and LONG horizons can report an anomaly. */
  lemma AnomalyReachableIff(h: Horizon)
    ensures (exists observations, root :: ReportsAnomaly(observations, h, root)) <==> h != Short
  {
    if h == Short {
      forall observations, root ensures !ReportsAnomaly(observations, h, root) {
        if observations != [] {
          var v := Variance(Values(Window(observations, Short)));
          if ExactRoot(v, root(v)) {
            ExactRootIsNear(v, root(v));
            ShortHorizonNeverAnomalous(observations, root);
          }
        }
      }
    } else {
      var calm := MacroObservation("cpi", "unadjusted", 0.0);
      var observations := [calm, calm, calm, calm, calm.(value := 1.0)];
      var root: Root := _ => 0.4;
      assert Window(observations, h) == observations;
      assert Values(observations) == [0.0, 0.0, 0.0, 0.0, 1.0];
      StepVariance();
      AnomalyAmongFiveValues(Values(observations), 0.4);
      assert ReportsAnomaly(observations, h, root);
    }
  }

  lemma StepVariance()
    ensures ExactRoot(Variance([0.0, 0.0, 0.0, 0.0, 1.0]), 0.4)
  {
    var zeros := [0.0, 0.0, 0.0, 0.0];
    var xs := zeros + [1.0];
    assert xs == [0.0, 0.0, 0.0, 0.0, 1.0];
    assert xs[..4] == zeros;
    SumOfConstant(zeros, 0.0);
    assert Sum(xs) == 1.0;
    assert Mean(xs) == 0.2;
    SquaresOfConstant(zeros, 0.0, 0.2);
    assert Square(0.8) == 0.64 && Square(-0.2) == 0.04 && Square(0.4) == 0.16;
    assert SquaredDeviations(xs, 0.2) == 0.8;
  }

  lemma {:induction false} SquaresOfConstant(ys: seq<real>, c: real, m: real)
    requires forall i :: 0 <= i < |ys| ==> ys[i] == c
    ensures SquaredDeviations(ys, m) == |ys| as real * Square(c - m)
  {
    hide Square;
    if ys != [] {
      SquaresOfConstant(ys[..|ys| - 1], c, m);
      assert |ys| as real * Square(c - m) == (|ys| - 1) as real * Square(c - m) + Square(c - m);
    }
  }

  // ---------------------------------------------------------------------------------------------
  // Change of unit
  // ---------------------------------------------------------------------------------------------

  function Affine(xs: seq<real>, a: real, b: real): (r: seq<real>)
    ensures |r| == |xs| && forall i :: 0 <= i < |xs| ==> r[i] == Product(a, xs[i]) + b
  {
    seq(|xs|, i requires 0 <= i < |xs| => Product(a, xs[i]) + b)
  }

  function Mirrored(s: TrendState): TrendState {
    match s
    case Rising => Falling
    case Falling => Rising
    case _ => s
  }

  lemma {:induction false} AffineSum(xs: seq<real>, a: real, b: real)
    ensures Sum(Affine(xs, a, b)) == Product(a, Sum(xs)) + |xs| as real * b
  {
    if xs == [] {
      ProductZero(a);
    } else {
      var n := |xs| - 1;
      AffineSum(xs[..n], a, b);
      assert Affine(xs, a, b)[..n] == Affine(xs[..n], a, b);
      AffineSumStep(xs[n], a, b, Sum(xs[..n]), n as real);
      assert |xs| as real == n as real + 1.0;
      hide Product, Affine;
    }
  }

  lemma {:induction false} AffineSquares(xs: seq<real>, a: real, b: real, m: real)
    ensures SquaredDeviations(Affine(xs, a, b), Product(a, m) + b) == Product(Square(a), SquaredDeviations(xs, m))
  {
    if xs == [] {
      ProductZero(Square(a));
    } else {
      var n := |xs| - 1;
      AffineSquares(xs[..n], a, b, m);
      assert Affine(xs, a, b)[..n] == Affine(xs[..n], a, b);
      AffineSquareStep(xs[n], a, b, m, SquaredDeviations(xs[..n], m));
      hide Product, Square, Affine;
    }
  }

  lemma ProductZero(a: real)
    ensures Product(a, 0.0) == 0.0
  {
  }

  lemma AffineSumStep(x: real, a: real, b: real, sum: real, n: real)
    ensures Product(a, sum) + n * b + (Product(a, x) + b) == Product(a, sum + x) + (n + 1.0) * b
  {
  }

  lemma AffineSquareStep(x: real, a: real, b: real, m: real, squares: real)
    ensures Product(Square(a), squares) + Square((Product(a, x) + b) - (Product(a, m) + b))
            == Product(Square(a), squares + Square(x - m))
  {
    assert (Product(a, x) + b) - (Product(a, m) + b) == a * (x - m);
    SquareOfProduct(a, x - m);
  }

  /** A mean of transformed values, given their sum. */
  lemma AffineQuotient(a: real, s: real, n: real, b: real)
    requires n != 0.0
    ensures (Product(a, s) + n * b) / n == Product(a, s / n) + b
  {
    QuotientCancel(a * (s / n) + b, n);
    QuotientTimes(s, n);
    assert (a * (s / n) + b) * n == a * (s / n * n) + n * b;
  }

  lemma AffineMean(xs: seq<real>, a: real, b: real)
    requires xs != []
    ensures Mean(Affine(xs, a, b)) == Product(a, Mean(xs)) + b
  {
    hide Sum, SquaredDeviations, Product;
    AffineSum(xs, a, b);
    AffineQuotient(a, Sum(xs), |xs| as real, b);
  }

  lemma AffineVariance(xs: seq<real>, a: real, b: real)
    requires xs != []
    ensures Variance(Affine(xs, a, b)) == Product(Square(a), Variance(xs))
  {
    hide Square, Mean, SquaredDeviations, Product;
    AffineMean(xs, a, b);
    AffineSquares(xs, a, b, Mean(xs));
    AffineQuotient(Square(a), SquaredDeviations(xs, Mean(xs)), |xs| as real, 0.0);
  }

  /** Rescaling and shifting a series keeps its state, and turning it upside down mirrors it. */
  lemma TrendFollowsUnit(xs: seq<real>, a: real, b: real, deviation: real)
    requires xs != [] && a != 0.0 && ExactRoot(Variance(xs), deviation)
    ensures ExactRoot(Variance(Affine(xs, a, b)), Product(Abs(a), deviation))
    ensures Classify(Affine(xs, a, b), Product(Abs(a), deviation)) ==
            if a > 0.0 then Classify(xs, deviation) else Mirrored(Classify(xs, deviation))
  {
    hide Square, Mean, Variance, Slope, ZScore, Product;
    AffineVariance(xs, a, b);
    SquareOfAbs(a);
    SquareOfProduct(Abs(a), deviation);
    AnomalyMeansTwoDeviations(xs, deviation);
    ScaledSign(Abs(a), deviation);
    AnomalyMeansTwoDeviations(Affine(xs, a, b), Product(Abs(a), deviation));
    AnomalyFollowsUnit(xs, a, b, deviation);
    AffineSlope(xs, a, b);
    SignOfProduct(a, Slope(xs));
  }

  lemma ScaledSign(a: real, d: real)
    requires a > 0.0 && d >= 0.0
    ensures Product(a, d) >= 0.0 && (Product(a, d) > 0.0 <==> d > 0.0)
  {
    if d > 0.0 {
      ProductPositive(a, d);
    }
  }

  lemma SquareOfAbs(a: real)
    ensures Square(Abs(a)) == Square(a)
  {
  }

  lemma SignOfProduct(a: real, s: real)
    requires a != 0.0
    ensures a > 0.0 ==> (Product(a, s) > 0.0 <==> s > 0.0) && (Product(a, s) < 0.0 <==> s < 0.0)
    ensures a < 0.0 ==> (Product(a, s) > 0.0 <==> s < 0.0) && (Product(a, s) < 0.0 <==> s > 0.0)
  {
    if s == 0.0 {
      ProductZero(a);
    } else {
      ProductPositive(Abs(a), Abs(s));
      assert Product(Abs(a), Abs(s)) == if (a > 0.0) == (s > 0.0) then Product(a, s) else -Product(a, s);
    }
  }

  lemma AffineSlope(xs: seq<real>, a: real, b: real)
    requires xs != []
    ensures Slope(Affine(xs, a, b)) == Product(a, Slope(xs))
  {
    ProductZero(a);
    if |xs| > 1 {
      var n := (|xs| - 1) as real;
      AffineQuotient(a, Last(xs) - xs[0], n, 0.0);
      assert Last(Affine(xs, a, b)) - Affine(xs, a, b)[0] == Product(a, Last(xs) - xs[0]) + n * 0.0;
    }
  }

  lemma AnomalyFollowsUnit(xs: seq<real>, a: real, b: real, deviation: real)
    requires xs != [] && a != 0.0 && deviation >= 0.0
    ensures Square(Last(Affine(xs, a, b)) - Mean(Affine(xs, a, b))) >= 4.0 * Square(Product(Abs(a), deviation)) <==>
            Square(Last(xs) - Mean(xs)) >= 4.0 * Square(deviation)
  {
    hide Square, Mean, Product;
    AffineMean(xs, a, b);
    var d := Last(xs) - Mean(xs);
    ProductOfDifference(a, Last(xs), Mean(xs));
    SquareOfProduct(a, d);
    SquareOfProduct(Abs(a), deviation);
    SquareOfAbs(a);
    SquareSign(a);
    SharedFactor(Square(a), Square(d), Square(deviation));
  }

  lemma ProductOfDifference(a: real, x: real, y: real)
    ensures Product(a, x) - Product(a, y) == Product(a, x - y)
  {
  }

  lemma SharedFactor(c: real, p: real, q: real)
    requires c > 0.0
    ensures Product(c, p) >= 4.0 * Product(c, q) <==> p >= 4.0 * q
  {
    CompareScaled(p, 4.0 * q, c);
  }
}
