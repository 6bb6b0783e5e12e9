/**
 * predictNext: an ordinary least-squares line through the monthly net values
 * (net against month index), projected one month past the window; and the
 * split of renderPrediction that turns the projected net into an income and
 * an expense figure.
 */
module Forecast {
  import opened Months
  import opened Ledger
  import opened Aggregate

  /** ys[0] + ... + ys[k - 1]. */
  function SumTo(ys: seq<real>, k: nat): real
    requires k <= |ys|
  {
    if k == 0 then 0.0 else SumTo(ys, k - 1) + ys[k - 1]
  }

  /** 0 + 1 + ... + (k - 1): the sum of the x values (month indices). */
  function IndexSum(k: nat): real
  {
    if k == 0 then 0.0 else IndexSum(k - 1) + (k - 1) as real
  }

  /** The deviation of a value from a mean. */
  function Dev(v: real, mean: real): real
  {
    v - mean
  }

  /** Sum over i < k of (i - meanX) * (ys[i] - meanY). */
  function Num(ys: seq<real>, meanX: real, meanY: real, k: nat): real
    requires k <= |ys|
  {
    if k == 0 then 0.0
    else Num(ys, meanX, meanY, k - 1) + Dev((k - 1) as real, meanX) * Dev(ys[k - 1], meanY)
  }

  /** Sum over i < k of (i - meanX)^2. */
  function Den(meanX: real, k: nat): real
  {
    if k == 0 then 0.0
    else Den(meanX, k - 1) + Dev((k - 1) as real, meanX) * Dev((k - 1) as real, meanX)
  }

  /**
   * The value predictNext returns for the net series ys: 0 for an empty
   * series; otherwise intercept + slope * n with a zero slope when all x
   * values coincide (den = 0).
   */
  function Projection(ys: seq<real>): real
  {
    var n := |ys|;
    if n == 0 then 0.0
    else
      var meanX := IndexSum(n) / n as real;
      var meanY := SumTo(ys, n) / n as real;
      var num := Num(ys, meanX, meanY, n);
      var den := Den(meanX, n);
      var slope := if den == 0.0 then 0.0 else num / den;
      var intercept := meanY - slope * meanX;
      intercept + slope * n as real
  }

  /** The regression loop of predictNext over the net series ys. */
  method LinearForecast(ys: seq<real>) returns (p: real)
    ensures p == Projection(ys)
  {
    var n := |ys|;
    if n == 0 {
      return 0.0;
    }
    var meanX := IndexSum(n) / n as real;
    var meanY := SumTo(ys, n) / n as real;
    var num, den := 0.0, 0.0;
    var i := 0;
    while i < n
      invariant 0 <= i <= n
      invariant num == Num(ys, meanX, meanY, i)
      invariant den == Den(meanX, i)
    {
      num := num + (i as real - meanX) * (ys[i] - meanY);
      den := den + (i as real - meanX) * (i as real - meanX);
      i := i + 1;
    }
    var slope := if den == 0.0 then 0.0 else num / den;
    var intercept := meanY - slope * meanX;
    p := intercept + slope * n as real;
  }

  /** Net value (income - expense) of each month of the window, oldest first. */
  function NetSeries(n: nat, now: YearMonth, txs: seq<Transaction>, monthOf: int -> YearMonth): (ys: seq<real>)
    ensures |ys| == n
  {
    var w := Window(n, now);
    seq(n, i requires 0 <= i < n => MonthTotal(txs, monthOf, w[i], true) - MonthTotal(txs, monthOf, w[i], false))
  }

  /** `series.map(s => s.income - s.expense)`. */
  function Nets(series: seq<Bucket>): (ys: seq<real>)
    ensures |ys| == |series|
    ensures forall i :: 0 <= i < |series| ==> ys[i] == series[i].income - series[i].expense
  {
    if series == [] then [] else [series[0].income - series[0].expense] + Nets(series[1..])
  }

  /** predictNext(k): the projected net of the month after the k-month window ending at `now`. */
  method PredictNext(k: int, now: YearMonth, txs: seq<Transaction>, monthOf: int -> YearMonth) returns (p: real)
    ensures p == Projection(NetSeries(if k < 0 then 0 else k, now, txs, monthOf))
  {
    var series := GetLastNMonths(k, now, txs, monthOf);
    var ys := Nets(series);
    ghost var expected := NetSeries(|series|, now, txs, monthOf);
    forall i | 0 <= i < |ys| ensures ys[i] == expected[i] {
    }
    assert ys == expected;
    p := LinearForecast(ys);
  }

  // -----------------------------------------------------------------------
  // The defined cases of the regression.

  /** No month gives 0; a single month (den = 0, so slope 0) gives that month's net. */
  lemma ShortSeriesProjected(ys: seq<real>)
    requires |ys| <= 1
    ensures Projection(ys) == if |ys| == 0 then 0.0 else ys[0]
  {
    if |ys| == 1 {
      assert SumTo(ys, 1) == ys[0];
      assert IndexSum(1) == 0.0;
      assert Den(0.0, 1) == 0.0;
    }
  }

  lemma {:induction false} SumToOfLine(ys: seq<real>, a: real, b: real, k: nat)
    requires k <= |ys|
    requires forall i :: 0 <= i < |ys| ==> ys[i] == a + b * i as real
    ensures SumTo(ys, k) == k as real * a + b * IndexSum(k)
  {
    if k > 0 {
      SumToOfLine(ys, a, b, k - 1);
      assert b * IndexSum(k) == b * IndexSum(k - 1) + b * (k - 1) as real;
    }
  }

  lemma {:induction false} NumOfProportional(ys: seq<real>, meanX: real, meanY: real, b: real, k: nat)
    requires k <= |ys|
    requires forall i :: 0 <= i < |ys| ==> ys[i] - meanY == b * (i as real - meanX)
    ensures Num(ys, meanX, meanY, k) == b * Den(meanX, k)
  {
    if k > 0 {
      NumOfProportional(ys, meanX, meanY, b, k - 1);
      ProportionalStep(ys, meanX, meanY, b, k);
    }
  }

  /** One more term keeps num = b * den when the new residual is b times the new x deviation. */
  lemma ProportionalStep(ys: seq<real>, meanX: real, meanY: real, b: real, k: nat)
    requires 0 < k <= |ys|
    requires Num(ys, meanX, meanY, k - 1) == b * Den(meanX, k - 1)
    requires Dev(ys[k - 1], meanY) == b * Dev((k - 1) as real, meanX)
    ensures Num(ys, meanX, meanY, k) == b * Den(meanX, k)
  {
    var x := Dev((k - 1) as real, meanX);
    assert x * (b * x) == b * (x * x);
  }

  lemma {:induction false} DenAtLeastFirstTerm(meanX: real, k: nat)
    requires k >= 1
    ensures Den(meanX, k) >= meanX * meanX
  {
    if k > 1 {
      DenAtLeastFirstTerm(meanX, k - 1);
      var x := (k - 1) as real - meanX;
      assert x * x >= 0.0;
    }
  }

  lemma {:induction false} IndexSumAtLeast(k: nat)
    ensures IndexSum(k) >= k as real - 1.0
  {
    if k > 0 {
      IndexSumAtLeast(k - 1);
    }
  }

  /** The mean of a series on a line is the line's value at the mean index. */
  lemma {:induction false} MeanOfLine(ys: seq<real>, a: real, b: real)
    requires |ys| >= 1
    requires forall i :: 0 <= i < |ys| ==> ys[i] == a + b * i as real
    ensures SumTo(ys, |ys|) / |ys| as real == a + b * (IndexSum(|ys|) / |ys| as real)
  {
    var nr := |ys| as real;
    var meanX := IndexSum(|ys|) / nr;
    SumToOfLine(ys, a, b, |ys|);
    assert meanX * nr == IndexSum(|ys|);
    assert (a + b * meanX) * nr == nr * a + b * (meanX * nr);
  }

  /** Over at least two months the x values are spread out: den > 0. */
  lemma {:induction false} DenPositive(n: nat)
    requires n >= 2
    ensures Den(IndexSum(n) / n as real, n) > 0.0
  {
    var meanX := IndexSum(n) / n as real;
    IndexSumAtLeast(n);
    assert meanX > 0.0;
    var sq := meanX * meanX;
    assert sq > 0.0;
    DenAtLeastFirstTerm(meanX, n);
    assert Den(meanX, n) >= sq;
  }

  /** Projection unfolded for a series whose x values are spread out. */
  lemma ProjectionWhenSpread(ys: seq<real>, meanX: real, meanY: real, slope: real)
    requires |ys| >= 2
    requires meanX == IndexSum(|ys|) / |ys| as real
    requires meanY == SumTo(ys, |ys|) / |ys| as real
    requires Den(meanX, |ys|) > 0.0
    requires slope == Num(ys, meanX, meanY, |ys|) / Den(meanX, |ys|)
    ensures Projection(ys) == meanY - slope * meanX + slope * |ys| as real
  {
  }

  /**
   * A net series that lies exactly on a line y = a + b * i (at least two
   * months) is projected onto the same line at i = n.
   */
  lemma LinearSeriesProjected(ys: seq<real>, a: real, b: real)
    requires |ys| >= 2
    requires forall i :: 0 <= i < |ys| ==> ys[i] == a + b * i as real
    ensures Projection(ys) == a + b * |ys| as real
  {
    var n := |ys|;
    var meanX := IndexSum(n) / n as real;
    var meanY := SumTo(ys, n) / n as real;
    MeanOfLine(ys, a, b);
    LineResiduals(ys, a, b, meanX, meanY);
    NumOfProportional(ys, meanX, meanY, b, n);
    DenPositive(n);
    SlopeOfProportional(Num(ys, meanX, meanY, n), Den(meanX, n), b);
    var slope := Num(ys, meanX, meanY, n) / Den(meanX, n);
    ProjectionWhenSpread(ys, meanX, meanY, slope);
    LineAtNext(Projection(ys), meanX, meanY, slope, a, b, n as real);
  }

  lemma LineAtNext(p: real, meanX: real, meanY: real, slope: real, a: real, b: real, n: real)
    requires p == meanY - slope * meanX + slope * n
    requires slope == b && meanY == a + b * meanX
    ensures p == a + b * n
  {
  }

  lemma SlopeOfProportional(num: real, den: real, b: real)
    requires den > 0.0 && num == b * den
    ensures num / den == b
  {
  }

  /** On a line, each deviation from the mean is the slope times the index deviation. */
  lemma LineResiduals(ys: seq<real>, a: real, b: real, meanX: real, meanY: real)
    requires forall i :: 0 <= i < |ys| ==> ys[i] == a + b * i as real
    requires meanY == a + b * meanX
    ensures forall i :: 0 <= i < |ys| ==> ys[i] - meanY == b * (i as real - meanX)
  {
    forall i | 0 <= i < |ys| ensures ys[i] - meanY == b * (i as real - meanX) {
      assert b * (i as real - meanX) == b * i as real - b * meanX;
    }
  }

  /** A constant net series (at least one month) is projected at that constant. */
  lemma ConstantSeriesProjected(ys: seq<real>, c: real)
    requires |ys| >= 1
    requires forall i :: 0 <= i < |ys| ==> ys[i] == c
    ensures Projection(ys) == c
  {
    if |ys| >= 2 {
      LinearSeriesProjected(ys, c, 0.0);
    } else {
      ShortSeriesProjected(ys);
    }
  }

  /** Monthly nets 100, 200, ..., 600 are projected to 700. */
  lemma RisingSeriesExample()
    ensures Projection([100.0, 200.0, 300.0, 400.0, 500.0, 600.0]) == 700.0
  {
    var ys := [100.0, 200.0, 300.0, 400.0, 500.0, 600.0];
    LinearSeriesProjected(ys, 100.0, 100.0);
  }

  // -----------------------------------------------------------------------
  // renderPrediction's split of the projected net.

  datatype Prediction = Prediction(income: real, expense: real, net: real)

  function IncomeSum(series: seq<Bucket>): real
  {
    if series == [] then 0.0 else series[0].income + IncomeSum(series[1..])
  }

  function Max(a: real, b: real): real
  {
    if a >= b then a else b
  }

  /** Average monthly income of the window; the divisor is max(1, length). */
  function AverageIncome(series: seq<Bucket>): real
  {
    IncomeSum(series) / Max(1.0, |series| as real)
  }

  /**
   * predictedIncome = max(0, avgIncome + net / 2) and predictedExpense =
   * max(0, predictedIncome - net): both are never negative, and unless the
   * expense had to be clamped they differ by exactly the projected net.
   */
  function Split(series: seq<Bucket>, net: real): (r: Prediction)
    ensures r.income >= 0.0 && r.expense >= 0.0
    ensures r.net == net
    ensures r.income >= AverageIncome(series) + net / 2.0
    ensures r.income >= net ==> r.income - r.expense == net
    ensures r.income < net ==> r.expense == 0.0
  {
    var predictedIncome := Max(0.0, AverageIncome(series) + net / 2.0);
    var predictedExpense := Max(0.0, predictedIncome - net);
    Prediction(predictedIncome, predictedExpense, net)
  }

  /** renderPrediction without the DOM: the three figures it displays. */
  method RenderPrediction(now: YearMonth, txs: seq<Transaction>, monthOf: int -> YearMonth) returns (r: Prediction)
    ensures r.net == Projection(NetSeries(6, now, txs, monthOf))
    ensures r.income >= 0.0 && r.expense >= 0.0
    ensures r.income >= r.net ==> r.income - r.expense == r.net
    ensures r == Split(WindowBuckets(6, now, txs, monthOf), r.net)
    ensures r.income >= AverageIncome(WindowBuckets(6, now, txs, monthOf)) + r.net / 2.0
  {
    var net := PredictNext(6, now, txs, monthOf);
    var series6 := GetLastNMonths(6, now, txs, monthOf);
    r := Split(series6, net);
  }
}
