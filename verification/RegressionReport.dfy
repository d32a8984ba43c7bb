/**
 Comparing two load-test reports metric by metric, and what a chain of
 comparisons without regression says about its ends. Floats are reals.
 */
module RegressionReport {
  datatype Direction = Higher | Lower   // the direction in which a change is bad

  datatype Alarm = Alarm(
    metric: string, baseline: real, current: real,
    change: real, threshold: real, isRegression: bool, direction: Direction)

  datatype Report = Report(p99: real, p95: real, avg: real, errorRate: real, throughput: real)
  datatype Config = Config(p99Threshold: real, errorThreshold: real, throughputThreshold: real)

  function Change(baseline: real, current: real): real {
    if baseline == 0.0 then (if current == 0.0 then 0.0 else 100.0)
    else (current - baseline) / baseline * 100.0
  }

  predicate Regresses(baseline: real, current: real, threshold: real, direction: Direction) {
    if direction.Higher? then Change(baseline, current) > threshold else Change(baseline, current) < -threshold
  }

  predicate Improves(a: Alarm) {
    && !a.isRegression
    && (if a.direction.Higher? then a.change < -a.threshold else a.change > a.threshold)
  }

  function Compare(metric: string, baseline: real, current: real, threshold: real, direction: Direction): Alarm {
    Alarm(metric, baseline, current, Change(baseline, current), threshold,
          Regresses(baseline, current, threshold, direction), direction)
  }

  function Analysis(b: Report, c: Report, cfg: Config): seq<Alarm> {
    [Compare("p99_response_ms", b.p99, c.p99, cfg.p99Threshold, Higher),
     Compare("p95_response_ms", b.p95, c.p95, cfg.p99Threshold, Higher),
     Compare("avg_response_ms", b.avg, c.avg, cfg.p99Threshold, Higher),
     Compare("error_rate_percent", b.errorRate, c.errorRate, cfg.errorThreshold, Higher),
     Compare("throughput_rps", b.throughput, c.throughput, cfg.throughputThreshold, Lower)]
  }

  class ComparisonReport {
    const baseline: Report
    const current: Report
    const config: Config
    var alarms: seq<Alarm>

    constructor (b: Report, c: Report, cfg: Config)
      ensures baseline == b && current == c && config == cfg && alarms == Analysis(b, c, cfg)
    {
      baseline, current, config, alarms := b, c, cfg, [];
      new;
      Analyze();
    }

    method CompareMetric(metric: string, b: real, c: real, threshold: real, direction: Direction)
      modifies this
      ensures alarms == old(alarms) + [Compare(metric, b, c, threshold, direction)]
    {
      var change;
      if b == 0.0 {
        change := if c == 0.0 then 0.0 else 100.0;
      } else {
        change := (c - b) / b * 100.0;
      }
      var isRegression;
      if direction.Higher? {
        isRegression := change > threshold;
      } else {
        isRegression := change < -threshold;
      }
      alarms := alarms + [Alarm(metric, b, c, change, threshold, isRegression, direction)];
    }

    method Analyze()
      modifies this
      ensures alarms == Analysis(baseline, current, config)
    {
      alarms := [];
      CompareMetric("p99_response_ms", baseline.p99, current.p99, config.p99Threshold, Higher);
      CompareMetric("p95_response_ms", baseline.p95, current.p95, config.p99Threshold, Higher);
      CompareMetric("avg_response_ms", baseline.avg, current.avg, config.p99Threshold, Higher);
      CompareMetric("error_rate_percent", baseline.errorRate, current.errorRate, config.errorThreshold, Higher);
      CompareMetric("throughput_rps", baseline.throughput, current.throughput, config.throughputThreshold, Lower);
    }

    /** The improved metrics, in order: every one of them, none twice, and never a regressed one. */
    method GetImprovements() returns (improvements: seq<Alarm>)
      ensures improvements == Improvements(alarms)
      ensures forall a :: a in improvements ==> a in alarms && a !in Regressions(alarms)
    {
      improvements := [];
      for i := 0 to |alarms|
        invariant improvements == Improvements(alarms[..i])
      {
        var alarm := alarms[i];
        assert alarms[..i + 1][..i] == alarms[..i];
        if !alarm.isRegression {
          if alarm.direction.Higher? && alarm.change < -alarm.threshold {
            improvements := improvements + [alarm];
          } else if alarm.direction.Lower? && alarm.change > alarm.threshold {
            improvements := improvements + [alarm];
          }
        }
      }
      assert alarms[..|alarms|] == alarms;
      SelectedMembers(alarms);
    }
  }

  function Regressions(alarms: seq<Alarm>): seq<Alarm> {
    if alarms == [] then [] else
      Regressions(alarms[..|alarms| - 1]) + if alarms[|alarms| - 1].isRegression then [alarms[|alarms| - 1]] else []
  }

  function Improvements(alarms: seq<Alarm>): seq<Alarm> {
    if alarms == [] then [] else
      Improvements(alarms[..|alarms| - 1]) + if Improves(alarms[|alarms| - 1]) then [alarms[|alarms| - 1]] else []
  }

  lemma {:induction false} SelectedMembers(alarms: seq<Alarm>)
    ensures forall a :: a in Regressions(alarms) <==> a in alarms && a.isRegression
    ensures forall a :: a in Improvements(alarms) <==> a in alarms && Improves(a)
    ensures |Regressions(alarms)| + |Improvements(alarms)| <= |alarms|
  {
    if alarms != [] {
      SelectedMembers(alarms[..|alarms| - 1]);
      assert alarms == alarms[..|alarms| - 1] + [alarms[|alarms| - 1]];
    }
  }

  predicate HasRegression(b: Report, c: Report, cfg: Config) {
    exists i :: 0 <= i < 5 && Analysis(b, c, cfg)[i].isRegression
  }

  // ----- one comparison

  lemma ScaleLe(b: real, x: real, y: real)
    requires b >= 0.0 && x <= y
    ensures b * x <= b * y
  {
  }

  /** With a positive baseline the relative change times the baseline is the change. */
  lemma ChangeTimesBaseline(b: real, c: real)
    requires b > 0.0
    ensures b * (Change(b, c) / 100.0) == c - b
  {
    var q := (c - b) / b;
    assert q * b == c - b;
    assert Change(b, c) / 100.0 == q;
  }

  /** Comparing the relative change with a threshold is comparing the change with that share of the baseline. */
  lemma ChangeAgainst(b: real, c: real, t: real)
    requires b > 0.0
    ensures Change(b, c) > t <==> 100.0 * (c - b) > t * b
    ensures Change(b, c) < -t <==> 100.0 * (c - b) < -(t * b)
  {
    var q := Change(b, c);
    ChangeTimesBaseline(b, c);
    TimesHundred(b, q, c - b);
    SameOrder(q, t, b, 100.0 * (c - b), t * b);
    SameOrder(q, -t, b, 100.0 * (c - b), -(t * b));
  }

  lemma TimesHundred(b: real, q: real, d: real)
    requires b * (q / 100.0) == d
    ensures q * b == 100.0 * d
  {
  }

  lemma SameOrder(x: real, y: real, b: real, xb: real, yb: real)
    requires b > 0.0 && xb == x * b && yb == y * b
    ensures x < y <==> xb < yb
    ensures x > y <==> xb > yb
  {
    var d := x - y;
    assert d * b == xb - yb;
  }

  /**
   The verdicts, for a threshold of at least 0. With a positive baseline a metric
   regresses when it moves in its bad direction by more than the threshold's share
   of the baseline, and improves when it moves that far in the other direction.
   From zero, any move counts as a rise of 100 percent.
   */
  lemma VerdictsExactly(metric: string, b: real, c: real, t: real)
    requires t >= 0.0
    ensures var higher, lower := Compare(metric, b, c, t, Higher), Compare(metric, b, c, t, Lower);
      && (b > 0.0 ==>
            && (higher.isRegression <==> 100.0 * (c - b) > t * b) && (Improves(higher) <==> 100.0 * (c - b) < -(t * b))
            && (lower.isRegression <==> 100.0 * (c - b) < -(t * b)) && (Improves(lower) <==> 100.0 * (c - b) > t * b))
      && (b == 0.0 ==>
            && (higher.isRegression <==> c != 0.0 && t < 100.0) && !Improves(higher)
            && !lower.isRegression && (Improves(lower) <==> c != 0.0 && t < 100.0))
  {
    if b > 0.0 { ChangeAgainst(b, c, t); }
  }

  /** Which metrics are compared, with which values, thresholds and directions. */
  lemma AlarmsAre(b: Report, c: Report, cfg: Config)
    ensures var a := Analysis(b, c, cfg);
      && |a| == 5
      && (forall i :: 0 <= i < 5 ==>
            a[i].metric == ["p99_response_ms", "p95_response_ms", "avg_response_ms", "error_rate_percent", "throughput_rps"][i])
      && (forall i :: 0 <= i < 5 ==> a[i].baseline == [b.p99, b.p95, b.avg, b.errorRate, b.throughput][i])
      && (forall i :: 0 <= i < 5 ==> a[i].current == [c.p99, c.p95, c.avg, c.errorRate, c.throughput][i])
      && (forall i :: 0 <= i < 5 ==> a[i].direction == if i == 4 then Lower else Higher)
      && (forall i :: 0 <= i < 5 ==> a[i].threshold == if i <= 2 then cfg.p99Threshold else if i == 3 then cfg.errorThreshold else cfg.throughputThreshold)
  {
  }

  lemma HigherStep(b: real, c: real, t: real, f: real)
    requires b >= 0.0 && c >= 0.0 && 0.0 <= t < 100.0 && !Regresses(b, c, t, Higher) && f == 1.0 + t / 100.0
    ensures c <= b * f
  {
    if b > 0.0 {
      ChangeTimesBaseline(b, c);
      ScaleLe(b, Change(b, c) / 100.0, t / 100.0);
      assert b * (1.0 + t / 100.0) == b + b * (t / 100.0);
    }
  }

  lemma LowerStep(b: real, c: real, t: real, f: real)
    requires b >= 0.0 && c >= 0.0 && !Regresses(b, c, t, Lower) && f == 1.0 - t / 100.0
    ensures c >= b * f
  {
    if b > 0.0 {
      ChangeTimesBaseline(b, c);
      ScaleLe(b, -(t / 100.0), Change(b, c) / 100.0);
      assert b * (1.0 - t / 100.0) == b + b * (-(t / 100.0));
    } else {
      assert b * (1.0 - t / 100.0) == 0.0;
    }
  }

  // ----- chains of comparisons

  function Pow(x: real, n: nat): real { if n == 0 then 1.0 else Pow(x, n - 1) * x }

  ghost predicate Quiet(values: seq<real>, t: real, direction: Direction) {
    && (forall i :: 0 <= i < |values| ==> values[i] >= 0.0)
    && (forall i, j :: 0 <= i < |values| && 0 <= j < |values| && j == i + 1 ==> !Regresses(values[i], values[j], t, direction))
  }

  lemma ScaleLeRight(x: real, y: real, f: real)
    requires f >= 0.0 && x <= y
    ensures x * f <= y * f
  {
  }

  lemma Regroup(a: real, b: real, c: real)
    ensures a * b * c == a * (b * c)
  {
  }

  lemma CompoundUp(first: real, p: real, last: real, next: real, f: real)
    requires f >= 0.0 && last <= first * p && next <= last * f
    ensures next <= first * (p * f)
  {
    ScaleLeRight(last, first * p, f);
    Regroup(first, p, f);
  }

  lemma CompoundDown(first: real, p: real, last: real, next: real, f: real)
    requires f >= 0.0 && first * p <= last && last * f <= next
    ensures first * (p * f) <= next
  {
    ScaleLeRight(first * p, last, f);
    Regroup(first, p, f);
  }

  ghost predicate Climbing(values: seq<real>, f: real) {
    forall i, j :: 0 <= i < |values| && 0 <= j < |values| && j == i + 1 ==> values[j] <= values[i] * f
  }

  lemma {:induction false} QuietClimbing(values: seq<real>, t: real, f: real)
    requires Quiet(values, t, Higher) && 0.0 <= t < 100.0 && f == 1.0 + t / 100.0
    ensures Climbing(values, f)
  {
    forall i, j | 0 <= i < |values| && 0 <= j < |values| && j == i + 1 ensures values[j] <= values[i] * f {
      HigherStep(values[i], values[j], t, f);
    }
  }

  lemma {:induction false} ClimbsAtMost(values: seq<real>, f: real)
    requires values != [] && f >= 0.0 && Climbing(values, f)
    ensures values[|values| - 1] <= values[0] * Pow(f, |values| - 1)
  {
    var n := |values| - 1;
    if n > 0 {
      ClimbsAtMost(values[..n], f);
      CompoundUp(values[0], Pow(f, n - 1), values[n - 1], values[n], f);
    }
  }

  ghost predicate Falling(values: seq<real>, f: real) {
    forall i, j :: 0 <= i < |values| && 0 <= j < |values| && j == i + 1 ==> values[j] >= values[i] * f
  }

  lemma {:induction false} QuietFalling(values: seq<real>, t: real, f: real)
    requires Quiet(values, t, Lower) && 0.0 <= t <= 100.0 && f == 1.0 - t / 100.0
    ensures Falling(values, f)
  {
    forall i, j | 0 <= i < |values| && 0 <= j < |values| && j == i + 1 ensures values[j] >= values[i] * f {
      LowerStep(values[i], values[j], t, f);
    }
  }

  lemma {:induction false} FallsAtMost(values: seq<real>, f: real)
    requires values != [] && f >= 0.0 && Falling(values, f)
    ensures values[|values| - 1] >= values[0] * Pow(f, |values| - 1)
  {
    var n := |values| - 1;
    if n > 0 {
      FallsAtMost(values[..n], f);
      CompoundDown(values[0], Pow(f, n - 1), values[n - 1], values[n], f);
    }
  }

  /** n quiet "higher is worse" comparisons let a metric drift up by at most the compounded threshold. */
  lemma {:induction false} HigherDrift(values: seq<real>, t: real)
    requires values != [] && 0.0 <= t < 100.0 && Quiet(values, t, Higher)
    ensures values[|values| - 1] <= values[0] * Pow(1.0 + t / 100.0, |values| - 1)
  {
    var f := 1.0 + t / 100.0;
    QuietClimbing(values, t, f);
    ClimbsAtMost(values, f);
  }

  /** n quiet "lower is worse" comparisons let a metric drift down by at most the compounded threshold. */
  lemma {:induction false} LowerDrift(values: seq<real>, t: real)
    requires values != [] && 0.0 <= t <= 100.0 && Quiet(values, t, Lower)
    ensures values[|values| - 1] >= values[0] * Pow(1.0 - t / 100.0, |values| - 1)
  {
    var f := 1.0 - t / 100.0;
    QuietFalling(values, t, f);
    FallsAtMost(values, f);
  }

  ghost predicate DriftBounded(values: seq<real>, t: real) {
    values != [] && Quiet(values, t, Higher) ==> values[|values| - 1] <= values[0] * Pow(1.0 + t / 100.0, |values| - 1)
  }

  /**
   For "higher is worse" metrics the compounded bound holds for every chain
   exactly when the threshold is below 100 percent: a rise from zero is reported
   as 100 percent whatever its size, so a threshold of 100 or more never sees it.
   */
  lemma {:induction false} HigherDriftExactly(t: real)
    requires t >= 0.0
    ensures (forall values :: DriftBounded(values, t)) <==> t < 100.0
  {
    if t < 100.0 {
      forall values ensures DriftBounded(values, t) {
        if values != [] && Quiet(values, t, Higher) { HigherDrift(values, t); }
      }
    } else {
      var rise := [0.0, 1.0];
      assert Quiet(rise, t, Higher);
      assert rise[0] * Pow(1.0 + t / 100.0, 1) == 0.0;
      assert !DriftBounded(rise, t);
    }
  }

  ghost predicate FallBounded(values: seq<real>, t: real) {
    values != [] && Quiet(values, t, Lower) ==> values[|values| - 1] >= values[0] * Pow(1.0 - t / 100.0, |values| - 1)
  }

  /** For "lower is worse" metrics the bound holds for every chain exactly when the threshold is at most 100 percent. */
  lemma {:induction false} LowerDriftExactly(t: real)
    requires t >= 0.0
    ensures (forall values :: FallBounded(values, t)) <==> t <= 100.0
  {
    if t <= 100.0 {
      forall values ensures FallBounded(values, t) {
        if values != [] && Quiet(values, t, Lower) { LowerDrift(values, t); }
      }
    } else {
      var fall, f := [1.0, 1.0, 0.0], 1.0 - t / 100.0;
      assert Change(1.0, 1.0) == 0.0 && Change(1.0, 0.0) == -100.0;
      assert Quiet(fall, t, Lower);
      assert Pow(f, 1) == f && Pow(f, 2) == f * f;
      NegativeSquare(f);
      assert !FallBounded(fall, t);
    }
  }

  lemma NegativeSquare(f: real)
    requires f < 0.0
    ensures f * f > 0.0
  {
  }

  // ----- chains of whole reports

  datatype Metric = P99 | P95 | Avg | ErrorRate | Throughput

  function ValueOf(r: Report, m: Metric): real {
    match m case P99 => r.p99 case P95 => r.p95 case Avg => r.avg case ErrorRate => r.errorRate case Throughput => r.throughput
  }

  function ThresholdOf(cfg: Config, m: Metric): real {
    match m case ErrorRate => cfg.errorThreshold case Throughput => cfg.throughputThreshold case _ => cfg.p99Threshold
  }

  function BadDirection(m: Metric): Direction { if m.Throughput? then Lower else Higher }

  /** A comparison reports no regression exactly when none of the five metrics regresses. */
  lemma NoRegressionExactly(b: Report, c: Report, cfg: Config)
    ensures HasRegression(b, c, cfg) <==>
      exists m :: Regresses(ValueOf(b, m), ValueOf(c, m), ThresholdOf(cfg, m), BadDirection(m))
  {
    var a := Analysis(b, c, cfg);
    forall m ensures Regresses(ValueOf(b, m), ValueOf(c, m), ThresholdOf(cfg, m), BadDirection(m)) ==> HasRegression(b, c, cfg) {
      match m
      case P99 => assert a[0].isRegression == Regresses(b.p99, c.p99, cfg.p99Threshold, Higher);
      case P95 => assert a[1].isRegression == Regresses(b.p95, c.p95, cfg.p99Threshold, Higher);
      case Avg => assert a[2].isRegression == Regresses(b.avg, c.avg, cfg.p99Threshold, Higher);
      case ErrorRate => assert a[3].isRegression == Regresses(b.errorRate, c.errorRate, cfg.errorThreshold, Higher);
      case Throughput => assert a[4].isRegression == Regresses(b.throughput, c.throughput, cfg.throughputThreshold, Lower);
    }
    if HasRegression(b, c, cfg) {
      var i :| 0 <= i < 5 && a[i].isRegression;
      var m := if i == 0 then P99 else if i == 1 then P95 else if i == 2 then Avg else if i == 3 then ErrorRate else Throughput;
      assert Regresses(ValueOf(b, m), ValueOf(c, m), ThresholdOf(cfg, m), BadDirection(m));
    }
  }

  function Column(reports: seq<Report>, m: Metric): seq<real> {
    seq(|reports|, i requires 0 <= i < |reports| => ValueOf(reports[i], m))
  }

  /** A chain of reports none of which regressed against its predecessor bounds every metric of the last by the first. */
  lemma {:induction false} ReportDrift(reports: seq<Report>, cfg: Config, m: Metric)
    requires reports != [] && 0.0 <= ThresholdOf(cfg, m)
    requires if BadDirection(m).Higher? then ThresholdOf(cfg, m) < 100.0 else ThresholdOf(cfg, m) <= 100.0
    requires forall i :: 0 <= i < |reports| ==> ValueOf(reports[i], m) >= 0.0
    requires forall i, j :: 0 <= i < |reports| && 0 <= j < |reports| && j == i + 1 ==> !HasRegression(reports[i], reports[j], cfg)
    ensures var first, last, n, t := ValueOf(reports[0], m), ValueOf(reports[|reports| - 1], m), |reports| - 1, ThresholdOf(cfg, m);
      if BadDirection(m).Higher? then last <= first * Pow(1.0 + t / 100.0, n) else last >= first * Pow(1.0 - t / 100.0, n)
  {
    var values, t := Column(reports, m), ThresholdOf(cfg, m);
    forall i, j | 0 <= i < |values| && 0 <= j < |values| && j == i + 1 ensures !Regresses(values[i], values[j], t, BadDirection(m)) {
      NoRegressionExactly(reports[i], reports[j], cfg);
    }
    if BadDirection(m).Higher? { HigherDrift(values, t); } else { LowerDrift(values, t); }
  }
}
