/** `BuildQuery` and the reductions `create_vm_object` applies to what it
    returns. Time is in whole seconds of the platform's clock; Python's true
    division `/` is modelled on `real`, and `int(...)` by `Trunc`. */
module Metrics {
  import opened Wrappers
  import opened PropertyRetrieval

  /** `timedelta(days=30)`, in seconds. */
  const WindowDays := 30
  const SecondsPerDay := 86400
  const WindowSeconds := WindowDays * SecondsPerDay

  /** `vim.PerformanceManager.MetricId`. */
  datatype MetricId = MetricId(counterId: int, instance: string)

  /** `vim.PerformanceManager.QuerySpec`. */
  datatype QuerySpec = QuerySpec(entity: MoRef, metricId: seq<MetricId>, startTime: int, endTime: int)

  /** One sample series of a query result (`.value` of an int series). */
  datatype MetricSeries = MetricSeries(value: seq<int>)

  /** One entity's part of a query result: its series (`.value`). */
  datatype EntityMetric = EntityMetric(entity: MoRef, value: seq<MetricSeries>)

  /** What `BuildQuery` prints before it calls `exit()`: the platform time,
      the window it asked for and the query itself. */
  datatype EmptyResults = EmptyResults(vchtime: int, startTime: int, endTime: int, query: QuerySpec)

  /** The query `BuildQuery` sends: one metric of one entity over the thirty
      days that end at the platform time `vchtime`. */
  function QueryOf(vchtime: int, counterId: int, instance: string, vm: MoRef): (q: QuerySpec)
    ensures q.endTime == vchtime && q.startTime == vchtime - 2592000
    ensures q.entity == vm && q.metricId == [MetricId(counterId, instance)]
  {
    QuerySpec(vm, [MetricId(counterId, instance)], vchtime - WindowSeconds, vchtime)
  }

  /** `BuildQuery`: `queryPerf` stands for the platform's `QueryPerf`. A
      non-empty answer is handed back unchanged; an empty one ends the run
      with the troubleshooting context. `interval` is accepted and unused. */
  function BuildQuery(queryPerf: QuerySpec -> seq<EntityMetric>, vchtime: int, counterId: int,
                      instance: string, vm: MoRef, interval: int): (r: Result<seq<EntityMetric>, EmptyResults>)
    ensures r.Success? <==> queryPerf(QueryOf(vchtime, counterId, instance, vm)) != []
    ensures r.Success? ==> r.value == queryPerf(QueryOf(vchtime, counterId, instance, vm))
    ensures r.Failure? ==> r.error == EmptyResults(vchtime, vchtime - 2592000, vchtime,
                                                   QueryOf(vchtime, counterId, instance, vm))
  {
    var query := QueryOf(vchtime, counterId, instance, vm);
    var perfResults := queryPerf(query);
    if perfResults != [] then Success(perfResults)
    else Failure(EmptyResults(vchtime, query.startTime, query.endTime, query))
  }

  /** The query window, and so the answer, does not depend on `interval`. */
  lemma BuildQueryIgnoresInterval(queryPerf: QuerySpec -> seq<EntityMetric>, vchtime: int, counterId: int,
                                  instance: string, vm: MoRef, i1: int, i2: int)
    ensures BuildQuery(queryPerf, vchtime, counterId, instance, vm, i1)
            == BuildQuery(queryPerf, vchtime, counterId, instance, vm, i2)
  {
  }

  /** Python's `int(x)` on a float: rounds toward zero. */
  function Trunc(x: real): (r: int)
    ensures 0.0 <= x ==> r as real <= x < r as real + 1.0
    ensures x < 0.0 ==> r as real - 1.0 < x <= r as real
  {
    if x >= 0.0 then x.Floor else -((-x).Floor)
  }

  /** Python's `sum`; samples that are never negative add up to a
      total that is not negative either. */
  function Sum(s: seq<int>): (r: int)
    ensures (forall i :: 0 <= i < |s| ==> 0 <= s[i]) ==> 0 <= r
  {
    if s == [] then 0
    else
      var init := s[..|s| - 1];
      assert forall i :: 0 <= i < |init| ==> init[i] == s[i];
      Sum(init) + s[|s| - 1]
  }

  /** Python's `max` of a non-empty list: the largest element. */
  function Max(s: seq<int>): (m: int)
    requires |s| > 0
    ensures m in s
    ensures forall i :: 0 <= i < |s| ==> s[i] <= m
  {
    if |s| == 1 then s[0]
    else
      var m := Max(s[..|s| - 1]);
      if s[|s| - 1] > m then s[|s| - 1] else m
  }

  /** `int(((sum(series) / len(series)) / 100))`: the average of samples
      kept in hundredths of a percent, as a whole percentage. `int()` rounds
      toward zero: down for a non-negative total, up for a negative one. */
  function AveragePct(series: seq<int>): (r: int)
    requires |series| > 0
    ensures 0 <= Sum(series) ==> r == Sum(series) / |series| / 100
    ensures Sum(series) < 0 ==> r == -((-Sum(series)) / |series| / 100)
  {
    TruncMeanPct(Sum(series), |series|);
    Trunc((Sum(series) as real / |series| as real) / 100.0)
  }

  /** Truncating the exact mean in percent is nested integer division of the
      total's magnitude, carrying the total's sign. */
  lemma TruncMeanPct(s: int, n: int)
    requires 0 < n
    ensures 0 <= s ==> Trunc((s as real / n as real) / 100.0) == s / n / 100
    ensures s < 0 ==> Trunc((s as real / n as real) / 100.0) == -((-s) / n / 100)
  {
    QuotientSign(s, n);
    if s >= 0 {
      MeanPctFloor(s, n);
    } else {
      MeanPctFloor(-s, n);
      assert -((s as real / n as real) / 100.0) == ((-s) as real / n as real) / 100.0;
    }
  }

  /** `int(max(series) / 100)`: the peak sample as a whole percentage,
      rounded toward zero. */
  function MaxPct(series: seq<int>): (r: int)
    requires |series| > 0
    ensures 0 <= Max(series) ==> r == Max(series) / 100
    ensures Max(series) < 0 ==> r == -((-Max(series)) / 100)
  {
    var m := Max(series);
    QuotientBounds(if m >= 0 then m else -m, 100);
    Trunc(m as real / 100.0)
  }

  /** The exact quotient has the sign of the dividend. */
  lemma QuotientSign(a: int, b: int)
    requires 0 < b
    ensures 0 <= a <==> 0.0 <= a as real / b as real
  {
    var x, br := a as real / b as real, b as real;
    assert x * br == a as real;
    if x < 0.0 {
      assert (0.0 - x) * br > 0.0;
    } else {
      assert x * br >= 0.0;
    }
  }

  /** Real division by `n` and then by 100, rounded down, is the nested
      integer (floor) division of a non-negative total. */
  lemma MeanPctFloor(a: int, n: int)
    requires 0 <= a && 0 < n
    ensures ((a as real / n as real) / 100.0).Floor == a / n / 100
  {
    QuotientBounds(a, n);
    var q1 := a / n;
    var q2 := q1 / 100;
    assert q2 * 100 <= q1 < (q2 + 1) * 100;
    assert (q2 * 100) as real == q2 as real * 100.0;
  }

  lemma CancelPositive(u: real, v: real, b: real)
    requires 0.0 < b && u * b <= v * b
    ensures u <= v
  {
    assert (v - u) * b >= 0.0;
  }

  lemma CancelPositiveStrict(u: real, v: real, b: real)
    requires 0.0 < b && u * b < v * b
    ensures u < v
  {
    assert (v - u) * b > 0.0;
  }

  /** The exact quotient of non-negative `a` by positive `b` lies within one
      above the integer quotient. */
  lemma QuotientBounds(a: int, b: int)
    requires 0 <= a && 0 < b
    ensures (a / b) as real <= a as real / b as real < (a / b) as real + 1.0
  {
    var q := a / b;
    var x, br := a as real / b as real, b as real;
    assert x * br == a as real;
    assert (q * b) as real == q as real * br;
    assert ((q + 1) * b) as real == (q as real + 1.0) * br;
    CancelPositive(q as real, x, br);
    CancelPositiveStrict(x, q as real + 1.0, br);
  }

  /** Samples of at least `lo` sum to at least `len * lo`. */
  lemma {:induction false} SumAtLeast(s: seq<int>, lo: int)
    requires forall i :: 0 <= i < |s| ==> lo <= s[i]
    ensures |s| * lo <= Sum(s)
  {
    if s != [] {
      var init := s[..|s| - 1];
      assert forall i :: 0 <= i < |init| ==> init[i] == s[i];
      SumAtLeast(init, lo);
      assert |s| * lo == |init| * lo + lo;
    }
  }

  /** Samples of at most `hi` sum to at most `len * hi`. */
  lemma {:induction false} SumAtMost(s: seq<int>, hi: int)
    requires forall i :: 0 <= i < |s| ==> s[i] <= hi
    ensures Sum(s) <= |s| * hi
  {
    if s != [] {
      var init := s[..|s| - 1];
      assert forall i :: 0 <= i < |init| ==> init[i] == s[i];
      SumAtMost(init, hi);
      assert |s| * hi == |init| * hi + hi;
    }
  }

  /** A total of at most `n * m` averages to at most `m`. */
  lemma MeanAtMost(s: int, n: int, m: int)
    requires 0 < n && s <= n * m
    ensures s as real / n as real <= m as real
  {
    var y, nr := s as real / n as real, n as real;
    assert y * nr == s as real;
    assert (n * m) as real == m as real * nr;
    CancelPositive(y, m as real, nr);
  }

  /** The average never exceeds the maximum of the same series. */
  lemma AverageAtMostMax(series: seq<int>)
    requires |series| > 0
    ensures AveragePct(series) <= MaxPct(series)
  {
    var m := Max(series);
    SumAtMost(series, m);
    MeanAtMost(Sum(series), |series|, m);
    TruncMonotone((Sum(series) as real / |series| as real) / 100.0, m as real / 100.0);
  }

  lemma TruncMonotone(x: real, y: real)
    requires x <= y
    ensures Trunc(x) <= Trunc(y)
  {
  }

  /** Samples in hundredths of a percent (0 to 10000) reduce to percentages
      with 0 <= average <= maximum <= 100. */
  lemma PercentBounds(series: seq<int>)
    requires |series| > 0 && forall i :: 0 <= i < |series| ==> 0 <= series[i] <= 10000
    ensures 0 <= AveragePct(series) <= MaxPct(series) <= 100
  {
    var m := Max(series);
    AverageAtMostMax(series);
    SumAtLeast(series, 0);
    assert |series| * 0 == 0;
  }

  /** Samples 500, 1000 and 1500 (5 %, 10 %, 15 %) give average 10 and maximum 15. */
  lemma ReductionExample()
    ensures AveragePct([500, 1000, 1500]) == 10 && MaxPct([500, 1000, 1500]) == 15
  {
    var s := [500, 1000, 1500];
    assert s[..2] == [500, 1000] && s[..2][..1] == [500] && [500][..0] == [];
    assert Sum(s) == 3000;
    assert Max(s) == 1500;
  }
}
