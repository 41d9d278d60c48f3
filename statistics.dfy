/** The statistics panel (`updateStatistics`): current, previous and start
    values, daily and overall change, highest, lowest and average close of
    the selected series. */
module Statistics {
  import opened Seqs
  import opened Series

  /** `Math.max(...data.map(d => d.y))` */
  function Highest(ps: seq<Point>): (h: real)
    requires ps != []
    ensures forall i :: 0 <= i < |ps| ==> ps[i].y <= h
    ensures exists i :: 0 <= i < |ps| && ps[i].y == h
  {
    if |ps| == 1 then ps[0].y
    else
      var h := Highest(ps[..|ps| - 1]);
      assert forall i :: 0 <= i < |ps| - 1 ==> ps[..|ps| - 1][i] == ps[i];
      if h >= ps[|ps| - 1].y then h else ps[|ps| - 1].y
  }

  /** `Math.min(...data.map(d => d.y))` */
  function Lowest(ps: seq<Point>): (l: real)
    requires ps != []
    ensures forall i :: 0 <= i < |ps| ==> l <= ps[i].y
    ensures exists i :: 0 <= i < |ps| && ps[i].y == l
  {
    if |ps| == 1 then ps[0].y
    else
      var l := Lowest(ps[..|ps| - 1]);
      assert forall i :: 0 <= i < |ps| - 1 ==> ps[..|ps| - 1][i] == ps[i];
      if l <= ps[|ps| - 1].y then l else ps[|ps| - 1].y
  }

  /** `data.reduce((sum, d) => sum + d.y, 0)`, a left fold. The total of
      `n` closes lies between `n` times the lowest and `n` times the highest. */
  function Total(ps: seq<Point>): (t: real)
    ensures ps != [] ==> Repeat(|ps|, Lowest(ps)) <= t <= Repeat(|ps|, Highest(ps))
  {
    if ps == [] then 0.0
    else
      var n := |ps|;
      var prefix := ps[..n - 1];
      if n > 1 then
        RepeatMonotone(n - 1, Highest(prefix), Highest(ps));
        RepeatMonotone(n - 1, Lowest(ps), Lowest(prefix));
        Total(prefix) + ps[n - 1].y
      else
        assert prefix == [];
        Total(prefix) + ps[n - 1].y
  }

  /** `n` copies of `v` added up. */
  function Repeat(n: nat, v: real): real
  {
    if n == 0 then 0.0 else Repeat(n - 1, v) + v
  }

  lemma {:induction false} RepeatMonotone(n: nat, a: real, b: real)
    requires a <= b
    ensures Repeat(n, a) <= Repeat(n, b)
  {
    if n > 0 {
      RepeatMonotone(n - 1, a, b);
    }
  }

  lemma {:induction false} RepeatIsProduct(n: nat, v: real)
    ensures Repeat(n, v) == (n as real) * v
  {
    if n > 0 {
      RepeatIsProduct(n - 1, v);
      assert ((n - 1) as real) * v + v == (n as real) * v;
    }
  }

  lemma MeanBetween(total: real, n: nat, lo: real, hi: real)
    requires n > 0 && Repeat(n, lo) <= total <= Repeat(n, hi)
    ensures lo <= total / (n as real) <= hi
  {
    RepeatIsProduct(n, lo);
    RepeatIsProduct(n, hi);
    QuotientBetween(total, n as real, lo, hi);
  }

  lemma QuotientBetween(t: real, m: real, lo: real, hi: real)
    requires m > 0.0 && m * lo <= t <= m * hi
    ensures lo <= t / m <= hi
  {
    var q := t / m;
    assert q * m == t;
  }

  /** The mean close lies between the lowest and the highest close. */
  lemma AverageBetween(ps: seq<Point>)
    requires ps != []
    ensures Lowest(ps) <= Total(ps) / (|ps| as real) <= Highest(ps)
  {
    MeanBetween(Total(ps), |ps|, Lowest(ps), Highest(ps));
  }

  /** A percentage change against a base; `None` where the source divides
      by zero and shows a non-finite number. */
  function PercentChange(change: real, base: real): (p: Option<real>)
    ensures p.Some? <==> base != 0.0
    ensures p.Some? ==> p.value * base == change * 100.0
  {
    if base == 0.0 then None else Some(change / base * 100.0)
  }

  datatype Stats = Stats(
    current: real, previous: real, start: real,
    dailyChange: real, dailyChangePercent: Option<real>,
    overallChange: real, overallChangePercent: Option<real>,
    highest: real, lowest: real, average: real)

  /** "No data available", or the computed statistics. */
  datatype Summary = NoData | Computed(stats: Stats)

  /** The figures of the statistics panel for a series ordered by date. */
  function Summarize(ps: seq<Point>): (s: Summary)
    ensures s.NoData? <==> ps == []
    ensures s.Computed? ==> s.stats.current == ps[|ps| - 1].y && s.stats.start == ps[0].y
    ensures s.Computed? ==> s.stats.previous == if |ps| > 1 then ps[|ps| - 2].y else 0.0
    ensures s.Computed? ==> s.stats.previous + s.stats.dailyChange == s.stats.current
    ensures s.Computed? ==> s.stats.start + s.stats.overallChange == s.stats.current
  {
    if ps == [] then NoData
    else
      var current := ps[|ps| - 1].y;
      var previous := if |ps| > 1 then ps[|ps| - 2].y else 0.0;
      var start := ps[0].y;
      Computed(Stats(
        current, previous, start,
        current - previous, PercentChange(current - previous, previous),
        current - start, PercentChange(current - start, start),
        Highest(ps), Lowest(ps), Total(ps) / (|ps| as real)))
  }

  /** For a non-empty series: the lowest close is at most the average, which
      is at most the highest; the current and start values lie between the
      lowest and the highest, and so does every close. */
  lemma SummaryBounds(ps: seq<Point>)
    requires ps != []
    ensures var s := Summarize(ps).stats;
      && s.lowest <= s.average <= s.highest
      && s.lowest <= s.current <= s.highest
      && s.lowest <= s.start <= s.highest
      && (forall i :: 0 <= i < |ps| ==> s.lowest <= ps[i].y <= s.highest)
  {
    AverageBetween(ps);
  }

  /** A one-point series: previous is 0, so the daily change is the whole
      value and its percentage is not finite; the overall change is 0, and
      0% when the value is non-zero. */
  lemma SinglePointSummary(p: Point)
    ensures var s := Summarize([p]).stats;
      && Summarize([p]).Computed?
      && s.previous == 0.0 && s.dailyChange == p.y && s.dailyChangePercent == None
      && s.overallChange == 0.0
      && s.overallChangePercent == (if p.y != 0.0 then Some(0.0) else None)
      && s.highest == s.lowest == s.average == s.current == p.y
  {
    assert Total([p]) == Total([]) + p.y by {
      assert [p][..0] == [];
    }
  }

  /** Closes 100, 110, 99 give current 99, previous 110, daily change -11
      (-10%), overall change -1 (-1%), highest 110, lowest 99, average 103. */
  lemma ThreeDayExample(d1: int, d2: int, d3: int)
    ensures var s := Summarize([Point(d1, 100.0, 0.0, 0.0, 0.0, 0), Point(d2, 110.0, 0.0, 0.0, 0.0, 0), Point(d3, 99.0, 0.0, 0.0, 0.0, 0)]).stats;
      && s.current == 99.0 && s.previous == 110.0
      && s.dailyChange == -11.0 && s.dailyChangePercent == Some(-10.0)
      && s.overallChange == -1.0 && s.overallChangePercent == Some(-1.0)
      && s.highest == 110.0 && s.lowest == 99.0 && s.average == 103.0
  {
    var a, b, c := Point(d1, 100.0, 0.0, 0.0, 0.0, 0), Point(d2, 110.0, 0.0, 0.0, 0.0, 0), Point(d3, 99.0, 0.0, 0.0, 0.0, 0);
    var ps := [a, b, c];
    assert ps[..2] == [a, b] && [a, b][..1] == [a] && [a][..0] == [];
    assert Total([a]) == 100.0;
    assert Total([a, b]) == 210.0;
    assert Total(ps) == 309.0;
    assert Highest(ps) == 110.0;
    assert Lowest(ps) == 99.0;
  }
}
