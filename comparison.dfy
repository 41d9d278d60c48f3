/** The comparison chart (`addToComparison`, `updateComparisonChart`): the
    set of compared companies, the shared date axis and each company's
    series rescaled to start at 100. */
module Comparison {
  import opened Seqs
  import opened Series

  // ---------------------------------------------------------------------
  // The comparison set

  /** The compared companies after selecting `company` in compare mode:
      appended only when it is not already compared. */
  function WithCompany(compared: seq<string>, company: string): (r: seq<string>)
    ensures NoDup(compared) ==> NoDup(r)
    ensures forall y :: y in r <==> y in compared || y == company
    ensures compared <= r
    ensures company in compared ==> r == compared
  {
    if company in compared then compared else compared + [company]
  }

  /** The compared companies after selecting `names` in turn, starting from none. */
  function AddedInTurn(names: seq<string>): seq<string>
  {
    if names == [] then [] else WithCompany(AddedInTurn(names[..|names| - 1]), names[|names| - 1])
  }

  /** Selecting companies one after another yields each selected company
      exactly once, ordered by when it was first selected. */
  lemma {:induction false} FirstAddedOrder(names: seq<string>)
    ensures NoDup(AddedInTurn(names))
    ensures forall y :: y in AddedInTurn(names) <==> y in names
    ensures forall i, j :: 0 <= i < j < |AddedInTurn(names)| ==>
              IndexOf(names, AddedInTurn(names)[i]) < IndexOf(names, AddedInTurn(names)[j])
  {
    if names != [] {
      var n := |names|;
      var prefix, x := names[..n - 1], names[n - 1];
      assert names == prefix + [x];
      FirstAddedOrder(prefix);
      var before := AddedInTurn(prefix);
      var after := AddedInTurn(names);
      assert after == WithCompany(before, x);
      forall y | y in prefix {
        IndexOfAppend(prefix, x, y);
      }
      forall i, j | 0 <= i < j < |after| ensures IndexOf(names, after[i]) < IndexOf(names, after[j]) {
        assert after[i] in before && after[i] in prefix;
        if j < |before| {
          assert after[j] in prefix;
        } else {
          assert after[j] == x && x !in prefix;
          assert IndexOf(names, x) == n - 1;
        }
      }
    }
  }

  lemma {:induction false} IndexOfAppend<T>(s: seq<T>, x: T, y: T)
    requires y in s
    ensures IndexOf(s + [x], y) == IndexOf(s, y)
  {
    if s[0] != y {
      IndexOfAppend(s[1..], x, y);
      assert (s + [x])[1..] == s[1..] + [x];
    }
  }

  // ---------------------------------------------------------------------
  // The shared date axis

  predicate StrictlyIncreasing(ds: seq<int>)
  {
    forall i, j :: 0 <= i < j < |ds| ==> ds[i] < ds[j]
  }

  /** Insert a date into an increasing axis unless it is already there. */
  function InsertDate(axis: seq<int>, d: int): (r: seq<int>)
    requires StrictlyIncreasing(axis)
    ensures StrictlyIncreasing(r)
    ensures forall e :: e in r <==> e in axis || e == d
  {
    if axis == [] then [d]
    else if d == axis[0] then axis
    else if d < axis[0] then [d] + axis
    else
      var rest := InsertDate(axis[1..], d);
      assert axis == [axis[0]] + axis[1..];
      assert StrictlyIncreasing([axis[0]] + rest) by {
        forall j | 0 <= j < |rest| ensures axis[0] < rest[j] {
          assert rest[j] in rest;
        }
      }
      [axis[0]] + rest
  }

  /** `[...new Set(dates)].sort((a, b) => a - b)`: the distinct instants in
      increasing order. */
  function SortedUnique(dates: seq<int>): (r: seq<int>)
    ensures StrictlyIncreasing(r)
    ensures forall e :: e in r <==> e in dates
  {
    if dates == [] then []
    else
      var prefix := dates[..|dates| - 1];
      assert dates == prefix + [dates[|dates| - 1]];
      InsertDate(SortedUnique(prefix), dates[|dates| - 1])
  }

  /** Some compared company's series has a point at instant `d`. */
  predicate SomeSeriesHas(compared: seq<string>, seriesOf: string -> seq<Point>, d: int)
  {
    exists c :: c in compared && d in Dates(seriesOf(c))
  }

  /** `allDates` after the first loop: the dates of every compared company's
      non-empty series, concatenated in comparison order. An instant is
      collected exactly when some compared company's series has a point there. */
  function AllDates(compared: seq<string>, seriesOf: string -> seq<Point>): (r: seq<int>)
    ensures forall d :: d in r <==> SomeSeriesHas(compared, seriesOf, d)
  {
    if compared == [] then []
    else
      var n := |compared|;
      var prefix, last := compared[..n - 1], compared[n - 1];
      var series := seriesOf(last);
      var rest := AllDates(prefix, seriesOf);
      assert compared == prefix + [last];
      AllDatesStep(prefix, last, seriesOf, rest);
      rest + (if |series| > 0 then Dates(series) else [])
  }

  /** One step of the first loop keeps the collected dates exactly those of
      the companies seen so far. */
  lemma AllDatesStep(prefix: seq<string>, last: string, seriesOf: string -> seq<Point>, rest: seq<int>)
    requires forall d :: d in rest <==> SomeSeriesHas(prefix, seriesOf, d)
    ensures forall d :: d in rest + (if |seriesOf(last)| > 0 then Dates(seriesOf(last)) else [])
              <==> SomeSeriesHas(prefix + [last], seriesOf, d)
  {
    forall d | SomeSeriesHas(prefix + [last], seriesOf, d)
      ensures d in rest + (if |seriesOf(last)| > 0 then Dates(seriesOf(last)) else [])
    {
      var c :| c in prefix + [last] && d in Dates(seriesOf(c));
      if c != last {
        assert c in prefix;
      }
    }
  }

  /** The axis of the comparison chart: strictly increasing (no instant
      twice), holding exactly the dates of the compared companies' series. */
  function Axis(compared: seq<string>, seriesOf: string -> seq<Point>): (r: seq<int>)
    ensures StrictlyIncreasing(r)
    ensures forall d :: d in r <==> SomeSeriesHas(compared, seriesOf, d)
  {
    SortedUnique(AllDates(compared, seriesOf))
  }

  // ---------------------------------------------------------------------
  // Normalised datasets

  /** A normalised point; `y` is `None` where the source divides by a zero
      start value and obtains a non-finite number. */
  datatype NormPoint = NormPoint(x: int, y: Option<real>)

  /** `data.map(d => ({ x: d.x, y: d.y / startValue * 100 }))` with
      `startValue = data[0].y`. */
  function Normalize(ps: seq<Point>): (r: seq<NormPoint>)
    requires ps != []
    ensures |r| == |ps|
    ensures forall i :: 0 <= i < |ps| ==> r[i].x == ps[i].x && (r[i].y.Some? <==> ps[0].y != 0.0)
  {
    var start := ps[0].y;
    seq(|ps|, i requires 0 <= i < |ps| => NormPoint(ps[i].x, if start == 0.0 then None else Some(ps[i].y / start * 100.0)))
  }

  lemma MultipleRatio(m: real, s: real)
    requires s != 0.0
    ensures (m * s) / s == m
  {
  }

  /** A normalised series has the dates of its source, starts at 100 when
      the start value is non-zero, and has no finite value when it is zero. */
  lemma NormalizeShape(ps: seq<Point>)
    requires ps != []
    ensures |Normalize(ps)| == |ps|
    ensures forall i :: 0 <= i < |ps| ==> Normalize(ps)[i].x == ps[i].x
    ensures ps[0].y != 0.0 ==> Normalize(ps)[0].y == Some(100.0)
    ensures ps[0].y == 0.0 ==> forall i :: 0 <= i < |ps| ==> Normalize(ps)[i].y == None
  {
    if ps[0].y != 0.0 {
      MultipleRatio(1.0, ps[0].y);
    }
  }

  /** With a non-zero start, each original close is recovered from its
      normalised value and the start value. */
  lemma NormalizeRecoversCloses(ps: seq<Point>)
    requires ps != [] && ps[0].y != 0.0
    ensures forall i :: 0 <= i < |ps| ==> Normalize(ps)[i].y.Some? && Normalize(ps)[i].y.value * ps[0].y / 100.0 == ps[i].y
  {
    var start := ps[0].y;
    forall i | 0 <= i < |ps| ensures Normalize(ps)[i].y.value * start / 100.0 == ps[i].y {
      QuotientRoundTrip(ps[i].y, start);
    }
  }

  lemma QuotientRoundTrip(y: real, start: real)
    requires start != 0.0
    ensures (y / start * 100.0) * start / 100.0 == y
  {
    var q := y / start;
    assert q * start == y;
    assert (q * 100.0) * start == (q * start) * 100.0;
  }

  /** Every close multiplied by the same factor. */
  function Scaled(ps: seq<Point>, k: real): seq<Point>
  {
    seq(|ps|, i requires 0 <= i < |ps| => ps[i].(y := ps[i].y * k))
  }

  lemma RatioScaleFree(y: real, s: real, k: real)
    requires s != 0.0 && k != 0.0
    ensures s * k != 0.0
    ensures (y * k) / (s * k) == y / s
  {
    var q := y / s;
    assert q * s == y;
    assert q * (s * k) == y * k;
  }

  /** Normalisation does not depend on the price level: scaling a whole
      series by a non-zero factor leaves its normalised form unchanged. */
  lemma NormalizeScaleFree(ps: seq<Point>, k: real)
    requires ps != [] && k != 0.0
    ensures Normalize(Scaled(ps, k)) == Normalize(ps)
  {
    var qs := Scaled(ps, k);
    var start := ps[0].y;
    assert |qs| == |ps| && qs[0].y == start * k;
    if start != 0.0 {
      RatioScaleFree(start, start, k);
      forall i | 0 <= i < |ps| ensures Normalize(qs)[i] == Normalize(ps)[i] {
        RatioScaleFree(ps[i].y, start, k);
        assert qs[i].x == ps[i].x && qs[i].y == ps[i].y * k;
        assert Normalize(qs)[i] == NormPoint(ps[i].x, Some((ps[i].y * k) / (start * k) * 100.0));
        assert Normalize(ps)[i] == NormPoint(ps[i].x, Some(ps[i].y / start * 100.0));
      }
    } else {
      assert qs[0].y == 0.0;
    }
  }

  /** A series whose last close is twice its first (non-zero) close ends at 200. */
  lemma DoublingEndsAt200(ps: seq<Point>)
    requires ps != [] && ps[0].y != 0.0 && ps[|ps| - 1].y == 2.0 * ps[0].y
    ensures Normalize(ps)[|ps| - 1].y == Some(200.0)
  {
    MultipleRatio(2.0, ps[0].y);
  }

  /** The number of colours the comparison chart cycles through. */
  const PaletteSize := 5

  /** One compared company's line: its name, its normalised series and the
      index of its colour in the palette. */
  datatype Dataset = Dataset(company: string, points: seq<NormPoint>, color: nat)

  /** The datasets after the second loop: one per compared company with a
      non-empty series, in comparison order, coloured by the company's
      position among the compared companies. Each holds its company's
      non-empty series, normalised. */
  function Datasets(compared: seq<string>, seriesOf: string -> seq<Point>): (r: seq<Dataset>)
    ensures |r| <= |compared|
    ensures forall k :: 0 <= k < |r| ==>
              seriesOf(r[k].company) != [] && r[k].points == Normalize(seriesOf(r[k].company))
  {
    if compared == [] then []
    else
      var company := compared[|compared| - 1];
      var series := seriesOf(company);
      Datasets(compared[..|compared| - 1], seriesOf) + (if |series| > 0 then [Dataset(company, Normalize(series), (|compared| - 1) % PaletteSize)] else [])
  }

  /** The companies of the datasets, in order. */
  function Companies(ds: seq<Dataset>): seq<string>
  {
    seq(|ds|, k requires 0 <= k < |ds| => ds[k].company)
  }

  /** The datasets follow the comparison order. */
  lemma {:induction false} DatasetsInOrder(compared: seq<string>, seriesOf: string -> seq<Point>)
    ensures IsSubsequence(Companies(Datasets(compared, seriesOf)), compared)
  {
    var ds := Datasets(compared, seriesOf);
    if compared == [] {
      assert Companies(ds) == [];
    } else {
      var n := |compared|;
      var prefix, last := compared[..n - 1], compared[n - 1];
      assert compared == prefix + [last];
      DatasetsInOrder(prefix, seriesOf);
      var before := Datasets(prefix, seriesOf);
      SubsequenceExtend(Companies(before), prefix, last);
      if |seriesOf(last)| > 0 {
        assert Companies(ds) == Companies(before) + [last];
      } else {
        assert ds == before;
      }
    }
  }

  /** A compared company has a dataset exactly when its series is non-empty. */
  lemma {:induction false} DatasetsCompanies(compared: seq<string>, seriesOf: string -> seq<Point>)
    ensures forall c :: c in Companies(Datasets(compared, seriesOf))
              <==> c in compared && seriesOf(c) != []
  {
    var ds := Datasets(compared, seriesOf);
    if compared == [] {
      assert Companies(ds) == [];
    } else {
      var n := |compared|;
      var prefix, last := compared[..n - 1], compared[n - 1];
      assert compared == prefix + [last];
      DatasetsCompanies(prefix, seriesOf);
      var before := Datasets(prefix, seriesOf);
      if |seriesOf(last)| > 0 {
        assert Companies(ds) == Companies(before) + [last];
      } else {
        assert ds == before;
      }
    }
  }

  /** When no company is compared twice, no company has two datasets. */
  lemma DatasetsOnePerCompany(compared: seq<string>, seriesOf: string -> seq<Point>)
    requires NoDup(compared)
    ensures NoDup(Companies(Datasets(compared, seriesOf)))
  {
    DatasetsInOrder(compared, seriesOf);
    SubsequenceNoDup(Companies(Datasets(compared, seriesOf)), compared);
  }

  /** Each dataset takes the colour at its company's position among the
      compared companies, cycling through the palette; a company without
      data leaves its colour unused. */
  lemma {:induction false} DatasetsColors(compared: seq<string>, seriesOf: string -> seq<Point>)
    requires NoDup(compared)
    ensures forall k :: 0 <= k < |Datasets(compared, seriesOf)| ==>
              Datasets(compared, seriesOf)[k].color == IndexOf(compared, Datasets(compared, seriesOf)[k].company) % PaletteSize
  {
    if compared != [] {
      var n := |compared|;
      var prefix, last := compared[..n - 1], compared[n - 1];
      assert compared == prefix + [last];
      assert NoDup(prefix);
      DatasetsColors(prefix, seriesOf);
      DatasetsCompanies(prefix, seriesOf);
      var before := Datasets(prefix, seriesOf);
      forall k | 0 <= k < |before| ensures IndexOf(compared, before[k].company) == IndexOf(prefix, before[k].company) {
        assert Companies(before)[k] == before[k].company;
        IndexOfAppend(prefix, last, before[k].company);
      }
      assert last !in prefix;
      assert IndexOf(compared, last) == n - 1;
    }
  }

  /** The first loop of the chart update: the dates of every non-empty series, concatenated. */
  method CollectDates(compared: seq<string>, seriesOf: string -> seq<Point>) returns (allDates: seq<int>)
    ensures allDates == AllDates(compared, seriesOf)
  {
    allDates := [];
    var i := 0;
    while i < |compared|
      invariant 0 <= i <= |compared|
      invariant allDates == AllDates(compared[..i], seriesOf)
    {
      assert compared[..i + 1][..i] == compared[..i];
      var data := seriesOf(compared[i]);
      if |data| > 0 {
        allDates := allDates + Dates(data);
      }
      i := i + 1;
    }
    assert compared[..i] == compared;
  }

  /** The second loop of the chart update: one normalised, coloured dataset per non-empty series. */
  method CollectDatasets(compared: seq<string>, seriesOf: string -> seq<Point>) returns (datasets: seq<Dataset>)
    ensures datasets == Datasets(compared, seriesOf)
  {
    datasets := [];
    var i := 0;
    while i < |compared|
      invariant 0 <= i <= |compared|
      invariant datasets == Datasets(compared[..i], seriesOf)
    {
      assert compared[..i + 1][..i] == compared[..i];
      var data := seriesOf(compared[i]);
      if |data| > 0 {
        datasets := datasets + [Dataset(compared[i], Normalize(data), i % PaletteSize)];
      }
      i := i + 1;
    }
    assert compared[..i] == compared;
  }

  /** What the comparison chart is given: the axis labels and the datasets. */
  datatype ComparisonView = ComparisonView(labels: seq<int>, datasets: seq<Dataset>)

  /** The chart contents for the compared companies. */
  function ComparisonOf(compared: seq<string>, seriesOf: string -> seq<Point>): (v: ComparisonView)
    ensures StrictlyIncreasing(v.labels)
    ensures forall k :: 0 <= k < |v.datasets| ==>
              seriesOf(v.datasets[k].company) != [] && v.datasets[k].points == Normalize(seriesOf(v.datasets[k].company))
  {
    ComparisonView(Axis(compared, seriesOf), Datasets(compared, seriesOf))
  }

  /** The properties of the comparison chart, gathered. */
  lemma ComparisonSpec(compared: seq<string>, seriesOf: string -> seq<Point>)
    requires NoDup(compared)
    ensures var v := ComparisonOf(compared, seriesOf);
      && StrictlyIncreasing(v.labels)
      && (forall d :: d in v.labels <==> SomeSeriesHas(compared, seriesOf, d))
      && IsSubsequence(Companies(v.datasets), compared)
      && NoDup(Companies(v.datasets))
      && (forall c :: c in Companies(v.datasets) <==> c in compared && seriesOf(c) != [])
      && (forall k :: 0 <= k < |v.datasets| ==>
            && seriesOf(v.datasets[k].company) != []
            && v.datasets[k].points == Normalize(seriesOf(v.datasets[k].company))
            && v.datasets[k].color == IndexOf(compared, v.datasets[k].company) % PaletteSize)
  {
    DatasetsInOrder(compared, seriesOf);
    DatasetsOnePerCompany(compared, seriesOf);
    DatasetsCompanies(compared, seriesOf);
    DatasetsColors(compared, seriesOf);
  }

}
