/** Selecting one company's price series: the rows of that company, sorted
    by date (a stable sort, as `Array.prototype.sort` is), turned into chart
    points, and cut to the active time range. */
module Series {
  import opened Seqs

  /** One loaded observation (an element of `stockData`). `date` is the
      instant of the observation in milliseconds since the epoch. */
  datatype Row = Row(date: int, company: string, price: real, open: real, high: real, low: real, volume: int)

  /** One chart point: `x` is the date and `y` the closing value. */
  datatype Point = Point(x: int, y: real, open: real, high: real, low: real, volume: int)

  /** The time ranges the range buttons select. */
  datatype TimeRange = All | OneYear | ThreeYears

  /** The instants one and three calendar years before the current date. */
  datatype Cutoffs = Cutoffs(oneYearAgo: int, threeYearsAgo: int)

  function CutoffOf(range: TimeRange, ago: Cutoffs): int
    requires range != All
  {
    if range == OneYear then ago.oneYearAgo else ago.threeYearsAgo
  }

  function ToPoint(row: Row): Point
  {
    Point(row.date, row.price, row.open, row.high, row.low, row.volume)
  }

  /** The `map` from rows to chart points: rows sorted by date give points
      sorted by date. */
  function ToPoints(rows: seq<Row>): (ps: seq<Point>)
    ensures |ps| == |rows|
    ensures forall i :: 0 <= i < |rows| ==> ps[i] == ToPoint(rows[i])
    ensures SortedByDate(rows) ==> SortedByX(ps)
  {
    seq(|rows|, i requires 0 <= i < |rows| => ToPoint(rows[i]))
  }

  /** The `map` commutes with concatenation: the points of two row lists
      placed one after the other are their points placed the same way. */
  lemma ToPointsConcat(a: seq<Row>, b: seq<Row>)
    ensures ToPoints(a + b) == ToPoints(a) + ToPoints(b)
  {
    var l, r := ToPoints(a + b), ToPoints(a) + ToPoints(b);
    assert |l| == |r|;
    forall i | 0 <= i < |l| ensures l[i] == r[i] {
      if i < |a| {
        assert (a + b)[i] == a[i];
      } else {
        assert (a + b)[i] == b[i - |a|];
      }
    }
  }

  /** The dates of a series, in order (`data.map(d => d.x)`). */
  function Dates(ps: seq<Point>): seq<int>
  {
    seq(|ps|, i requires 0 <= i < |ps| => ps[i].x)
  }

  predicate SortedByDate(rows: seq<Row>)
  {
    forall i, j :: 0 <= i < j < |rows| ==> rows[i].date <= rows[j].date
  }

  predicate SortedByX(ps: seq<Point>)
  {
    forall i, j :: 0 <= i < j < |ps| ==> ps[i].x <= ps[j].x
  }

  /** `stockData.filter(row => row.company === company)`: the rows of one
      company, in `stockData` order, each as often as it occurs there. */
  function RowsOf(data: seq<Row>, company: string): (rs: seq<Row>)
    ensures IsSubsequence(rs, data)
    ensures forall i :: 0 <= i < |rs| ==> rs[i].company == company
    ensures forall row :: multiset(rs)[row] == if row.company == company then multiset(data)[row] else 0
  {
    if data == [] then []
    else
      var rest := RowsOf(data[1..], company);
      assert data == [data[0]] + data[1..];
      if data[0].company == company then
        assert ([data[0]] + rest)[1..] == rest;
        [data[0]] + rest
      else rest
  }

  /** The rows dated at or after `cutoff`, in order, each as often as it
      occurs in `rows`. */
  function RowsSince(rows: seq<Row>, cutoff: int): (rs: seq<Row>)
    ensures IsSubsequence(rs, rows)
    ensures forall i :: 0 <= i < |rs| ==> rs[i].date >= cutoff
  {
    if rows == [] then []
    else
      var rest := RowsSince(rows[1..], cutoff);
      if rows[0].date >= cutoff then
        assert ([rows[0]] + rest)[1..] == rest;
        [rows[0]] + rest
      else rest
  }

  /** The cutoff filter keeps every row dated at or after the cutoff as
      often as it occurs, and drops every other row. */
  lemma {:induction false} RowsSinceCounts(rows: seq<Row>, cutoff: int)
    ensures forall row :: multiset(RowsSince(rows, cutoff))[row] == if row.date >= cutoff then multiset(rows)[row] else 0
  {
    if rows != [] {
      RowsSinceCounts(rows[1..], cutoff);
      assert rows == [rows[0]] + rows[1..];
    }
  }

  /** The rows carrying one date, in order: what a stable sort must not reorder. */
  function RowsAt(rows: seq<Row>, date: int): seq<Row>
  {
    if rows == [] then []
    else if rows[0].date == date then [rows[0]] + RowsAt(rows[1..], date)
    else RowsAt(rows[1..], date)
  }

  /** Insert `row` into a date-sorted sequence, before the first element
      that is not earlier than it. */
  function InsertByDate(sorted: seq<Row>, row: Row): seq<Row>
  {
    if sorted == [] || row.date <= sorted[0].date then [row] + sorted
    else [sorted[0]] + InsertByDate(sorted[1..], row)
  }

  /** Insertion adds exactly the one row. */
  lemma {:induction false} InsertByDatePermutes(sorted: seq<Row>, row: Row)
    ensures multiset(InsertByDate(sorted, row)) == multiset(sorted) + multiset{row}
  {
    if sorted != [] && row.date > sorted[0].date {
      InsertByDatePermutes(sorted[1..], row);
      assert sorted == [sorted[0]] + sorted[1..];
    }
  }

  /** Insertion into a sorted sequence keeps it sorted. */
  lemma {:induction false} InsertByDateSorted(sorted: seq<Row>, row: Row)
    requires SortedByDate(sorted)
    ensures SortedByDate(InsertByDate(sorted, row))
  {
    if sorted != [] && row.date > sorted[0].date {
      var tail := sorted[1..];
      InsertByDateSorted(tail, row);
      InsertByDatePermutes(tail, row);
      var rest := InsertByDate(tail, row);
      forall j | 0 <= j < |rest| ensures sorted[0].date <= rest[j].date {
        assert rest[j] in multiset(tail) + multiset{row};
        if rest[j] != row {
          var k :| 0 <= k < |tail| && tail[k] == rest[j];
          assert sorted[k + 1] == rest[j];
        }
      }
      assert InsertByDate(sorted, row) == [sorted[0]] + rest;
    }
  }

  /** `rows.sort((a, b) => a.date - b.date)`: a stable sort by date. */
  function SortByDate(rows: seq<Row>): (r: seq<Row>)
    ensures SortedByDate(r)
    ensures multiset(r) == multiset(rows)
  {
    if rows == [] then []
    else
      var tail := SortByDate(rows[1..]);
      InsertByDatePermutes(tail, rows[0]);
      InsertByDateSorted(tail, rows[0]);
      assert rows == [rows[0]] + rows[1..];
      InsertByDate(tail, rows[0])
  }

  /** Inserting `row` leaves the other rows of each date in their order and
      puts `row` ahead of the rows of its own date. */
  lemma {:induction false} InsertByDateStable(sorted: seq<Row>, row: Row, date: int)
    ensures RowsAt(InsertByDate(sorted, row), date)
         == if row.date == date then [row] + RowsAt(sorted, date) else RowsAt(sorted, date)
  {
    if sorted == [] || row.date <= sorted[0].date {
      assert ([row] + sorted)[1..] == sorted;
    } else {
      InsertByDateStable(sorted[1..], row, date);
      var rest := InsertByDate(sorted[1..], row);
      assert ([sorted[0]] + rest)[1..] == rest;
    }
  }

  /** The sort is stable: rows with equal dates keep their relative order. */
  lemma {:induction false} SortByDateStable(rows: seq<Row>, date: int)
    ensures RowsAt(SortByDate(rows), date) == RowsAt(rows, date)
  {
    if rows != [] {
      SortByDateStable(rows[1..], date);
      InsertByDateStable(SortByDate(rows[1..]), rows[0], date);
    }
  }

  /** The cutoff filter commutes with insertion into a sorted sequence. */
  lemma {:induction false} RowsSinceInsert(sorted: seq<Row>, row: Row, cutoff: int)
    requires SortedByDate(sorted)
    ensures RowsSince(InsertByDate(sorted, row), cutoff)
         == if row.date >= cutoff then InsertByDate(RowsSince(sorted, cutoff), row) else RowsSince(sorted, cutoff)
  {
    var since := RowsSince(sorted, cutoff);
    if sorted == [] || row.date <= sorted[0].date {
      assert ([row] + sorted)[1..] == sorted;
      if since != [] {
        SubsequenceMembers(since, sorted);
        assert since[0] in sorted;
      }
    } else {
      RowsSinceInsert(sorted[1..], row, cutoff);
      var rest := InsertByDate(sorted[1..], row);
      assert ([sorted[0]] + rest)[1..] == rest;
    }
  }

  /** Cutting a sorted series to a date range and sorting commute. */
  lemma {:induction false} RowsSinceSort(rows: seq<Row>, cutoff: int)
    ensures RowsSince(SortByDate(rows), cutoff) == SortByDate(RowsSince(rows, cutoff))
  {
    if rows != [] {
      RowsSinceSort(rows[1..], cutoff);
      RowsSinceInsert(SortByDate(rows[1..]), rows[0], cutoff);
    }
  }

  /** `data.filter(item => item.x >= cutoff)`: the points dated at or after
      the cutoff, in order, each as often as it occurs in `ps`. */
  function SinceCutoff(ps: seq<Point>, cutoff: int): (r: seq<Point>)
    ensures IsSubsequence(r, ps)
    ensures forall i :: 0 <= i < |r| ==> r[i].x >= cutoff
  {
    if ps == [] then []
    else
      var rest := SinceCutoff(ps[1..], cutoff);
      if ps[0].x >= cutoff then
        assert ([ps[0]] + rest)[1..] == rest;
        [ps[0]] + rest
      else rest
  }

  /** The cutoff filter keeps every point dated at or after the cutoff as
      often as it occurs, and drops every other point. */
  lemma {:induction false} SinceCutoffCounts(ps: seq<Point>, cutoff: int)
    ensures forall p :: multiset(SinceCutoff(ps, cutoff))[p] == if p.x >= cutoff then multiset(ps)[p] else 0
  {
    if ps != [] {
      SinceCutoffCounts(ps[1..], cutoff);
      assert ps == [ps[0]] + ps[1..];
    }
  }

  /** Cutting an ascending series keeps it ascending. */
  lemma SinceCutoffSorted(ps: seq<Point>, cutoff: int)
    requires SortedByX(ps)
    ensures SortedByX(SinceCutoff(ps, cutoff))
  {
    SubsequenceSortedByX(SinceCutoff(ps, cutoff), ps);
  }

  /** A subsequence of an ascending series is ascending. */
  lemma {:induction false} SubsequenceSortedByX(a: seq<Point>, b: seq<Point>)
    requires IsSubsequence(a, b) && SortedByX(b)
    ensures SortedByX(a)
    decreases |b|
  {
    if a != [] {
      assert SortedByX(b[1..]);
      if a[0] == b[0] && IsSubsequence(a[1..], b[1..]) {
        SubsequenceSortedByX(a[1..], b[1..]);
        SubsequenceMembers(a[1..], b[1..]);
        forall j | 1 <= j < |a| ensures a[0].x <= a[j].x {
          assert a[j] in a[1..];
          var k :| 0 <= k < |b[1..]| && b[1..][k] == a[j];
          assert b[k + 1] == a[j];
        }
      } else {
        SubsequenceSortedByX(a, b[1..]);
      }
    }
  }

  /** Cutting points to a range is cutting their rows. */
  lemma {:induction false} SinceCutoffToPoints(rows: seq<Row>, cutoff: int)
    ensures SinceCutoff(ToPoints(rows), cutoff) == ToPoints(RowsSince(rows, cutoff))
  {
    if rows != [] {
      SinceCutoffToPoints(rows[1..], cutoff);
      assert ToPoints(rows)[1..] == ToPoints(rows[1..]);
    }
  }

  /** Cutting to a range a second time changes nothing. */
  lemma {:induction false} SinceCutoffIdempotent(ps: seq<Point>, cutoff: int)
    ensures SinceCutoff(SinceCutoff(ps, cutoff), cutoff) == SinceCutoff(ps, cutoff)
  {
    if ps != [] {
      SinceCutoffIdempotent(ps[1..], cutoff);
      var rest := SinceCutoff(ps[1..], cutoff);
      assert ([ps[0]] + rest)[1..] == rest;
    }
  }

  /** `filterDataByTimeRange`: every point under `All`, otherwise exactly the
      points dated at or after the range's cutoff, in their order. */
  function FilterDataByTimeRange(ps: seq<Point>, range: TimeRange, ago: Cutoffs): (r: seq<Point>)
    ensures range == All ==> r == ps
    ensures range != All ==> IsSubsequence(r, ps)
    ensures range != All ==> forall i :: 0 <= i < |r| ==> r[i].x >= CutoffOf(range, ago)
    ensures range != All ==> forall p :: multiset(r)[p] == if p.x >= CutoffOf(range, ago) then multiset(ps)[p] else 0
  {
    if range == All then ps
    else
      SinceCutoffCounts(ps, CutoffOf(range, ago));
      SinceCutoff(ps, CutoffOf(range, ago))
  }

  /** Applying the range filter to its own result changes nothing. */
  lemma FilterDataByTimeRangeIdempotent(ps: seq<Point>, range: TimeRange, ago: Cutoffs)
    ensures FilterDataByTimeRange(FilterDataByTimeRange(ps, range, ago), range, ago)
         == FilterDataByTimeRange(ps, range, ago)
  {
    if range != All {
      SinceCutoffIdempotent(ps, CutoffOf(range, ago));
    }
  }

  /** `getFilteredCompanyData`: the company's rows, sorted by date, as
      points, cut to the active range. The series is ascending by date and,
      unless the range is `All`, dated at or after the range's cutoff;
      `CompanySeriesSpec` says which points it holds. */
  function CompanySeries(data: seq<Row>, company: string, range: TimeRange, ago: Cutoffs): (r: seq<Point>)
    ensures SortedByX(r)
    ensures range != All ==> forall i :: 0 <= i < |r| ==> r[i].x >= CutoffOf(range, ago)
  {
    var sorted := SortByDate(RowsOf(data, company));
    var ps := ToPoints(sorted);
    match range
    case OneYear => SinceCutoffSorted(ps, ago.oneYearAgo); SinceCutoff(ps, ago.oneYearAgo)
    case ThreeYears => SinceCutoffSorted(ps, ago.threeYearsAgo); SinceCutoff(ps, ago.threeYearsAgo)
    case All => ps
  }

  /** The rows a series is built from: the company's rows in the range, in `stockData` order. */
  function Selected(data: seq<Row>, company: string, range: TimeRange, ago: Cutoffs): seq<Row>
  {
    if range == All then RowsOf(data, company) else RowsSince(RowsOf(data, company), CutoffOf(range, ago))
  }

  /** Filtering by range after sorting is sorting the rows in range. */
  lemma CompanySeriesIsSortedSelection(data: seq<Row>, company: string, range: TimeRange, ago: Cutoffs)
    ensures CompanySeries(data, company, range, ago) == ToPoints(SortByDate(Selected(data, company, range, ago)))
  {
    if range != All {
      var rows := RowsOf(data, company);
      SinceCutoffToPoints(SortByDate(rows), CutoffOf(range, ago));
      RowsSinceSort(rows, CutoffOf(range, ago));
    }
  }

  /** Points of a permutation of rows are a permutation of the points. */
  lemma {:induction false} ToPointsInsert(sorted: seq<Row>, row: Row)
    ensures multiset(ToPoints(InsertByDate(sorted, row))) == multiset(ToPoints(sorted)) + multiset{ToPoint(row)}
  {
    if sorted == [] || row.date <= sorted[0].date {
      assert ToPoints([row] + sorted) == [ToPoint(row)] + ToPoints(sorted);
    } else {
      ToPointsInsert(sorted[1..], row);
      var rest := InsertByDate(sorted[1..], row);
      assert ToPoints([sorted[0]] + rest) == [ToPoint(sorted[0])] + ToPoints(rest);
      assert ToPoints(sorted) == [ToPoint(sorted[0])] + ToPoints(sorted[1..]);
    }
  }

  lemma {:induction false} ToPointsSort(rows: seq<Row>)
    ensures multiset(ToPoints(SortByDate(rows))) == multiset(ToPoints(rows))
  {
    if rows != [] {
      var tail := SortByDate(rows[1..]);
      ToPointsSort(rows[1..]);
      ToPointsInsert(tail, rows[0]);
      ToPointsCons(rows[0], rows[1..]);
      assert rows == [rows[0]] + rows[1..];
    }
  }

  lemma ToPointsCons(row: Row, rows: seq<Row>)
    ensures ToPoints([row] + rows) == [ToPoint(row)] + ToPoints(rows)
  {
  }

  /** A company's series is ascending by date and holds exactly one point
      per selected row: the rows of that company (dated at or after the
      cutoff unless the range is `All`), each with its own price, open,
      high, low and volume. */
  lemma CompanySeriesSpec(data: seq<Row>, company: string, range: TimeRange, ago: Cutoffs)
    ensures SortedByX(CompanySeries(data, company, range, ago))
    ensures multiset(CompanySeries(data, company, range, ago)) == multiset(ToPoints(Selected(data, company, range, ago)))
  {
    var sel := Selected(data, company, range, ago);
    CompanySeriesIsSortedSelection(data, company, range, ago);
    ToPointsSort(sel);
    var sorted := SortByDate(sel);
    assert SortedByDate(sorted);
  }

  /** The selected rows keep the order of `stockData`, and each row occurs
      among them exactly as often as in `stockData` when it belongs to the
      company and, unless the range is `All`, is dated at or after the
      cutoff, and not at all otherwise. */
  lemma SelectedMembers(data: seq<Row>, company: string, range: TimeRange, ago: Cutoffs)
    ensures IsSubsequence(Selected(data, company, range, ago), data)
    ensures forall row :: multiset(Selected(data, company, range, ago))[row]
              == if row.company == company && (range == All || row.date >= CutoffOf(range, ago)) then multiset(data)[row] else 0
  {
    if range != All {
      var rows := RowsOf(data, company);
      SubsequenceTransitive(RowsSince(rows, CutoffOf(range, ago)), rows, data);
      RowsSinceCounts(rows, CutoffOf(range, ago));
    }
  }

  /** The two range filters of the viewer agree: the company series is the
      full series passed through `filterDataByTimeRange`. */
  lemma CompanySeriesIsRangeFiltered(data: seq<Row>, company: string, range: TimeRange, ago: Cutoffs)
    ensures CompanySeries(data, company, range, ago)
         == FilterDataByTimeRange(CompanySeries(data, company, All, ago), range, ago)
  {
  }

  /** Re-applying the range filter to a company series changes nothing. */
  lemma CompanySeriesRangeStable(data: seq<Row>, company: string, range: TimeRange, ago: Cutoffs)
    ensures FilterDataByTimeRange(CompanySeries(data, company, range, ago), range, ago)
         == CompanySeries(data, company, range, ago)
  {
    FilterDataByTimeRangeIdempotent(CompanySeries(data, company, All, ago), range, ago);
  }
}
