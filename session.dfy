/** The viewer's page state: the global variables of the script, held as
    the fields of one session object, and the handlers that update them. */
module Session {
  import opened Seqs
  import opened Series
  import CompanyIndex
  import opened Favorites
  import opened Comparison

  /** The chart types offered by the chart-type menu. */
  datatype ChartType = Line | Bar | Candlestick

  /** The series of each company for one data set, range and pair of cutoffs. */
  function SeriesOf(data: seq<Row>, range: TimeRange, ago: Cutoffs): string -> seq<Point>
  {
    c => CompanySeries(data, c, range, ago)
  }

  /** The comparison chart: the axis holds each instant of the compared
      series once, in increasing order; the datasets follow the comparison
      order, skip exactly the companies without data, hold each series
      normalised to its first close and take the colour at the company's
      position. */
  lemma ComparisonChartSpec(data: seq<Row>, compared: seq<string>, range: TimeRange, ago: Cutoffs)
    requires NoDup(compared)
    ensures var v := ComparisonOf(compared, SeriesOf(data, range, ago));
      && StrictlyIncreasing(v.labels)
      && (forall d :: d in v.labels <==> exists c :: c in compared && d in Dates(CompanySeries(data, c, range, ago)))
      && IsSubsequence(Companies(v.datasets), compared)
      && NoDup(Companies(v.datasets))
      && (forall c :: c in Companies(v.datasets) <==> c in compared && CompanySeries(data, c, range, ago) != [])
      && (forall k :: 0 <= k < |v.datasets| ==>
            var d := v.datasets[k];
            && CompanySeries(data, d.company, range, ago) != []
            && d.points == Normalize(CompanySeries(data, d.company, range, ago))
            && d.color == IndexOf(compared, d.company) % PaletteSize)
  {
    ComparisonSpec(compared, SeriesOf(data, range, ago));
  }

  class Session {
    var stockData: seq<Row>
    var companies: seq<string>
    var favorites: seq<string>
    var comparedCompanies: seq<string>
    var currentTimeRange: TimeRange
    var currentChartType: ChartType

    /** A company is compared at most once. */
    ghost predicate Valid()
      reads this
    {
      NoDup(comparedCompanies)
    }

    /** The initial values of the globals. */
    constructor ()
      ensures stockData == [] && companies == [] && favorites == [] && comparedCompanies == []
      ensures currentTimeRange == All && currentChartType == Line
      ensures Valid()
    {
      stockData := [];
      companies := [];
      favorites := [];
      comparedCompanies := [];
      currentTimeRange := All;
      currentChartType := Line;
    }

    /** Loading the data. `fetched` is the converted response, `None` when
        the request failed. On failure the demo rows are stored, the
        favourites are not restored and the error is passed on (`ok` is
        false): start-up then stops, so the company index, the list and the
        charts are never built. An empty response falls back to the demo
        rows and loading goes on. `saved` is the parsed `favorites` entry of
        the browser storage, `None` when there is none. */
    method Load(fetched: Option<seq<Row>>, demo: seq<Row>, saved: Option<seq<string>>) returns (ok: bool)
      modifies this
      ensures ok <==> fetched.Some?
      ensures stockData == (if ok && fetched.value != [] then fetched.value else demo)
      ensures favorites == (if ok && saved.Some? then saved.value else old(favorites))
      ensures companies == old(companies) && comparedCompanies == old(comparedCompanies)
      ensures currentTimeRange == old(currentTimeRange) && currentChartType == old(currentChartType)
      ensures Valid() <==> old(Valid())
    {
      if fetched.None? {
        stockData := demo;
        return false;
      }
      stockData := fetched.value;
      if stockData == [] {
        stockData := demo;
      }
      if saved.Some? {
        favorites := saved.value;
      }
      return true;
    }

    /** The company index: the distinct names of the rows, ascending. */
    method ExtractCompanies()
      modifies this
      ensures CompanyIndex.StrictlyAscending(companies)
      ensures forall y :: y in companies <==> y in CompanyIndex.CompanyNames(stockData)
      ensures companies == CompanyIndex.ExtractCompanies(stockData)
      ensures stockData == old(stockData) && favorites == old(favorites) && comparedCompanies == old(comparedCompanies)
      ensures currentTimeRange == old(currentTimeRange) && currentChartType == old(currentChartType)
      ensures Valid() <==> old(Valid())
    {
      companies := CompanyIndex.ExtractCompanies(stockData);
    }

    /** Toggle the favourite status of `company`. */
    method ToggleFavorite(company: string)
      modifies this
      ensures favorites == Toggled(old(favorites), company)
      ensures stockData == old(stockData) && companies == old(companies) && comparedCompanies == old(comparedCompanies)
      ensures currentTimeRange == old(currentTimeRange) && currentChartType == old(currentChartType)
      ensures Valid() <==> old(Valid())
    {
      var index := IndexOf(favorites, company);
      if index == -1 {
        favorites := favorites + [company];
      } else {
        RemoveFirstIsSplice(favorites, company);
        favorites := favorites[..index] + favorites[index + 1..];
      }
    }

    /** Add `company` to the comparison unless it is already compared; when
        it is added the comparison chart is redrawn. */
    method AddToComparison(company: string, ago: Cutoffs) returns (added: bool, view: Option<ComparisonView>)
      requires Valid()
      modifies this
      ensures added <==> company !in old(comparedCompanies)
      ensures comparedCompanies == WithCompany(old(comparedCompanies), company)
      ensures added ==> view.Some? && view.value == ComparisonOf(comparedCompanies, SeriesOf(stockData, currentTimeRange, ago))
      ensures !added ==> view.None?
      ensures stockData == old(stockData) && companies == old(companies) && favorites == old(favorites)
      ensures currentTimeRange == old(currentTimeRange) && currentChartType == old(currentChartType)
      ensures Valid()
    {
      added := company !in comparedCompanies;
      view := None;
      if added {
        comparedCompanies := comparedCompanies + [company];
        view := UpdateComparisonChart(ago);
      }
    }

    /** Empty the comparison. */
    method ClearComparison()
      modifies this
      ensures comparedCompanies == []
      ensures stockData == old(stockData) && companies == old(companies) && favorites == old(favorites)
      ensures currentTimeRange == old(currentTimeRange) && currentChartType == old(currentChartType)
      ensures Valid()
    {
      comparedCompanies := [];
    }

    method SetTimeRange(range: TimeRange)
      modifies this
      ensures currentTimeRange == range
      ensures stockData == old(stockData) && companies == old(companies) && favorites == old(favorites)
      ensures comparedCompanies == old(comparedCompanies) && currentChartType == old(currentChartType)
      ensures Valid() <==> old(Valid())
    {
      currentTimeRange := range;
    }

    method SetChartType(chartType: ChartType)
      modifies this
      ensures currentChartType == chartType
      ensures stockData == old(stockData) && companies == old(companies) && favorites == old(favorites)
      ensures comparedCompanies == old(comparedCompanies) && currentTimeRange == old(currentTimeRange)
      ensures Valid() <==> old(Valid())
    {
      currentChartType := chartType;
    }

    /** What the comparison chart shows for the compared companies in the
        current range, `None` when nothing is compared (the chart is left
        as it is); `ComparisonChartSpec` states what that contents is. */
    method UpdateComparisonChart(ago: Cutoffs) returns (view: Option<ComparisonView>)
      ensures view.None? <==> comparedCompanies == []
      ensures view.Some? ==> view.value == ComparisonOf(comparedCompanies, SeriesOf(stockData, currentTimeRange, ago))
    {
      if comparedCompanies == [] {
        return None;
      }
      var compared := comparedCompanies;
      var seriesOf := SeriesOf(stockData, currentTimeRange, ago);

      var allDates := CollectDates(compared, seriesOf);
      var labels := SortedUnique(allDates);
      var datasets := CollectDatasets(compared, seriesOf);
      view := Some(ComparisonView(labels, datasets));
    }
  }
}
