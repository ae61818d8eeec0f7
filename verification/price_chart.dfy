/** The data the PriceChart component hands to the line chart: one label per
    historical point plus a trailing label, the historical dataset, and a
    prediction dataset when a predicted range is given. Date formatting
    (`new Date(t).toLocaleDateString()`) is the parameter `formatDate`. */
module PriceChart {
  import opened Wrappers

  /** A price pair `[timestamp, price]` as the market data supplies it. */
  datatype PricePoint = PricePoint(timestamp: real, price: real)

  datatype Range = Range(min: real, max: real, date: real)

  /** A dataset entry: a number, or `null` for "nothing plotted here". */
  datatype Point = NoValue | Value(v: real)

  /** A dataset: its legend text (Chart.js `label`) and its points. */
  datatype Dataset = Dataset(legend: string, data: seq<Point>)

  datatype ChartData = ChartData(labels: seq<string>, datasets: seq<Dataset>)

  const HistoricalLabel: string := "Historical Price"

  /** `dates`: the formatted timestamp of every point, in order. */
  function Dates(points: seq<PricePoint>, formatDate: real -> string): (ds: seq<string>)
    ensures |ds| == |points|
    ensures forall i :: 0 <= i < |ds| ==> ds[i] == formatDate(points[i].timestamp)
  {
    seq(|points|, i requires 0 <= i < |points| => formatDate(points[i].timestamp))
  }

  /** `prices`: the price of every point, in order. */
  function Prices(points: seq<PricePoint>): (ps: seq<Point>)
    ensures |ps| == |points|
    ensures forall i :: 0 <= i < |ps| ==> ps[i] == Value(points[i].price)
  {
    seq(|points|, i requires 0 <= i < |points| => Value(points[i].price))
  }

  /** `Array(n).fill(null)`. */
  function Nulls(n: nat): (ps: seq<Point>)
    ensures |ps| == n
    ensures forall i :: 0 <= i < n ==> ps[i] == NoValue
  {
    seq(n, i => NoValue)
  }

  /** `[...].filter(Boolean)` on the list of datasets, with `null` as None:
      the present entries, in their order. */
  function Present(entries: seq<Option<Dataset>>): (ds: seq<Dataset>)
    ensures |ds| <= |entries|
    ensures forall d :: d in ds <==> Some(d) in entries
    decreases |entries|
  {
    if |entries| == 0 then []
    else
      var rest := Present(entries[1..]);
      assert forall e :: e in entries <==> e == entries[0] || e in entries[1..];
      match entries[0]
      case None => rest
      case Some(d) => [d] + rest
  }

  /** A single entry is kept when present and dropped when null; with
      PresentAppend this fixes the order and multiplicity of the result for
      every list. */
  lemma PresentOne(e: Option<Dataset>)
    ensures Present([e]) == if e.Some? then [e.value] else []
  {
    assert [e][1..] == [];
  }

  /** Filtering commutes with concatenation: the kept datasets keep their
      relative order and each occurrence counts once. */
  lemma {:induction false} PresentAppend(a: seq<Option<Dataset>>, b: seq<Option<Dataset>>)
    ensures Present(a + b) == Present(a) + Present(b)
    decreases |a|
  {
    if |a| == 0 {
      assert a + b == b;
    } else {
      assert (a + b)[0] == a[0];
      assert (a + b)[1..] == a[1..] + b;
      PresentAppend(a[1..], b);
    }
  }

  /** Filtering a present dataset followed by an optional one. */
  lemma PresentPair(first: Dataset, second: Option<Dataset>)
    ensures Present([Some(first), second]) == [first] + (if second.Some? then [second.value] else [])
  {
    assert [Some(first), second][1..] == [second];
    assert [second][1..] == [];
  }

  /** The chart data PriceChart builds. The labels are one per historical
      point, in order, then always one more: the formatted prediction date,
      or `''` without a range. The historical dataset comes first and holds
      every price in order; a second dataset exists exactly when a range is
      given, and holds a null for each historical point followed by the
      minimum and then the maximum. */
  function BuildChartData(points: seq<PricePoint>, predictedRange: Option<Range>, timeframe: string,
                          formatDate: real -> string): (d: ChartData)
    ensures |d.labels| == |points| + 1
    ensures forall i :: 0 <= i < |points| ==> d.labels[i] == formatDate(points[i].timestamp)
    ensures d.labels[|points|] == (if predictedRange.Some? then formatDate(predictedRange.value.date) else "")
    ensures |d.datasets| == (if predictedRange.Some? then 2 else 1)
    ensures d.datasets[0] == Dataset(HistoricalLabel, d.datasets[0].data)
    ensures |d.datasets[0].data| == |points|
    ensures forall i :: 0 <= i < |points| ==> d.datasets[0].data[i] == Value(points[i].price)
    ensures predictedRange.Some? ==>
              && d.datasets[1].legend == timeframe + " Prediction Range"
              && |d.datasets[1].data| == |points| + 2
              && (forall i :: 0 <= i < |points| ==> d.datasets[1].data[i] == NoValue)
              && d.datasets[1].data[|points|] == Value(predictedRange.value.min)
              && d.datasets[1].data[|points| + 1] == Value(predictedRange.value.max)
  {
    var dates := Dates(points, formatDate);
    var predictionDate := match predictedRange case Some(r) => formatDate(r.date) case None => "";
    var historical := Dataset(HistoricalLabel, Prices(points));
    var predicted := match predictedRange
      case Some(r) => Some(Dataset(timeframe + " Prediction Range", Nulls(|dates|) + [Value(r.min), Value(r.max)]))
      case None => None;
    PresentPair(historical, predicted);
    ChartData(dates + [predictionDate], Present([Some(historical), predicted]))
  }

  /** With a range, the prediction dataset is one entry longer than the
      labels: the minimum sits on the trailing label, and the maximum sits
      at an index that has no label. */
  lemma PredictionOverhangsLabels(points: seq<PricePoint>, r: Range, timeframe: string,
                                  formatDate: real -> string)
    ensures var d := BuildChartData(points, Some(r), timeframe, formatDate);
            && |d.datasets[1].data| == |d.labels| + 1
            && d.labels[|d.labels| - 1] == formatDate(r.date)
            && d.datasets[1].data[|d.labels| - 1] == Value(r.min)
            && d.datasets[1].data[|d.labels|] == Value(r.max)
  {
  }
}
