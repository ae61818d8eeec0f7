/** How the pieces fit together: the page hands the JSON it stored to the
    chart, and a prediction travels from the backend through the proxy
    route and the page's submit handler onto the chart. */
module Pipeline {
  import opened Wrappers
  import opened Json
  import opened CryptoPredictor
  import BackendApi
  import ProxyRoute
  import Page
  import PriceChart

  // ---------------------------------------------------------------------
  // Reading the stored JSON as chart input

  /** A `[timestamp, price]` pair; the chart reads elements 0 and 1. */
  function DecodePoint(j: Json): Option<PriceChart.PricePoint> {
    if j.JArr? && |j.items| >= 2 && j.items[0].JNum? && j.items[1].JNum?
    then Some(PriceChart.PricePoint(j.items[0].n, j.items[1].n))
    else None
  }

  /** A list of price pairs, or None when one entry is not a pair of numbers. */
  function DecodePoints(items: seq<Json>): (r: Option<seq<PriceChart.PricePoint>>)
    ensures r.Some? <==> forall k :: 0 <= k < |items| ==> DecodePoint(items[k]).Some?
    ensures r.Some? ==> |r.value| == |items|
    ensures r.Some? ==> forall k :: 0 <= k < |items| ==> DecodePoint(items[k]) == Some(r.value[k])
    decreases |items|
  {
    if |items| == 0 then Some([])
    else
      match DecodePoint(items[0])
      case None => None
      case Some(p) =>
        match DecodePoints(items[1..])
        case None => None
        case Some(ps) => Some([p] + ps)
  }

  /** Price pairs as the market data carries them. */
  function EncodePoints(points: seq<PriceChart.PricePoint>): (items: seq<Json>)
    ensures |items| == |points|
  {
    seq(|points|, k requires 0 <= k < |points| => JArr([JNum(points[k].timestamp), JNum(points[k].price)]))
  }

  /** Reading encoded price pairs gives the pairs back. */
  lemma DecodeEncodePoints(points: seq<PriceChart.PricePoint>)
    ensures DecodePoints(EncodePoints(points)) == Some(points)
  {
    var r := DecodePoints(EncodePoints(points));
    assert r.Some?;
    assert r.value == points;
  }

  /** The chart's `predictedRange` prop: absent or null means no range (the
      component tests it for truthiness); an object with numeric `min`,
      `max` and `date` is a range; any other shape is outside the model. */
  function DecodeRange(p: Prop): Option<Option<PriceChart.Range>> {
    match p
    case Undefined => Some(None)
    case Defined(JNull) => Some(None)
    case Defined(JObj(f)) =>
      if "min" in f && "max" in f && "date" in f && f["min"].JNum? && f["max"].JNum? && f["date"].JNum?
      then Some(Some(PriceChart.Range(f["min"].n, f["max"].n, f["date"].n)))
      else None
    case _ => None
  }

  /** The chart data for stored price data, when its shape is the one the
      component expects. */
  function ChartOf(pd: Page.PriceData, timeframe: string, formatDate: real -> string): Option<PriceChart.ChartData> {
    if !pd.historicalPrices.JArr? then None
    else
      match DecodePoints(pd.historicalPrices.items)
      case None => None
      case Some(points) =>
        match DecodeRange(pd.predictedRange)
        case None => None
        case Some(range) => Some(PriceChart.BuildChartData(points, range, timeframe, formatDate))
  }

  // ---------------------------------------------------------------------
  // End to end

  /** The response body read back as the page reads it. */
  lemma ResponseFields(resp: BackendApi.Response)
    requires resp.success
    ensures var data := BackendApi.ResponseJson(resp);
            && Page.Succeeded(Page.Received(data))
            && Get(data, "result") == Some(Defined(JStr(resp.result)))
            && Get(data, "predicted_range") == Some(Defined(data.fields["predicted_range"]))
            && (resp.marketData.None? ==> Page.MarketPrices(data) == Undefined)
            && (resp.marketData.Some? && "prices" in resp.marketData.value ==>
                  Page.MarketPrices(data) == Defined(resp.marketData.value["prices"]))
  {
    var data := BackendApi.ResponseJson(resp);
    assert Get(data, "success") == Some(Defined(JBool(true)));
    assert Get(data, "result") == Some(Defined(JStr(resp.result)));
    match resp.marketData
    case None =>
      assert Get(data, "market_data") == Some(Defined(JNull));
    case Some(m) =>
      assert Get(data, "market_data") == Some(Defined(JObj(m)));
  }

  /** The page accepts a successful backend response: it shows the
      normalised text and, when the response carries a price list, stores
      that list with the range. */
  lemma {:induction false} PageAcceptsResponse(st: Page.PageState, liveCrypto: string, liveTimeframe: string,
                                                resp: BackendApi.Response)
    requires resp.success
    ensures var data := BackendApi.ResponseJson(resp);
            var after := Page.HandleSubmit(st, liveCrypto, liveTimeframe, Page.Received(data)).settled;
            && after.prediction == Page.Normalise(resp.result)
            && !after.isLoading
            && (resp.marketData.None? ==> after.priceData == st.priceData)
            && (resp.marketData.Some? && "prices" in resp.marketData.value
                && resp.marketData.value["prices"].JArr? ==>
                  after.priceData == Some(Page.PriceData(resp.marketData.value["prices"],
                                                         Defined(data.fields["predicted_range"]))))
  {
    var data := BackendApi.ResponseJson(resp);
    ResponseFields(resp);
    var loading := st.(isLoading := true, crypto := liveCrypto, timeframe := liveTimeframe);
    var after := Page.Settle(loading, Page.Received(data));
    assert Page.HandleSubmit(st, liveCrypto, liveTimeframe, Page.Received(data)).settled == after;
    assert after.prediction == Page.Normalise(resp.result);
    if resp.marketData.Some? && "prices" in resp.marketData.value && resp.marketData.value["prices"].JArr? {
      assert Truthy(Page.MarketPrices(data));
    }
  }

  /** A backend response relayed by the proxy route after an ok status
      reaches the page unchanged. */
  lemma {:induction false} RelayedResponseReachesPage(st: Page.PageState, liveCrypto: string, liveTimeframe: string,
                                   resp: BackendApi.Response, backend: Json -> ProxyRoute.Upstream, status: int)
    requires resp.success
    requires ProxyRoute.IsOk(status)
    requires backend(Page.RequestBody(st.crypto, st.timeframe)) == ProxyRoute.Responded(status, Some(BackendApi.ResponseJson(resp)))
    ensures var x := ProxyRoute.Post(Some(Page.RequestBody(st.crypto, st.timeframe)), backend);
            var after := Page.HandleSubmit(st, liveCrypto, liveTimeframe, Page.Received(x.reply.body)).settled;
            && x.reply == ProxyRoute.Reply(200, BackendApi.ResponseJson(resp))
            && after.prediction == Page.Normalise(resp.result)
            && !after.isLoading
            && (resp.marketData.None? ==> after.priceData == st.priceData)
            && (resp.marketData.Some? && "prices" in resp.marketData.value
                && resp.marketData.value["prices"].JArr? ==>
                  after.priceData == Some(Page.PriceData(resp.marketData.value["prices"],
                                                         Defined(BackendApi.ResponseJson(resp).fields["predicted_range"]))))
  {
    PageAcceptsResponse(st, liveCrypto, liveTimeframe, resp);
  }

  /** A successful response whose market data holds a price list and whose
      range carries a date reaches the chart through the proxy route and
      the page: one label per price plus the formatted prediction date, and
      a prediction dataset ending in the range's minimum and maximum. The
      chart is drawn with the timeframe selected when it renders. */
  lemma {:induction false} ResponseReachesChart(st: Page.PageState, liveCrypto: string, liveTimeframe: string,
                             resp: BackendApi.Response,
                             backend: Json -> ProxyRoute.Upstream,
                             points: seq<PriceChart.PricePoint>, formatDate: real -> string)
    requires resp.success
    requires backend(Page.RequestBody(st.crypto, st.timeframe)) == ProxyRoute.Responded(200, Some(BackendApi.ResponseJson(resp)))
    requires resp.marketData.Some? && "prices" in resp.marketData.value
    requires resp.marketData.value["prices"] == JArr(EncodePoints(points))
    requires resp.predictedRange.Some? && resp.predictedRange.value.date.Some?
    ensures var x := ProxyRoute.Post(Some(Page.RequestBody(st.crypto, st.timeframe)), backend);
            var after := Page.HandleSubmit(st, liveCrypto, liveTimeframe, Page.Received(x.reply.body)).settled;
            var r := resp.predictedRange.value;
            && after.priceData.Some?
            && ChartOf(after.priceData.value, after.timeframe, formatDate)
               == Some(PriceChart.BuildChartData(points, Some(PriceChart.Range(r.min, r.max, r.date.value)),
                                                 liveTimeframe, formatDate))
  {
    var r := resp.predictedRange.value;
    var body := BackendApi.ResponseJson(resp);
    RelayedResponseReachesPage(st, liveCrypto, liveTimeframe, resp, backend, 200);
    assert body.fields["predicted_range"] == BackendApi.RangeJson(r);
    StoredChart(points, r, liveTimeframe, formatDate);
  }

  /** The chart drawn from price pairs and a dated range stored as the
      backend encodes them. */
  lemma {:induction false} StoredChart(points: seq<PriceChart.PricePoint>, r: BackendApi.PredictedRange,
                    timeframe: string, formatDate: real -> string)
    requires r.date.Some?
    ensures ChartOf(Page.PriceData(JArr(EncodePoints(points)), Defined(BackendApi.RangeJson(r))), timeframe, formatDate)
            == Some(PriceChart.BuildChartData(points, Some(PriceChart.Range(r.min, r.max, r.date.value)), timeframe, formatDate))
  {
    assert DecodeRange(Defined(BackendApi.RangeJson(r))) == Some(Some(PriceChart.Range(r.min, r.max, r.date.value)));
    DecodeEncodePoints(points);
  }

  /** A prediction whose text yields a range and whose market data holds a
      price list travels from the backend through the proxy route and the
      page onto the chart. The range is dated by the timeframe the request
      sent, while the prediction dataset's legend names the timeframe
      selected when the chart renders; the two differ when the selection
      changed while the request ran. */
  lemma {:induction false} PredictionReachesChart(st: Page.PageState, liveCrypto: string, liveTimeframe: string,
                               fetched: Option<map<string, Json>>, nowMs: real,
                               llm: (string, string, map<string, Json>) -> LlmOutcome,
                               backend: Json -> ProxyRoute.Upstream,
                               points: seq<PriceChart.PricePoint>, formatDate: real -> string)
    requires var resp := BackendApi.Predict(st.crypto, st.timeframe, fetched, nowMs, llm);
             && backend(Page.RequestBody(st.crypto, st.timeframe)) == ProxyRoute.Responded(200, Some(BackendApi.ResponseJson(resp)))
             && resp.marketData.Some?
             && "prices" in resp.marketData.value
             && resp.marketData.value["prices"] == JArr(EncodePoints(points))
             && resp.predictedRange.Some?
    ensures var resp := BackendApi.Predict(st.crypto, st.timeframe, fetched, nowMs, llm);
            var x := ProxyRoute.Post(Some(Page.RequestBody(st.crypto, st.timeframe)), backend);
            var after := Page.HandleSubmit(st, liveCrypto, liveTimeframe, Page.Received(x.reply.body)).settled;
            var r := resp.predictedRange.value;
            && after.priceData.Some?
            && r.min <= r.max
            && ChartOf(after.priceData.value, after.timeframe, formatDate)
               == Some(PriceChart.BuildChartData(points,
                                                 Some(PriceChart.Range(r.min, r.max, PredictionDate(st.timeframe, nowMs))),
                                                 liveTimeframe, formatDate))
  {
    var resp := BackendApi.Predict(st.crypto, st.timeframe, fetched, nowMs, llm);
    ResponseReachesChart(st, liveCrypto, liveTimeframe, resp, backend, points, formatDate);
  }
}
