/** The data-shaping steps of the backend's predictor: trimming the market
    data fetched from CoinGecko to its last seven entries, choosing the
    prediction date from the timeframe, and assembling the
    (result, market data, prediction date) triple. The HTTP fetch, the
    language-model call and the clock are inputs. */
module CryptoPredictor {
  import opened Wrappers
  import opened Json

  /** Trailing entries kept of each market-data series. */
  const KeptEntries: nat := 7

  /** The series get_crypto_data trims. */
  const TrimmedKeys: set<string> := {"prices", "market_caps", "total_volumes"}

  /** Milliseconds in a day, the unit of the prediction date. */
  const MsPerDay: real := 86_400_000.0

  /** Error text returned when no market data could be obtained:
      "Error: Unable to fetch market data from CoinGecko". It is spelled in
      pieces because the verifier cannot establish `'P' !in FetchError`
      against the single literal within its resource bound. */
  const FetchError: string := "Error: " + "Unable to " + "fetch " + "market data " + "from " + "CoinGecko"

  /** Python's `xs[-7:]` on a sequence. */
  function LastEntries<T>(xs: seq<T>): (ys: seq<T>)
    ensures |ys| == if |xs| < KeptEntries then |xs| else KeptEntries
    ensures xs == xs[..|xs| - |ys|] + ys
  {
    xs[(if |xs| > KeptEntries then |xs| - KeptEntries else 0)..]
  }

  /** Values Python can slice: lists and strings. */
  predicate Sliceable(v: Json) {
    v.JArr? || v.JStr?
  }

  /** `v[-7:]` on a JSON value: the last seven items of a list or the last
      seven characters of a string; slicing anything else raises, which
      None stands for. */
  function TakeLast(v: Json): (r: Option<Json>)
    ensures r.Some? <==> Sliceable(v)
    ensures v.JArr? ==> r == Some(JArr(LastEntries(v.items)))
    ensures v.JStr? ==> r == Some(JStr(LastEntries(v.s)))
  {
    match v
    case JArr(xs) => Some(JArr(LastEntries(xs)))
    case JStr(s) => Some(JStr(LastEntries(s)))
    case _ => None
  }

  /** `if key in data: data[key] = data[key][-7:]`. */
  function TrimKey(data: map<string, Json>, key: string): (r: Option<map<string, Json>>)
    ensures r.None? <==> key in data && !Sliceable(data[key])
    ensures r.Some? ==> r.value.Keys == data.Keys
    ensures r.Some? ==> forall k :: k in data && k != key ==> r.value[k] == data[k]
    ensures r.Some? && key in data ==> TakeLast(data[key]) == Some(r.value[key])
  {
    if key !in data then Some(data)
    else
      match TakeLast(data[key])
      case None => None
      case Some(v) => Some(data[key := v])
  }

  /** get_crypto_data after the fetch: `fetched` is the decoded CoinGecko
      body, or None when the request or the decoding raised. The three
      series are trimmed in turn; a series that cannot be sliced raises, and
      the exception handler turns every failure into None. */
  function GetCryptoData(fetched: Option<map<string, Json>>): (r: Option<map<string, Json>>)
    ensures r.Some? <==> fetched.Some? && forall k :: k in TrimmedKeys && k in fetched.value ==> Sliceable(fetched.value[k])
    ensures r.Some? ==> r.value.Keys == fetched.value.Keys
    ensures r.Some? ==> forall k :: k in fetched.value && k !in TrimmedKeys ==> r.value[k] == fetched.value[k]
    ensures r.Some? ==> forall k :: k in fetched.value && k in TrimmedKeys ==> TakeLast(fetched.value[k]) == Some(r.value[k])
  {
    match fetched
    case None => None
    case Some(data) =>
      match TrimKey(data, "prices")
      case None => None
      case Some(a) =>
        match TrimKey(a, "market_caps")
        case None => None
        case Some(b) => TrimKey(b, "total_volumes")
  }

  /** Days added to "now" for a timeframe; unknown timeframes add nothing. */
  function OffsetDays(timeframe: string): (days: nat)
    ensures days in {0, 1, 7, 30, 90}
    ensures days == 0 <==> timeframe !in {"24h", "7d", "30d", "90d"}
  {
    if timeframe == "24h" then 1
    else if timeframe == "7d" then 7
    else if timeframe == "30d" then 30
    else if timeframe == "90d" then 90
    else 0
  }

  /** The four timeframes the form offers and the days they stand for. */
  lemma OffsetTable()
    ensures OffsetDays("24h") == 1 && OffsetDays("7d") == 7
    ensures OffsetDays("30d") == 30 && OffsetDays("90d") == 90
  {
  }

  /** The prediction date in milliseconds since the epoch, for a clock
      reading `nowMs` taken in milliseconds. */
  function PredictionDate(timeframe: string, nowMs: real): (date: real)
    ensures date >= nowMs
    ensures date == nowMs <==> OffsetDays(timeframe) == 0
    ensures date - nowMs == (OffsetDays(timeframe) as real) * MsPerDay
  {
    nowMs + (OffsetDays(timeframe) as real) * MsPerDay
  }

  /** What the language-model chain gives back: its text, or the message of
      the exception it raised. */
  datatype LlmOutcome = Answered(text: string) | Raised(message: string)

  /** The triple predict_crypto returns. */
  datatype Prediction = Prediction(result: string, marketData: Option<map<string, Json>>, date: Option<real>)

  /** predict_crypto. `fetched` is the CoinGecko body (see GetCryptoData),
      `nowMs` the clock reading and `llm` the chain, asked with the asset,
      the timeframe and the trimmed market data. An empty dictionary is
      falsy in Python, so it counts as missing market data. */
  function PredictCrypto(crypto: string, timeframe: string, fetched: Option<map<string, Json>>,
                         nowMs: real, llm: (string, string, map<string, Json>) -> LlmOutcome): (p: Prediction)
    ensures p.marketData.None? <==> p.date.None?
    ensures (GetCryptoData(fetched).None? || |GetCryptoData(fetched).value| == 0) ==> p == Prediction(FetchError, None, None)
    ensures p.marketData.Some? ==> p.marketData == GetCryptoData(fetched) && |p.marketData.value| > 0
    ensures p.marketData.Some? ==> p.date == Some(PredictionDate(timeframe, nowMs))
    ensures p.marketData.Some? ==> llm(crypto, timeframe, p.marketData.value) == Answered(p.result)
    ensures GetCryptoData(fetched).Some? && |GetCryptoData(fetched).value| > 0
            && llm(crypto, timeframe, GetCryptoData(fetched).value).Answered? ==>
              p == Prediction(llm(crypto, timeframe, GetCryptoData(fetched).value).text,
                              GetCryptoData(fetched), Some(PredictionDate(timeframe, nowMs)))
    ensures GetCryptoData(fetched).Some? && |GetCryptoData(fetched).value| > 0
            && llm(crypto, timeframe, GetCryptoData(fetched).value).Raised? ==>
              p == Prediction("Error: " + llm(crypto, timeframe, GetCryptoData(fetched).value).message, None, None)
    ensures p.marketData.None? && p.result != FetchError ==>
              && GetCryptoData(fetched).Some?
              && llm(crypto, timeframe, GetCryptoData(fetched).value).Raised?
              && p.result == "Error: " + llm(crypto, timeframe, GetCryptoData(fetched).value).message
  {
    match GetCryptoData(fetched)
    case None => Prediction(FetchError, None, None)
    case Some(data) =>
      if |data| == 0 then Prediction(FetchError, None, None)
      else
        var date := PredictionDate(timeframe, nowMs);
        match llm(crypto, timeframe, data)
        case Answered(text) => Prediction(text, Some(data), Some(date))
        case Raised(message) =>
          Prediction("Error: " + message, None, None)
  }
}
