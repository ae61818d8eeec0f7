# Crypto predictor: the prediction pipeline in Dafny

This project models the data-shaping logic of a small crypto price predictor.
A user picks an asset and a timeframe. The Next.js page posts the choice to
`${API_BASE_URL}/predict`. The base URL comes from a configuration module
(`config/api`) that is not part of this model; the model takes the request to
reach the app's own `POST /api/predict` route. The route forwards it to a
FastAPI backend. The
backend fetches CoinGecko market data, trims it to the last seven entries,
asks a language model for an analysis, pulls a predicted price range out of
the model's text, and answers with the text, the market data and the range.
The page shows the text with every line trimmed, and hands the prices and the
range to a chart component. That component lines up the historical points
and the predicted range on one axis.

Everything is pure functions over immutable values. The clock, the locale
date formatter, the CoinGecko fetch, the language model and every HTTP fetch
are parameters.

| file | module | what it holds |
|---|---|---|
| `wrappers.dfy` | `Wrappers` | `Option` |
| `json.dfy` | `Json` | JSON values; JavaScript truthiness and property access |
| `text.dfy` | `Text` | splitting on a character and joining back, Python's `str.split()`, JavaScript's `trim`, `str.replace(c, '')` |
| `decimal.dfy` | `Decimal` | Python's `float()` on decimal-notation tokens |
| `crypto_predictor.dfy` | `CryptoPredictor` | `get_crypto_data`'s trimming, the timeframe offsets, `predict_crypto` |
| `backend_api.dfy` | `BackendApi` | range extraction and the `/predict` response |
| `proxy_route.dfy` | `ProxyRoute` | the `POST /api/predict` route |
| `page.dfy` | `Page` | `handleSubmit`: text normalisation and the page-state update |
| `price_chart.dfy` | `PriceChart` | the data `PriceChart` builds for the line chart |
| `pipeline.dfy` | `Pipeline` | decoding the stored JSON for the chart; backend → proxy → page → chart |

Modelling choices:

- Numbers are exact reals. `float()` accepts an optional sign, digits and at most one decimal point, with at least one digit.
- `price_line.split()` splits on Python whitespace. `line.trim()` strips JavaScript whitespace. These are two separate character sets.
- Reading a property (`data.success`, `data.market_data?.prices`) follows JavaScript. Reading a property of `null` throws. On a non-object it gives `undefined`. Truthiness treats every array and object as truthy.
- The prediction date is `now + days × 86 400 000` milliseconds. `now` is a parameter in milliseconds.
- An empty market-data dictionary counts as missing data, because Python treats `{}` as false.

Behaviour of the code worth knowing:

- **Proxy status.** An ok reply is re-emitted with status 200, so a 201 from the backend reaches the page as 200. A non-ok reply carries the fixed text "Backend service error" and the backend's status, unless no reply can carry that status (304, or anything outside 200 to 599): building the reply then throws, and the route answers 500 "Failed to reach backend service" (`ProxyRoute.StatusRelay`).
- **Request.** The page sends `{crypto, timeframe}` exactly as selected, without validation.
- **Late replies.** Only the submit button is disabled while a request runs; the two selects stay enabled. The reply is written into whatever state the page is in when it settles. The range is dated by the timeframe that was sent, while the chart legend names the timeframe selected when the chart renders (`Pipeline.PredictionReachesChart`).
- **Trailing line break.** A trailing newline survives normalisation, because the number of line breaks is preserved (`Page.NormaliseKeepsLineBreaks`).
- **Chart length.** The prediction dataset has n+2 points against n+1 labels, so the maximum sits at an index with no label (`PriceChart.PredictionOverhangsLabels`).

## Model

| member | source | states |
|---|---|---|
| `CryptoPredictor.LastEntries` | backend/crypto_predictor.py:30 | `xs[-7:]` has `min(7, len(xs))` entries and is a suffix of `xs`, in the original order |
| `CryptoPredictor.TakeLast` | backend/crypto_predictor.py:30-34 | a list or string is cut to its last seven items; any other value cannot be sliced, and that failure is reported |
| `CryptoPredictor.TrimKey` | backend/crypto_predictor.py:29-34 | an absent key leaves the data alone; a present sliceable series is replaced by its last seven entries; every other key keeps its value and no key is added or removed |
| `CryptoPredictor.GetCryptoData` | backend/crypto_predictor.py:28-39 | fails exactly when the fetch failed or one of prices/market_caps/total_volumes cannot be sliced; otherwise the key set is unchanged, the three series are trimmed and all other keys are untouched |
| `CryptoPredictor.OffsetDays` | backend/crypto_predictor.py:81-89 | the offset is one of 0, 1, 7, 30, 90 days, and it is 0 exactly for a timeframe other than 24h/7d/30d/90d |
| `CryptoPredictor.OffsetTable` | backend/crypto_predictor.py:82-89 | 24h → 1, 7d → 7, 30d → 30, 90d → 90 days |
| `CryptoPredictor.PredictionDate` | backend/crypto_predictor.py:81-89 | the date is never before now, equals now exactly for an unknown timeframe, and lies the offset's days ahead in milliseconds |
| `CryptoPredictor.PredictCrypto` | backend/crypto_predictor.py:72-104 | missing or empty market data gives the fetch error with no data and no date; otherwise the trimmed data, the dated prediction and the model's text; a model failure gives "Error: " + its message with neither data nor date; data and date are present together |
| `Decimal.ParseNumber` | backend/api.py:41 | a token parses exactly when it is an optional `+` or `-` followed by digits and points, with at most one point and at least one digit; so the empty token, `.`, `1.2.3`, `--5` and any letter fail |
| `Decimal.ParseSigns` | backend/api.py:41 | a leading `+` leaves an unsigned token's value unchanged and a leading `-` negates it |
| `Decimal.ParseWhole` | backend/api.py:41 | a token of digits reads as their base-ten value |
| `Decimal.ParseDecimal` | backend/api.py:41 | digits, a point and digits read as the whole part plus the fraction digits over ten to their count (`45000.50` is 45000 + 50/100); with a leading `-` the negation |
| `Decimal.ParseRender` | backend/api.py:41 | reading the decimal digits of a whole number, with or without a leading minus, gives that number back |
| `Text.Without` | backend/api.py:41 | `replace(c, '')` removes every `c`, keeps every other character with its multiplicity, and leaves a string without `c` as it is |
| `Text.WithoutAppend` | backend/api.py:41 | removal works piece by piece, so the characters kept stay in their order |
| `Text.Words` | backend/api.py:41 | `split()` yields non-empty words free of whitespace |
| `Text.WordsOfInterleave` | backend/api.py:41 | words separated by any non-empty whitespace, with any whitespace or none before the first and after the last, split back into exactly those words |
| `Text.WordsWithGaps` | backend/api.py:41 | every line is its words with whitespace gaps around them and non-empty gaps between them; with `Text.WordsOfInterleave`, the words are exactly the maximal runs of non-whitespace, in order |
| `Text.WordsOfJoin` | backend/api.py:41 | splitting words joined by single spaces gives the words back |
| `Text.WordsCoverNonSpace` | backend/api.py:41 | the words, concatenated, are exactly the non-whitespace characters of the line in order |
| `BackendApi.Clean` | backend/api.py:41 | a cleaned token has no `$` and no `,`, every other character keeps its multiplicity, and a token with neither is unchanged |
| `BackendApi.CleanAppend` | backend/api.py:41 | cleaning works piece by piece, so `$45,000` cleans to `45000` with the digits in order |
| `BackendApi.PriceTokens` | backend/api.py:41 | there are no more tokens than words, none exactly when no word contains `$`, and no token holds `$` or `,` |
| `BackendApi.PriceTokensOfWord` | backend/api.py:41 | one word gives its cleaned self when it contains `$` and nothing otherwise |
| `BackendApi.PriceTokensAppend` | backend/api.py:41 | the tokens of concatenated word lists are the concatenated tokens, so the order of the words is kept |
| `BackendApi.ParseAll` | backend/api.py:41 | the numbers exist exactly when every token parses, one per token, each the token's value |
| `BackendApi.LineNumbers` | backend/api.py:41 | a line's numbers exist exactly when every price token of the line parses; then there is one number per token, each that token's value, in order |
| `BackendApi.Least` | backend/api.py:44 | `min` is an element of the list and at most every element |
| `BackendApi.Greatest` | backend/api.py:45 | `max` is an element of the list and at least every element |
| `BackendApi.RangeOfLine` | backend/api.py:41-47 | a line gives a range exactly when all its price tokens parse and there are at least two; min and max are among the numbers and bound all of them, and the date is the one passed in |
| `BackendApi.PromptLineRange` | backend/api.py:41-47 | a line in the format the prompt asks for, `Price Prediction: $a to $b` with whole-dollar prices, yields the range from the lesser to the greater price, in either order |
| `BackendApi.MarkerLines` | backend/api.py:39 | the filtered list is non-empty exactly when some line mentions "Price Prediction", and its head is the first such line |
| `Text.SplitKeepsOccurrence` | backend/api.py:37-39 | a text that mentions the marker has a line that mentions it, so the `[0]` cannot fail |
| `BackendApi.ExtractRange` | backend/api.py:36-50 | no range without the marker; with it, the range of the first line that mentions the marker; any range has min ≤ max and carries the given date |
| `BackendApi.LaterLinesIgnored` | backend/api.py:39 | whatever follows the first marker line, more marker lines included, does not change the range |
| `BackendApi.UnparsableTokenVoidsRange` | backend/api.py:38-50 | one price token that does not parse voids the whole range |
| `BackendApi.GetPrediction` | backend/api.py:52-57 | success is true, and result and market data are passed on unchanged next to the extracted range |
| `BackendApi.Predict` | backend/api.py:28-57 | the handler always reports success; when the fetch fails, a series cannot be sliced or the market data is empty, the answer is the fetch error with no data and no range; when the model answers, the response carries its text, the trimmed market data and the range extracted from the text with the timeframe's prediction date; when the model raises, the text is "Error: " + its message, there is no market data, and any range extracted from that text has no date |
| `BackendApi.FetchErrorHasNoMarker` | backend/crypto_predictor.py:78 | the fetch error text does not mention "Price Prediction", so it never yields a range |
| `BackendApi.RangeJson` | backend/api.py:43-47 | the range is an object with exactly min, max and date, the date null when there is none |
| `BackendApi.ResponseJson` | backend/api.py:52-57 | the body has exactly the keys success, result, market_data and predicted_range; market_data is the data object or null, and predicted_range is the range object or null |
| `ProxyRoute.Relay` | frontend/src/app/api/predict/route.ts:17-32 | unreachable backend → 500 with "Failed to reach backend service"; non-2xx status that a reply can carry → that status with "Backend service error"; non-2xx status no reply can carry (304, outside 200–599) → 500 with the reach error; 2xx with unreadable body → 500; 2xx with a body → that body with status 200 |
| `ProxyRoute.Post` | frontend/src/app/api/predict/route.ts:7-33 | the incoming body is forwarded unchanged; an unreadable request gives 500 with the reach error; otherwise the reply is the relay of the backend's answer |
| `ProxyRoute.ReplyIsPassThroughOrFailure` | frontend/src/app/api/predict/route.ts:19-31 | every reply is the backend's own ok body or a body with `success: false`; any status other than 200 comes with a failure body |
| `ProxyRoute.StatusRelay` | frontend/src/app/api/predict/route.ts:17-26 | a non-ok status is passed on exactly when a reply can carry it; an ok status with a readable body becomes 200; every reply status is one a reply can carry |
| `Text.Split` | frontend/src/app/page.tsx:63 | splitting always yields at least one part, and no part holds the separator |
| `Text.SplitCount` | frontend/src/app/page.tsx:63 | there is one more part than separators |
| `Text.JoinSplit` | frontend/src/app/page.tsx:62-65 | joining the parts with the separator restores the text |
| `Text.SplitJoin` | frontend/src/app/page.tsx:62-65 | splitting parts that hold no separator, once joined, gives the parts back |
| `Text.Trim` | frontend/src/app/page.tsx:64 | the result starts and ends with non-whitespace (or is empty), and it is a slice of the input with only whitespace around it |
| `Text.TrimIdempotent` | frontend/src/app/page.tsx:64 | trimming twice equals trimming once |
| `Text.TrimKeepsAbsence` | frontend/src/app/page.tsx:64 | trimming never introduces a character, a line break in particular |
| `Page.Normalise` | frontend/src/app/page.tsx:62-65 | the lines of the normalised text are the trimmed original lines, one for one and in order |
| `Page.NormaliseKeepsLineBreaks` | frontend/src/app/page.tsx:62-65 | normalising keeps the number of line breaks |
| `Page.NormaliseTrimsLines` | frontend/src/app/page.tsx:64 | every line of the normalised text is trimmed |
| `Page.NormaliseIdempotent` | frontend/src/app/page.tsx:62-65 | normalising twice equals normalising once |
| `Page.InitialState` | frontend/src/app/page.tsx:37-44 | the page starts on bitcoin and 7d, idle, with no chart data and no text |
| `Page.RequestBody` | frontend/src/app/page.tsx:56 | the request body holds exactly the selected crypto and timeframe |
| `Page.MarketPrices` | frontend/src/app/page.tsx:68 | `data.market_data?.prices` is the `prices` field when `market_data` is an object that has one, and undefined otherwise (no market_data, a null one, or another kind of value) |
| `Page.Settle` | frontend/src/app/page.tsx:59-83 | loading is cleared on every outcome; failure or an exception shows the apology and keeps the chart data; success shows the normalised text; chart data changes exactly when the call succeeded and prices are truthy, and then holds those prices and the predicted range |
| `Page.HandleSubmit` | frontend/src/app/page.tsx:46-83 | the request carries the selection at submit time; loading is set while the request runs; the settled state is the outcome applied to the selection current when it settles, with loading cleared |
| `Page.SettledTextIsNormal` | frontend/src/app/page.tsx:61-80 | after any submission the text is the apology or already normalised |
| `PriceChart.Present` | frontend/src/components/PriceChart.tsx:41-56 | `filter(Boolean)` keeps exactly the present datasets |
| `PriceChart.PresentOne` | frontend/src/components/PriceChart.tsx:41-56 | one entry is kept when present and dropped when null |
| `PriceChart.PresentAppend` | frontend/src/components/PriceChart.tsx:41-56 | filtering commutes with concatenation, so the kept datasets keep their order and multiplicity |
| `PriceChart.BuildChartData` | frontend/src/components/PriceChart.tsx:29-57 | n+1 labels, the first n being the formatted timestamps in order and the last the formatted prediction date or ""; the historical dataset holds every price in order; a second dataset exists exactly when a range does, with n nulls then min then max |
| `PriceChart.PredictionOverhangsLabels` | frontend/src/components/PriceChart.tsx:37-50 | with a range the prediction dataset is one longer than the labels; min sits on the last label, max on an index with no label |
| `Pipeline.DecodePoints` | frontend/src/components/PriceChart.tsx:30-34 | price pairs decode exactly when every entry is a pair of numbers, one point per entry |
| `Pipeline.DecodeEncodePoints` | frontend/src/components/PriceChart.tsx:30-34 | decoding encoded price pairs gives them back |
| `Pipeline.PageAcceptsResponse` | frontend/src/app/page.tsx:59-73 | the page accepts a backend success body: it shows the normalised result and stores the prices with the range |
| `Pipeline.RelayedResponseReachesPage` | frontend/src/app/api/predict/route.ts:25-26 | a backend body relayed after any 2xx status reaches the page unchanged, with status 200 |
| `Pipeline.StoredChart` | frontend/src/app/page.tsx:156-162 | the chart drawn from stored prices and a dated range is the chart of those points and that range |
| `Pipeline.ResponseReachesChart` | frontend/src/app/page.tsx:156-162 | a success body with prices and a dated range, relayed by the proxy, puts exactly those points and that range on the chart, under the timeframe selected when it renders |
| `Pipeline.PredictionReachesChart` | backend/api.py:36-57 | a backend prediction with a range goes through proxy and page onto the chart; min ≤ max, the range is dated by the timeframe that was sent, and the legend names the timeframe selected at render time |

## Left out

- The CoinGecko request and the language-model chain (`get_crypto_data`'s fetch and `chain.invoke`) are network calls. They are parameters: the decoded body or a failure, and the answer text or an exception message. The prompt template is left out.
- `datetime.now()` and `toLocaleDateString()` are a clock and a locale formatter. They are parameters (`nowMs`, `formatDate`).
- `CryptoPredictor.PredictionDate`: computed in exact milliseconds as now plus whole days. Python's naive-local `timestamp()` (daylight-saving shifts) and floating-point rounding are not modelled.
- `Decimal.ParseNumber`: covers plain decimal notation with ASCII digits only. `float()` also accepts exponents, `inf`, `nan`, underscores, surrounding whitespace and digits of other scripts (`"４５"` reads as 45.0); such tokens are treated as unparsable here. Binary floating-point rounding is not modelled either.
- `CryptoPredictor.GetCryptoData`: the decoded CoinGecko body is taken to be an object (or a failure). A body of another kind is not modelled: a list passes the `'prices' in data` tests untouched and becomes the market data; null, a number or a boolean makes those tests raise, giving None; a string is searched for the key names as substrings.
- Strings are sequences of Unicode scalar values. JavaScript's UTF-16 code units are not modelled.
- The outer `except` of `get_prediction` (backend/api.py:58-60) answers 500. Nothing in the modelled handler raises once `predict_crypto` has returned, because `predict_crypto` catches its own errors. Serialisation failures inside the framework are not modelled.
- FastAPI app setup, CORS, the health route and the request-body validation by pydantic (backend/api.py:1-27) are framework configuration.
- The `__main__` driver of crypto_predictor.py (lines 106-130) is stdin/stdout plumbing.
- Logging (`print`, `console.error`) and reading the backend's error text (`response.text()`) in the proxy route have no effect on the reply. A failure of `response.text()` would turn a non-ok reply into the 500 reach error; that case is not modelled.
- The backend's Python dictionary and the page's JavaScript value are the same `Json` value. The `JSON.stringify`/`response.json()` round trip is taken to be exact.
- `Page.Settle`: the page's HTTP fetch is one outcome, a body or an exception. The HTTP status is not consulted by the page, and the model does not consult it either.
- `Pipeline.ChartOf`: gives a chart only when the stored data has the expected shape, price pairs of numbers and a range that is absent, null or an object with numeric min, max and date. Other shapes are not modelled. A stored `prices` value that is truthy but not an array makes the component throw at `historicalPrices.map` (frontend/src/components/PriceChart.tsx:30); entries that are not pairs give dates and prices of `undefined`.
- Chart.js registration, options and rendering, the JSX markup, the loading skeleton and the disabling of the submit button are UI.
- The TimeDisplay clock component, the root layout and next.config.js are UI chrome and static configuration. They are not part of this model.
- The test scripts test_coingecko.py and test_openai.py call live services and assert nothing. They are not part of this model.
