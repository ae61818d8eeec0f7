/** The home page's submit handler: it sends the current selection, then
    either shows the normalised analysis text (and, when market prices came
    back, new chart data) or an apology, and clears the loading flag on
    every outcome. The page state is a value; the handler maps it to the
    state shown while the request runs and the state after it settles. */
module Page {
  import opened Wrappers
  import opened Json
  import opened Text

  /** Text shown in place of the analysis after any failure. */
  const Apology: string := "Sorry, there was an error getting the prediction."

  /** What the chart is drawn from: the `prices` value and the
      `predicted_range` property of the response, as received. */
  datatype PriceData = PriceData(historicalPrices: Json, predictedRange: Prop)

  datatype PageState = PageState(crypto: string, timeframe: string, prediction: string,
                                 isLoading: bool, priceData: Option<PriceData>)

  /** The state the page starts in. */
  function InitialState(): (st: PageState)
    ensures st.crypto == "bitcoin" && st.timeframe == "7d"
    ensures !st.isLoading && st.priceData.None? && st.prediction == ""
  {
    PageState("bitcoin", "7d", "", false, None)
  }

  // ---------------------------------------------------------------------
  // Text normalisation

  /** Each line trimmed, in order. */
  function TrimAll(lines: seq<string>): (r: seq<string>)
    ensures |r| == |lines|
    ensures forall k :: 0 <= k < |r| ==> r[k] == Trim(lines[k])
  {
    seq(|lines|, k requires 0 <= k < |lines| => Trim(lines[k]))
  }

  /** Trimmed lines hold no line break when the lines hold none. */
  lemma TrimAllKeepsBreaksOut(lines: seq<string>)
    requires forall k :: 0 <= k < |lines| ==> '\n' !in lines[k]
    ensures forall k :: 0 <= k < |TrimAll(lines)| ==> '\n' !in TrimAll(lines)[k]
  {
    forall k | 0 <= k < |lines|
      ensures '\n' !in TrimAll(lines)[k]
    {
      TrimKeepsAbsence(lines[k], '\n');
    }
  }

  /** `result.split('\n').map(line => line.trim()).join('\n')`. The lines
      of the normalised text are the trimmed lines of the original, one for
      one and in order. */
  function Normalise(text: string): (r: string)
    ensures Split(r, '\n') == TrimAll(Split(text, '\n'))
  {
    var trimmed := TrimAll(Split(text, '\n'));
    TrimAllKeepsBreaksOut(Split(text, '\n'));
    SplitJoin(trimmed, '\n');
    Join(trimmed, '\n')
  }

  /** Normalisation keeps the number of line breaks. */
  lemma {:induction false} NormaliseKeepsLineBreaks(text: string)
    ensures multiset(Normalise(text))['\n'] == multiset(text)['\n']
  {
    SplitCount(text, '\n');
    SplitCount(Normalise(text), '\n');
  }

  /** Every line of the normalised text is free of leading and trailing
      whitespace. */
  lemma {:induction false} NormaliseTrimsLines(text: string)
    ensures forall k :: 0 <= k < |Split(Normalise(text), '\n')| ==> IsTrimmed(Split(Normalise(text), '\n')[k])
  {
  }

  /** Normalising an already normalised text changes nothing. */
  lemma {:induction false} NormaliseIdempotent(text: string)
    ensures Normalise(Normalise(text)) == Normalise(text)
  {
    var lines := Split(text, '\n');
    forall k | 0 <= k < |lines|
      ensures Trim(Trim(lines[k])) == Trim(lines[k])
    {
      TrimIdempotent(lines[k]);
    }
    assert TrimAll(TrimAll(lines)) == TrimAll(lines);
  }

  // ---------------------------------------------------------------------
  // The submit handler

  /** `JSON.stringify({ crypto, timeframe })`, as a value. */
  function RequestBody(crypto: string, timeframe: string): (j: Json)
    ensures j.JObj? && j.fields.Keys == {"crypto", "timeframe"}
    ensures j.fields["crypto"] == JStr(crypto) && j.fields["timeframe"] == JStr(timeframe)
  {
    JObj(map["crypto" := JStr(crypto), "timeframe" := JStr(timeframe)])
  }

  /** How the request ended on the client: the response body read as JSON,
      or an exception from `fetch` or `response.json()`. The HTTP status is
      not consulted by the handler. */
  datatype ClientOutcome = Received(data: Json) | Threw

  /** True when the handler reaches `setPrediction(formattedResult)`:
      the body is not null, `data.success` is truthy and `data.result` is a
      string (anything else makes `.split` throw). */
  predicate Succeeded(outcome: ClientOutcome) {
    && outcome.Received?
    && !outcome.data.JNull?
    && Truthy(Get(outcome.data, "success").value)
    && Get(outcome.data, "result").value.Defined?
    && Get(outcome.data, "result").value.v.JStr?
  }

  /** `data.market_data?.prices` for a body that is not null: the `prices`
      field when `market_data` is an object that has one, and `undefined`
      otherwise (no `market_data`, a null one, or one of another kind). */
  function MarketPrices(data: Json): (p: Prop)
    requires !data.JNull?
    ensures p == (if && data.JObj? && "market_data" in data.fields
                     && data.fields["market_data"].JObj?
                     && "prices" in data.fields["market_data"].fields
                  then Defined(data.fields["market_data"].fields["prices"])
                  else Undefined)
  {
    match Get(data, "market_data").value
    case Undefined => Undefined
    case Defined(md) =>
      if md.JNull? then Undefined else Get(md, "prices").value
  }

  /** The three outcomes of the try block, with `isLoading` cleared by the
      `finally` clause. */
  function Settle(st: PageState, outcome: ClientOutcome): (after: PageState)
    ensures !after.isLoading
    ensures after.crypto == st.crypto && after.timeframe == st.timeframe
    ensures !Succeeded(outcome) ==> after.prediction == Apology && after.priceData == st.priceData
    ensures Succeeded(outcome) ==> after.prediction == Normalise(Get(outcome.data, "result").value.v.s)
    ensures Succeeded(outcome) && Truthy(MarketPrices(outcome.data)) ==>
              after.priceData == Some(PriceData(MarketPrices(outcome.data).v, Get(outcome.data, "predicted_range").value))
    ensures after.priceData != st.priceData ==> Succeeded(outcome) && Truthy(MarketPrices(outcome.data))
  {
    var failed := st.(prediction := Apology, isLoading := false);
    match outcome
    case Threw => failed
    case Received(data) =>
      match Get(data, "success")
      case None => failed
      case Some(success) =>
        if !Truthy(success) then failed
        else
          match Get(data, "result").value
          case Defined(JStr(text)) =>
            var shown := st.(prediction := Normalise(text), isLoading := false);
            var prices := MarketPrices(data);
            if Truthy(prices) then
              shown.(priceData := Some(PriceData(prices.v, Get(data, "predicted_range").value)))
            else shown
          case _ => failed
  }

  /** One submission: the request body sent, the state while the request
      runs and the state after it settles. */
  datatype Submission = Submission(request: Json, loading: PageState, settled: PageState)

  /** handleSubmit, for the outcome the request will have. The two selects
      stay enabled while the request runs, so the selection the request
      settles on (`crypto`, `timeframe`) may differ from the one it sent;
      only the submit button is disabled. */
  function HandleSubmit(st: PageState, crypto: string, timeframe: string, outcome: ClientOutcome): (s: Submission)
    ensures s.request == RequestBody(st.crypto, st.timeframe)
    ensures s.loading == st.(isLoading := true)
    ensures s.settled == Settle(s.loading.(crypto := crypto, timeframe := timeframe), outcome)
    ensures !s.settled.isLoading
    ensures s.settled.crypto == crypto && s.settled.timeframe == timeframe
  {
    var loading := st.(isLoading := true);
    Submission(RequestBody(st.crypto, st.timeframe), loading,
               Settle(loading.(crypto := crypto, timeframe := timeframe), outcome))
  }

  /** After any submission the text shown is either the apology or a text
      that normalisation leaves as it is. */
  lemma {:induction false} SettledTextIsNormal(st: PageState, crypto: string, timeframe: string,
                                                outcome: ClientOutcome)
    ensures var after := HandleSubmit(st, crypto, timeframe, outcome).settled;
            || after.prediction == Apology
            || Normalise(after.prediction) == after.prediction
  {
    if Succeeded(outcome) {
      NormaliseIdempotent(Get(outcome.data, "result").value.v.s);
    }
  }
}
