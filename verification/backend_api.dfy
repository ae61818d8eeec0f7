/** The `/predict` handler of the backend: it extracts a predicted price
    range from the model's free text and wraps the prediction triple in the
    success response. */
module BackendApi {
  import opened Wrappers
  import opened Json
  import opened Text
  import opened Decimal
  import opened CryptoPredictor

  /** The phrase that marks the line holding the predicted range. */
  const Marker: string := "Price Prediction"

  datatype PredictedRange = PredictedRange(min: real, max: real, date: Option<real>)

  // ---------------------------------------------------------------------
  // From a line to its numbers

  /** A price token with its currency sign and thousands separators removed:
      `s.replace('$', '').replace(',', '')`. */
  function Clean(token: string): (r: string)
    ensures '$' !in r && ',' !in r
    ensures forall c :: c != '$' && c != ',' ==> multiset(r)[c] == multiset(token)[c]
    ensures '$' !in token && ',' !in token ==> r == token
  {
    var r := Without(Without(token, '$'), ',');
    assert multiset(r)['$'] == 0 && multiset(r)[','] == 0;
    r
  }

  /** Cleaning works piece by piece, so the characters kept stay in order:
      "$45,000" cleans to "45000". */
  lemma CleanAppend(a: string, b: string)
    ensures Clean(a + b) == Clean(a) + Clean(b)
  {
    WithoutAppend(a, b, '$');
    WithoutAppend(Without(a, '$'), Without(b, '$'), ',');
  }

  /** The words containing '$', in order, each cleaned. */
  function PriceTokens(words: seq<string>): (ts: seq<string>)
    ensures |ts| <= |words|
    ensures |ts| == 0 <==> forall k :: 0 <= k < |words| ==> '$' !in words[k]
    ensures forall k :: 0 <= k < |ts| ==> '$' !in ts[k] && ',' !in ts[k]
    decreases |words|
  {
    if |words| == 0 then []
    else if '$' in words[0] then [Clean(words[0])] + PriceTokens(words[1..])
    else PriceTokens(words[1..])
  }

  /** Selecting price tokens commutes with concatenation: the tokens keep
      the order of the words they come from. */
  lemma {:induction false} PriceTokensAppend(a: seq<string>, b: seq<string>)
    ensures PriceTokens(a + b) == PriceTokens(a) + PriceTokens(b)
    decreases |a|
  {
    if |a| == 0 {
      assert a + b == b;
    } else {
      assert (a + b)[0] == a[0];
      assert (a + b)[1..] == a[1..] + b;
      PriceTokensAppend(a[1..], b);
    }
  }

  /** A single word gives its cleaned self when it contains '$', and no
      token otherwise; with PriceTokensAppend this fixes the tokens of every
      word list. */
  lemma PriceTokensOfWord(w: string)
    ensures PriceTokens([w]) == if '$' in w then [Clean(w)] else []
  {
    assert [w][1..] == [];
  }

  /** Every token parsed, or nothing: one unparsable token fails the lot,
      as one raising `float()` aborts the list comprehension. */
  function ParseAll(ts: seq<string>): (r: Option<seq<real>>)
    ensures r.Some? <==> forall k :: 0 <= k < |ts| ==> ParseNumber(ts[k]).Some?
    ensures r.Some? ==> |r.value| == |ts|
    ensures r.Some? ==> forall k :: 0 <= k < |ts| ==> ParseNumber(ts[k]) == Some(r.value[k])
    decreases |ts|
  {
    if |ts| == 0 then Some([])
    else
      match ParseNumber(ts[0])
      case None => None
      case Some(x) =>
        match ParseAll(ts[1..])
        case None => None
        case Some(xs) => Some([x] + xs)
  }

  /** Python's `min` on a non-empty list of numbers. */
  function Least(xs: seq<real>): (m: real)
    requires |xs| >= 1
    ensures m in xs
    ensures forall k :: 0 <= k < |xs| ==> m <= xs[k]
    decreases |xs|
  {
    if |xs| == 1 then xs[0]
    else
      var rest := Least(xs[1..]);
      if xs[0] <= rest then xs[0] else rest
  }

  /** Python's `max` on a non-empty list of numbers. */
  function Greatest(xs: seq<real>): (m: real)
    requires |xs| >= 1
    ensures m in xs
    ensures forall k :: 0 <= k < |xs| ==> xs[k] <= m
    decreases |xs|
  {
    if |xs| == 1 then xs[0]
    else
      var rest := Greatest(xs[1..]);
      if xs[0] >= rest then xs[0] else rest
  }

  /** Every token reads as a number. */
  predicate AllParse(ts: seq<string>) {
    forall k :: 0 <= k < |ts| ==> ParseNumber(ts[k]).Some?
  }

  /** The numbers of a line: its whitespace-separated words that contain
      '$', cleaned and parsed; None when one of them does not parse. */
  function LineNumbers(line: string): (r: Option<seq<real>>)
    ensures r.Some? <==> AllParse(PriceTokens(Words(line)))
    ensures r.Some? ==> |r.value| == |PriceTokens(Words(line))|
    ensures r.Some? ==> forall k :: 0 <= k < |PriceTokens(Words(line))| ==> ParseNumber(PriceTokens(Words(line))[k]) == Some(r.value[k])
  {
    ParseAll(PriceTokens(Words(line)))
  }

  /** The range a marker line yields: the least and greatest of its numbers,
      provided it has at least two and all of them parse. */
  function RangeOfLine(line: string, date: Option<real>): (r: Option<PredictedRange>)
    ensures r.Some? <==> LineNumbers(line).Some? && |LineNumbers(line).value| >= 2
    ensures r.Some? ==> r.value.date == date && r.value.min <= r.value.max
    ensures r.Some? ==> r.value.min in LineNumbers(line).value && r.value.max in LineNumbers(line).value
    ensures r.Some? ==> forall x :: x in LineNumbers(line).value ==> r.value.min <= x <= r.value.max
  {
    match LineNumbers(line)
    case None => None
    case Some(nums) =>
      if |nums| >= 2 then Some(PredictedRange(Least(nums), Greatest(nums), date)) else None
  }

  /** The range line the prompt asks the model to write:
      `Price Prediction: $X to $Y`. */
  function PromptLine(x: string, y: string): string {
    "Price Prediction: $" + x + " to $" + y
  }

  /** A '$' followed by digits is one word. */
  lemma DollarDigitsIsWord(x: string)
    requires AllDigits(x)
    ensures IsWord("$" + x)
  {
    forall k | 0 <= k < |"$" + x|
      ensures !IsPySpace(("$" + x)[k])
    {
      if k > 0 {
        assert ("$" + x)[k] == x[k - 1];
      }
    }
  }

  /** A prompt-format line is its five words joined by single spaces. */
  lemma PromptLineJoin(x: string, y: string)
    ensures Join(["Price", "Prediction:", "$" + x, "to", "$" + y], ' ') == PromptLine(x, y)
  {
    var ws := ["Price", "Prediction:", "$" + x, "to", "$" + y];
    var j3 := "to" + " " + "$" + y;
    JoinCons("to", ws[4..], ' ');
    assert Join(ws[3..], ' ') == j3 by {
      assert ws[3..] == ["to"] + ws[4..];
    }
    var j2 := "$" + x + " " + j3;
    JoinCons("$" + x, ws[3..], ' ');
    assert Join(ws[2..], ' ') == j2 by {
      assert ws[2..] == ["$" + x] + ws[3..];
    }
    var j1 := "Prediction:" + " " + j2;
    JoinCons("Prediction:", ws[2..], ' ');
    assert Join(ws[1..], ' ') == j1 by {
      assert ws[1..] == ["Prediction:"] + ws[2..];
    }
    JoinCons("Price", ws[1..], ' ');
    assert ws == ["Price"] + ws[1..];
    PromptLiterals();
    calc {
      "Price" + " " + j1;
      ("Price" + " " + "Prediction:" + " " + "$") + x + (" " + "to" + " " + "$") + y;
      "Price Prediction: $" + x + " to $" + y;
    }
  }

  /** The fixed text of the prompt format, spelled word by word. */
  lemma PromptLiterals()
    ensures "Price" + " " + "Prediction:" + " " + "$" == "Price Prediction: $"
    ensures " " + "to" + " " + "$" == " to $"
  {
  }

  /** The fixed words of the prompt format are words. */
  lemma PromptWordsAreWords()
    ensures IsWord("Price") && IsWord("Prediction:") && IsWord("to")
  {
  }

  /** The words of a prompt-format line with digit prices. */
  lemma PromptLineWords(x: string, y: string)
    requires AllDigits(x) && AllDigits(y)
    ensures Words(PromptLine(x, y)) == ["Price", "Prediction:", "$" + x, "to", "$" + y]
  {
    var ws := ["Price", "Prediction:", "$" + x, "to", "$" + y];
    DollarDigitsIsWord(x);
    DollarDigitsIsWord(y);
    PromptWordsAreWords();
    PromptLineJoin(x, y);
    WordsOfJoin(ws);
  }

  /** A '$' followed by digits cleans to the digits. */
  lemma CleanDollarDigits(x: string)
    requires AllDigits(x)
    ensures Clean("$" + x) == x
  {
    CleanAppend("$", x);
    assert '$' !in x && ',' !in x by {
      assert forall k :: 0 <= k < |x| ==> IsDigit(x[k]);
    }
  }

  /** The tokens of a word followed by more words. */
  lemma PriceTokensCons(w: string, rest: seq<string>)
    ensures PriceTokens([w] + rest) == (if '$' in w then [Clean(w)] else []) + PriceTokens(rest)
  {
    PriceTokensAppend([w], rest);
    PriceTokensOfWord(w);
  }

  /** The fixed words of the prompt format carry no '$'. */
  lemma PromptWordsPlain()
    ensures '$' !in "Price" && '$' !in "Prediction:" && '$' !in "to"
  {
  }

  /** Two elements put in front of a three-element list. */
  lemma ConsTwo<T>(a: T, b: T, c: T, d: T, e: T)
    ensures [a] + ([b] + [c, d, e]) == [a, b, c, d, e]
  {
    assert ([a] + ([b] + [c, d, e]))[4] == e;
  }

  /** A word without '$' adds no token. */
  lemma PlainWordTokens(w: string, rest: seq<string>)
    requires '$' !in w
    ensures PriceTokens([w] + rest) == PriceTokens(rest)
  {
    PriceTokensCons(w, rest);
    assert [] + PriceTokens(rest) == PriceTokens(rest);
  }

  /** A '$' followed by digits is one token, the digits. */
  lemma DollarTokens(x: string)
    requires AllDigits(x)
    ensures '$' in "$" + x && Clean("$" + x) == x
    ensures PriceTokens(["$" + x]) == [x]
  {
    assert ("$" + x)[0] == '$';
    CleanDollarDigits(x);
    PriceTokensOfWord("$" + x);
  }

  /** The price tokens of the last three words of a prompt-format line. */
  lemma PromptTailTokens(x: string, y: string)
    requires AllDigits(x) && AllDigits(y)
    ensures PriceTokens(["$" + x, "to", "$" + y]) == [x, y]
  {
    var w4: seq<string> := ["$" + y];
    DollarTokens(y);
    assert PriceTokens(w4) == [y];
    var w3 := ["to"] + w4;
    PromptWordsPlain();
    PriceTokensCons("to", w4);
    assert PriceTokens(w3) == [y];
    DollarTokens(x);
    PriceTokensCons("$" + x, w3);
    assert PriceTokens(["$" + x] + w3) == [x, y];
    assert ["$" + x] + w3 == ["$" + x, "to", "$" + y];
  }

  /** The price tokens of the words of a prompt-format line. */
  lemma PromptWordsTokens(x: string, y: string)
    requires AllDigits(x) && AllDigits(y)
    ensures PriceTokens(["Price", "Prediction:", "$" + x, "to", "$" + y]) == [x, y]
  {
    PromptWordsPlain();
    var w2 := ["$" + x, "to", "$" + y];
    PromptTailTokens(x, y);
    var w1 := ["Prediction:"] + w2;
    PlainWordTokens("Prediction:", w2);
    PlainWordTokens("Price", w1);
    ConsTwo("Price", "Prediction:", "$" + x, "to", "$" + y);
  }

  /** The price tokens of a prompt-format line with digit prices. */
  lemma PromptLineTokens(x: string, y: string)
    requires AllDigits(x) && AllDigits(y)
    ensures PriceTokens(Words(PromptLine(x, y))) == [x, y]
  {
    PromptLineWords(x, y);
    PromptWordsTokens(x, y);
  }

  /** The range of two parsed prices. */
  lemma RangeOfTwo(line: string, a: real, b: real, date: Option<real>)
    requires LineNumbers(line) == Some([a, b])
    ensures RangeOfLine(line, date)
            == Some(PredictedRange(if a <= b then a else b, if a <= b then b else a, date))
  {
    assert [a, b][1..] == [b];
  }

  /** Two tokens that parse. */
  lemma ParseAllTwo(t: string, u: string, a: real, b: real)
    requires ParseNumber(t) == Some(a) && ParseNumber(u) == Some(b)
    ensures ParseAll([t, u]) == Some([a, b])
  {
    assert [t, u][1..] == [u];
    assert [u][1..] == [];
    assert ParseAll([]) == Some([]);
    assert [b] + [] == [b];
    assert ParseAll([u]) == Some([b]);
    assert [a] + [b] == [a, b];
  }

  /** The numbers of a prompt-format line with digit prices. */
  lemma PromptLineNumbers(x: string, y: string)
    requires AllDigits(x) && AllDigits(y) && |x| >= 1 && |y| >= 1
    ensures LineNumbers(PromptLine(x, y)) == Some([DigitsValue(x) as real, DigitsValue(y) as real])
  {
    PromptLineTokens(x, y);
    ParseWhole(x);
    ParseWhole(y);
    ParseAllTwo(x, y, DigitsValue(x) as real, DigitsValue(y) as real);
  }

  /** A line in the format the prompt asks for, with whole-dollar prices
      written without separators, yields the range from the lesser to the
      greater of the two prices, in either order. */
  lemma PromptLineRange(a: nat, b: nat, date: Option<real>)
    ensures RangeOfLine(PromptLine(Render(a), Render(b)), date)
            == Some(PredictedRange(if a <= b then a as real else b as real,
                                   if a <= b then b as real else a as real, date))
  {
    DigitsValueOfRender(a);
    DigitsValueOfRender(b);
    PromptLineNumbers(Render(a), Render(b));
    RangeOfTwo(PromptLine(Render(a), Render(b)), a as real, b as real, date);
  }

  // ---------------------------------------------------------------------
  // From the text to the marker line

  /** `lines[k]` is the first line containing the marker. */
  predicate IsFirstMarkerLine(lines: seq<string>, k: int) {
    && 0 <= k < |lines|
    && Contains(lines[k], Marker)
    && forall j :: 0 <= j < k ==> !Contains(lines[j], Marker)
  }

  /** There is only one first marker line. */
  lemma FirstMarkerLineUnique(lines: seq<string>, a: int, b: int)
    requires IsFirstMarkerLine(lines, a) && IsFirstMarkerLine(lines, b)
    ensures a == b
  {
  }

  /** `[line for line in lines if "Price Prediction" in line]`. */
  function MarkerLines(lines: seq<string>): (ms: seq<string>)
    ensures |ms| > 0 <==> exists k :: 0 <= k < |lines| && Contains(lines[k], Marker)
    ensures |ms| > 0 ==> exists k :: IsFirstMarkerLine(lines, k) && ms[0] == lines[k]
    decreases |lines|
  {
    if |lines| == 0 then []
    else
      var rest := MarkerLines(lines[1..]);
      if Contains(lines[0], Marker) then
        assert IsFirstMarkerLine(lines, 0);
        [lines[0]] + rest
      else
        if |rest| > 0 then
          var k :| IsFirstMarkerLine(lines[1..], k) && rest[0] == lines[1..][k];
          assert IsFirstMarkerLine(lines, k + 1);
          rest
        else
          rest
  }

  /** The predicted range of the model's text, as get_prediction computes
      it: nothing unless the text mentions the marker; otherwise the range of
      the first line that does. The `[0]` of the source cannot fail, since
      splitting on newlines never cuts the marker in two; if it did, the
      handler would catch the error and leave the range empty. */
  function ExtractRange(result: string, date: Option<real>): (r: Option<PredictedRange>)
    ensures !Contains(result, Marker) ==> r.None?
    ensures Contains(result, Marker) ==>
              exists k :: IsFirstMarkerLine(Split(result, '\n'), k) && r == RangeOfLine(Split(result, '\n')[k], date)
    ensures r.Some? ==> r.value.date == date && r.value.min <= r.value.max
  {
    if !Contains(result, Marker) then None
    else
      var matching := MarkerLines(Split(result, '\n'));
      SplitKeepsOccurrence(result, '\n', Marker);
      if |matching| == 0 then None
      else RangeOfLine(matching[0], date)
  }

  /** Only the first marker line counts: whatever follows it, even further
      marker lines, leaves the range unchanged. */
  lemma {:induction false} LaterLinesIgnored(first: string, rest: string, date: Option<real>)
    requires '\n' !in first
    requires Contains(first, Marker)
    ensures ExtractRange(first + "\n" + rest, date) == RangeOfLine(first, date)
  {
    var text := first + "\n" + rest;
    SplitAfterFirstPart(first, '\n', rest);
    var lines := Split(text, '\n');
    assert lines[0] == first;
    var i :| 0 <= i <= |first| - |Marker| && OccursAt(first, Marker, i);
    assert text[i..i + |Marker|] == first[i..i + |Marker|];
    assert OccursAt(text, Marker, i);
    assert IsFirstMarkerLine(lines, 0);
    var k :| IsFirstMarkerLine(lines, k) && ExtractRange(text, date) == RangeOfLine(lines[k], date);
    FirstMarkerLineUnique(lines, k, 0);
  }

  /** A line whose price tokens include one that does not parse gives no
      range at all, whatever the other tokens say. */
  lemma UnparsableTokenVoidsRange(line: string, date: Option<real>, k: nat)
    requires k < |PriceTokens(Words(line))|
    requires ParseNumber(PriceTokens(Words(line))[k]).None?
    ensures RangeOfLine(line, date).None?
  {
  }

  // ---------------------------------------------------------------------
  // The response

  /** The body get_prediction returns. */
  datatype Response = Response(success: bool, result: string,
                               marketData: Option<map<string, Json>>,
                               predictedRange: Option<PredictedRange>)

  /** get_prediction once predict_crypto has produced its triple. */
  function GetPrediction(p: Prediction): (resp: Response)
    ensures resp.success
    ensures resp.result == p.result && resp.marketData == p.marketData
    ensures resp.predictedRange == ExtractRange(p.result, p.date)
  {
    Response(true, p.result, p.marketData, ExtractRange(p.result, p.date))
  }

  /** The whole `/predict` handler: predict_crypto followed by
      get_prediction. A failure to obtain market data, or an empty market-data
      object, yields a response with the fetch error as its text and neither
      market data nor range. */
  function Predict(crypto: string, timeframe: string, fetched: Option<map<string, Json>>,
                   nowMs: real, llm: (string, string, map<string, Json>) -> LlmOutcome): (resp: Response)
    ensures resp.success
    ensures GetCryptoData(fetched).None? || |GetCryptoData(fetched).value| == 0 ==>
              resp == Response(true, FetchError, None, None)
    ensures GetCryptoData(fetched).Some? && |GetCryptoData(fetched).value| > 0
            && llm(crypto, timeframe, GetCryptoData(fetched).value).Answered? ==>
              var text := llm(crypto, timeframe, GetCryptoData(fetched).value).text;
              resp == Response(true, text, GetCryptoData(fetched),
                               ExtractRange(text, Some(PredictionDate(timeframe, nowMs))))
    ensures GetCryptoData(fetched).Some? && |GetCryptoData(fetched).value| > 0
            && llm(crypto, timeframe, GetCryptoData(fetched).value).Raised? ==>
              && resp.marketData.None?
              && resp.result == "Error: " + llm(crypto, timeframe, GetCryptoData(fetched).value).message
              && resp.predictedRange == ExtractRange(resp.result, None)
    ensures resp.predictedRange.Some? && resp.marketData.Some? ==>
              resp.predictedRange.value.date == Some(PredictionDate(timeframe, nowMs))
  {
    var p := PredictCrypto(crypto, timeframe, fetched, nowMs, llm);
    FetchErrorHasNoMarker();
    GetPrediction(p)
  }

  /** The fetch error text has no capital P, the marker's first letter. */
  lemma FetchErrorLacksP()
    ensures 'P' !in FetchError
  {
    var a, b, c, d, e, f := "Error: ", "Unable to ", "fetch ", "market data ", "from ", "CoinGecko";
    assert 'P' !in a && 'P' !in b && 'P' !in c;
    assert 'P' !in d && 'P' !in e && 'P' !in f;
    assert FetchError == a + b + c + d + e + f;
  }

  /** The fetch error text does not mention the marker. */
  lemma FetchErrorHasNoMarker()
    ensures !Contains(FetchError, Marker)
  {
    FetchErrorLacksP();
    forall i | 0 <= i <= |FetchError| - |Marker|
      ensures !OccursAt(FetchError, Marker, i)
    {
      assert Marker[0] == 'P';
      assert FetchError[i..i + |Marker|][0] == FetchError[i];
    }
  }

  // ---------------------------------------------------------------------
  // JSON encoding by the web framework

  /** The range dict as JSON: `min`, `max` and `date`, the date null when
      absent. */
  function RangeJson(r: PredictedRange): (j: Json)
    ensures j.JObj? && j.fields.Keys == {"min", "max", "date"}
    ensures j.fields["min"] == JNum(r.min) && j.fields["max"] == JNum(r.max)
    ensures j.fields["date"] == (if r.date.Some? then JNum(r.date.value) else JNull)
  {
    JObj(map["min" := JNum(r.min), "max" := JNum(r.max),
             "date" := match r.date case Some(d) => JNum(d) case None => JNull])
  }

  /** The response as JSON: Python's None becomes null. */
  function ResponseJson(resp: Response): (j: Json)
    ensures j.JObj? && j.fields.Keys == {"success", "result", "market_data", "predicted_range"}
    ensures j.fields["success"] == JBool(resp.success) && j.fields["result"] == JStr(resp.result)
    ensures j.fields["market_data"] == (if resp.marketData.Some? then JObj(resp.marketData.value) else JNull)
    ensures j.fields["predicted_range"] == (if resp.predictedRange.Some? then RangeJson(resp.predictedRange.value) else JNull)
  {
    JObj(map["success" := JBool(resp.success),
             "result" := JStr(resp.result),
             "market_data" := match resp.marketData case Some(m) => JObj(m) case None => JNull,
             "predicted_range" := match resp.predictedRange case Some(r) => RangeJson(r) case None => JNull])
  }
}
