/**
 * tracker.py: the guard clauses around the market-data provider, the
 * USD to NPR rate lookup over one HTTP response, and the conversion of
 * closing prices that `plot_stock_data` draws. The provider, the HTTP GET
 * and `float()` on a string are parameters, and so is what the drawing
 * calls raise; the chart is described by its title, its line label and the
 * plotted series.
 */
module Tracker {
  import opened Wrappers
  import opened PyJson

  /** A trading day; the frame's index. */
  type Date = int

  /** One row of the provider's frame. */
  datatype Row = Row(date: Date, open: real, high: real, low: real, close: real, volume: int)

  /** A history frame: its rows in index order. */
  type Frame = seq<Row>

  /**
   * The exceptions that leave these functions. `Foreign` is one raised by
   * library code (the provider, matplotlib) that no `try` here catches, so
   * it reaches the caller unchanged; it is identified by its text.
   */
  datatype Error = ValueError(message: string) | RuntimeError(message: string) | Foreign(message: string)

  /** What `yf.Ticker(symbol).history(period=period)` does: raise, or return a frame or `None`. */
  datatype ProviderAnswer = Raised(exception: string) | Returned(frame: Option<Frame>)

  const DefaultPeriod := "1mo"
  const DefaultTimeout: real := 5.0
  const RateUrl := "https://api.exchangerate.host/convert?from=USD&to=NPR"

  /** The one error every failure of the rate lookup is turned into. */
  const RateFailure := RuntimeError("Failed to fetch exchange rate")

  /** `data is None or data.empty`. */
  predicate NoRows(data: Option<Frame>)
  {
    data.None? || data.value == []
  }

  /**
   * `fetch_stock_data(symbol, period)`. `history` is the market-data
   * provider, asked for `(symbol, period)`, whose exceptions are not
   * caught; `csvWriteFails` says whether writing `stock_data.csv` raised,
   * which the function swallows.
   */
  function FetchStockData(symbol: string, period: string, history: (string, string) -> ProviderAnswer,
                          csvWriteFails: bool): (r: Result<Frame, Error>)
    ensures symbol == [] ==> r == Failure(ValueError("Empty symbol provided"))
    ensures symbol != [] && history(symbol, period).Raised? ==>
              r == Failure(Foreign(history(symbol, period).exception))
    ensures symbol != [] && history(symbol, period).Returned? && NoRows(history(symbol, period).frame) ==>
              r == Failure(ValueError("No data returned for symbol: " + symbol))
    ensures r.Success? <==> symbol != [] && history(symbol, period).Returned? && !NoRows(history(symbol, period).frame)
    ensures r.Success? ==> history(symbol, period) == Returned(Some(r.value)) && r.value != []
  {
    if symbol == [] then Failure(ValueError("Empty symbol provided"))
    else
      match history(symbol, period)
      case Raised(e) => Failure(Foreign(e))
      case Returned(data) =>
        if NoRows(data) then Failure(ValueError("No data returned for symbol: " + symbol))
        else Success(data.value)
  }

  /**
   * The three ways the fetch fails, exhaustively: an empty symbol, the
   * provider's own exception passed through, or no rows.
   */
  lemma FetchFailureKinds(symbol: string, period: string, history: (string, string) -> ProviderAnswer,
                          csvWriteFails: bool)
    requires FetchStockData(symbol, period, history, csvWriteFails).Failure?
    ensures var e := FetchStockData(symbol, period, history, csvWriteFails).error;
            e == ValueError("Empty symbol provided")
            || e == ValueError("No data returned for symbol: " + symbol)
            || (history(symbol, period).Raised? && e == Foreign(history(symbol, period).exception))
    ensures var e := FetchStockData(symbol, period, history, csvWriteFails).error;
            e.Foreign? <==> symbol != [] && history(symbol, period).Raised?
  {
  }

  /** An empty symbol fails before the provider is asked: what the provider would answer does not matter. */
  lemma EmptySymbolSkipsProvider(period: string, h1: (string, string) -> ProviderAnswer,
                                 h2: (string, string) -> ProviderAnswer, w1: bool, w2: bool)
    ensures FetchStockData("", period, h1, w1) == FetchStockData("", period, h2, w2)
    ensures FetchStockData("", period, h1, w1).Failure? && FetchStockData("", period, h1, w1).error.ValueError?
  {
  }

  /** The provider is asked only about the requested symbol and period. */
  lemma FetchDependsOnlyOnRequest(symbol: string, period: string, h1: (string, string) -> ProviderAnswer,
                                  h2: (string, string) -> ProviderAnswer, csvWriteFails: bool)
    requires h1(symbol, period) == h2(symbol, period)
    ensures FetchStockData(symbol, period, h1, csvWriteFails) == FetchStockData(symbol, period, h2, csvWriteFails)
  {
  }

  /**
   * A failed CSV write does not change the outcome. `FetchStockData` never
   * reads `csvWriteFails`, so this holds by construction: the parameter
   * records that the `to_csv` failure is swallowed and proves nothing more.
   */
  lemma CsvFailureIsSwallowed(symbol: string, period: string, history: (string, string) -> ProviderAnswer)
    ensures FetchStockData(symbol, period, history, true) == FetchStockData(symbol, period, history, false)
  {
  }

  /** The HTTP exchange for the rate: the request raised, or a status and a body that did or did not decode. */
  datatype HttpResponse = TransportError | Response(status: int, body: Body)
  datatype Body = Undecodable | Decoded(value: Json)

  /** `resp.raise_for_status()` raises for client and server errors only. */
  predicate RaisesForStatus(status: int)
  {
    400 <= status < 600
  }

  /**
   * `data.get("info", {}).get("rate")`: `None` when a `.get` is called on
   * something that is not a dict (Python raises `AttributeError`), and
   * `JNull` for a missing key, as `.get` returns `None`.
   */
  function InfoRate(data: Json): Option<Json>
  {
    match data
    case JObject(fields) =>
      var info := if "info" in fields then fields["info"] else JObject(map[]);
      (match info
       case JObject(inner) => Some(if "rate" in inner then inner["rate"] else JNull)
       case _ => None)
    case _ => None
  }

  /** `float(v)`: booleans are 0 or 1, strings go through `parseFloat`, and anything else raises. */
  function PyFloat(v: Json, parseFloat: string -> Option<real>): Option<real>
  {
    match v
    case JBool(b) => Some(if b then 1.0 else 0.0)
    case JNumber(n) => Some(n)
    case JString(s) => parseFloat(s)
    case _ => None
  }

  /** The body of `get_usd_to_npr_rate` once `requests.get` has produced `resp`. */
  function RateFromResponse(resp: HttpResponse, parseFloat: string -> Option<real>): (r: Result<real, Error>)
    ensures r.Failure? ==> r.error == RateFailure
    ensures r.Success? ==> resp.Response? && !RaisesForStatus(resp.status) && resp.body.Decoded?
    ensures r.Success? ==> exists rate :: InfoRate(resp.body.value) == Some(rate) && Truthy(rate)
                                          && PyFloat(rate, parseFloat) == Some(r.value)
  {
    match resp
    case TransportError => Failure(RateFailure)
    case Response(status, body) =>
      if RaisesForStatus(status) then Failure(RateFailure)
      else
        match body
        case Undecodable => Failure(RateFailure)
        case Decoded(data) =>
          match InfoRate(data)
          case None => Failure(RateFailure)
          case Some(rate) =>
            if !Truthy(rate) then Failure(RateFailure)
            else
              match PyFloat(rate, parseFloat)
              case None => Failure(RateFailure)
              case Some(v) => Success(v)
  }

  /** `get_usd_to_npr_rate(timeout)`: one GET of the fixed endpoint through `httpGet`. */
  function GetUsdToNprRate(httpGet: (string, real) -> HttpResponse, parseFloat: string -> Option<real>,
                           timeout: real): (r: Result<real, Error>)
    ensures r.Failure? ==> r.error == RateFailure
    ensures httpGet(RateUrl, timeout).TransportError? ==> r.Failure?
    ensures r.Success? ==> httpGet(RateUrl, timeout).Response? && !RaisesForStatus(httpGet(RateUrl, timeout).status)
  {
    RateFromResponse(httpGet(RateUrl, timeout), parseFloat)
  }

  /** The lookup returns `v` exactly when the answer for the fixed endpoint passes every step of the body with `v`. */
  lemma GetUsdToNprRateSuccessIff(httpGet: (string, real) -> HttpResponse, parseFloat: string -> Option<real>,
                                  timeout: real, v: real)
    ensures var resp := httpGet(RateUrl, timeout);
            GetUsdToNprRate(httpGet, parseFloat, timeout) == Success(v) <==>
            (resp.Response? && !RaisesForStatus(resp.status) && resp.body.Decoded?
             && exists rate :: InfoRate(resp.body.value) == Some(rate) && Truthy(rate)
                               && PyFloat(rate, parseFloat) == Some(v))
  {
    RateSuccessIff(httpGet(RateUrl, timeout), parseFloat, v);
  }

  /** The rate lookup asks for the fixed endpoint and nothing else. */
  lemma RateDependsOnlyOnEndpoint(g1: (string, real) -> HttpResponse, g2: (string, real) -> HttpResponse,
                                  parseFloat: string -> Option<real>, timeout: real)
    requires g1(RateUrl, timeout) == g2(RateUrl, timeout)
    ensures GetUsdToNprRate(g1, parseFloat, timeout) == GetUsdToNprRate(g2, parseFloat, timeout)
  {
  }

  /** The body `{"info": {"rate": x}}`. */
  function RateBody(x: Json): Json
  {
    JObject(map["info" := JObject(map["rate" := x])])
  }

  /**
   * A numeric rate under any status that `raise_for_status` lets through is
   * returned as it is, negative included; only zero is refused.
   */
  lemma NumericRate(status: int, x: real, parseFloat: string -> Option<real>)
    requires !RaisesForStatus(status)
    ensures RateFromResponse(Response(status, Decoded(RateBody(JNumber(x)))), parseFloat)
            == if x == 0.0 then Failure(RateFailure) else Success(x)
  {
  }

  /** A client or server error status fails whatever the body. */
  lemma ErrorStatusFails(status: int, body: Body, parseFloat: string -> Option<real>)
    requires RaisesForStatus(status)
    ensures RateFromResponse(Response(status, body), parseFloat) == Failure(RateFailure)
  {
  }

  /** A body without `info` is read as `{}` and has no rate. */
  lemma MissingInfoFails(status: int, fields: map<string, Json>, parseFloat: string -> Option<real>)
    requires "info" !in fields
    ensures RateFromResponse(Response(status, Decoded(JObject(fields))), parseFloat) == Failure(RateFailure)
  {
  }

  /** A missing, null, zero or empty rate is refused. */
  lemma FalsyRateFails(status: int, info: map<string, Json>, parseFloat: string -> Option<real>)
    requires "rate" !in info || !Truthy(info["rate"])
    ensures RateFromResponse(Response(status, Decoded(JObject(map["info" := JObject(info)]))), parseFloat)
            == Failure(RateFailure)
  {
  }

  /** A rate given as a string that does not parse as a number fails. */
  lemma UnparsableStringRateFails(status: int, s: string, parseFloat: string -> Option<real>)
    requires parseFloat(s).None?
    ensures RateFromResponse(Response(status, Decoded(RateBody(JString(s)))), parseFloat) == Failure(RateFailure)
  {
  }

  /** A rate given as a string that parses is the parsed number, as `float("132.5")` is 132.5. */
  lemma StringRate(status: int, s: string, v: real, parseFloat: string -> Option<real>)
    requires !RaisesForStatus(status) && s != [] && parseFloat(s) == Some(v)
    ensures RateFromResponse(Response(status, Decoded(RateBody(JString(s)))), parseFloat) == Success(v)
  {
  }

  /** `float(True)` is 1.0: a JSON `true` rate is accepted as 1. */
  lemma TrueRate(status: int, parseFloat: string -> Option<real>)
    requires !RaisesForStatus(status)
    ensures RateFromResponse(Response(status, Decoded(RateBody(JBool(true)))), parseFloat) == Success(1.0)
  {
  }

  /** A body that is not a dict, or whose `info` is not a dict, fails. */
  lemma NonObjectFails(status: int, data: Json, parseFloat: string -> Option<real>)
    requires !data.JObject? || ("info" in data.fields && !data.fields["info"].JObject?)
    ensures RateFromResponse(Response(status, Decoded(data)), parseFloat) == Failure(RateFailure)
  {
  }

  /** The success condition in full: the lookup yields `v` exactly when all the checks pass and the rate converts to `v`. */
  lemma RateSuccessIff(resp: HttpResponse, parseFloat: string -> Option<real>, v: real)
    ensures RateFromResponse(resp, parseFloat) == Success(v) <==>
            (resp.Response? && !RaisesForStatus(resp.status) && resp.body.Decoded?
             && exists rate :: InfoRate(resp.body.value) == Some(rate) && Truthy(rate)
                               && PyFloat(rate, parseFloat) == Some(v))
  {
    if resp.Response? && !RaisesForStatus(resp.status) && resp.body.Decoded? {
      match InfoRate(resp.body.value)
      case None =>
      case Some(rate) =>
    }
  }

  /** One point of the plotted series: a date of the frame and its close in NPR. */
  datatype Point = Point(date: Date, value: real)

  /** What `plot_stock_data` draws: the title, the line's label and the series. */
  datatype Chart = Chart(title: string, lineLabel: string, series: seq<Point>)

  /** The successful outcome: the rate used (the value returned) and the chart drawn. */
  datatype Plotted = Plotted(rate: real, chart: Chart)

  /**
   * What the drawing calls do: the exception building the figure raises
   * (`plt.subplots` to `ax.grid`), the one `fig.savefig` raises, whether the
   * non-blocking show fails (that one is caught), and the exception the
   * blocking `plt.show()` fallback raises.
   */
  datatype Display = Display(figureRaises: Option<string>, saveRaises: Option<string>,
                             nonBlockingShowFails: bool, blockingShowRaises: Option<string>)

  /** `if save_path:` — a path is given and is not the empty string. */
  predicate Saving(savePath: Option<string>)
  {
    savePath.Some? && savePath.value != []
  }

  /** The exception that escapes the drawing part of `plot_stock_data`, if any. */
  function DrawRaises(display: Display, savePath: Option<string>): Option<string>
  {
    if display.figureRaises.Some? then display.figureRaises
    else if Saving(savePath) && display.saveRaises.Some? then display.saveRaises
    else if display.nonBlockingShowFails then display.blockingShowRaises
    else None
  }

  /**
   * Drawing goes through exactly when building the figure does not raise,
   * saving does not raise when a path is given, and the blocking show does
   * not raise when the non-blocking one fails.
   */
  lemma DrawSucceedsIff(display: Display, savePath: Option<string>)
    ensures DrawRaises(display, savePath).None? <==>
            display.figureRaises.None?
            && (Saving(savePath) ==> display.saveRaises.None?)
            && (display.nonBlockingShowFails ==> display.blockingShowRaises.None?)
  {
  }

  /** `data["Close"] * rate`, keeping the index. */
  function ConvertCloses(data: Frame, rate: real): (s: seq<Point>)
    ensures |s| == |data|
    ensures forall i :: 0 <= i < |data| ==> s[i].date == data[i].date && s[i].value == data[i].close * rate
  {
    if data == [] then []
    else [Point(data[0].date, data[0].close * rate)] + ConvertCloses(data[1..], rate)
  }

  /**
   * `plot_stock_data(data, symbol, save_path)`: the chart it would draw, and
   * `display` for what the drawing calls raise.
   */
  function PlotStockData(data: Option<Frame>, symbol: string, savePath: Option<string>,
                         httpGet: (string, real) -> HttpResponse, parseFloat: string -> Option<real>,
                         display: Display): (r: Result<Plotted, Error>)
    ensures NoRows(data) ==> r == Failure(ValueError("No data to plot"))
    ensures !NoRows(data) && GetUsdToNprRate(httpGet, parseFloat, DefaultTimeout).Failure? ==>
              r == Failure(RateFailure)
    ensures (!NoRows(data) && GetUsdToNprRate(httpGet, parseFloat, DefaultTimeout).Success?
             && DrawRaises(display, savePath).Some?) ==> r == Failure(Foreign(DrawRaises(display, savePath).value))
    ensures r.Success? <==> !NoRows(data) && GetUsdToNprRate(httpGet, parseFloat, DefaultTimeout).Success?
                            && DrawRaises(display, savePath).None?
    ensures r.Success? ==> Success(r.value.rate) == GetUsdToNprRate(httpGet, parseFloat, DefaultTimeout)
    ensures r.Success? ==> r.value.chart.title == symbol + " Stock Price Trend — Prices in NPR"
                           && r.value.chart.lineLabel == symbol + " Closing Prices (NPR)"
    ensures r.Success? ==> |r.value.chart.series| == |data.value|
    ensures r.Success? ==> forall i :: 0 <= i < |data.value| ==>
              r.value.chart.series[i] == Point(data.value[i].date, data.value[i].close * r.value.rate)
  {
    if NoRows(data) then Failure(ValueError("No data to plot"))
    else
      match GetUsdToNprRate(httpGet, parseFloat, DefaultTimeout)
      case Failure(e) => Failure(e)
      case Success(rate) =>
        match DrawRaises(display, savePath)
        case Some(e) => Failure(Foreign(e))
        case None =>
          Success(Plotted(rate, Chart(symbol + " Stock Price Trend — Prices in NPR",
                                      symbol + " Closing Prices (NPR)",
                                      ConvertCloses(data.value, rate))))
  }

  /** Empty data fails before the rate is requested: the HTTP answer, `float()` and the drawing calls do not matter. */
  lemma EmptyDataSkipsRate(data: Option<Frame>, symbol: string, savePath: Option<string>,
                           g1: (string, real) -> HttpResponse, g2: (string, real) -> HttpResponse,
                           p1: string -> Option<real>, p2: string -> Option<real>, d1: Display, d2: Display)
    requires NoRows(data)
    ensures PlotStockData(data, symbol, savePath, g1, p1, d1)
            == PlotStockData(data, symbol, savePath, g2, p2, d2)
  {
  }

  /** A failed rate lookup stops before anything is drawn: what drawing would raise does not matter. */
  lemma RateFailureSkipsDrawing(data: Option<Frame>, symbol: string, savePath: Option<string>,
                                httpGet: (string, real) -> HttpResponse, parseFloat: string -> Option<real>,
                                d1: Display, d2: Display)
    requires GetUsdToNprRate(httpGet, parseFloat, DefaultTimeout).Failure?
    ensures PlotStockData(data, symbol, savePath, httpGet, parseFloat, d1)
            == PlotStockData(data, symbol, savePath, httpGet, parseFloat, d2)
  {
  }

  /** Without a save path `savefig` is never called: what it would raise does not matter. */
  lemma NoSavePathSkipsSave(data: Option<Frame>, symbol: string, savePath: Option<string>,
                            httpGet: (string, real) -> HttpResponse, parseFloat: string -> Option<real>,
                            display: Display, saveRaises: Option<string>)
    requires !Saving(savePath)
    ensures PlotStockData(data, symbol, savePath, httpGet, parseFloat, display)
            == PlotStockData(data, symbol, savePath, httpGet, parseFloat, display.(saveRaises := saveRaises))
  {
  }

  /** When the non-blocking show works the blocking fallback is never reached. */
  lemma NonBlockingShowSkipsFallback(data: Option<Frame>, symbol: string, savePath: Option<string>,
                                     httpGet: (string, real) -> HttpResponse, parseFloat: string -> Option<real>,
                                     display: Display, blockingShowRaises: Option<string>)
    requires !display.nonBlockingShowFails
    ensures PlotStockData(data, symbol, savePath, httpGet, parseFloat, display)
            == PlotStockData(data, symbol, savePath, httpGet, parseFloat,
                             display.(blockingShowRaises := blockingShowRaises))
  {
  }

  /** Closes of 100, 101 and 99 USD at 130 NPR per USD are drawn as 13000, 13130 and 12870 NPR on the same dates. */
  lemma ConversionExample(d0: Date, d1: Date, d2: Date, a: Row, b: Row, c: Row)
    requires a.date == d0 && a.close == 100.0
    requires b.date == d1 && b.close == 101.0
    requires c.date == d2 && c.close == 99.0
    ensures ConvertCloses([a, b, c], 130.0) == [Point(d0, 13000.0), Point(d1, 13130.0), Point(d2, 12870.0)]
  {
  }

  /**
   * Data that `fetch_stock_data` returned is never refused by
   * `plot_stock_data`: only the rate lookup or a drawing call can fail.
   */
  lemma FetchedDataPlots(symbol: string, period: string, history: (string, string) -> ProviderAnswer,
                         csvWriteFails: bool, savePath: Option<string>, httpGet: (string, real) -> HttpResponse,
                         parseFloat: string -> Option<real>, display: Display)
    requires FetchStockData(symbol, period, history, csvWriteFails).Success?
    ensures var r := PlotStockData(Some(FetchStockData(symbol, period, history, csvWriteFails).value), symbol,
                                   savePath, httpGet, parseFloat, display);
            r.Failure? ==> r.error == RateFailure
                           || (DrawRaises(display, savePath).Some? && r.error == Foreign(DrawRaises(display, savePath).value))
  {
  }
}
