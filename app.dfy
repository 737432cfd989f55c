/**
 * One click on "Fetch & Plot" in main.py, with the worker thread and the
 * hand-back to the UI thread flattened into a sequence: validate the entry,
 * fetch the history for the normalised symbol, then plot it.
 */
module App {
  import opened Wrappers
  import opened Entry
  import opened Tracker

  /** What the user ends up seeing. */
  datatype Outcome =
    | EntryRefused(message: string)
    | FetchFailed(fetchError: Error)
    | PlotFailed(plotError: Error)
    | Shown(records: nat, plotted: Plotted)

  /**
   * `on_fetch_clicked`, then `_fetch_thread`, then `_on_fetch_success` or
   * `_on_fetch_error`. Every exception of the fetch and of the plot is caught
   * there; `plot_stock_data` is called without a save path.
   */
  function HandleClick(raw: string, history: (string, string) -> ProviderAnswer, csvWriteFails: bool,
                       httpGet: (string, real) -> HttpResponse, parseFloat: string -> Option<real>,
                       display: Display): (o: Outcome)
    ensures o.EntryRefused? <==> AllSpace(raw)
    ensures o.EntryRefused? ==> o.message == EmptyEntryMessage
    ensures var h := history(Normalize(raw), DefaultPeriod);
            o.FetchFailed? <==> !AllSpace(raw) && (h.Raised? || NoRows(h.frame))
    ensures var h := history(Normalize(raw), DefaultPeriod);
            o.Shown? <==> !AllSpace(raw) && h.Returned? && !NoRows(h.frame)
                          && GetUsdToNprRate(httpGet, parseFloat, DefaultTimeout).Success?
                          && DrawRaises(display, None).None?
    ensures o.FetchFailed? ==>
              match history(Normalize(raw), DefaultPeriod)
              case Raised(e) => o.fetchError == Foreign(e)
              case Returned(frame) => NoRows(frame) && o.fetchError == ValueError("No data returned for symbol: " + Normalize(raw))
    ensures o.PlotFailed? ==>
              o.plotError == RateFailure
              || (DrawRaises(display, None).Some? && o.plotError == Foreign(DrawRaises(display, None).value))
    ensures o.Shown? ==> o.records > 0 && |o.plotted.chart.series| == o.records
    ensures var h := history(Normalize(raw), DefaultPeriod);
            (o.PlotFailed? || o.Shown?) ==>
              h.Returned? && h.frame.Some?
              && PlotStockData(h.frame, Normalize(raw), None, httpGet, parseFloat, display)
                 == (if o.Shown? then Success(o.plotted) else Failure(o.plotError))
    ensures o.Shown? ==> var h := history(Normalize(raw), DefaultPeriod);
                         h.Returned? && h.frame.Some? && |h.frame.value| == o.records
    ensures o.Shown? ==> GetUsdToNprRate(httpGet, parseFloat, DefaultTimeout) == Success(o.plotted.rate)
                         && DrawRaises(display, None).None?
  {
    StripEmptyIff(raw);
    match OnFetchClicked(raw)
    case ShowError(message) => EntryRefused(message)
    case StartFetch(symbol) =>
      match FetchStockData(symbol, DefaultPeriod, history, csvWriteFails)
      case Failure(e) => FetchFailed(e)
      case Success(data) =>
        match PlotStockData(Some(data), symbol, None, httpGet, parseFloat, display)
        case Failure(e) => PlotFailed(e)
        case Success(p) => Shown(|data|, p)
  }

  /** The provider is asked only about the normalised entry and the default period `1mo`. */
  lemma ClickFetchesNormalizedSymbol(raw: string, h1: (string, string) -> ProviderAnswer,
                                     h2: (string, string) -> ProviderAnswer, csvWriteFails: bool,
                                     httpGet: (string, real) -> HttpResponse, parseFloat: string -> Option<real>,
                                     display: Display)
    requires h1(Normalize(raw), DefaultPeriod) == h2(Normalize(raw), DefaultPeriod)
    ensures HandleClick(raw, h1, csvWriteFails, httpGet, parseFloat, display)
            == HandleClick(raw, h2, csvWriteFails, httpGet, parseFloat, display)
  {
    if !AllSpace(raw) {
      var symbol := Normalize(raw);
      assert OnFetchClicked(raw) == StartFetch(symbol);
      FetchDependsOnlyOnRequest(symbol, DefaultPeriod, h1, h2, csvWriteFails);
    }
  }

  /** A blank entry starts nothing: no provider, CSV write, rate endpoint or drawing call is reached. */
  lemma BlankEntryStartsNothing(raw: string, h1: (string, string) -> ProviderAnswer,
                                h2: (string, string) -> ProviderAnswer, w1: bool, w2: bool,
                                g1: (string, real) -> HttpResponse, g2: (string, real) -> HttpResponse,
                                p1: string -> Option<real>, p2: string -> Option<real>, d1: Display, d2: Display)
    requires AllSpace(raw)
    ensures HandleClick(raw, h1, w1, g1, p1, d1) == HandleClick(raw, h2, w2, g2, p2, d2)
    ensures HandleClick(raw, h1, w1, g1, p1, d1) == EntryRefused(EmptyEntryMessage)
  {
  }
}
