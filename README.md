# Stock price tracker: ticker list, entry validation, fetch and NPR conversion

A Dafny model of the sequential logic of a small desktop stock tracker
written in Python. The application reads a list of ticker symbols from a
markdown-style text file, lets the user pick or type a symbol, fetches the
symbol's recent daily history from a market-data provider, looks up a
USD to NPR (Nepalese Rupee) exchange rate over HTTP and plots the closing
prices converted to NPR.

The model covers:

- `load_symbols` (main.py): the `re.findall` of `**TOKEN**` written out as
  a left-to-right scan (`SymbolScan`), `sorted(set(...))` as insertion into a
  strictly sorted list (`SymbolOrder`), and the five-symbol fallback when the
  file is missing or holds no token (`Symbols`). A missing file is `None`.
- the entry validation of `on_fetch_clicked` (main.py): `strip()`, `upper()` and
  the refusal of an empty entry (`Entry`).
- `fetch_stock_data`, `get_usd_to_npr_rate` and `plot_stock_data`
  (tracker.py) as functions over oracle parameters (`Tracker`, `PyJson`): the
  provider is a function `(symbol, period) -> ProviderAnswer` (it raises, or
  returns a frame or `None`), the HTTP GET a function
  `(url, timeout) -> HttpResponse`, `float()` of a string a function
  `string -> Option<real>`, and what the drawing calls raise a `Display`
  value. An exception that library code raises and no `try` catches is
  passed through as `Foreign(text)`. "Not consulted" is then stated as "the
  result does not depend on that parameter".
- one click, flattened into a sequence: entry validation, fetch, plot (`App`).

Prices and the rate are `real`. The model follows the code as written,
which in particular means:

- there is one rate endpoint, with no cascade, no cached rate file, no
  140.0 default and no provenance tag, and a rate failure propagates out of
  `plot_stock_data` as a `RuntimeError`;
- the chart has no moving average, annotation or currency formatter;
- `resp.raise_for_status()` raises only for a status from 400 to 599, so
  a 1xx or 3xx status with a usable body is accepted (`RaisesForStatus`);
- only the falsiness of the rate is checked, so a negative rate is
  returned, and a JSON `true` is accepted as 1.0 (`float(True)`);
- the entry validation does not restrict the symbol to the file's token class:
  any non-blank entry is fetched.

## Model

| member | source | states |
|---|---|---|
| SymbolScan.RunEnd | main.py:18 | the end of the longest run of `[A-Z0-9^-]` characters from a position: everything before it is in the class, the character at it is not |
| SymbolScan.MatchAt | main.py:18 | a match of `\*\*([A-Z0-9\-\^]+)\*\*` starts at `p` exactly when the greedy run gives one; the result is a match, and `None` means no group end can make the pattern match at `p` |
| SymbolScan.RunEndIs | main.py:18 | a run of class characters ended by a non-class character or the end of text is the greedy run |
| SymbolScan.PatternAtUnique | main.py:18 | a match starting at a given position has only one possible end, since `*` is not in the class, so backtracking never finds a shorter match |
| SymbolScan.FindAllFrom | main.py:18 | the scan reports only tokens: non-empty strings over `A-Z`, `0-9`, `-`, `^` |
| SymbolScan.FindAll | main.py:18 | `re.findall` of the pattern over the whole text yields only class tokens |
| SymbolScan.FoundTokensOccurWrapped | main.py:17-18 | every token found stands in the text as `"**" + s + "**"` |
| SymbolScan.FindAllFromEmptyIff | main.py:18-19 | the scan finds nothing exactly when no match of the pattern starts anywhere in the text |
| SymbolScan.ScanTakesLeftmostMatch | main.py:18 | the first token reported is the group of the leftmost match, no match starts before it, and the scan resumes just past its closing `**` (non-overlapping, left to right) |
| SymbolScan.SkipNoMatch | main.py:18 | positions where no match starts are passed over without contributing anything |
| SymbolScan.FindAllFromShift | main.py:18 | text in front of a string does not change what the scan finds inside that string once it is reached |
| SymbolScan.FindAllWrappedPrefix | main.py:18 | a wrapped token at the start of the text is found and the scan continues right after it |
| SymbolScan.FindAllStarFreePrefix | main.py:17-18 | free text without `*` contributes no token |
| SymbolScan.FindAllWrappedNonToken | main.py:18 | a wrapped non-empty word that starts outside the class and has no `*` inside, such as `**aapl** `, yields nothing when it is followed by a character that is neither `*` nor in the class |
| SymbolScan.FindAllRender | main.py:18 | scanning a list of wrapped tokens gives the list back, order and duplicates included |
| SymbolScan.NonOverlappingExample | main.py:18 | `"**A**B**"` yields only `A` |
| SymbolScan.LeadingStarExample | main.py:18 | in `"***A**"` no match starts at offset 0, one starts at offset 1, and the result is `["A"]` |
| SymbolScan.LowerCaseExample | main.py:18 | `"**aapl**"` yields nothing |
| SymbolOrder.Less | main.py:22 | Python's `a < b` on `str`, which `sorted` uses: lexicographic by code point, with a proper prefix smaller |
| SymbolOrder.LessIrreflexive | main.py:22 | Python's string `<` is irreflexive |
| SymbolOrder.LessTransitive | main.py:22 | Python's string `<` is transitive |
| SymbolOrder.LessTotal | main.py:22 | two different strings are ordered one way or the other |
| SymbolOrder.Insert | main.py:22 | inserting into a strictly sorted list keeps it strictly sorted and adds exactly the new element (a duplicate is dropped) |
| SymbolOrder.SortedSet | main.py:22 | `sorted(set(xs))` is strictly increasing in code-point order and holds exactly the elements of `xs` |
| SymbolOrder.StrictlySortedUnique | main.py:22 | a strictly sorted list is determined by its set of elements |
| SymbolOrder.SortedSetDependsOnlyOnElements | main.py:22 | duplicating or reordering elements does not change `sorted(set(xs))` |
| SymbolOrder.SortedSetOfSorted | main.py:22 | a list already strictly sorted is returned unchanged |
| Symbols.FileTokens | main.py:15-18 | the `findall` matches of the file's text, and none when the file is missing (the `path.exists()` test at main.py:15) |
| Symbols.Candidates | main.py:14-21 | the list that is sorted is never empty, holds only class tokens, and is the file's tokens whenever there are some |
| Symbols.LoadSymbols | main.py:12-22 | the result is never empty, strictly increasing (so free of duplicates) and made of non-empty class tokens |
| Symbols.LoadSymbolsFallback | main.py:15-22 | a missing file or one without any `**TOKEN**` gives exactly `["AAPL", "AMZN", "GOOGL", "MSFT", "TSLA"]` |
| Symbols.LoadSymbolsAreFileTokens | main.py:18-22 | when the file yields tokens the result holds exactly the distinct tokens |
| Symbols.LoadSymbolsOccurInText | main.py:17-22 | when the file yields tokens each listed symbol stands in the text as `"**" + s + "**"` |
| Symbols.LoadSymbolsDependsOnlyOnTokenSet | main.py:18-22 | two files with the same set of tokens, in any order and number, give the same list |
| Symbols.LoadSymbolsOfRendered | main.py:18-22 | a file of wrapped tokens gives those tokens sorted with duplicates dropped |
| Symbols.DuplicatedAndReorderedExample | main.py:22 | `**MSFT****AAPL****MSFT**` and `**AAPL****MSFT**` give the same list |
| Symbols.MixedTextTokens | main.py:18 | `"foo **AAPL** bar **MSFT** **aapl** **GOOG-X**"` yields `AAPL`, `MSFT`, `GOOG-X` in text order |
| Symbols.MixedTextExample | main.py:12-22 | that text gives `["AAPL", "GOOG-X", "MSFT"]` |
| Entry.IsSpace | main.py:57 | the characters `str.isspace()` accepts, and so `strip()` removes: code points 9-13, 28-32, U+0085, U+00A0, U+1680, U+2000-U+200A, U+2028, U+2029, U+202F, U+205F, U+3000 |
| Entry.Strip | main.py:57 | `strip()`: the slice between the end of the leading whitespace and the start of the trailing whitespace; its meaning is pinned by `Entry.StripIsTrimmedSlice` and `Entry.StripEmptyIff` |
| Entry.LeadEnd | main.py:57 | the left scan of `strip()` stops at the first non-whitespace character, all before it being whitespace |
| Entry.TrailEnd | main.py:57 | the right scan of `strip()` stops after the last non-whitespace character, all after it being whitespace |
| Entry.Upper | main.py:57 | `upper()` keeps the length and maps each character by itself |
| Entry.Normalize | main.py:57 | `symbol_var.get().strip().upper()`: strip, then upper-case |
| Entry.OnFetchClicked | main.py:56-60 | the entry is refused, with the "Please select or enter a stock symbol." message, exactly when it is all whitespace; otherwise the fetch starts with the non-empty normalised symbol |
| Entry.StripEmptyIff | main.py:57-58 | `strip()` gives the empty string exactly when the text is all whitespace |
| Entry.StripIsTrimmedSlice | main.py:57 | the stripped text is a slice of the input with only whitespace cut from either side, and neither of its ends is whitespace |
| Entry.NormalizedSymbolShape | main.py:57 | a non-empty normalised entry has no whitespace at either end and no lower-case ASCII letter |
| Entry.NormalizeIdempotent | main.py:57 | normalising a normalised entry changes nothing |
| Entry.PaddedLowerCaseExample | main.py:57-66 | `"  aapl\n"` starts a fetch of `AAPL` |
| Entry.BlankEntryExample | main.py:57-60 | `" \t "` is refused |
| Tracker.NoRows | tracker.py:25 | `data is None or data.empty` (also the guard at tracker.py line 62): no frame, or a frame without rows |
| Tracker.FetchStockData | tracker.py:13-33 | an empty symbol is a `ValueError`; an exception of the provider is passed through unchanged; a `None` or empty frame is a `ValueError` naming the symbol; it succeeds exactly otherwise, returning the provider's frame unchanged, which is then non-empty |
| Tracker.FetchFailureKinds | tracker.py:18-26 | a failed fetch is the empty-symbol `ValueError`, the no-data `ValueError` or the provider's own exception, and it is the provider's exception exactly when the symbol is non-empty and the provider raised |
| Tracker.EmptySymbolSkipsProvider | tracker.py:18-23 | with an empty symbol the outcome is a `ValueError` whatever the provider would answer or raise and whether the CSV write would fail |
| Tracker.FetchDependsOnlyOnRequest | tracker.py:22-23 | the provider is asked only for the requested symbol and period |
| Tracker.CsvFailureIsSwallowed | tracker.py:28-33 | a failed CSV write does not change the outcome (by construction: the flag is never read) |
| Tracker.RaisesForStatus | tracker.py:45 | `raise_for_status()` raises exactly for a status from 400 to 599 |
| Tracker.InfoRate | tracker.py:47 | `data.get("info", {}).get("rate")`: a missing key gives `{}` or `None`, and a `.get` on something that is not a dict raises (`None` in the model) |
| PyJson.Truthy | tracker.py:48 | Python's truth value, whose negation is `not rate`: `None`, `False`, zero and empty strings, lists and dicts are false |
| Tracker.PyFloat | tracker.py:50 | `float(rate)`: `True` is 1.0 and `False` 0.0, a number is itself, a string goes through `float()` of a string, and anything else raises (`None` in the model) |
| Tracker.RateFromResponse | tracker.py:43-53 | every failure is the one `RuntimeError("Failed to fetch exchange rate")`; success needs a status `raise_for_status` accepts, a decoded body, and a truthy `info.rate` that `float()` converts to the value returned |
| Tracker.GetUsdToNprRate | tracker.py:36-53 | a connection failure, like every other failure, is the one `RuntimeError("Failed to fetch exchange rate")`; a rate is returned only from an answer whose status `raise_for_status` accepts |
| Tracker.RateSuccessIff | tracker.py:44-50 | the lookup returns `v` exactly when the status passes, the body decodes, `data.get("info", {}).get("rate")` is truthy and converts to `v` |
| Tracker.GetUsdToNprRateSuccessIff | tracker.py:42-50 | the lookup returns `v` exactly when the answer for the fixed endpoint has a passing status and a decoded body whose truthy `info.rate` converts to `v` |
| Tracker.RateDependsOnlyOnEndpoint | tracker.py:42-44 | only the answer for the fixed endpoint and the timeout matters |
| Tracker.NumericRate | tracker.py:47-50 | `{"info": {"rate": x}}` under a passing status returns `x`, negative included; zero is refused |
| Tracker.ErrorStatusFails | tracker.py:45 | a 4xx or 5xx status fails whatever the body |
| Tracker.MissingInfoFails | tracker.py:47-49 | a body without `info` is read as `{}` and fails |
| Tracker.FalsyRateFails | tracker.py:47-49 | a missing, null, zero or empty rate fails |
| Tracker.UnparsableStringRateFails | tracker.py:50-53 | a string rate that does not parse as a number fails |
| Tracker.StringRate | tracker.py:50 | a string rate that parses is returned as the parsed number |
| Tracker.TrueRate | tracker.py:48-50 | a JSON `true` rate is accepted as 1.0 |
| Tracker.NonObjectFails | tracker.py:46-47 | a body that is not a dict, or an `info` that is not a dict, fails |
| Tracker.ConvertCloses | tracker.py:71 | the converted series has the frame's length, and point `i` is the frame's date `i` with close `i` times the rate |
| Tracker.DrawRaises | tracker.py:73-90 | the exception escaping the drawing calls: the figure's, else `savefig`'s when a save path is given, else the blocking `plt.show()`'s when the non-blocking show failed |
| Tracker.DrawSucceedsIff | tracker.py:73-90 | drawing goes through exactly when building the figure does not raise, `savefig` does not raise when a path is given, and the blocking `plt.show()` does not raise when the non-blocking show failed |
| Tracker.PlotStockData | tracker.py:56-92 | `None` or empty data is a `ValueError`; otherwise a failed rate lookup is its `RuntimeError`, then an exception of the drawing calls is passed through unchanged; it succeeds exactly when the data has rows, the rate is found and drawing goes through, returning the rate looked up and drawing, under the title `<symbol> Stock Price Trend — Prices in NPR` and the label `<symbol> Closing Prices (NPR)`, one point per row at close times rate on the row's date |
| Tracker.EmptyDataSkipsRate | tracker.py:62-68 | with empty data the outcome depends neither on the HTTP answer, nor on `float()`, nor on the drawing calls: none is reached |
| Tracker.RateFailureSkipsDrawing | tracker.py:68-74 | when the rate lookup fails, what the drawing calls would raise does not matter |
| Tracker.NoSavePathSkipsSave | tracker.py:82-83 | without a save path (or with an empty one) what `savefig` would raise does not matter |
| Tracker.NonBlockingShowSkipsFallback | tracker.py:85-90 | when the non-blocking show works, what the blocking `plt.show()` would raise does not matter |
| Tracker.ConversionExample | tracker.py:71 | closes 100, 101, 99 at rate 130 are drawn as 13000, 13130, 12870 on the same dates |
| Tracker.FetchedDataPlots | tracker.py:25-33 | a frame that `fetch_stock_data` returned is never refused by `plot_stock_data`; only the rate failure or a drawing exception can occur |
| App.HandleClick | main.py:56-92 | a click ends refused, with the entry message, exactly for a blank entry; it ends in a failed fetch exactly when the entry is not blank and the provider raised or returned no rows for the normalised symbol, with the provider's exception or the no-data `ValueError` (never the empty-symbol one); otherwise the outcome is exactly what `plot_stock_data` gives for the fetched frame and the normalised symbol without a save path: its error (the rate `RuntimeError` when the lookup failed, else the drawing exception) or its chart, title, label and points included; the plot is shown exactly when the rate was found and drawing went through, with one point per fetched record |
| App.ClickFetchesNormalizedSymbol | main.py:57-71 | the provider is consulted only for the normalised entry and the default period `1mo` |
| App.BlankEntryStartsNothing | main.py:57-60 | a blank entry is refused whatever the provider, the CSV write, the rate endpoint, `float()` and the drawing calls would do |

## Left out

- The window, combobox, button, status bar and message boxes (main.py:25-54, 78-97): user interface. `App.HandleClick` keeps only which message or outcome the user ends up with.
- The worker thread and `self.after` hand-back to the UI thread (main.py:66-76): concurrency. `App.HandleClick` runs the same steps in sequence.
- Enabling and disabling the button: widget state across threads.
- Reading `Stock_Symbols.txt`: file I/O; the file is `Option<string>`, `None` when `path.exists()` is false. `path.read_text()` raising for a path that exists (a directory, an unreadable file, bytes that do not decode) is not modelled; that exception leaves `load_symbols` and the application's constructor (main.py:38).
- `yf.Ticker(...).history`, `requests.get` with its timeout and `resp.json()`: foreign calls, modelled as the oracle parameters `history`, `httpGet` and the decoded `Body`.
- The class of an exception raised by the provider or by matplotlib: it is kept only as its text in `Foreign`, so a provider that itself raises a `ValueError` is not told apart from other provider exceptions.
- `float()` of a string: modelled as the oracle `parseFloat`. IEEE floating point in `float(rate)` and `Close * rate` is not modelled; prices are `real`.
- The CSV write, figure construction, `savefig`, `plt.show` and its fallback (tracker.py:29, 73-90): file and graphics I/O. The chart is its title, line label and series; what those calls raise is the `csvWriteFails` flag and the `Display` value.
- Logging throughout both files.
- Entry.Upper: maps only the ASCII letters `a`-`z`; Python's full Unicode case mapping (which can also change the length, as `ß` to `SS`) is not modelled.
- Frames with no columns, or without a `Close` column: a `Frame` is a sequence of rows that always carry a close.
- A NaN or infinite rate: JSON numbers are `real`, and `parseFloat` returns a `real`, so neither a NaN or infinite number nor a string such as `"nan"` or `"inf"`, which `float()` accepts and which passes the truth test, can produce the NaN or infinite rate the code would return.
