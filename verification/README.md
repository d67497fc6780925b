# NAU Quantum Alpha live dashboard — verified model of its decision core

The dashboard (`app.py`) downloads OHLCV candles for a ticker and timeframe, normalises
them into a five-column table, hands them to an external indicator engine that adds a
signal, a confidence and a market regime per candle, draws a chart and shows a metrics
strip with an optional strong long / strong short alert. This project models the
deterministic rules under that plumbing and proves their properties in Dafny:

- `Lookback` — the timeframe → lookback-window table (`PERIOD_MAP`) with its `"60d"`
  fallback, and the timeframes the sidebar offers.
- `Strings` — the ticker clean-up `symbol.strip().upper()` and the `str(c).lower()` used to
  match column labels.
- `Numbers` — `pd.to_numeric(..., errors="coerce")` on one cell: numbers stay numbers,
  missing stays missing, text becomes the decimal number it spells or missing.
- `Candles` — `download_data` after the provider has answered: pandas' `empty` test,
  the case-insensitive renaming dictionary (with `"adj close"` also mapped to `Close`), the
  "every logical column present" check, the projection onto Open/High/Low/Close/Volume, the
  coercion of each selected column and the `dropna` over the four price columns. It is
  written twice: as the function `DownloadData`, about which the properties are proved, and
  as the method `NormalizeDownload`, which runs the source's loops (building `col_map`,
  coercing column by column, filtering row by row) and is proved equal to it.
- `Metrics` — latest and previous candle (the latest itself when it is alone), signal delta,
  confidence percentage, the regime dictionary with its RANGE default and the alert rule.
- `Dashboard` — `run_live_analysis` as a stop-at-the-first-failure sequence. The data
  provider, the indicator and the chart renderer are parameters (functions that either raise
  or return), so the model states which arguments the source gives them: the cleaned ticker,
  the timeframe's window and the timeframe for the provider; the normalised frame for the
  indicator; the annotated candles and a title made from the ticker as typed for the chart.
  The terminal `Stage` says where a run ended.

A few details of `app.py` that the model keeps as written: the confidence slider spans 50 to
90 percent (app.py:28); all five selected columns are coerced, Volume included (app.py:67-68);
and the frame is emptied when any of the five logical columns is missing after renaming
(app.py:61-63), while only the four price columns decide whether a row is dropped
(app.py:69).

Two behaviours of the code that are easy to miss are modelled as they are. When two
provider columns are renamed to the same logical name (say `Close` and `Adj Close`), the
selection holds that label twice, the numeric conversion of that two-column block raises,
and the run reports a download error (`Candles.Ambiguous`, `Stage.DownloadFailed`). When
the indicator returns no rows after the chart has been drawn, `df.iloc[-1]` raises outside
every handler (`Stage.MetricsCrashed`).

## Model

| member | source | states |
|---|---|---|
| `Strings.Lower` | app.py:53 | The lower-cased label has the input's length, contains no upper-case ASCII letter, and agrees with the input letter by letter up to case. |
| `Strings.Upper` | app.py:77 | The upper-cased ticker has the input's length, contains no lower-case ASCII letter, and agrees with the input letter by letter up to case. |
| `Strings.Strip` | app.py:77 | The stripped ticker is no longer than the input, and it neither starts nor ends with a character Python counts as whitespace. |
| `Strings.StripSplits` | app.py:77 | The input is whitespace, then the stripped result, then whitespace, so strip removes nothing but whitespace at the two ends. |
| `Strings.StripOfPadded` | app.py:77 | For any split of a string into whitespace, a core that starts and ends with non-whitespace, and whitespace, strip returns that core. |
| `Strings.NormalizeSymbol` | app.py:77 | The cleaned ticker is the stripped input, letter for letter, in upper case: it has the stripped input's length, agrees with it at every position up to case, has no lower-case ASCII letter and no whitespace at either end. |
| `Strings.NormalizeSymbolIdempotent` | app.py:77 | Cleaning an already cleaned ticker changes nothing. |
| `Strings.NormalizeSymbolIgnoresPadding` | app.py:77 | Whitespace added around a ticker does not change its cleaned form. |
| `Strings.NormalizeSymbolIgnoresCase` | app.py:77 | A ticker typed in lower case cleans to the same string as the original. |
| `Numbers.ParseUnsigned` | app.py:68 | Unsigned text that coerces gives a non-negative number and consists of digits and points with at least one digit. |
| `Numbers.ParseNumber` | app.py:68 | Text that coerces consists of digits, signs and points with at least one digit. The value is not positive after a leading minus and not negative otherwise. |
| `Numbers.DecimalTextSplits` | app.py:68 | Text is decimal text (digits and points only, at most one point, at least one digit) exactly when it splits at its first point into two digit strings that are not both empty. |
| `Numbers.ParseUnsignedAcceptsExactly` | app.py:68 | Unsigned text coerces to a number exactly when it is decimal text, so "12.5", "007", "3." and ".5" all coerce. |
| `Numbers.ParseNumberAcceptsExactly` | app.py:68 | Text coerces to a number exactly when it is decimal text, or a single "+" or "-" followed by decimal text. |
| `Numbers.ParseShowNat` | app.py:68 | The decimal spelling of any whole number coerces back to that number. |
| `Numbers.ParseSignedShowNat` | app.py:68 | With a leading "-" the spelling coerces to the negated number, and with a leading "+" to the number itself. |
| `Numbers.ParseDecimal` | app.py:68 | For every whole number and every digit string, the whole number's spelling, a point and the digits coerce to the whole number plus the digits' value divided by ten to the number of digits. |
| `Numbers.ParseSignedDecimal` | app.py:68 | The same text after a minus sign coerces to the negated value. |
| `Numbers.Coerce` | app.py:68 | A numeric cell keeps its value, a missing cell stays missing, and a text cell reads as `ParseNumber` reads it, so exactly the text `ParseNumberAcceptsExactly` describes becomes a number. |
| `Numbers.PlaceholdersAreMissing` | app.py:67-68 | "N/A", the empty text, a lone point, a lone minus and a missing cell all coerce to missing. |
| `Numbers.ParseFraction` | app.py:68 | "101.25" coerces to 101.25. |
| `Numbers.ParseSignedFraction` | app.py:68 | "-.5" coerces to -0.5. |
| `Lookback.Period` | app.py:12-20 | 1m gets 7d; 5m, 15m and 30m get 60d; 1h and 4h get 730d; 1d gets 2y. Any code not in the table gets the 60d fallback of line 34. |
| `Lookback.OfferedTimeframesAreMapped` | app.py:26 | The table's keys are exactly the timeframes the selector offers, so the fallback serves only codes the selector cannot produce. |
| `Lookback.WindowGrowsWithTimeframe` | app.py:12-20 | Among offered timeframes, coarser candles never get a shorter lookback window than finer ones. |
| `Candles.RawTable.Empty` | app.py:43 | pandas' `DataFrame.empty` on the provider's answer: true exactly when it has no rows or no columns (a predicate). |
| `Candles.Frame.Empty` | app.py:83 | The same test on the normalised frame: no rows or no columns (a predicate). |
| `Candles.Canonical` | app.py:53-58 | A label maps to Open, High, Low or Volume exactly when it lower-cases to that word. It maps to Close exactly when it lower-cases to "close" or "adj close". Every other label has no entry. |
| `Candles.Rename` | app.py:53-59 | A label with a dictionary entry is renamed to exactly that entry (so "adj close" in any case becomes Close), which is one of the five logical names. A label without an entry is kept as it is. |
| `Candles.RenamedColumns` | app.py:59 | Renaming keeps one label per column, in the same order, each renamed on its own. |
| `Candles.RenamedIsLogicalIff` | app.py:51-59 | After renaming, a column carries a logical name exactly when it had a dictionary entry. A label without an entry is kept unchanged. |
| `Candles.HasAllNeeded` | app.py:61-62 | Holds exactly when each of Open, High, Low, Close and Volume is among the renamed labels (a predicate). `DownloadData` states that its failure gives the empty frame. |
| `Candles.Ambiguous` | app.py:61-68 | Holds exactly when some logical name labels two or more columns after renaming (a predicate). `DownloadData` and `CoerceSelected` state that exactly then the conversion raises. |
| `Candles.LogicalNameStays` | app.py:53-58 | A column already labelled Open, High, Low, Close or Volume keeps its label. |
| `Candles.Positions` | app.py:65 | When every logical column is present, each one is selected from a position that carries its name. |
| `Candles.CoerceRow` | app.py:65-68 | A projected row holds, for each logical column, the coercion of the provider cell at that column's position. |
| `Candles.Coerced` | app.py:65-68 | There is one projected row per provider row, in order, each the projection of that provider row. |
| `Candles.DownloadData` | app.py:43-70 | The result is the empty frame exactly when the provider's table is empty or a logical column is missing after renaming. It raises exactly when the table is non-empty, has every logical column and two of its columns share a logical name; a table with a shared name but a missing logical column gives the empty frame. Otherwise it has the five columns in order, and its rows are the projected, coerced provider rows that dropna keeps, each with five cells and all four prices present. |
| `Candles.DownloadKeepsPricedRowsInOrder` | app.py:61-70 | For a non-empty answer in which each logical column occurs exactly once, download_data returns the five columns. Its rows are the projected, coerced provider rows at a strictly increasing list of positions, and a provider row is on that list exactly when its four price cells coerce to numbers. |
| `Candles.PricesPresent` | app.py:69 | A coerced row passes dropna exactly when Open, High, Low and Close are all present (a predicate). Volume is not consulted. |
| `Candles.DropIncomplete` | app.py:69 | dropna over the four price columns (no contract of its own). `DropIncompleteIsSubsequence` states that it keeps exactly the complete rows, in order. |
| `Candles.DropIncompleteIsSubsequence` | app.py:69 | The kept rows are the input rows at a strictly increasing list of positions. A position is on that list exactly when its row has all four prices. So order is kept and the output is no longer than the input. |
| `Candles.KeptRowsArePriced` | app.py:69 | Every row that dropna keeps has Open, High, Low and Close present. |
| `Candles.RowKeptIffAt` | app.py:67-69 | A provider row is kept exactly when its four price cells coerce to numbers. Its Volume cell plays no part. |
| `Candles.RowKeptIff` | app.py:61-69 | The same holds at the positions where download_data finds the logical columns. |
| `Candles.CoerceColumn` | app.py:68 | The coerced column has one entry per row, and each entry is the coercion of that row's cell. |
| `Candles.BuildColumnMap` | app.py:51-58 | The loop's dictionary has an entry exactly for the provider labels with a logical match, and each entry is that label's logical name. |
| `Candles.CoerceSelected` | app.py:65-68 | The coercion loop raises exactly when a logical label was selected twice. Otherwise it yields the five coerced columns in logical order, each one row long per provider row. |
| `Candles.DropIncompleteRows` | app.py:69 | The row-by-row filter returns exactly the rows dropna keeps, in order. |
| `Candles.NormalizeDownload` | app.py:43-70 | The step-by-step download_data returns exactly what `DownloadData` specifies. |
| `Candles.LogicalColumnsSelectInPlace` | app.py:59-65 | A table labelled exactly Open, High, Low, Close, Volume is not renamed, has every logical column once, and is selected at positions 0 to 4. |
| `Candles.LogicalTableNormalises` | app.py:43-70 | For a non-empty table with exactly those labels, download_data returns the five columns with its coerced rows filtered by dropna. |
| `Candles.DropsRowWithoutPrice` | app.py:69 | Of three rows where only the middle one lacks a price, dropna keeps the first and the third. |
| `Candles.NotAvailableCloseIsDropped` | app.py:43-70 | For three provider rows labelled Open, High, Low, Close, Volume whose second Close is "N/A", download_data returns the five columns with the first and third rows. A missing Volume in the third row does not drop it. |
| `Metrics.Latest` | app.py:110 | The latest candle is the last row of the indicator's output. |
| `Metrics.Previous` | app.py:111 | The previous candle is the second-to-last row, or the only row when there is just one. |
| `Metrics.RegimeOf` | app.py:115-117 | Code 0 gives BULL and code 1 gives BEAR. Every other integer gives RANGE, including 2 and codes outside the dictionary. |
| `Metrics.AlertFor` | app.py:125-129 | Strong long holds exactly when confidence is strictly above the threshold and the signal is strictly above 20. Strong short holds exactly when confidence is strictly above the threshold and the signal is strictly below -20. Otherwise there is no alert. |
| `Metrics.Summarize` | app.py:110-129 | The summary takes signal, confidence (times 100) and regime from the last candle, and its count is the number of candles. The delta is last minus second-to-last signal, or 0 for a single candle. The alert follows the rule above. |
| `Metrics.AlertBoundaries` | app.py:125-129 | A signal of exactly 20 or -20 raises no alert, and neither does a confidence exactly at the threshold. |
| `Metrics.AlertNeedsMajorityConfidence` | app.py:28 | With a threshold in the slider's 50–90 range, an alert implies a latest confidence above 0.5. |
| `Metrics.StrongLongScenario` | app.py:110-129 | Signals 5 then 25 with confidences 0.5 then 0.7 give a strong long at threshold 60 and no alert at threshold 80. The delta is 20 and regime 0 is BULL. |
| `Dashboard.ValidSettings` | app.py:26-28 | What the widgets can produce: a timeframe the selector offers, a refresh period of 30 to 300 seconds and a threshold of 50 to 90 percent (a predicate). |
| `Dashboard.DefaultSettings` | app.py:25-28 | The sidebar's initial values (AAPL, the first timeframe, 60 s, 60 %) are within the widgets' ranges. |
| `Dashboard.QueryFor` | app.py:34-38 | The provider is asked for the ticker cleaned as at app.py:77 (`NormalizeSymbol` of the typed ticker), the timeframe's `Period` (the table's entry for an offered timeframe, one of the four windows) and the timeframe itself. |
| `Dashboard.Title` | app.py:104 | The chart title begins with the ticker exactly as typed, not the cleaned one, and ends with the timeframe. |
| `Dashboard.Fetch` | app.py:76-77 | A provider error surfaces as a download error. A provider answer becomes exactly `DownloadData` of that answer, so a non-empty frame has the five logical columns and only rows with all four prices. |
| `Dashboard.Gate` | app.py:76-129 | The stage sequence after the download (no contract of its own). `IndicatorReachedIff`, `HistoryCutoff`, `StopsAtFirstFailure` and `PresentedIff` state when each stage is reached. |
| `Dashboard.Analysis` | app.py:74-129 | One run as a function of its collaborators (no contract of its own). `RunLiveAnalysis` is proved to end at exactly this stage. |
| `Dashboard.RunLiveAnalysis` | app.py:74-129 | The early-return run ends at exactly the stage given by `Analysis`, the gate applied to the download's outcome. |
| `Dashboard.IndicatorReachedIff` | app.py:76-96 | The indicator, the chart and the metrics are reached exactly when the download returned a non-empty frame with at least 50 candles. |
| `Dashboard.HistoryCutoff` | app.py:87-92 | A non-empty frame stops with the "too few candles" warning exactly when it has fewer than 50 rows. 49 rows stop there and 50 go on. |
| `Dashboard.StopsAtFirstFailure` | app.py:76-108 | A download error occurs exactly when the download raised. No data is reported exactly for an empty frame. An indicator error or chart error occurs exactly when that step raised after all earlier checks passed. |
| `Dashboard.PresentedIff` | app.py:94-129 | Metrics are shown exactly when every step succeeded and the indicator returned at least one row. They are then the summary of the indicator's output at the settings' threshold, beside the rendered chart. |
| `Dashboard.DownloadOutcomes` | app.py:76-85 | The download step raises exactly when the provider raises or normalising its answer raises. An empty answer, or one missing a logical column, gives the empty frame and not an error. |
| `Dashboard.QueryIgnoresPaddingAndCase` | app.py:77 | Whitespace padding or lower-case typing of the ticker leaves the provider request unchanged. An offered timeframe requests its own table entry, never the fallback. |

## Left out

- The network download (`yf.download`, app.py:35-42) is a parameter of the run that raises or returns a table. Its `prepost` and `auto_adjust` flags are not represented.
- Flattening of MultiIndex column labels (app.py:47-48): the provider's table is taken to have flat labels.
- The indicator engine and the chart generator (app.py:6, 95-96, 104) are opaque parameters. The same goes for embedding the HTML in the page (app.py:105), which is folded into the renderer's outcome.
- Page set-up, sidebar rendering, spinner, message texts, `st.info`, the traceback display and the `:.1f` formatting (app.py:8-9, 23-28, 75, 79-80, 84, 88-91, 98-100, 107, 119-129) are presentation. The model keeps only which stage is reached and the values shown.
- The periodic re-run (`st_autorefresh`, app.py:133) is host timing. The refresh slider's range is kept only in `ValidSettings`.
- The frame's timestamp index is not carried. Row order is carried, and `DropIncompleteIsSubsequence` states it.
- Cells are numbers, text or missing. Other cell kinds (booleans, timestamps) and NaN or infinite floats inside a numeric cell are not modelled. Missing stands for NaN.
- Numbers.ParseNumber: pandas also accepts exponents, "inf"/"nan" spellings and surrounding whitespace. The model coerces such text to missing, so a price written that way drops its row here.
- Strings.Lower: only ASCII letters are case-mapped. Python's full Unicode case mapping, including mappings that change length, is not modelled.
- Strings.Upper: only ASCII letters are case-mapped, for the same reason.
- Candles.CoerceSelected: with a duplicated logical label and exactly one row, pandas squeezes the two-column block into a row rather than raising. That case is modelled as raising like every other duplicated label.
- Candles.DownloadData: the same one-row case raises here, so where pandas would go on, the model reports a download error.
- Candles.NormalizeDownload: follows `DownloadData` and raises in that one-row case too.
- Dashboard.RunLiveAnalysis: in that one-row case the run ends at `DownloadFailed`, where app.py would reach the short-history warning (app.py:87-92) or, if dropna removed the row, the no-data message (app.py:83-85).
- Real arithmetic replaces IEEE floats for prices, signals and confidence. `int()` truncation of the regime value is not modelled: the regime comes in as an integer.
