/** One run of the live analysis: download and normalise the candles, require enough history,
    let the indicator annotate them, draw the chart and derive the metrics. Each step that can
    fail ends the run at once; the terminal stage records where it ended. The data provider,
    the indicator and the chart renderer are parameters of the run. */
module Dashboard {
  import opened Wrappers
  import opened Strings
  import opened Lookback
  import opened Candles
  import opened Metrics

  /** The sidebar settings the run reads. */
  datatype Settings = Settings(symbol: string, timeframe: string, refreshSeconds: int, threshold: int)

  /** What the sidebar widgets can produce: a listed timeframe and values within the sliders. */
  predicate ValidSettings(s: Settings)
  {
    s.timeframe in Timeframes && 30 <= s.refreshSeconds <= 300 && 50 <= s.threshold <= 90
  }

  /** The sidebar's initial values. */
  function DefaultSettings(): (d: Settings)
    ensures ValidSettings(d)
    ensures d.timeframe == Timeframes[0]
  {
    Settings("AAPL", "1m", 60, 60)
  }

  /** A provider answer always has one cell per column in every row. */
  type ProviderTable = t: RawTable | t.WellFormed() witness RawTable([], [])

  /** The request sent to the data provider. */
  datatype Query = Query(symbol: string, period: string, interval: string)

  /** The data provider: it raises or answers with a table. */
  type Provider = Query -> Outcome<ProviderTable>

  /** The indicator engine: it raises or returns the annotated candles. */
  type Indicator = Frame -> Outcome<seq<Annotated>>

  /** The chart renderer, given the annotated candles and a title: it raises or returns the
      HTML document that is embedded in the page. */
  type Renderer = (seq<Annotated>, string) -> Outcome<string>

  /** Where a run ends. */
  datatype Stage =
    | DownloadFailed
    | NoData
    | TooFewCandles(count: nat)
    | IndicatorFailed
    | ChartFailed
    | MetricsCrashed
    | Presented(chart: string, summary: Summary)

  /** The history the indicator needs, in candles. */
  const MinCandles: nat := 50

  /** The download request for the settings: the cleaned ticker, the timeframe's window and
      the timeframe itself. */
  function QueryFor(s: Settings): (q: Query)
    ensures q.symbol == NormalizeSymbol(s.symbol) && q.period == Period(s.timeframe)
    ensures q.interval == s.timeframe
    ensures q.period in {"7d", "60d", "730d", "2y"}
    ensures s.timeframe in Timeframes ==> q.period == PeriodMap[s.timeframe]
    ensures |q.symbol| <= |s.symbol|
    ensures forall i :: 0 <= i < |q.symbol| ==> !IsLowerAscii(q.symbol[i])
  {
    OfferedTimeframesAreMapped();
    Query(NormalizeSymbol(s.symbol), Period(s.timeframe), s.timeframe)
  }

  /** The chart title: the ticker as typed, a middle dot and the timeframe. */
  function Title(s: Settings): (t: string)
    ensures |t| > |s.symbol| + |s.timeframe|
    ensures t[..|s.symbol|] == s.symbol && t[|t| - |s.timeframe|..] == s.timeframe
  {
    s.symbol + " \U{B7} " + s.timeframe
  }

  /** download_data for the settings: the provider's exception or the normalised frame. */
  function Fetch(s: Settings, provider: Provider): (r: Outcome<Frame>)
    ensures provider(QueryFor(s)).Raised? ==> r.Raised?
    ensures provider(QueryFor(s)).Returned? ==> r == DownloadData(provider(QueryFor(s)).value)
    ensures r.Returned? && r.value != EmptyFrame ==>
      r.value.columns == Needed && forall k :: 0 <= k < |r.value.rows| ==> PricesPresent(r.value.rows[k])
  {
    match provider(QueryFor(s))
    case Raised => Raised
    case Returned(raw) => DownloadData(raw)
  }

  /** The gating of run_live_analysis once download_data has raised or returned a frame. */
  function Gate(fetched: Outcome<Frame>, compute: Indicator, render: Renderer, title: string, threshold: int): Stage
  {
    match fetched
    case Raised => DownloadFailed
    case Returned(df) =>
      if df.Empty() then NoData
      else if |df.rows| < MinCandles then TooFewCandles(|df.rows|)
      else
        match compute(df)
        case Raised => IndicatorFailed
        case Returned(annotated) =>
          match render(annotated, title)
          case Raised => ChartFailed
          case Returned(html) =>
            if |annotated| == 0 then MetricsCrashed
            else Presented(html, Summarize(annotated, threshold))
  }

  /** run_live_analysis as a function of its collaborators' outcomes. */
  function Analysis(s: Settings, provider: Provider, compute: Indicator, render: Renderer): Stage
  {
    Gate(Fetch(s, provider), compute, render, Title(s), s.threshold)
  }

  /** run_live_analysis step by step, leaving at the first step that fails. */
  method RunLiveAnalysis(s: Settings, provider: Provider, compute: Indicator, render: Renderer)
    returns (stage: Stage)
    ensures stage == Analysis(s, provider, compute, render)
  {
    var answer := provider(QueryFor(s));
    if answer.Raised? {
      return DownloadFailed;
    }
    var fetched := NormalizeDownload(answer.value);
    if fetched.Raised? {
      return DownloadFailed;
    }
    var df := fetched.value;
    if df.Empty() {
      return NoData;
    }
    if |df.rows| < MinCandles {
      return TooFewCandles(|df.rows|);
    }
    var annotated := compute(df);
    if annotated.Raised? {
      return IndicatorFailed;
    }
    var html := render(annotated.value, Title(s));
    if html.Raised? {
      return ChartFailed;
    }
    if |annotated.value| == 0 {
      // the latest-row lookup on an empty table raises outside every handler
      return MetricsCrashed;
    }
    return Presented(html.value, Summarize(annotated.value, s.threshold));
  }

  /** The indicator is consulted only when the download returned a non-empty frame of at
      least MinCandles candles; every later stage implies that. */
  lemma IndicatorReachedIff(fetched: Outcome<Frame>, compute: Indicator, render: Renderer, title: string, threshold: int)
    ensures var stage := Gate(fetched, compute, render, title, threshold);
      (stage.IndicatorFailed? || stage.ChartFailed? || stage.MetricsCrashed? || stage.Presented?)
      <==> (fetched.Returned? && !fetched.value.Empty() && |fetched.value.rows| >= MinCandles)
  {
  }

  /** The history check: a downloaded non-empty frame stops the run with a warning exactly
      when it has fewer than 50 candles, so 49 stops and 50 goes on. */
  lemma HistoryCutoff(df: Frame, compute: Indicator, render: Renderer, title: string, threshold: int)
    requires !df.Empty()
    ensures var stage := Gate(Returned(df), compute, render, title, threshold);
      (stage == TooFewCandles(|df.rows|) <==> |df.rows| < MinCandles)
      && (|df.rows| == 49 ==> stage == TooFewCandles(49))
      && (|df.rows| == 50 ==> !stage.TooFewCandles?)
  {
  }

  /** Each early return of the run, in order: the download raised; the frame is empty; the
      history is short; the indicator raised; the chart raised. */
  lemma StopsAtFirstFailure(fetched: Outcome<Frame>, compute: Indicator, render: Renderer, title: string, threshold: int)
    ensures var stage := Gate(fetched, compute, render, title, threshold);
      (stage == DownloadFailed <==> fetched.Raised?)
      && (stage == NoData <==> fetched.Returned? && fetched.value.Empty())
      && (stage.IndicatorFailed? <==>
            (fetched.Returned? && !fetched.value.Empty() && |fetched.value.rows| >= MinCandles
             && compute(fetched.value).Raised?))
      && (stage.ChartFailed? <==>
            (fetched.Returned? && !fetched.value.Empty() && |fetched.value.rows| >= MinCandles
             && compute(fetched.value).Returned? && render(compute(fetched.value).value, title).Raised?))
  {
  }

  /** Metrics are shown exactly when every step succeeded and the indicator returned candles;
      they are then derived from the indicator's output for the downloaded frame. */
  lemma PresentedIff(fetched: Outcome<Frame>, compute: Indicator, render: Renderer, title: string, threshold: int)
    ensures var stage := Gate(fetched, compute, render, title, threshold);
      stage.Presented?
      <==> (fetched.Returned? && !fetched.value.Empty() && |fetched.value.rows| >= MinCandles
            && compute(fetched.value).Returned? && |compute(fetched.value).value| > 0
            && render(compute(fetched.value).value, title).Returned?)
    ensures var stage := Gate(fetched, compute, render, title, threshold);
      stage.Presented? ==>
        stage.summary == Summarize(compute(fetched.value).value, threshold)
        && stage.chart == render(compute(fetched.value).value, title).value
  {
  }

  /** The download step raises when the provider raises or when normalising its answer
      raises; an empty answer, or one lacking a logical column, is "no data" rather than a
      failure. */
  lemma DownloadOutcomes(s: Settings, provider: Provider)
    ensures var answer := provider(QueryFor(s));
      (Fetch(s, provider).Raised? <==> answer.Raised? || DownloadData(answer.value).Raised?)
      && (answer.Returned? && answer.value.Empty() ==> Fetch(s, provider) == Returned(EmptyFrame))
      && ((answer.Returned? && !HasAllNeeded(RenamedColumns(answer.value.columns)))
          ==> Fetch(s, provider) == Returned(EmptyFrame))
  {
  }

  /** Padding the ticker with whitespace or typing it in lower case does not change the
      request sent to the provider, and the period sent for a listed timeframe is the table's
      own entry, never the fallback. */
  lemma QueryIgnoresPaddingAndCase(s: Settings, pre: string, post: string)
    requires AllSpace(pre) && AllSpace(post)
    ensures QueryFor(s.(symbol := pre + s.symbol + post)) == QueryFor(s)
    ensures QueryFor(s.(symbol := Lower(s.symbol))) == QueryFor(s)
    ensures s.timeframe in Timeframes ==> QueryFor(s).period == PeriodMap[s.timeframe]
  {
    NormalizeSymbolIgnoresPadding(s.symbol, pre, post);
    NormalizeSymbolIgnoresCase(s.symbol);
    OfferedTimeframesAreMapped();
  }
}
