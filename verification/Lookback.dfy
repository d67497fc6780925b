/** The lookback window requested from the data provider for each candle timeframe, and the
    timeframes the sidebar offers. */
module Lookback {

  /** The timeframe codes offered by the sidebar selector, finest first; the first is the default. */
  const Timeframes: seq<string> := ["1m", "5m", "15m", "30m", "1h", "4h", "1d"]

  /** The provider's lookback limits per timeframe code. */
  const PeriodMap: map<string, string> :=
    map["1m" := "7d", "5m" := "60d", "15m" := "60d", "30m" := "60d",
        "1h" := "730d", "4h" := "730d", "1d" := "2y"]

  /** The window used for codes the table does not list. */
  const DefaultPeriod: string := "60d"

  /** The period passed to the provider for a timeframe code; total over all codes. */
  function Period(interval: string): (p: string)
    ensures interval == "1m" ==> p == "7d"
    ensures interval in {"5m", "15m", "30m"} ==> p == "60d"
    ensures interval in {"1h", "4h"} ==> p == "730d"
    ensures interval == "1d" ==> p == "2y"
    ensures interval !in Timeframes ==> p == DefaultPeriod
    ensures p in {"7d", "60d", "730d", "2y"}
  {
    if interval in PeriodMap then PeriodMap[interval] else DefaultPeriod
  }

  /** Candle length of each offered timeframe, in minutes. */
  const CandleMinutes: map<string, nat> :=
    map["1m" := 1, "5m" := 5, "15m" := 15, "30m" := 30, "1h" := 60, "4h" := 240, "1d" := 1440]

  /** Length of each lookback window the table uses, in days; "2y" counts as two 365-day years. */
  const WindowLength: map<string, nat> :=
    map["7d" := 7, "60d" := 60, "730d" := 730, "2y" := 730]

  /** Every timeframe the sidebar offers has its own entry, so the fallback only serves codes
      that the selector cannot produce. */
  lemma OfferedTimeframesAreMapped()
    ensures forall t :: t in Timeframes <==> t in PeriodMap
  {
  }

  /** Coarser candles never get a shorter window than finer ones. */
  lemma WindowGrowsWithTimeframe(a: string, b: string)
    requires a in Timeframes && b in Timeframes
    requires CandleMinutes[a] <= CandleMinutes[b]
    ensures WindowLength[Period(a)] <= WindowLength[Period(b)]
  {
  }
}
