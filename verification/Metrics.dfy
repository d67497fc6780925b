/** The values shown above the chart once the indicator has annotated the candles: the latest
    signal and its change since the previous candle, the confidence as a percentage, the
    number of candles, the market regime, and the strong long/short alert. */
module Metrics {

  /** The indicator's per-candle output: NAU_Signal, NAU_Confidence and NAU_Regime. */
  datatype Annotated = Annotated(signal: real, confidence: real, regime: int)

  datatype Regime = Bull | Bear | Range

  datatype Alert = StrongLong | StrongShort | NoAlert

  datatype Summary = Summary(signal: real, delta: real, confidencePct: real, candles: nat,
                             regime: Regime, alert: Alert)

  /** A signal beyond plus or minus this level is strong. */
  const StrongSignal: real := 20.0

  /** The last row, df.iloc[-1]. */
  function Latest(rows: seq<Annotated>): (r: Annotated)
    requires |rows| > 0
    ensures r in rows && r == rows[|rows| - 1]
  {
    rows[|rows| - 1]
  }

  /** The candle before the latest, or the latest itself when it is the only one. */
  function Previous(rows: seq<Annotated>): (r: Annotated)
    requires |rows| > 0
    ensures r in rows
    ensures |rows| > 1 ==> r == rows[|rows| - 2]
    ensures |rows| == 1 ==> r == rows[0]
  {
    if |rows| > 1 then rows[|rows| - 2] else Latest(rows)
  }

  /** The regime label: the dictionary {0: BULL, 1: BEAR, 2: RANGE} with RANGE as the default
      for every other code. */
  function RegimeOf(code: int): (r: Regime)
    ensures r == Bull <==> code == 0
    ensures r == Bear <==> code == 1
    ensures r == Range <==> code != 0 && code != 1
  {
    var labels := map[0 := Bull, 1 := Bear, 2 := Range];
    if code in labels then labels[code] else Range
  }

  /** The alert rule. Both sides of the confidence test are divided by 100 as app.py does;
      over the reals that is the plain comparison of percentages. An alert needs confidence
      strictly above the threshold and a signal strictly beyond the strong level. */
  function AlertFor(signal: real, confidencePct: real, threshold: int): (a: Alert)
    ensures a == StrongLong <==> confidencePct > threshold as real && signal > StrongSignal
    ensures a == StrongShort <==> confidencePct > threshold as real && signal < -StrongSignal
    ensures a == NoAlert <==> confidencePct <= threshold as real || (-StrongSignal <= signal <= StrongSignal)
  {
    if confidencePct / 100.0 > (threshold as real) / 100.0 then
      if signal > StrongSignal then StrongLong
      else if signal < -StrongSignal then StrongShort
      else NoAlert
    else NoAlert
  }

  /** The metrics strip and alert for an annotated, non-empty candle table. */
  function Summarize(rows: seq<Annotated>, threshold: int): (m: Summary)
    requires |rows| > 0
    ensures m.signal == rows[|rows| - 1].signal
    ensures |rows| >= 2 ==> m.delta == rows[|rows| - 1].signal - rows[|rows| - 2].signal
    ensures |rows| == 1 ==> m.delta == 0.0
    ensures m.confidencePct == 100.0 * rows[|rows| - 1].confidence
    ensures m.candles == |rows|
    ensures m.regime == RegimeOf(rows[|rows| - 1].regime)
    ensures m.alert != NoAlert ==> m.confidencePct > threshold as real
    ensures m.alert == StrongLong <==> m.confidencePct > threshold as real && m.signal > StrongSignal
    ensures m.alert == StrongShort <==> m.confidencePct > threshold as real && m.signal < -StrongSignal
  {
    var latest, prev := Latest(rows), Previous(rows);
    var confidencePct := latest.confidence * 100.0;
    Summary(latest.signal, latest.signal - prev.signal, confidencePct, |rows|,
            RegimeOf(latest.regime), AlertFor(latest.signal, confidencePct, threshold))
  }

  /** The boundaries of the alert rule: a signal of exactly 20 or -20, or a confidence exactly
      at the threshold, raises no alert. */
  lemma AlertBoundaries(signal: real, confidencePct: real, threshold: int)
    ensures AlertFor(StrongSignal, confidencePct, threshold) == NoAlert
    ensures AlertFor(-StrongSignal, confidencePct, threshold) == NoAlert
    ensures AlertFor(signal, threshold as real, threshold) == NoAlert
  {
  }

  /** With the slider's thresholds (50 to 90 percent) an alert is only raised when the
      indicator is more confident than not. */
  lemma AlertNeedsMajorityConfidence(rows: seq<Annotated>, threshold: int)
    requires |rows| > 0 && 50 <= threshold <= 90
    ensures Summarize(rows, threshold).alert != NoAlert ==> Latest(rows).confidence > 0.5
  {
  }

  /** Signals 5 then 25 with confidences 0.5 then 0.7 give a strong long alert at a 60 percent
      threshold and none at 80 percent. */
  lemma StrongLongScenario()
    ensures var rows := [Annotated(5.0, 0.5, 0), Annotated(25.0, 0.7, 0)];
      Summarize(rows, 60).alert == StrongLong && Summarize(rows, 80).alert == NoAlert
      && Summarize(rows, 60).delta == 20.0 && Summarize(rows, 60).regime == Bull
  {
  }
}
