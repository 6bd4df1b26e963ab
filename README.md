# Candle backtest engine

A Dafny model of the backtesting core of a trading-strategy web application.

- **`runBacktest` engine (`lib/backtest.js`).** This turns a candle series and a strategy (direction, reward-to-risk `rr`, risk per trade, optional session window) into a list of trades and aggregate statistics.
  - It skips the first candle.
  - It drops candles outside the session window. The window compares minutes of the day, with both bounds included.
  - It takes a long trade on a rising candle and a short trade on a falling one, as the direction allows.
  - Each trade's R-multiple is `±1 × rr`.
  - The statistics are the trade count, the win rate as a percentage, the average R and a cumulative equity curve.
- **`runBacktestLocally` placeholder (`src/lib/backtest.js`).** This prices a fixed run of 80 trades at a 52% win rate from the form's `rr` and `risk` fields.

The model is split into four modules:

- `JsValues`: the JavaScript behaviour the code relies on.
  - `x || default` on absent, empty or zero fields.
  - `Math.round`, `Math.max` and `Math.abs`.
  - `Number(x.toFixed(2))`.
- `JsStrings`: `String.prototype.split` on a one-character separator, its inverse `join`, and `Number` on a run of decimal digits.
- `Backtest`: the engine.
  - `GenerateTrades` and `Summarize` are the loops of the source, written as methods with `while` loops.
  - Each of those methods is proved equal to a specification function (`Generated`, `StatsOf`).
  - `RunBacktest` composes the two.
  - Lemmas state what those functions mean:
    - which candle each trade comes from;
    - which candles are skipped;
    - how the side follows the direction;
    - what the statistics and the equity curve add up to.
- `LocalBacktest`: the placeholder metrics as a pure function.

A consequence proved here: the losing branch of the outcome computation (`-1`) is never reached. The side is chosen from the same candle that decides the outcome, so every trade carries exactly `+rr` (`Backtest.LossBranchUnreachable`, `Backtest.EveryTradeWinsRr`). A non-empty backtest therefore reports an average R of `rr` and a win rate of 100 (0 when `rr` is negative), and its equity climbs by `rr` per trade (`Backtest.ReportedStats`).

## Model

| member | source | states |
|---|---|---|
| JsValues.StringOr | lib/backtest.js:16 | `direction \|\| "both"`: the result is the field when it is present and non-empty (truthy); when it is absent or empty, the default |
| JsValues.NumberOr | lib/backtest.js:17-18 | `rr \|\| 2`, `riskPerTrade \|\| 1`: the result is the field when it is present and non-zero (truthy); when it is absent or zero, the default |
| JsValues.MathRound | src/lib/backtest.js:11 | `Math.round` gives the integer within half of its argument, with ties rounded up |
| JsValues.MathMax | src/lib/backtest.js:16 | `Math.max(losses, 1)` is at least both arguments and equal to one of them |
| JsValues.MathAbs | src/lib/backtest.js:17 | `Math.abs` is non-negative and equal to the argument or its negation |
| JsValues.ToFixed2 | src/lib/backtest.js:28-29 | `Number(x.toFixed(2))` is the whole number of hundredths nearest `x`, a tie going to the larger magnitude (the bound is strict on the side towards zero), with the sign of `x` |
| JsStrings.Split | lib/backtest.js:4-5 | `split` yields at least one part, two or more exactly when the separator occurs, and no part contains the separator |
| JsStrings.JoinSplit | lib/backtest.js:4-5 | joining the parts of a split restores the string |
| JsStrings.SplitJoin | lib/backtest.js:4-5 | splitting a join of separator-free parts restores the parts |
| JsStrings.LeadingZeroIgnored | lib/backtest.js:5 | `Number` of a digit group ignores a leading zero, so "08" reads as 8 |
| Backtest.InSession | lib/backtest.js:1-12 | with no session, or with a time lacking `T`, every candle is in session |
| Backtest.ClockMinutesOf | lib/backtest.js:5-10 | a clock `HH:MM`, optionally followed by `:`-fields, parses and counts `HH*60+MM` minutes |
| Backtest.TimePartOf | lib/backtest.js:3-4 | the part after `T` of `<date>T<clock>` is the clock |
| Backtest.InSessionWindow | lib/backtest.js:1-11 | a time `<date>T<clock>` is in session exactly when its minute of the day lies between those of start and end, both included |
| Backtest.DigitClock | lib/backtest.js:5-10 | `H:M`, for digit groups of any length, is a well-formed clock without `T` at minute `H*60+M` |
| Backtest.MorningCandle | lib/backtest.js:1-11 | in the session 08:00 to 12:00, a candle at hour h sharp is in session exactly when 8 <= h <= 12 |
| Backtest.MorningSessionExample | lib/backtest.js:1-11 | in the session 08:00 to 12:00, 09:00 is in, 13:00 is out, and both bounds are in |
| Backtest.Resolve | lib/backtest.js:16-18 | the defaults are direction "both", rr 2 and risk 1 when a field is absent, empty or zero; the resolved values are never empty or zero |
| Backtest.Signal | lib/backtest.js:25-34 | long only on a rising candle under "long" or "both"; short only on a falling candle under "short" or "both"; a flat candle or any other direction gives no side; both directions of each iff |
| Backtest.Outcome | lib/backtest.js:36 | the R sign is ±1, and +1 exactly when the side agrees with the candle |
| Backtest.LossBranchUnreachable | lib/backtest.js:28-36 | every signalled side agrees with its candle, so the outcome is +1 |
| Backtest.TradeFor | lib/backtest.js:21-43 | a candle yields a trade exactly when it is in session and has a signal; the trade has the candle's time, the signalled side, and the resolved rr and risk |
| Backtest.SourcesIncrease | lib/backtest.js:20 | the candles behind the trades are visited from index 1, in increasing order |
| Backtest.SourcesComplete | lib/backtest.js:20-34 | a visited candle is a trade source exactly when it yields a trade |
| Backtest.ScanFromSources | lib/backtest.js:20-43 | trade k is the trade its source candle yields |
| Backtest.GenerateTrades | lib/backtest.js:14-47 | the loop returns exactly the specified trade list `Generated` |
| Backtest.TradesFromCandles | lib/backtest.js:14-47 | the trades come one per source candle after the first, in candle order; each copies its candle's time, signalled side, rr and risk; every in-session candle with a signal is a source |
| Backtest.ScanLength | lib/backtest.js:20 | the scan up to i yields at most i-1 trades |
| Backtest.TradeCountBound | lib/backtest.js:20 | there are never more trades than candles after the first |
| Backtest.SkippedCandles | lib/backtest.js:23-34 | a flat candle, or one outside the session, yields no trade |
| Backtest.SidesFollowDirection | lib/backtest.js:16-34 | "long" takes only rising candles long, "short" only falling candles short, "both" follows each candle; any other direction yields no trades |
| Backtest.EveryTradeWinsRr | lib/backtest.js:17-42 | every trade's R-multiple is the resolved rr and its risk the resolved risk |
| Backtest.Wins | lib/backtest.js:71 | the win count is at most the trade count |
| Backtest.WinRateInRange | lib/backtest.js:80 | the win rate is between 0 and 100 |
| Backtest.EquityCurveSteps | lib/backtest.js:64-74 | one curve point per trade; point k has index k; the first point is the first trade's R; each later point adds its trade's R |
| Backtest.FinalEquityIsTotalR | lib/backtest.js:65-73 | the last equity point equals the total R |
| Backtest.SumRStep | lib/backtest.js:70-72 | each trade adds its R to the running total |
| Backtest.UniformTrades | lib/backtest.js:70-71 | n trades of R x total n*x, and all win exactly when x > 0 |
| Backtest.Summarize | lib/backtest.js:52-84 | the statistics pass returns exactly `StatsOf(trades)`: all zeros for no trades, otherwise the count, the win percentage, the mean R and the equity curve |
| Backtest.RunBacktest | lib/backtest.js:49-85 | the result is the generated trades together with their statistics |
| Backtest.ShortSeriesHasNoTrades | lib/backtest.js:49-61 | zero or one candle gives no trades and all-zero statistics |
| Backtest.ReportedStats | lib/backtest.js:76-82 | a non-empty result has average R equal to rr, a win rate of 100 when rr > 0 and 0 otherwise, and equity point k equal to (k+1)*rr |
| Backtest.UniformStats | lib/backtest.js:64-82 | for trades all of R x: average x, win rate 100 or 0, and equity (k+1)*x |
| Backtest.UniformEquity | lib/backtest.js:69-74 | for trades all of R x, equity point k is (k+1)*x |
| Backtest.ThreeCandleTrades | lib/backtest.js:14-47 | a flat, a rising and a falling candle under "both" with rr 2 give a long and a short trade of +2 each |
| Backtest.ThreeCandleStats | lib/backtest.js:64-84 | those two trades report 2 trades, a 100% win rate, an average of 2 R, and equity 2 then 4 |
| Backtest.LongIgnoresFallingCandle | lib/backtest.js:29-32 | a falling candle yields nothing under "long" but a short trade under "both" |
| LocalBacktest.FieldOr | src/lib/backtest.js:8-9 | `form.x \|\| d`: an empty field falls back to the default, and a filled field is used as is |
| LocalBacktest.RunBacktestLocally | src/lib/backtest.js:5-36 | 80 trades at winrate 0.52; wins plus losses equal the trades; avgRR defaults to 2; profit R is wins*avgRR - losses; profit percent is profit R times risk (default 1); profit factor is within 0.005 of 42*avgRR/38; drawdown is non-positive; empty equity curve; `used_ai_rules` exactly when rules are given |
| LocalBacktest.FixedTradeSplit | src/lib/backtest.js:6-12 | whatever the form says, 42 trades win and 38 lose |
| LocalBacktest.EmptyFormExample | src/lib/backtest.js:8-29 | an empty form gives avgRR 2, profit 46 R and 46%, a profit factor of 2.21 and a drawdown of -19 |
| LocalBacktest.DrawdownMagnitude | src/lib/backtest.js:17-29 | the drawdown is within 0.005 of -\|19 × risk\| |

## Left out

- **Floating point.** Numbers are exact reals. IEEE-754 rounding and `NaN` are not modelled, nor is `toFixed`'s exponential form for magnitudes of 10^21 and above.
- **Clock fields other than digit groups.** The model requires the hour and minute fields of the candle's time part and of both session bounds to be non-empty runs of digits (`Parsable`, `SessionsParsable`). Other fields are still numbers to the source: `Number("")` is 0, `Number(" 9")` is 9, `Number("9.5")` is 9.5 and `Number("+9")` is 9. Only a field that is not a numeral at all ("9a", or a missing minute field) gives `NaN` minutes, and such a candle is never in session. None of these cases is modelled.
- **Missing session bounds.** A session object without `start` or `end` makes the source throw, but only for a candle whose time contains `T`; lib/backtest.js:3 returns before the bounds are read otherwise. The model's `Session` always has both bounds.
- **Timezone.** The session's timezone is never read by the source, so it is not a field of the model.
- **Non-numeric fields.** `rr` and `riskPerTrade` are modelled as numbers or absent. A string value in those fields, and JavaScript's coercion of it, are not modelled.
- **Candle high and low.** `high` and `low` are carried in the `Candle` datatype but never read, as in the source.
- **Runtime representation.** Sides are the datatype `Side` rather than the strings "long" and "short". The result of `generateTradesFromCandles` is a fresh sequence value, not a mutable array.
- **Loop structure.** `GenerateTrades` compares the constant direction once before its loop rather than on each candle, and `Summarize` is the statistics half of `runBacktest` factored out as a method. Neither changes the result.
- **Form fields.** In `runBacktestLocally` each form field is the text of a number input. `None` is the empty text; a non-empty text such as "0" is truthy and is then read by `Number`. Non-numeric text and values of other JavaScript types are not modelled.
- **`aiRules`.** This is modelled as present or absent. Falsy values other than `null` and `undefined` (`0`, `""`, `false`) are not modelled.
- **Outside the engine.** HTTP handlers, pages, UI components, persistence, market-data and AI clients are not part of this model.
- LocalBacktest.RunBacktestLocally: the contract states the profit factor only to within 0.005 of `42 × avgRR / 38` and the drawdown only as non-positive. The exact rounded values follow from `ToFixed2`, and `LocalBacktest.EmptyFormExample` and `LocalBacktest.DrawdownMagnitude` pin them down further.
- Backtest.InSession: its own contract states only the two early returns. The window comparison is stated by `Backtest.InSessionWindow` for times of the form `<date>T<clock>`.
