// The candle backtest engine of lib/backtest.js: the session filter, the
// momentum signal that turns each eligible candle into a trade, and the
// aggregate statistics with the cumulative equity curve.

module Backtest {
  import opened JsValues
  import opened JsStrings

  /** A trading window given as two clock strings; its timezone is never read. */
  datatype Session = Session(start: string, end: string)

  /** The strategy fields the engine reads; each may be absent. */
  datatype StrategySpec = StrategySpec(
    direction: Option<string>,
    rr: Option<real>,
    riskPerTrade: Option<real>,
    session: Option<Session>)

  datatype Candle = Candle(time: string, open: real, high: real, low: real, close: real)

  datatype Side = Long | Short

  datatype Trade = Trade(time: string, side: Side, rMultiple: real, riskPercent: real)

  datatype EquityPoint = EquityPoint(index: nat, equity: real)

  datatype Stats = Stats(totalTrades: nat, winRate: real, avgR: real, equityCurve: seq<EquityPoint>)

  datatype BacktestResult = BacktestResult(trades: seq<Trade>, stats: Stats)

  // ---------------------------------------------------------------------------
  // Session filter
  // ---------------------------------------------------------------------------

  /** A clock string whose first two `:`-separated fields are digit groups ("HH:MM", "HH:MM:SS"). */
  predicate WellFormedClock(s: string) {
    var fields := Split(s, ':');
    |fields| >= 2 && IsDigits(fields[0]) && IsDigits(fields[1])
  }

  /** Minutes since midnight of a well-formed clock string: `h * 60 + m`. */
  function ClockMinutes(s: string): nat
    requires WellFormedClock(s)
  {
    var fields := Split(s, ':');
    DigitsValue(fields[0]) * 60 + DigitsValue(fields[1])
  }

  /** `timeStr.split("T")[1]`: the time-of-day part of a date-time string. */
  function TimePart(timeStr: string): string
    requires 'T' in timeStr
  {
    Split(timeStr, 'T')[1]
  }

  /**
    * What the session filter needs of a candle time: when a session is set and
    * the time has a time-of-day part, that part and both session bounds parse.
    */
  predicate Parsable(timeStr: string, session: Option<Session>) {
    session.Some? && 'T' in timeStr ==>
      WellFormedClock(TimePart(timeStr))
      && WellFormedClock(session.value.start)
      && WellFormedClock(session.value.end)
  }

  /** Whether a candle time lies in the session window, both bounds included. */
  function InSession(timeStr: string, session: Option<Session>): (r: bool)
    requires Parsable(timeStr, session)
    ensures session.None? ==> r
    ensures 'T' !in timeStr ==> r
  {
    if session.None? then true
    else if 'T' !in timeStr then true
    else
      var minutes := ClockMinutes(TimePart(timeStr));
      var startMinutes := ClockMinutes(session.value.start);
      var endMinutes := ClockMinutes(session.value.end);
      minutes >= startMinutes && minutes <= endMinutes
  }

  /** A digit group holds no character other than a digit. */
  lemma DigitsExclude(s: string, ch: char)
    requires IsDigits(s) && !IsDigit(ch)
    ensures ch !in s
  {
    assert forall i :: 0 <= i < |s| ==> IsDigit(s[i]);
  }

  /** A separator-free field followed by nothing or by a separator is the first part of the split. */
  lemma FirstField(m: string, rest: string, sep: char)
    requires sep !in m
    requires rest == [] || rest[0] == sep
    ensures Split(m + rest, sep)[0] == m
  {
    if rest == [] {
      assert m + rest == m;
      SplitWithoutSeparator(m, sep);
    } else {
      assert m + rest == m + [sep] + rest[1..];
      SplitAtSeparator(m, sep, rest[1..]);
    }
  }

  /** "HH:MM" followed by nothing or by further `:` fields reads as `HH * 60 + MM`. */
  lemma ClockMinutesOf(h: string, m: string, rest: string)
    requires IsDigits(h) && IsDigits(m)
    requires rest == [] || rest[0] == ':'
    ensures WellFormedClock(h + [':'] + m + rest)
    ensures ClockMinutes(h + [':'] + m + rest) == DigitsValue(h) * 60 + DigitsValue(m)
  {
    DigitsExclude(h, ':');
    DigitsExclude(m, ':');
    assert h + [':'] + m + rest == h + [':'] + (m + rest);
    SplitAtSeparator(h, ':', m + rest);
    FirstField(m, rest, ':');
  }

  /** A date, a `T` and a clock: the time-of-day part is the clock. */
  lemma TimePartOf(date: string, clock: string)
    requires 'T' !in date && 'T' !in clock
    ensures 'T' in date + ['T'] + clock
    ensures TimePart(date + ['T'] + clock) == clock
  {
    var s := date + ['T'] + clock;
    assert s[|date|] == 'T';
    SplitAtSeparator(date, 'T', clock);
    SplitWithoutSeparator(clock, 'T');
  }

  /**
    * For a time "<date>T<clock>" and a session from `start` to `end`, the
    * candle is in session exactly when the minute of the day of its clock
    * lies between those of the two bounds, both included.
    */
  lemma InSessionWindow(date: string, clock: string, start: string, end: string)
    requires 'T' !in date && 'T' !in clock
    requires WellFormedClock(clock) && WellFormedClock(start) && WellFormedClock(end)
    ensures Parsable(date + ['T'] + clock, Some(Session(start, end)))
    ensures InSession(date + ['T'] + clock, Some(Session(start, end)))
      <==> ClockMinutes(start) <= ClockMinutes(clock) <= ClockMinutes(end)
  {
    TimePartOf(date, clock);
  }

  /** "H:M" for digit groups H and M of any length: a well-formed clock without a `T`, at minute `60 * H + M`. */
  lemma DigitClock(h: string, m: string)
    requires IsDigits(h) && IsDigits(m)
    ensures 'T' !in h + [':'] + m
    ensures WellFormedClock(h + [':'] + m)
    ensures ClockMinutes(h + [':'] + m) == DigitsValue(h) * 60 + DigitsValue(m)
  {
    DigitsExclude(h, 'T');
    DigitsExclude(m, 'T');
    ClockMinutesOf(h, m, []);
    assert h + [':'] + m + [] == h + [':'] + m;
  }

  lemma HourValues()
    ensures IsDigits("00") && DigitsValue("00") == 0
    ensures IsDigits("08") && DigitsValue("08") == 8
    ensures IsDigits("09") && DigitsValue("09") == 9
    ensures IsDigits("12") && DigitsValue("12") == 12
    ensures IsDigits("13") && DigitsValue("13") == 13
  {
    assert "00"[..1] == "0" && "08"[..1] == "0" && "09"[..1] == "0" && "12"[..1] == "1" && "13"[..1] == "1";
  }

  /**
    * A candle at hour `h` sharp is in the morning session 08:00 .. 12:00
    * (each clock written as "<hh>" + ":" + "<mm>") exactly when 8 <= h <= 12.
    */
  lemma MorningCandle(date: string, h: string)
    requires 'T' !in date && IsDigits(h)
    ensures var session := Some(Session("08" + [':'] + "00", "12" + [':'] + "00"));
      var t := date + ['T'] + (h + [':'] + "00");
      Parsable(t, session) && (InSession(t, session) <==> 8 <= DigitsValue(h) <= 12)
  {
    HourValues();
    DigitClock(h, "00");
    DigitClock("08", "00");
    DigitClock("12", "00");
    InSessionWindow(date, h + [':'] + "00", "08" + [':'] + "00", "12" + [':'] + "00");
  }

  /**
    * The morning session from 08:00 to 12:00 on 2024-01-01 (each time below
    * is "2024-01-01T<hh>:00", built up from its parts): 09:00 is in it,
    * 13:00 is not, and both bounds are.
    */
  lemma MorningSessionExample()
    ensures var session := Some(Session("08" + [':'] + "00", "12" + [':'] + "00"));
      var date := "2024-01-01";
      Parsable(date + ['T'] + ("09" + [':'] + "00"), session)
      && InSession(date + ['T'] + ("09" + [':'] + "00"), session)
      && Parsable(date + ['T'] + ("13" + [':'] + "00"), session)
      && !InSession(date + ['T'] + ("13" + [':'] + "00"), session)
      && Parsable(date + ['T'] + ("08" + [':'] + "00"), session)
      && InSession(date + ['T'] + ("08" + [':'] + "00"), session)
      && Parsable(date + ['T'] + ("12" + [':'] + "00"), session)
      && InSession(date + ['T'] + ("12" + [':'] + "00"), session)
  {
    var date := "2024-01-01";
    assert 'T' !in date;
    HourValues();
    MorningCandle(date, "09");
    MorningCandle(date, "13");
    MorningCandle(date, "08");
    MorningCandle(date, "12");
  }

  // ---------------------------------------------------------------------------
  // Signal and trade generation
  // ---------------------------------------------------------------------------

  /** The strategy after the `||` defaults: direction "both", rr 2, risk 1. */
  datatype Config = Config(dir: string, rr: real, risk: real, session: Option<Session>)

  function Resolve(spec: StrategySpec): (cfg: Config)
    ensures cfg.dir == (if TruthyString(spec.direction) then spec.direction.value else "both")
    ensures cfg.rr == (if TruthyNumber(spec.rr) then spec.rr.value else 2.0)
    ensures cfg.risk == (if TruthyNumber(spec.riskPerTrade) then spec.riskPerTrade.value else 1.0)
    ensures cfg.session == spec.session
    ensures cfg.dir != "" && cfg.rr != 0.0 && cfg.risk != 0.0
  {
    Config(
      StringOr(spec.direction, "both"),
      NumberOr(spec.rr, 2.0),
      NumberOr(spec.riskPerTrade, 1.0),
      spec.session)
  }

  predicate Bullish(c: Candle) { c.close > c.open }

  predicate Bearish(c: Candle) { c.close < c.open }

  /**
    * The side taken on a candle, if any: long on a rising candle, short on a
    * falling one, each only when the direction admits it.
    */
  function Signal(dir: string, c: Candle): (side: Option<Side>)
    ensures side.Some? ==> c.close != c.open
    ensures side == Some(Long) ==> Bullish(c) && (dir == "long" || dir == "both")
    ensures side == Some(Short) ==> Bearish(c) && (dir == "short" || dir == "both")
    ensures dir == "long" ==> (side.Some? <==> Bullish(c))
    ensures dir == "short" ==> (side.Some? <==> Bearish(c))
    ensures dir == "both" ==> (side.Some? <==> c.close != c.open)
    ensures dir != "long" && dir != "short" && dir != "both" ==> side.None?
  {
    if Bullish(c) && (dir == "long" || dir == "both") then Some(Long)
    else if Bearish(c) && (dir == "short" || dir == "both") then Some(Short)
    else None
  }

  /** The sign of a trade's R-multiple: +1 when the side agrees with the candle, -1 otherwise. */
  function Outcome(isBull: bool, isBear: bool, side: Side): (r: int)
    ensures r == 1 || r == -1
    ensures r == 1 <==> (isBull && side == Long) || (isBear && side == Short)
  {
    if isBull && side == Long then 1
    else if isBear && side == Short then 1
    else -1
  }

  /** The losing branch of `Outcome` is never taken: every signalled side agrees with its candle. */
  lemma LossBranchUnreachable(dir: string, c: Candle, side: Side)
    requires Signal(dir, c) == Some(side)
    ensures Outcome(Bullish(c), Bearish(c), side) == 1
  {
  }

  /** The trade a single candle yields under a resolved strategy, if any. */
  function TradeFor(cfg: Config, c: Candle): (t: Option<Trade>)
    requires Parsable(c.time, cfg.session)
    ensures t.Some? <==> InSession(c.time, cfg.session) && Signal(cfg.dir, c).Some?
    ensures t.Some? ==> t.value.time == c.time && Some(t.value.side) == Signal(cfg.dir, c)
    ensures t.Some? ==> t.value.rMultiple == cfg.rr && t.value.riskPercent == cfg.risk
  {
    if !InSession(c.time, cfg.session) then None
    else match Signal(cfg.dir, c)
      case None => None
      case Some(side) => Some(Trade(c.time, side, cfg.rr, cfg.risk))
  }

  /** Every candle the loop visits (index 1 onwards, below `i`) has a parsable time. */
  predicate ParsableUpTo(candles: seq<Candle>, session: Option<Session>, i: nat)
    requires i <= 1 || i <= |candles|
  {
    forall j :: 1 <= j < i ==> Parsable(candles[j].time, session)
  }

  function AsSeq<T>(o: Option<T>): seq<T> {
    if o.Some? then [o.value] else []
  }

  /** The trades produced by the candles at indices 1 .. i-1, in order. */
  function Scan(candles: seq<Candle>, cfg: Config, i: nat): seq<Trade>
    requires i <= 1 || i <= |candles|
    requires ParsableUpTo(candles, cfg.session, i)
  {
    if i <= 1 then [] else Scan(candles, cfg, i - 1) + AsSeq(TradeFor(cfg, candles[i - 1]))
  }

  /** The indices of the candles that yield those trades. */
  function Sources(candles: seq<Candle>, cfg: Config, i: nat): seq<nat>
    requires i <= 1 || i <= |candles|
    requires ParsableUpTo(candles, cfg.session, i)
  {
    if i <= 1 then []
    else Sources(candles, cfg, i - 1) + (if TradeFor(cfg, candles[i - 1]).Some? then [i - 1] else [])
  }

  /** The candle times the engine will parse: those of every candle after the first. */
  predicate SessionsParsable(candles: seq<Candle>, session: Option<Session>) {
    forall j :: 1 <= j < |candles| ==> Parsable(candles[j].time, session)
  }

  /** The trade list `generateTradesFromCandles` returns. */
  function Generated(candles: seq<Candle>, spec: StrategySpec): seq<Trade>
    requires SessionsParsable(candles, spec.session)
  {
    if |candles| == 0 then [] else Scan(candles, Resolve(spec), |candles|)
  }

  /** The indices of the candles behind the trades of `Generated`. */
  function GeneratedSources(candles: seq<Candle>, spec: StrategySpec): seq<nat>
    requires SessionsParsable(candles, spec.session)
  {
    if |candles| == 0 then [] else Sources(candles, Resolve(spec), |candles|)
  }

  /** The source indices are candles after the first, below `i`, in increasing order. */
  lemma {:induction false} SourcesIncrease(candles: seq<Candle>, cfg: Config, i: nat)
    requires i <= 1 || i <= |candles|
    requires ParsableUpTo(candles, cfg.session, i)
    ensures forall k :: 0 <= k < |Sources(candles, cfg, i)| ==> 1 <= Sources(candles, cfg, i)[k] < i
    ensures forall k, l :: 0 <= k < l < |Sources(candles, cfg, i)| ==> Sources(candles, cfg, i)[k] < Sources(candles, cfg, i)[l]
  {
    if i > 1 {
      SourcesIncrease(candles, cfg, i - 1);
    }
  }

  /** A candle after the first, below `i`, is a source exactly when it yields a trade. */
  lemma {:induction false} SourcesComplete(candles: seq<Candle>, cfg: Config, i: nat)
    requires i <= 1 || i <= |candles|
    requires ParsableUpTo(candles, cfg.session, i)
    ensures forall j :: 1 <= j < i ==> (TradeFor(cfg, candles[j]).Some? <==> j in Sources(candles, cfg, i))
  {
    if i > 1 {
      SourcesComplete(candles, cfg, i - 1);
      SourcesIncrease(candles, cfg, i - 1);
      assert (i - 1) !in Sources(candles, cfg, i - 1);
    }
  }

  /** Trade k is the trade its source candle yields. */
  lemma {:induction false} ScanFromSources(candles: seq<Candle>, cfg: Config, i: nat)
    requires i <= 1 || i <= |candles|
    requires ParsableUpTo(candles, cfg.session, i)
    ensures var ts, ix := Scan(candles, cfg, i), Sources(candles, cfg, i);
      |ts| == |ix|
      && (forall k :: 0 <= k < |ix| ==> 1 <= ix[k] < i && ix[k] < |candles| && TradeFor(cfg, candles[ix[k]]) == Some(ts[k]))
  {
    if i > 1 {
      ScanFromSources(candles, cfg, i - 1);
    }
  }

  /**
    * The trade list of `generateTradesFromCandles`, described by the candles
    * it comes from: trade k comes from candle `src[k]`, a candle after the
    * first; the sources increase; each trade copies its candle's time, takes
    * the side the signal gives, and carries the resolved rr and risk; and
    * every in-session candle after the first with a signal is a source.
    */
  lemma TradesFromCandles(candles: seq<Candle>, spec: StrategySpec)
    requires SessionsParsable(candles, spec.session)
    ensures var ts, src, cfg := Generated(candles, spec), GeneratedSources(candles, spec), Resolve(spec);
      |ts| == |src|
      && (forall k :: 0 <= k < |src| ==> 1 <= src[k] < |candles|)
      && (forall k, l :: 0 <= k < l < |src| ==> src[k] < src[l])
      && (forall k :: 0 <= k < |src| ==>
            ts[k].time == candles[src[k]].time
            && Some(ts[k].side) == Signal(cfg.dir, candles[src[k]])
            && InSession(candles[src[k]].time, cfg.session)
            && ts[k].rMultiple == cfg.rr
            && ts[k].riskPercent == cfg.risk)
      && (forall j :: 1 <= j < |candles| ==>
            (j in src <==> InSession(candles[j].time, cfg.session) && Signal(cfg.dir, candles[j]).Some?))
  {
    if |candles| > 0 {
      SourcesIncrease(candles, Resolve(spec), |candles|);
      SourcesComplete(candles, Resolve(spec), |candles|);
      ScanFromSources(candles, Resolve(spec), |candles|);
    }
  }

  /** No more trades than candles after the first. */
  lemma {:induction false} ScanLength(candles: seq<Candle>, cfg: Config, i: nat)
    requires i <= 1 || i <= |candles|
    requires ParsableUpTo(candles, cfg.session, i)
    ensures |Scan(candles, cfg, i)| <= if i == 0 then 0 else i - 1
  {
    if i > 1 {
      ScanLength(candles, cfg, i - 1);
    }
  }

  lemma TradeCountBound(candles: seq<Candle>, spec: StrategySpec)
    requires SessionsParsable(candles, spec.session)
    ensures |Generated(candles, spec)| <= if |candles| == 0 then 0 else |candles| - 1
  {
    if |candles| > 0 {
      ScanLength(candles, Resolve(spec), |candles|);
    }
  }

  /** A candle with `close == open`, or one outside the session, is the source of no trade. */
  lemma SkippedCandles(candles: seq<Candle>, spec: StrategySpec, j: nat)
    requires SessionsParsable(candles, spec.session)
    requires 1 <= j < |candles|
    requires candles[j].close == candles[j].open || !InSession(candles[j].time, spec.session)
    ensures j !in GeneratedSources(candles, spec)
  {
    TradesFromCandles(candles, spec);
  }

  /**
    * The side follows the direction: "long" takes only rising candles long,
    * "short" only falling candles short, and "both" (also the default) goes
    * the way each candle went; any other direction takes nothing.
    */
  lemma SidesFollowDirection(candles: seq<Candle>, spec: StrategySpec)
    requires SessionsParsable(candles, spec.session)
    ensures var ts, src, dir := Generated(candles, spec), GeneratedSources(candles, spec), Resolve(spec).dir;
      |ts| == |src|
      && (forall k :: 0 <= k < |src| ==> src[k] < |candles|)
      && (dir == "long" ==> forall k :: 0 <= k < |ts| ==> ts[k].side == Long && Bullish(candles[src[k]]))
      && (dir == "short" ==> forall k :: 0 <= k < |ts| ==> ts[k].side == Short && Bearish(candles[src[k]]))
      && (dir == "both" ==> forall k :: 0 <= k < |ts| ==>
            (ts[k].side == Long <==> Bullish(candles[src[k]]))
            && (ts[k].side == Short <==> Bearish(candles[src[k]])))
      && (dir != "long" && dir != "short" && dir != "both" ==> ts == [])
  {
    TradesFromCandles(candles, spec);
    var ts, src, cfg := Generated(candles, spec), GeneratedSources(candles, spec), Resolve(spec);
    if ts != [] {
      assert Signal(cfg.dir, candles[src[0]]).Some?;
    }
  }

  /** Every trade wins `rr`: its R-multiple is the resolved rr and its risk the resolved risk. */
  lemma EveryTradeWinsRr(candles: seq<Candle>, spec: StrategySpec)
    requires SessionsParsable(candles, spec.session)
    ensures var ts, cfg := Generated(candles, spec), Resolve(spec);
      forall k :: 0 <= k < |ts| ==> ts[k].rMultiple == cfg.rr && ts[k].riskPercent == cfg.risk
  {
    TradesFromCandles(candles, spec);
  }

  /** `generateTradesFromCandles`: one pass over the candles from index 1, pushing a trade per signal. */
  method GenerateTrades(candles: seq<Candle>, spec: StrategySpec) returns (trades: seq<Trade>)
    requires SessionsParsable(candles, spec.session)
    ensures trades == Generated(candles, spec)
  {
    trades := [];
    var dir := StringOr(spec.direction, "both");
    var rr := NumberOr(spec.rr, 2.0);
    var risk := NumberOr(spec.riskPerTrade, 1.0);
    ghost var cfg := Resolve(spec);
    assert cfg == Config(dir, rr, risk, spec.session);

    // `dir` is constant, so its three comparisons are made once, before the loop.
    var dirLong, dirShort, dirBoth := dir == "long", dir == "short", dir == "both";
    var i := 1;
    while i < |candles|
      invariant 1 <= i && (i <= |candles| || i == 1)
      invariant trades == Scan(candles, cfg, i)
    {
      var c := candles[i];
      if InSession(c.time, spec.session) {
        var isBull := c.close > c.open;
        var isBear := c.close < c.open;

        var side: Option<Side> := None;
        if dirLong && isBull { side := Some(Long); }
        if dirShort && isBear { side := Some(Short); }
        if dirBoth {
          side := if isBull then Some(Long) else if isBear then Some(Short) else None;
        }
        assert side == Signal(dir, c);
        if side.Some? {
          LossBranchUnreachable(dir, c, side.value);
          var r := Outcome(isBull, isBear, side.value);
          assert r as real * rr == rr;
          trades := trades + [Trade(c.time, side.value, r as real * rr, risk)];
        }
      }
      i := i + 1;
    }
  }

  // ---------------------------------------------------------------------------
  // Aggregate statistics
  // ---------------------------------------------------------------------------

  /** Total R over a trade list. */
  function SumR(ts: seq<Trade>): real {
    if ts == [] then 0.0 else SumR(ts[..|ts| - 1]) + ts[|ts| - 1].rMultiple
  }

  /** The number of trades with a positive R-multiple. */
  function Wins(ts: seq<Trade>): (n: nat)
    ensures n <= |ts|
  {
    if ts == [] then 0 else Wins(ts[..|ts| - 1]) + (if ts[|ts| - 1].rMultiple > 0.0 then 1 else 0)
  }

  /** Point k of the equity curve is the total R of trades 0 .. k. */
  function EquityCurve(ts: seq<Trade>): seq<EquityPoint> {
    seq(|ts|, k requires 0 <= k < |ts| => EquityPoint(k, SumR(ts[..k + 1])))
  }

  /** The statistics `runBacktest` reports for a trade list. */
  function StatsOf(ts: seq<Trade>): Stats {
    if |ts| == 0 then Stats(0, 0.0, 0.0, [])
    else Stats(|ts|, (Wins(ts) as real / |ts| as real) * 100.0, SumR(ts) / |ts| as real, EquityCurve(ts))
  }

  /** The win rate is a percentage. */
  lemma WinRateInRange(ts: seq<Trade>)
    ensures 0.0 <= StatsOf(ts).winRate <= 100.0
  {
    if |ts| > 0 {
      var w, n := Wins(ts) as real, |ts| as real;
      assert w / n <= 1.0 by {
        assert w <= n;
        assert w / n * n == w;
      }
    }
  }

  /**
    * The equity curve has one point per trade, point k has index k, the
    * first point is the first trade's R, and each later point adds its
    * trade's R to the point before.
    */
  lemma EquityCurveSteps(ts: seq<Trade>)
    ensures |StatsOf(ts).equityCurve| == |ts|
    ensures forall k :: 0 <= k < |ts| ==> StatsOf(ts).equityCurve[k].index == k
    ensures |ts| > 0 ==> StatsOf(ts).equityCurve[0].equity == ts[0].rMultiple
    ensures forall k :: 0 < k < |ts| ==>
      StatsOf(ts).equityCurve[k].equity == StatsOf(ts).equityCurve[k - 1].equity + ts[k].rMultiple
  {
    if |ts| > 0 {
      SumRStep(ts, 0);
      assert ts[..0] == [];
      forall k | 0 < k < |ts|
        ensures EquityCurve(ts)[k].equity == EquityCurve(ts)[k - 1].equity + ts[k].rMultiple
      {
        SumRStep(ts, k);
      }
    }
  }

  /** The last point of the equity curve is the total R of all trades. */
  lemma FinalEquityIsTotalR(ts: seq<Trade>)
    requires ts != []
    ensures StatsOf(ts).equityCurve[|ts| - 1].equity == SumR(ts)
  {
    assert ts[..|ts|] == ts;
  }

  /** Extending a prefix by one trade adds that trade's R. */
  lemma SumRStep(ts: seq<Trade>, k: nat)
    requires k < |ts|
    ensures SumR(ts[..k + 1]) == SumR(ts[..k]) + ts[k].rMultiple
  {
    assert ts[..k + 1][..k] == ts[..k];
  }

  /** Trades that all carry the same R-multiple `x` total `n * x`, and all win exactly when `x > 0`. */
  lemma {:induction false} UniformTrades(ts: seq<Trade>, x: real)
    requires forall k :: 0 <= k < |ts| ==> ts[k].rMultiple == x
    ensures SumR(ts) == |ts| as real * x
    ensures Wins(ts) == if x > 0.0 then |ts| else 0
  {
    if ts != [] {
      UniformTrades(ts[..|ts| - 1], x);
    }
  }

  /**
    * The statistics pass of `runBacktest`: all zeros and an empty curve for
    * no trades; otherwise one accumulating pass that counts wins, sums R and
    * pushes the running equity after each trade.
    */
  method Summarize(trades: seq<Trade>) returns (stats: Stats)
    ensures stats == StatsOf(trades)
  {
    if |trades| == 0 {
      return Stats(0, 0.0, 0.0, []);
    }

    var wins: nat := 0;
    var sumR := 0.0;
    var equity := 0.0;
    var equityCurve: seq<EquityPoint> := [];

    var idx := 0;
    while idx < |trades|
      invariant 0 <= idx <= |trades|
      invariant wins == Wins(trades[..idx])
      invariant sumR == SumR(trades[..idx]) && equity == sumR
      invariant |equityCurve| == idx
      invariant forall k :: 0 <= k < idx ==> equityCurve[k] == EquityPoint(k, SumR(trades[..k + 1]))
    {
      var t := trades[idx];
      assert trades[..idx + 1][..idx] == trades[..idx];
      sumR := sumR + t.rMultiple;
      if t.rMultiple > 0.0 { wins := wins + 1; }
      equity := equity + t.rMultiple;
      equityCurve := equityCurve + [EquityPoint(idx, equity)];
      idx := idx + 1;
    }
    assert trades[..idx] == trades;

    stats := Stats(
      |trades|,
      (wins as real / |trades| as real) * 100.0,
      sumR / |trades| as real,
      equityCurve);
  }

  /** `runBacktest`: the trades of `generateTradesFromCandles` and their statistics. */
  method RunBacktest(candles: seq<Candle>, spec: StrategySpec) returns (result: BacktestResult)
    requires SessionsParsable(candles, spec.session)
    ensures result.trades == Generated(candles, spec)
    ensures result.stats == StatsOf(result.trades)
  {
    var trades := GenerateTrades(candles, spec);
    var stats := Summarize(trades);
    result := BacktestResult(trades, stats);
  }

  // ---------------------------------------------------------------------------
  // What the engine reports, end to end
  // ---------------------------------------------------------------------------

  /** A series of zero or one candles yields no trades and all-zero statistics. */
  lemma ShortSeriesHasNoTrades(candles: seq<Candle>, spec: StrategySpec)
    requires |candles| <= 1
    ensures SessionsParsable(candles, spec.session)
    ensures Generated(candles, spec) == []
    ensures StatsOf(Generated(candles, spec)) == Stats(0, 0.0, 0.0, [])
  {
  }

  /**
    * Since every trade carries `rr`, a non-empty run has average R equal to
    * `rr`, a win rate of 100 when `rr` is positive and 0 otherwise, and an
    * equity curve that climbs by `rr` per trade.
    */
  lemma ReportedStats(candles: seq<Candle>, spec: StrategySpec)
    requires SessionsParsable(candles, spec.session)
    requires Generated(candles, spec) != []
    ensures StatsOf(Generated(candles, spec)).avgR == Resolve(spec).rr
    ensures StatsOf(Generated(candles, spec)).winRate == if Resolve(spec).rr > 0.0 then 100.0 else 0.0
    ensures forall k :: 0 <= k < |Generated(candles, spec)| ==>
      StatsOf(Generated(candles, spec)).equityCurve[k].equity == (k + 1) as real * Resolve(spec).rr
  {
    var ts, rr := Generated(candles, spec), Resolve(spec).rr;
    EveryTradeWinsRr(candles, spec);
    UniformStats(ts, rr);
  }

  lemma UniformStats(ts: seq<Trade>, x: real)
    requires ts != []
    requires forall k :: 0 <= k < |ts| ==> ts[k].rMultiple == x
    ensures StatsOf(ts).avgR == x
    ensures StatsOf(ts).winRate == (if x > 0.0 then 100.0 else 0.0)
    ensures forall k :: 0 <= k < |ts| ==> StatsOf(ts).equityCurve[k].equity == (k + 1) as real * x
  {
    var n := |ts| as real;
    UniformTrades(ts, x);
    assert SumR(ts) / n == x by {
      assert SumR(ts) == n * x;
      assert n * x / n == x;
    }
    assert Wins(ts) as real / n * 100.0 == (if x > 0.0 then 100.0 else 0.0) by {
      assert x > 0.0 ==> Wins(ts) as real == n;
      assert x <= 0.0 ==> Wins(ts) == 0;
    }
    UniformEquity(ts, x);
  }

  lemma UniformEquity(ts: seq<Trade>, x: real)
    requires forall k :: 0 <= k < |ts| ==> ts[k].rMultiple == x
    ensures forall k :: 0 <= k < |ts| ==> EquityCurve(ts)[k].equity == (k + 1) as real * x
  {
    forall k | 0 <= k < |ts|
      ensures EquityCurve(ts)[k].equity == (k + 1) as real * x
    {
      UniformPrefix(ts, x, k + 1);
    }
  }

  lemma UniformPrefix(ts: seq<Trade>, x: real, n: nat)
    requires n <= |ts|
    requires forall k :: 0 <= k < |ts| ==> ts[k].rMultiple == x
    ensures SumR(ts[..n]) == n as real * x
  {
    UniformTrades(ts[..n], x);
  }

  /**
    * Three candles, a flat one, a rising one and a falling one, under
    * direction "both" with rr 2: the first is never looked at, and the other
    * two are trades of +2 each.
    */
  lemma ThreeCandleTrades()
    ensures var candles := [Candle("t0", 1.0, 1.0, 1.0, 1.0), Candle("t1", 1.0, 1.1, 1.0, 1.1), Candle("t2", 1.1, 1.1, 1.0, 1.0)];
      var spec := StrategySpec(Some("both"), Some(2.0), Some(1.0), None);
      SessionsParsable(candles, spec.session)
      && Generated(candles, spec) == [Trade("t1", Long, 2.0, 1.0), Trade("t2", Short, 2.0, 1.0)]
  {
    var candles := [Candle("t0", 1.0, 1.0, 1.0, 1.0), Candle("t1", 1.0, 1.1, 1.0, 1.1), Candle("t2", 1.1, 1.1, 1.0, 1.0)];
    var cfg := Config("both", 2.0, 1.0, None);
    assert Resolve(StrategySpec(Some("both"), Some(2.0), Some(1.0), None)) == cfg;
    assert TradeFor(cfg, candles[1]) == Some(Trade("t1", Long, 2.0, 1.0));
    assert TradeFor(cfg, candles[2]) == Some(Trade("t2", Short, 2.0, 1.0));
    assert Scan(candles, cfg, 1) == [];
    assert Scan(candles, cfg, 2) == [Trade("t1", Long, 2.0, 1.0)];
  }

  /** The statistics of those two trades: 2 trades, all won, 2 R each, equity 2 then 4. */
  lemma ThreeCandleStats()
    ensures StatsOf([Trade("t1", Long, 2.0, 1.0), Trade("t2", Short, 2.0, 1.0)])
      == Stats(2, 100.0, 2.0, [EquityPoint(0, 2.0), EquityPoint(1, 4.0)])
  {
    var ts := [Trade("t1", Long, 2.0, 1.0), Trade("t2", Short, 2.0, 1.0)];
    UniformStats(ts, 2.0);
    var curve := StatsOf(ts).equityCurve;
    assert curve[0] == EquityPoint(0, 2.0) && curve[1] == EquityPoint(1, 4.0);
    assert curve == [EquityPoint(0, 2.0), EquityPoint(1, 4.0)];
  }

  /** Under direction "long" a falling candle yields nothing, though "both" takes it short. */
  lemma LongIgnoresFallingCandle()
    ensures var candles := [Candle("t0", 1.0, 1.0, 1.0, 1.0), Candle("t1", 1.1, 1.1, 1.0, 1.0)];
      Generated(candles, StrategySpec(Some("long"), None, None, None)) == []
      && Generated(candles, StrategySpec(Some("both"), None, None, None)) == [Trade("t1", Short, 2.0, 1.0)]
  {
    var candles := [Candle("t0", 1.0, 1.0, 1.0, 1.0), Candle("t1", 1.1, 1.1, 1.0, 1.0)];
    var long, both := Resolve(StrategySpec(Some("long"), None, None, None)), Resolve(StrategySpec(Some("both"), None, None, None));
    assert long == Config("long", 2.0, 1.0, None) && both == Config("both", 2.0, 1.0, None);
    assert Scan(candles, long, 1) == [] && Scan(candles, both, 1) == [];
    assert TradeFor(long, candles[1]) == None;
    assert TradeFor(both, candles[1]) == Some(Trade("t1", Short, 2.0, 1.0));
  }
}
