// The placeholder metrics of src/lib/backtest.js: a fixed run of 80 trades at
// a 52% win rate, priced from the form's reward-to-risk and risk fields.

module LocalBacktest {
  import opened JsValues

  /**
    * The two form fields read, each the text of an `<input type="number">`:
    * `None` is the empty field, `Some(x)` the field holding the numeral of `x`
    * (truthy even for "0", being a non-empty string).
    */
  datatype Form = Form(rr: Option<real>, risk: Option<real>)

  datatype Summary = Summary(
    trades: int,
    wins: int,
    losses: int,
    winrate: real,
    avgRR: real,
    profitR: real,
    profitPct: real,
    profitFactor: real,
    maxDrawdown: real)

  datatype Meta = Meta(usedAiRules: bool)

  datatype LocalResult = LocalResult(summary: Summary, equityCurve: seq<real>, meta: Meta)

  const TradeCount: int := 80
  const WinRate: real := 0.52

  /** `form.x || d` on a form field: the empty field falls back to `d`. */
  function FieldOr(v: Option<real>, d: real): (r: real)
    ensures v.None? ==> r == d
    ensures v.Some? ==> r == v.value
  {
    if v.Some? then v.value else d
  }

  /** `runBacktestLocally(form, aiRules)`; `aiRules` is `null` (None) or the rules object. */
  function RunBacktestLocally<R>(form: Form, aiRules: Option<R>): (res: LocalResult)
    ensures res.summary.trades == 80 && res.summary.winrate == 0.52
    ensures res.summary.wins + res.summary.losses == res.summary.trades
    ensures res.summary.avgRR == (if form.rr.Some? then form.rr.value else 2.0)
    ensures res.summary.profitR == res.summary.wins as real * res.summary.avgRR - res.summary.losses as real
    ensures res.summary.profitPct == res.summary.profitR * (if form.risk.Some? then form.risk.value else 1.0)
    ensures -0.005 <= res.summary.profitFactor - 42.0 * res.summary.avgRR / 38.0 <= 0.005
    ensures res.summary.maxDrawdown <= 0.0
    ensures res.equityCurve == []
    ensures res.meta.usedAiRules <==> aiRules.Some?
  {
    var trades := TradeCount;
    var winrate := WinRate;
    var avgRR := FieldOr(form.rr, 2.0);
    var risk := FieldOr(form.risk, 1.0);

    assert trades as real * winrate == 41.6;
    var wins := MathRound(trades as real * winrate);
    assert wins == 42;
    var losses := trades - wins;
    var profitR := wins as real * avgRR - losses as real * 1.0;
    var profitPct := profitR * risk;

    var profitFactor := (wins as real * avgRR) / MathMax(losses, 1) as real;
    var maxDrawdown := -MathAbs(losses as real * risk * 0.5);

    assert profitFactor == 42.0 * avgRR / 38.0 by {
      assert MathMax(losses, 1) == 38;
    }
    var summary := Summary(
      trades, wins, losses, winrate, avgRR, profitR, profitPct,
      ToFixed2(profitFactor),
      ToFixed2(maxDrawdown));
    assert -0.005 <= summary.profitFactor - profitFactor <= 0.005;
    LocalResult(summary, [], Meta(aiRules.Some?))
  }

  /** Of the 80 trades, `Math.round(80 * 0.52)` = 42 win and 38 lose, whatever the form says. */
  lemma FixedTradeSplit<R>(form: Form, aiRules: Option<R>)
    ensures var summary := RunBacktestLocally(form, aiRules).summary;
      summary.wins == 42 && summary.losses == 38
  {
    assert MathRound(80.0 * 0.52) == 42;
  }

  /** Defaults: an empty form prices at rr 2 and risk 1, so 42 * 2 - 38 = 46 R, i.e. 46 percent. */
  lemma EmptyFormExample<R>(aiRules: Option<R>)
    ensures var summary := RunBacktestLocally(Form(None, None), aiRules).summary;
      summary.avgRR == 2.0 && summary.profitR == 46.0 && summary.profitPct == 46.0
      && summary.profitFactor == 2.21 && summary.maxDrawdown == -19.0
  {
    FixedTradeSplit(Form(None, None), aiRules);
    assert Hundredths(84.0 / 38.0) == 221;
    assert Hundredths(19.0) == 1900;
  }

  /** The drawdown is half the losses times the risk, in magnitude, rounded to hundredths. */
  lemma DrawdownMagnitude<R>(form: Form, aiRules: Option<R>)
    ensures var risk := if form.risk.Some? then form.risk.value else 1.0;
      var dd := RunBacktestLocally(form, aiRules).summary.maxDrawdown;
      -0.005 <= dd + MathAbs(19.0 * risk) <= 0.005
  {
    FixedTradeSplit(form, aiRules);
  }
}
