/** The rulebook of signal_rule_engine.py.

    Positions are pixel Y-coordinates: a smaller Y is higher on the chart.
 */
module SignalRules {
  import opened Options

  datatype Side = Above | Below
  datatype Signal = BUY | SELL
  datatype Divergence = Bearish | Bullish
  datatype Band = Band(U: real, M: real, L: real)

  datatype Frame = Frame(
    band1: Option<Band>,
    band2: Option<Band>,
    ma4: Option<real>,
    cci5: Option<real>,
    rsi6: Option<real>,
    priceClose: Option<real>,
    priceBand7: Option<Band>,
    priceBand8: Option<Band>
  )

  /** The encoded rules, in the order in which the engine tries them. */
  datatype Rule = BaseSell | BaseBuy | Uptrend2USell | Downtrend2LBuy | PriceFilterSell | PriceFilterBuy

  const RULES: seq<Rule> :=
    [BaseSell, BaseBuy, Uptrend2USell, Downtrend2LBuy, PriceFilterSell, PriceFilterBuy]

  datatype RuleName = InsufficientHistory | NoRuleMatched | Named(rule: Rule)

  /** The four truth values that a rule reports in its reason text. */
  datatype Conditions = Conditions(cond1: bool, cond2: bool, cond3: bool, cond4: bool) {
    predicate AllHold() { cond1 && cond2 && cond3 && cond4 }
  }

  datatype RuleResult = RuleResult(fired: bool, signal: Option<Signal>, name: RuleName, reason: Option<Conditions>)

  // ----- primitives -----

  /** A tie counts as below. */
  function SideOf(valueY: real, levelY: real): Side {
    if valueY < levelY then Above else Below
  }

  function Crossed(prevValue: real, prevLevel: real, curValue: real, curLevel: real): Option<Side> {
    var curSide := SideOf(curValue, curLevel);
    if SideOf(prevValue, prevLevel) == curSide then None else Some(curSide)
  }

  function Min(x: real, y: real): real { if y < x then y else x }

  function Max(x: real, y: real): real { if x < y then y else x }

  predicate IsBetween(valueY: real, lowY: real, highY: real) {
    Min(lowY, highY) <= valueY <= Max(lowY, highY)
  }

  function MinOf(ys: seq<real>): (m: real)
    requires ys != []
    ensures m in ys
    ensures forall y :: y in ys ==> m <= y
  {
    if |ys| == 1 then ys[0]
    else
      assert forall y :: y in ys ==> y == ys[0] || y in ys[1..];
      Min(ys[0], MinOf(ys[1..]))
  }

  function MaxOf(ys: seq<real>): (m: real)
    requires ys != []
    ensures m in ys
    ensures forall y :: y in ys ==> y <= m
  {
    if |ys| == 1 then ys[0]
    else
      assert forall y :: y in ys ==> y == ys[0] || y in ys[1..];
      Max(ys[0], MaxOf(ys[1..]))
  }

  predicate NewHigh(ys: seq<real>, mid: nat)
    requires 0 < mid < |ys|
  {
    MinOf(ys[mid..]) < MinOf(ys[..mid])
  }

  predicate NewLow(ys: seq<real>, mid: nat)
    requires 0 < mid < |ys|
  {
    MaxOf(ys[mid..]) > MaxOf(ys[..mid])
  }

  /** The later half of the price makes a higher high that the indicator does not confirm. */
  predicate UnconfirmedHigh(indicator: seq<real>, price: seq<real>) {
    4 <= |price| == |indicator| &&
    NewHigh(price, |price| / 2) && !NewHigh(indicator, |price| / 2)
  }

  /** The later half of the price makes a lower low that the indicator does not confirm. */
  predicate UnconfirmedLow(indicator: seq<real>, price: seq<real>) {
    4 <= |price| == |indicator| &&
    NewLow(price, |price| / 2) && !NewLow(indicator, |price| / 2)
  }

  /** The bearish test comes first. */
  function DivergenceOf(indicator: seq<real>, price: seq<real>): Option<Divergence> {
    if |price| < 4 || |indicator| != |price| then None
    else if UnconfirmedHigh(indicator, price) then Some(Bearish)
    else if UnconfirmedLow(indicator, price) then Some(Bullish)
    else None
  }

  // ----- the divergence window -----

  /** Python's `history[-n:]`: the last n frames, but everything when n is 0,
      and everything after the first -n frames when n is negative. */
  function Tail<T>(s: seq<T>, n: int): seq<T> {
    if n > 0 then (if |s| <= n then s else s[|s| - n..])
    else if -n <= |s| then s[-n..] else []
  }

  /** The candle closes of the frames that have one. */
  function Prices(h: seq<Frame>): seq<real> {
    if h == [] then []
    else (if h[0].priceClose.Some? then [h[0].priceClose.value] else []) + Prices(h[1..])
  }

  /** The #5 readings of the frames that have one. */
  function Ccis(h: seq<Frame>): seq<real> {
    if h == [] then []
    else (if h[0].cci5.Some? then [h[0].cci5.value] else []) + Ccis(h[1..])
  }

  lemma {:induction false} AtMostOnePerFrame(h: seq<Frame>)
    ensures |Prices(h)| <= |h|
  {
    if h != [] {
      AtMostOnePerFrame(h[1..]);
    }
  }

  function WindowDivergence(lookback: int, h: seq<Frame>): Option<Divergence> {
    var w := Tail(h, lookback);
    if |Prices(w)| == |Ccis(w)| then DivergenceOf(Ccis(w), Prices(w)) else None
  }

  // ----- the rules -----

  predicate HasBands(f: Frame) {
    f.band1.Some? && f.band2.Some?
  }

  /** The readings that every rule subscripts. */
  predicate BandsRead(prev: Frame, cur: Frame) {
    HasBands(prev) && HasBands(cur)
  }

  /** The readings that a rule needs once its crossing happened. */
  predicate LinesRead(prev: Frame, cur: Frame) {
    prev.rsi6.Some? && cur.rsi6.Some? && cur.ma4.Some?
  }

  predicate Complete(prev: Frame, cur: Frame) {
    BandsRead(prev, cur) && LinesRead(prev, cur)
  }

  /** A history on which no rule can meet a missing reading. */
  predicate Evaluable(h: seq<Frame>) {
    |h| < 2 || Complete(h[|h| - 2], h[|h| - 1])
  }

  /** The first condition of a rule: its crossing of band 2 through band 1. */
  predicate Crossing(rule: Rule, prev: Frame, cur: Frame)
    requires BandsRead(prev, cur)
  {
    var (b1, b2) := (cur.band1.value, cur.band2.value);
    var (pb1, pb2) := (prev.band1.value, prev.band2.value);
    match rule
    case BaseSell => Crossed(pb2.M, pb1.U, b2.M, b1.U) == Some(Above)
    case BaseBuy => Crossed(pb2.M, pb1.L, b2.M, b1.L) == Some(Below)
    case Uptrend2USell => Crossed(pb2.U, pb1.U, b2.U, b1.U) == Some(Above)
    case Downtrend2LBuy => Crossed(pb2.L, pb1.L, b2.L, b1.L) == Some(Below)
    case PriceFilterSell => Crossed(pb2.M, pb1.M, b2.M, b1.M) == Some(Below)
    case PriceFilterBuy => Crossed(pb2.M, pb1.M, b2.M, b1.M) == Some(Above)
  }

  /** The price closed above the upper lines of both #7 and #8. */
  predicate PriceOutsideUp(cur: Frame) {
    cur.priceBand7.Some? && cur.priceBand8.Some? && cur.priceClose.Some? &&
    cur.priceClose.value < Min(cur.priceBand7.value.U, cur.priceBand8.value.U)
  }

  /** The price closed below the lower lines of both #7 and #8. */
  predicate PriceOutsideDown(cur: Frame) {
    cur.priceBand7.Some? && cur.priceBand8.Some? && cur.priceClose.Some? &&
    cur.priceClose.value > Max(cur.priceBand7.value.L, cur.priceBand8.value.L)
  }

  /** The four conditions of a rule, given the divergence of the window. */
  function ConditionsGiven(rule: Rule, divergence: Option<Divergence>, prev: Frame, cur: Frame): Conditions
    requires Complete(prev, cur)
  {
    var (b1, pb1) := (cur.band1.value, prev.band1.value);
    var (ma4, rsi6, prsi6) := (cur.ma4.value, cur.rsi6.value, prev.rsi6.value);
    match rule
    case BaseSell => Conditions(
        Crossing(rule, prev, cur),
        IsBetween(ma4, b1.M, b1.U) || SideOf(ma4, b1.U) == Above,
        Crossed(prsi6, pb1.U, rsi6, b1.U) == Some(Above) || SideOf(rsi6, b1.U) == Above,
        divergence == Some(Bearish))
    case BaseBuy => Conditions(
        Crossing(rule, prev, cur),
        IsBetween(ma4, b1.M, b1.L) || SideOf(ma4, b1.L) == Below,
        Crossed(prsi6, pb1.L, rsi6, b1.L) == Some(Below) || SideOf(rsi6, b1.L) == Below,
        divergence == Some(Bullish))
    case Uptrend2USell => Conditions(
        Crossing(rule, prev, cur),
        IsBetween(ma4, b1.M, b1.U) || SideOf(ma4, b1.U) == Above,
        Crossed(prsi6, pb1.U, rsi6, b1.U) == Some(Above),
        divergence == Some(Bearish))
    case Downtrend2LBuy => Conditions(
        Crossing(rule, prev, cur),
        IsBetween(ma4, b1.M, b1.L) || SideOf(ma4, b1.L) == Below,
        Crossed(prsi6, pb1.L, rsi6, b1.L) == Some(Below),
        divergence == Some(Bullish))
    case PriceFilterSell => Conditions(
        Crossing(rule, prev, cur),
        IsBetween(ma4, b1.M, b1.U) || IsBetween(ma4, b1.M, b1.L),
        Crossed(prsi6, pb1.U, rsi6, b1.U) == Some(Above),
        PriceOutsideUp(cur))
    case PriceFilterBuy => Conditions(
        Crossing(rule, prev, cur),
        IsBetween(ma4, b1.M, b1.U) || IsBetween(ma4, b1.M, b1.L),
        Crossed(prsi6, pb1.L, rsi6, b1.L) == Some(Below),
        PriceOutsideDown(cur))
  }

  function ConditionsOf(rule: Rule, lookback: int, prev: Frame, cur: Frame, h: seq<Frame>): Conditions
    requires Complete(prev, cur)
  {
    ConditionsGiven(rule, WindowDivergence(lookback, h), prev, cur)
  }

  function Direction(rule: Rule): Signal {
    match rule
    case BaseSell | Uptrend2USell | PriceFilterSell => SELL
    case BaseBuy | Downtrend2LBuy | PriceFilterBuy => BUY
  }

  /** A rule gives no result at all when its crossing did not happen. */
  function RunRule(rule: Rule, lookback: int, prev: Frame, cur: Frame, h: seq<Frame>): Option<RuleResult>
    requires Complete(prev, cur)
  {
    var c := ConditionsOf(rule, lookback, prev, cur, h);
    if !c.cond1 then None
    else Some(RuleResult(c.AllHold(), if c.AllHold() then Some(Direction(rule)) else None, Named(rule), Some(c)))
  }

  function FirstFired(rules: seq<Rule>, lookback: int, prev: Frame, cur: Frame, h: seq<Frame>): RuleResult
    requires Complete(prev, cur)
  {
    if rules == [] then RuleResult(false, None, NoRuleMatched, None)
    else
      var r := RunRule(rules[0], lookback, prev, cur, h);
      if r.Some? && r.value.fired then r.value else FirstFired(rules[1..], lookback, prev, cur, h)
  }

  function Evaluate(lookback: int, h: seq<Frame>): RuleResult
    requires Evaluable(h)
  {
    if |h| < 2 then RuleResult(false, None, InsufficientHistory, None)
    else FirstFired(RULES, lookback, h[|h| - 2], h[|h| - 1], h)
  }

  // ----- missing readings -----

  datatype Attempt = NoResult | Result(result: RuleResult) | Raised

  /** A rule on frames that may lack readings: subscripting a missing band, or comparing a missing
      line after the crossing, raises. */
  function TryRule(rule: Rule, lookback: int, prev: Frame, cur: Frame, h: seq<Frame>): Attempt {
    if !BandsRead(prev, cur) then Raised
    else if !Crossing(rule, prev, cur) then NoResult
    else if !LinesRead(prev, cur) then Raised
    else
      var r := RunRule(rule, lookback, prev, cur, h);
      if r.Some? then Result(r.value) else NoResult
  }

  function TryRules(rules: seq<Rule>, lookback: int, prev: Frame, cur: Frame, h: seq<Frame>): Attempt {
    if rules == [] then Result(RuleResult(false, None, NoRuleMatched, None))
    else
      var r := TryRule(rules[0], lookback, prev, cur, h);
      if r.Raised? || (r.Result? && r.result.fired) then r else TryRules(rules[1..], lookback, prev, cur, h)
  }

  /** `evaluate` on any history. */
  function TryEvaluate(lookback: int, h: seq<Frame>): Attempt {
    if |h| < 2 then Result(RuleResult(false, None, InsufficientHistory, None))
    else TryRules(RULES, lookback, h[|h| - 2], h[|h| - 1], h)
  }

  lemma {:induction false} TryRulesComplete(rules: seq<Rule>, lookback: int, prev: Frame, cur: Frame, h: seq<Frame>)
    requires Complete(prev, cur)
    ensures TryRules(rules, lookback, prev, cur, h) == Result(FirstFired(rules, lookback, prev, cur, h))
  {
    if rules != [] {
      TryRulesComplete(rules[1..], lookback, prev, cur, h);
    }
  }

  lemma {:induction false} TryRulesWithoutLines(rules: seq<Rule>, lookback: int, prev: Frame, cur: Frame, h: seq<Frame>)
    requires BandsRead(prev, cur) && !LinesRead(prev, cur)
    ensures TryRules(rules, lookback, prev, cur, h) ==
      if exists rule :: rule in rules && Crossing(rule, prev, cur) then Raised
      else Result(RuleResult(false, None, NoRuleMatched, None))
  {
    if rules != [] {
      TryRulesWithoutLines(rules[1..], lookback, prev, cur, h);
      assert rules[0] in rules;
      assert forall rule :: rule in rules <==> rule == rules[0] || rule in rules[1..];
    }
  }

  /** What `evaluate` does on every history. It raises exactly when one of the last two frames lacks
      a band, or when #4 or #6 is missing and some rule's crossing happened. */
  lemma TryEvaluateExactly(lookback: int, h: seq<Frame>)
    ensures Evaluable(h) ==> TryEvaluate(lookback, h) == Result(Evaluate(lookback, h))
    ensures !Evaluable(h) ==>
      var (prev, cur) := (h[|h| - 2], h[|h| - 1]);
      TryEvaluate(lookback, h) ==
        if !BandsRead(prev, cur) || exists rule: Rule :: Crossing(rule, prev, cur) then Raised
        else Result(RuleResult(false, None, NoRuleMatched, None))
  {
    if 2 <= |h| {
      var (prev, cur) := (h[|h| - 2], h[|h| - 1]);
      if Complete(prev, cur) {
        TryRulesComplete(RULES, lookback, prev, cur, h);
      } else if BandsRead(prev, cur) {
        TryRulesWithoutLines(RULES, lookback, prev, cur, h);
        forall rule: Rule
          ensures rule in RULES
        {
          EveryRuleListed(rule);
        }
      }
    }
  }

  /** Whether a rule fires on the newest frame of a history. */
  predicate Fires(rule: Rule, lookback: int, h: seq<Frame>)
    requires 2 <= |h| && Evaluable(h)
  {
    ConditionsOf(rule, lookback, h[|h| - 2], h[|h| - 1], h).AllHold()
  }

  lemma FiresGiven(rule: Rule, lookback: int, h: seq<Frame>, divergence: Option<Divergence>, prev: Frame, cur: Frame)
    requires 2 <= |h| && h[|h| - 2] == prev && h[|h| - 1] == cur && Complete(prev, cur)
    requires WindowDivergence(lookback, h) == divergence
    ensures Fires(rule, lookback, h) <==> ConditionsGiven(rule, divergence, prev, cur).AllHold()
  {
  }

  lemma EveryRuleListed(rule: Rule)
    ensures rule in RULES
  {
    assert RULES[0] == BaseSell && RULES[1] == BaseBuy && RULES[2] == Uptrend2USell;
    assert RULES[3] == Downtrend2LBuy && RULES[4] == PriceFilterSell && RULES[5] == PriceFilterBuy;
  }

  /** What a first-match list of rules answers: the result belongs to the first
      rule of the list that fires, and there is none exactly when no rule fires. */
  lemma {:induction false} FirstFiredIsFirst(rules: seq<Rule>, lookback: int, h: seq<Frame>)
    requires 2 <= |h| && Evaluable(h)
    ensures var r := FirstFired(rules, lookback, h[|h| - 2], h[|h| - 1], h);
      if exists rule :: rule in rules && Fires(rule, lookback, h)
      then exists i :: 0 <= i < |rules| && Fires(rules[i], lookback, h) &&
             (forall j :: 0 <= j < i ==> !Fires(rules[j], lookback, h)) &&
             r == RuleResult(true, Some(Direction(rules[i])), Named(rules[i]), Some(Conditions(true, true, true, true)))
      else r == RuleResult(false, None, NoRuleMatched, None)
  {
    if rules != [] && !Fires(rules[0], lookback, h) {
      var rest := rules[1..];
      FirstFiredIsFirst(rest, lookback, h);
      if exists rule :: rule in rest && Fires(rule, lookback, h) {
        var i :| 0 <= i < |rest| && Fires(rest[i], lookback, h) &&
          (forall j :: 0 <= j < i ==> !Fires(rest[j], lookback, h)) &&
          FirstFired(rest, lookback, h[|h| - 2], h[|h| - 1], h) ==
          RuleResult(true, Some(Direction(rest[i])), Named(rest[i]), Some(Conditions(true, true, true, true)));
        assert Fires(rules[i + 1], lookback, h);
        forall j | 0 <= j < i + 1
          ensures !Fires(rules[j], lookback, h)
        {
          assert j > 0 ==> rules[j] == rest[j - 1];
        }
      } else {
        assert forall rule :: rule in rules ==> rule == rules[0] || rule in rest;
      }
    } else if rules != [] {
      assert Fires(rules[0], lookback, h);
    }
  }
}
