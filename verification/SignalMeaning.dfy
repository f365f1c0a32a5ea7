/** What the rulebook means: readings, divergence and the six rules as inequalities, and the signal that
    follows from them. */
module SignalMeaning {
  import opened MirrorTheorem
  import opened Options
  import opened SignalRules

  // ----- divergence -----

  /** Some later reading is higher on the chart than all earlier ones. */
  lemma NewHighMeans(ys: seq<real>, mid: nat)
    requires 0 < mid < |ys|
    ensures NewHigh(ys, mid) <==>
      exists j :: mid <= j < |ys| && forall i :: 0 <= i < mid ==> ys[j] < ys[i]
  {
    var (early, late) := (ys[..mid], ys[mid..]);
    var l :| 0 <= l < |late| && late[l] == MinOf(late);
    assert ys[mid + l] == MinOf(late);
    forall i | 0 <= i < mid
      ensures MinOf(early) <= ys[i]
    {
      assert early[i] in early;
    }
    forall j | mid <= j < |ys|
      ensures MinOf(late) <= ys[j]
    {
      assert late[j - mid] in late;
    }
    var e :| 0 <= e < |early| && early[e] == MinOf(early);
    assert ys[e] == MinOf(early);
  }

  /** Some later reading is lower on the chart than all earlier ones. */
  lemma NewLowMeans(ys: seq<real>, mid: nat)
    requires 0 < mid < |ys|
    ensures NewLow(ys, mid) <==>
      exists j :: mid <= j < |ys| && forall i :: 0 <= i < mid ==> ys[j] > ys[i]
  {
    var (early, late) := (ys[..mid], ys[mid..]);
    var l :| 0 <= l < |late| && late[l] == MaxOf(late);
    assert ys[mid + l] == MaxOf(late);
    forall i | 0 <= i < mid
      ensures MaxOf(early) >= ys[i]
    {
      assert early[i] in early;
    }
    forall j | mid <= j < |ys|
      ensures MaxOf(late) >= ys[j]
    {
      assert late[j - mid] in late;
    }
    var e :| 0 <= e < |early| && early[e] == MaxOf(early);
    assert ys[e] == MaxOf(early);
  }

  /** Some reading of the later half is higher on the chart than the whole earlier half. */
  ghost predicate MakesHigh(ys: seq<real>) {
    exists j :: |ys| / 2 <= j < |ys| && forall i :: 0 <= i < |ys| / 2 ==> ys[j] < ys[i]
  }

  ghost predicate MakesLow(ys: seq<real>) {
    exists j :: |ys| / 2 <= j < |ys| && forall i :: 0 <= i < |ys| / 2 ==> ys[j] > ys[i]
  }

  /** The divergence of two series, over their two halves. */
  ghost function PlainDivergence(indicator: seq<real>, price: seq<real>): Option<Divergence> {
    if |price| < 4 || |indicator| != |price| then None
    else if MakesHigh(price) && !MakesHigh(indicator) then Some(Bearish)
    else if MakesLow(price) && !MakesLow(indicator) then Some(Bullish)
    else None
  }

  lemma DivergenceInPlainTerms(indicator: seq<real>, price: seq<real>)
    ensures DivergenceOf(indicator, price) == PlainDivergence(indicator, price)
  {
    if 4 <= |price| == |indicator| {
      NewHighMeans(price, |price| / 2);
      NewHighMeans(indicator, |price| / 2);
      NewLowMeans(price, |price| / 2);
      NewLowMeans(indicator, |price| / 2);
    }
  }

  // ----- the window -----

  function One(y: Option<real>): seq<real> {
    match y case Some(v) => [v] case None => []
  }

  lemma Associate(x: seq<real>, y: seq<real>, z: seq<real>)
    ensures x + (y + z) == (x + y) + z
  {
  }

  lemma {:induction false} PriceIsAppended(h: seq<Frame>, f: Frame)
    ensures Prices([]) == [] && Prices(h + [f]) == Prices(h) + One(f.priceClose)
  {
    var all := h + [f];
    if h == [] {
      assert all == [f] && [f][1..] == [];
    } else {
      PriceIsAppended(h[1..], f);
      assert all[0] == h[0] && all[1..] == h[1..] + [f];
      Associate(One(h[0].priceClose), Prices(h[1..]), One(f.priceClose));
    }
  }

  lemma {:induction false} CciIsAppended(h: seq<Frame>, f: Frame)
    ensures Ccis([]) == [] && Ccis(h + [f]) == Ccis(h) + One(f.cci5)
  {
    var all := h + [f];
    if h == [] {
      assert all == [f] && [f][1..] == [];
    } else {
      CciIsAppended(h[1..], f);
      assert all[0] == h[0] && all[1..] == h[1..] + [f];
      Associate(One(h[0].cci5), Ccis(h[1..]), One(f.cci5));
    }
  }

  /** The newest frame adds its readings, where it has them, at the end. */
  lemma ReadingsAreAppended(h: seq<Frame>, f: Frame)
    ensures Prices([]) == [] && Prices(h + [f]) == Prices(h) + One(f.priceClose)
    ensures Ccis([]) == [] && Ccis(h + [f]) == Ccis(h) + One(f.cci5)
  {
    PriceIsAppended(h, f);
    CciIsAppended(h, f);
  }

  /** Which frames a lookback reads. */
  lemma WindowIs(lookback: int, h: seq<Frame>)
    ensures 0 < lookback <= |h| ==> |Tail(h, lookback)| == lookback && Tail(h, lookback) == h[|h| - lookback..]
    ensures |h| < lookback || lookback == 0 ==> Tail(h, lookback) == h
    ensures -|h| <= lookback < 0 ==> Tail(h, lookback) == h[-lookback..]
    ensures lookback < -|h| ==> Tail(h, lookback) == []
  {
  }

  /** The divergence that the rules see. */
  ghost function SeenDivergence(lookback: int, h: seq<Frame>): Option<Divergence> {
    PlainDivergence(Ccis(Tail(h, lookback)), Prices(Tail(h, lookback)))
  }

  lemma WindowInPlainTerms(lookback: int, h: seq<Frame>)
    ensures WindowDivergence(lookback, h) == SeenDivergence(lookback, h)
  {
    DivergenceInPlainTerms(Ccis(Tail(h, lookback)), Prices(Tail(h, lookback)));
  }

  // ----- the rules -----

  /** A line that was at or below its level and is now above it. */
  predicate RoseThrough(pv: real, pl: real, cv: real, cl: real) {
    pv >= pl && cv < cl
  }

  /** A line that was above its level and is now at or below it. */
  predicate FellThrough(pv: real, pl: real, cv: real, cl: real) {
    pv < pl && cv >= cl
  }

  /** At or above one of two lines. */
  predicate NotUnder(y: real, line1: real, line2: real) { y <= line1 || y <= line2 }

  predicate NotOver(y: real, line1: real, line2: real) { y >= line1 || y >= line2 }

  /** Neither above all lines of a band nor below all. */
  predicate WithinBand(y: real, b: Band) {
    (y <= b.U || y <= b.M || y <= b.L) && (y >= b.U || y >= b.M || y >= b.L)
  }

  /** The closing price is above the upper lines of both price bands. */
  predicate ClosedAbove(cur: Frame) {
    cur.priceClose.Some? && cur.priceBand7.Some? && cur.priceBand8.Some? &&
    cur.priceClose.value < cur.priceBand7.value.U && cur.priceClose.value < cur.priceBand8.value.U
  }

  predicate ClosedBelow(cur: Frame) {
    cur.priceClose.Some? && cur.priceBand7.Some? && cur.priceBand8.Some? &&
    cur.priceClose.value > cur.priceBand7.value.L && cur.priceClose.value > cur.priceBand8.value.L
  }

  /** The four conditions of each rule as inequalities, whichever way up band 1 is. */
  function PlainConditions(rule: Rule, divergence: Option<Divergence>, prev: Frame, cur: Frame): Conditions
    requires Complete(prev, cur)
  {
    var (b1, b2) := (cur.band1.value, cur.band2.value);
    var (pb1, pb2) := (prev.band1.value, prev.band2.value);
    var (ma4, rsi6, prsi6) := (cur.ma4.value, cur.rsi6.value, prev.rsi6.value);
    match rule
    case BaseSell => Conditions(
        RoseThrough(pb2.M, pb1.U, b2.M, b1.U), NotUnder(ma4, b1.U, b1.M), rsi6 < b1.U, divergence == Some(Bearish))
    case BaseBuy => Conditions(
        FellThrough(pb2.M, pb1.L, b2.M, b1.L), NotOver(ma4, b1.L, b1.M), rsi6 >= b1.L, divergence == Some(Bullish))
    case Uptrend2USell => Conditions(
        RoseThrough(pb2.U, pb1.U, b2.U, b1.U), NotUnder(ma4, b1.U, b1.M),
        RoseThrough(prsi6, pb1.U, rsi6, b1.U), divergence == Some(Bearish))
    case Downtrend2LBuy => Conditions(
        FellThrough(pb2.L, pb1.L, b2.L, b1.L), NotOver(ma4, b1.L, b1.M),
        FellThrough(prsi6, pb1.L, rsi6, b1.L), divergence == Some(Bullish))
    case PriceFilterSell => Conditions(
        FellThrough(pb2.M, pb1.M, b2.M, b1.M), WithinBand(ma4, b1),
        RoseThrough(prsi6, pb1.U, rsi6, b1.U), ClosedAbove(cur))
    case PriceFilterBuy => Conditions(
        RoseThrough(pb2.M, pb1.M, b2.M, b1.M), WithinBand(ma4, b1),
        FellThrough(prsi6, pb1.L, rsi6, b1.L), ClosedBelow(cur))
  }

  /** Every condition of every rule is its inequality. In particular the crossing that the base rules ask
      of #6 adds nothing to its position. */
  lemma RulesInPlainTerms(rule: Rule, divergence: Option<Divergence>, prev: Frame, cur: Frame)
    requires Complete(prev, cur)
    ensures ConditionsGiven(rule, divergence, prev, cur) == PlainConditions(rule, divergence, prev, cur)
  {
  }

  // ----- the signal -----

  ghost predicate PlainFires(rule: Rule, lookback: int, h: seq<Frame>)
    requires 2 <= |h| && Evaluable(h)
  {
    PlainConditions(rule, SeenDivergence(lookback, h), h[|h| - 2], h[|h| - 1]).AllHold()
  }

  lemma FiresInPlainTerms(rule: Rule, lookback: int, h: seq<Frame>)
    requires 2 <= |h| && Evaluable(h)
    ensures Fires(rule, lookback, h) <==> PlainFires(rule, lookback, h)
  {
    WindowInPlainTerms(lookback, h);
    RulesInPlainTerms(rule, WindowDivergence(lookback, h), h[|h| - 2], h[|h| - 1]);
    FiresGiven(rule, lookback, h, WindowDivergence(lookback, h), h[|h| - 2], h[|h| - 1]);
  }

  ghost function PlainFiring(lookback: int, h: seq<Frame>): Firing
    requires 2 <= |h| && Evaluable(h)
  {
    Firing(PlainFires(BaseSell, lookback, h), PlainFires(BaseBuy, lookback, h),
           PlainFires(Uptrend2USell, lookback, h), PlainFires(Downtrend2LBuy, lookback, h),
           PlainFires(PriceFilterSell, lookback, h), PlainFires(PriceFilterBuy, lookback, h))
  }

  lemma PlainFiringIs(lookback: int, h: seq<Frame>)
    requires 2 <= |h| && Evaluable(h)
    ensures FiringOf(lookback, h) == PlainFiring(lookback, h)
  {
    var (f, g) := (FiringOf(lookback, h), PlainFiring(lookback, h));
    assert f.baseSell == g.baseSell by {
      FiresInPlainTerms(BaseSell, lookback, h);
    }
    assert f.baseBuy == g.baseBuy by {
      FiresInPlainTerms(BaseBuy, lookback, h);
    }
    assert f.upSell == g.upSell by {
      FiresInPlainTerms(Uptrend2USell, lookback, h);
    }
    assert f.downBuy == g.downBuy by {
      FiresInPlainTerms(Downtrend2LBuy, lookback, h);
    }
    assert f.priceSell == g.priceSell by {
      FiresInPlainTerms(PriceFilterSell, lookback, h);
    }
    assert f.priceBuy == g.priceBuy by {
      FiresInPlainTerms(PriceFilterBuy, lookback, h);
    }
  }

  /** The first of the six rules in their order, and the signal of each. */
  function PlainAnswer(f: Firing): (Option<Signal>, RuleName) {
    if f.baseSell then (Some(SELL), Named(BaseSell))
    else if f.baseBuy then (Some(BUY), Named(BaseBuy))
    else if f.upSell then (Some(SELL), Named(Uptrend2USell))
    else if f.downBuy then (Some(BUY), Named(Downtrend2LBuy))
    else if f.priceSell then (Some(SELL), Named(PriceFilterSell))
    else if f.priceBuy then (Some(BUY), Named(PriceFilterBuy))
    else (None, NoRuleMatched)
  }

  lemma RankedAnswer(f: Firing)
    ensures (Ranked(f).signal, Ranked(f).name) == PlainAnswer(f)
    ensures Ranked(f).fired <==> Ranked(f).signal.Some?
  {
  }

  /** What the engine answers, told by the readings: the first rule whose inequalities hold, and its
      signal. */
  lemma EvaluateInPlainTerms(lookback: int, h: seq<Frame>)
    requires 2 <= |h| && Evaluable(h)
    ensures var r := Evaluate(lookback, h);
      (r.signal, r.name) == PlainAnswer(PlainFiring(lookback, h)) && (r.fired <==> r.signal.Some?)
  {
    EvaluateIsRanked(lookback, h);
    PlainFiringIs(lookback, h);
    RankedAnswer(FiringOf(lookback, h));
  }

  lemma SignalOf(f: Firing)
    requires !((f.baseSell || f.upSell || f.priceSell) && (f.baseBuy || f.downBuy || f.priceBuy))
    ensures PlainAnswer(f).0 == Some(SELL) <==> f.baseSell || f.upSell || f.priceSell
    ensures PlainAnswer(f).0 == Some(BUY) <==> f.baseBuy || f.downBuy || f.priceBuy
  {
  }

  lemma SidesOfSix(rule: Rule, divergence: Option<Divergence>, prev: Frame, cur: Frame)
    requires Complete(prev, cur) && PlainConditions(rule, divergence, prev, cur).AllHold()
    ensures rule == BaseSell || rule == Uptrend2USell || rule == PriceFilterSell ==> cur.rsi6.value < cur.band1.value.U
    ensures rule == BaseBuy || rule == Downtrend2LBuy || rule == PriceFilterBuy ==> cur.rsi6.value >= cur.band1.value.L
  {
  }

  /** With the newest band 1 the right way up, SELL is answered exactly when the inequalities of a SELL
      rule hold, and then #6 is above 1U; BUY exactly when those of a BUY rule hold, and then #6 is at or
      below 1L. */
  lemma SignalInPlainTerms(lookback: int, h: seq<Frame>)
    requires 2 <= |h| && Evaluable(h)
    requires h[|h| - 1].band1.value.U <= h[|h| - 1].band1.value.L
    ensures Evaluate(lookback, h).signal == Some(SELL) <==>
      PlainFires(BaseSell, lookback, h) || PlainFires(Uptrend2USell, lookback, h) ||
      PlainFires(PriceFilterSell, lookback, h)
    ensures Evaluate(lookback, h).signal == Some(BUY) <==>
      PlainFires(BaseBuy, lookback, h) || PlainFires(Downtrend2LBuy, lookback, h) ||
      PlainFires(PriceFilterBuy, lookback, h)
    ensures Evaluate(lookback, h).signal == Some(SELL) ==> h[|h| - 1].rsi6.value < h[|h| - 1].band1.value.U
    ensures Evaluate(lookback, h).signal == Some(BUY) ==> h[|h| - 1].rsi6.value >= h[|h| - 1].band1.value.L
  {
    var (d, prev, cur) := (SeenDivergence(lookback, h), h[|h| - 2], h[|h| - 1]);
    forall rule: Rule | PlainFires(rule, lookback, h)
      ensures rule == BaseSell || rule == Uptrend2USell || rule == PriceFilterSell ==>
        cur.rsi6.value < cur.band1.value.U
      ensures rule == BaseBuy || rule == Downtrend2LBuy || rule == PriceFilterBuy ==>
        cur.rsi6.value >= cur.band1.value.L
    {
      SidesOfSix(rule, d, prev, cur);
    }
    EvaluateInPlainTerms(lookback, h);
    SignalOf(PlainFiring(lookback, h));
  }
}
