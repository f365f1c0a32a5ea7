/** BUY and SELL in the mirror: what the rulebook answers on a chart turned upside down. */
module MirrorTheorem {
  import opened Options
  import opened SignalRules
  import opened SignalTheorems

  // ----- the mirror -----

  function Flip(side: Side): Side { if side == Above then Below else Above }

  function MirrorBand(b: Band): Band { Band(-b.L, -b.M, -b.U) }

  /** Turns the chart upside down. */
  function Mirror(fr: Frame): Frame {
    Frame(
      MapOpt(MirrorBand, fr.band1), MapOpt(MirrorBand, fr.band2),
      MapOpt(Negate, fr.ma4), MapOpt(Negate, fr.cci5), MapOpt(Negate, fr.rsi6),
      MapOpt(Negate, fr.priceClose),
      MapOpt(MirrorBand, fr.priceBand7), MapOpt(MirrorBand, fr.priceBand8))
  }

  function Negate(y: real): real { -y }

  function MirrorRule(rule: Rule): Rule {
    match rule
    case BaseSell => BaseBuy
    case BaseBuy => BaseSell
    case Uptrend2USell => Downtrend2LBuy
    case Downtrend2LBuy => Uptrend2USell
    case PriceFilterSell => PriceFilterBuy
    case PriceFilterBuy => PriceFilterSell
  }

  function Opposite(s: Signal): Signal { if s == BUY then SELL else BUY }

  function MirrorResult(r: RuleResult): RuleResult {
    var name := if r.name.Named? then Named(MirrorRule(r.name.rule)) else r.name;
    RuleResult(r.fired, MapOpt(Opposite, r.signal), name, r.reason)
  }

  lemma MinOfNegated(ys: seq<real>)
    requires ys != []
    ensures MinOf(MapSeq(Negate, ys)) == -MaxOf(ys)
    ensures MaxOf(MapSeq(Negate, ys)) == -MinOf(ys)
  {
    var zs := MapSeq(Negate, ys);
    var i :| 0 <= i < |ys| && ys[i] == MaxOf(ys);
    var j :| 0 <= j < |zs| && zs[j] == MinOf(zs);
    assert zs[i] in zs && ys[j] in ys;
    var k :| 0 <= k < |ys| && ys[k] == MinOf(ys);
    var l :| 0 <= l < |zs| && zs[l] == MaxOf(zs);
    assert zs[k] in zs && ys[l] in ys;
  }

  lemma NewExtremesNegated(ys: seq<real>, mid: nat)
    requires 0 < mid < |ys|
    ensures NewHigh(MapSeq(Negate, ys), mid) == NewLow(ys, mid)
    ensures NewLow(MapSeq(Negate, ys), mid) == NewHigh(ys, mid)
  {
    assert MapSeq(Negate, ys)[mid..] == MapSeq(Negate, ys[mid..]);
    assert MapSeq(Negate, ys)[..mid] == MapSeq(Negate, ys[..mid]);
    MinOfNegated(ys[mid..]);
    MinOfNegated(ys[..mid]);
  }

  /** A side flips in the mirror exactly when there is no tie. */
  lemma SideOfMirrored(value: real, level: real)
    ensures SideOf(-value, -level) == Flip(SideOf(value, level)) <==> value != level
  {
  }

  /** A crossing flips in the mirror exactly when it ties at both ends or at neither. */
  lemma CrossedMirrored(pv: real, pl: real, cv: real, cl: real)
    ensures Crossed(-pv, -pl, -cv, -cl) == MapOpt(Flip, Crossed(pv, pl, cv, cl)) <==> ((pv == pl) <==> (cv == cl))
  {
  }

  lemma UnconfirmedMirrored(indicator: seq<real>, price: seq<real>)
    ensures UnconfirmedHigh(MapSeq(Negate, indicator), MapSeq(Negate, price)) == UnconfirmedLow(indicator, price)
    ensures UnconfirmedLow(MapSeq(Negate, indicator), MapSeq(Negate, price)) == UnconfirmedHigh(indicator, price)
  {
    if 4 <= |price| == |indicator| {
      NewExtremesNegated(price, |price| / 2);
      NewExtremesNegated(indicator, |price| / 2);
    }
  }

  function FlipDivergence(d: Divergence): Divergence { if d == Bearish then Bullish else Bearish }

  lemma DivergenceByExtremes(indicator: seq<real>, price: seq<real>)
    ensures DivergenceOf(indicator, price) ==
      if UnconfirmedHigh(indicator, price) then Some(Bearish)
      else if UnconfirmedLow(indicator, price) then Some(Bullish)
      else None
  {
  }

  /** A divergence flips in the mirror exactly when the window is not unconfirmed at both extremes. */
  lemma DivergenceMirrored(indicator: seq<real>, price: seq<real>)
    ensures UnconfirmedHigh(MapSeq(Negate, indicator), MapSeq(Negate, price)) == UnconfirmedLow(indicator, price)
    ensures UnconfirmedLow(MapSeq(Negate, indicator), MapSeq(Negate, price)) == UnconfirmedHigh(indicator, price)
    ensures DivergenceOf(MapSeq(Negate, indicator), MapSeq(Negate, price)) ==
            MapOpt(FlipDivergence, DivergenceOf(indicator, price))
            <==> !(UnconfirmedHigh(indicator, price) && UnconfirmedLow(indicator, price))
  {
    UnconfirmedMirrored(indicator, price);
    DivergenceByExtremes(indicator, price);
    DivergenceByExtremes(MapSeq(Negate, indicator), MapSeq(Negate, price));
  }

  /** An upward crossing that starts or ends exactly on its level is read differently in the mirror. */
  predicate TouchesGoingUp(pv: real, pl: real, cv: real, cl: real) {
    (pv == pl && cv < cl) || (pv > pl && cv == cl)
  }

  predicate TouchesGoingDown(pv: real, pl: real, cv: real, cl: real) {
    (pv == pl && cv > cl) || (pv < pl && cv == cl)
  }

  predicate DoublyDivergent(lookback: int, h: seq<Frame>) {
    var w := Tail(h, lookback);
    UnconfirmedHigh(Ccis(w), Prices(w)) && UnconfirmedLow(Ccis(w), Prices(w))
  }

  /** The ties that matter to a rule, and the double divergence where the rule asks for one. */
  predicate MirrorSafe(rule: Rule, doublyDivergent: bool, prev: Frame, cur: Frame)
    requires Complete(prev, cur)
  {
    var (b1, b2) := (cur.band1.value, cur.band2.value);
    var (pb1, pb2) := (prev.band1.value, prev.band2.value);
    var (rsi6, prsi6) := (cur.rsi6.value, prev.rsi6.value);
    match rule
    case BaseSell =>
      !TouchesGoingUp(pb2.M, pb1.U, b2.M, b1.U) && rsi6 != b1.U && !doublyDivergent
    case BaseBuy =>
      !TouchesGoingDown(pb2.M, pb1.L, b2.M, b1.L) && rsi6 != b1.L && !doublyDivergent
    case Uptrend2USell =>
      !TouchesGoingUp(pb2.U, pb1.U, b2.U, b1.U) && !TouchesGoingUp(prsi6, pb1.U, rsi6, b1.U) && !doublyDivergent
    case Downtrend2LBuy =>
      !TouchesGoingDown(pb2.L, pb1.L, b2.L, b1.L) && !TouchesGoingDown(prsi6, pb1.L, rsi6, b1.L) && !doublyDivergent
    case PriceFilterSell =>
      !TouchesGoingDown(pb2.M, pb1.M, b2.M, b1.M) && !TouchesGoingUp(prsi6, pb1.U, rsi6, b1.U)
    case PriceFilterBuy =>
      !TouchesGoingUp(pb2.M, pb1.M, b2.M, b1.M) && !TouchesGoingDown(prsi6, pb1.L, rsi6, b1.L)
  }

  /** The divergence d of a window against the divergence m of its mirror image. */
  predicate MirrorWindows(d: Option<Divergence>, m: Option<Divergence>, doubly: bool) {
    (m == Some(Bullish) <==> d == Some(Bearish) && !doubly) &&
    (d == Some(Bullish) <==> m == Some(Bearish) && !doubly) &&
    (doubly ==> m == d == Some(Bearish))
  }

  lemma WindowDivergenceMirrored(lookback: int, h: seq<Frame>)
    ensures MirrorWindows(WindowDivergence(lookback, h), WindowDivergence(lookback, MapSeq(Mirror, h)),
                          DoublyDivergent(lookback, h))
  {
    var w := Tail(h, lookback);
    assert Tail(MapSeq(Mirror, h), lookback) == MapSeq(Mirror, w);
    PricesMap(Mirror, Negate, w);
    CcisMap(Mirror, Negate, w);
    DivergenceMirrored(Ccis(w), Prices(w));
  }

  lemma MirroredPrimitives(pv: real, pl: real, cv: real, cl: real, mid: real)
    ensures (Crossed(-pv, -pl, -cv, -cl) == Some(Below) <==> Crossed(pv, pl, cv, cl) == Some(Above)) <==>
            !TouchesGoingUp(pv, pl, cv, cl)
    ensures (Crossed(-pv, -pl, -cv, -cl) == Some(Above) <==> Crossed(pv, pl, cv, cl) == Some(Below)) <==>
            !TouchesGoingDown(pv, pl, cv, cl)
    ensures IsBetween(-cv, -mid, -cl) <==> IsBetween(cv, mid, cl)
    ensures IsBetween(cv, mid, cl) || cv < cl <==> IsBetween(-cv, -mid, -cl) || !(-cv < -cl)
    ensures IsBetween(cv, mid, cl) || !(cv < cl) <==> IsBetween(-cv, -mid, -cl) || -cv < -cl
  {
  }

  /** A rule on a history and its mirror rule on the mirrored history report the
      same four conditions if and only if the history is safe for that rule. */
  lemma ConditionsMirrored(rule: Rule, lookback: int, prev: Frame, cur: Frame, h: seq<Frame>)
    requires Complete(prev, cur)
    ensures ConditionsOf(MirrorRule(rule), lookback, Mirror(prev), Mirror(cur), MapSeq(Mirror, h)) ==
            ConditionsOf(rule, lookback, prev, cur, h)
            <==> MirrorSafe(rule, DoublyDivergent(lookback, h), prev, cur)
  {
    WindowDivergenceMirrored(lookback, h);
    ConditionsGivenMirrored(rule, WindowDivergence(lookback, h), WindowDivergence(lookback, MapSeq(Mirror, h)),
                            DoublyDivergent(lookback, h), prev, cur);
  }

  lemma ConditionsGivenMirrored(rule: Rule, d: Option<Divergence>, m: Option<Divergence>, doubly: bool,
                                prev: Frame, cur: Frame)
    requires Complete(prev, cur)
    requires MirrorWindows(d, m, doubly)
    ensures ConditionsGiven(MirrorRule(rule), m, Mirror(prev), Mirror(cur)) == ConditionsGiven(rule, d, prev, cur)
            <==> MirrorSafe(rule, doubly, prev, cur)
  {
    match rule
    case BaseSell | BaseBuy => BaseMirrored(rule, d, m, doubly, prev, cur);
    case Uptrend2USell | Downtrend2LBuy => TrendMirrored(rule, d, m, doubly, prev, cur);
    case PriceFilterSell | PriceFilterBuy => PriceFilterMirrored(rule, d, m, doubly, prev, cur);
  }

  lemma BaseMirrored(rule: Rule, d: Option<Divergence>, m: Option<Divergence>, doubly: bool,
                     prev: Frame, cur: Frame)
    requires Complete(prev, cur)
    requires rule == BaseSell || rule == BaseBuy
    requires MirrorWindows(d, m, doubly)
    ensures ConditionsGiven(MirrorRule(rule), m, Mirror(prev), Mirror(cur)) == ConditionsGiven(rule, d, prev, cur)
            <==> MirrorSafe(rule, doubly, prev, cur)
  {
    var (b1, b2, pb1, pb2) := (cur.band1.value, cur.band2.value, prev.band1.value, prev.band2.value);
    var level := if rule == BaseSell then b1.U else b1.L;
    var prevLevel := if rule == BaseSell then pb1.U else pb1.L;
    MirroredPrimitives(pb2.M, prevLevel, b2.M, level, b1.M);
    MirroredPrimitives(cur.ma4.value, level, cur.ma4.value, level, b1.M);
  }

  lemma TrendMirrored(rule: Rule, d: Option<Divergence>, m: Option<Divergence>, doubly: bool,
                      prev: Frame, cur: Frame)
    requires Complete(prev, cur)
    requires rule == Uptrend2USell || rule == Downtrend2LBuy
    requires MirrorWindows(d, m, doubly)
    ensures ConditionsGiven(MirrorRule(rule), m, Mirror(prev), Mirror(cur)) == ConditionsGiven(rule, d, prev, cur)
            <==> MirrorSafe(rule, doubly, prev, cur)
  {
    var (b1, b2, pb1, pb2) := (cur.band1.value, cur.band2.value, prev.band1.value, prev.band2.value);
    if rule == Uptrend2USell {
      MirroredPrimitives(pb2.U, pb1.U, b2.U, b1.U, b1.M);
      MirroredPrimitives(cur.ma4.value, b1.U, cur.ma4.value, b1.U, b1.M);
      MirroredPrimitives(prev.rsi6.value, pb1.U, cur.rsi6.value, b1.U, b1.M);
    } else {
      MirroredPrimitives(pb2.L, pb1.L, b2.L, b1.L, b1.M);
      MirroredPrimitives(cur.ma4.value, b1.L, cur.ma4.value, b1.L, b1.M);
      MirroredPrimitives(prev.rsi6.value, pb1.L, cur.rsi6.value, b1.L, b1.M);
    }
  }

  lemma PriceOutsideMirrored(cur: Frame)
    ensures PriceOutsideUp(Mirror(cur)) == PriceOutsideDown(cur)
    ensures PriceOutsideDown(Mirror(cur)) == PriceOutsideUp(cur)
  {
  }

  lemma PriceFilterMirrored(rule: Rule, d: Option<Divergence>, m: Option<Divergence>, doubly: bool,
                            prev: Frame, cur: Frame)
    requires Complete(prev, cur)
    requires rule == PriceFilterSell || rule == PriceFilterBuy
    ensures ConditionsGiven(MirrorRule(rule), m, Mirror(prev), Mirror(cur)) == ConditionsGiven(rule, d, prev, cur)
            <==> MirrorSafe(rule, doubly, prev, cur)
  {
    var (b1, b2, pb1, pb2) := (cur.band1.value, cur.band2.value, prev.band1.value, prev.band2.value);
    PriceOutsideMirrored(cur);
    MiddleMirrored(cur.ma4.value, b1);
    MirroredPrimitives(pb2.M, pb1.M, b2.M, b1.M, b1.M);
    MirroredPrimitives(prev.rsi6.value, pb1.U, cur.rsi6.value, b1.U, b1.M);
    MirroredPrimitives(prev.rsi6.value, pb1.L, cur.rsi6.value, b1.L, b1.M);
    if rule == PriceFilterSell {
      SellFilterMirrored(d, m, prev, cur);
    } else {
      BuyFilterMirrored(d, m, prev, cur);
    }
  }

  predicate InsideBand(ma4: real, b: Band) {
    IsBetween(ma4, b.M, b.U) || IsBetween(ma4, b.M, b.L)
  }

  lemma MiddleMirrored(ma4: real, b: Band)
    ensures InsideBand(-ma4, MirrorBand(b)) == InsideBand(ma4, b)
  {
  }

  /** The conditions of the two price-filter rules, on a frame pair and on its mirror image. */
  lemma SellFilterMirrored(d: Option<Divergence>, m: Option<Divergence>, prev: Frame, cur: Frame)
    requires Complete(prev, cur)
    ensures var (b1, b2, pb1, pb2) := (cur.band1.value, cur.band2.value, prev.band1.value, prev.band2.value);
      ConditionsGiven(PriceFilterSell, d, prev, cur) == Conditions(
        Crossed(pb2.M, pb1.M, b2.M, b1.M) == Some(Below), InsideBand(cur.ma4.value, b1),
        Crossed(prev.rsi6.value, pb1.U, cur.rsi6.value, b1.U) == Some(Above), PriceOutsideUp(cur)) &&
      ConditionsGiven(PriceFilterBuy, m, Mirror(prev), Mirror(cur)) == Conditions(
        Crossed(-pb2.M, -pb1.M, -b2.M, -b1.M) == Some(Above), InsideBand(-cur.ma4.value, MirrorBand(b1)),
        Crossed(-prev.rsi6.value, -pb1.U, -cur.rsi6.value, -b1.U) == Some(Below), PriceOutsideDown(Mirror(cur)))
  {
  }

  lemma BuyFilterMirrored(d: Option<Divergence>, m: Option<Divergence>, prev: Frame, cur: Frame)
    requires Complete(prev, cur)
    ensures var (b1, b2, pb1, pb2) := (cur.band1.value, cur.band2.value, prev.band1.value, prev.band2.value);
      ConditionsGiven(PriceFilterBuy, d, prev, cur) == Conditions(
        Crossed(pb2.M, pb1.M, b2.M, b1.M) == Some(Above), InsideBand(cur.ma4.value, b1),
        Crossed(prev.rsi6.value, pb1.L, cur.rsi6.value, b1.L) == Some(Below), PriceOutsideDown(cur)) &&
      ConditionsGiven(PriceFilterSell, m, Mirror(prev), Mirror(cur)) == Conditions(
        Crossed(-pb2.M, -pb1.M, -b2.M, -b1.M) == Some(Below), InsideBand(-cur.ma4.value, MirrorBand(b1)),
        Crossed(-prev.rsi6.value, -pb1.L, -cur.rsi6.value, -b1.L) == Some(Above), PriceOutsideUp(Mirror(cur)))
  {
  }

  // ----- the whole engine -----

  /** A rule and its mirror rule never fire together, whichever way up band 1 is. */
  lemma MirrorPairsExclusive(rule: Rule, divergence: Option<Divergence>, prev: Frame, cur: Frame)
    requires Complete(prev, cur)
    ensures !(ConditionsGiven(rule, divergence, prev, cur).AllHold() &&
              ConditionsGiven(MirrorRule(rule), divergence, prev, cur).AllHold())
  {
  }

  /** No tie or double divergence that matters to the rule on the newest two frames. */
  predicate SafeFor(rule: Rule, lookback: int, h: seq<Frame>)
    requires 2 <= |h| && Evaluable(h)
  {
    MirrorSafe(rule, DoublyDivergent(lookback, h), h[|h| - 2], h[|h| - 1])
  }

  lemma FiresMirrored(rule: Rule, lookback: int, h: seq<Frame>)
    requires 2 <= |h| && Evaluable(h) && SafeFor(rule, lookback, h)
    ensures Evaluable(MapSeq(Mirror, h))
    ensures Fires(MirrorRule(rule), lookback, MapSeq(Mirror, h)) == Fires(rule, lookback, h)
  {
    var m := MapSeq(Mirror, h);
    assert m[|m| - 2] == Mirror(h[|h| - 2]) && m[|m| - 1] == Mirror(h[|h| - 1]);
    ConditionsMirrored(rule, lookback, h[|h| - 2], h[|h| - 1], h);
  }

  lemma NoPairFires(rule: Rule, lookback: int, h: seq<Frame>)
    requires 2 <= |h| && Evaluable(h)
    ensures !(Fires(rule, lookback, h) && Fires(MirrorRule(rule), lookback, h))
  {
    MirrorPairsExclusive(rule, WindowDivergence(lookback, h), h[|h| - 2], h[|h| - 1]);
  }

  /** Which of the six rules fire. */
  datatype Firing = Firing(
    baseSell: bool, baseBuy: bool, upSell: bool, downBuy: bool, priceSell: bool, priceBuy: bool
  ) {
    predicate Exclusive() {
      !(baseSell && baseBuy) && !(upSell && downBuy) && !(priceSell && priceBuy)
    }

    /** The same with every rule replaced by its mirror rule. */
    function Swapped(): Firing {
      Firing(baseBuy, baseSell, downBuy, upSell, priceBuy, priceSell)
    }

    /** Pair by pair in the order of the rules, both have the same rules fire, up to the first pair that does. */
    predicate AgreesWith(f: Firing) {
      baseSell == f.baseSell && baseBuy == f.baseBuy &&
      (baseSell || baseBuy ||
       (upSell == f.upSell && downBuy == f.downBuy &&
        (upSell || downBuy ||
         (priceSell == f.priceSell && priceBuy == f.priceBuy))))
    }
  }

  function FiringOf(lookback: int, h: seq<Frame>): Firing
    requires 2 <= |h| && Evaluable(h)
  {
    Firing(Fires(BaseSell, lookback, h), Fires(BaseBuy, lookback, h), Fires(Uptrend2USell, lookback, h),
           Fires(Downtrend2LBuy, lookback, h), Fires(PriceFilterSell, lookback, h), Fires(PriceFilterBuy, lookback, h))
  }

  /** The answer of the engine, given which rules fire. */
  function Ranked(f: Firing): RuleResult {
    if f.baseSell then FiredResult(BaseSell)
    else if f.baseBuy then FiredResult(BaseBuy)
    else if f.upSell then FiredResult(Uptrend2USell)
    else if f.downBuy then FiredResult(Downtrend2LBuy)
    else if f.priceSell then FiredResult(PriceFilterSell)
    else if f.priceBuy then FiredResult(PriceFilterBuy)
    else RuleResult(false, None, NoRuleMatched, None)
  }

  function FiredResult(rule: Rule): RuleResult {
    RuleResult(true, Some(Direction(rule)), Named(rule), Some(Conditions(true, true, true, true)))
  }

  lemma FirstFiredStep(rule: Rule, rest: seq<Rule>, lookback: int, h: seq<Frame>)
    requires 2 <= |h| && Evaluable(h)
    ensures FirstFired([rule] + rest, lookback, h[|h| - 2], h[|h| - 1], h) ==
      if Fires(rule, lookback, h) then FiredResult(rule)
      else FirstFired(rest, lookback, h[|h| - 2], h[|h| - 1], h)
  {
    assert ([rule] + rest)[1..] == rest;
  }

  lemma EvaluateIsRanked(lookback: int, h: seq<Frame>)
    requires 2 <= |h| && Evaluable(h)
    ensures Evaluate(lookback, h) == Ranked(FiringOf(lookback, h))
  {
    var r5: seq<Rule> := [PriceFilterBuy];
    var r4 := [PriceFilterSell] + r5;
    var r3 := [Downtrend2LBuy] + r4;
    var r2 := [Uptrend2USell] + r3;
    var r1 := [BaseBuy] + r2;
    assert RULES == [BaseSell] + r1 && r5 == [PriceFilterBuy] + [];
    FirstFiredStep(BaseSell, r1, lookback, h);
    FirstFiredStep(BaseBuy, r2, lookback, h);
    FirstFiredStep(Uptrend2USell, r3, lookback, h);
    FirstFiredStep(Downtrend2LBuy, r4, lookback, h);
    FirstFiredStep(PriceFilterSell, r5, lookback, h);
    FirstFiredStep(PriceFilterBuy, [], lookback, h);
  }

  lemma FiringIsExclusive(lookback: int, h: seq<Frame>)
    requires 2 <= |h| && Evaluable(h)
    ensures FiringOf(lookback, h).Exclusive()
  {
    NoPairFires(BaseSell, lookback, h);
    NoPairFires(Uptrend2USell, lookback, h);
    NoPairFires(PriceFilterSell, lookback, h);
  }

  // ----- the exact condition -----

  /** A line that was strictly below its level and is now at or above it: an upward crossing as the
      mirror sees it. */
  predicate RoseFrom(pv: real, pl: real, cv: real, cl: real) {
    pv > pl && cv <= cl
  }

  predicate FellFrom(pv: real, pl: real, cv: real, cl: real) {
    pv <= pl && cv > cl
  }

  /** The crossing of the mirror rule on the mirrored frames, read on the chart itself. */
  predicate MirrorCrosses(rule: Rule, prev: Frame, cur: Frame)
    requires BandsRead(prev, cur)
  {
    var (b1, b2) := (cur.band1.value, cur.band2.value);
    var (pb1, pb2) := (prev.band1.value, prev.band2.value);
    match rule
    case BaseSell => RoseFrom(pb2.M, pb1.U, b2.M, b1.U)
    case BaseBuy => FellFrom(pb2.M, pb1.L, b2.M, b1.L)
    case Uptrend2USell => RoseFrom(pb2.U, pb1.U, b2.U, b1.U)
    case Downtrend2LBuy => FellFrom(pb2.L, pb1.L, b2.L, b1.L)
    case PriceFilterSell => FellFrom(pb2.M, pb1.M, b2.M, b1.M)
    case PriceFilterBuy => RoseFrom(pb2.M, pb1.M, b2.M, b1.M)
  }

  /** The mirror rule on the mirrored frames, read on the chart itself: ties count for the other side,
      and a doubly divergent window is bearish in the mirror too. */
  predicate MirrorHolds(rule: Rule, d: Option<Divergence>, doubly: bool, prev: Frame, cur: Frame)
    requires Complete(prev, cur)
  {
    var (b1, pb1) := (cur.band1.value, prev.band1.value);
    var (ma4, rsi6, prsi6) := (cur.ma4.value, cur.rsi6.value, prev.rsi6.value);
    var (bearish, bullish) := (d == Some(Bearish) && !doubly, d == Some(Bullish) || doubly);
    MirrorCrosses(rule, prev, cur) &&
    match rule
    case BaseSell => (IsBetween(ma4, b1.M, b1.U) || ma4 <= b1.U) && rsi6 <= b1.U && bearish
    case BaseBuy => (IsBetween(ma4, b1.M, b1.L) || ma4 > b1.L) && rsi6 > b1.L && bullish
    case Uptrend2USell =>
      (IsBetween(ma4, b1.M, b1.U) || ma4 <= b1.U) && RoseFrom(prsi6, pb1.U, rsi6, b1.U) && bearish
    case Downtrend2LBuy =>
      (IsBetween(ma4, b1.M, b1.L) || ma4 > b1.L) && FellFrom(prsi6, pb1.L, rsi6, b1.L) && bullish
    case PriceFilterSell => InsideBand(ma4, b1) && RoseFrom(prsi6, pb1.U, rsi6, b1.U) && PriceOutsideUp(cur)
    case PriceFilterBuy => InsideBand(ma4, b1) && FellFrom(prsi6, pb1.L, rsi6, b1.L) && PriceOutsideDown(cur)
  }

  predicate MirrorFires(rule: Rule, lookback: int, h: seq<Frame>)
    requires 2 <= |h| && Evaluable(h)
  {
    MirrorHolds(rule, WindowDivergence(lookback, h), DoublyDivergent(lookback, h), h[|h| - 2], h[|h| - 1])
  }

  lemma CrossingInMirror(rule: Rule, prev: Frame, cur: Frame)
    requires BandsRead(prev, cur)
    ensures BandsRead(Mirror(prev), Mirror(cur))
    ensures Crossing(MirrorRule(rule), Mirror(prev), Mirror(cur)) <==> MirrorCrosses(rule, prev, cur)
  {
  }

  lemma HoldsInMirror(rule: Rule, d: Option<Divergence>, m: Option<Divergence>, doubly: bool,
                      prev: Frame, cur: Frame)
    requires Complete(prev, cur) && MirrorWindows(d, m, doubly)
    ensures ConditionsGiven(MirrorRule(rule), m, Mirror(prev), Mirror(cur)).AllHold() <==>
            MirrorHolds(rule, d, doubly, prev, cur)
  {
    CrossingInMirror(rule, prev, cur);
    PriceOutsideMirrored(cur);
    MiddleMirrored(cur.ma4.value, cur.band1.value);
  }

  /** Which rules fire on the mirrored chart, told by looking at the chart itself. */
  lemma FiresInMirror(rule: Rule, lookback: int, h: seq<Frame>)
    requires 2 <= |h| && Evaluable(h)
    ensures Evaluable(MapSeq(Mirror, h))
    ensures Fires(MirrorRule(rule), lookback, MapSeq(Mirror, h)) <==> MirrorFires(rule, lookback, h)
  {
    var m := MapSeq(Mirror, h);
    assert m[|m| - 2] == Mirror(h[|h| - 2]) && m[|m| - 1] == Mirror(h[|h| - 1]);
    WindowDivergenceMirrored(lookback, h);
    HoldsInMirror(rule, WindowDivergence(lookback, h), WindowDivergence(lookback, m), DoublyDivergent(lookback, h),
                  h[|h| - 2], h[|h| - 1]);
  }

  function MirrorFiringOf(lookback: int, h: seq<Frame>): Firing
    requires 2 <= |h| && Evaluable(h)
  {
    Firing(MirrorFires(BaseSell, lookback, h), MirrorFires(BaseBuy, lookback, h),
           MirrorFires(Uptrend2USell, lookback, h), MirrorFires(Downtrend2LBuy, lookback, h),
           MirrorFires(PriceFilterSell, lookback, h), MirrorFires(PriceFilterBuy, lookback, h))
  }

  lemma MirrorEvaluable(h: seq<Frame>)
    ensures Evaluable(MapSeq(Mirror, h)) <==> Evaluable(h)
  {
  }

  lemma FiringInMirror(lookback: int, h: seq<Frame>)
    requires 2 <= |h| && Evaluable(h)
    ensures Evaluable(MapSeq(Mirror, h))
    ensures FiringOf(lookback, MapSeq(Mirror, h)) == MirrorFiringOf(lookback, h).Swapped()
  {
    MirrorEvaluable(h);
    var m := MapSeq(Mirror, h);
    var (f, g) := (FiringOf(lookback, m), MirrorFiringOf(lookback, h));
    assert f.baseBuy == g.baseSell by {
      FiresInMirror(BaseSell, lookback, h);
    }
    assert f.baseSell == g.baseBuy by {
      FiresInMirror(BaseBuy, lookback, h);
    }
    assert f.downBuy == g.upSell by {
      FiresInMirror(Uptrend2USell, lookback, h);
    }
    assert f.upSell == g.downBuy by {
      FiresInMirror(Downtrend2LBuy, lookback, h);
    }
    assert f.priceBuy == g.priceSell by {
      FiresInMirror(PriceFilterSell, lookback, h);
    }
    assert f.priceSell == g.priceBuy by {
      FiresInMirror(PriceFilterBuy, lookback, h);
    }
  }

  lemma RankedMirrored(x: Firing, y: Firing)
    requires x.Exclusive() && y.Exclusive()
    ensures Ranked(y.Swapped()) == MirrorResult(Ranked(x)) <==> x.AgreesWith(y)
  {
  }

  /** The mirrored chart gets the mirrored answer exactly when, pair by pair in the order of the rules,
      the mirror rules would fire on it as the rules fire on the chart, up to the first pair that fires. */
  lemma MirrorDualityExactly(lookback: int, h: seq<Frame>)
    requires 2 <= |h| && Evaluable(h)
    ensures Evaluable(MapSeq(Mirror, h))
    ensures Evaluate(lookback, MapSeq(Mirror, h)) == MirrorResult(Evaluate(lookback, h)) <==>
      FiringOf(lookback, h).AgreesWith(MirrorFiringOf(lookback, h))
  {
    var m := MapSeq(Mirror, h);
    FiringInMirror(lookback, h);
    EvaluateIsRanked(lookback, h);
    EvaluateIsRanked(lookback, m);
    FiringIsExclusive(lookback, h);
    FiringIsExclusive(lookback, m);
    RankedMirrored(FiringOf(lookback, h), MirrorFiringOf(lookback, h));
  }

  lemma SafeFiresAlike(rule: Rule, lookback: int, h: seq<Frame>)
    requires 2 <= |h| && Evaluable(h) && SafeFor(rule, lookback, h)
    ensures Fires(rule, lookback, h) == MirrorFires(rule, lookback, h)
  {
    FiresMirrored(rule, lookback, h);
    FiresInMirror(rule, lookback, h);
  }

  /** In particular whenever no tie and no double divergence matters to any rule. */
  lemma MirrorDuality(lookback: int, h: seq<Frame>)
    requires Evaluable(h)
    requires 2 <= |h| ==> forall r: Rule :: SafeFor(r, lookback, h)
    ensures Evaluable(MapSeq(Mirror, h))
    ensures Evaluate(lookback, MapSeq(Mirror, h)) == MirrorResult(Evaluate(lookback, h))
  {
    if 2 <= |h| {
      SafeFiresAlike(BaseSell, lookback, h);
      SafeFiresAlike(BaseBuy, lookback, h);
      SafeFiresAlike(Uptrend2USell, lookback, h);
      SafeFiresAlike(Downtrend2LBuy, lookback, h);
      SafeFiresAlike(PriceFilterSell, lookback, h);
      SafeFiresAlike(PriceFilterBuy, lookback, h);
      MirrorDualityExactly(lookback, h);
    }
  }

  // ----- a history that fails -----

  /** Two frames of a full price-filter SELL in which 2M ends exactly on 1M. */
  function TieHistory(): seq<Frame> {
    var b := Some(Band(10.0, 20.0, 30.0));
    var prev := Frame(b, Some(Band(10.0, 15.0, 30.0)), Some(20.0), None, Some(15.0), None, None, None);
    var cur := Frame(b, Some(Band(10.0, 20.0, 30.0)), Some(20.0), None, Some(5.0), Some(1.0), b, b);
    [prev, cur]
  }

  lemma TieFiring(lookback: int)
    ensures Evaluable(TieHistory())
    ensures FiringOf(lookback, TieHistory()) == Firing(false, false, false, false, true, false)
  {
  }

  lemma TieMirrorFiring(lookback: int)
    ensures Evaluable(TieHistory())
    ensures MirrorFiringOf(lookback, TieHistory()) == Firing(false, false, false, false, false, false)
  {
  }

  /** With any lookback, the engine advises SELL on it and nothing on its mirror image. */
  lemma MirrorBreaksAtTie(lookback: int)
    ensures var h := TieHistory();
      Evaluable(h) && Evaluable(MapSeq(Mirror, h)) &&
      Evaluate(lookback, h).name == Named(PriceFilterSell) &&
      Evaluate(lookback, MapSeq(Mirror, h)) == RuleResult(false, None, NoRuleMatched, None) &&
      Evaluate(lookback, MapSeq(Mirror, h)) != MirrorResult(Evaluate(lookback, h))
  {
    var h := TieHistory();
    TieFiring(lookback);
    TieMirrorFiring(lookback);
    FiringInMirror(lookback, h);
    EvaluateIsRanked(lookback, h);
    EvaluateIsRanked(lookback, MapSeq(Mirror, h));
  }

  // ----- one rule -----

  /** What a rule answers, nothing included, is mirrored by its mirror rule exactly when it crosses
      neither on the chart nor in the mirror, or no tie or double divergence matters to it. */
  lemma ResultMirrored(rule: Rule, lookback: int, prev: Frame, cur: Frame, h: seq<Frame>)
    requires Complete(prev, cur)
    ensures RunRule(MirrorRule(rule), lookback, Mirror(prev), Mirror(cur), MapSeq(Mirror, h)) ==
            MapOpt(MirrorResult, RunRule(rule, lookback, prev, cur, h)) <==>
      (!Crossing(rule, prev, cur) && !MirrorCrosses(rule, prev, cur)) ||
      MirrorSafe(rule, DoublyDivergent(lookback, h), prev, cur)
  {
    CrossingInMirror(rule, prev, cur);
    ConditionsMirrored(rule, lookback, prev, cur, h);
    CrossingIsFirst(rule, lookback, prev, cur, h);
    CrossingIsFirst(MirrorRule(rule), lookback, Mirror(prev), Mirror(cur), MapSeq(Mirror, h));
  }

  lemma CrossingIsFirst(rule: Rule, lookback: int, prev: Frame, cur: Frame, h: seq<Frame>)
    requires Complete(prev, cur)
    ensures ConditionsOf(rule, lookback, prev, cur, h).cond1 <==> Crossing(rule, prev, cur)
  {
  }
}
