/** What the whole rulebook keeps: it depends only on the order of coordinates, and in an upright band
    it never advises both directions. */
module SignalTheorems {
  import opened Options
  import opened SignalRules

  // ----- frame-by-frame transformations -----

  function MapOpt<A, B>(f: A -> B, x: Option<A>): Option<B> {
    if x.Some? then Some(f(x.value)) else None
  }

  function MapSeq<A, B>(f: A -> B, s: seq<A>): (r: seq<B>)
    ensures |r| == |s| && forall i :: 0 <= i < |s| ==> r[i] == f(s[i])
  {
    seq(|s|, i requires 0 <= i < |s| => f(s[i]))
  }

  lemma {:induction false} PricesMap(t: Frame -> Frame, g: real -> real, h: seq<Frame>)
    requires forall f :: t(f).priceClose == MapOpt(g, f.priceClose)
    ensures Prices(MapSeq(t, h)) == MapSeq(g, Prices(h))
  {
    if h != [] {
      PricesMap(t, g, h[1..]);
      assert MapSeq(t, h)[1..] == MapSeq(t, h[1..]);
    }
  }

  lemma {:induction false} CcisMap(t: Frame -> Frame, g: real -> real, h: seq<Frame>)
    requires forall f :: t(f).cci5 == MapOpt(g, f.cci5)
    ensures Ccis(MapSeq(t, h)) == MapSeq(g, Ccis(h))
  {
    if h != [] {
      CcisMap(t, g, h[1..]);
      assert MapSeq(t, h)[1..] == MapSeq(t, h[1..]);
    }
  }

  // ----- order invariance -----

  ghost predicate Increasing(f: real -> real) {
    forall x, y :: Keeps(f, x, y)
  }

  ghost predicate Keeps(f: real -> real, x: real, y: real) {
    x < y ==> f(x) < f(y)
  }

  lemma OrderKept(f: real -> real, x: real, y: real)
    requires Increasing(f)
    ensures f(x) < f(y) <==> x < y
    ensures f(x) == f(y) <==> x == y
    ensures f(Min(x, y)) == Min(f(x), f(y)) && f(Max(x, y)) == Max(f(x), f(y))
  {
    assert Keeps(f, x, y) && Keeps(f, y, x);
  }

  lemma CrossedRescaled(f: real -> real, pv: real, pl: real, cv: real, cl: real)
    requires Increasing(f)
    ensures Crossed(f(pv), f(pl), f(cv), f(cl)) == Crossed(pv, pl, cv, cl)
    ensures SideOf(f(cv), f(cl)) == SideOf(cv, cl)
  {
    OrderKept(f, pv, pl);
    OrderKept(f, cv, cl);
  }

  lemma IsBetweenRescaled(f: real -> real, v: real, low: real, high: real)
    requires Increasing(f)
    ensures IsBetween(f(v), f(low), f(high)) == IsBetween(v, low, high)
  {
    OrderKept(f, low, high);
    OrderKept(f, v, low);
    OrderKept(f, v, high);
  }

  function MapBand(f: real -> real, b: Band): Band {
    Band(f(b.U), f(b.M), f(b.L))
  }

  /** Moves the indicator panel by f and the price panel by g. */
  function Rescale(f: real -> real, g: real -> real): Frame -> Frame {
    (fr: Frame) => Frame(
      MapOpt((b: Band) => MapBand(f, b), fr.band1), MapOpt((b: Band) => MapBand(f, b), fr.band2),
      MapOpt(f, fr.ma4), MapOpt(f, fr.cci5), MapOpt(f, fr.rsi6),
      MapOpt(g, fr.priceClose),
      MapOpt((b: Band) => MapBand(g, b), fr.priceBand7), MapOpt((b: Band) => MapBand(g, b), fr.priceBand8))
  }

  lemma {:induction false} MinOfIncreasing(f: real -> real, ys: seq<real>)
    requires Increasing(f) && ys != []
    ensures MinOf(MapSeq(f, ys)) == f(MinOf(ys))
    ensures MaxOf(MapSeq(f, ys)) == f(MaxOf(ys))
  {
    if |ys| > 1 {
      MinOfIncreasing(f, ys[1..]);
      assert MapSeq(f, ys)[1..] == MapSeq(f, ys[1..]);
      OrderKept(f, ys[0], MinOf(ys[1..]));
      OrderKept(f, ys[0], MaxOf(ys[1..]));
    }
  }

  lemma NewExtremesIncreasing(f: real -> real, ys: seq<real>, mid: nat)
    requires Increasing(f) && 0 < mid < |ys|
    ensures NewHigh(MapSeq(f, ys), mid) == NewHigh(ys, mid)
    ensures NewLow(MapSeq(f, ys), mid) == NewLow(ys, mid)
  {
    assert MapSeq(f, ys)[mid..] == MapSeq(f, ys[mid..]);
    assert MapSeq(f, ys)[..mid] == MapSeq(f, ys[..mid]);
    MinOfIncreasing(f, ys[mid..]);
    MinOfIncreasing(f, ys[..mid]);
    OrderKept(f, MinOf(ys[mid..]), MinOf(ys[..mid]));
    OrderKept(f, MaxOf(ys[..mid]), MaxOf(ys[mid..]));
  }

  lemma WindowDivergenceRescaled(f: real -> real, g: real -> real, lookback: int, h: seq<Frame>)
    requires Increasing(f) && Increasing(g)
    ensures WindowDivergence(lookback, MapSeq(Rescale(f, g), h)) == WindowDivergence(lookback, h)
  {
    var w := Tail(h, lookback);
    assert Tail(MapSeq(Rescale(f, g), h), lookback) == MapSeq(Rescale(f, g), w);
    PricesMap(Rescale(f, g), g, w);
    CcisMap(Rescale(f, g), f, w);
    if |Prices(w)| == |Ccis(w)| && 4 <= |Prices(w)| {
      NewExtremesIncreasing(g, Prices(w), |Prices(w)| / 2);
      NewExtremesIncreasing(f, Ccis(w), |Prices(w)| / 2);
    }
  }

  lemma ConditionsRescaled(rule: Rule, divergence: Option<Divergence>, f: real -> real, g: real -> real,
                           prev: Frame, cur: Frame)
    requires Increasing(f) && Increasing(g)
    requires Complete(prev, cur)
    ensures var t := Rescale(f, g);
      ConditionsGiven(rule, divergence, t(prev), t(cur)) == ConditionsGiven(rule, divergence, prev, cur)
  {
    var (b1, b2, pb1, pb2) := (cur.band1.value, cur.band2.value, prev.band1.value, prev.band2.value);
    var (ma4, rsi6, prsi6) := (cur.ma4.value, cur.rsi6.value, prev.rsi6.value);
    match rule
    case BaseSell =>
      CrossedRescaled(f, pb2.M, pb1.U, b2.M, b1.U);
      IsBetweenRescaled(f, ma4, b1.M, b1.U);
      CrossedRescaled(f, ma4, b1.U, ma4, b1.U);
      CrossedRescaled(f, prsi6, pb1.U, rsi6, b1.U);
    case BaseBuy =>
      CrossedRescaled(f, pb2.M, pb1.L, b2.M, b1.L);
      IsBetweenRescaled(f, ma4, b1.M, b1.L);
      CrossedRescaled(f, ma4, b1.L, ma4, b1.L);
      CrossedRescaled(f, prsi6, pb1.L, rsi6, b1.L);
    case Uptrend2USell =>
      CrossedRescaled(f, pb2.U, pb1.U, b2.U, b1.U);
      IsBetweenRescaled(f, ma4, b1.M, b1.U);
      CrossedRescaled(f, ma4, b1.U, ma4, b1.U);
      CrossedRescaled(f, prsi6, pb1.U, rsi6, b1.U);
    case Downtrend2LBuy =>
      CrossedRescaled(f, pb2.L, pb1.L, b2.L, b1.L);
      IsBetweenRescaled(f, ma4, b1.M, b1.L);
      CrossedRescaled(f, ma4, b1.L, ma4, b1.L);
      CrossedRescaled(f, prsi6, pb1.L, rsi6, b1.L);
    case PriceFilterSell =>
      CrossedRescaled(f, pb2.M, pb1.M, b2.M, b1.M);
      IsBetweenRescaled(f, ma4, b1.M, b1.U);
      IsBetweenRescaled(f, ma4, b1.M, b1.L);
      CrossedRescaled(f, prsi6, pb1.U, rsi6, b1.U);
      PriceFilterRescaled(f, g, cur);
    case PriceFilterBuy =>
      CrossedRescaled(f, pb2.M, pb1.M, b2.M, b1.M);
      IsBetweenRescaled(f, ma4, b1.M, b1.U);
      IsBetweenRescaled(f, ma4, b1.M, b1.L);
      CrossedRescaled(f, prsi6, pb1.L, rsi6, b1.L);
      PriceFilterRescaled(f, g, cur);
  }

  lemma PriceFilterRescaled(f: real -> real, g: real -> real, cur: Frame)
    requires Increasing(g)
    ensures PriceOutsideUp(Rescale(f, g)(cur)) == PriceOutsideUp(cur)
    ensures PriceOutsideDown(Rescale(f, g)(cur)) == PriceOutsideDown(cur)
  {
    if cur.priceBand7.Some? && cur.priceBand8.Some? && cur.priceClose.Some? {
      var (b7, b8, price) := (cur.priceBand7.value, cur.priceBand8.value, cur.priceClose.value);
      OrderKept(g, b7.U, b8.U);
      OrderKept(g, price, Min(b7.U, b8.U));
      OrderKept(g, b7.L, b8.L);
      OrderKept(g, Max(b7.L, b8.L), price);
    }
  }

  lemma {:induction false} FirstFiredRescaled(rules: seq<Rule>, f: real -> real, g: real -> real, lookback: int,
                                              prev: Frame, cur: Frame, h: seq<Frame>)
    requires Increasing(f) && Increasing(g)
    requires Complete(prev, cur)
    ensures var t := Rescale(f, g);
      FirstFired(rules, lookback, t(prev), t(cur), MapSeq(t, h)) == FirstFired(rules, lookback, prev, cur, h)
  {
    if rules != [] {
      WindowDivergenceRescaled(f, g, lookback, h);
      ConditionsRescaled(rules[0], WindowDivergence(lookback, h), f, g, prev, cur);
      FirstFiredRescaled(rules[1..], f, g, lookback, prev, cur, h);
    }
  }

  /** The engine reads nothing but the order of coordinates, panel by panel. */
  lemma OrderInvariance(f: real -> real, g: real -> real, lookback: int, h: seq<Frame>)
    requires Increasing(f) && Increasing(g) && Evaluable(h)
    ensures Evaluable(MapSeq(Rescale(f, g), h))
    ensures Evaluate(lookback, MapSeq(Rescale(f, g), h)) == Evaluate(lookback, h)
  {
    if 2 <= |h| {
      FirstFiredRescaled(RULES, f, g, lookback, h[|h| - 2], h[|h| - 1], h);
    }
  }

  // ----- one direction at a time -----

  /** With band 1 the right way up, no history makes a SELL rule and a BUY rule fire together:
      a SELL needs #6 above 1U and a BUY needs it at or below 1L. */
  lemma DirectionExclusivity(r1: Rule, r2: Rule, lookback: int, h: seq<Frame>)
    requires 2 <= |h| && Evaluable(h)
    requires h[|h| - 1].band1.value.U <= h[|h| - 1].band1.value.L
    requires Fires(r1, lookback, h) && Fires(r2, lookback, h)
    ensures Direction(r1) == Direction(r2)
  {
  }

  /** A lookback of one to three frames sees too few prices for a divergence, so only the two
      price-filter rules can fire, and their crossings of 1M exclude each other. */
  lemma ShortLookbackExclusivity(r1: Rule, r2: Rule, lookback: int, h: seq<Frame>)
    requires 2 <= |h| && Evaluable(h) && 1 <= lookback <= 3
    requires Fires(r1, lookback, h) && Fires(r2, lookback, h)
    ensures Direction(r1) == Direction(r2)
  {
    AtMostOnePerFrame(Tail(h, lookback));
    assert WindowDivergence(lookback, h) == None;
  }

  function Flat(b: Band, price: real): Frame {
    Frame(Some(b), Some(b), Some(b.M), Some(1.0), Some(b.M), Some(price), None, None)
  }

  /** Four frames whose newest band 1 is a given upside-down band, on which a SELL and a BUY both fire. */
  function Conflict(b: Band): seq<Frame> {
    var outside := Some(Band(0.0, 0.0, 0.0));
    var zero := Some(Band(0.0, 0.0, 0.0));
    var prev := Frame(zero, zero, Some(b.M), Some(1.0), Some(-1.0), Some(5.0), None, None);
    var band2 := Some(Band(0.0, Min(b.U, b.M) - 1.0, 0.0));
    var cur := Frame(Some(b), band2, Some(b.M), Some(1.0), Some(b.L), Some(6.0), outside, outside);
    [Flat(b, 9.0), Flat(b, 9.0), prev, cur]
  }

  /** The conflict after as many frames as a negative lookback skips. */
  function ConflictingHistory(b: Band, lookback: int): seq<Frame> {
    seq(if lookback < 0 then -lookback else 0, _ => Flat(b, 9.0)) + Conflict(b)
  }

  lemma FourPrices(f0: Frame, f1: Frame, f2: Frame, f3: Frame, p0: real, p1: real, p2: real, p3: real)
    requires f0.priceClose == Some(p0) && f1.priceClose == Some(p1)
    requires f2.priceClose == Some(p2) && f3.priceClose == Some(p3)
    ensures Prices([f0, f1, f2, f3]) == [p0, p1, p2, p3]
  {
    assert [f0, f1, f2, f3][1..] == [f1, f2, f3] && [f1, f2, f3][1..] == [f2, f3] && [f2, f3][1..] == [f3];
    assert Prices([f3]) == [p3];
    assert Prices([f2, f3]) == [p2, p3];
    assert Prices([f1, f2, f3]) == [p1, p2, p3];
  }

  lemma FourCcis(f0: Frame, f1: Frame, f2: Frame, f3: Frame, c: real)
    requires f0.cci5 == f1.cci5 == f2.cci5 == f3.cci5 == Some(c)
    ensures Ccis([f0, f1, f2, f3]) == [c, c, c, c]
  {
    assert [f0, f1, f2, f3][1..] == [f1, f2, f3] && [f1, f2, f3][1..] == [f2, f3] && [f2, f3][1..] == [f3];
    assert Ccis([f3]) == [c];
    assert Ccis([f2, f3]) == [c, c];
    assert Ccis([f1, f2, f3]) == [c, c, c];
  }

  lemma ConflictDiverges(b: Band, lookback: int)
    requires !(1 <= lookback <= 3)
    ensures WindowDivergence(lookback, ConflictingHistory(b, lookback)) == Some(Bearish)
  {
    var w := Conflict(b);
    assert Tail(ConflictingHistory(b, lookback), lookback) == w;
    FourPrices(w[0], w[1], w[2], w[3], 9.0, 9.0, 5.0, 6.0);
    FourCcis(w[0], w[1], w[2], w[3], 1.0);
    assert w == [w[0], w[1], w[2], w[3]];
    assert Prices(w)[2..] == [5.0, 6.0] && Prices(w)[..2] == [9.0, 9.0];
    assert Ccis(w)[2..] == [1.0, 1.0] == Ccis(w)[..2];
    assert UnconfirmedHigh(Ccis(w), Prices(w));
  }

  lemma ConflictFires(b: Band, lookback: int)
    requires b.U > b.L && !(1 <= lookback <= 3)
    ensures var h := ConflictingHistory(b, lookback);
      2 <= |h| && Evaluable(h) && h[|h| - 1].band1 == Some(b) &&
      Fires(BaseSell, lookback, h) && Fires(PriceFilterBuy, lookback, h)
  {
    var (h, prev, cur) := (ConflictingHistory(b, lookback), Conflict(b)[2], Conflict(b)[3]);
    assert h[|h| - 2] == prev && h[|h| - 1] == cur;
    ConflictDiverges(b, lookback);
    ConflictSells(b);
    ConflictBuys(b);
    FiresGiven(BaseSell, lookback, h, Some(Bearish), prev, cur);
    FiresGiven(PriceFilterBuy, lookback, h, Some(Bearish), prev, cur);
  }

  lemma ConflictSells(b: Band)
    requires b.U > b.L
    ensures ConditionsGiven(BaseSell, Some(Bearish), Conflict(b)[2], Conflict(b)[3]).AllHold()
  {
  }

  lemma ConflictBuys(b: Band)
    requires b.U > b.L
    ensures ConditionsGiven(PriceFilterBuy, Some(Bearish), Conflict(b)[2], Conflict(b)[3]).AllHold()
  {
  }

  /** The rules that fire on a history with a given newest band 1 all advise one direction. */
  ghost predicate Decisive(b: Band, lookback: int) {
    forall r1: Rule, r2: Rule, h: seq<Frame> ::
      2 <= |h| && Evaluable(h) && h[|h| - 1].band1 == Some(b) && Fires(r1, lookback, h) && Fires(r2, lookback, h)
      ==> Direction(r1) == Direction(r2)
  }

  /** Conflicting advice is ruled out exactly by a band that is the right way up, or by a lookback of
      one to three frames. */
  lemma ExclusivityExactly(b: Band, lookback: int)
    ensures Decisive(b, lookback) <==> b.U <= b.L || 1 <= lookback <= 3
  {
    if b.U > b.L && !(1 <= lookback <= 3) {
      ConflictFires(b, lookback);
      assert Direction(BaseSell) != Direction(PriceFilterBuy);
    } else {
      forall r1: Rule, r2: Rule, h: seq<Frame> |
        2 <= |h| && Evaluable(h) && h[|h| - 1].band1 == Some(b) && Fires(r1, lookback, h) && Fires(r2, lookback, h)
        ensures Direction(r1) == Direction(r2)
      {
        if b.U <= b.L {
          DirectionExclusivity(r1, r2, lookback, h);
        } else {
          ShortLookbackExclusivity(r1, r2, lookback, h);
        }
      }
    }
  }

  /** So the order in which the engine lists its rules never changes the advice. */
  lemma RuleOrderIrrelevant(rules: seq<Rule>, lookback: int, h: seq<Frame>)
    requires 2 <= |h| && Evaluable(h)
    requires h[|h| - 1].band1.value.U <= h[|h| - 1].band1.value.L
    requires forall r: Rule :: r in rules
    ensures FirstFired(rules, lookback, h[|h| - 2], h[|h| - 1], h).signal == Evaluate(lookback, h).signal
  {
    FirstFiredIsFirst(rules, lookback, h);
    FirstFiredIsFirst(RULES, lookback, h);
    forall r: Rule
      ensures r in RULES
    {
      EveryRuleListed(r);
    }
    if r1: Rule :| r1 in RULES && Fires(r1, lookback, h) {
      forall r2: Rule | Fires(r2, lookback, h)
        ensures Direction(r2) == Direction(r1)
      {
        DirectionExclusivity(r1, r2, lookback, h);
      }
    }
  }

  // ----- a frame stored twice -----

  /** The bands of the newest two frames are the same. */
  predicate BandsUnmoved(prev: Frame, cur: Frame) {
    prev.band1 == cur.band1 && prev.band2 == cur.band2
  }

  lemma NoCrossingWithoutMove(rule: Rule, prev: Frame, cur: Frame)
    requires BandsRead(prev, cur) && BandsUnmoved(prev, cur)
    ensures !Crossing(rule, prev, cur)
  {
  }

  /** Without a move of the bands no rule fires. So a frame that is stored twice, because the reply to its
      first upload was lost, hides the signal that it gave when it was stored once. */
  lemma RepeatedFrameIsSilent(lookback: int, h: seq<Frame>)
    requires 2 <= |h| && Evaluable(h) && BandsUnmoved(h[|h| - 2], h[|h| - 1])
    ensures Evaluate(lookback, h) == RuleResult(false, None, NoRuleMatched, None)
  {
    forall rule: Rule
      ensures !Fires(rule, lookback, h)
    {
      NoCrossingWithoutMove(rule, h[|h| - 2], h[|h| - 1]);
    }
    FirstFiredIsFirst(RULES, lookback, h);
  }
}
