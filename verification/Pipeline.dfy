/** From phone to advice: the cache, the stored history, the clustered bands and the rulebook together. */
module Pipeline {
  import opened Options
  import opened Sequences
  import opened SignalMeaning
  import opened SignalRules
  import opened SignalTheorems
  import opened TrimTheorem
  import opened CacheRuns
  import opened IndicatorHistory
  import opened Outage
  import Bands = BandClustering
  import Cache = OfflineCache

  // ----- the stored history -----

  function Frames(parse: Member -> Frame, ms: seq<Member>): seq<Frame> {
    MapSeq(parse, ms)
  }

  /** The advice drawn from the stored frames, trimmed after every insert, is the advice of the full
      chronological history, whatever the order of arrival. */
  lemma StoredHistoryGivesFullVerdict(parse: Member -> Frame, arrivals: seq<Member>, lookback: int, maxFrames: nat)
    requires CoversWindow(lookback, maxFrames)
    requires Evaluable(Frames(parse, Chronological(arrivals)))
    ensures Evaluable(Frames(parse, AppendAll(arrivals, maxFrames)))
    ensures Evaluate(lookback, Frames(parse, AppendAll(arrivals, maxFrames))) ==
            Evaluate(lookback, Frames(parse, Chronological(arrivals)))
  {
    StoredIsNewest(arrivals, maxFrames);
    var full := Frames(parse, Chronological(arrivals));
    assert Frames(parse, AppendAll(arrivals, maxFrames)) == LastN(full, maxFrames);
    CoveredWindowIsSafe(lookback, maxFrames, full);
  }

  /** Whatever the network does to the order in which the same members arrive, live or replayed, the
      advice is the same. */
  lemma AdviceIgnoresArrivalOrder(parse: Member -> Frame, arrivals: seq<Member>, others: seq<Member>,
                                  lookback: int, maxFrames: nat)
    requires forall m :: m in arrivals <==> m in others
    requires Evaluable(Frames(parse, AppendAll(arrivals, maxFrames)))
    ensures Evaluable(Frames(parse, AppendAll(others, maxFrames)))
    ensures Evaluate(lookback, Frames(parse, AppendAll(arrivals, maxFrames))) ==
            Evaluate(lookback, Frames(parse, AppendAll(others, maxFrames)))
  {
    ArrivalOrderIrrelevant(arrivals, others, maxFrames);
  }

  // ----- an outage -----

  /** Everything sent live or captured in a run, in capture order. */
  ghost function FullHistory(parse: Member -> Frame, live: seq<Member>, upload: Cache.File -> Option<Member>,
                             ops: seq<Cache.Op>): seq<Frame> {
    Frames(parse, Chronological(live + Uploaded(upload, Cache.Run(Cache.EMPTY, ops).captured)))
  }

  /** After an outage of any length on a phone with one account, once the backlog is drained, the advice
      is that of the full history of everything captured, as if every capture had been sent live. */
  lemma OutageKeepsAdvice(parse: Member -> Frame, lookback: int, ops: seq<Cache.Op>,
                          upload: Cache.File -> Option<Member>, a: string, live: seq<Member>,
                          arrivals: seq<Member>, maxFrames: nat)
    requires CoversWindow(lookback, maxFrames) && DepthFor(maxFrames, Cache.RunFits(Cache.EMPTY, ops))
    requires RunAdmits(ops) && Cache.Run(Cache.EMPTY, ops).files == map[]
    requires ServerFor(upload, a) && AllTimely(Cache.Run(Cache.EMPTY, ops).captured)
    requires forall f :: f in Cache.Run(Cache.EMPTY, ops).captured ==> AccountOf(f) == a
    requires Arrived(arrivals, live, Uploaded(upload, Cache.Run(Cache.EMPTY, ops).delivered))
    requires Evaluable(FullHistory(parse, live, upload, ops))
    ensures Evaluable(Frames(parse, AppendAll(arrivals, maxFrames)))
    ensures Evaluate(lookback, Frames(parse, AppendAll(arrivals, maxFrames))) ==
            Evaluate(lookback, FullHistory(parse, live, upload, ops))
  {
    var all := live + Uploaded(upload, Cache.Run(Cache.EMPTY, ops).captured);
    OutageLeavesNoTrace(ops, upload, a, live, arrivals, maxFrames);
    StoredHistoryGivesFullVerdict(parse, all, lookback, maxFrames);
  }

  // ----- advice -----

  /** What the brain service answers. */
  datatype Advice = Advice(signal: string, confidence: real)

  function Advise(lookback: int, h: seq<Frame>): Advice
    requires Evaluable(h)
  {
    var r := Evaluate(lookback, h);
    Advice(match r.signal case None => "HOLD" case Some(BUY) => "BUY" case Some(SELL) => "SELL",
           if r.fired then 0.85 else 0.0)
  }

  /** When band 1 of the newest frame was clustered from contour points, the advice says exactly
      which direction has a firing rule; the two directions never compete. */
  lemma AdviceIsTheFiringDirection(points: seq<Bands.Point>, lookback: int, h: seq<Frame>)
    requires 2 <= |h| && Evaluable(h) && h[|h| - 1].band1 == Bands.BandUlm(points)
    ensures Advise(lookback, h).signal == "SELL" <==> exists r :: Fires(r, lookback, h) && Direction(r) == SELL
    ensures Advise(lookback, h).signal == "BUY" <==> exists r :: Fires(r, lookback, h) && Direction(r) == BUY
    ensures Advise(lookback, h).confidence == 0.85 <==> Advise(lookback, h).signal != "HOLD"
  {
    Bands.BandIsOrdered(points);
    FirstFiredIsFirst(RULES, lookback, h);
    forall r: Rule
      ensures r in RULES
    {
      EveryRuleListed(r);
    }
    forall r1: Rule, r2: Rule | Fires(r1, lookback, h) && Fires(r2, lookback, h)
      ensures Direction(r1) == Direction(r2)
    {
      DirectionExclusivity(r1, r2, lookback, h);
    }
  }

  /** The advice in terms of readings, for a newest band 1 clustered from contour points. */
  lemma AdviceInPlainTerms(points: seq<Bands.Point>, lookback: int, h: seq<Frame>)
    requires 2 <= |h| && Evaluable(h) && h[|h| - 1].band1 == Bands.BandUlm(points)
    ensures Advise(lookback, h) ==
      if PlainFires(BaseSell, lookback, h) || PlainFires(Uptrend2USell, lookback, h) ||
        PlainFires(PriceFilterSell, lookback, h) then Advice("SELL", 0.85)
      else if PlainFires(BaseBuy, lookback, h) || PlainFires(Downtrend2LBuy, lookback, h) ||
        PlainFires(PriceFilterBuy, lookback, h) then Advice("BUY", 0.85)
      else Advice("HOLD", 0.0)
  {
    Bands.BandIsOrdered(points);
    SignalInPlainTerms(lookback, h);
    EvaluateInPlainTerms(lookback, h);
  }

  /** With too little history the advice is to hold. */
  lemma NoAdviceYet(lookback: int, h: seq<Frame>)
    requires |h| < 2
    ensures Advise(lookback, h) == Advice("HOLD", 0.0) && Evaluate(lookback, h).name == InsufficientHistory
  {
  }
}
