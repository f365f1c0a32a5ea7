/** When a history may be cut down to its newest frames without changing the advice. */
module TrimTheorem {
  import opened Options
  import opened Sequences
  import opened SignalRules

  /** Keeping only the newest k frames never changes what the engine answers. */
  ghost predicate TrimSafe(lookback: int, k: nat) {
    forall h: seq<Frame> :: Evaluable(h) ==> SameVerdict(lookback, k, h)
  }

  predicate SameVerdict(lookback: int, k: nat, h: seq<Frame>)
    requires Evaluable(h)
  {
    Evaluable(LastN(h, k)) && Evaluate(lookback, LastN(h, k)) == Evaluate(lookback, h)
  }

  predicate CoversWindow(lookback: int, k: nat) {
    2 <= k && 1 <= lookback && (lookback <= k || lookback <= 3)
  }

  lemma {:induction false} FirstFiredSameWindow(rules: seq<Rule>, lookback: int, prev: Frame, cur: Frame,
                                                h1: seq<Frame>, h2: seq<Frame>)
    requires Complete(prev, cur)
    requires WindowDivergence(lookback, h1) == WindowDivergence(lookback, h2)
    ensures FirstFired(rules, lookback, prev, cur, h1) == FirstFired(rules, lookback, prev, cur, h2)
  {
    if rules != [] {
      FirstFiredSameWindow(rules[1..], lookback, prev, cur, h1, h2);
    }
  }

  lemma CoveredWindowIsSafe(lookback: int, k: nat, h: seq<Frame>)
    requires CoversWindow(lookback, k) && Evaluable(h)
    ensures SameVerdict(lookback, k, h)
  {
    var t := LastN(h, k);
    if lookback <= k {
      assert Tail(t, lookback) == Tail(h, lookback);
    } else {
      AtMostOnePerFrame(Tail(h, lookback));
      AtMostOnePerFrame(Tail(t, lookback));
    }
    if 2 <= |h| {
      FirstFiredSameWindow(RULES, lookback, h[|h| - 2], h[|h| - 1], h, t);
    }
  }

  // ----- histories that show every other setting unsafe -----

  function Reading(band2M: real, rsi6: real, price: Option<real>): Frame {
    Frame(Some(Band(10.0, 20.0, 30.0)), Some(Band(10.0, band2M, 30.0)), Some(20.0),
          if price.Some? then Some(1.0) else None, Some(rsi6), price, None, None)
  }

  function SparseFrame(n: nat, first: nat, i: nat): Frame {
    if i + 1 == n then Reading(5.0, 5.0, Some(5.0))
    else if i + 2 == n then Reading(15.0, 15.0, Some(5.0))
    else if i + 3 == n || i == first then Reading(15.0, 15.0, Some(9.0))
    else Reading(15.0, 15.0, None)
  }

  /** n frames that end in a SELL set-up, with a price only on frame `first` and on the last three. */
  function Sparse(n: nat, first: nat): (h: seq<Frame>)
    ensures |h| == n && forall i :: 0 <= i < n ==> h[i] == SparseFrame(n, first, i)
  {
    seq(n, i requires 0 <= i < n => SparseFrame(n, first, i))
  }

  lemma {:induction false} SparseReadings(n: nat, first: nat, j: nat)
    requires first + 4 <= n && first < j <= n - 3
    ensures Prices(Sparse(n, first)[j..]) == [9.0, 5.0, 5.0]
    ensures Ccis(Sparse(n, first)[j..]) == [1.0, 1.0, 1.0]
    decreases n - j
  {
    var h := Sparse(n, first);
    assert h[j..][1..] == h[j + 1..];
    if j == n - 3 {
      assert h[j + 1..][1..] == [h[n - 1]];
      assert Prices([h[n - 1]]) == [5.0] && Ccis([h[n - 1]]) == [1.0];
      assert Prices(h[j + 1..]) == [5.0, 5.0] && Ccis(h[j + 1..]) == [1.0, 1.0];
    } else {
      SparseReadings(n, first, j + 1);
    }
  }

  lemma SparseDiverges(lookback: int, n: nat, first: nat)
    requires first + 4 <= n && Tail(Sparse(n, first), lookback) == Sparse(n, first)[first..]
    ensures WindowDivergence(lookback, Sparse(n, first)) == Some(Bearish)
  {
    var w := Sparse(n, first)[first..];
    assert w[1..] == Sparse(n, first)[first + 1..];
    SparseReadings(n, first, first + 1);
    assert Prices(w) == [9.0, 9.0, 5.0, 5.0] && Ccis(w) == [1.0, 1.0, 1.0, 1.0];
    assert Prices(w)[2..] == [5.0, 5.0] && Prices(w)[..2] == [9.0, 9.0];
    assert Ccis(w)[2..] == [1.0, 1.0] == Ccis(w)[..2];
    assert UnconfirmedHigh(Ccis(w), Prices(w));
  }

  /** On the last two sparse frames, the base SELL rule waits for the divergence alone, and no other rule is near. */
  lemma SparseRules(rule: Rule, divergence: Option<Divergence>, n: nat, first: nat)
    requires first + 4 <= n
    ensures var (prev, cur) := (SparseFrame(n, first, n - 2), SparseFrame(n, first, n - 1));
      ConditionsGiven(rule, divergence, prev, cur).AllHold() <==> rule == BaseSell && divergence == Some(Bearish)
  {
  }

  lemma BaseSellComesFirst(lookback: int, h: seq<Frame>)
    requires 2 <= |h| && Evaluable(h) && Fires(BaseSell, lookback, h)
    ensures Evaluate(lookback, h).fired
  {
    assert RULES[0] == BaseSell;
  }

  lemma SparseSells(lookback: int, n: nat, first: nat)
    requires first + 4 <= n && Tail(Sparse(n, first), lookback) == Sparse(n, first)[first..]
    ensures Evaluable(Sparse(n, first)) && Evaluate(lookback, Sparse(n, first)).fired
  {
    SparseDiverges(lookback, n, first);
    SparseRules(BaseSell, Some(Bearish), n, first);
    FiresGiven(BaseSell, lookback, Sparse(n, first), Some(Bearish),
               SparseFrame(n, first, n - 2), SparseFrame(n, first, n - 1));
    BaseSellComesFirst(lookback, Sparse(n, first));
  }

  lemma SparseTrimmedHasNoDivergence(lookback: int, n: nat, first: nat, k: nat)
    requires first + 4 <= n && 2 <= k && n - k > first
    requires lookback <= 0 || k <= lookback
    ensures WindowDivergence(lookback, LastN(Sparse(n, first), k)) == None
  {
    var w := Tail(LastN(Sparse(n, first), k), lookback);
    if |w| >= 3 {
      assert w == Sparse(n, first)[n - |w|..];
      SparseReadings(n, first, n - |w|);
    } else {
      AtMostOnePerFrame(w);
    }
  }

  lemma SparseTrimmedIsSilent(lookback: int, n: nat, first: nat, k: nat)
    requires first + 4 <= n && 2 <= k && n - k > first
    requires lookback <= 0 || k <= lookback
    ensures var t := LastN(Sparse(n, first), k); Evaluable(t) && !Evaluate(lookback, t).fired
  {
    var t := LastN(Sparse(n, first), k);
    SparseTrimmedEnd(n, first, k);
    SparseTrimmedHasNoDivergence(lookback, n, first, k);
    forall rule: Rule
      ensures !Fires(rule, lookback, t)
    {
      SparseRules(rule, None, n, first);
      FiresGiven(rule, lookback, t, None, SparseFrame(n, first, n - 2), SparseFrame(n, first, n - 1));
    }
    NothingFires(lookback, t);
  }

  lemma SparseTrimmedEnd(n: nat, first: nat, k: nat)
    requires first + 4 <= n && 2 <= k
    ensures var t := LastN(Sparse(n, first), k);
      2 <= |t| && Evaluable(t) &&
      t[|t| - 2] == SparseFrame(n, first, n - 2) && t[|t| - 1] == SparseFrame(n, first, n - 1)
  {
  }

  lemma NothingFires(lookback: int, h: seq<Frame>)
    requires 2 <= |h| && Evaluable(h) && forall rule: Rule :: !Fires(rule, lookback, h)
    ensures !Evaluate(lookback, h).fired
  {
    FirstFiredIsFirst(RULES, lookback, h);
  }

  lemma UncoveredWindowIsUnsafe(lookback: int, k: nat)
    requires !CoversWindow(lookback, k)
    ensures exists h: seq<Frame> :: Evaluable(h) && !SameVerdict(lookback, k, h)
  {
    if k < 2 {
      var h := [Reading(15.0, 15.0, None), Reading(15.0, 15.0, None)];
      FirstFiredIsFirst(RULES, lookback, h);
      assert Evaluable(h) && !SameVerdict(lookback, k, h);
    } else {
      var first := if lookback > 0 then 0 else -lookback;
      var n := if lookback > 0 then lookback else first + k + 2;
      var h := Sparse(n, first);
      assert Tail(h, lookback) == h[first..];
      SparseSells(lookback, n, first);
      SparseTrimmedIsSilent(lookback, n, first, k);
      assert !SameVerdict(lookback, k, h);
    }
  }

  /** Cutting to the newest k frames is safe exactly when two frames are kept and the lookback
      is positive and either fits in them or is too short for any divergence. A lookback of 0 is
      never safe, because it reads the whole history. */
  lemma TrimSafeExactly(lookback: int, k: nat)
    ensures TrimSafe(lookback, k) <==> CoversWindow(lookback, k)
  {
    if CoversWindow(lookback, k) {
      forall h: seq<Frame> | Evaluable(h)
        ensures SameVerdict(lookback, k, h)
      {
        CoveredWindowIsSafe(lookback, k, h);
      }
    } else {
      UncoveredWindowIsUnsafe(lookback, k);
    }
  }
}
