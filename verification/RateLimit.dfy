/** The per-account sliding window of account_rate_limit.py, in its in-process form (a deque
    pruned from the left) and its Redis form (a sorted set of timestamps). */
module RateLimit {
  const WINDOW := 60.0
  const KEY_TTL := 65.0

  /** A configured limit of 0 falls back to 120; a negative limit switches limiting off. */
  function EffectiveLimit(configured: int): int {
    if configured == 0 then 120 else configured
  }

  /** The number of requests that a setting allows in a minute: any number for a negative one. */
  lemma LimitIs(configured: int)
    ensures configured < 0 ==> EffectiveLimit(configured) <= 0
    ensures configured == 0 ==> EffectiveLimit(configured) == 120
    ensures 0 < configured ==> EffectiveLimit(configured) == configured
  {
  }

  // ----- the full request log -----

  predicate Nondecreasing(log: seq<real>) {
    forall i, j :: 0 <= i < j < |log| ==> log[i] <= log[j]
  }

  /** The requests at or after a time. */
  function Since(log: seq<real>, start: real): seq<real> {
    if log == [] then []
    else if log[0] >= start then [log[0]] + Since(log[1..], start)
    else Since(log[1..], start)
  }

  /** The entries that the deque should hold: the log of the last window, seen from its last request. */
  function Recent(log: seq<real>): seq<real> {
    if log == [] then [] else Since(log, log[|log| - 1] - WINDOW)
  }

  lemma {:induction false} SinceConcat(a: seq<real>, b: seq<real>, start: real)
    ensures Since(a + b, start) == Since(a, start) + Since(b, start)
  {
    if a == [] {
      assert a + b == b;
    } else {
      SinceConcat(a[1..], b, start);
      assert (a + b)[1..] == a[1..] + b;
    }
  }

  lemma {:induction false} SinceTwice(log: seq<real>, earlier: real, later: real)
    requires earlier <= later
    ensures Since(Since(log, earlier), later) == Since(log, later)
    ensures |Since(log, later)| <= |Since(log, earlier)| <= |log|
  {
    if log != [] {
      SinceTwice(log[1..], earlier, later);
      if log[0] >= earlier {
        var kept := Since(log[1..], earlier);
        assert ([log[0]] + kept)[1..] == kept;
      }
    }
  }

  lemma {:induction false} SinceKeepsAll(log: seq<real>, start: real)
    requires Nondecreasing(log) && (log != [] ==> log[0] >= start)
    ensures Since(log, start) == log
  {
    if log != [] {
      SinceKeepsAll(log[1..], start);
    }
  }

  lemma {:induction false} SinceMembers(log: seq<real>, start: real)
    ensures forall t :: t in Since(log, start) <==> t in log && t >= start
    ensures Nondecreasing(log) ==> Nondecreasing(Since(log, start))
  {
    if log != [] {
      SinceMembers(log[1..], start);
      assert log == [log[0]] + log[1..];
      if Nondecreasing(log) && log[0] >= start {
        SinceKeepsAll(log, start);
      }
    }
  }

  // ----- verdicts over a run -----

  /** The verdict on request i of a run: every earlier request counts, accepted or not. */
  predicate Accepted(times: seq<real>, limit: nat, i: nat)
    requires i < |times|
  {
    |Since(times[..i + 1], times[i] - WINDOW)| <= limit
  }

  /** How many of the first n requests were accepted at a time between lo and hi. */
  function AcceptedWithin(times: seq<real>, limit: nat, lo: real, hi: real, n: nat): nat
    requires n <= |times|
  {
    if n == 0 then 0
    else
      var last := if lo <= times[n - 1] <= hi && Accepted(times, limit, n - 1) then 1 else 0;
      AcceptedWithin(times, limit, lo, hi, n - 1) + last
  }

  lemma {:induction false} AcceptedAreLogged(times: seq<real>, limit: nat, lo: real, hi: real, n: nat)
    requires n <= |times|
    ensures AcceptedWithin(times, limit, lo, hi, n) <= |Since(times[..n], lo)|
  {
    if n > 0 {
      AcceptedAreLogged(times, limit, lo, hi, n - 1);
      assert times[..n] == times[..n - 1] + [times[n - 1]];
      SinceConcat(times[..n - 1], [times[n - 1]], lo);
    }
  }

  /** No stretch of 60 seconds, wherever it starts, contains more accepted requests than the limit. */
  lemma {:induction false} NeverAboveLimit(times: seq<real>, limit: nat, lo: real, n: nat)
    requires n <= |times|
    ensures AcceptedWithin(times, limit, lo, lo + 60.0, n) <= limit
  {
    if n > 0 {
      if lo <= times[n - 1] <= lo + WINDOW && Accepted(times, limit, n - 1) {
        AcceptedAreLogged(times, limit, lo, lo + WINDOW, n);
        SinceTwice(times[..n], times[n - 1] - WINDOW, lo);
      } else {
        NeverAboveLimit(times, limit, lo, n - 1);
      }
    }
  }

  lemma {:induction false} SinceOfSorted(log: seq<real>, start: real, k: nat)
    requires Nondecreasing(log) && k < |log|
    ensures |Since(log, start)| <= k <==> log[|log| - 1 - k] < start
  {
    if log[0] >= start {
      SinceKeepsAll(log, start);
    } else if k < |log| - 1 {
      SinceOfSorted(log[1..], start, k);
    } else {
      SinceTwice(log[1..], start, start);
    }
  }

  /** With a clock that never goes back, a request is accepted exactly when the request `limit`
      places before it is more than a window old. A client that never slows down is therefore
      never served again, because its rejected requests count too. */
  lemma AcceptedExactly(times: seq<real>, limit: nat, i: nat)
    requires Nondecreasing(times) && i < |times| && 0 < limit
    ensures Accepted(times, limit, i) <==> i < limit || times[i - limit] < times[i] - 60.0
  {
    var log := times[..i + 1];
    if limit <= i {
      SinceOfSorted(log, times[i] - WINDOW, limit);
    } else {
      SinceTwice(log, times[i] - WINDOW, times[i] - WINDOW);
    }
  }

  // ----- agreement of the two stores -----

  /** What the Redis sorted set holds after a request at the end of the log. */
  function Distinct(log: seq<real>, now: real): set<real> {
    set t | t in log && t > now - WINDOW
  }

  function Elements(s: seq<real>): set<real> {
    set t | t in s
  }

  predicate NoDuplicates(s: seq<real>) {
    s != [] ==> s[0] !in s[1..] && NoDuplicates(s[1..])
  }

  lemma {:induction false} SetSize(s: seq<real>)
    ensures |Elements(s)| <= |s|
    ensures |Elements(s)| == |s| <==> NoDuplicates(s)
  {
    if s == [] {
      assert Elements(s) == {};
    } else {
      SetSize(s[1..]);
      assert s == [s[0]] + s[1..];
      assert Elements(s) == {s[0]} + Elements(s[1..]);
    }
  }

  /** The two stores count alike exactly when the window holds no repeated timestamp and no
      request exactly one window old; otherwise Redis counts fewer. */
  lemma CountsAgreeExactly(log: seq<real>, now: real)
    ensures |Distinct(log, now)| <= |Since(log, now - 60.0)|
    ensures |Distinct(log, now)| == |Since(log, now - 60.0)|
            <==> NoDuplicates(Since(log, now - 60.0)) && now - 60.0 !in log
  {
    SetSize(Since(log, now - WINDOW));
    DistinctAndBoundary(log, now);
  }

  lemma DistinctAndBoundary(log: seq<real>, now: real)
    ensures var all := Elements(Since(log, now - WINDOW));
      |all| == |Distinct(log, now)| + if now - WINDOW in log then 1 else 0
  {
    var start := now - WINDOW;
    SinceMembers(log, start);
    var boundary := if start in log then {start} else {};
    forall t
      ensures t in Elements(Since(log, start)) <==> t in Distinct(log, now) + boundary
    {
      assert t in Since(log, start) <==> t in log && (t > start || t == start);
    }
    assert Elements(Since(log, start)) == Distinct(log, now) + boundary;
    assert start !in Distinct(log, now);
  }

  predicate SameVerdict(log: seq<real>, now: real, limit: nat) {
    |Distinct(log, now)| <= limit <==> |Since(log, now - WINDOW)| <= limit
  }

  /** So the two paths give the same verdict at every limit exactly under that condition. */
  lemma VerdictsAgreeExactly(log: seq<real>, now: real)
    requires now in log
    ensures (forall limit: nat :: 0 < limit ==> SameVerdict(log, now, limit))
            <==> NoDuplicates(Since(log, now - 60.0)) && now - 60.0 !in log
  {
    CountsAgreeExactly(log, now);
    var limit := |Distinct(log, now)|;
    assert now in Distinct(log, now);
    assert 0 < limit;
    if |Distinct(log, now)| < |Since(log, now - WINDOW)| {
      assert !SameVerdict(log, now, limit);
    }
  }

  predicate StrictlyIncreasing(times: seq<real>) {
    forall i, j :: 0 <= i < j < |times| ==> times[i] < times[j]
  }

  lemma {:induction false} StrictHasNoDuplicates(s: seq<real>)
    requires StrictlyIncreasing(s)
    ensures NoDuplicates(s)
  {
    if s != [] {
      StrictHasNoDuplicates(s[1..]);
    }
  }

  lemma {:induction false} SinceStaysStrict(log: seq<real>, start: real)
    requires StrictlyIncreasing(log)
    ensures StrictlyIncreasing(Since(log, start))
  {
    if log != [] {
      SinceStaysStrict(log[1..], start);
      if log[0] >= start {
        SinceKeepsAll(log, start);
      }
    }
  }

  /** In particular over every run with a strictly increasing clock in which no two requests are
      exactly one window apart. */
  lemma StoresAgreeOnRun(times: seq<real>, limit: nat, i: nat)
    requires StrictlyIncreasing(times) && i < |times| && 0 < limit
    requires forall j :: 0 <= j < i ==> times[j] != times[i] - 60.0
    ensures Accepted(times, limit, i) <==> |Distinct(times[..i + 1], times[i])| <= limit
  {
    var log := times[..i + 1];
    SinceStaysStrict(log, times[i] - WINDOW);
    StrictHasNoDuplicates(Since(log, times[i] - WINDOW));
    assert log[i] in log;
    CountsAgreeExactly(log, times[i]);
  }

  // ----- the limiter -----

  /** A Redis key with its expiry time. */
  datatype ZKey = ZKey(members: set<real>, expiresAt: real)

  /** What is a full window old goes, the new timestamp comes. */
  function Refreshed(members: set<real>, now: real): set<real> {
    (set t | t in members && !(0.0 <= t <= now - WINDOW)) + {now}
  }

  ghost predicate DequeHolds(deque: seq<real>, log: seq<real>) {
    Nondecreasing(log) && deque == Recent(log)
  }

  ghost predicate KeyHolds(key: ZKey, log: seq<real>) {
    Nondecreasing(log) && (forall t :: t in log ==> 0.0 <= t) &&
    if log == [] then key.members == {}
    else key == ZKey(Distinct(log, log[|log| - 1]), log[|log| - 1] + KEY_TTL)
  }

  class AccountRateLimiter {
    var deques: map<string, seq<real>>
    var zsets: map<string, ZKey>
    ghost var localLog: map<string, seq<real>>
    ghost var redisLog: map<string, seq<real>>

    constructor ()
      ensures Valid() && localLog == map[] && redisLog == map[]
    {
      deques, zsets := map[], map[];
      localLog, redisLog := map[], map[];
    }

    function Deque(a: string): seq<real>
      reads this`deques
    {
      if a in deques then deques[a] else []
    }

    function ZSet(a: string): ZKey
      reads this`zsets
    {
      if a in zsets then zsets[a] else ZKey({}, 0.0)
    }

    ghost function Local(a: string): seq<real>
      reads this`localLog
    {
      if a in localLog then localLog[a] else []
    }

    ghost function Remote(a: string): seq<real>
      reads this`redisLog
    {
      if a in redisLog then redisLog[a] else []
    }

    ghost predicate Valid()
      reads this
    {
      LocalValid() && RedisValid()
    }

    ghost predicate LocalValid()
      reads this`deques, this`localLog
    {
      forall a: string :: LocalInSync(a)
    }

    ghost predicate RedisValid()
      reads this`zsets, this`redisLog
    {
      forall a: string :: RedisInSync(a)
    }

    ghost predicate LocalInSync(a: string)
      reads this`deques, this`localLog
    {
      DequeHolds(Deque(a), Local(a))
    }

    ghost predicate RedisInSync(a: string)
      reads this`zsets, this`redisLog
    {
      KeyHolds(ZSet(a), Remote(a))
    }

    /** Drops what is older than the window from the left end of a deque. */
    static method Prune(deque: seq<real>, now: real) returns (q: seq<real>)
      requires Nondecreasing(deque)
      ensures q == Since(deque, now - WINDOW)
    {
      q := deque;
      while q != [] && q[0] < now - WINDOW
        invariant Nondecreasing(q)
        invariant Since(q, now - WINDOW) == Since(deque, now - WINDOW)
      {
        q := q[1..];
      }
      SinceKeepsAll(q, now - WINDOW);
    }

    /** The in-process path. */
    method EnforceLocal(accountId: string, configured: int, now: real) returns (accepted: bool)
      requires Valid()
      requires NotBefore(Local(accountId), now)
      modifies this`deques, this`localLog
      ensures Valid()
      ensures configured < 0 ==> accepted && localLog == old(localLog)
      ensures 0 <= configured ==>
        localLog == old(localLog)[accountId := old(Local(accountId)) + [now]] &&
        (accepted <==> Accepted(old(Local(accountId)) + [now], if configured == 0 then 120 else configured,
                                |old(Local(accountId))|))
    {
      var limit := EffectiveLimit(configured);
      if limit <= 0 {
        return true;
      }
      ghost var log := Local(accountId);
      assert LocalInSync(accountId);
      DequeStep(Deque(accountId), log, now);
      var q := Prune(Deque(accountId), now);
      q := q + [now];
      deques := deques[accountId := q];
      localLog := localLog[accountId := log + [now]];
      accepted := |q| <= limit;
      forall a: string
        ensures LocalInSync(a)
      {
        if a != accountId {
          assert old(LocalInSync(a));
        }
      }
    }

    /** The Redis path: drop what is a full window old, add the timestamp, count, renew the expiry. */
    method EnforceRedis(accountId: string, configured: int, now: real) returns (accepted: bool)
      requires Valid() && 0.0 <= now
      requires NotBefore(Remote(accountId), now)
      modifies this`zsets, this`redisLog
      ensures Valid()
      ensures configured < 0 ==> accepted && redisLog == old(redisLog)
      ensures 0 <= configured ==>
        redisLog == old(redisLog)[accountId := old(Remote(accountId)) + [now]] &&
        ZSet(accountId).expiresAt == now + 65.0 &&
        (accepted <==> |Distinct(old(Remote(accountId)) + [now], now)| <= if configured == 0 then 120 else configured)
    {
      var limit := EffectiveLimit(configured);
      if limit <= 0 {
        return true;
      }
      assert RedisInSync(accountId);
      KeyStep(ZSet(accountId), Remote(accountId), now);
      var z := Refreshed(if ZSet(accountId).expiresAt <= now then {} else ZSet(accountId).members, now);
      accepted := |z| <= limit;
      WriteKey(accountId, ZKey(z, now + KEY_TTL), now);
    }

    /** One round on the sorted set of an account has left this key behind. */
    method WriteKey(accountId: string, key: ZKey, now: real)
      requires Valid() && KeyHolds(key, Remote(accountId) + [now])
      modifies this`zsets, this`redisLog
      ensures Valid()
      ensures redisLog == old(redisLog)[accountId := old(Remote(accountId)) + [now]] && ZSet(accountId) == key
    {
      zsets := zsets[accountId := key];
      redisLog := redisLog[accountId := Remote(accountId) + [now]];
      forall a: string
        ensures RedisInSync(a)
      {
        if a != accountId {
          assert old(RedisInSync(a));
        }
      }
    }
  }

  predicate NotBefore(log: seq<real>, now: real) {
    log != [] ==> log[|log| - 1] <= now
  }

  lemma NondecreasingStep(log: seq<real>, now: real)
    requires Nondecreasing(log) && NotBefore(log, now)
    ensures Nondecreasing(log + [now]) && forall t :: t in log ==> t <= now
  {
  }

  /** Pruning and appending keeps the deque in step with the log. */
  lemma DequeStep(deque: seq<real>, log: seq<real>, now: real)
    requires DequeHolds(deque, log) && NotBefore(log, now)
    ensures Nondecreasing(deque)
    ensures DequeHolds(Since(deque, now - WINDOW) + [now], log + [now])
    ensures forall limit: nat :: Accepted(log + [now], limit, |log|) <==> |Since(deque, now - WINDOW) + [now]| <= limit
  {
    NondecreasingStep(log, now);
    SinceConcat(log, [now], now - WINDOW);
    assert (log + [now])[..|log| + 1] == log + [now];
    if log != [] {
      var start := log[|log| - 1] - WINDOW;
      SinceTwice(log, start, now - WINDOW);
      SinceMembers(log, start);
    }
  }

  /** An expired key held nothing that still counts. */
  lemma ExpiredIsOld(key: ZKey, log: seq<real>, now: real)
    requires KeyHolds(key, log) && NotBefore(log, now) && key.expiresAt <= now
    ensures forall t :: t in log ==> t <= now - WINDOW
  {
    if log != [] {
      assert log[..|log| - 1] + [log[|log| - 1]] == log;
      NondecreasingStep(log[..|log| - 1], log[|log| - 1]);
    }
  }

  /** What counts now was stored or is new, and the other way round. */
  lemma CountsNow(key: ZKey, log: seq<real>, now: real, t: real)
    requires KeyHolds(key, log) && NotBefore(log, now) && 0.0 <= now
    ensures var z := if key.expiresAt <= now then {} else key.members;
      t in Distinct(log + [now], now) <==> t in Refreshed(z, now)
  {
    if key.expiresAt <= now {
      ExpiredIsOld(key, log, now);
    }
    assert log != [] ==> log[|log| - 1] <= now;
    assert t in log + [now] <==> t in log || t == now;
  }

  /** One Redis round keeps the key in step with the log, whether or not the key had expired. */
  lemma KeyStep(key: ZKey, log: seq<real>, now: real)
    requires KeyHolds(key, log) && NotBefore(log, now) && 0.0 <= now
    ensures var z := if key.expiresAt <= now then {} else key.members;
      Distinct(log + [now], now) == Refreshed(z, now)
    ensures KeyHolds(ZKey(Distinct(log + [now], now), now + KEY_TTL), log + [now])
  {
    NondecreasingStep(log, now);
    forall t: real {
      CountsNow(key, log, now, t);
    }
    assert forall t :: t in log + [now] ==> t in log || t == now;
  }
}
