/** The rolling per-account history of indicator_history_service.py: a Redis sorted set
    scored by capture time and trimmed by rank after every insert. */
module IndicatorHistory {
  import opened Options
  import opened Sequences
  import Strings

  /** A serialized frame. The text contains the timestamp, so a member has one score. */
  datatype Member = Member(ts: int, text: string)

  // ----- Redis sorted-set commands -----

  /** Sorted sets are ordered by score and then by member text. */
  predicate Before(m: Member, n: Member) {
    m.ts < n.ts || (m.ts == n.ts && Strings.Less(m.text, n.text))
  }

  function ZAdd(z: seq<Member>, m: Member): seq<Member> {
    if z == [] || Before(m, z[0]) then [m] + z
    else if z[0] == m then z
    else [z[0]] + ZAdd(z[1..], m)
  }

  /** ZREMRANGEBYRANK key 0 stop: a negative stop counts from the end. */
  function ZRemRangeFromStart(z: seq<Member>, stop: int): seq<Member> {
    var last := if stop < 0 then |z| + stop else stop;
    if last < 0 then z else if last >= |z| then [] else z[last + 1..]
  }

  /** One `append_frame`: insert, then trim. */
  function Append(z: seq<Member>, m: Member, maxFrames: nat): seq<Member> {
    ZRemRangeFromStart(ZAdd(z, m), -(maxFrames + 1))
  }

  /** The stored set after a run of appends. */
  function AppendAll(ms: seq<Member>, maxFrames: nat): seq<Member> {
    if ms == [] then [] else Append(AppendAll(ms[..|ms| - 1], maxFrames), ms[|ms| - 1], maxFrames)
  }

  /** The full chronological history, never trimmed. */
  function Chronological(ms: seq<Member>): seq<Member> {
    if ms == [] then [] else ZAdd(Chronological(ms[..|ms| - 1]), ms[|ms| - 1])
  }

  // ----- order -----

  lemma BeforeTotal(m: Member, n: Member)
    ensures m == n || Before(m, n) || Before(n, m)
  {
    Strings.LessTotal(m.text, n.text);
  }

  lemma BeforeStrict(m: Member, n: Member)
    requires Before(m, n)
    ensures m != n && !Before(n, m)
  {
    Strings.LessIrreflexive(m.text);
    if Before(n, m) {
      Strings.LessTransitive(m.text, n.text, m.text);
      assert false;
    }
  }

  lemma BeforeTransitive(m: Member, n: Member, o: Member)
    requires Before(m, n) && Before(n, o)
    ensures Before(m, o)
  {
    if m.ts == n.ts == o.ts {
      Strings.LessTransitive(m.text, n.text, o.text);
    }
  }

  predicate Ordered(z: seq<Member>) {
    z != [] ==> Ordered(z[1..]) && forall m :: m in z[1..] ==> Before(z[0], m)
  }

  lemma {:induction false} OrderedSuffix(z: seq<Member>, i: nat, m: Member, n: Member)
    requires Ordered(z) && i <= |z| && m in z[..i] && n in z[i..]
    ensures Before(m, n)
  {
    var y := z[1..];
    assert z[i..] == y[i - 1..];
    if m == z[0] {
      assert n in y;
    } else {
      assert z[..i] == [z[0]] + y[..i - 1];
      OrderedSuffix(y, i - 1, m, n);
    }
  }

  lemma {:induction false} ZAddKeepsOrder(z: seq<Member>, m: Member)
    requires Ordered(z)
    ensures Ordered(ZAdd(z, m))
    ensures forall n :: n in ZAdd(z, m) <==> n in z || n == m
  {
    if z == [] || Before(m, z[0]) {
      assert ([m] + z)[1..] == z;
      forall n | n in z
        ensures Before(m, n)
      {
        if n != z[0] {
          assert n in z[1..];
          BeforeTransitive(m, z[0], n);
        }
      }
    } else if z[0] != m {
      BeforeTotal(m, z[0]);
      ZAddKeepsOrder(z[1..], m);
      assert z == [z[0]] + z[1..];
    }
  }

  lemma {:induction false} ChronologicalIsOrdered(ms: seq<Member>)
    ensures Ordered(Chronological(ms))
    ensures forall n :: n in Chronological(ms) <==> n in ms
  {
    if ms != [] {
      var init := ms[..|ms| - 1];
      ChronologicalIsOrdered(init);
      ZAddKeepsOrder(Chronological(init), ms[|ms| - 1]);
      assert ms == init + [ms[|ms| - 1]];
    }
  }

  lemma OrderedHead(z: seq<Member>, m: Member)
    requires Ordered(z) && m in z
    ensures m == z[0] || (Before(z[0], m) && m in z[1..])
  {
    assert z == [z[0]] + z[1..];
  }

  lemma HeadNotAgain(z: seq<Member>)
    requires Ordered(z) && z != []
    ensures z[0] !in z[1..]
  {
    if z[0] in z[1..] {
      BeforeStrict(z[0], z[0]);
    }
  }

  /** A sorted set is determined by its members. */
  lemma {:induction false} OrderedUnique(y: seq<Member>, z: seq<Member>)
    requires Ordered(y) && Ordered(z)
    requires forall m :: m in y <==> m in z
    ensures y == z
  {
    assert y != [] ==> y[0] in y;
    assert z != [] ==> z[0] in z;
    if y != [] && z != [] {
      OrderedHead(z, y[0]);
      OrderedHead(y, z[0]);
      if y[0] != z[0] {
        BeforeStrict(y[0], z[0]);
      }
      HeadNotAgain(y);
      HeadNotAgain(z);
      forall m
        ensures m in y[1..] <==> m in z[1..]
      {
        assert m in y <==> m == y[0] || m in y[1..];
        assert m in z <==> m == z[0] || m in z[1..];
      }
      OrderedUnique(y[1..], z[1..]);
    }
  }

  // ----- trimming -----

  lemma AppendIsLastN(z: seq<Member>, m: Member, maxFrames: nat)
    ensures Append(z, m, maxFrames) == LastN(ZAdd(z, m), maxFrames)
  {
  }

  lemma {:induction false} ZAddGrows(z: seq<Member>, m: Member)
    ensures |z| <= |ZAdd(z, m)| <= |z| + 1
  {
    if z != [] {
      ZAddGrows(z[1..], m);
    }
  }

  lemma {:induction false} ZAddFirst(z: seq<Member>, m: Member)
    requires forall n :: n in z ==> Before(m, n)
    ensures ZAdd(z, m) == [m] + z
  {
  }

  lemma LastNOfTail(z: seq<Member>, x: Member, k: nat)
    requires |z| >= k
    ensures LastN([x] + z, k) == LastN(z, k)
  {
  }

  lemma TrimThenAddFirst(z: seq<Member>, m: Member, k: nat)
    requires Ordered(z) && |z| > k && (z[0] == m || Before(m, z[0]))
    ensures LastN(ZAdd(LastN(z, k), m), k) == LastN(z, k) == LastN(ZAdd(z, m), k)
  {
    var y := LastN(z, k);
    forall n | n in y
      ensures Before(m, n)
    {
      assert n in z[1..];
      if z[0] != m {
        BeforeTransitive(m, z[0], n);
      }
    }
    ZAddFirst(y, m);
    LastNOfTail(y, m, k);
    LastNOfTail(z, m, k);
  }

  /** Insertion behind the head leaves the head alone. */
  lemma TrimThenAddLater(z: seq<Member>, m: Member, k: nat)
    requires |z| > k && z[0] != m && !Before(m, z[0])
    requires LastN(ZAdd(LastN(z[1..], k), m), k) == LastN(ZAdd(z[1..], m), k)
    ensures LastN(ZAdd(LastN(z, k), m), k) == LastN(ZAdd(z, m), k)
  {
    var rest := z[1..];
    assert ZAdd(z, m) == [z[0]] + ZAdd(rest, m);
    assert |ZAdd(rest, m)| >= k by {
      ZAddGrows(rest, m);
    }
    assert LastN([z[0]] + ZAdd(rest, m), k) == LastN(ZAdd(rest, m), k) by {
      LastNOfTail(ZAdd(rest, m), z[0], k);
    }
    assert LastN(rest, k) == LastN(z, k);
  }

  /** Trimming before an insert loses nothing that trimming after it would keep. */
  lemma {:induction false} TrimThenAdd(z: seq<Member>, m: Member, k: nat)
    requires Ordered(z)
    ensures LastN(ZAdd(LastN(z, k), m), k) == LastN(ZAdd(z, m), k)
  {
    if |z| <= k {
      assert LastN(z, k) == z;
    } else if z[0] == m || Before(m, z[0]) {
      TrimThenAddFirst(z, m, k);
    } else {
      TrimThenAdd(z[1..], m, k);
      TrimThenAddLater(z, m, k);
    }
  }

  lemma StoredStep(ms: seq<Member>, m: Member, maxFrames: nat)
    ensures Append(LastN(Chronological(ms), maxFrames), m, maxFrames) == LastN(Chronological(ms + [m]), maxFrames)
  {
    AppendIsLastN(LastN(Chronological(ms), maxFrames), m, maxFrames);
    ChronologicalIsOrdered(ms);
    TrimThenAdd(Chronological(ms), m, maxFrames);
    assert (ms + [m])[..|ms + [m]| - 1] == ms;
  }

  lemma AppendAllStep(ms: seq<Member>, m: Member, maxFrames: nat)
    ensures AppendAll(ms + [m], maxFrames) == Append(AppendAll(ms, maxFrames), m, maxFrames)
  {
    assert (ms + [m])[..|ms + [m]| - 1] == ms;
  }

  lemma StoredOneMore(ms: seq<Member>, m: Member, maxFrames: nat)
    requires AppendAll(ms, maxFrames) == LastN(Chronological(ms), maxFrames)
    ensures AppendAll(ms + [m], maxFrames) == LastN(Chronological(ms + [m]), maxFrames)
  {
    AppendAllStep(ms, m, maxFrames);
    StoredStep(ms, m, maxFrames);
  }

  /** Trimming after every insert stores the same frames as trimming once at the end. */
  lemma {:induction false} StoredIsNewest(ms: seq<Member>, maxFrames: nat)
    ensures AppendAll(ms, maxFrames) == LastN(Chronological(ms), maxFrames)
  {
    if ms != [] {
      var init := ms[..|ms| - 1];
      StoredIsNewest(init, maxFrames);
      assert ms == init + [ms[|ms| - 1]];
      StoredOneMore(init, ms[|ms| - 1], maxFrames);
    }
  }

  /** The order of the appends never matters, and storing the same member again changes nothing. */
  lemma ArrivalOrderIrrelevant(ms: seq<Member>, ns: seq<Member>, maxFrames: nat)
    requires forall m :: m in ms <==> m in ns
    ensures Chronological(ms) == Chronological(ns)
    ensures AppendAll(ms, maxFrames) == AppendAll(ns, maxFrames)
  {
    ChronologicalIsOrdered(ms);
    ChronologicalIsOrdered(ns);
    OrderedUnique(Chronological(ms), Chronological(ns));
    StoredIsNewest(ms, maxFrames);
    StoredIsNewest(ns, maxFrames);
  }

  lemma {:induction false} OrderedAt(z: seq<Member>, i: nat, j: nat)
    requires Ordered(z) && i < j < |z|
    ensures Before(z[i], z[j]) && z[i].ts <= z[j].ts
  {
    if i == 0 {
      assert z[j] == z[1..][j - 1];
    } else {
      OrderedAt(z[1..], i - 1, j - 1);
    }
  }

  /** What is stored is in the order of capture times, no frame is stored twice, and no frame is stored
      that was not appended. */
  lemma StoredInCaptureOrder(ms: seq<Member>, maxFrames: nat, i: nat, j: nat)
    requires i < j < |AppendAll(ms, maxFrames)|
    ensures var z := AppendAll(ms, maxFrames);
      z[i].ts <= z[j].ts && z[i] != z[j] && z[i] in ms && z[j] in ms && |z| <= maxFrames
  {
    StoredIsNewest(ms, maxFrames);
    ChronologicalIsOrdered(ms);
    LastInOrder(Chronological(ms), maxFrames, i, j);
  }

  lemma LastInOrder(z: seq<Member>, n: nat, i: nat, j: nat)
    requires Ordered(z) && i < j < |LastN(z, n)|
    ensures var t := LastN(z, n); t[i].ts <= t[j].ts && t[i] != t[j] && t[i] in z && t[j] in z
  {
    var k := |z| - |LastN(z, n)|;
    OrderedAt(z, k + i, k + j);
    BeforeStrict(z[k + i], z[k + j]);
  }

  /** What is stored is in capture order, and every frame that was dropped is older than every frame kept. */
  lemma DroppedFramesAreOlder(ms: seq<Member>, maxFrames: nat, dropped: Member, kept: Member)
    requires dropped in ms && dropped !in AppendAll(ms, maxFrames) && kept in AppendAll(ms, maxFrames)
    ensures kept in ms && Before(dropped, kept) && dropped.ts <= kept.ts && |AppendAll(ms, maxFrames)| == maxFrames
  {
    StoredIsNewest(ms, maxFrames);
    ChronologicalIsOrdered(ms);
    assert dropped in Chronological(ms);
    SplitByAge(Chronological(ms), |Chronological(ms)| - |AppendAll(ms, maxFrames)|, dropped, kept);
  }

  lemma SplitByAge(z: seq<Member>, i: nat, dropped: Member, kept: Member)
    requires Ordered(z) && i <= |z| && dropped in z && dropped !in z[i..] && kept in z[i..]
    ensures kept in z && Before(dropped, kept) && i > 0
  {
    assert z == z[..i] + z[i..];
    OrderedSuffix(z, i, dropped, kept);
  }

  // ----- the service -----

  function Lookup(store: map<string, seq<Member>>, accountId: string): seq<Member> {
    if accountId in store then store[accountId] else []
  }

  ghost predicate IsParsed<F>(frames: seq<F>, parse: Member -> F, ms: seq<Member>) {
    |frames| == |ms| && forall i :: 0 <= i < |ms| ==> frames[i] == parse(ms[i])
  }

  /** A store shared by all accounts. Parsing JSON text back into a frame is a parameter. */
  class IndicatorHistoryService<F> {
    const maxFrames: nat
    const parse: Member -> F
    var zsets: map<string, seq<Member>>
    ghost var appended: map<string, seq<Member>>

    constructor (maxFrames: nat, parse: Member -> F)
      ensures Valid()
      ensures this.maxFrames == maxFrames && this.parse == parse && appended == map[]
    {
      this.maxFrames := maxFrames;
      this.parse := parse;
      zsets := map[];
      appended := map[];
    }

    function Stored(accountId: string): seq<Member>
      reads this
    {
      Lookup(zsets, accountId)
    }

    ghost function Appended(accountId: string): seq<Member>
      reads this
    {
      Lookup(appended, accountId)
    }

    ghost predicate Valid()
      reads this
    {
      forall a: string :: InSync(a)
    }

    ghost predicate InSync(accountId: string)
      reads this
    {
      Stored(accountId) == AppendAll(Appended(accountId), maxFrames)
    }

    /** What is stored is the newest part of everything appended, in capture order. */
    lemma StoredIs(accountId: string)
      requires Valid()
      ensures Stored(accountId) == LastN(Chronological(Appended(accountId)), maxFrames)
    {
      assert InSync(accountId);
      StoredIsNewest(Appended(accountId), maxFrames);
    }

    method AppendFrame(accountId: string, text: string, capturedAtMs: Option<int>, nowMs: int)
      requires Valid()
      modifies this
      ensures Valid()
      ensures var ts := if capturedAtMs.Some? then capturedAtMs.value else nowMs;
        appended == old(appended)[accountId := old(Appended(accountId)) + [Member(ts, text)]]
    {
      var ts := if capturedAtMs.Some? then capturedAtMs.value else nowMs;
      var m := Member(ts, text);
      ghost var ms := Appended(accountId);
      var z := Append(Stored(accountId), m, maxFrames);
      assert InSync(accountId);
      AppendAllStep(ms, m, maxFrames);
      zsets := zsets[accountId := z];
      appended := appended[accountId := ms + [m]];
      forall a: string
        ensures InSync(a)
      {
        if a != accountId {
          assert old(InSync(a));
        }
      }
    }

    method GetHistory(accountId: string) returns (frames: seq<F>)
      requires Valid()
      ensures IsParsed(frames, parse, LastN(Chronological(Appended(accountId)), maxFrames))
    {
      var raw := Stored(accountId);
      StoredIs(accountId);
      frames := [];
      for i := 0 to |raw|
        invariant |frames| == i && forall j :: 0 <= j < i ==> frames[j] == parse(raw[j])
      {
        frames := frames + [parse(raw[i])];
      }
    }

    method Clear(accountId: string)
      requires Valid()
      modifies this
      ensures Valid()
      ensures Stored(accountId) == [] && appended == old(appended) - {accountId}
    {
      zsets := zsets - {accountId};
      appended := appended - {accountId};
      forall a: string
        ensures InSync(a)
      {
        if a != accountId {
          assert old(InSync(a));
        }
      }
    }
  }
}
