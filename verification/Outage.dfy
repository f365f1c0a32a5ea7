/** What an outage leaves behind on the server: the phone queues, evicts and replays captures
    (OfflineCache), and the server keeps one history per account (IndicatorHistory). */
module Outage {
  import opened CacheRuns
  import opened FileNames
  import opened IndicatorHistory
  import opened OfflineCache
  import opened Options
  import opened Sequences
  import opened Strings

  // ----- files and the members they become -----

  /** Captured between September 2001 and November 2286. */
  predicate Timely(f: File) {
    Written(f) && 1_000_000_000_000 <= TimeOf(f) < 10_000_000_000_000
  }

  ghost predicate AllTimely(fs: seq<File>) {
    forall f :: f in fs ==> Timely(f)
  }

  /** What the server stores for the files of one account: nothing for a file of another account,
      and otherwise a frame scored by the capture time that came with the file. */
  ghost predicate ServerFor(upload: File -> Option<Member>, a: string) {
    forall f :: Stores(upload, a, f)
  }

  predicate Stores(upload: File -> Option<Member>, a: string, f: File) {
    match upload(f)
    case None => AccountOf(f) != a
    case Some(m) => AccountOf(f) == a && m.ts == TimeOf(f)
  }

  function Uploaded(upload: File -> Option<Member>, fs: seq<File>): seq<Member> {
    if fs == [] then [] else Own(upload(fs[0])) + Uploaded(upload, fs[1..])
  }

  function Own(m: Option<Member>): seq<Member> {
    match m case None => [] case Some(x) => [x]
  }

  lemma {:induction false} UploadedMembers(upload: File -> Option<Member>, fs: seq<File>, m: Member)
    ensures m in Uploaded(upload, fs) <==> exists f :: f in fs && upload(f) == Some(m)
  {
    if fs != [] {
      UploadedMembers(upload, fs[1..], m);
      assert forall f :: f in fs <==> f == fs[0] || f in fs[1..];
    }
  }

  lemma TimesByName(t1: nat, t2: nat, a: string)
    requires 1_000_000_000_000 <= t1 < 10_000_000_000_000 && 1_000_000_000_000 <= t2 < 10_000_000_000_000
    requires Less(FileFor(t1, a), FileFor(t2, a))
    ensures t1 < t2
  {
    LessIrreflexive(FileFor(t1, a));
    if t2 < t1 {
      MillisecondNamesSortByTime(t2, a, t1, a);
      LessReversed(FileFor(t1, a), FileFor(t2, a));
      assert false;
    }
  }

  /** Among the files of one account, name order is time order. */
  lemma LaterNameLaterTime(f: File, g: File)
    requires Timely(f) && Timely(g) && AccountOf(f) == AccountOf(g) && Less(f.name, g.name)
    ensures TimeOf(f) < TimeOf(g)
  {
    TimesByName(TimeOf(f) as int, TimeOf(g) as int, AccountOf(f));
  }

  /** Later files become newer frames. */
  ghost predicate Monotone(upload: File -> Option<Member>, fs: seq<File>) {
    forall i, j :: 0 <= i < j < |fs| && upload(fs[i]).Some? && upload(fs[j]).Some? ==>
      Before(upload(fs[i]).value, upload(fs[j]).value)
  }

  lemma UploadsAreMonotone(upload: File -> Option<Member>, a: string, fs: seq<File>)
    requires ServerFor(upload, a) && Increasing(fs) && AllTimely(fs)
    ensures Monotone(upload, fs)
  {
    forall i, j | 0 <= i < j < |fs| && upload(fs[i]).Some? && upload(fs[j]).Some?
      ensures Before(upload(fs[i]).value, upload(fs[j]).value)
    {
      assert Stores(upload, a, fs[i]) && Stores(upload, a, fs[j]);
      assert Less(fs[i].name, fs[j].name);
      LaterNameLaterTime(fs[i], fs[j]);
    }
  }

  lemma {:induction false} UploadedIsOrdered(upload: File -> Option<Member>, fs: seq<File>)
    requires Monotone(upload, fs)
    ensures Ordered(Uploaded(upload, fs))
  {
    if fs != [] {
      var rest := Uploaded(upload, fs[1..]);
      UploadedIsOrdered(upload, fs[1..]);
      if upload(fs[0]).Some? {
        forall m | m in rest
          ensures Before(upload(fs[0]).value, m)
        {
          UploadedMembers(upload, fs[1..], m);
          var j :| 0 <= j < |fs[1..]| && upload(fs[1..][j]) == Some(m);
          assert fs[1..][j] == fs[j + 1];
        }
        assert ([upload(fs[0]).value] + rest)[1..] == rest;
      } else {
        assert [] + rest == rest;
      }
    }
  }

  // ----- the newest of a history -----

  lemma LastNOfRest(z: seq<Member>, k: nat)
    requires |z| > k
    ensures LastN(z[1..], k) == LastN(z, k) && |LastN(z, k)| == k
    ensures forall m :: m in LastN(z, k) ==> m in z[1..]
  {
  }

  /** A history that lacks only frames outside the newest k has the same newest k. */
  lemma {:induction false} NewestOfSubset(y: seq<Member>, z: seq<Member>, k: nat)
    requires Ordered(y) && Ordered(z)
    requires (forall m :: m in y ==> m in z) && forall m :: m in LastN(z, k) ==> m in y
    ensures LastN(y, k) == LastN(z, k)
    decreases |z|, 1
  {
    if |z| <= k {
      OrderedUnique(y, z);
    } else {
      LastNOfRest(z, k);
      assert z == [z[0]] + z[1..];
      if z[0] in y {
        HeadIsShared(y, z);
        NewestOfTail(y, z, k);
      } else {
        NewestOfSubset(y, z[1..], k);
      }
    }
  }

  lemma NewestOfTail(y: seq<Member>, z: seq<Member>, k: nat)
    requires Ordered(y) && Ordered(z) && |z| > k && y != [] && y[0] == z[0]
    requires (forall m :: m in y ==> m in z) && forall m :: m in LastN(z, k) ==> m in y
    ensures LastN(y, k) == LastN(z, k)
    decreases |z|, 0
  {
    var (ys, zs) := (y[1..], z[1..]);
    LastNOfRest(z, k);
    HeadNotAgain(y);
    HeadNotAgain(z);
    assert y == [y[0]] + ys && z == [z[0]] + zs;
    forall m | m in ys
      ensures m in zs
    {
      assert m in y && m != y[0];
    }
    NewestOfSubset(ys, zs, k);
    assert |ys| >= k;
    LastNOfTail(ys, y[0], k);
  }

  lemma HeadIsShared(y: seq<Member>, z: seq<Member>)
    requires Ordered(y) && Ordered(z) && z != [] && z[0] in y && forall m :: m in y ==> m in z
    ensures y[0] == z[0]
  {
    OrderedHead(y, z[0]);
    assert y[0] in z;
    OrderedHead(z, y[0]);
    if y[0] != z[0] {
      BeforeStrict(y[0], z[0]);
    }
  }

  lemma {:induction false} OrderedDistinct(z: seq<Member>)
    requires Ordered(z)
    ensures |set m | m in z| == |z|
  {
    if z == [] {
      assert (set m | m in z) == {};
    } else {
      OrderedDistinct(z[1..]);
      HeadNotAgain(z);
      assert z == [z[0]] + z[1..];
      assert (set m | m in z) == {z[0]} + (set m | m in z[1..]);
    }
  }

  lemma {:induction false} SuffixIsOrdered(z: seq<Member>, i: nat)
    requires Ordered(z) && i <= |z|
    ensures Ordered(z[i..])
  {
    if i > 0 {
      SuffixIsOrdered(z[1..], i - 1);
      assert z[1..][i - 1..] == z[i..];
    }
  }

  /** A member with k newer ones is not among the newest k. */
  lemma Outnumbered(z: seq<Member>, m: Member, newer: seq<Member>, k: nat)
    requires Ordered(z) && Ordered(newer) && |newer| >= k
    requires forall x :: x in newer ==> x in z && Before(m, x)
    ensures m !in LastN(z, k)
  {
    var w := LastN(z, k);
    if m in w {
      var i := |z| - |w|;
      assert w == z[i..] && z == z[..i] + z[i..];
      forall x | x in newer
        ensures x in w && x != m
      {
        StaysBehind(z, i, m, x);
      }
      SuffixIsOrdered(z, i);
      TooMany(w, newer, m);
      assert false;
    }
  }

  lemma StaysBehind(z: seq<Member>, i: nat, m: Member, x: Member)
    requires Ordered(z) && i <= |z| && m in z[i..] && x in z && Before(m, x)
    ensures x in z[i..] && x != m
  {
    BeforeStrict(m, x);
    assert z == z[..i] + z[i..];
    if x in z[..i] {
      OrderedSuffix(z, i, x, m);
    }
  }

  lemma TooMany(w: seq<Member>, newer: seq<Member>, m: Member)
    requires Ordered(w) && Ordered(newer) && m in w && m !in newer && forall x :: x in newer ==> x in w
    ensures |newer| < |w|
  {
    OrderedDistinct(w);
    OrderedDistinct(newer);
    Subset((set x | x in newer) + {m}, set x | x in w);
  }

  // ----- what the server ends up with -----

  /** The frames of an account that were appended on the server: those sent live, and the uploads of
      the files that a run delivered, in any order and any number of times. */
  ghost predicate Arrived(arrivals: seq<Member>, live: seq<Member>, uploads: seq<Member>) {
    forall m :: m in arrivals <==> m in live || m in uploads
  }

  /** A capture that did not reach the server, is not there from elsewhere, and would be kept there. */
  ghost predicate Missed(s: State, upload: File -> Option<Member>, live: seq<Member>, maxFrames: nat, f: File) {
    f in s.captured && f !in s.delivered && upload(f).Some? && upload(f).value !in live &&
    upload(f).value in AppendAll(live + Uploaded(upload, s.captured), maxFrames)
  }

  lemma SameFile(f: File, g: File)
    requires Written(f) && Written(g) && TimeOf(f) == TimeOf(g) && AccountOf(f) == AccountOf(g)
    ensures f.name == g.name
  {
  }

  lemma OneUploadEach(s: State, upload: File -> Option<Member>, a: string, f: File, g: File)
    requires Sound(s) && ServerFor(upload, a) && f in s.captured && g in s.captured
    requires upload(f).Some? && upload(f) == upload(g)
    ensures f == g
  {
    assert Stores(upload, a, f) && Stores(upload, a, g);
    SameFile(f, g);
    var i :| 0 <= i < |s.captured| && s.captured[i] == f;
    var j :| 0 <= j < |s.captured| && s.captured[j] == g;
  }

  lemma DeliveredUploads(s: State, upload: File -> Option<Member>, m: Member)
    requires Balanced(s) && m in Uploaded(upload, s.delivered)
    ensures m in Uploaded(upload, s.captured)
  {
    UploadedMembers(upload, s.delivered, m);
    var f :| f in s.delivered && upload(f) == Some(m);
    WasCaptured(s, f);
    UploadedMembers(upload, s.captured, m);
  }

  lemma StoredMembers(ms: seq<Member>, maxFrames: nat, m: Member)
    requires m in AppendAll(ms, maxFrames)
    ensures m in ms
  {
    StoredIsNewest(ms, maxFrames);
    ChronologicalIsOrdered(ms);
  }

  lemma NothingMissed(s: State, upload: File -> Option<Member>, live: seq<Member>, arrivals: seq<Member>,
                      maxFrames: nat)
    requires Balanced(s) && Arrived(arrivals, live, Uploaded(upload, s.delivered))
    requires forall f :: !Missed(s, upload, live, maxFrames, f)
    ensures AppendAll(arrivals, maxFrames) == AppendAll(live + Uploaded(upload, s.captured), maxFrames)
  {
    var all := live + Uploaded(upload, s.captured);
    forall m | m in arrivals
      ensures m in all
    {
      if m !in live {
        DeliveredUploads(s, upload, m);
      }
    }
    forall m | m in AppendAll(all, maxFrames)
      ensures m in arrivals
    {
      StoredMembers(all, maxFrames, m);
      if m !in live {
        UploadedMembers(upload, s.captured, m);
        var f :| f in s.captured && upload(f) == Some(m);
        assert !Missed(s, upload, live, maxFrames, f);
        UploadedMembers(upload, s.delivered, m);
      }
    }
    SameNewest(arrivals, all, maxFrames);
  }

  lemma SameNewest(arrivals: seq<Member>, all: seq<Member>, maxFrames: nat)
    requires (forall m :: m in arrivals ==> m in all) && forall m :: m in AppendAll(all, maxFrames) ==> m in arrivals
    ensures AppendAll(arrivals, maxFrames) == AppendAll(all, maxFrames)
  {
    StoredIsNewest(arrivals, maxFrames);
    StoredIsNewest(all, maxFrames);
    ChronologicalIsOrdered(arrivals);
    ChronologicalIsOrdered(all);
    NewestOfSubset(Chronological(arrivals), Chronological(all), maxFrames);
  }

  /** At any moment of any run, with captures cached in any order and any number of accounts on the
      phone, the server holds the history of an account that it would hold had every capture been sent
      live, exactly when no capture that is still pending or was evicted belongs to its newest frames. */
  lemma TraceExactly(ops: seq<Op>, upload: File -> Option<Member>, a: string, live: seq<Member>,
                     arrivals: seq<Member>, maxFrames: nat)
    requires RunAdmits(ops) && ServerFor(upload, a)
    requires Arrived(arrivals, live, Uploaded(upload, Run(EMPTY, ops).delivered))
    ensures var s := Run(EMPTY, ops);
      AppendAll(arrivals, maxFrames) == AppendAll(live + Uploaded(upload, s.captured), maxFrames) <==>
      forall f :: !Missed(s, upload, live, maxFrames, f)
  {
    var s := Run(EMPTY, ops);
    RunIsSound(ops);
    if forall f :: !Missed(s, upload, live, maxFrames, f) {
      NothingMissed(s, upload, live, arrivals, maxFrames);
    } else {
      var f :| Missed(s, upload, live, maxFrames, f);
      MissedStays(s, upload, a, live, arrivals, maxFrames, f);
    }
  }

  lemma MissedStays(s: State, upload: File -> Option<Member>, a: string, live: seq<Member>, arrivals: seq<Member>,
                    maxFrames: nat, f: File)
    requires Sound(s) && ServerFor(upload, a) && Arrived(arrivals, live, Uploaded(upload, s.delivered))
    requires Missed(s, upload, live, maxFrames, f)
    ensures AppendAll(arrivals, maxFrames) != AppendAll(live + Uploaded(upload, s.captured), maxFrames)
  {
    var m := upload(f).value;
    if m in AppendAll(arrivals, maxFrames) {
      StoredMembers(arrivals, maxFrames, m);
      UploadedMembers(upload, s.delivered, m);
      var g :| g in s.delivered && upload(g) == Some(m);
      WasCaptured(s, g);
      OneUploadEach(s, upload, a, f, g);
      assert false;
    }
  }

  // ----- captures in the order of their names -----

  function Directory(fs: seq<File>): map<string, nat> {
    if fs == [] then map[] else Directory(fs[1..])[fs[0].name := fs[0].image]
  }

  lemma {:induction false} DirectoryHolds(fs: seq<File>, f: File)
    requires Distinct(fs)
    ensures f.name in Directory(fs) && Directory(fs)[f.name] == f.image <==> f in fs
    ensures f.name in Directory(fs) <==> exists g :: g in fs && g.name == f.name
  {
    if fs != [] {
      var rest := fs[1..];
      DirectoryHolds(rest, f);
      assert fs == [fs[0]] + rest;
      forall g | g in rest
        ensures g.name != fs[0].name
      {
        var i :| 0 <= i < |rest| && rest[i] == g;
        assert fs[i + 1] == g;
      }
      if g :| g in fs && g.name == f.name {
        assert g == fs[0] || g in rest;
      }
    }
  }

  lemma {:induction false} AscendingAt(names: seq<string>, i: nat, j: nat)
    requires Ascending(names) && i < j < |names|
    ensures Less(names[i], names[j])
  {
    if i == 0 {
      assert names[j] == names[1..][j - 1];
    } else {
      AscendingAt(names[1..], i - 1, j - 1);
    }
  }

  /** The captures, listed by name. */
  ghost function ByName(fs: seq<File>): seq<File> {
    var d := Directory(fs);
    FilesAt(d, Listing(d.Keys))
  }

  lemma ByNameLists(fs: seq<File>)
    requires Distinct(fs)
    ensures Increasing(ByName(fs)) && forall f :: f in ByName(fs) <==> f in fs
  {
    var d := Directory(fs);
    var (names, r) := (Listing(d.Keys), ByName(fs));
    forall i, j | 0 <= i < j < |r|
      ensures Less(r[i].name, r[j].name)
    {
      AscendingAt(names, i, j);
    }
    forall f
      ensures f in r <==> f in fs
    {
      DirectoryHolds(fs, f);
      if f in fs {
        var i :| 0 <= i < |names| && names[i] == f.name;
        assert r[i] == f;
      }
      if f in r {
        var i :| 0 <= i < |r| && r[i] == f;
        assert names[i] in names;
      }
    }
  }

  function Names(fs: seq<File>): (r: seq<string>)
    ensures |r| == |fs| && forall i :: 0 <= i < |fs| ==> r[i] == fs[i].name
  {
    seq(|fs|, i requires 0 <= i < |fs| => fs[i].name)
  }

  /** A file with `depth` captures above it is not among the last `depth` by name. */
  lemma PlaceByName(fs: seq<File>, j: nat, captured: seq<File>, depth: nat)
    requires Increasing(fs) && j < |fs| && (forall f :: f in captured ==> f in fs)
    requires depth <= |Above(captured, fs[j].name)|
    ensures j + depth < |fs|
  {
    var later := Names(fs[j + 1..]);
    forall n | n in Above(captured, fs[j].name)
      ensures n in later
    {
      var g :| g in captured && g.name == n && Less(fs[j].name, g.name);
      var l :| 0 <= l < |fs| && fs[l] == g;
      NotBeforeItself(fs, j, l);
      assert later[l - j - 1] == n;
    }
    SetNoLarger(later);
    Subset(Above(captured, fs[j].name), set n | n in later);
  }

  lemma NotBeforeItself(fs: seq<File>, i: nat, j: nat)
    requires Increasing(fs) && i < |fs| && j < |fs| && Less(fs[i].name, fs[j].name)
    ensures i < j
  {
    LessIrreflexive(fs[i].name);
    if j < i {
      LessReversed(fs[i].name, fs[j].name);
    }
  }

  // ----- when a drained outage leaves no trace -----

  function LastStart(fs: seq<File>, depth: nat): nat {
    if |fs| < depth then 0 else |fs| - depth
  }

  /** The last captures contain enough frames of the account to fill its history, or all there are. */
  predicate RecentEnough(upload: File -> Option<Member>, fs: seq<File>, depth: nat, maxFrames: nat) {
    var i := LastStart(fs, depth);
    maxFrames <= |Uploaded(upload, fs[i..])| || Uploaded(upload, fs[..i]) == []
  }

  lemma MonotoneSuffix(upload: File -> Option<Member>, fs: seq<File>, i: nat, j: nat, x: Member)
    requires Monotone(upload, fs) && j < i <= |fs| && upload(fs[j]).Some? && x in Uploaded(upload, fs[i..])
    ensures Before(upload(fs[j]).value, x) && x in Uploaded(upload, fs)
  {
    var later := fs[i..];
    UploadedMembers(upload, later, x);
    var l :| 0 <= l < |later| && upload(later[l]) == Some(x);
    assert fs[i + l] == later[l];
    UploadedMembers(upload, fs, x);
  }

  lemma OldIsOutnumbered(upload: File -> Option<Member>, fs: seq<File>, j: nat, depth: nat, all: seq<Member>,
                         maxFrames: nat)
    requires Monotone(upload, fs) && RecentEnough(upload, fs, depth, maxFrames)
    requires j < LastStart(fs, depth) && upload(fs[j]).Some? && forall m :: m in Uploaded(upload, fs) ==> m in all
    ensures upload(fs[j]).value !in AppendAll(all, maxFrames)
  {
    var (i, m) := (LastStart(fs, depth), upload(fs[j]).value);
    var newer := Uploaded(upload, fs[i..]);
    assert fs[..i][j] == fs[j];
    UploadedMembers(upload, fs[..i], m);
    UploadedIsOrdered(upload, fs[i..]);
    ChronologicalIsOrdered(all);
    forall x | x in newer
      ensures x in Chronological(all) && Before(m, x)
    {
      MonotoneSuffix(upload, fs, i, j, x);
    }
    StoredIsNewest(all, maxFrames);
    Outnumbered(Chronological(all), m, newer, maxFrames);
  }

  lemma EvictedIsOutnumbered(s: State, upload: File -> Option<Member>, a: string, live: seq<Member>, depth: nat,
                             maxFrames: nat, f: File)
    requires Sound(s) && EvictedAreOld(s, depth) && ServerFor(upload, a) && AllTimely(s.captured)
    requires RecentEnough(upload, ByName(s.captured), depth, maxFrames)
    requires f in s.evicted && upload(f).Some?
    ensures upload(f).value !in AppendAll(live + Uploaded(upload, s.captured), maxFrames)
  {
    var fs := ByName(s.captured);
    ByNameLists(s.captured);
    UploadsAreMonotone(upload, a, fs);
    WasCaptured(s, f);
    var j :| 0 <= j < |fs| && fs[j] == f;
    PlaceByName(fs, j, s.captured, depth);
    forall m | m in Uploaded(upload, fs)
      ensures m in live + Uploaded(upload, s.captured)
    {
      UploadedMembers(upload, fs, m);
      UploadedMembers(upload, s.captured, m);
    }
    OldIsOutnumbered(upload, fs, j, depth, live + Uploaded(upload, s.captured), maxFrames);
  }

  /** Once the backlog is drained, an outage of any length, evictions included, has left no trace in the
      history of an account that made up enough of the last 199 captures by name (200 when they came in
      the order of their names). */
  lemma DrainedOutage(ops: seq<Op>, upload: File -> Option<Member>, a: string, live: seq<Member>,
                      arrivals: seq<Member>, depth: nat, maxFrames: nat)
    requires RunAdmits(ops) && ServerFor(upload, a) && AllTimely(Run(EMPTY, ops).captured)
    requires Arrived(arrivals, live, Uploaded(upload, Run(EMPTY, ops).delivered))
    requires Run(EMPTY, ops).files == map[] && DepthFor(depth, RunFits(EMPTY, ops))
    requires RecentEnough(upload, ByName(Run(EMPTY, ops).captured), depth, maxFrames)
    ensures AppendAll(arrivals, maxFrames) == AppendAll(live + Uploaded(upload, Run(EMPTY, ops).captured), maxFrames)
  {
    var s := Run(EMPTY, ops);
    RunIsSound(ops);
    RunKeepsOld(ops, depth);
    assert Stored(s.files) == {};
    forall f
      ensures !Missed(s, upload, live, maxFrames, f)
    {
      if f in s.captured && f !in s.delivered && upload(f).Some? {
        WhereaboutsOf(s, f);
        EvictedIsOutnumbered(s, upload, a, live, depth, maxFrames, f);
      }
    }
    NothingMissed(s, upload, live, arrivals, maxFrames);
  }

  lemma {:induction false} AllUploaded(upload: File -> Option<Member>, fs: seq<File>)
    requires forall f :: f in fs ==> upload(f).Some?
    ensures |Uploaded(upload, fs)| == |fs|
  {
    if fs != [] {
      AllUploaded(upload, fs[1..]);
    }
  }

  lemma OneAccountIsRecent(s: State, upload: File -> Option<Member>, a: string, depth: nat, maxFrames: nat)
    requires Sound(s) && ServerFor(upload, a) && maxFrames <= depth
    requires forall f :: f in s.captured ==> AccountOf(f) == a
    ensures RecentEnough(upload, ByName(s.captured), depth, maxFrames)
  {
    var fs := ByName(s.captured);
    var recent := fs[LastStart(fs, depth)..];
    ByNameLists(s.captured);
    forall f | f in recent
      ensures upload(f).Some?
    {
      assert f in fs && Stores(upload, a, f);
    }
    AllUploaded(upload, recent);
    assert |fs| < depth ==> fs[..LastStart(fs, depth)] == [];
  }

  /** In particular on a phone with one account, for any history of at most 199 frames (200 when the
      captures came in the order of their names). */
  lemma OutageLeavesNoTrace(ops: seq<Op>, upload: File -> Option<Member>, a: string, live: seq<Member>,
                            arrivals: seq<Member>, maxFrames: nat)
    requires RunAdmits(ops) && ServerFor(upload, a) && AllTimely(Run(EMPTY, ops).captured)
    requires Arrived(arrivals, live, Uploaded(upload, Run(EMPTY, ops).delivered))
    requires Run(EMPTY, ops).files == map[] && DepthFor(maxFrames, RunFits(EMPTY, ops))
    requires forall f :: f in Run(EMPTY, ops).captured ==> AccountOf(f) == a
    ensures AppendAll(arrivals, maxFrames) == AppendAll(live + Uploaded(upload, Run(EMPTY, ops).captured), maxFrames)
  {
    RunIsSound(ops);
    OneAccountIsRecent(Run(EMPTY, ops), upload, a, maxFrames, maxFrames);
    DrainedOutage(ops, upload, a, live, arrivals, maxFrames, maxFrames);
  }

  /** An outage of any length, then forty good cycles: the server holds the history of everything sent
      live or captured. */
  lemma OutageAndRecovery(ops: seq<Op>, upload: File -> Option<Member>, a: string, live: seq<Member>,
                          arrivals: seq<Member>, maxFrames: nat)
    requires RunAdmits(ops) && ServerFor(upload, a) && AllTimely(Run(EMPTY, ops).captured)
    requires DepthFor(maxFrames, RunFits(EMPTY, ops))
    requires forall f :: f in Run(EMPTY, ops).captured ==> AccountOf(f) == a
    requires Arrived(arrivals, live, Uploaded(upload, Run(EMPTY, ops + GoodCycles(40)).delivered))
    ensures AppendAll(arrivals, maxFrames) == AppendAll(live + Uploaded(upload, Run(EMPTY, ops).captured), maxFrames)
  {
    BacklogDrains(ops);
    DrainsAfter(ops, GoodCycles(40));
    OutageLeavesNoTrace(ops + GoodCycles(40), upload, a, live, arrivals, maxFrames);
  }

  // ----- two accounts -----

  ghost predicate CachesOnly(ops: seq<Op>) {
    forall op :: op in ops ==> op.CacheOp?
  }

  lemma {:induction false} OfflineRun(ops: seq<Op>)
    requires CachesOnly(ops)
    ensures |Run(EMPTY, ops).captured| == |ops| && Run(EMPTY, ops).delivered == []
  {
    if ops != [] {
      var (init, op) := (ops[..|ops| - 1], ops[|ops| - 1]);
      assert op in ops;
      OfflineRun(init);
      CaptureIsRecorded(Run(EMPTY, init), op.capturedAtMs, op.accountId, op.image);
      CacheDeliversNothing(Run(EMPTY, init), op.capturedAtMs, op.accountId, op.image);
    }
  }

  lemma {:induction false} IncreasingAscends(fs: seq<File>)
    requires Increasing(fs)
    ensures Ascending(Names(fs))
  {
    if fs != [] {
      IncreasingAscends(fs[1..]);
      assert Names(fs)[1..] == Names(fs[1..]);
      forall n | n in Names(fs)[1..]
        ensures Less(Names(fs)[0], n)
      {
        var j :| 0 <= j < |fs[1..]| && Names(fs[1..])[j] == n;
        assert fs[1..][j] == fs[j + 1];
      }
    }
  }

  /** With more captures than room and none delivered, the oldest has been evicted. */
  lemma OldestIsEvicted(s: State)
    requires Sound(s) && InOrder(s) && s.delivered == [] && |s.captured| > MAX_CACHED_FILES
    requires |Pending(s.files)| <= MAX_CACHED_FILES
    ensures s.captured[0] in s.evicted
  {
    var first := s.captured[0];
    if first !in s.evicted {
      WhereaboutsOf(s, first);
      assert Behind(s, first.name);
      forall f | f in s.captured
        ensures f.name in s.files
      {
        NotEvictedBefore(s, f);
        WhereaboutsOf(s, f);
      }
      SoundFiles(s);
      TooManyPending(s);
      assert false;
    }
  }

  lemma NotEvictedBefore(s: State, f: File)
    requires InOrder(s) && f in s.captured && s.captured[0].name in s.files
    ensures f !in s.evicted
  {
    if f in s.evicted {
      assert Behind(s, s.captured[0].name);
      var i :| 0 <= i < |s.captured| && s.captured[i] == f;
      LessIrreflexive(f.name);
      if i > 0 {
        LessReversed(f.name, s.captured[0].name);
      }
      assert false;
    }
  }

  lemma TooManyPending(s: State)
    requires InOrder(s) && WellNamed(s.files) && forall f :: f in s.captured ==> f.name in s.files
    ensures |s.captured| <= |Pending(s.files)|
  {
    var names := Names(s.captured);
    IncreasingAscends(s.captured);
    AscendingDistinct(names);
    AscendingDistinct(Pending(s.files));
    PendingIsAll(s.files);
    forall n | n in names
      ensures n in Pending(s.files)
    {
      var i :| 0 <= i < |names| && names[i] == n;
      assert s.captured[i] in s.captured;
    }
    Subset(set n | n in names, set n | n in Pending(s.files));
  }

  lemma {:induction false} NoUploads(upload: File -> Option<Member>, fs: seq<File>)
    requires forall f :: f in fs ==> upload(f) == None
    ensures Uploaded(upload, fs) == []
  {
    if fs != [] {
      NoUploads(upload, fs[1..]);
    }
  }

  lemma ChronologicalOne(m: Member)
    ensures Chronological([m]) == [m]
  {
    var ms := [m];
    assert ms[..|ms| - 1] == [] && ms[|ms| - 1] == m;
    assert Chronological([]) == [] && ZAdd([], m) == [m];
  }

  lemma SingleFrame(m: Member, maxFrames: nat)
    requires 0 < maxFrames
    ensures AppendAll([m], maxFrames) == [m]
  {
    StoredIsNewest([m], maxFrames);
    ChronologicalOne(m);
  }

  lemma OnlyFirstUploads(fs: seq<File>, upload: File -> Option<Member>, a: string)
    requires ServerFor(upload, a) && fs != []
    requires AccountOf(fs[0]) == a && forall f :: f in fs[1..] ==> AccountOf(f) != a
    ensures upload(fs[0]).Some? && Uploaded(upload, fs) == [upload(fs[0]).value]
  {
    assert Stores(upload, a, fs[0]);
    forall f | f in fs[1..]
      ensures upload(f) == None
    {
      assert Stores(upload, a, f);
    }
    NoUploads(upload, fs[1..]);
  }

  lemma FirstIsMissed(s: State, upload: File -> Option<Member>, a: string, maxFrames: nat)
    requires Sound(s) && s.captured != [] && s.captured[0] in s.evicted && ServerFor(upload, a) && 0 < maxFrames
    requires AccountOf(s.captured[0]) == a && forall f :: f in s.captured[1..] ==> AccountOf(f) != a
    ensures Missed(s, upload, [], maxFrames, s.captured[0])
  {
    WhereaboutsOf(s, s.captured[0]);
    OnlyFirstUploads(s.captured, upload, a);
    var m := upload(s.captured[0]).value;
    assert [] + Uploaded(upload, s.captured) == [m];
    SingleFrame(m, maxFrames);
    assert m in [m];
  }

  /** One capture of the account, and at least 200 of others. */
  ghost predicate OneOfMany(s: State, a: string) {
    200 < |s.captured| && AllTimely(s.captured) &&
    AccountOf(s.captured[0]) == a && forall f :: f in s.captured[1..] ==> AccountOf(f) != a
  }

  /** With two accounts an outage can leave a trace: after one offline capture of an account and 200 of
      others, whatever drain cycles follow, the server never gets that frame. */
  lemma NeighbourLeavesATrace(offline: seq<Op>, drains: seq<Op>, upload: File -> Option<Member>, a: string,
                              maxFrames: nat)
    requires RunFits(EMPTY, offline) && CachesOnly(offline) && OneOfMany(Run(EMPTY, offline), a)
    requires DrainsOnly(drains) && ServerFor(upload, a) && 0 < maxFrames
    ensures var s := Run(EMPTY, offline + drains);
      RunFits(EMPTY, offline + drains) &&
      AppendAll(Uploaded(upload, s.delivered), maxFrames) != AppendAll([] + Uploaded(upload, s.captured), maxFrames)
  {
    var (s, t) := (Run(EMPTY, offline), Run(EMPTY, offline + drains));
    OfflineRun(offline);
    IncreasingRunsAreAdmitted(offline);
    RunIsSound(offline);
    ReplayInOrder(offline);
    NeverMoreThanCap(EMPTY, offline);
    OldestIsEvicted(s);
    DrainsAfter(offline, drains);
    RunIsSound(offline + drains);
    FirstIsMissed(t, upload, a, maxFrames);
    TraceExactly(offline + drains, upload, a, [], Uploaded(upload, t.delivered), maxFrames);
  }

  lemma NewIsLast(f: File, ts: nat, account: string)
    requires Timely(f) && TimeOf(f) < ts < 10_000_000_000_000
    ensures Less(f.name, FileFor(ts, account))
  {
    MillisecondNamesSortByTime(TimeOf(f) as int, AccountOf(f), ts, account);
  }

  lemma NewIsTimely(ts: nat, account: string)
    requires 1_000_000_000_000 <= ts < 10_000_000_000_000
    ensures var f := File(FileFor(ts, account), 0); Timely(f) && TimeOf(f) == ts && AccountOf(f) == account
  {
    ParseText(ts, account);
  }

  /** n captures before a time: the first of one account, the others of another. */
  ghost predicate Mixed(fs: seq<File>, n: nat, a: string, b: string, before: int) {
    |fs| == n &&
    forall i :: 0 <= i < n ==> Timely(fs[i]) && TimeOf(fs[i]) < before && AccountOf(fs[i]) == if i == 0 then a else b
  }

  lemma MixedMore(ops: seq<Op>, n: nat, a: string, b: string, ts: nat)
    requires RunFits(EMPTY, ops) && Mixed(Run(EMPTY, ops).captured, n, a, b, ts)
    requires '/' !in a && '/' !in b && 1_000_000_000_000 <= ts < 10_000_000_000_000
    ensures var longer := ops + [CacheOp(ts, if n == 0 then a else b, 0)];
      RunFits(EMPTY, longer) && Mixed(Run(EMPTY, longer).captured, n + 1, a, b, ts + 1)
  {
    var (s, account) := (Run(EMPTY, ops), if n == 0 then a else b);
    forall f | f in s.captured
      ensures Less(f.name, FileFor(ts, account))
    {
      NewIsLast(f, ts, account);
    }
    OneMore(ops, CacheOp(ts, account, 0));
    CaptureIsRecorded(s, ts, account, 0);
    NewIsTimely(ts, account);
  }

  /** There are such runs, at any time of day and for any two accounts. */
  lemma {:induction false} BusyRun(n: nat, a: string, b: string, start: nat) returns (ops: seq<Op>)
    requires '/' !in a && '/' !in b && 1_000_000_000_000 <= start && start + n < 10_000_000_000_000
    ensures RunFits(EMPTY, ops) && CachesOnly(ops) && Mixed(Run(EMPTY, ops).captured, n, a, b, start + n)
  {
    if n == 0 {
      ops := [];
    } else {
      var shorter := BusyRun(n - 1, a, b, start);
      MixedMore(shorter, n - 1, a, b, start + n - 1);
      ops := shorter + [CacheOp(start + n - 1, if n == 1 then a else b, 0)];
    }
  }

  /** A server that stores the name of a file as its frame. */
  function ServerOf(a: string): File -> Option<Member> {
    (f: File) => if AccountOf(f) == a then Some(Member(TimeOf(f), f.name)) else None
  }

  lemma TracesExist(a: string, b: string, start: nat) returns (offline: seq<Op>)
    requires a != b && '/' !in a && '/' !in b
    requires 1_000_000_000_000 <= start && start + MAX_CACHED_FILES + 1 < 10_000_000_000_000
    ensures RunFits(EMPTY, offline) && CachesOnly(offline) && OneOfMany(Run(EMPTY, offline), a)
    ensures ServerFor(ServerOf(a), a)
  {
    offline := BusyRun(MAX_CACHED_FILES + 1, a, b, start);
  }

  /** And there are outages of any length on a phone with one account, to which the theorems above apply. */
  lemma OutagesExist(n: nat, a: string, start: nat) returns (ops: seq<Op>)
    requires '/' !in a && 1_000_000_000_000 <= start && start + n < 10_000_000_000_000
    ensures RunFits(EMPTY, ops) && RunAdmits(ops) && |Run(EMPTY, ops).captured| == n
    ensures AllTimely(Run(EMPTY, ops).captured) && forall f :: f in Run(EMPTY, ops).captured ==> AccountOf(f) == a
    ensures ServerFor(ServerOf(a), a)
  {
    ops := BusyRun(n, a, a, start);
    IncreasingRunsAreAdmitted(ops);
  }
}
