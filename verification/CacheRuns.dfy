/** What every run of the offline cache keeps when no two captures have the same name, in whatever
    order the captures come: sends overlap, so a later capture can be cached first. */
module CacheRuns {
  import opened FileNames
  import opened OfflineCache
  import opened Options
  import opened Sequences
  import opened Strings

  /** A file that the cache wrote: its name is made of its capture time and account. */
  predicate Written(f: File) {
    Parse(f.name).Some? && f.name == FileFor(TimeOf(f), AccountOf(f))
  }

  function TimeOf(f: File): Long {
    match Parse(f.name) case Some((t, _)) => t case None => 0
  }

  function AccountOf(f: File): string {
    match Parse(f.name) case Some((_, a)) => a case None => ""
  }

  ghost predicate AllWritten(fs: seq<File>) {
    forall f :: f in fs ==> Written(f)
  }

  ghost predicate Distinct(fs: seq<File>) {
    forall i, j :: 0 <= i < j < |fs| ==> fs[i].name != fs[j].name
  }

  /** Each capture has a name of its own and a storable account. */
  ghost predicate Admits(s: State, op: Op) {
    match op
    case CacheOp(ts, account, image) => '/' !in account && IsNew(s.captured, FileFor(ts, account))
    case DrainOp(answers) => true
  }

  ghost predicate IsNew(fs: seq<File>, name: string) {
    forall f :: f in fs ==> f.name != name
  }

  ghost predicate RunAdmits(ops: seq<Op>) {
    ops == [] || (RunAdmits(ops[..|ops| - 1]) && Admits(Run(EMPTY, ops[..|ops| - 1]), ops[|ops| - 1]))
  }

  // ----- one more step -----

  lemma OneMore(ops: seq<Op>, op: Op)
    ensures Run(EMPTY, ops + [op]) == Step(Run(EMPTY, ops), op)
    ensures RunFits(EMPTY, ops + [op]) <==> RunFits(EMPTY, ops) && Fits(Run(EMPTY, ops), op)
    ensures RunAdmits(ops + [op]) <==> RunAdmits(ops) && Admits(Run(EMPTY, ops), op)
  {
    assert (ops + [op])[..|ops + [op]| - 1] == ops;
  }

  lemma CacheDeliversNothing(s: State, ts: Long, account: string, image: nat)
    ensures CacheStep(s, ts, account, image).delivered == s.delivered
  {
    var names := Pending(s.files);
    AscendingPrefix(names, Excess(|names|));
    EvictEffect(s, names[..Excess(|names|)]);
  }

  ghost predicate DrainsOnly(ops: seq<Op>) {
    forall op :: op in ops ==> op.DrainOp?
  }

  lemma {:induction false} SendKeepsCaptures(s: State, batch: seq<string>, answers: seq<bool>)
    requires Sendable(s, batch)
    ensures Send(s, batch, answers).captured == s.captured && Send(s, batch, answers).evicted == s.evicted
    decreases |batch|
  {
    if batch != [] {
      RestStays(s.files, batch);
      if Parse(batch[0]).None? {
        SendKeepsCaptures(DropMalformed(s, batch[0]), batch[1..], answers);
      } else if answers != [] && answers[0] {
        SendKeepsCaptures(Deliver(s, batch[0]), batch[1..], answers[1..]);
      }
    }
  }

  lemma DrainKeepsCaptures(s: State, answers: seq<bool>)
    ensures DrainStep(s, answers).captured == s.captured && DrainStep(s, answers).evicted == s.evicted
  {
    AscendingPrefix(Pending(s.files), |Batch(s)|);
    SendKeepsCaptures(s, Batch(s), answers);
  }

  lemma DrainBalanced(s: State, answers: seq<bool>)
    requires Balanced(s)
    ensures Balanced(DrainStep(s, answers))
  {
    AscendingPrefix(Pending(s.files), |Batch(s)|);
    SendBalanced(s, Batch(s), answers);
  }

  lemma {:induction false} SendLosesNothing(s: State, batch: seq<string>, answers: seq<bool>)
    requires Sendable(s, batch) && WellNamed(s.files) && NothingLost(s)
    ensures NothingLost(Send(s, batch, answers))
    decreases |batch|
  {
    if batch != [] {
      assert Replayable(batch[0]);
      if answers == [] || !answers[0] {
        SendFails(s, batch, answers);
      } else {
        SendSucceeds(s, batch, answers);
        SendLosesNothing(Deliver(s, batch[0]), batch[1..], answers[1..]);
      }
    }
  }

  // ----- sound states -----

  ghost predicate Sound(s: State) {
    Balanced(s) && NothingLost(s) && AllWritten(s.captured) && Distinct(s.captured)
  }

  /** Everything that is somewhere was captured. */
  lemma WasCaptured(s: State, f: File)
    requires Balanced(s) && (f in Stored(s.files) || f in s.delivered || f in s.evicted)
    ensures f in s.captured
  {
    assert f in multiset(s.captured);
  }

  lemma CapturedOnce(fs: seq<File>, f: File)
    requires Distinct(fs) && f in fs
    ensures multiset(fs)[f] == 1
  {
    var i :| 0 <= i < |fs| && fs[i] == f;
    assert fs == fs[..i] + [f] + fs[i + 1..];
    assert f !in fs[..i] && f !in fs[i + 1..];
  }

  /** A captured file is pending, delivered or evicted, and only one of these. */
  lemma WhereaboutsOf(s: State, f: File)
    requires Sound(s) && f in s.captured
    ensures f in s.delivered <==> f !in s.evicted && f !in Stored(s.files)
    ensures !(f in s.evicted && f in Stored(s.files))
  {
    CapturedOnce(s.captured, f);
    assert multiset(s.captured)[f] == multiset(Stored(s.files))[f] + multiset(s.delivered)[f] + multiset(s.evicted)[f];
  }

  lemma WrittenIsReplayable(f: File)
    requires Written(f)
    ensures Replayable(f.name)
  {
    NameIsReplayable(TimeOf(f), AccountOf(f));
  }

  lemma SoundFiles(s: State)
    requires Sound(s)
    ensures WellNamed(s.files)
  {
    forall n {:trigger Replayable(n)} | n in s.files
      ensures Replayable(n)
    {
      assert FileAt(s, n) in Stored(s.files);
      WasCaptured(s, FileAt(s, n));
      WrittenIsReplayable(FileAt(s, n));
    }
  }

  lemma CacheLosesNothing(s: State, ts: Long, account: string, image: nat)
    requires Sound(s) && Admits(s, CacheOp(ts, account, image))
    ensures NothingLost(CacheStep(s, ts, account, image))
  {
    var names := Pending(s.files);
    var name := FileFor(ts, account);
    AscendingPrefix(names, Excess(|names|));
    EvictEffect(s, names[..Excess(|names|)]);
    if name in s.files {
      assert FileAt(s, name) in Stored(s.files);
      WasCaptured(s, FileAt(s, name));
      assert false;
    }
  }

  lemma NewIsWritten(ts: Long, account: string, image: nat)
    ensures var f := File(FileFor(ts, account), image); Written(f) && TimeOf(f) == ts && AccountOf(f) == account
  {
    ParseText(ts, account);
  }

  lemma CaptureKeepsNames(fs: seq<File>, f: File)
    requires AllWritten(fs) && Distinct(fs) && Written(f) && IsNew(fs, f.name)
    ensures AllWritten(fs + [f]) && Distinct(fs + [f])
  {
    forall i | 0 <= i < |fs|
      ensures fs[i].name != f.name
    {
      assert fs[i] in fs;
    }
  }

  lemma CacheIsSound(s: State, ts: Long, account: string, image: nat)
    requires Sound(s) && Admits(s, CacheOp(ts, account, image))
    ensures Sound(CacheStep(s, ts, account, image))
  {
    CacheBalanced(s, ts, account, image);
    CacheLosesNothing(s, ts, account, image);
    CaptureIsRecorded(s, ts, account, image);
    NewIsWritten(ts, account, image);
    CaptureKeepsNames(s.captured, File(FileFor(ts, account), image));
  }

  lemma DrainIsSound(s: State, answers: seq<bool>)
    requires Sound(s)
    ensures Sound(DrainStep(s, answers))
  {
    SoundFiles(s);
    DrainBalanced(s, answers);
    DrainKeepsCaptures(s, answers);
    AscendingPrefix(Pending(s.files), |Batch(s)|);
    SendLosesNothing(s, Batch(s), answers);
  }

  lemma {:induction false} RunIsSound(ops: seq<Op>)
    requires RunAdmits(ops)
    ensures Sound(Run(EMPTY, ops))
  {
    if ops == [] {
      assert Stored(EMPTY.files) == {};
    } else {
      var s := Run(EMPTY, ops[..|ops| - 1]);
      RunIsSound(ops[..|ops| - 1]);
      match ops[|ops| - 1]
      case CacheOp(ts, account, image) => CacheIsSound(s, ts, account, image);
      case DrainOp(answers) => DrainIsSound(s, answers);
    }
  }

  /** Captures in the order of their names are one such order. */
  lemma {:induction false} IncreasingRunsAreAdmitted(ops: seq<Op>)
    requires RunFits(EMPTY, ops)
    ensures RunAdmits(ops)
  {
    if ops != [] {
      var s := Run(EMPTY, ops[..|ops| - 1]);
      IncreasingRunsAreAdmitted(ops[..|ops| - 1]);
      match ops[|ops| - 1]
      case CacheOp(ts, account, image) => LessIrreflexive(FileFor(ts, account));
      case DrainOp(answers) =>
    }
  }

  // ----- what is evicted -----

  /** The names of the captures that sort after a name. */
  function Above(fs: seq<File>, name: string): set<string> {
    set f | f in fs && Less(name, f.name) :: f.name
  }

  /** Every evicted file has this many captures that sort after it. */
  ghost predicate EvictedAreOld(s: State, depth: nat) {
    forall f :: f in s.evicted ==> depth <= |Above(s.captured, f.name)|
  }

  /** How many: 199, and 200 when captures come in the order of their names. */
  predicate DepthFor(depth: nat, last: bool) {
    depth < 200 || (depth == 200 && last)
  }

  lemma AboveGrows(fs: seq<File>, f: File, name: string)
    ensures |Above(fs, name)| <= |Above(fs + [f], name)|
  {
    Subset(Above(fs, name), Above(fs + [f], name));
  }

  lemma {:induction false} AscendingSize(names: seq<string>, above: set<string>)
    requires Ascending(names) && forall n :: n in names ==> n in above
    ensures |names| <= |above|
  {
    AscendingDistinct(names);
    Subset((set n | n in names), above);
  }

  lemma AscendingOneMore(names: seq<string>, name: string, above: set<string>)
    requires Ascending(names) && name !in names && name in above && forall n :: n in names ==> n in above
    ensures |names| < |above|
  {
    AscendingDistinct(names);
    Subset((set n | n in names) + {name}, above);
  }

  /** The files that stay when room is made were captured, and sort after the evicted ones. */
  lemma KeptAreAbove(s: State, k: nat, name: string)
    requires Sound(s) && k <= |Pending(s.files)| && name in Pending(s.files)[..k]
    ensures forall n :: n in Pending(s.files)[k..] ==> n in Above(s.captured, name)
  {
    var names := Pending(s.files);
    AscendingCross(names, k);
    forall n | n in names[k..]
      ensures n in Above(s.captured, name)
    {
      assert names == names[..k] + names[k..];
      assert n in names && FileAt(s, n) in Stored(s.files);
      WasCaptured(s, FileAt(s, n));
    }
  }

  lemma EvictedNow(s: State, k: nat, f: File)
    requires k <= |Pending(s.files)|
    requires EnforceCap(s).evicted == s.evicted + FilesAt(s.files, Pending(s.files)[..k])
    requires f in EnforceCap(s).evicted && f !in s.evicted
    ensures f.name in Pending(s.files)[..k]
  {
    var now := FilesAt(s.files, Pending(s.files)[..k]);
    assert f in now;
    var j :| 0 <= j < |now| && now[j] == f;
    assert Pending(s.files)[..k][j] == f.name;
  }

  lemma EvictedDepth(s: State, f: File, added: File, k: nat, depth: nat)
    requires Sound(s) && k <= |Pending(s.files)| && |Pending(s.files)| - k == MAX_CACHED_FILES - 1
    requires f.name in Pending(s.files)[..k] && IsNew(s.captured, added.name)
    requires DepthFor(depth, Less(f.name, added.name))
    ensures depth <= |Above(s.captured + [added], f.name)|
  {
    var (kept, above) := (Pending(s.files)[k..], Above(s.captured + [added], f.name));
    KeptAreAbove(s, k, f.name);
    AscendingSuffix(Pending(s.files), k);
    forall n | n in kept
      ensures n in above && n != added.name
    {
      assert n in Above(s.captured, f.name);
    }
    AscendingSize(kept, above);
    if Less(f.name, added.name) {
      AscendingOneMore(kept, added.name, above);
    }
  }

  lemma CacheKeepsOld(s: State, ts: Long, account: string, image: nat, depth: nat)
    requires Sound(s) && EvictedAreOld(s, depth) && Admits(s, CacheOp(ts, account, image))
    requires DepthFor(depth, AllBefore(s.captured, FileFor(ts, account)))
    ensures EvictedAreOld(CacheStep(s, ts, account, image), depth)
  {
    var t := CacheStep(s, ts, account, image);
    var added := File(FileFor(ts, account), image);
    var k := RoomIsMadeExactly(s);
    CaptureIsRecorded(s, ts, account, image);
    forall f | f in t.evicted
      ensures depth <= |Above(t.captured, f.name)|
    {
      if f in s.evicted {
        AboveGrows(s.captured, added, f.name);
      } else {
        EvictedNow(s, k, f);
        PendingWasCaptured(s, k, f.name);
        EvictedDepth(s, f, added, k, depth);
      }
    }
  }

  lemma PendingWasCaptured(s: State, k: nat, name: string)
    requires Sound(s) && k <= |Pending(s.files)| && name in Pending(s.files)[..k]
    ensures k > 0 && exists g :: g in s.captured && g.name == name
  {
    assert name in Pending(s.files);
    assert FileAt(s, name) in Stored(s.files);
    WasCaptured(s, FileAt(s, name));
  }

  /** Over every run, an evicted file has at least 199 captures that sort after it, and at least 200
      when captures come in the order of their names. */
  lemma {:induction false} RunKeepsOld(ops: seq<Op>, depth: nat)
    requires RunAdmits(ops) && DepthFor(depth, RunFits(EMPTY, ops))
    ensures EvictedAreOld(Run(EMPTY, ops), depth)
  {
    if ops != [] {
      var s := Run(EMPTY, ops[..|ops| - 1]);
      RunKeepsOld(ops[..|ops| - 1], depth);
      match ops[|ops| - 1]
      case CacheOp(ts, account, image) =>
        RunIsSound(ops[..|ops| - 1]);
        CacheKeepsOld(s, ts, account, image, depth);
      case DrainOp(answers) => DrainKeepsCaptures(s, answers);
    }
  }

  // ----- the backlog drains -----

  /** The cache writes only names that parse, whatever the captures are. */
  lemma WriteIsWellNamed(s: State, ts: Long, account: string, image: nat)
    requires WellNamed(s.files)
    ensures WellNamed(CacheStep(s, ts, account, image).files)
  {
    NameIsReplayable(ts, account);
    EnforceCapLeaves(s);
    forall n {:trigger Replayable(n)} | n in CacheStep(s, ts, account, image).files
      ensures Replayable(n)
    {
      EvictedAndWritten(s, ts, account, image, n);
    }
  }

  lemma DrainIsWellNamed(s: State, answers: seq<bool>)
    requires WellNamed(s.files)
    ensures WellNamed(DrainStep(s, answers).files)
  {
    AscendingPrefix(Pending(s.files), |Batch(s)|);
    SendShrinks(s, Batch(s), answers);
  }

  lemma {:induction false} RunIsWellNamed(ops: seq<Op>)
    ensures WellNamed(Run(EMPTY, ops).files)
  {
    if ops != [] {
      var s := Run(EMPTY, ops[..|ops| - 1]);
      RunIsWellNamed(ops[..|ops| - 1]);
      match ops[|ops| - 1]
      case CacheOp(ts, account, image) => WriteIsWellNamed(s, ts, account, image);
      case DrainOp(answers) => DrainIsWellNamed(s, answers);
    }
  }

  function AllGood(): (answers: seq<bool>)
    ensures |answers| == MAX_DRAIN_PER_CYCLE && forall i :: 0 <= i < |answers| ==> answers[i]
  {
    seq(MAX_DRAIN_PER_CYCLE, _ => true)
  }

  lemma {:induction false} LeadingOfGood(answers: seq<bool>, limit: nat)
    requires limit <= |answers| && forall i :: 0 <= i < |answers| ==> answers[i]
    ensures Leading(answers, limit) == limit
  {
    if limit > 0 {
      LeadingOfGood(answers[1..], limit - 1);
    }
  }

  lemma GoodDrainFiles(s: State)
    requires WellNamed(s.files)
    ensures forall n :: n in DrainStep(s, AllGood()).files <==> n in s.files && n !in Batch(s)
  {
    var batch := Batch(s);
    AscendingPrefix(Pending(s.files), |batch|);
    SendIsPrefix(s, batch, AllGood());
    LeadingOfGood(AllGood(), |batch|);
    assert batch[..|batch|] == batch;
    DeliverAllFiles(s, batch);
  }

  /** A cycle in which every upload succeeds empties the front of the backlog. */
  lemma GoodDrain(s: State)
    requires WellNamed(s.files)
    ensures Pending(DrainStep(s, AllGood()).files) == Pending(s.files)[|Batch(s)|..]
  {
    GoodDrainFiles(s);
    assert Batch(s) == Pending(s.files)[..|Batch(s)|];
    PendingWithout(s.files, DrainStep(s, AllGood()).files, |Batch(s)|);
  }

  lemma GoodDrainSize(s: State)
    requires WellNamed(s.files)
    ensures var (p, q) := (|Pending(s.files)|, |Pending(DrainStep(s, AllGood()).files)|);
      q == if p < 5 then 0 else p - 5
  {
    GoodDrain(s);
  }

  /** Drain cycles in which every upload succeeds. */
  function GoodCycles(n: nat): (ops: seq<Op>)
    ensures DrainsOnly(ops)
  {
    if n == 0 then [] else [DrainOp(AllGood())] + GoodCycles(n - 1)
  }

  lemma Extend(ops: seq<Op>, more: seq<Op>, op: Op)
    ensures ops + (more + [op]) == (ops + more) + [op]
  {
  }

  lemma Backlog(ops: seq<Op>, op: Op)
    requires op == DrainOp(AllGood())
    ensures var (p, q) := (|Pending(Run(EMPTY, ops).files)|, |Pending(Run(EMPTY, ops + [op]).files)|);
      q == if p < MAX_DRAIN_PER_CYCLE then 0 else p - MAX_DRAIN_PER_CYCLE
  {
    RunIsWellNamed(ops);
    OneMore(ops, op);
    GoodDrainSize(Run(EMPTY, ops));
  }

  function Continued(ops: seq<Op>, n: nat): seq<Op>
    decreases n
  {
    if n == 0 then ops else Continued(ops + [DrainOp(AllGood())], n - 1)
  }

  lemma {:induction false} ContinuedIs(ops: seq<Op>, n: nat)
    ensures Continued(ops, n) == ops + GoodCycles(n)
    decreases n
  {
    if n == 0 {
      assert ops + [] == ops;
    } else {
      ContinuedIs(ops + [DrainOp(AllGood())], n - 1);
      Regroup(ops, DrainOp(AllGood()), GoodCycles(n - 1));
    }
  }

  /** A measure of runs that a good cycle takes down by five, if there is as much. */
  ghost predicate Shrinks(size: seq<Op> -> nat, ops: seq<Op>) {
    var (p, q) := (size(ops), size(ops + [DrainOp(AllGood())]));
    q == if p < MAX_DRAIN_PER_CYCLE then 0 else p - MAX_DRAIN_PER_CYCLE
  }

  lemma {:induction false} ContinuedShrinks(size: seq<Op> -> nat, ops: seq<Op>, n: nat)
    requires (forall o :: Shrinks(size, o)) && size(ops) <= n * MAX_DRAIN_PER_CYCLE
    ensures size(Continued(ops, n)) == 0
    decreases n
  {
    if n > 0 {
      assert Shrinks(size, ops);
      ContinuedShrinks(size, ops + [DrainOp(AllGood())], n - 1);
    }
  }

  lemma ContinuedDrains(ops: seq<Op>, n: nat)
    requires |Pending(Run(EMPTY, ops).files)| <= n * MAX_DRAIN_PER_CYCLE
    ensures Pending(Run(EMPTY, Continued(ops, n)).files) == []
  {
    var size: seq<Op> -> nat := o => |Pending(Run(EMPTY, o).files)|;
    forall o
      ensures Shrinks(size, o)
    {
      Backlog(o, DrainOp(AllGood()));
    }
    ContinuedShrinks(size, ops, n);
  }

  /** When the backend is back, forty such cycles empty the backlog of any run whatever. */
  lemma BacklogDrains(ops: seq<Op>)
    ensures Run(EMPTY, ops + GoodCycles(40)).files == map[]
  {
    NeverMoreThanCap(EMPTY, ops);
    ContinuedDrains(ops, 40);
    ContinuedIs(ops, 40);
    RunIsWellNamed(ops + GoodCycles(40));
    PendingIsAll(Run(EMPTY, ops + GoodCycles(40)).files);
    assert Run(EMPTY, ops + GoodCycles(40)).files.Keys == {};
  }

  // ----- drain cycles after a run -----

  ghost predicate Captured(ops: seq<Op>, captured: seq<File>, evicted: seq<File>) {
    Run(EMPTY, ops).captured == captured && Run(EMPTY, ops).evicted == evicted
  }

  lemma DrainAfter(ops: seq<Op>, op: Op)
    requires op.DrainOp?
    ensures Captured(ops + [op], Run(EMPTY, ops).captured, Run(EMPTY, ops).evicted)
    ensures RunAdmits(ops) ==> RunAdmits(ops + [op])
    ensures RunFits(EMPTY, ops) ==> RunFits(EMPTY, ops + [op])
  {
    OneMore(ops, op);
    DrainKeepsCaptures(Run(EMPTY, ops), op.answers);
  }

  lemma SplitLast(drains: seq<Op>)
    requires drains != [] && DrainsOnly(drains)
    ensures drains == drains[..|drains| - 1] + [drains[|drains| - 1]]
    ensures DrainsOnly(drains[..|drains| - 1]) && drains[|drains| - 1].DrainOp?
  {
    assert drains[|drains| - 1] in drains;
  }

  /** Drain cycles change neither what was captured nor what was evicted. */
  lemma {:induction false} DrainsAfter(ops: seq<Op>, drains: seq<Op>)
    requires DrainsOnly(drains)
    ensures Captured(ops + drains, Run(EMPTY, ops).captured, Run(EMPTY, ops).evicted)
    ensures RunAdmits(ops) ==> RunAdmits(ops + drains)
    ensures RunFits(EMPTY, ops) ==> RunFits(EMPTY, ops + drains)
    decreases |drains|
  {
    if drains == [] {
      assert ops + drains == ops;
    } else {
      var (init, op) := (drains[..|drains| - 1], drains[|drains| - 1]);
      SplitLast(drains);
      DrainsAfter(ops, init);
      Extend(ops, init, op);
      DrainAfter(ops + init, op);
    }
  }
}
