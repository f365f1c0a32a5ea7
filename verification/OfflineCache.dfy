/** The bounded disk queue of screenshots that could not be sent (ScreenshotCacheManager.kt), and
    the loop of ScreenCaptureService.kt that replays them. */
module OfflineCache {
  import opened Options
  import opened Sequences
  import opened Strings
  import opened FileNames

  const MAX_CACHED_FILES := 200
  const MAX_DRAIN_PER_CYCLE := 5

  // ----- directory listing -----

  predicate IsJpg(name: string) {
    4 <= |name| && name[|name| - 4..] == ".jpg"
  }

  predicate Ascending(names: seq<string>) {
    names != [] ==> Ascending(names[1..]) && forall n :: n in names[1..] ==> Less(names[0], n)
  }

  lemma LeastName(names: set<string>) returns (least: string)
    requires names != {}
    ensures least in names && forall n :: n in names ==> n == least || Less(least, n)
  {
    least :| least in names;
    var rest := names - {least};
    assert forall n :: n in names ==> n == least || n in rest;
    if rest != {} {
      var other := LeastName(rest);
      LessTotal(least, other);
      forall n | n in names && n != least && n != other
        ensures Less(other, n) && (Less(least, other) ==> Less(least, n))
      {
        assert n in rest;
        if Less(least, other) {
          LessTransitive(least, other, n);
        }
      }
      if Less(other, least) {
        least := other;
      }
    }
  }

  /** The .jpg names of a directory in name order. */
  ghost function Listing(names: set<string>): (r: seq<string>)
    ensures Ascending(r) && |r| == |names|
    ensures forall n :: n in r <==> n in names
  {
    if names == {} then []
    else
      assert exists m :: m in names && forall n :: n in names ==> n == m || Less(m, n) by {
        var m := LeastName(names);
      }
      var m :| m in names && forall n :: n in names ==> n == m || Less(m, n);
      [m] + Listing(names - {m})
  }

  lemma {:induction false} AscendingUnique(a: seq<string>, b: seq<string>)
    requires Ascending(a) && Ascending(b) && forall n :: n in a <==> n in b
    ensures a == b
  {
    assert a != [] ==> a[0] in a;
    assert b != [] ==> b[0] in b;
    if a != [] && b != [] {
      HeadIsLeast(a, b[0]);
      HeadIsLeast(b, a[0]);
      forall n
        ensures n in a[1..] <==> n in b[1..]
      {
        LessIrreflexive(n);
        assert n in a <==> n == a[0] || n in a[1..];
        assert n in b <==> n == b[0] || n in b[1..];
      }
      AscendingUnique(a[1..], b[1..]);
    }
  }

  lemma HeadIsLeast(a: seq<string>, n: string)
    requires Ascending(a) && n in a
    ensures n == a[0] || Less(a[0], n)
    ensures Less(n, a[0]) ==> false
  {
    assert a == [a[0]] + a[1..];
    if Less(n, a[0]) {
      LessIrreflexive(n);
      if n != a[0] {
        LessTransitive(n, a[0], n);
      }
      assert false;
    }
  }

  // ----- the ledger -----

  /** A stored screenshot. The image stands for the encoded bytes. */
  datatype File = File(name: string, image: nat)

  /** The directory, and where every file handed to the cache went. */
  datatype State = State(
    files: map<string, nat>,
    captured: seq<File>,
    delivered: seq<File>,
    evicted: seq<File>,
    overwritten: seq<File>,
    malformed: seq<File>,
    unstorable: seq<File>,
    attempts: seq<string>
  )

  const EMPTY := State(map[], [], [], [], [], [], [], [])

  ghost function Pending(files: map<string, nat>): (r: seq<string>)
    ensures Ascending(r) && forall n :: n in r <==> n in files && IsJpg(n)
  {
    Listing(set n | n in files && IsJpg(n))
  }

  function FileAt(s: State, name: string): File
    requires name in s.files
  {
    File(name, s.files[name])
  }

  function EvictOne(s: State, name: string): State
    requires name in s.files
  {
    s.(files := s.files - {name}, evicted := s.evicted + [FileAt(s, name)])
  }

  function DropMalformed(s: State, name: string): State
    requires name in s.files
  {
    s.(files := s.files - {name}, malformed := s.malformed + [FileAt(s, name)])
  }

  function Deliver(s: State, name: string): State
    requires name in s.files
  {
    s.(files := s.files - {name}, delivered := s.delivered + [FileAt(s, name)], attempts := s.attempts + [name])
  }

  /** Deletes the given files, oldest first. */
  function Evict(s: State, names: seq<string>): State
    requires Ascending(names) && forall n :: n in names ==> n in s.files
    decreases |names|
  {
    if names == [] then s
    else
      LessIrreflexive(names[0]);
      Evict(EvictOne(s, names[0]), names[1..])
  }

  function Excess(pending: nat): nat {
    if pending >= MAX_CACHED_FILES then pending - MAX_CACHED_FILES + 1 else 0
  }

  ghost function EnforceCap(s: State): State {
    var names := Pending(s.files);
    AscendingPrefix(names, Excess(|names|));
    Evict(s, names[..Excess(|names|)])
  }

  lemma {:induction false} AscendingPrefix(names: seq<string>, k: nat)
    requires Ascending(names) && k <= |names|
    ensures Ascending(names[..k])
  {
    if k > 0 {
      AscendingPrefix(names[1..], k - 1);
      assert names[..k][1..] == names[1..][..k - 1];
    }
  }

  /** Writes a file, over one of the same name if there is one. */
  function Write(s: State, f: File): State {
    var lost := if f.name in s.files then [FileAt(s, f.name)] else [];
    s.(files := s.files[f.name := f.image], captured := s.captured + [f], overwritten := s.overwritten + lost)
  }

  function Refuse(s: State, f: File): State {
    s.(captured := s.captured + [f], unstorable := s.unstorable + [f])
  }

  /** One call of `cache`: make room, then write. An account id with a slash names a file in a
      directory that does not exist, so its write fails after room was made. */
  ghost function CacheStep(s: State, capturedAtMs: Long, accountId: string, image: nat): State {
    var f := File(FileFor(capturedAtMs, accountId), image);
    if '/' in accountId then Refuse(EnforceCap(s), f) else Write(EnforceCap(s), f)
  }

  /** Sends a batch in order, given the answers of the backend. It stops at the first failure; a
      missing answer is a failure. */
  function Send(s: State, batch: seq<string>, answers: seq<bool>): State
    requires Ascending(batch) && forall n :: n in batch ==> n in s.files
    decreases |batch|
  {
    if batch == [] then s
    else
      LessIrreflexive(batch[0]);
      if Parse(batch[0]).None? then Send(DropMalformed(s, batch[0]), batch[1..], answers)
      else if answers == [] || !answers[0] then s.(attempts := s.attempts + [batch[0]])
      else Send(Deliver(s, batch[0]), batch[1..], answers[1..])
  }

  ghost function Batch(s: State): seq<string> {
    var names := Pending(s.files);
    if |names| <= MAX_DRAIN_PER_CYCLE then names else names[..MAX_DRAIN_PER_CYCLE]
  }

  /** One cycle of `drainCache`. */
  ghost function DrainStep(s: State, answers: seq<bool>): State {
    AscendingPrefix(Pending(s.files), |Batch(s)|);
    Send(s, Batch(s), answers)
  }

  datatype Op = CacheOp(capturedAtMs: Long, accountId: string, image: nat) | DrainOp(answers: seq<bool>)

  ghost function Step(s: State, op: Op): State {
    match op
    case CacheOp(ts, account, image) => CacheStep(s, ts, account, image)
    case DrainOp(answers) => DrainStep(s, answers)
  }

  ghost function Run(s: State, ops: seq<Op>): State {
    if ops == [] then s else Step(Run(s, ops[..|ops| - 1]), ops[|ops| - 1])
  }

  // ----- conservation -----

  function Stored(files: map<string, nat>): set<File> {
    set n | n in files :: File(n, files[n])
  }

  /** Every captured file is in exactly one place, counted with multiplicity. */
  ghost predicate Balanced(s: State) {
    multiset(s.captured) == multiset(Stored(s.files)) + multiset(s.delivered) + multiset(s.evicted) +
      multiset(s.overwritten) + multiset(s.malformed) + multiset(s.unstorable)
  }

  lemma StoredDelete(files: map<string, nat>, name: string)
    requires name in files
    ensures multiset(Stored(files)) == multiset(Stored(files - {name})) + multiset{File(name, files[name])}
  {
    var f := File(name, files[name]);
    forall g
      ensures g in Stored(files) <==> g in Stored(files - {name}) || g == f
    {
      assert g in Stored(files) <==> g.name in files && g.image == files[g.name];
      assert g in Stored(files - {name}) <==> g.name in files - {name} && g.image == files[g.name];
    }
    assert Stored(files) == Stored(files - {name}) + {f};
    assert f !in Stored(files - {name});
  }

  lemma MoveBalanced(s: State, name: string)
    requires name in s.files && Balanced(s)
    ensures Balanced(EvictOne(s, name)) && Balanced(DropMalformed(s, name)) && Balanced(Deliver(s, name))
  {
    StoredDelete(s.files, name);
  }

  lemma StoredWrite(files: map<string, nat>, name: string, image: nat)
    ensures multiset(Stored(files[name := image])) ==
      multiset(Stored(files - {name})) + multiset{File(name, image)}
  {
    assert files[name := image] - {name} == files - {name};
    StoredDelete(files[name := image], name);
  }

  lemma {:induction false} EvictEffect(s: State, names: seq<string>)
    requires Ascending(names) && forall n :: n in names ==> n in s.files
    ensures Evict(s, names).(files := s.files, evicted := s.evicted) == s
    ensures forall n :: n in Evict(s, names).files <==> n in s.files && n !in names
    decreases |names|
  {
    if names != [] {
      LessIrreflexive(names[0]);
      assert names == [names[0]] + names[1..];
      EvictEffect(EvictOne(s, names[0]), names[1..]);
    }
  }

  lemma {:induction false} EvictBalanced(s: State, names: seq<string>)
    requires Ascending(names) && (forall n :: n in names ==> n in s.files) && Balanced(s)
    ensures Balanced(Evict(s, names))
    decreases |names|
  {
    if names != [] {
      LessIrreflexive(names[0]);
      MoveBalanced(s, names[0]);
      EvictBalanced(EvictOne(s, names[0]), names[1..]);
    }
  }

  lemma RestStays(files: map<string, nat>, names: seq<string>)
    requires Ascending(names) && names != [] && forall n :: n in names ==> n in files
    ensures Ascending(names[1..]) && forall n :: n in names[1..] ==> n in files - {names[0]}
  {
    LessIrreflexive(names[0]);
  }

  lemma {:induction false} SendBalanced(s: State, batch: seq<string>, answers: seq<bool>)
    requires Ascending(batch) && (forall n :: n in batch ==> n in s.files) && Balanced(s)
    ensures Balanced(Send(s, batch, answers))
    decreases |batch|
  {
    if batch != [] {
      RestStays(s.files, batch);
      MoveBalanced(s, batch[0]);
      if Parse(batch[0]).None? {
        SendBalanced(DropMalformed(s, batch[0]), batch[1..], answers);
      } else if answers != [] && answers[0] {
        SendBalanced(Deliver(s, batch[0]), batch[1..], answers[1..]);
      } else {
        AttemptBalanced(s, batch[0]);
      }
    }
  }

  lemma AttemptBalanced(s: State, name: string)
    requires Balanced(s)
    ensures Balanced(s.(attempts := s.attempts + [name]))
  {
  }

  lemma WriteBalanced(s: State, f: File)
    requires Balanced(s)
    ensures Balanced(Write(s, f))
  {
    StoredWrite(s.files, f.name, f.image);
    if f.name in s.files {
      StoredDelete(s.files, f.name);
    } else {
      assert s.files - {f.name} == s.files;
    }
  }

  lemma RefuseBalanced(s: State, f: File)
    requires Balanced(s)
    ensures Balanced(Refuse(s, f))
  {
  }

  lemma EnforceCapBalanced(s: State)
    requires Balanced(s)
    ensures Balanced(EnforceCap(s))
  {
    var names := Pending(s.files);
    AscendingPrefix(names, Excess(|names|));
    EvictBalanced(s, names[..Excess(|names|)]);
  }

  lemma CacheBalanced(s: State, capturedAtMs: Long, accountId: string, image: nat)
    requires Balanced(s)
    ensures Balanced(CacheStep(s, capturedAtMs, accountId, image))
  {
    EnforceCapBalanced(s);
    var f := File(FileFor(capturedAtMs, accountId), image);
    if '/' in accountId {
      RefuseBalanced(EnforceCap(s), f);
    } else {
      WriteBalanced(EnforceCap(s), f);
    }
  }

  /** Nothing is lost or duplicated: over any run whatever, each captured file is pending,
      delivered, evicted, overwritten by a file of the same name, dropped as malformed or refused
      by the file system, and in only one of these. */
  lemma {:induction false} Conservation(s: State, ops: seq<Op>)
    requires Balanced(s)
    ensures Balanced(Run(s, ops))
  {
    if ops != [] {
      var t := Run(s, ops[..|ops| - 1]);
      Conservation(s, ops[..|ops| - 1]);
      match ops[|ops| - 1]
      case CacheOp(ts, account, image) => CacheBalanced(t, ts, account, image);
      case DrainOp(answers) =>
        AscendingPrefix(Pending(t.files), |Batch(t)|);
        SendBalanced(t, Batch(t), answers);
    }
  }

  // ----- the bound -----

  lemma {:induction false} AscendingDistinct(names: seq<string>)
    requires Ascending(names)
    ensures |set n | n in names| == |names|
  {
    if names == [] {
      assert (set n | n in names) == {};
    } else {
      AscendingDistinct(names[1..]);
      LessIrreflexive(names[0]);
      assert names == [names[0]] + names[1..];
      assert (set n | n in names) == {names[0]} + (set n | n in names[1..]);
    }
  }

  /** Dropping the first k names and adding one leaves at most that many. */
  lemma NamesAfter(names: seq<string>, k: nat, added: string, after: seq<string>)
    requires Ascending(after) && k <= |names|
    requires forall n :: n in after ==> n == added || (n in names && n !in names[..k])
    ensures |after| <= |names| - k + 1
  {
    var kept := names[k..];
    var keptSet := set n | n in kept;
    var afterSet := set n | n in after;
    assert names == names[..k] + kept;
    AscendingDistinct(after);
    SetNoLarger(kept);
    Subset(afterSet, keptSet + {added});
  }

  lemma EvictedAndWritten(s: State, capturedAtMs: Long, accountId: string, image: nat, n: string)
    requires n in CacheStep(s, capturedAtMs, accountId, image).files
    ensures n == FileFor(capturedAtMs, accountId) || n in EnforceCap(s).files
  {
  }

  lemma EnforceCapLeaves(s: State)
    ensures var names := Pending(s.files);
      forall n :: n in EnforceCap(s).files <==> n in s.files && n !in names[..Excess(|names|)]
  {
    var names := Pending(s.files);
    AscendingPrefix(names, Excess(|names|));
    EvictEffect(s, names[..Excess(|names|)]);
  }

  /** After any call of `cache` the queue is within its bound, whatever the directory held before. */
  lemma CacheIsBounded(s: State, capturedAtMs: Long, accountId: string, image: nat)
    ensures |Pending(CacheStep(s, capturedAtMs, accountId, image).files)| <= 200
  {
    var names := Pending(s.files);
    var k := Excess(|names|);
    var after := Pending(CacheStep(s, capturedAtMs, accountId, image).files);
    var name := FileFor(capturedAtMs, accountId);
    EnforceCapLeaves(s);
    forall n | n in after
      ensures n == name || (n in names && n !in names[..k])
    {
      EvictedAndWritten(s, capturedAtMs, accountId, image, n);
    }
    NamesAfter(names, k, name, after);
  }

  lemma {:induction false} SetNoLarger(names: seq<string>)
    ensures |set n | n in names| <= |names|
  {
    if names == [] {
      assert (set n | n in names) == {};
    } else {
      SetNoLarger(names[1..]);
      assert names == [names[0]] + names[1..];
      assert (set n | n in names) == {names[0]} + (set n | n in names[1..]);
    }
  }

  lemma Subset<T>(a: set<T>, b: set<T>)
    requires a <= b
    ensures |a| <= |b|
  {
    assert b == a + (b - a);
  }

  lemma {:induction false} SendShrinks(s: State, batch: seq<string>, answers: seq<bool>)
    requires Ascending(batch) && forall n :: n in batch ==> n in s.files
    ensures forall n :: n in Send(s, batch, answers).files ==> n in s.files
    decreases |batch|
  {
    if batch != [] {
      LessIrreflexive(batch[0]);
      if Parse(batch[0]).None? {
        SendShrinks(DropMalformed(s, batch[0]), batch[1..], answers);
      } else if answers != [] && answers[0] {
        SendShrinks(Deliver(s, batch[0]), batch[1..], answers[1..]);
      }
    }
  }

  lemma PendingMonotone(a: map<string, nat>, b: map<string, nat>)
    requires forall n :: n in a ==> n in b
    ensures |Pending(a)| <= |Pending(b)|
  {
    AscendingDistinct(Pending(a));
    AscendingDistinct(Pending(b));
    var p := set n | n in Pending(a);
    var q := set n | n in Pending(b);
    Subset(p, q);
  }

  /** So the queue stays within its bound over every run. */
  lemma {:induction false} NeverMoreThanCap(s: State, ops: seq<Op>)
    requires |Pending(s.files)| <= 200
    ensures |Pending(Run(s, ops).files)| <= 200
  {
    if ops != [] {
      var t := Run(s, ops[..|ops| - 1]);
      NeverMoreThanCap(s, ops[..|ops| - 1]);
      match ops[|ops| - 1]
      case CacheOp(ts, account, image) => CacheIsBounded(t, ts, account, image);
      case DrainOp(answers) =>
        AscendingPrefix(Pending(t.files), |Batch(t)|);
        SendShrinks(t, Batch(t), answers);
        PendingMonotone(DrainStep(t, answers).files, t.files);
    }
  }

  // ----- the oldest file of a batch: skipped, failed or sent -----

  ghost predicate Sendable(s: State, batch: seq<string>) {
    Ascending(batch) && forall n :: n in batch ==> n in s.files
  }

  lemma SendSkips(s: State, batch: seq<string>, answers: seq<bool>)
    requires Sendable(s, batch) && batch != [] && Parse(batch[0]).None?
    ensures Sendable(DropMalformed(s, batch[0]), batch[1..])
    ensures Send(s, batch, answers) == Send(DropMalformed(s, batch[0]), batch[1..], answers)
  {
    RestStays(s.files, batch);
  }

  lemma SendFails(s: State, batch: seq<string>, answers: seq<bool>)
    requires Sendable(s, batch) && batch != [] && Parse(batch[0]).Some? && (answers == [] || !answers[0])
    ensures Send(s, batch, answers) == s.(attempts := s.attempts + [batch[0]])
  {
  }

  lemma SendSucceeds(s: State, batch: seq<string>, answers: seq<bool>)
    requires Sendable(s, batch) && batch != [] && Parse(batch[0]).Some? && answers != [] && answers[0]
    ensures Sendable(Deliver(s, batch[0]), batch[1..])
    ensures Send(s, batch, answers) == Send(Deliver(s, batch[0]), batch[1..], answers[1..])
  {
    RestStays(s.files, batch);
  }

  // ----- one drain cycle -----

  /** A file that both the listing and the parser accept. */
  predicate Replayable(name: string) {
    IsJpg(name) && Parse(name).Some?
  }

  ghost predicate WellNamed(files: map<string, nat>) {
    forall n {:trigger Replayable(n)} :: n in files ==> Replayable(n)
  }

  function DeliverAll(s: State, names: seq<string>): State
    requires Ascending(names) && forall n :: n in names ==> n in s.files
    decreases |names|
  {
    if names == [] then s
    else
      LessIrreflexive(names[0]);
      DeliverAll(Deliver(s, names[0]), names[1..])
  }

  function FilesAt(files: map<string, nat>, names: seq<string>): (r: seq<File>)
    requires forall n :: n in names ==> n in files
    ensures |r| == |names| && forall i :: 0 <= i < |names| ==> r[i] == File(names[i], files[names[i]])
  {
    seq(|names|, i requires 0 <= i < |names| => File(names[i], files[names[i]]))
  }

  lemma FilesAtCons(files: map<string, nat>, names: seq<string>)
    requires Ascending(names) && names != [] && forall n :: n in names ==> n in files
    ensures names[0] !in names[1..]
    ensures FilesAt(files, names) == [File(names[0], files[names[0]])] + FilesAt(files - {names[0]}, names[1..])
  {
    LessIrreflexive(names[0]);
  }

  lemma {:induction false} DeliverAllFiles(s: State, names: seq<string>)
    requires Ascending(names) && forall n :: n in names ==> n in s.files
    ensures forall n :: n in DeliverAll(s, names).files <==> n in s.files && n !in names
    decreases |names|
  {
    if names != [] {
      LessIrreflexive(names[0]);
      DeliverAllFiles(Deliver(s, names[0]), names[1..]);
      assert names == [names[0]] + names[1..];
    }
  }

  lemma {:induction false} DeliverAllLogs(s: State, names: seq<string>)
    requires Ascending(names) && forall n :: n in names ==> n in s.files
    ensures DeliverAll(s, names).attempts == s.attempts + names
    ensures DeliverAll(s, names).delivered == s.delivered + FilesAt(s.files, names)
    decreases |names|
  {
    if names != [] {
      FilesAtCons(s.files, names);
      var t := Deliver(s, names[0]);
      DeliverAllLogs(t, names[1..]);
      Regroup(s.delivered, FileAt(s, names[0]), FilesAt(t.files, names[1..]));
      Regroup(s.attempts, names[0], names[1..]);
      assert names == [names[0]] + names[1..];
    }
  }

  /** How many answers are good before the first bad or missing one, at most `limit`. */
  function Leading(answers: seq<bool>, limit: nat): (k: nat)
    ensures k <= limit && k <= |answers| && (forall i :: 0 <= i < k ==> answers[i])
    ensures k < limit && k < |answers| ==> !answers[k]
  {
    if limit == 0 || answers == [] || !answers[0] then 0 else 1 + Leading(answers[1..], limit - 1)
  }

  /** The state after k deliveries and, if a file is left in the batch, one failed attempt. */
  function DeliverFirst(s: State, batch: seq<string>, k: nat): State
    requires k <= |batch| && Ascending(batch) && forall n :: n in batch ==> n in s.files
  {
    AscendingPrefix(batch, k);
    var t := DeliverAll(s, batch[..k]);
    if k < |batch| then t.(attempts := t.attempts + [batch[k]]) else t
  }

  /** A cycle over well-named files delivers the longest prefix of the batch that the backend accepts,
      and attempts at most one file more: nothing is attempted after a failure. */
  lemma {:induction false} SendIsPrefix(s: State, batch: seq<string>, answers: seq<bool>)
    requires Sendable(s, batch) && WellNamed(s.files)
    ensures Send(s, batch, answers) == DeliverFirst(s, batch, Leading(answers, |batch|))
    decreases |batch|
  {
    if batch == [] {
      assert batch[..0] == [];
    } else {
      assert Replayable(batch[0]);
      if answers == [] || !answers[0] {
        FailsAtOnce(s, batch, answers);
      } else {
        SendSucceeds(s, batch, answers);
        SendIsPrefix(Deliver(s, batch[0]), batch[1..], answers[1..]);
        DeliverOneMore(s, batch, Leading(answers, |batch|));
      }
    }
  }

  lemma FailsAtOnce(s: State, batch: seq<string>, answers: seq<bool>)
    requires Sendable(s, batch) && batch != [] && Replayable(batch[0])
    requires answers == [] || !answers[0]
    ensures Send(s, batch, answers) == DeliverFirst(s, batch, 0)
  {
    SendFails(s, batch, answers);
    assert batch[..0] == [];
  }

  lemma DeliverOneMore(s: State, batch: seq<string>, k: nat)
    requires 0 < k <= |batch| && Sendable(s, batch) && Sendable(Deliver(s, batch[0]), batch[1..])
    ensures DeliverFirst(s, batch, k) == DeliverFirst(Deliver(s, batch[0]), batch[1..], k - 1)
  {
    AscendingPrefix(batch, k);
    assert batch[..k][1..] == batch[1..][..k - 1];
  }

  lemma {:induction false} EvictLogs(s: State, names: seq<string>)
    requires Ascending(names) && forall n :: n in names ==> n in s.files
    ensures Evict(s, names).evicted == s.evicted + FilesAt(s.files, names)
    decreases |names|
  {
    if names != [] {
      RestStays(s.files, names);
      FilesAtCons(s.files, names);
      var t := EvictOne(s, names[0]);
      EvictLogs(t, names[1..]);
      Regroup(s.evicted, FileAt(s, names[0]), FilesAt(t.files, names[1..]));
    }
  }

  /** Making room removes exactly the oldest files beyond 199, and nothing below 200. */
  lemma RoomIsMadeExactly(s: State) returns (k: nat)
    ensures var names := Pending(s.files);
      k <= |names| && |names| - k == (if |names| < 200 then |names| else 199) &&
      EnforceCap(s).evicted == s.evicted + FilesAt(s.files, names[..k]) &&
      Pending(EnforceCap(s).files) == names[k..]
  {
    var names := Pending(s.files);
    k := Excess(|names|);
    AscendingPrefix(names, k);
    EvictLogs(s, names[..k]);
    EnforceCapLeaves(s);
    PendingWithout(s.files, EnforceCap(s).files, k);
  }

  lemma InSuffix(names: seq<string>, k: nat, n: string)
    requires Ascending(names) && k <= |names|
    ensures n in names[k..] <==> n in names && n !in names[..k]
  {
    assert names == names[..k] + names[k..];
    if n in names[..k] && n in names[k..] {
      AscendingCross(names, k);
      LessIrreflexive(n);
    }
  }

  /** Without its first k names, the listing is the rest. */
  lemma PendingWithout(files: map<string, nat>, after: map<string, nat>, k: nat)
    requires k <= |Pending(files)|
    requires forall n :: n in after <==> n in files && n !in Pending(files)[..k]
    ensures Pending(after) == Pending(files)[k..]
  {
    var names := Pending(files);
    AscendingSuffix(names, k);
    forall n
      ensures n in Pending(after) <==> n in names[k..]
    {
      InSuffix(names, k, n);
    }
    AscendingUnique(Pending(after), names[k..]);
  }

  lemma {:induction false} AscendingSuffix(names: seq<string>, k: nat)
    requires Ascending(names) && k <= |names|
    ensures Ascending(names[k..])
  {
    if k > 0 {
      AscendingSuffix(names[1..], k - 1);
      assert names[1..][k - 1..] == names[k..];
    }
  }

  lemma CaptureIsRecorded(s: State, capturedAtMs: Long, accountId: string, image: nat)
    ensures CacheStep(s, capturedAtMs, accountId, image).captured ==
      s.captured + [File(FileFor(capturedAtMs, accountId), image)]
  {
    var names := Pending(s.files);
    AscendingPrefix(names, Excess(|names|));
    EvictEffect(s, names[..Excess(|names|)]);
  }

  /** A call of `cache` makes room and then writes the one file, unless the account id has a slash; then
      nothing is written. */
  lemma CacheWritesExactly(s: State, capturedAtMs: Long, accountId: string, image: nat, n: string)
    ensures var t := CacheStep(s, capturedAtMs, accountId, image);
      if '/' !in accountId && n == FileFor(capturedAtMs, accountId) then n in t.files && t.files[n] == image
      else (n in t.files <==> n in EnforceCap(s).files) && (n in t.files ==> t.files[n] == EnforceCap(s).files[n])
  {
  }

  /** A cycle takes the five oldest pending files, or all when there are fewer. */
  lemma BatchIsOldest(s: State)
    ensures var names := Pending(s.files);
      Batch(s) == if |names| <= 5 then names else names[..5]
  {
  }

  // ----- order -----

  predicate Increasing(fs: seq<File>) {
    forall i, j :: 0 <= i < j < |fs| ==> Less(fs[i].name, fs[j].name)
  }

  predicate AllBefore(fs: seq<File>, name: string) {
    forall f :: f in fs ==> Less(f.name, name)
  }

  /** A pending file was captured, after everything delivered or evicted. */
  predicate Behind(s: State, name: string)
    requires name in s.files
  {
    AllBefore(s.delivered, name) && AllBefore(s.evicted, name) && FileAt(s, name) in s.captured
  }

  /** The replay so far and the backlog are in capture order. */
  ghost predicate InOrder(s: State) {
    (forall n :: n in s.files ==> Behind(s, n)) &&
    Increasing(s.captured) && Increasing(s.delivered) && Increasing(s.evicted) &&
    (forall f :: f in s.delivered || f in s.evicted ==> f in s.captured)
  }

  ghost predicate NothingLost(s: State) {
    s.overwritten == s.malformed == s.unstorable == []
  }

  /** Captures come with increasing names and storable accounts. */
  ghost predicate Fits(s: State, op: Op) {
    match op
    case CacheOp(ts, account, image) => '/' !in account && AllBefore(s.captured, FileFor(ts, account))
    case DrainOp(answers) => true
  }

  ghost predicate RunFits(s: State, ops: seq<Op>) {
    ops == [] || (RunFits(s, ops[..|ops| - 1]) && Fits(Run(s, ops[..|ops| - 1]), ops[|ops| - 1]))
  }

  /** The names are the first of the directory, in order. */
  ghost predicate LeastFirst(files: map<string, nat>, names: seq<string>) {
    Ascending(names) && (forall n :: n in names ==> n in files) &&
    forall n, m :: n in names && m in files ==> m in names || Less(n, m)
  }

  lemma {:induction false} AscendingCross(names: seq<string>, k: nat)
    requires Ascending(names) && k <= |names|
    ensures forall n, m :: n in names[..k] && m in names[k..] ==> Less(n, m)
  {
    if k > 0 {
      AscendingCross(names[1..], k - 1);
      assert names[..k] == [names[0]] + names[1..][..k - 1];
      assert names[k..] == names[1..][k - 1..];
      assert forall m :: m in names[k..] ==> m in names[1..];
    }
  }

  lemma PrefixIsLeast(files: map<string, nat>, names: seq<string>, k: nat)
    requires Ascending(names) && (forall n :: n in names <==> n in files) && k <= |names|
    ensures LeastFirst(files, names[..k])
  {
    AscendingPrefix(names, k);
    AscendingCross(names, k);
    assert names == names[..k] + names[k..];
  }

  lemma PendingIsAll(files: map<string, nat>)
    requires WellNamed(files)
    ensures forall n :: n in Pending(files) <==> n in files
  {
    forall n | n in files
      ensures IsJpg(n)
    {
      assert Replayable(n);
    }
  }

  lemma LeastFirstTail(files: map<string, nat>, names: seq<string>)
    requires LeastFirst(files, names) && names != []
    ensures forall m :: m in files - {names[0]} ==> Less(names[0], m)
    ensures LeastFirst(files - {names[0]}, names[1..])
  {
    LessIrreflexive(names[0]);
    assert names == [names[0]] + names[1..];
  }

  lemma IncreasingAppend(fs: seq<File>, f: File)
    requires Increasing(fs) && AllBefore(fs, f.name)
    ensures Increasing(fs + [f])
  {
    assert forall i :: 0 <= i < |fs| ==> fs[i] in fs;
  }

  lemma EvictLeast(s: State, name: string)
    requires InOrder(s) && name in s.files && forall m :: m in s.files - {name} ==> Less(name, m)
    ensures InOrder(EvictOne(s, name))
  {
    assert Behind(s, name);
    IncreasingAppend(s.evicted, FileAt(s, name));
    forall n | n in s.files - {name}
      ensures Behind(EvictOne(s, name), n)
    {
      assert Behind(s, n);
    }
  }

  lemma DeliverLeast(s: State, name: string)
    requires InOrder(s) && name in s.files && forall m :: m in s.files - {name} ==> Less(name, m)
    ensures InOrder(Deliver(s, name))
  {
    assert Behind(s, name);
    IncreasingAppend(s.delivered, FileAt(s, name));
    forall n | n in s.files - {name}
      ensures Behind(Deliver(s, name), n)
    {
      assert Behind(s, n);
    }
  }

  lemma {:induction false} EvictInOrder(s: State, names: seq<string>)
    requires InOrder(s) && LeastFirst(s.files, names)
    ensures InOrder(Evict(s, names))
    decreases |names|
  {
    if names != [] {
      LeastFirstTail(s.files, names);
      EvictLeast(s, names[0]);
      EvictInOrder(EvictOne(s, names[0]), names[1..]);
    }
  }

  lemma AttemptInOrder(s: State, name: string)
    requires InOrder(s)
    ensures InOrder(s.(attempts := s.attempts + [name]))
  {
    var t := s.(attempts := s.attempts + [name]);
    forall n | n in t.files
      ensures Behind(t, n)
    {
      assert Behind(s, n);
    }
  }

  lemma WriteInOrder(s: State, f: File)
    requires InOrder(s) && AllBefore(s.captured, f.name)
    ensures InOrder(Write(s, f)) && f.name !in s.files
  {
    LessIrreflexive(f.name);
    assert f.name in s.files ==> Behind(s, f.name);
    IncreasingAppend(s.captured, f);
    var t := Write(s, f);
    forall n | n in t.files
      ensures Behind(t, n)
    {
      assert n != f.name ==> Behind(s, n);
    }
  }

  ghost predicate Replaying(s: State) {
    InOrder(s) && WellNamed(s.files) && NothingLost(s)
  }

  lemma EnforceCapInOrder(s: State)
    requires Replaying(s)
    ensures Replaying(EnforceCap(s)) && EnforceCap(s).captured == s.captured
  {
    var names := Pending(s.files);
    var k := Excess(|names|);
    PendingIsAll(s.files);
    PrefixIsLeast(s.files, names, k);
    EvictInOrder(s, names[..k]);
    EvictEffect(s, names[..k]);
  }

  lemma NameIsReplayable(ts: Long, account: string)
    ensures Replayable(FileFor(ts, account))
  {
    ParseText(ts, account);
  }

  lemma CacheInOrder(s: State, ts: Long, account: string, image: nat)
    requires Replaying(s) && Fits(s, CacheOp(ts, account, image))
    ensures Replaying(CacheStep(s, ts, account, image))
  {
    EnforceCapInOrder(s);
    WriteInOrder(EnforceCap(s), File(FileFor(ts, account), image));
    NameIsReplayable(ts, account);
  }

  lemma {:induction false} SendInOrder(s: State, batch: seq<string>, answers: seq<bool>)
    requires Replaying(s) && LeastFirst(s.files, batch)
    ensures Replaying(Send(s, batch, answers))
    decreases |batch|
  {
    if batch != [] {
      LeastFirstTail(s.files, batch);
      assert Replayable(batch[0]);
      if answers != [] && answers[0] {
        DeliverLeast(s, batch[0]);
        SendInOrder(Deliver(s, batch[0]), batch[1..], answers[1..]);
      } else {
        AttemptInOrder(s, batch[0]);
      }
    }
  }

  lemma DrainInOrder(s: State, answers: seq<bool>)
    requires Replaying(s)
    ensures Replaying(DrainStep(s, answers))
  {
    var names := Pending(s.files);
    PendingIsAll(s.files);
    PrefixIsLeast(s.files, names, |Batch(s)|);
    assert Batch(s) == names[..|Batch(s)|];
    SendInOrder(s, Batch(s), answers);
  }

  /** With increasing names, every file the cache wrote parses again, nothing is overwritten, the
      backend receives the backlog in capture order, and what is still pending is newer than
      everything delivered or evicted. */
  lemma {:induction false} ReplayInOrder(ops: seq<Op>)
    requires RunFits(EMPTY, ops)
    ensures Replaying(Run(EMPTY, ops))
  {
    if ops != [] {
      ReplayInOrder(ops[..|ops| - 1]);
      var s := Run(EMPTY, ops[..|ops| - 1]);
      match ops[|ops| - 1]
      case CacheOp(ts, account, image) => CacheInOrder(s, ts, account, image);
      case DrainOp(answers) => DrainInOrder(s, answers);
    }
  }
}
