/** The cache manager and the capture service as objects over a directory. Their methods follow
    the steps of OfflineCache. */
module CacheServices {
  import opened Options
  import opened Strings
  import opened FileNames
  import opened OfflineCache

  function InsertName(names: seq<string>, name: string): seq<string> {
    if names == [] || Less(name, names[0]) then [name] + names
    else [names[0]] + InsertName(names[1..], name)
  }

  lemma {:induction false} InsertNameAscends(names: seq<string>, name: string)
    requires Ascending(names) && name !in names
    ensures Ascending(InsertName(names, name))
    ensures forall n :: n in InsertName(names, name) <==> n in names || n == name
  {
    if names == [] || Less(name, names[0]) {
      forall n | n in names
        ensures Less(name, n)
      {
        if n != names[0] {
          HeadIsLeast(names, n);
          LessTransitive(name, names[0], n);
        }
      }
      assert ([name] + names)[1..] == names;
    } else {
      LessTotal(name, names[0]);
      InsertNameAscends(names[1..], name);
      assert names == [names[0]] + names[1..];
    }
  }

  class ScreenshotCacheManager {
    var files: map<string, nat>
    ghost var ledger: State

    constructor ()
      ensures Valid() && ledger == EMPTY
    {
      files := map[];
      ledger := EMPTY;
    }

    ghost predicate Valid()
      reads this
    {
      ledger.files == files
    }

    method ListPendingOldestFirst() returns (names: seq<string>)
      ensures names == Pending(files)
    {
      var todo := set n | n in files && IsJpg(n);
      names := [];
      while todo != {}
        invariant Ascending(names)
        invariant forall n :: n in names || n in todo <==> n in files && IsJpg(n)
        invariant forall n :: n in names ==> n !in todo
        decreases todo
      {
        var n :| n in todo;
        InsertNameAscends(names, n);
        names := InsertName(names, n);
        todo := todo - {n};
      }
      AscendingUnique(names, Pending(files));
    }

    method EnforceCapBeforeInsert()
      requires Valid()
      modifies this
      ensures Valid() && ledger == EnforceCap(old(ledger))
    {
      var names := ListPendingOldestFirst();
      if |names| >= MAX_CACHED_FILES {
        var toDrop := |names| - MAX_CACHED_FILES + 1;
        AscendingPrefix(names, toDrop);
        var dropping := names[..toDrop];
        while dropping != []
          invariant Valid() && Ascending(dropping) && forall n :: n in dropping ==> n in files
          invariant Evict(ledger, dropping) == EnforceCap(old(ledger))
        {
          LessIrreflexive(dropping[0]);
          ledger := EvictOne(ledger, dropping[0]);
          files := files - {dropping[0]};
          dropping := dropping[1..];
        }
      } else {
        assert names[..0] == [];
      }
    }

    /** Removes a file whose name cannot be read. */
    method DropMalformedFile(name: string)
      requires Valid() && name in files
      modifies this
      ensures Valid() && ledger == DropMalformed(old(ledger), name)
    {
      ledger := DropMalformed(ledger, name);
      files := files - {name};
    }

    /** Removes a file that was sent. */
    method RemoveSent(name: string)
      requires Valid() && name in files
      modifies this
      ensures Valid() && ledger == Deliver(old(ledger), name)
    {
      ledger := Deliver(ledger, name);
      files := files - {name};
    }

    /** A failed upload changes no file. */
    ghost method RecordFailure(name: string)
      requires Valid()
      modifies this`ledger
      ensures Valid() && ledger == old(ledger).(attempts := old(ledger.attempts) + [name])
    {
      ledger := ledger.(attempts := ledger.attempts + [name]);
    }

    method Cache(image: nat, capturedAtMs: Long, accountId: string)
      requires Valid()
      modifies this
      ensures Valid() && ledger == CacheStep(old(ledger), capturedAtMs, accountId, image)
    {
      EnforceCapBeforeInsert();
      var name := FileFor(capturedAtMs, accountId);
      if '/' in accountId {
        ledger := Refuse(ledger, File(name, image));
      } else {
        ledger := Write(ledger, File(name, image));
        files := files[name := image];
      }
    }
  }

  class ScreenCaptureService {
    const cacheManager: ScreenshotCacheManager

    constructor (cacheManager: ScreenshotCacheManager)
      ensures this.cacheManager == cacheManager
    {
      this.cacheManager := cacheManager;
    }

    /** One upload with its single retry, given whether each try would succeed. */
    method TrySend(tries: seq<bool>) returns (sent: bool, made: nat)
      requires |tries| == 2
      ensures sent <==> exists i :: 0 <= i < 2 && tries[i]
      ensures 0 < made <= 2 && (forall i :: 0 <= i < made - 1 ==> !tries[i])
      ensures if sent then tries[made - 1] else made == 2
    {
      for attempt := 0 to UPLOAD_TRIES
        invariant forall i :: 0 <= i < attempt ==> !tries[i]
      {
        if tries[attempt] {
          return true, attempt + 1;
        }
      }
      return false, UPLOAD_TRIES;
    }

    /** A live capture is sent at once, or cached when both tries fail: it is then the newest capture of
        the ledger, and the backlog is within its bound. */
    method CaptureAndSend(image: nat, capturedAtMs: Long, accountId: string, tries: seq<bool>)
      requires cacheManager.Valid() && |tries| == 2
      modifies cacheManager
      ensures cacheManager.Valid()
      ensures cacheManager.ledger == old(cacheManager.ledger) <==> exists i :: 0 <= i < 2 && tries[i]
      ensures (forall i :: 0 <= i < 2 ==> !tries[i]) ==>
        cacheManager.ledger == CacheStep(old(cacheManager.ledger), capturedAtMs, accountId, image) &&
        cacheManager.ledger.captured ==
          old(cacheManager.ledger.captured) + [File(FileFor(capturedAtMs, accountId), image)] &&
        |Pending(cacheManager.files)| <= 200
    {
      var sent, _ := TrySend(tries);
      if !sent {
        CaptureIsRecorded(cacheManager.ledger, capturedAtMs, accountId, image);
        CacheIsBounded(cacheManager.ledger, capturedAtMs, accountId, image);
        cacheManager.Cache(image, capturedAtMs, accountId);
      }
    }

    /** The oldest file of a batch: dropped when its name cannot be read, else uploaded and removed, or
        left in place when the upload fails. */
    method ReplayOldest(name: string, answers: seq<bool>) returns (upload: Option<Upload>, stop: bool)
      requires cacheManager.Valid() && name in cacheManager.files
      modifies cacheManager
      ensures cacheManager.Valid() && cacheManager.ledger == AfterOldest(old(cacheManager.ledger), name, answers)
      ensures stop <==> OutcomeOf(name, answers) == Failed
      ensures upload.Some? <==> OutcomeOf(name, answers) == Sent
      ensures upload.Some? ==> Carries(upload.value, FileAt(old(cacheManager.ledger), name))
    {
      var parsed := Parse(name);
      if parsed.None? {
        cacheManager.DropMalformedFile(name);
        return None, false;
      }
      if answers == [] || !answers[0] {
        cacheManager.RecordFailure(name);
        return None, true;
      }
      upload, stop := Some(Upload(parsed.value.0, parsed.value.1, cacheManager.files[name])), false;
      cacheManager.RemoveSent(name);
    }

    /** The oldest pending files, at most five. */
    method TakeBatch() returns (batch: seq<string>)
      requires cacheManager.Valid()
      ensures batch == Batch(cacheManager.ledger)
    {
      var pending := cacheManager.ListPendingOldestFirst();
      batch := if |pending| <= MAX_DRAIN_PER_CYCLE then pending else pending[..MAX_DRAIN_PER_CYCLE];
    }

    /** One drain cycle. The answers are those the uploads of this cycle would get; `sent` lists the
        uploads that succeeded, with the metadata recovered from the names. */
    method DrainCache(answers: seq<bool>) returns (sent: seq<Upload>)
      requires cacheManager.Valid()
      modifies cacheManager
      ensures cacheManager.Valid() && cacheManager.ledger == DrainStep(old(cacheManager.ledger), answers)
      ensures exists moved: seq<File> ::
        cacheManager.ledger.delivered == old(cacheManager.ledger.delivered) + moved && AllCarry(sent, moved)
    {
      sent := [];
      ghost var moved: seq<File> := [];
      ghost var (before, final) := (cacheManager.ledger.delivered, DrainStep(cacheManager.ledger, answers));
      var batch := TakeBatch();
      DrainIsSend(cacheManager.ledger, answers);
      var left := answers;
      assert cacheManager.ledger.delivered == before + moved;
      while batch != []
        invariant cacheManager.Valid() && Sendable(cacheManager.ledger, batch)
        invariant Send(cacheManager.ledger, batch, left) == final
        invariant cacheManager.ledger.delivered == before + moved && AllCarry(sent, moved)
        decreases |batch|
      {
        SendOldest(cacheManager.ledger, batch, left);
        DeliveredAfter(cacheManager.ledger, batch[0], left);
        ghost var file := FileAt(cacheManager.ledger, batch[0]);
        var upload, stop := ReplayOldest(batch[0], left);
        if stop {
          break;
        }
        if upload.Some? {
          OneMoreCarries(sent, moved, upload.value, file);
          sent, moved, left := sent + [upload.value], moved + [file], left[1..];
        }
        batch := batch[1..];
      }
    }
  }

  /** What the server is told about an uploaded screenshot. */
  datatype Upload = Upload(capturedAtMs: Long, accountId: string, image: nat)

  /** The upload carries the metadata in the name of the file, and its image. */
  ghost predicate Carries(u: Upload, f: File) {
    Parse(f.name) == Some((u.capturedAtMs, u.accountId)) && u.image == f.image
  }

  ghost predicate AllCarry(us: seq<Upload>, fs: seq<File>) {
    |us| == |fs| && forall i :: 0 <= i < |fs| ==> Carries(us[i], fs[i])
  }

  lemma OneMoreCarries(us: seq<Upload>, fs: seq<File>, u: Upload, f: File)
    requires AllCarry(us, fs) && Carries(u, f)
    ensures AllCarry(us + [u], fs + [f])
  {
  }

  datatype Outcome = Skipped | Failed | Sent

  function OutcomeOf(name: string, answers: seq<bool>): (o: Outcome)
    ensures o == Sent ==> answers != []
  {
    if Parse(name).None? then Skipped else if answers == [] || !answers[0] then Failed else Sent
  }

  function AfterOldest(s: State, name: string, answers: seq<bool>): State
    requires name in s.files
  {
    match OutcomeOf(name, answers)
    case Skipped => DropMalformed(s, name)
    case Failed => s.(attempts := s.attempts + [name])
    case Sent => Deliver(s, name)
  }

  /** Sending a batch is sending its oldest file and then, unless that failed, the rest. */
  lemma SendOldest(s: State, batch: seq<string>, answers: seq<bool>)
    requires Sendable(s, batch) && batch != []
    ensures var (t, o) := (AfterOldest(s, batch[0], answers), OutcomeOf(batch[0], answers));
      if o == Failed then Send(s, batch, answers) == t
      else
        Sendable(t, batch[1..]) &&
        Send(s, batch, answers) == Send(t, batch[1..], if o == Sent then answers[1..] else answers)
  {
    match OutcomeOf(batch[0], answers)
    case Skipped => SendSkips(s, batch, answers);
    case Failed => SendFails(s, batch, answers);
    case Sent => SendSucceeds(s, batch, answers);
  }

  lemma DrainIsSend(s: State, answers: seq<bool>)
    ensures Sendable(s, Batch(s)) && DrainStep(s, answers) == Send(s, Batch(s), answers)
  {
    AscendingPrefix(Pending(s.files), |Batch(s)|);
  }

  lemma DeliveredAfter(s: State, name: string, answers: seq<bool>)
    requires name in s.files
    ensures AfterOldest(s, name, answers).delivered ==
      if OutcomeOf(name, answers) == Sent then s.delivered + [FileAt(s, name)] else s.delivered
  {
  }

  /** `repeat(2)`: one try and one retry. */
  const UPLOAD_TRIES := 2
}
