/** What callers may rely on in every reachable state of WorkerSystem: jobs are taken in order and
    handled at most once, and a reply belongs to the job it answers. */
module WorkerResults {
  import opened Options
  import opened JobQueue
  import opened WorkerSystem

  // ----- the broker -----

  ghost predicate UniqueIds(b: Broker) {
    (forall a, i :: 0 <= i < |Get(b.submitted, a)| ==> Get(b.submitted, a)[i].id < b.nextId) &&
    forall a1, i1, a2, i2 | 0 <= i1 < |Get(b.submitted, a1)| && 0 <= i2 < |Get(b.submitted, a2)| ::
      Get(b.submitted, a1)[i1].id == Get(b.submitted, a2)[i2].id ==> a1 == a2 && i1 == i2
  }

  ghost predicate BrokerInv(b: Broker) {
    UniqueIds(b) && forall a: string :: Fifo(b, a)
  }

  /** The parts of the broker that carry jobs. */
  predicate SameJobs(b: Broker, c: Broker) {
    c.queues == b.queues && c.submitted == b.submitted && c.popped == b.popped && c.nextId == b.nextId
  }

  lemma SameJobsInv(b: Broker, c: Broker)
    requires BrokerInv(b) && SameJobs(b, c)
    ensures BrokerInv(c)
  {
    forall a: string
      ensures Fifo(c, a)
    {
      assert Fifo(b, a);
    }
  }

  lemma SubmitInv(b: Broker, a: string, jobType: string, payload: string)
    requires BrokerInv(b)
    ensures BrokerInv(Submit(b, a, jobType, payload))
  {
    forall other: string
      ensures Fifo(Submit(b, a, jobType, payload), other)
    {
      SubmitFifo(b, a, jobType, payload, other);
    }
    SubmitUnique(b, a, jobType, payload);
  }

  lemma SubmitUnique(b: Broker, a: string, jobType: string, payload: string)
    requires UniqueIds(b)
    ensures UniqueIds(Submit(b, a, jobType, payload))
  {
    var c := Submit(b, a, jobType, payload);
    forall x, i | 0 <= i < |Get(c.submitted, x)|
      ensures if x == a && i == |Get(b.submitted, a)| then Get(c.submitted, x)[i].id == b.nextId
              else
                i < |Get(b.submitted, x)| && Get(c.submitted, x)[i] == Get(b.submitted, x)[i] &&
                Get(c.submitted, x)[i].id < b.nextId
    {
    }
  }

  lemma PopInv(b: Broker, a: string)
    requires BrokerInv(b)
    ensures BrokerInv(Pop(b, a))
  {
    forall other: string
      ensures Fifo(Pop(b, a), other)
    {
      PopFifo(b, a, other);
    }
  }

  /** The next job has a different id from every job popped so far, of any account. */
  lemma NextIsFresh(b: Broker, a: string, other: string, job: Job)
    requires BrokerInv(b) && Next(b, a).Some? && job in Get(b.popped, other)
    ensures job.id != Next(b, a).value.id
  {
    assert Fifo(b, a) && Fifo(b, other);
    PopTakesFirst(b, a);
    var (n, i) := (|Get(b.popped, a)|, IndexIn(Get(b.popped, other), job));
    assert Get(b.submitted, a)[n] == Next(b, a).value;
    assert Get(b.submitted, other)[i] == job;
  }

  ghost function IndexIn(js: seq<Job>, job: Job): (i: nat)
    requires job in js
    ensures i < |js| && js[i] == job
  {
    if js[0] == job then 0 else 1 + IndexIn(js[1..], job)
  }

  // ----- jobs in hand -----

  ghost predicate StartedOnce(s: State) {
    (forall i, j :: 0 <= i < j < |s.started| ==> s.started[i].1.id != s.started[j].1.id) &&
    forall i :: 0 <= i < |s.started| ==> s.started[i].1 in Get(s.b.popped, s.started[i].0)
  }

  predicate WasHandled(s: State, id: nat) {
    exists h :: h in s.b.handled && h.job.id == id
  }

  predicate WasStarted(s: State, job: Job) {
    exists x :: x in s.started && x.1 == job
  }

  ghost predicate HandledOnce(s: State) {
    (forall i, j :: 0 <= i < j < |s.b.handled| ==> s.b.handled[i].job.id != s.b.handled[j].job.id) &&
    forall h :: h in s.b.handled ==> WasStarted(s, h.job)
  }

  predicate BusyWith(s: State, pid: nat, job: Job) {
    pid < |s.procs| && s.procs[pid].phase == Busy(job)
  }

  /** A job in a worker's hands was started, is not yet answered and is in no other worker's hands. */
  ghost predicate InHand(s: State) {
    (forall pid, job :: BusyWith(s, pid, job) ==> WasStarted(s, job) && !WasHandled(s, job.id)) &&
    forall p, q, job, other :: BusyWith(s, p, job) && BusyWith(s, q, other) && job.id == other.id ==> p == q
  }

  ghost predicate JobsInv(s: State) {
    BrokerInv(s.b) && StartedOnce(s) && HandledOnce(s) && InHand(s)
  }

  /** Steps that move no job between queue, workers and answers. */
  lemma JobsFrame(s: State, t: State)
    requires JobsInv(s) && BrokerInv(t.b)
    requires t.b.popped == s.b.popped && t.b.handled == s.b.handled && t.started == s.started
    requires forall pid, job :: BusyWith(t, pid, job) ==> BusyWith(s, pid, job)
    ensures JobsInv(t)
  {
    forall job
      ensures WasStarted(t, job) == WasStarted(s, job)
    {
    }
    forall id
      ensures WasHandled(t, id) == WasHandled(s, id)
    {
    }
  }

  lemma JobsTake(s: State, pid: nat)
    requires JobsInv(s) && pid < |s.procs| && s.procs[pid].phase == Ready
    ensures JobsInv(TakeNext(s, pid))
  {
    var a := s.procs[pid].account;
    var t := TakeNext(s, pid);
    PopInv(s.b, a);
    if Next(s.b, a).Some? {
      var job := Next(s.b, a).value;
      forall other, j | j in Get(s.b.popped, other)
        ensures j.id != job.id && j in Get(t.b.popped, other)
      {
        NextIsFresh(s.b, a, other, j);
      }
      if job.jobType == STOP {
        JobsPopped(s, t, pid);
      } else {
        JobsStart(s, t, pid, a, job);
      }
    }
  }

  lemma JobsPopped(s: State, t: State, pid: nat)
    requires JobsInv(s) && BrokerInv(t.b) && pid < |s.procs|
    requires t.b.handled == s.b.handled && t.started == s.started
    requires t.procs == s.procs[pid := s.procs[pid].(phase := Exited)]
    requires forall other, j :: j in Get(s.b.popped, other) ==> j in Get(t.b.popped, other)
    ensures JobsInv(t)
  {
    forall q, job | BusyWith(t, q, job)
      ensures BusyWith(s, q, job) && WasStarted(t, job) && !WasHandled(t, job.id)
    {
      assert BusyWith(s, q, job);
      assert WasStarted(s, job) && !WasHandled(s, job.id);
    }
    forall h | h in t.b.handled
      ensures WasStarted(t, h.job)
    {
      assert WasStarted(s, h.job);
    }
  }

  lemma StartedAgain(s: State, t: State, a: string, job: Job)
    requires StartedOnce(s) && t.started == s.started + [(a, job)] && job in Get(t.b.popped, a)
    requires forall other, j :: j in Get(s.b.popped, other) ==> j.id != job.id && j in Get(t.b.popped, other)
    ensures StartedOnce(t) && WasStarted(t, job)
    ensures forall j :: WasStarted(s, j) ==> WasStarted(t, j) && j.id != job.id
  {
    forall x | x in s.started
      ensures x.1.id != job.id && x in t.started
    {
      var i :| 0 <= i < |s.started| && s.started[i] == x;
      assert s.started[i].1 in Get(s.b.popped, s.started[i].0);
    }
    forall i, j | 0 <= i < j < |t.started|
      ensures t.started[i].1.id != t.started[j].1.id
    {
      assert s.started[i] in s.started;
    }
    forall j | WasStarted(s, j)
      ensures WasStarted(t, j) && j.id != job.id
    {
      var x :| x in s.started && x.1 == j;
      assert x in t.started;
    }
    assert (a, job) in t.started;
  }

  lemma JobsStart(s: State, t: State, pid: nat, a: string, job: Job)
    requires JobsInv(s) && BrokerInv(t.b) && pid < |s.procs|
    requires t.b.handled == s.b.handled && t.started == s.started + [(a, job)]
    requires t.procs == s.procs[pid := s.procs[pid].(phase := Busy(job))]
    requires job in Get(t.b.popped, a)
    requires forall other, j :: j in Get(s.b.popped, other) ==> j.id != job.id && j in Get(t.b.popped, other)
    ensures JobsInv(t)
  {
    StartedAgain(s, t, a, job);
    HandledStays(s, t, job);
    forall q, j | BusyWith(t, q, j)
      ensures WasStarted(t, j) && !WasHandled(t, j.id) && (q != pid ==> BusyWith(s, q, j) && j.id != job.id)
    {
      if q != pid {
        assert BusyWith(s, q, j);
        assert WasStarted(s, j) && !WasHandled(s, j.id);
      }
    }
  }

  lemma HandledStays(s: State, t: State, job: Job)
    requires HandledOnce(s) && t.b.handled == s.b.handled
    requires forall j :: WasStarted(s, j) ==> WasStarted(t, j) && j.id != job.id
    ensures HandledOnce(t) && !WasHandled(t, job.id) && forall id :: WasHandled(t, id) == WasHandled(s, id)
  {
    forall h | h in t.b.handled
      ensures h.job.id != job.id && WasStarted(t, h.job)
    {
      assert WasStarted(s, h.job);
    }
  }

  lemma JobsHandle(s: State, pid: nat, outcome: Outcome)
    requires JobsInv(s) && pid < |s.procs| && s.procs[pid].phase.Busy?
    ensures JobsInv(Apply(s, 0, Handle(pid, outcome)))
  {
    var job := s.procs[pid].phase.job;
    var t := Apply(s, 0, Handle(pid, outcome));
    assert BusyWith(s, pid, job);
    SameJobsInv(s.b, t.b);
    forall i | 0 <= i < |s.b.handled|
      ensures s.b.handled[i].job.id != job.id
    {
      assert s.b.handled[i] in s.b.handled;
    }
    forall h | h in t.b.handled
      ensures WasStarted(t, h.job)
    {
      assert h in s.b.handled || h.job == job;
      assert WasStarted(s, h.job);
    }
    forall q, j | BusyWith(t, q, j)
      ensures BusyWith(s, q, j) && WasStarted(t, j) && !WasHandled(t, j.id)
    {
      assert q != pid && BusyWith(s, q, j);
      assert WasStarted(s, j) && !WasHandled(s, j.id) && j.id != job.id;
    }
  }

  lemma JobsStep(s: State, max: nat, step: Step)
    requires JobsInv(s)
    ensures JobsInv(Apply(s, max, step))
  {
    var t := Apply(s, max, step);
    match step
    case TakeJob(pid) => if pid < |s.procs| && s.procs[pid].phase == Ready { JobsTake(s, pid); }
    case Handle(pid, outcome) => if pid < |s.procs| && s.procs[pid].phase.Busy? { JobsHandle(s, pid, outcome); }
    case SubmitJob(a, jobType, payload) =>
      SubmitInv(s.b, a, jobType, payload);
      JobsFrame(s, t);
    case StopSend =>
      if s.lock.Sending? { SubmitInv(s.b, s.lock.account, STOP, ""); }
      JobsFrame(s, t);
    case _ => JobsQuiet(s, max, step);
  }

  lemma JobsQuiet(s: State, max: nat, step: Step)
    requires JobsInv(s) && !step.TakeJob? && !step.Handle? && !step.SubmitJob? && !step.StopSend?
    ensures JobsInv(Apply(s, max, step))
  {
    if PoolCall(step) {
      QuietPool(s, max, step);
    } else if step.OfProcess() {
      QuietProcesses(s, max, step);
    } else {
      QuietCallers(s, max, step);
    }
    QuietPhases(s, max, step);
    SameJobsInv(s.b, Apply(s, max, step).b);
    JobsFrame(s, Apply(s, max, step));
  }

  predicate JobsUntouched(s: State, t: State) {
    SameJobs(s.b, t.b) && t.b.handled == s.b.handled && t.started == s.started
  }

  lemma QuietEnsure(s: State, max: nat, a: string, cred: string)
    ensures JobsUntouched(s, BeginEnsure(s, max, a, cred))
  {
  }

  predicate PoolCall(step: Step) {
    step.EnsureBegin? || step.Stash? || step.Spawn? || step.Register? ||
    step.StopBegin? || step.Unregister? || step.StopFinish?
  }

  lemma QuietPool(s: State, max: nat, step: Step)
    requires PoolCall(step)
    ensures JobsUntouched(s, Apply(s, max, step))
  {
    if step.EnsureBegin? {
      QuietEnsure(s, max, step.account, step.cred);
    }
  }

  lemma QuietCallers(s: State, max: nat, step: Step)
    requires step.Await? || step.ExpireResult? || step.ExpireCredentials?
    ensures JobsUntouched(s, Apply(s, max, step))
  {
  }

  lemma QuietProcesses(s: State, max: nat, step: Step)
    requires step.Fetch? || step.Discard? || step.Connect? || step.Exit?
    ensures JobsUntouched(s, Apply(s, max, step))
  {
  }

  lemma QuietPhases(s: State, max: nat, step: Step)
    requires !step.TakeJob? && !step.Handle? && !step.SubmitJob? && !step.StopSend?
    ensures forall pid, job :: BusyWith(Apply(s, max, step), pid, job) ==> BusyWith(s, pid, job)
  {
    match step
    case Spawn =>
    case StopFinish =>
    case Fetch(pid) =>
    case Discard(pid) =>
    case Connect(pid, connects) =>
    case Exit(pid) =>
    case _ =>
  }

  lemma {:induction false} JobsRun(max: nat, steps: seq<Step>)
    ensures JobsInv(Run(INITIAL, max, steps))
  {
    if steps != [] {
      JobsRun(max, steps[..|steps| - 1]);
      JobsStep(Run(INITIAL, max, steps[..|steps| - 1]), max, steps[|steps| - 1]);
    }
  }

  // ----- replies -----

  predicate Answers(s: State, id: nat, r: Reply) {
    exists h :: h in s.b.handled && h.job.id == id && r == ReplyTo(h.job, h.outcome)
  }

  predicate WasAnswered(s: State, id: nat) {
    exists x :: x in s.answered && x.0 == id
  }

  ghost predicate RepliesInv(s: State) {
    (forall id: nat :: |Replies(s.b, id)| <= 1 &&
      (Replies(s.b, id) != [] ==> Answers(s, id, Replies(s.b, id)[0]) && !WasAnswered(s, id))) &&
    (forall x :: x in s.answered ==> Answers(s, x.0, x.1)) &&
    forall i, j :: 0 <= i < j < |s.answered| ==> s.answered[i].0 != s.answered[j].0
  }

  lemma RepliesFrame(s: State, t: State)
    requires RepliesInv(s) && t.b.handled == s.b.handled && t.answered == s.answered
    requires forall id: nat :: Replies(t.b, id) == Replies(s.b, id) || Replies(t.b, id) == []
    ensures RepliesInv(t)
  {
    forall id: nat
      ensures WasAnswered(t, id) == WasAnswered(s, id)
    {
    }
    forall id: nat, r
      ensures Answers(t, id, r) == Answers(s, id, r)
    {
    }
  }

  lemma RepliesHandle(s: State, max: nat, pid: nat, outcome: Outcome)
    requires JobsInv(s) && RepliesInv(s) && pid < |s.procs| && s.procs[pid].phase.Busy?
    ensures RepliesInv(Apply(s, max, Handle(pid, outcome)))
  {
    var job := s.procs[pid].phase.job;
    var t := Apply(s, max, Handle(pid, outcome));
    var h := Handled(job, outcome);
    assert BusyWith(s, pid, job);
    assert t.b.handled == s.b.handled + [h] && h in t.b.handled;
    forall id: nat, r | Answers(s, id, r)
      ensures Answers(t, id, r) && id != job.id
    {
      var g :| g in s.b.handled && g.job.id == id && r == ReplyTo(g.job, g.outcome);
      assert g in t.b.handled;
      assert id == job.id ==> WasHandled(s, job.id);
    }
    assert Answers(t, job.id, ReplyTo(job, outcome));
    forall x | x in t.answered
      ensures x.0 != job.id
    {
      assert Answers(s, x.0, x.1);
    }
    assert !WasAnswered(t, job.id);
    forall id: nat
      ensures |Replies(t.b, id)| <= 1
      ensures Replies(t.b, id) != [] ==> Answers(t, id, Replies(t.b, id)[0]) && !WasAnswered(t, id)
    {
      assert |Replies(s.b, id)| <= 1;
      assert Replies(s.b, id) != [] ==> Answers(s, id, Replies(s.b, id)[0]) && !WasAnswered(s, id);
      assert WasAnswered(t, id) == WasAnswered(s, id);
    }
  }

  lemma RepliesCollect(s: State, id: nat)
    requires RepliesInv(s)
    ensures RepliesInv(Collect(s, id))
  {
    if Replies(s.b, id) != [] {
      var t := Collect(s, id);
      var r := Replies(s.b, id)[0];
      assert Answers(s, id, r) && !WasAnswered(s, id);
      forall x | x in t.answered
        ensures Answers(t, x.0, x.1)
      {
        assert x in s.answered || x == (id, r);
        assert Answers(s, x.0, x.1);
      }
      forall i | 0 <= i < |s.answered|
        ensures s.answered[i].0 != id
      {
        assert s.answered[i] in s.answered;
      }
      forall other: nat
        ensures |Replies(t.b, other)| <= 1
        ensures Replies(t.b, other) != [] ==> Answers(t, other, Replies(t.b, other)[0]) && !WasAnswered(t, other)
      {
        assert |Replies(s.b, other)| <= 1;
        if other != id && Replies(s.b, other) != [] {
          assert Answers(s, other, Replies(s.b, other)[0]) && !WasAnswered(s, other);
        }
      }
    }
  }

  ghost predicate RepliesUntouched(s: State, t: State) {
    t.b.handled == s.b.handled && t.answered == s.answered && t.b.results == s.b.results
  }

  lemma RepliesProcess(s: State, max: nat, step: Step)
    requires step.OfProcess() && !step.Handle?
    ensures RepliesUntouched(s, Apply(s, max, step))
  {
  }

  lemma RepliesPool(s: State, max: nat, step: Step)
    requires step.Stash? || step.Spawn? || step.Register?
      || step.StopBegin? || step.Unregister? || step.StopSend? || step.StopFinish?
    ensures RepliesUntouched(s, Apply(s, max, step))
  {
  }

  /** Every other step creates no reply and hands none out. */
  lemma RepliesQuiet(s: State, max: nat, step: Step)
    requires !step.Handle? && !step.Await? && !step.ExpireResult?
    ensures RepliesUntouched(s, Apply(s, max, step))
  {
    if step.EnsureBegin? {
      RepliesEnsure(s, max, step.account, step.cred);
    } else if step.OfProcess() {
      RepliesProcess(s, max, step);
    } else if !step.SubmitJob? && !step.ExpireCredentials? {
      RepliesPool(s, max, step);
    }
  }

  lemma RepliesEnsure(s: State, max: nat, a: string, cred: string)
    ensures RepliesUntouched(s, BeginEnsure(s, max, a, cred))
  {
    if !Running(s, a) && |s.workers - {a}| >= max {
      assert BeginEnsure(s, max, a, cred) == s.(workers := s.workers - {a});
    }
  }

  lemma RepliesStep(s: State, max: nat, step: Step)
    requires JobsInv(s) && RepliesInv(s)
    ensures RepliesInv(Apply(s, max, step))
  {
    match step
    case Handle(pid, outcome) =>
      if pid < |s.procs| && s.procs[pid].phase.Busy? { RepliesHandle(s, max, pid, outcome); }
    case Await(id) => RepliesCollect(s, id);
    case ExpireResult(id) => RepliesFrame(s, Apply(s, max, step));
    case _ =>
      RepliesQuiet(s, max, step);
      RepliesFrame(s, Apply(s, max, step));
  }

  lemma {:induction false} RepliesRun(max: nat, steps: seq<Step>)
    ensures RepliesInv(Run(INITIAL, max, steps))
  {
    if steps != [] {
      JobsRun(max, steps[..|steps| - 1]);
      RepliesRun(max, steps[..|steps| - 1]);
      RepliesStep(Run(INITIAL, max, steps[..|steps| - 1]), max, steps[|steps| - 1]);
    }
  }

  // ----- results -----

  /** In every reachable state, whatever workers did, the jobs of an account popped so far followed by
      its queue from tail to head are the jobs submitted for it, in order. */
  lemma JobsAreTakenInOrder(max: nat, steps: seq<Step>, a: string)
    ensures Fifo(Run(INITIAL, max, steps).b, a)
  {
    JobsRun(max, steps);
  }

  /** No job is started twice, by the same worker or by another. */
  lemma NoJobRunsTwice(max: nat, steps: seq<Step>, i: nat, j: nat)
    requires i < j < |Run(INITIAL, max, steps).started|
    ensures var s := Run(INITIAL, max, steps); s.started[i].1.id != s.started[j].1.id
  {
    JobsRun(max, steps);
  }

  predicate WasSubmitted(b: Broker, job: Job) {
    exists a :: a in b.submitted && job in Get(b.submitted, a)
  }

  lemma HandledWasSubmitted(s: State, h: Handled)
    requires JobsInv(s) && h in s.b.handled
    ensures WasSubmitted(s.b, h.job)
  {
    assert WasStarted(s, h.job);
    var x :| x in s.started && x.1 == h.job;
    var i :| 0 <= i < |s.started| && s.started[i] == x;
    assert h.job in Get(s.b.popped, x.0);
    assert Fifo(s.b, x.0);
    assert h.job in Get(s.b.submitted, x.0);
  }

  /** A caller that waits for a job gets nothing, or the one reply made by handling that job; a reply
      is handed out once, and each handled job made one. */
  lemma RepliesMatchJobs(max: nat, steps: seq<Step>, i: nat)
    requires i < |Run(INITIAL, max, steps).answered|
    ensures var s := Run(INITIAL, max, steps);
      var (id, reply) := s.answered[i];
      (exists k :: 0 <= k < |s.b.handled| && s.b.handled[k].job.id == id && WasSubmitted(s.b, s.b.handled[k].job) &&
        reply == ReplyTo(s.b.handled[k].job, s.b.handled[k].outcome) &&
        Reports(reply, s.b.handled[k].job.jobType, s.b.handled[k].outcome) &&
        (forall m :: 0 <= m < |s.b.handled| && m != k ==> s.b.handled[m].job.id != id)) &&
      (forall j :: 0 <= j < |s.answered| && j != i ==> s.answered[j].0 != id)
  {
    JobsRun(max, steps);
    RepliesRun(max, steps);
    var s := Run(INITIAL, max, steps);
    assert s.answered[i] in s.answered;
    assert Answers(s, s.answered[i].0, s.answered[i].1);
    var h :| h in s.b.handled && h.job.id == s.answered[i].0 && s.answered[i].1 == ReplyTo(h.job, h.outcome);
    var k :| 0 <= k < |s.b.handled| && s.b.handled[k] == h;
    HandledWasSubmitted(s, h);
    ReplyReports(h.job, h.outcome);
    assert forall m :: 0 <= m < |s.b.handled| && m != k ==> s.b.handled[m].job.id != h.job.id;
  }

  // ----- the way of a job -----

  /** Nobody has answered an id that was never given out. */
  lemma NewIdIsUnanswered(s: State)
    requires JobsInv(s) && RepliesInv(s)
    ensures Replies(s.b, s.b.nextId) == []
  {
    var id := s.b.nextId;
    if Replies(s.b, id) != [] {
      assert Answers(s, id, Replies(s.b, id)[0]);
      var h :| h in s.b.handled && h.job.id == id;
      HandledWasSubmitted(s, h);
      assert false;
    }
  }

  /** A ready worker takes the first waiting job. */
  lemma TakeHasEffect(s: State, max: nat, pid: nat)
    requires pid < |s.procs| && s.procs[pid].phase == Ready
    requires var js := JobQueue.Waiting(s.b, s.procs[pid].account); js != [] && js[0].jobType != "STOP"
    ensures var (a, t) := (s.procs[pid].account, Apply(s, max, TakeJob(pid)));
      t.procs == s.procs[pid := s.procs[pid].(phase := Busy(JobQueue.Waiting(s.b, a)[0]))] &&
      JobQueue.Waiting(t.b, a) == JobQueue.Waiting(s.b, a)[1..] && t.b.results == s.b.results &&
      t.answered == s.answered
  {
    PopTakesFirst(s.b, s.procs[pid].account);
  }

  /** A worker that takes STOP exits. */
  lemma StopEndsWorker(s: State, max: nat, pid: nat)
    requires pid < |s.procs| && s.procs[pid].phase == Ready
    requires var js := JobQueue.Waiting(s.b, s.procs[pid].account); js != [] && js[0].jobType == "STOP"
    ensures !Live(Apply(s, max, TakeJob(pid)), pid)
  {
    PopTakesFirst(s.b, s.procs[pid].account);
  }

  /** A busy worker answers its job and is ready again. */
  lemma HandleHasEffect(s: State, max: nat, pid: nat, outcome: Outcome)
    requires pid < |s.procs| && s.procs[pid].phase.Busy?
    ensures var (job, t) := (s.procs[pid].phase.job, Apply(s, max, Handle(pid, outcome)));
      t.procs == s.procs[pid := s.procs[pid].(phase := Ready)] && t.answered == s.answered &&
      Replies(t.b, job.id) != [] && Reports(Replies(t.b, job.id)[0], job.jobType, outcome) &&
      Replies(t.b, job.id)[1..] == Replies(s.b, job.id)
  {
    RepliesInPlainTerms(s.b, s.procs[pid].phase.job, outcome, 0);
  }

  /** A caller that waits takes the reply that is there. */
  lemma AwaitHasEffect(s: State, max: nat, id: nat)
    ensures var t := Apply(s, max, Await(id));
      if Replies(s.b, id) == [] then t == s
      else t.answered == s.answered + [(id, Replies(s.b, id)[0])] && Replies(t.b, id) == Replies(s.b, id)[1..]
  {
  }

  /** With a ready worker and nothing waiting, a submitted job is taken, handled and answered: the caller
      gets the reply to its own job. */
  lemma JobIsAnswered(s: State, max: nat, pid: nat, jobType: string, payload: string, outcome: Outcome)
    requires JobsInv(s) && RepliesInv(s) && pid < |s.procs| && s.procs[pid].phase == Ready && jobType != "STOP"
    requires JobQueue.Waiting(s.b, s.procs[pid].account) == []
    ensures var id := s.b.nextId;
      var s1 := Apply(s, max, SubmitJob(s.procs[pid].account, jobType, payload));
      var s2 := Apply(s1, max, TakeJob(pid));
      var s3 := Apply(s2, max, Handle(pid, outcome));
      var t := Apply(s3, max, Await(id));
      |t.answered| == |s.answered| + 1 && t.answered[..|s.answered|] == s.answered &&
      t.answered[|s.answered|].0 == id && Reports(t.answered[|s.answered|].1, jobType, outcome) &&
      pid < |t.procs| && t.procs[pid].phase == Ready
  {
    var (id, a) := (s.b.nextId, s.procs[pid].account);
    NewIdIsUnanswered(s);
    SubmitGoesLast(s.b, a, jobType, payload, a);
    var s1 := Apply(s, max, SubmitJob(a, jobType, payload));
    TakeHasEffect(s1, max, pid);
    var s2 := Apply(s1, max, TakeJob(pid));
    HandleHasEffect(s2, max, pid, outcome);
    AwaitHasEffect(Apply(s2, max, Handle(pid, outcome)), max, id);
  }

  /** In particular in every reachable state. */
  lemma ReachableInvariants(max: nat, steps: seq<Step>)
    ensures JobsInv(Run(INITIAL, max, steps)) && RepliesInv(Run(INITIAL, max, steps))
  {
    JobsRun(max, steps);
    RepliesRun(max, steps);
  }
}
