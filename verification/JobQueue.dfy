/** The Redis job queue of job_queue_service.py and the job handling of mt5_worker.py. */
module JobQueue {
  import opened Options
  import opened Sequences

  // ----- jobs and replies -----

  /** Identifiers stand for UUIDs: each submission gets a new one. */
  datatype Job = Job(id: nat, jobType: string, payload: string)

  const STOP := "STOP"

  /** What the execution service did with a job. */
  datatype Outcome = Returned(result: string) | Raised(message: string)

  datatype Reply = Reply(success: bool, content: string)

  const JOB_TYPES := {
    "market_order", "pending_order", "modify_position", "close_position", "cancel_order",
    "get_positions", "get_orders", "get_account", "get_symbol", "health"}

  /** `handle_job`: every exit makes a reply. */
  function ReplyTo(job: Job, outcome: Outcome): Reply {
    if job.jobType !in JOB_TYPES then Reply(false, "Unknown job_type: " + job.jobType)
    else
      match outcome
      case Returned(result) => Reply(true, result)
      case Raised(message) => Reply(false, message)
  }

  predicate Dispatched(jobType: string) {
    jobType == "market_order" || jobType == "pending_order" || jobType == "modify_position" ||
    jobType == "close_position" || jobType == "cancel_order" || jobType == "get_positions" ||
    jobType == "get_orders" || jobType == "get_account" || jobType == "get_symbol" || jobType == "health"
  }

  /** What a reply tells about a job: success exactly for a dispatched one that returned, with its result;
      otherwise the error text. */
  predicate Reports(reply: Reply, jobType: string, outcome: Outcome) {
    (reply.success <==> Dispatched(jobType) && outcome.Returned?) &&
    (reply.success ==> reply.content == outcome.result) &&
    (Dispatched(jobType) && outcome.Raised? ==> reply.content == outcome.message) &&
    (!Dispatched(jobType) ==> reply.content == "Unknown job_type: " + jobType)
  }

  lemma ReplyReports(job: Job, outcome: Outcome)
    ensures Reports(ReplyTo(job, outcome), job.jobType, outcome)
  {
  }

  /** A job whose handling was completed, with what happened. */
  datatype Handled = Handled(job: Job, outcome: Outcome)

  // ----- the broker -----

  /** The Redis keys, and the history of what went through them. A queue is listed from its left
      end, where LPUSH adds; BRPOP takes from the right end. */
  datatype Broker = Broker(
    queues: map<string, seq<Job>>,
    results: map<nat, seq<Reply>>,
    creds: map<string, string>,
    nextId: nat,
    submitted: map<string, seq<Job>>,
    popped: map<string, seq<Job>>,
    handled: seq<Handled>
  )

  const NEW_BROKER := Broker(map[], map[], map[], 0, map[], map[], [])

  function Get(m: map<string, seq<Job>>, a: string): seq<Job> {
    if a in m then m[a] else []
  }

  function Submit(b: Broker, a: string, jobType: string, payload: string): Broker {
    var job := Job(b.nextId, jobType, payload);
    b.(queues := b.queues[a := [job] + Get(b.queues, a)],
       submitted := b.submitted[a := Get(b.submitted, a) + [job]],
       nextId := b.nextId + 1)
  }

  function Next(b: Broker, a: string): Option<Job> {
    var q := Get(b.queues, a);
    if q == [] then None else Some(q[|q| - 1])
  }

  function Pop(b: Broker, a: string): Broker {
    var q := Get(b.queues, a);
    if q == [] then b
    else b.(queues := b.queues[a := q[..|q| - 1]], popped := b.popped[a := Get(b.popped, a) + [q[|q| - 1]]])
  }

  function Replies(b: Broker, id: nat): seq<Reply> {
    if id in b.results then b.results[id] else []
  }

  /** `push_result` for a handled job. */
  function PushResult(b: Broker, job: Job, outcome: Outcome): Broker {
    b.(results := b.results[job.id := [ReplyTo(job, outcome)] + Replies(b, job.id)],
       handled := b.handled + [Handled(job, outcome)])
  }

  /** Takes the leftmost reply away; an empty list is a missing key. */
  function TakeResult(b: Broker, id: nat): Broker {
    if |Replies(b, id)| <= 1 then b.(results := b.results - {id})
    else b.(results := b.results[id := Replies(b, id)[1..]])
  }

  /** A pushed reply is the first one of its job, and taking a reply takes the first; no other job's
      replies change. */
  lemma RepliesInPlainTerms(b: Broker, job: Job, outcome: Outcome, id: nat)
    ensures var c := PushResult(b, job, outcome);
      |Replies(c, job.id)| == |Replies(b, job.id)| + 1 && Reports(Replies(c, job.id)[0], job.jobType, outcome) &&
      Replies(c, job.id)[1..] == Replies(b, job.id) && (id != job.id ==> Replies(c, id) == Replies(b, id)) &&
      c.queues == b.queues && c.creds == b.creds && c.nextId == b.nextId
    ensures var c := TakeResult(b, job.id);
      Replies(c, job.id) == (if Replies(b, job.id) == [] then [] else Replies(b, job.id)[1..]) &&
      (id != job.id ==> Replies(c, id) == Replies(b, id))
  {
    ReplyReports(job, outcome);
  }

  // ----- first in, first out -----

  function Reverse(js: seq<Job>): seq<Job> {
    if js == [] then [] else Reverse(js[1..]) + [js[0]]
  }

  lemma {:induction false} ReverseSnoc(js: seq<Job>, j: Job)
    ensures Reverse(js + [j]) == [j] + Reverse(js)
  {
    if js == [] {
      assert [j][1..] == [];
    } else {
      ReverseSnoc(js[1..], j);
      assert (js + [j])[1..] == js[1..] + [j];
    }
  }

  /** The jobs of an account popped so far, followed by its queue from tail to head, are the jobs submitted. */
  ghost predicate Fifo(b: Broker, a: string) {
    Get(b.popped, a) + Reverse(Get(b.queues, a)) == Get(b.submitted, a)
  }

  lemma SubmitFifo(b: Broker, a: string, jobType: string, payload: string, other: string)
    requires Fifo(b, other)
    ensures Fifo(Submit(b, a, jobType, payload), other)
  {
    if other == a {
      var job := Job(b.nextId, jobType, payload);
      assert ([job] + Get(b.queues, a))[1..] == Get(b.queues, a);
    }
  }

  lemma PopFifo(b: Broker, a: string, other: string)
    requires Fifo(b, other)
    ensures Fifo(Pop(b, a), other)
  {
    var q := Get(b.queues, a);
    if other == a && q != [] {
      ReverseSnoc(q[..|q| - 1], q[|q| - 1]);
      assert q == q[..|q| - 1] + [q[|q| - 1]];
      Regroup(Get(b.popped, a), q[|q| - 1], Reverse(q[..|q| - 1]));
    }
  }

  // ----- the service -----

  class JobQueueService {
    var queues: map<string, seq<Job>>
    var results: map<nat, seq<Reply>>
    var creds: map<string, string>
    var nextId: nat
    ghost var submitted: map<string, seq<Job>>
    ghost var popped: map<string, seq<Job>>
    ghost var handled: seq<Handled>

    constructor ()
      ensures View() == NEW_BROKER
    {
      queues, results, creds, nextId := map[], map[], map[], 0;
      submitted, popped, handled := map[], map[], [];
    }

    ghost function View(): Broker
      reads this
    {
      Broker(queues, results, creds, nextId, submitted, popped, handled)
    }

    method SubmitJob(a: string, jobType: string, payload: string) returns (jobId: nat)
      modifies this
      ensures View() == Submit(old(View()), a, jobType, payload) && jobId == old(nextId)
    {
      jobId := nextId;
      var job := Job(jobId, jobType, payload);
      queues := queues[a := [job] + Get(queues, a)];
      submitted := submitted[a := Get(submitted, a) + [job]];
      nextId := nextId + 1;
    }

    /** What other callers submit meanwhile. */
    method SubmitOthers(a: string, batch: seq<Submission>)
      modifies this
      ensures View() == SubmitAll(old(View()), a, batch)
    {
      var left := batch;
      while left != []
        invariant SubmitAll(View(), a, left) == SubmitAll(old(View()), a, batch)
      {
        var _ := SubmitJob(a, left[0].jobType, left[0].payload);
        left := left[1..];
      }
    }

    /** The reply that waits, or else the one that a worker pushes before the timeout, if it does; either
        way it is taken away. */
    method AwaitResult(jobId: nat, pushed: Option<Handled>) returns (reply: Option<Reply>)
      requires pushed.Some? ==> pushed.value.job.id == jobId
      modifies this
      ensures var now := if Replies(old(View()), jobId) == [] && pushed.Some?
          then PushResult(old(View()), pushed.value.job, pushed.value.outcome) else old(View());
        reply == (if Replies(now, jobId) == [] then None else Some(Replies(now, jobId)[0])) &&
        View() == TakeResult(now, jobId)
      ensures reply.None? <==> Replies(old(View()), jobId) == [] && pushed.None?
    {
      if jobId !in results || results[jobId] == [] {
        if pushed.Some? {
          HandleJob(pushed.value.job, pushed.value.outcome);
        }
      }
      var rs := if jobId in results then results[jobId] else [];
      if rs == [] {
        reply := None;
      } else {
        reply := Some(rs[0]);
      }
      results := if |rs| <= 1 then results - {jobId} else results[jobId := rs[1..]];
    }

    method PopJob(a: string) returns (job: Option<Job>)
      modifies this
      ensures job == Next(old(View()), a) && View() == Pop(old(View()), a)
    {
      var q := Get(queues, a);
      if q == [] {
        return None;
      }
      job := Some(q[|q| - 1]);
      queues := queues[a := q[..|q| - 1]];
      popped := popped[a := Get(popped, a) + [q[|q| - 1]]];
    }

    method StashWorkerCredentials(a: string, credentials: string)
      modifies this
      ensures View() == old(View()).(creds := old(creds)[a := credentials])
    {
      creds := creds[a := credentials];
    }

    method FetchWorkerCredentials(a: string) returns (credentials: Option<string>)
      modifies this
      ensures credentials == if a in old(creds) then Some(old(creds)[a]) else None
      ensures View() == old(View()).(creds := old(creds) - {a})
    {
      credentials := if a in creds then Some(creds[a]) else None;
      creds := creds - {a};
    }

    /** `handle_job`, given what the execution service does. */
    method HandleJob(job: Job, outcome: Outcome)
      modifies this
      ensures View() == PushResult(old(View()), job, outcome)
      ensures Replies(View(), job.id) != [] && Reports(Replies(View(), job.id)[0], job.jobType, outcome)
      ensures Replies(View(), job.id)[1..] == Replies(old(View()), job.id)
    {
      var reply: Reply;
      if job.jobType !in JOB_TYPES {
        reply := Reply(false, "Unknown job_type: " + job.jobType);
      } else {
        match outcome {
          case Returned(result) => reply := Reply(true, result);
          case Raised(message) => reply := Reply(false, message);
        }
      }
      results := results[job.id := [reply] + if job.id in results then results[job.id] else []];
      handled := handled + [Handled(job, outcome)];
    }
  }

  // ----- the worker loop -----

  /** What a ready worker does to the broker while nobody submits. */
  function Serve(b: Broker, a: string, execute: Job -> Outcome): Broker
    decreases |Get(b.queues, a)|
  {
    match Next(b, a)
    case None => b
    case Some(job) =>
      if job.jobType == STOP then Pop(b, a)
      else Serve(PushResult(Pop(b, a), job, execute(job)), a, execute)
  }

  /** How many jobs come before the first STOP. */
  function BeforeStop(js: seq<Job>): (k: nat)
    ensures k <= |js| && (k < |js| ==> js[k].jobType == STOP) && forall i :: 0 <= i < k ==> js[i].jobType != STOP
  {
    if js == [] || js[0].jobType == STOP then 0 else 1 + BeforeStop(js[1..])
  }

  function HandleAll(js: seq<Job>, execute: Job -> Outcome): (hs: seq<Handled>)
    ensures |hs| == |js| && forall i :: 0 <= i < |js| ==> hs[i] == Handled(js[i], execute(js[i]))
  {
    seq(|js|, i requires 0 <= i < |js| => Handled(js[i], execute(js[i])))
  }

  /** The jobs of an account that wait, in submission order. */
  function Waiting(b: Broker, a: string): seq<Job> {
    Reverse(Get(b.queues, a))
  }

  /** A submission waits behind all others of its account, under a new id. */
  lemma SubmitGoesLast(b: Broker, a: string, jobType: string, payload: string, other: string)
    ensures var c := Submit(b, a, jobType, payload);
      Waiting(c, a) == Waiting(b, a) + [Job(b.nextId, jobType, payload)] && c.nextId == b.nextId + 1 &&
      (other != a ==> Waiting(c, other) == Waiting(b, other)) && c.results == b.results && c.creds == b.creds
  {
    var job := Job(b.nextId, jobType, payload);
    assert ([job] + Get(b.queues, a))[1..] == Get(b.queues, a);
  }

  /** Popping takes the first waiting job. */
  lemma PopTakesFirst(b: Broker, a: string)
    ensures Waiting(b, a) == [] <==> Next(b, a) == None
    ensures Waiting(b, a) != [] ==>
      Next(b, a) == Some(Waiting(b, a)[0]) &&
      Waiting(Pop(b, a), a) == Waiting(b, a)[1..] &&
      Get(Pop(b, a).popped, a) == Get(b.popped, a) + [Waiting(b, a)[0]]
  {
    var q := Get(b.queues, a);
    if q != [] {
      ReverseSnoc(q[..|q| - 1], q[|q| - 1]);
      assert q == q[..|q| - 1] + [q[|q| - 1]];
    }
  }

  /** The part of the waiting jobs that a worker takes: those before the first STOP, and that STOP. */
  function Taken(js: seq<Job>): (k: nat)
    ensures k <= |js|
  {
    var k := BeforeStop(js);
    if k < |js| then k + 1 else k
  }

  lemma TakenSplits(js: seq<Job>, k: nat)
    requires js != [] && js[0].jobType != STOP && k == Taken(js[1..])
    ensures Taken(js) == k + 1 && js[..k + 1] == [js[0]] + js[1..][..k] && js[k + 1..] == js[1..][k..]
  {
  }

  lemma ServeOne(b: Broker, a: string, execute: Job -> Outcome)
    requires Waiting(b, a) != [] && Waiting(b, a)[0].jobType != STOP
    ensures var js := Waiting(b, a);
      var next := PushResult(Pop(b, a), js[0], execute(js[0]));
      Serve(b, a, execute) == Serve(next, a, execute) && Waiting(next, a) == js[1..] &&
      Get(next.popped, a) == Get(b.popped, a) + [js[0]] && |Get(next.queues, a)| < |Get(b.queues, a)|
  {
    PopTakesFirst(b, a);
  }

  lemma AnswersSplit(js: seq<Job>, k: nat, execute: Job -> Outcome)
    requires js != [] && js[0].jobType != STOP && k == BeforeStop(js[1..])
    ensures BeforeStop(js) == k + 1
    ensures HandleAll(js[..k + 1], execute) == [Handled(js[0], execute(js[0]))] + HandleAll(js[1..][..k], execute)
  {
    assert js[..k + 1] == [js[0]] + js[1..][..k];
    HandleCons(js[0], js[1..][..k], execute);
  }

  lemma HandleCons(job: Job, js: seq<Job>, execute: Job -> Outcome)
    ensures HandleAll([job] + js, execute) == [Handled(job, execute(job))] + HandleAll(js, execute)
  {
  }

  /** A ready worker answers the waiting jobs one by one, in submission order, up to the first STOP. */
  lemma {:induction false} ServeAnswersInOrder(b: Broker, a: string, execute: Job -> Outcome)
    ensures var js := Waiting(b, a);
      Serve(b, a, execute).handled == b.handled + HandleAll(js[..BeforeStop(js)], execute)
    decreases |Get(b.queues, a)|
  {
    var js := Waiting(b, a);
    if js != [] && js[0].jobType != STOP {
      ServeOne(b, a, execute);
      ServeAnswersInOrder(PushResult(Pop(b, a), js[0], execute(js[0])), a, execute);
      var k := BeforeStop(js[1..]);
      AnswersSplit(js, k, execute);
      Regroup(b.handled, Handled(js[0], execute(js[0])), HandleAll(js[1..][..k], execute));
    } else {
      PopTakesFirst(b, a);
      assert HandleAll(js[..0], execute) == [];
    }
  }

  lemma ServeNone(b: Broker, a: string, execute: Job -> Outcome)
    requires Waiting(b, a) == [] || Waiting(b, a)[0].jobType == STOP
    ensures var js := Waiting(b, a);
      Get(Serve(b, a, execute).popped, a) == Get(b.popped, a) + js[..Taken(js)] &&
      Waiting(Serve(b, a, execute), a) == js[Taken(js)..]
  {
    PopTakesFirst(b, a);
    var js := Waiting(b, a);
    if js != [] {
      assert js[..1] == [js[0]];
    }
  }

  /** It takes those jobs and the STOP out of the queue, and nothing behind it. */
  lemma {:induction false} ServeTakesUpToStop(b: Broker, a: string, execute: Job -> Outcome)
    ensures var js := Waiting(b, a);
      Get(Serve(b, a, execute).popped, a) == Get(b.popped, a) + js[..Taken(js)] &&
      Waiting(Serve(b, a, execute), a) == js[Taken(js)..]
    decreases |Get(b.queues, a)|
  {
    var js := Waiting(b, a);
    if js != [] && js[0].jobType != STOP {
      ServeOne(b, a, execute);
      ServeTakesUpToStop(PushResult(Pop(b, a), js[0], execute(js[0])), a, execute);
      var k := Taken(js[1..]);
      TakenSplits(js, k);
      Regroup(Get(b.popped, a), js[0], js[1..][..k]);
    } else {
      ServeNone(b, a, execute);
    }
  }

  /** A worker answers a waiting job exactly when no STOP waits before it. */
  lemma ServedExactly(b: Broker, a: string, execute: Job -> Outcome, k: nat)
    requires k < |Waiting(b, a)|
    requires forall i, j :: 0 <= i < j < |Waiting(b, a)| ==> Waiting(b, a)[i].id != Waiting(b, a)[j].id
    ensures var (js, after) := (Waiting(b, a), Serve(b, a, execute).handled);
      (exists i :: |b.handled| <= i < |after| && after[i].job == js[k]) <==>
      forall i :: 0 <= i <= k ==> js[i].jobType != "STOP"
  {
    ServeAnswersInOrder(b, a, execute);
    var (js, after) := (Waiting(b, a), Serve(b, a, execute).handled);
    var m := BeforeStop(js);
    var served := HandleAll(js[..m], execute);
    forall i | 0 <= i < m
      ensures after[|b.handled| + i].job == js[i]
    {
      assert after[|b.handled| + i] == served[i];
    }
  }

  /** A STOP alone in the queue ends the worker before a job that is submitted after it. */
  lemma StopGoesFirst(b: Broker, a: string, jobType: string, payload: string, execute: Job -> Outcome)
    requires |Get(b.queues, a)| == 1 && Get(b.queues, a)[0].jobType == "STOP"
    ensures var c := Submit(b, a, jobType, payload);
      Next(c, a) == Some(Get(b.queues, a)[0]) &&
      Serve(c, a, execute).handled == b.handled &&
      Waiting(Serve(c, a, execute), a) == [Job(b.nextId, jobType, payload)]
  {
    var (stop, job) := (Get(b.queues, a)[0], Job(b.nextId, jobType, payload));
    var c := Submit(b, a, jobType, payload);
    assert Get(c.queues, a) == [job, stop];
    assert [job, stop][..1] == [job] && [job][1..] == [];
    assert Reverse([]) == [] && Reverse([job]) == [job];
  }

  // ----- jobs that arrive while a worker runs -----

  datatype Submission = Submission(jobType: string, payload: string)

  function SubmitAll(b: Broker, a: string, batch: seq<Submission>): Broker
    decreases |batch|
  {
    if batch == [] then b else SubmitAll(Submit(b, a, batch[0].jobType, batch[0].payload), a, batch[1..])
  }

  function SubmitBatches(b: Broker, a: string, batches: seq<seq<Submission>>): Broker
    decreases |batches|
  {
    if batches == [] then b else SubmitBatches(SubmitAll(b, a, batches[0]), a, batches[1..])
  }

  /** What a ready worker does when others submit: the i-th batch arrives while it waits for its i-th job
      or handles the one before, and what would arrive after it has ended plays no part. */
  function ServeArriving(b: Broker, a: string, arrivals: seq<seq<Submission>>, execute: Job -> Outcome): Broker
    decreases |arrivals|, |Get(b.queues, a)|
  {
    var now := if arrivals == [] then b else SubmitAll(b, a, arrivals[0]);
    match Next(now, a)
    case None => now
    case Some(job) =>
      if job.jobType == STOP then Pop(now, a)
      else
        ServeArriving(PushResult(Pop(now, a), job, execute(job)), a,
                      if arrivals == [] then [] else arrivals[1..], execute)
  }

  lemma SubmitCommutes(b: Broker, a: string, x: Submission, execute: Job -> Outcome)
    requires Next(b, a).Some?
    ensures var (c, job) := (Submit(b, a, x.jobType, x.payload), Next(b, a).value);
      Next(c, a) == Some(job) &&
      Submit(PushResult(Pop(b, a), job, execute(job)), a, x.jobType, x.payload) ==
      PushResult(Pop(c, a), job, execute(job))
  {
    var q := Get(b.queues, a);
    var added := [Job(b.nextId, x.jobType, x.payload)];
    assert (added + q)[..|q|] == added + q[..|q| - 1];
    var (c, job) := (Submit(b, a, x.jobType, x.payload), Next(b, a).value);
    var (l, r) := (Submit(Pop(b, a), a, x.jobType, x.payload), Pop(c, a));
    assert l.queues == r.queues && l.submitted == r.submitted && l.popped == r.popped;
  }

  lemma {:induction false} SubmitAllCommutes(b: Broker, a: string, batch: seq<Submission>, execute: Job -> Outcome)
    requires Next(b, a).Some?
    ensures var (c, job) := (SubmitAll(b, a, batch), Next(b, a).value);
      Next(c, a) == Some(job) &&
      SubmitAll(PushResult(Pop(b, a), job, execute(job)), a, batch) == PushResult(Pop(c, a), job, execute(job))
    decreases |batch|
  {
    if batch != [] {
      SubmitCommutes(b, a, batch[0], execute);
      SubmitAllCommutes(Submit(b, a, batch[0].jobType, batch[0].payload), a, batch[1..], execute);
    }
  }

  lemma {:induction false} BatchesCommute(b: Broker, a: string, batches: seq<seq<Submission>>, execute: Job -> Outcome)
    requires Next(b, a).Some?
    ensures var (c, job) := (SubmitBatches(b, a, batches), Next(b, a).value);
      Next(c, a) == Some(job) &&
      SubmitBatches(PushResult(Pop(b, a), job, execute(job)), a, batches) == PushResult(Pop(c, a), job, execute(job))
    decreases |batches|
  {
    if batches != [] {
      SubmitAllCommutes(b, a, batches[0], execute);
      BatchesCommute(SubmitAll(b, a, batches[0]), a, batches[1..], execute);
    }
  }

  lemma {:induction false} NothingArrives(b: Broker, a: string, execute: Job -> Outcome)
    ensures ServeArriving(b, a, [], execute) == Serve(b, a, execute)
    decreases |Get(b.queues, a)|
  {
    var job := Next(b, a);
    if job.Some? && job.value.jobType != STOP {
      NothingArrives(PushResult(Pop(b, a), job.value, execute(job.value)), a, execute);
    }
  }

  /** However submissions interleave with the worker loop, it ends as if all of the jobs that arrived
      before its end had been waiting from the start. */
  lemma {:induction false} LateJobsMakeNoDifference(
    b: Broker, a: string, arrivals: seq<seq<Submission>>, execute: Job -> Outcome
  ) returns (n: nat)
    ensures n <= |arrivals| && (arrivals != [] ==> 0 < n)
    ensures ServeArriving(b, a, arrivals, execute) == Serve(SubmitBatches(b, a, arrivals[..n]), a, execute)
    decreases |arrivals|
  {
    if arrivals == [] {
      n := 0;
      NothingArrives(b, a, execute);
    } else {
      var (now, rest) := (SubmitAll(b, a, arrivals[0]), arrivals[1..]);
      var job := Next(now, a);
      if job.None? || job.value.jobType == STOP {
        n := 1;
        FirstBatch(b, a, arrivals, 0);
      } else {
        var m := LateJobsMakeNoDifference(PushResult(Pop(now, a), job.value, execute(job.value)), a, rest, execute);
        n := m + 1;
        FirstBatch(b, a, arrivals, m);
        BatchesCommute(now, a, rest[..m], execute);
      }
    }
  }

  lemma FirstBatch(b: Broker, a: string, arrivals: seq<seq<Submission>>, m: nat)
    requires m < |arrivals|
    ensures SubmitBatches(b, a, arrivals[..m + 1]) == SubmitBatches(SubmitAll(b, a, arrivals[0]), a, arrivals[1..][..m])
  {
    assert arrivals[..m + 1][1..] == arrivals[1..][..m];
  }

  class Mt5Worker {
    const jobQueue: JobQueueService

    constructor (jobQueue: JobQueueService)
      ensures this.jobQueue == jobQueue
    {
      this.jobQueue := jobQueue;
    }

    /** `run_worker`, with the connection result, the effect of each job and the submissions of others
        given. It ends on STOP, or when no job is left for the idle timeout. */
    method RunWorker(a: string, connects: string -> bool, execute: Job -> Outcome, arrivals: seq<seq<Submission>>)
      returns (login: Option<string>)
      modifies jobQueue
      ensures login ==
        if a in old(jobQueue.creds) && connects(old(jobQueue.creds)[a]) then Some(old(jobQueue.creds)[a]) else None
      ensures var fetched := old(jobQueue.View()).(creds := old(jobQueue.creds) - {a});
        jobQueue.View() == if login.Some? then ServeArriving(fetched, a, arrivals, execute) else fetched
    {
      login := jobQueue.FetchWorkerCredentials(a);
      if login.None? || !connects(login.value) {
        return None;
      }
      ghost var final := ServeArriving(jobQueue.View(), a, arrivals, execute);
      var left := arrivals;
      while true
        invariant ServeArriving(jobQueue.View(), a, left, execute) == final
        decreases |left|, |Get(jobQueue.queues, a)|
      {
        if left != [] {
          jobQueue.SubmitOthers(a, left[0]);
        }
        var job := jobQueue.PopJob(a);
        if job.None? || job.value.jobType == STOP {
          break;
        }
        jobQueue.HandleJob(job.value, execute(job.value));
        left := if left == [] then [] else left[1..];
      }
    }
  }
}
