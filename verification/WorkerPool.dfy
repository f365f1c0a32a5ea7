/** The pool manager of worker_pool_manager.py as an object. Each method runs its steps of
    WorkerSystem without interruption; the steps between those points are the subject there. */
module WorkerPool {
  import opened Options
  import opened JobQueue
  import opened WorkerSystem

  /** `ensure_worker` run through. */
  function Ensured(s: State, max: nat, a: string, cred: string): State {
    var others := s.workers - {a};
    if Running(s, a) then s
    else if |others| >= max then s.(workers := others)
    else s.(b := s.b.(creds := s.b.creds[a := cred]),
            workers := others[a := |s.procs|], registry := s.registry + {a},
            procs := s.procs + [Proc(a, cred, None, Starting)])
  }

  /** `stop_worker` run through, with no step of the worker in between. */
  function Stopped(s: State, a: string): State {
    var t := s.(b := Submit(s.b, a, STOP, ""), workers := s.workers - {a}, registry := s.registry - {a});
    if a in s.workers && s.workers[a] < |s.procs| then SetPhase(t, s.workers[a], Exited) else t
  }

  lemma NothingToSpawn(s: State, max: nat)
    requires s.lock.Free?
    ensures Apply(Apply(Apply(s, max, Stash), max, Spawn), max, Register) == s
  {
  }

  lemma SpawnAndRegister(s: State, max: nat)
    requires s.lock.Stashing?
    ensures var (a, cred) := (s.lock.account, s.lock.cred);
      Apply(Apply(Apply(s, max, Stash), max, Spawn), max, Register) ==
      s.(b := s.b.(creds := s.b.creds[a := cred]), workers := s.workers[a := |s.procs|],
         registry := s.registry + {a}, procs := s.procs + [Proc(a, cred, None, Starting)], lock := Free)
  {
    var s1 := StashCredentials(s);
    assert Apply(s, max, Stash) == s1;
    assert Apply(s1, max, Spawn) == SpawnProcess(s1);
  }

  lemma EnsuredIsSteps(s: State, max: nat, a: string, cred: string)
    requires s.lock.Free?
    ensures Ensured(s, max, a, cred) ==
      Apply(Apply(Apply(Apply(s, max, EnsureBegin(a, cred)), max, Stash), max, Spawn), max, Register)
  {
    var s1 := BeginEnsure(s, max, a, cred);
    if Running(s, a) {
      NothingToSpawn(s, max);
    } else if s1.lock.Stashing? {
      SpawnAndRegister(s1, max);
    } else {
      NothingToSpawn(s1, max);
    }
  }

  /** True when a worker runs afterwards: exactly when one ran before or the others leave room. */
  lemma EnsuredRuns(s: State, max: nat, a: string, cred: string)
    ensures Running(Ensured(s, max, a, cred), a) <==> Running(s, a) || |s.workers - {a}| < max
  {
  }

  lemma StoppedIsSteps(s: State, max: nat, a: string)
    requires s.lock.Free?
    ensures Stopped(s, a) ==
      Apply(Apply(Apply(Apply(s, max, StopBegin(a)), max, Unregister), max, StopSend), max, StopFinish)
  {
    var process := if a in s.workers then Some(s.workers[a]) else None;
    var s1 := Apply(s, max, StopBegin(a));
    assert s1.lock == Unregistering(a, process);
    var s2 := Apply(s1, max, Unregister);
    assert s2.lock == Sending(a, process);
    var s3 := Apply(s2, max, StopSend);
    assert s3.lock == Waiting(a, process);
  }

  /** So the calls keep the pool invariant of the interleaved system. */
  lemma CallsKeepPool(s: State, max: nat, a: string, cred: string)
    requires PoolInv(s, max) && s.lock.Free?
    ensures PoolInv(Ensured(s, max, a, cred), max) && PoolInv(Stopped(s, a), max)
    ensures Ensured(s, max, a, cred).lock.Free? && Stopped(s, a).lock.Free?
  {
    EnsuredIsSteps(s, max, a, cred);
    StoppedIsSteps(s, max, a);
    FourSteps(s, max, EnsureBegin(a, cred), Stash, Spawn, Register);
    FourSteps(s, max, StopBegin(a), Unregister, StopSend, StopFinish);
  }

  lemma FourSteps(s: State, max: nat, w: Step, x: Step, y: Step, z: Step)
    requires PoolInv(s, max)
    ensures PoolInv(Apply(Apply(Apply(Apply(s, max, w), max, x), max, y), max, z), max)
  {
    PoolStep(s, max, w);
    var s1 := Apply(s, max, w);
    PoolStep(s1, max, x);
    var s2 := Apply(s1, max, x);
    PoolStep(s2, max, y);
    PoolStep(Apply(s2, max, y), max, z);
  }

  /** Once nothing is tracked and no call is under way, no process is left. */
  lemma NothingTracked(s: State, max: nat)
    requires PoolInv(s, max) && s.lock.Free? && s.workers == map[]
    ensures s.registry == {} && forall pid: nat :: !Live(s, pid)
  {
    forall pid: nat
      ensures !Live(s, pid)
    {
      assert Live(s, pid) ==> Accounted(s, pid);
    }
  }

  /** Stopping an account whose worker is gone leaves a STOP in its queue, and the next worker takes that
      first: with an empty queue, a job submitted after the spawn stays behind unanswered. */
  lemma StaleStopEndsNextWorker(s: State, max: nat, a: string, cred: string, jobType: string, payload: string,
                                execute: Job -> Outcome)
    requires !Running(s, a) && Get(s.b.queues, a) == []
    ensures var b := Submit(Ensured(Stopped(s, a), max, a, cred).b, a, jobType, payload);
      Next(b, a) == Some(Job(s.b.nextId, "STOP", "")) &&
      Serve(b, a, execute).handled == s.b.handled &&
      JobQueue.Waiting(Serve(b, a, execute), a) == [Job(s.b.nextId + 1, jobType, payload)]
  {
    StoppedQueue(s, max, a, cred);
    StopGoesFirst(Ensured(Stopped(s, a), max, a, cred).b, a, jobType, payload, execute);
  }

  lemma StoppedBroker(s: State, a: string)
    ensures Stopped(s, a).b == Submit(s.b, a, STOP, "")
  {
  }

  lemma EnsuredBroker(s: State, max: nat, a: string, cred: string)
    ensures var b := Ensured(s, max, a, cred).b;
      b.queues == s.b.queues && b.nextId == s.b.nextId && b.handled == s.b.handled
  {
  }

  lemma StoppedQueue(s: State, max: nat, a: string, cred: string)
    requires Get(s.b.queues, a) == []
    ensures var b := Ensured(Stopped(s, a), max, a, cred).b;
      Get(b.queues, a) == [Job(s.b.nextId, STOP, "")] && b.nextId == s.b.nextId + 1 && b.handled == s.b.handled
  {
    StoppedBroker(s, a);
    EnsuredBroker(Stopped(s, a), max, a, cred);
    assert [Job(s.b.nextId, STOP, "")] + [] == [Job(s.b.nextId, STOP, "")];
  }

  class WorkerPoolManager {
    const jobQueue: JobQueueService
    const maxWorkers: nat
    var workers: map<string, nat>
    var registry: set<string>
    var procs: seq<Proc>
    ghost var started: seq<(string, Job)>
    ghost var answered: seq<(nat, Reply)>

    constructor (jobQueue: JobQueueService, maxWorkers: nat)
      requires jobQueue.View() == NEW_BROKER
      ensures this.jobQueue == jobQueue && this.maxWorkers == maxWorkers && View() == INITIAL
    {
      this.jobQueue, this.maxWorkers := jobQueue, maxWorkers;
      workers, registry, procs, started, answered := map[], {}, [], [], [];
    }

    ghost function View(): State
      reads this, jobQueue
    {
      State(jobQueue.View(), workers, registry, procs, Free, started, answered)
    }

    ghost predicate Tracked()
      reads this
    {
      forall a :: a in workers ==> workers[a] < |procs|
    }

    /** True when a worker runs on return; false exactly when the account has no running worker and
        the other tracked workers fill the pool. */
    method EnsureWorker(a: string, cred: string) returns (ok: bool)
      requires Tracked()
      modifies this, jobQueue
      ensures Tracked() && View() == Ensured(old(View()), maxWorkers, a, cred)
      ensures ok <==> Running(View(), a)
      ensures ok <==> old(Running(View(), a)) || |old(workers) - {a}| < maxWorkers
    {
      EnsuredRuns(View(), maxWorkers, a, cred);
      if a in workers && procs[workers[a]].phase != Exited {
        return true;
      }
      workers := workers - {a};
      if |workers| >= maxWorkers {
        return false;
      }
      jobQueue.StashWorkerCredentials(a, cred);
      procs := procs + [Proc(a, cred, None, Starting)];
      workers := workers[a := |procs| - 1];
      registry := registry + {a};
      ok := true;
    }

    /** Asks politely through the queue, then kills. */
    method StopWorker(a: string)
      requires Tracked()
      modifies this, jobQueue
      ensures Tracked() && View() == Stopped(old(View()), a)
    {
      var process := if a in workers then Some(workers[a]) else None;
      workers := workers - {a};
      registry := registry - {a};
      var _ := jobQueue.SubmitJob(a, STOP, "");
      if process.Some? {
        procs := procs[process.value := procs[process.value].(phase := Exited)];
      }
    }

    /** Stops every tracked worker; with the pool invariant, no process and no registration is left. */
    method StopAll()
      requires PoolInv(View(), maxWorkers)
      modifies this, jobQueue
      ensures PoolInv(View(), maxWorkers)
      ensures workers == map[] && registry == {} && forall pid: nat :: !Live(View(), pid)
    {
      var todo := workers.Keys;
      while todo != {}
        invariant PoolInv(View(), maxWorkers) && workers.Keys == todo
        decreases todo
      {
        var a :| a in todo;
        CallsKeepPool(View(), maxWorkers, a, "");
        StopWorker(a);
        todo := todo - {a};
      }
      NothingTracked(View(), maxWorkers);
    }

    /** `is_running` reads the registry. It is right about every running worker, and reports a tracked
        worker that has exited as well. */
    method IsRegistered(a: string) returns (r: bool)
      requires PoolInv(View(), maxWorkers)
      ensures Running(View(), a) ==> r
      ensures r && !Running(View(), a) <==> a in workers && procs[workers[a]].phase == Exited
    {
      r := a in registry;
    }
  }
}
