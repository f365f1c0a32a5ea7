/** The API, the job queue and the worker processes as one system of interleaved steps:
    worker_pool_manager.py, job_queue_service.py and mt5_worker.py, for one API instance and any
    number of accounts. A step is one Redis command, or the code that runs between two awaits; the
    pool lock is part of the state. */
module WorkerSystem {
  import opened Options
  import opened JobQueue

  /** A worker reads its one-time credentials, deletes them and connects, in three steps. */
  datatype Phase =
    | Starting
    | Fetched(cred: string)
    | Connecting(cred: string)
    | Ready
    | Busy(job: Job)
    | Exited

  /** A spawned process. `given` is the credential of the `ensure_worker` call that spawned it and
      `login` the one it connected with. */
  datatype Proc = Proc(account: string, given: string, login: Option<string>, phase: Phase)

  /** Where the holder of the pool lock is. */
  datatype Lock =
    | Free
    | Stashing(account: string, cred: string)
    | Spawning(account: string, cred: string)
    | Registering(account: string)
    | Unregistering(account: string, process: Option<nat>)
    | Sending(account: string, process: Option<nat>)
    | Waiting(account: string, process: Option<nat>)

  /** Process ids index `procs`. The last two fields are history: the jobs that workers started, with
      their accounts, and the replies that callers received. */
  datatype State = State(
    b: Broker,
    workers: map<string, nat>,
    registry: set<string>,
    procs: seq<Proc>,
    lock: Lock,
    started: seq<(string, Job)>,
    answered: seq<(nat, Reply)>
  )

  const INITIAL := State(NEW_BROKER, map[], {}, [], Free, [], [])

  datatype Step =
    | SubmitJob(account: string, jobType: string, payload: string)
    | Await(id: nat)
    | ExpireResult(id: nat)
    | ExpireCredentials(account: string)
    | EnsureBegin(account: string, cred: string)
    | Stash
    | Spawn
    | Register
    | StopBegin(account: string)
    | Unregister
    | StopSend
    | StopFinish
    | Fetch(pid: nat)
    | Discard(pid: nat)
    | Connect(pid: nat, connects: bool)
    | TakeJob(pid: nat)
    | Handle(pid: nat, outcome: Outcome)
    | Exit(pid: nat)
  {
    /** A step of one worker process. */
    predicate OfProcess() {
      Fetch? || Discard? || Connect? || TakeJob? || Handle? || Exit?
    }
  }

  predicate Live(s: State, pid: nat) {
    pid < |s.procs| && s.procs[pid].phase != Exited
  }

  predicate Running(s: State, a: string) {
    a in s.workers && Live(s, s.workers[a])
  }

  function SetPhase(s: State, pid: nat, phase: Phase): State
    requires pid < |s.procs|
  {
    s.(procs := s.procs[pid := s.procs[pid].(phase := phase)])
  }

  /** `ensure_worker` up to its first suspension: nothing for a running worker; otherwise forget a
      dead one, and refuse when the pool is full. */
  function BeginEnsure(s: State, max: nat, a: string, cred: string): State {
    if Running(s, a) then s
    else
      var others := s.workers - {a};
      if |others| >= max then s.(workers := others)
      else s.(workers := others, lock := Stashing(a, cred))
  }

  function StashCredentials(s: State): State
    requires s.lock.Stashing?
  {
    var (a, cred) := (s.lock.account, s.lock.cred);
    s.(b := s.b.(creds := s.b.creds[a := cred]), lock := Spawning(a, cred))
  }

  function SpawnProcess(s: State): State
    requires s.lock.Spawning?
  {
    var a := s.lock.account;
    s.(procs := s.procs + [Proc(a, s.lock.cred, None, Starting)], workers := s.workers[a := |s.procs|],
       lock := Registering(a))
  }

  /** A starting worker reads its one-time credentials, or exits when there are none. */
  function FetchCredentials(s: State, pid: nat): State
    requires pid < |s.procs|
  {
    var a := s.procs[pid].account;
    SetPhase(s, pid, if a in s.b.creds then Fetched(s.b.creds[a]) else Exited)
  }

  function DiscardCredentials(s: State, pid: nat): State
    requires pid < |s.procs| && s.procs[pid].phase.Fetched?
  {
    var p := s.procs[pid];
    SetPhase(s.(b := s.b.(creds := s.b.creds - {p.account})), pid, Connecting(p.phase.cred))
  }

  function LogIn(s: State, pid: nat, connects: bool): State
    requires pid < |s.procs| && s.procs[pid].phase.Connecting?
  {
    var p := s.procs[pid];
    if connects then s.(procs := s.procs[pid := p.(login := Some(p.phase.cred), phase := Ready)])
    else SetPhase(s, pid, Exited)
  }

  function TakeNext(s: State, pid: nat): State
    requires pid < |s.procs|
  {
    var a := s.procs[pid].account;
    match Next(s.b, a)
    case None => s
    case Some(job) =>
      var t := s.(b := Pop(s.b, a));
      if job.jobType == STOP then SetPhase(t, pid, Exited)
      else SetPhase(t, pid, Busy(job)).(started := s.started + [(a, job)])
  }

  function Collect(s: State, id: nat): State {
    if Replies(s.b, id) == [] then s
    else s.(b := TakeResult(s.b, id), answered := s.answered + [(id, Replies(s.b, id)[0])])
  }

  /** One step; a step that is not possible in a state leaves it as it is. */
  function Apply(s: State, max: nat, step: Step): State {
    match step
    case SubmitJob(a, jobType, payload) => s.(b := Submit(s.b, a, jobType, payload))
    case Await(id) => Collect(s, id)
    case ExpireResult(id) => s.(b := s.b.(results := s.b.results - {id}))
    case ExpireCredentials(a) => s.(b := s.b.(creds := s.b.creds - {a}))
    case EnsureBegin(a, cred) => if s.lock.Free? then BeginEnsure(s, max, a, cred) else s
    case Stash => if s.lock.Stashing? then StashCredentials(s) else s
    case Spawn => if s.lock.Spawning? then SpawnProcess(s) else s
    case Register =>
      if s.lock.Registering? then s.(registry := s.registry + {s.lock.account}, lock := Free) else s
    case StopBegin(a) =>
      if s.lock.Free? then
        s.(workers := s.workers - {a}, lock := Unregistering(a, if a in s.workers then Some(s.workers[a]) else None))
      else s
    case Unregister =>
      if s.lock.Unregistering? then
        s.(registry := s.registry - {s.lock.account}, lock := Sending(s.lock.account, s.lock.process))
      else s
    case StopSend =>
      if s.lock.Sending? then
        s.(b := Submit(s.b, s.lock.account, STOP, ""), lock := Waiting(s.lock.account, s.lock.process))
      else s
    case StopFinish =>
      if s.lock.Waiting? then
        var t := s.(lock := Free);
        if s.lock.process.Some? && s.lock.process.value < |s.procs| then SetPhase(t, s.lock.process.value, Exited)
        else t
      else s
    case Fetch(pid) => if pid < |s.procs| && s.procs[pid].phase == Starting then FetchCredentials(s, pid) else s
    case Discard(pid) => if pid < |s.procs| && s.procs[pid].phase.Fetched? then DiscardCredentials(s, pid) else s
    case Connect(pid, connects) =>
      if pid < |s.procs| && s.procs[pid].phase.Connecting? then LogIn(s, pid, connects) else s
    case TakeJob(pid) => if pid < |s.procs| && s.procs[pid].phase == Ready then TakeNext(s, pid) else s
    case Handle(pid, outcome) =>
      if pid < |s.procs| && s.procs[pid].phase.Busy? then
        SetPhase(s.(b := PushResult(s.b, s.procs[pid].phase.job, outcome)), pid, Ready)
      else s
    case Exit(pid) => if pid < |s.procs| then SetPhase(s, pid, Exited) else s
  }

  function Run(s: State, max: nat, steps: seq<Step>): State {
    if steps == [] then s else Apply(Run(s, max, steps[..|steps| - 1]), max, steps[|steps| - 1])
  }

  // ----- the pool -----

  predicate Stopping(s: State, pid: nat) {
    (s.lock.Unregistering? || s.lock.Sending? || s.lock.Waiting?) && s.lock.process == Some(pid)
  }

  /** A live process is the tracked worker of its account, or the one being stopped. */
  predicate Accounted(s: State, pid: nat)
    requires pid < |s.procs|
  {
    var a := s.procs[pid].account;
    (a in s.workers && s.workers[a] == pid) || Stopping(s, pid)
  }

  ghost predicate LockInv(s: State, max: nat) {
    match s.lock
    case Free => s.registry == s.workers.Keys
    case Stashing(a, _) => a !in s.workers && |s.workers| < max && s.registry - {a} == s.workers.Keys
    case Spawning(a, _) => a !in s.workers && |s.workers| < max && s.registry - {a} == s.workers.Keys
    case Registering(a) => a in s.workers && s.registry + {a} == s.workers.Keys
    case Unregistering(a, p) => a !in s.workers && s.registry - {a} == s.workers.Keys && StopTarget(s, a, p)
    case Sending(a, p) => a !in s.workers && s.registry == s.workers.Keys && StopTarget(s, a, p)
    case Waiting(a, p) => a !in s.workers && s.registry == s.workers.Keys && StopTarget(s, a, p)
  }

  predicate StopTarget(s: State, a: string, process: Option<nat>) {
    process.Some? ==> process.value < |s.procs| && s.procs[process.value].account == a
  }

  ghost predicate PoolInv(s: State, max: nat) {
    |s.workers| <= max && LockInv(s, max) &&
    (forall a :: a in s.workers ==> s.workers[a] < |s.procs| && s.procs[s.workers[a]].account == a) &&
    (forall pid :: Live(s, pid) ==> Accounted(s, pid))
  }

  lemma RemovalShrinks(m: map<string, nat>, a: string)
    ensures |m - {a}| == if a in m then |m| - 1 else |m|
  {
    if a in m {
      assert m == (m - {a})[a := m[a]];
    } else {
      assert m - {a} == m;
    }
  }

  /** A step of one process keeps the pool, if it does not revive the process; the broker and the
      histories play no part. */
  lemma PoolProcess(s: State, t: State, max: nat, pid: nat)
    requires PoolInv(s, max) && pid < |s.procs|
    requires OnlyProcess(s, t, pid)
    ensures PoolInv(t, max)
  {
    forall q: nat | Live(t, q)
      ensures Accounted(t, q)
    {
      assert Live(s, q);
    }
  }

  lemma PoolFrame(s: State, t: State, max: nat)
    requires PoolInv(s, max)
    requires t.workers == s.workers && t.registry == s.registry && t.procs == s.procs && t.lock == s.lock
    ensures PoolInv(t, max)
  {
    forall pid: nat | Live(t, pid)
      ensures Accounted(t, pid)
    {
      assert Live(s, pid);
    }
  }

  /** Forgetting a dead worker, and reserving a place for the next one. */
  lemma PoolForget(s: State, t: State, max: nat, a: string)
    requires PoolInv(s, max) && s.lock.Free? && !Running(s, a)
    requires t.workers == s.workers - {a} && t.procs == s.procs && LockInv(t, max) && |t.workers| <= max
    ensures PoolInv(t, max)
  {
    forall pid: nat | Live(t, pid)
      ensures Accounted(t, pid)
    {
      assert Live(s, pid);
    }
  }

  lemma PoolEnsure(s: State, max: nat, a: string, cred: string)
    requires PoolInv(s, max) && s.lock.Free?
    ensures PoolInv(BeginEnsure(s, max, a, cred), max)
  {
    if !Running(s, a) {
      RemovalShrinks(s.workers, a);
      assert a !in s.workers ==> s.workers - {a} == s.workers;
      PoolForget(s, BeginEnsure(s, max, a, cred), max, a);
    }
  }

  lemma PoolSpawn(s: State, max: nat)
    requires PoolInv(s, max) && s.lock.Spawning?
    ensures PoolInv(SpawnProcess(s), max)
  {
    var t := SpawnProcess(s);
    forall pid: nat | Live(t, pid)
      ensures Accounted(t, pid)
    {
      if pid < |s.procs| {
        assert Live(s, pid);
      }
    }
  }

  lemma PoolStop(s: State, max: nat, a: string)
    requires PoolInv(s, max) && s.lock.Free?
    ensures PoolInv(Apply(s, max, StopBegin(a)), max)
  {
    RemovalShrinks(s.workers, a);
    var t := Apply(s, max, StopBegin(a));
    forall pid | Live(t, pid)
      ensures Accounted(t, pid)
    {
      assert Live(s, pid);
    }
  }

  lemma PoolFinish(s: State, max: nat)
    requires PoolInv(s, max) && s.lock.Waiting?
    ensures PoolInv(Apply(s, max, StopFinish), max)
  {
    var t := Apply(s, max, StopFinish);
    forall pid | Live(t, pid)
      ensures Accounted(t, pid)
    {
      assert Live(s, pid);
    }
  }

  lemma PoolStep(s: State, max: nat, step: Step)
    requires PoolInv(s, max)
    ensures PoolInv(Apply(s, max, step), max)
  {
    match step
    case EnsureBegin(a, cred) => if s.lock.Free? { PoolEnsure(s, max, a, cred); }
    case Stash => PoolStash(s, max);
    case Spawn => if s.lock.Spawning? { PoolSpawn(s, max); }
    case Register => PoolRegister(s, max);
    case StopBegin(a) => if s.lock.Free? { PoolStop(s, max, a); }
    case Unregister => PoolUnregister(s, max);
    case StopSend => PoolSend(s, max);
    case StopFinish => if s.lock.Waiting? { PoolFinish(s, max); }
    case Fetch(_) => PoolProcessStep(s, max, step);
    case Discard(_) => PoolProcessStep(s, max, step);
    case Connect(_, _) => PoolProcessStep(s, max, step);
    case TakeJob(_) => PoolProcessStep(s, max, step);
    case Handle(_, _) => PoolProcessStep(s, max, step);
    case Exit(_) => PoolProcessStep(s, max, step);
    case SubmitJob(_, _, _) => PoolFrame(s, Apply(s, max, step), max);
    case Await(_) => PoolFrame(s, Apply(s, max, step), max);
    case ExpireResult(_) => PoolFrame(s, Apply(s, max, step), max);
    case ExpireCredentials(_) => PoolFrame(s, Apply(s, max, step), max);
  }

  /** What a step of one process leaves alone. */
  predicate OnlyProcess(s: State, t: State, pid: nat)
    requires pid < |s.procs|
  {
    t.workers == s.workers && t.registry == s.registry && t.lock == s.lock &&
    |t.procs| == |s.procs| && t.procs == s.procs[pid := t.procs[pid]] &&
    t.procs[pid].account == s.procs[pid].account && t.procs[pid].given == s.procs[pid].given &&
    (t.procs[pid].phase != Exited ==> s.procs[pid].phase != Exited)
  }

  lemma ProcessStepIsLocal(s: State, max: nat, step: Step)
    requires step.OfProcess() && step.pid < |s.procs|
    ensures OnlyProcess(s, Apply(s, max, step), step.pid)
  {
    assert s.procs == s.procs[step.pid := s.procs[step.pid]];
    match step
    case Fetch(pid) =>
    case Discard(pid) =>
    case Connect(pid, connects) =>
    case TakeJob(pid) =>
    case Handle(pid, outcome) =>
    case Exit(pid) =>
  }

  lemma PoolProcessStep(s: State, max: nat, step: Step)
    requires PoolInv(s, max) && step.OfProcess()
    ensures PoolInv(Apply(s, max, step), max)
  {
    if step.pid < |s.procs| {
      ProcessStepIsLocal(s, max, step);
      PoolProcess(s, Apply(s, max, step), max, step.pid);
    }
  }

  /** A step under the lock that changes no process and no tracked worker. */
  lemma PoolSameWorkers(s: State, t: State, max: nat)
    requires PoolInv(s, max) && LockInv(t, max)
    requires t.workers == s.workers && t.procs == s.procs && forall pid: nat :: Stopping(s, pid) ==> Stopping(t, pid)
    ensures PoolInv(t, max)
  {
    forall pid: nat | Live(t, pid)
      ensures Accounted(t, pid)
    {
      assert Live(s, pid);
    }
  }

  lemma PoolStash(s: State, max: nat)
    requires PoolInv(s, max)
    ensures PoolInv(Apply(s, max, Stash), max)
  {
    PoolSameWorkers(s, Apply(s, max, Stash), max);
  }

  lemma PoolRegister(s: State, max: nat)
    requires PoolInv(s, max)
    ensures PoolInv(Apply(s, max, Register), max)
  {
    PoolSameWorkers(s, Apply(s, max, Register), max);
  }

  lemma PoolUnregister(s: State, max: nat)
    requires PoolInv(s, max)
    ensures PoolInv(Apply(s, max, Unregister), max)
  {
    PoolSameWorkers(s, Apply(s, max, Unregister), max);
  }

  lemma PoolSend(s: State, max: nat)
    requires PoolInv(s, max)
    ensures PoolInv(Apply(s, max, StopSend), max)
  {
    PoolSameWorkers(s, Apply(s, max, StopSend), max);
  }

  lemma {:induction false} PoolRun(max: nat, steps: seq<Step>)
    ensures PoolInv(Run(INITIAL, max, steps), max)
  {
    if steps != [] {
      PoolRun(max, steps[..|steps| - 1]);
      PoolStep(Run(INITIAL, max, steps[..|steps| - 1]), max, steps[|steps| - 1]);
    }
  }

  /** In every reachable state an account has at most one live process. */
  lemma OneProcessPerAccount(max: nat, steps: seq<Step>, p: nat, q: nat)
    requires var s := Run(INITIAL, max, steps); Live(s, p) && Live(s, q) && s.procs[p].account == s.procs[q].account
    ensures p == q
  {
    PoolRun(max, steps);
    var s := Run(INITIAL, max, steps);
    assert Accounted(s, p) && Accounted(s, q);
  }

  /** The pool never tracks more workers than allowed, and whenever no call holds the lock the
      registry lists exactly the tracked accounts. */
  lemma PoolWithinLimit(max: nat, steps: seq<Step>)
    ensures var s := Run(INITIAL, max, steps);
      |s.workers| <= max && (s.lock.Free? ==> s.registry == s.workers.Keys)
  {
    PoolRun(max, steps);
  }

  /** What `is_running` reads from the registry: whenever no call holds the lock it tells whether the
      account is tracked. So it is right about every running worker, and wrong exactly about a tracked
      worker that has exited. */
  lemma RegistryTellsTracked(max: nat, steps: seq<Step>, a: string)
    requires Run(INITIAL, max, steps).lock.Free?
    ensures var s := Run(INITIAL, max, steps);
      (a in s.registry <==> a in s.workers) && (Running(s, a) ==> a in s.registry) &&
      ((a in s.registry) != Running(s, a) <==> a in s.workers && !Live(s, s.workers[a]))
  {
    PoolRun(max, steps);
  }

  lemma RunOneMore(s: State, max: nat, steps: seq<Step>, step: Step)
    ensures Run(s, max, steps + [step]) == Apply(Run(s, max, steps), max, step)
  {
    assert (steps + [step])[..|steps + [step]| - 1] == steps;
  }

  /** A worker that has crashed is still reported as running. */
  lemma ExitedWorkerIsReported(a: string, c: string)
    ensures var s := Run(INITIAL, 1, SpawnSteps(a, c) + [Exit(0)]);
      s.lock.Free? && a in s.registry && !Running(s, a)
  {
    RunOneMore(INITIAL, 1, SpawnSteps(a, c), Exit(0));
    SpawnedAloneIs(a, c);
    PoolWithinLimit(1, SpawnSteps(a, c));
  }

  /** `ensure_worker` refuses exactly an account that has no tracked worker, dead or alive, while the
      pool is full. A dead worker is therefore always respawned. */
  lemma RefusedExactly(max: nat, steps: seq<Step>, a: string, cred: string)
    requires Run(INITIAL, max, steps).lock.Free?
    ensures var s := Run(INITIAL, max, steps);
      !Running(s, a) && BeginEnsure(s, max, a, cred).lock.Free? <==> a !in s.workers && |s.workers| == max
  {
    PoolRun(max, steps);
    var s := Run(INITIAL, max, steps);
    RemovalShrinks(s.workers, a);
  }

  /** Tracked workers count even when they have exited: with room for one, an account whose worker
      is gone keeps every other account out. */
  lemma DeadWorkersFillThePool(a: string, c: string, b: string, d: string)
    requires a != b
    ensures var s := Apply(SpawnedAlone(a, c), 1, Exit(0));
      s.lock.Free? && (forall pid: nat :: !Live(s, pid)) && BeginEnsure(s, 1, b, d) == s
  {
    SpawnedAloneIs(a, c);
    OneDeadWorker(Apply(SpawnedAlone(a, c), 1, Exit(0)), a, c, b, d);
  }

  lemma OneDeadWorker(s: State, a: string, c: string, b: string, d: string)
    requires a != b && s.lock.Free? && s.workers == map[a := 0] && s.procs == [Proc(a, c, None, Exited)]
    ensures (forall pid: nat :: !Live(s, pid)) && BeginEnsure(s, 1, b, d) == s
  {
    assert s.workers - {b} == s.workers;
  }

  function SpawnSteps(a: string, c: string): seq<Step> {
    [EnsureBegin(a, c)] + [Stash] + [Spawn] + [Register]
  }

  function SpawnedAlone(a: string, c: string): State {
    Run(INITIAL, 1, SpawnSteps(a, c))
  }

  lemma SpawnedAloneIs(a: string, c: string)
    ensures var s := SpawnedAlone(a, c);
      s.procs == [Proc(a, c, None, Starting)] && s.workers == map[a := 0] && s.lock == Free
  {
    var s1 := BeginEnsure(INITIAL, 1, a, c);
    assert INITIAL.workers - {a} == map[];
    assert [] + [EnsureBegin(a, c)] == [EnsureBegin(a, c)];
    RunOneMore(INITIAL, 1, [], EnsureBegin(a, c));
    assert Run(INITIAL, 1, [EnsureBegin(a, c)]) == s1;
    RunOneMore(INITIAL, 1, [EnsureBegin(a, c)], Stash);
    RunOneMore(INITIAL, 1, [EnsureBegin(a, c)] + [Stash], Spawn);
    RunOneMore(INITIAL, 1, [EnsureBegin(a, c)] + [Stash] + [Spawn], Register);
  }

  // ----- credentials -----

  predicate CredOk(s: State, p: Proc) {
    (p.login.Some? ==> p.login.value == p.given) &&
    (p.phase.Fetched? || p.phase.Connecting? ==> p.phase.cred == p.given) &&
    (p.phase == Starting && p.account in s.b.creds ==> s.b.creds[p.account] == p.given)
  }

  ghost predicate CredInv(s: State) {
    (forall pid :: 0 <= pid < |s.procs| ==> CredOk(s, s.procs[pid])) &&
    (s.lock.Spawning? && s.lock.account in s.b.creds ==> s.b.creds[s.lock.account] == s.lock.cred)
  }

  /** Stashing new credentials misleads nobody: no live worker of the account is left to read them. */
  lemma CredStash(s: State, max: nat)
    requires PoolInv(s, max) && CredInv(s) && s.lock.Stashing?
    ensures CredInv(StashCredentials(s))
  {
    var t := StashCredentials(s);
    forall pid | 0 <= pid < |t.procs|
      ensures CredOk(t, t.procs[pid])
    {
      assert CredOk(s, s.procs[pid]);
      if Live(s, pid) {
        assert Accounted(s, pid);
        assert s.procs[pid].account != s.lock.account;
      }
    }
  }

  /** Losing stashed credentials does no harm. */
  lemma CredFrame(s: State, t: State)
    requires CredInv(s) && t.procs == s.procs && (t.lock.Spawning? ==> t.lock == s.lock)
    requires forall a :: a in t.b.creds ==> a in s.b.creds && t.b.creds[a] == s.b.creds[a]
    ensures CredInv(t)
  {
    forall pid | 0 <= pid < |t.procs|
      ensures CredOk(t, t.procs[pid])
    {
      assert CredOk(s, s.procs[pid]);
    }
  }

  lemma CredProcess(s: State, t: State, pid: nat)
    requires CredInv(s) && pid < |s.procs| && OnlyProcess(s, t, pid) && KeepsOwn(s, t, pid)
    ensures CredInv(t)
  {
    forall q | 0 <= q < |t.procs|
      ensures CredOk(t, t.procs[q])
    {
      assert CredOk(s, s.procs[q]);
    }
  }

  lemma CredSpawn(s: State)
    requires CredInv(s) && s.lock.Spawning?
    ensures CredInv(SpawnProcess(s))
  {
    var t := SpawnProcess(s);
    forall pid | 0 <= pid < |t.procs|
      ensures CredOk(t, t.procs[pid])
    {
      if pid < |s.procs| {
        assert CredOk(s, s.procs[pid]);
      }
    }
  }

  predicate KeepsOwn(s: State, t: State, pid: nat)
    requires pid < |s.procs| == |t.procs|
  {
    (forall a :: a in t.b.creds ==> a in s.b.creds && t.b.creds[a] == s.b.creds[a]) &&
    (t.procs[pid].login.Some? ==> t.procs[pid].login.value == t.procs[pid].given) &&
    (t.procs[pid].phase.Fetched? || t.procs[pid].phase.Connecting? ==> t.procs[pid].phase.cred == t.procs[pid].given) &&
    (t.procs[pid].phase == Starting ==> s.procs[pid].phase == Starting)
  }

  lemma OwnWhileStarting(s: State, max: nat, step: Step)
    requires step.Fetch? || step.Discard? || step.Connect?
    requires step.pid < |s.procs| == |Apply(s, max, step).procs| && CredOk(s, s.procs[step.pid])
    ensures KeepsOwn(s, Apply(s, max, step), step.pid)
  {
    match step
    case Fetch(_) =>
    case Discard(_) =>
    case Connect(_, _) =>
  }

  lemma OwnWhileWorking(s: State, max: nat, step: Step)
    requires step.TakeJob? || step.Handle? || step.Exit?
    requires step.pid < |s.procs| == |Apply(s, max, step).procs| && CredOk(s, s.procs[step.pid])
    ensures KeepsOwn(s, Apply(s, max, step), step.pid)
  {
    match step
    case TakeJob(_) =>
    case Handle(_, _) =>
    case Exit(_) =>
  }

  lemma CredProcessStep(s: State, max: nat, step: Step)
    requires CredInv(s) && step.OfProcess()
    ensures CredInv(Apply(s, max, step))
  {
    if step.pid < |s.procs| {
      ProcessStepIsLocal(s, max, step);
      assert CredOk(s, s.procs[step.pid]);
      if step.Fetch? || step.Discard? || step.Connect? {
        OwnWhileStarting(s, max, step);
      } else {
        OwnWhileWorking(s, max, step);
      }
      CredProcess(s, Apply(s, max, step), step.pid);
    }
  }

  /** Steps of callers and key expiries. */
  lemma CredCallerStep(s: State, max: nat, step: Step)
    requires CredInv(s)
    requires step.SubmitJob? || step.Await? || step.ExpireResult? || step.ExpireCredentials?
    ensures CredInv(Apply(s, max, step))
  {
    match step
    case SubmitJob(_, _, _) => CredFrame(s, Apply(s, max, step));
    case Await(_) => CredFrame(s, Apply(s, max, step));
    case ExpireResult(_) => CredFrame(s, Apply(s, max, step));
    case ExpireCredentials(_) => CredFrame(s, Apply(s, max, step));
  }

  /** Steps under the lock that touch neither credentials nor processes. */
  lemma CredLockStep(s: State, max: nat, step: Step)
    requires CredInv(s)
    requires step.EnsureBegin? || step.Register? || step.StopBegin? || step.Unregister? || step.StopSend?
    ensures CredInv(Apply(s, max, step))
  {
    match step
    case EnsureBegin(_, _) => CredFrame(s, Apply(s, max, step));
    case Register => CredFrame(s, Apply(s, max, step));
    case StopBegin(_) => CredFrame(s, Apply(s, max, step));
    case Unregister => CredFrame(s, Apply(s, max, step));
    case StopSend => CredFrame(s, Apply(s, max, step));
  }

  lemma CredStep(s: State, max: nat, step: Step)
    requires PoolInv(s, max) && CredInv(s)
    ensures CredInv(Apply(s, max, step))
  {
    if step.OfProcess() {
      CredProcessStep(s, max, step);
    } else if step.Stash? {
      if s.lock.Stashing? { CredStash(s, max); }
    } else if step.Spawn? {
      if s.lock.Spawning? { CredSpawn(s); }
    } else if step.StopFinish? {
      if s.lock.Waiting? { CredFinish(s, max); }
    } else if step.SubmitJob? || step.Await? || step.ExpireResult? || step.ExpireCredentials? {
      CredCallerStep(s, max, step);
    } else {
      CredLockStep(s, max, step);
    }
  }

  lemma CredFinish(s: State, max: nat)
    requires CredInv(s) && s.lock.Waiting?
    ensures CredInv(Apply(s, max, StopFinish))
  {
    var t := Apply(s, max, StopFinish);
    forall pid | 0 <= pid < |t.procs|
      ensures CredOk(t, t.procs[pid])
    {
      assert CredOk(s, s.procs[pid]);
    }
  }

  lemma {:induction false} CredRun(max: nat, steps: seq<Step>)
    ensures CredInv(Run(INITIAL, max, steps))
  {
    if steps != [] {
      PoolRun(max, steps[..|steps| - 1]);
      CredRun(max, steps[..|steps| - 1]);
      CredStep(Run(INITIAL, max, steps[..|steps| - 1]), max, steps[|steps| - 1]);
    }
  }

  /** A worker only ever connects with the credentials given to the call that spawned it, however
      calls, crashes and key expiries interleave. */
  lemma WorkersUseTheirOwnCredentials(max: nat, steps: seq<Step>, pid: nat)
    requires pid < |Run(INITIAL, max, steps).procs|
    ensures var p := Run(INITIAL, max, steps).procs[pid]; p.login.Some? ==> p.login.value == p.given
  {
    CredRun(max, steps);
    assert CredOk(Run(INITIAL, max, steps), Run(INITIAL, max, steps).procs[pid]);
  }

  // ----- the way of a worker -----

  /** With room in the pool, a call of `ensure_worker` ends with a registered, tracked process that has its
      credentials waiting. */
  lemma EnsureHasEffect(s: State, max: nat, a: string, cred: string)
    requires s.lock.Free? && !Running(s, a) && |s.workers - {a}| < max
    ensures var s1 := Apply(s, max, EnsureBegin(a, cred));
      var t := Apply(Apply(Apply(s1, max, Stash), max, Spawn), max, Register);
      t.lock.Free? && t.procs == s.procs + [Proc(a, cred, None, Starting)] &&
      t.workers == (s.workers - {a})[a := |s.procs|] && t.registry == s.registry + {a} &&
      t.b == s.b.(creds := s.b.creds[a := cred])
  {
    var s1 := Apply(s, max, EnsureBegin(a, cred));
    assert s1.lock == Stashing(a, cred);
    var s2 := Apply(s1, max, Stash);
    assert s2.lock == Spawning(a, cred);
    var s3 := Apply(s2, max, Spawn);
    assert s3.lock == Registering(a);
  }

  /** A starting process reads its credentials, deletes them and, if it connects, is ready under them. */
  lemma LoginHasEffect(s: State, max: nat, pid: nat, connects: bool)
    requires pid < |s.procs| && s.procs[pid].phase == Starting && s.procs[pid].account in s.b.creds
    ensures var a := s.procs[pid].account;
      var t := Apply(Apply(Apply(s, max, Fetch(pid)), max, Discard(pid)), max, Connect(pid, connects));
      a !in t.b.creds && t.workers == s.workers && t.registry == s.registry && |t.procs| == |s.procs| &&
      (if connects then t.procs[pid] == s.procs[pid].(login := Some(s.b.creds[a]), phase := Ready)
       else !Live(t, pid))
  {
    var s1 := Apply(s, max, Fetch(pid));
    assert s1.procs[pid].phase == Fetched(s.b.creds[s.procs[pid].account]);
    var s2 := Apply(s1, max, Discard(pid));
    assert s2.procs[pid].phase == Connecting(s.b.creds[s.procs[pid].account]);
  }

  /** Without credentials it exits. */
  lemma NoCredentialsNoWorker(s: State, max: nat, pid: nat)
    requires pid < |s.procs| && s.procs[pid].phase == Starting && s.procs[pid].account !in s.b.creds
    ensures !Live(Apply(s, max, Fetch(pid)), pid)
  {
  }

  /** A call of `stop_worker` ends with the account unregistered, its process dead and a STOP behind the
      waiting jobs. */
  lemma StopHasEffect(s: State, max: nat, a: string)
    requires s.lock.Free? && a in s.workers && s.workers[a] < |s.procs|
    ensures var s1 := Apply(Apply(s, max, StopBegin(a)), max, Unregister);
      var t := Apply(Apply(s1, max, StopSend), max, StopFinish);
      t.lock.Free? && t.workers == s.workers - {a} && t.registry == s.registry - {a} && !Live(t, s.workers[a]) &&
      JobQueue.Waiting(t.b, a) == JobQueue.Waiting(s.b, a) + [Job(s.b.nextId, "STOP", "")]
  {
    var process := Some(s.workers[a]);
    var s0 := Apply(s, max, StopBegin(a));
    assert s0.lock == Unregistering(a, process);
    var s1 := Apply(s0, max, Unregister);
    assert s1.lock == Sending(a, process);
    var s2 := Apply(s1, max, StopSend);
    assert s2.lock == Waiting(a, process);
    SubmitGoesLast(s.b, a, STOP, "", a);
  }
}
