/**
 The line protocol between the search worker pool and its worker processes, as two state machines
 joined by two FIFO pipes per worker.

 A pipe is the list of everything ever written to it together with how much its reader has read.
 Job ids are fresh for every submission (`crypto.randomUUID`). A message stands for one line.
 */
module SearchWorkerProtocol {
  import opened Common
  import opened Wrappers

  /** What the pool writes to a worker. */
  datatype Inbound = Request(id: nat) | Prewarm(id: nat) | Cancel(id: nat)

  /** What a worker writes back; `content` stands for the rest of the message. */
  datatype Reply =
    | Progress(id: nat, content: nat)
    | Complete(id: nat, content: nat)
    | PrewarmComplete(id: nat)
    | Failure(id: nat, content: nat)

  datatype Reason = Cancelled | DeadlineExceeded | WorkerError(reply: Reply) | WorkerDied | SpawnFailed | WriteFailed

  datatype Outcome = Resolved(reply: Reply) | Rejected(reason: Reason)

  /** How one submission's promise settled, and in which worker's hands it was. */
  datatype Settlement = Settlement(id: nat, worker: Option<nat>, outcome: Outcome)

  // ---- The pool ----

  /** `jobs` lists the unsettled jobs; a job leaves it exactly when it settles, so membership is the
      negation of its `settled` flag. `recycled` remembers that `maybeRecycle` retired the worker. */
  datatype PooledWorker = PooledWorker(
    providerId: string,
    jobs: seq<nat>,
    completedJobs: nat,
    retiring: bool,
    recycled: bool,
    stdin: seq<Inbound>,
    stdinEnded: bool,
    delivered: nat,
    exitSeen: bool)

  /** `spawned` lists every worker ever started; its index stands for the worker object. */
  datatype Pool = Pool(
    workers: map<string, nat>,
    spawned: seq<PooledWorker>,
    maxJobs: nat,
    home: map<nat, nat>,
    settlements: seq<Settlement>)

  function NewWorker(providerId: string): PooledWorker {
    PooledWorker(providerId, [], 0, false, false, [], false, 0, false)
  }

  function SetWorker(p: Pool, k: nat, w: PooledWorker): Pool
    requires k < |p.spawned|
  {
    p.(spawned := p.spawned[k := w])
  }

  function ForgetWorker(p: Pool, k: nat): Pool
    requires k < |p.spawned|
  {
    var provider := p.spawned[k].providerId;
    if provider in p.workers && p.workers[provider] == k then p.(workers := p.workers - {provider}) else p
  }

  function Write(p: Pool, k: nat, message: Inbound): Pool
    requires k < |p.spawned|
  {
    SetWorker(p, k, p.spawned[k].(stdin := p.spawned[k].stdin + [message]))
  }

  function MaybeRecycle(p: Pool, k: nat): (q: Pool)
    requires k < |p.spawned|
    ensures |q.spawned| == |p.spawned|
  {
    var w := p.spawned[k];
    if w.retiring || w.jobs != [] || w.completedJobs < p.maxJobs then p
    else SetWorker(ForgetWorker(p, k), k, w.(retiring := true, recycled := true, stdinEnded := true))
  }

  function SettleJob(p: Pool, k: nat, id: nat, outcome: Outcome): (q: Pool)
    requires k < |p.spawned|
    ensures |q.spawned| == |p.spawned|
  {
    var w := p.spawned[k];
    if id !in w.jobs then p
    else
      var settled := SetWorker(p, k, w.(jobs := Without(w.jobs, id), completedJobs := w.completedJobs + 1));
      MaybeRecycle(settled.(settlements := p.settlements + [Settlement(id, Some(k), outcome)]), k)
  }

  /** `writeFails`: the worker's input could not take the line. */
  function CancelJob(p: Pool, k: nat, id: nat, reason: Reason, writeFails: bool): (q: Pool)
    requires k < |p.spawned|
    ensures |q.spawned| == |p.spawned|
  {
    var w := p.spawned[k];
    if id !in w.jobs then p
    else SettleJob(if w.retiring || writeFails then p else Write(p, k, Cancel(id)), k, id, Rejected(reason))
  }

  function Deliver(p: Pool, k: nat, reply: Reply): (q: Pool)
    requires k < |p.spawned|
    ensures |q.spawned| == |p.spawned|
  {
    match reply
    case Failure(id, _) => SettleJob(p, k, id, Rejected(WorkerError(reply)))
    case Complete(id, _) => SettleJob(p, k, id, Resolved(reply))
    case PrewarmComplete(id) => SettleJob(p, k, id, Resolved(reply))
    case Progress(_, _) => p
  }

  /** Reading the next line of a worker's output; a line for no unsettled job is dropped. */
  function ReadReply(p: Pool, k: nat, reply: Reply): (q: Pool)
    requires k < |p.spawned|
    ensures |q.spawned| == |p.spawned|
  {
    Deliver(SetWorker(p, k, p.spawned[k].(delivered := p.spawned[k].delivered + 1)), k, reply)
  }

  predicate HasWorker(p: Pool, provider: string) {
    provider in p.workers && p.workers[provider] < |p.spawned| && !p.spawned[p.workers[provider]].retiring
  }

  function EnsureWorker(p: Pool, provider: string): (q: Pool)
    ensures HasWorker(q, provider)
  {
    if HasWorker(p, provider) then p
    else p.(workers := p.workers[provider := |p.spawned|], spawned := p.spawned + [NewWorker(provider)])
  }

  function Refuse(p: Pool, id: nat, reason: Reason): Pool {
    p.(settlements := p.settlements + [Settlement(id, None, Rejected(reason))])
  }

  function Submit(p: Pool, provider: string, message: Inbound, aborted: bool, spawnFails: bool,
      writeFails: bool): Pool
  {
    if aborted then Refuse(p, message.id, Cancelled)
    else if !HasWorker(p, provider) && spawnFails then Refuse(p, message.id, SpawnFailed)
    else
      var q := EnsureWorker(p, provider);
      var k, id := q.workers[provider], message.id;
      var r := SetWorker(q, k, q.spawned[k].(jobs := q.spawned[k].jobs + [id])).(home := q.home[id := k]);
      if writeFails then SettleJob(r, k, id, Rejected(WriteFailed)) else Write(r, k, message)
  }

  /** The worker's exit reaches the pool: nothing is submitted to it from now on. */
  function SeeExit(p: Pool, k: nat): (q: Pool)
    requires k < |p.spawned|
    ensures |q.spawned| == |p.spawned|
  {
    var q := ForgetWorker(p, k);
    SetWorker(q, k, q.spawned[k].(exitSeen := true))
  }

  /** Its output read to the end, the jobs it still holds are rejected, in order. */
  function RejectAll(p: Pool, k: nat, ids: seq<nat>): (q: Pool)
    requires k < |p.spawned|
    ensures |q.spawned| == |p.spawned|
    decreases |ids|
  {
    if ids == [] then p else RejectAll(SettleJob(p, k, ids[0], Rejected(WorkerDied)), k, ids[1..])
  }

  function Stop(p: Pool): (q: Pool)
    ensures |q.spawned| == |p.spawned|
  {
    p.(workers := map[],
       spawned := seq(|p.spawned|, k requires 0 <= k < |p.spawned| =>
         if k in p.workers.Values then p.spawned[k].(retiring := true, stdinEnded := true) else p.spawned[k]))
  }

  // ---- A worker process ----

  datatype Exit = OnItsOwn | AfterStop | Killed

  datatype Proc = Proc(
    consumed: nat,
    stdout: seq<Reply>,
    runningJobs: map<nat, bool>,
    prewarming: set<nat>,
    pendingMessages: int,
    stdinEnded: bool,
    stopGrace: bool,
    stopping: bool,
    exit: Option<Exit>)

  const NEW_PROC := Proc(0, [], map[], {}, 0, false, false, false, None)

  function Send(x: Proc, reply: Reply): Proc {
    if x.stopping then x else x.(stdout := x.stdout + [reply])
  }

  function MaybeExit(x: Proc): Proc {
    if x.stdinEnded && x.pendingMessages == 0 then x.(exit := Some(if x.stopping then AfterStop else OnItsOwn)) else x
  }

  /** Hangs up on every job. The process exits once its browser tabs are closed: `FinishStop`. */
  function StopNow(x: Proc): Proc {
    if x.stopping then x
    else x.(stopping := true, runningJobs := map id | id in x.runningJobs :: true)
  }

  function FinishStop(x: Proc): Proc {
    x.(exit := Some(AfterStop))
  }

  function HandleInbound(x: Proc, message: Inbound): Proc {
    match message
    case Request(id) => x.(pendingMessages := x.pendingMessages + 1, runningJobs := x.runningJobs[id := false])
    case Prewarm(id) => x.(pendingMessages := x.pendingMessages + 1, prewarming := x.prewarming + {id})
    case Cancel(id) => if id in x.runningJobs then x.(runningJobs := x.runningJobs[id := true]) else x
  }

  function ReadInbound(x: Proc, message: Inbound): Proc {
    HandleInbound(x.(consumed := x.consumed + 1), message)
  }

  function ReadEnd(x: Proc): Proc {
    var ended := x.(stdinEnded := true);
    if x.stopGrace then StopNow(ended) else MaybeExit(ended)
  }

  /** A job or prewarm ends with its one answer. */
  function FinishJob(x: Proc, reply: Reply): Proc {
    MaybeExit(Send(x, reply).(runningJobs := x.runningJobs - {reply.id}, prewarming := x.prewarming - {reply.id},
                              pendingMessages := x.pendingMessages - 1))
  }

  function Signal(x: Proc): Proc {
    if x.stopGrace || x.stdinEnded || x.runningJobs == map[] then StopNow(x) else x.(stopGrace := true)
  }

  // ---- The system ----

  datatype Sys = Sys(pool: Pool, procs: seq<Proc>)

  datatype Event =
    | Submits(provider: string, message: Inbound, aborted: bool, spawnFails: bool, writeFails: bool)
    | Starts(provider: string)
    | Cancels(k: nat, id: nat, reason: Reason, writeFails: bool)
    | PoolReads(k: nat)
    | PoolSeesExit(k: nat)
    | PoolRejects(k: nat)
    | Stops
    | WorkerReads(k: nat)
    | WorkerReadsEnd(k: nat)
    | WorkerReports(k: nat, id: nat, content: nat)
    | WorkerAnswers(k: nat, reply: Reply)
    | WorkerSignalled(k: nat)
    | GraceEnds(k: nat)
    | StopFinishes(k: nat)
    | WorkerKilled(k: nat)

  predicate IsTerminal(reply: Reply) { !reply.Progress? }

  /** Every spawned worker has its process. */
  predicate Matched(s: Sys) { |s.procs| == |s.pool.spawned| }

  /** When an event can happen: the only assumption on the parties beyond their own code is that ids
      are fresh, pipes keep order, and a dead process does nothing. */
  predicate Enabled(s: Sys, e: Event)
    requires Matched(s)
  {
    match e
    case Submits(_, message, _, _, _) =>
      !message.Cancel? && message.id !in s.pool.home && message.id !in SettledIds(s.pool.settlements)
    case Starts(_) => true
    case Cancels(k, _, reason, _) => k < |s.procs| && (reason.Cancelled? || reason.DeadlineExceeded?)
    case PoolReads(k) => k < |s.procs| && s.pool.spawned[k].delivered < |s.procs[k].stdout|
    case PoolSeesExit(k) => k < |s.procs| && s.procs[k].exit.Some?
    case PoolRejects(k) =>
      k < |s.procs| && s.pool.spawned[k].exitSeen && s.pool.spawned[k].delivered == |s.procs[k].stdout|
    case Stops => true
    case WorkerReads(k) => k < |s.procs| && s.procs[k].exit.None? && s.procs[k].consumed < |s.pool.spawned[k].stdin|
    case WorkerReadsEnd(k) =>
      k < |s.procs| && s.procs[k].exit.None? && !s.procs[k].stdinEnded
      && s.pool.spawned[k].stdinEnded && s.procs[k].consumed == |s.pool.spawned[k].stdin|
    case WorkerReports(k, id, _) => k < |s.procs| && s.procs[k].exit.None? && id in s.procs[k].runningJobs
    case WorkerAnswers(k, reply) =>
      k < |s.procs| && s.procs[k].exit.None? && IsTerminal(reply)
      && (reply.id in s.procs[k].runningJobs || reply.id in s.procs[k].prewarming)
    case WorkerSignalled(k) => k < |s.procs| && s.procs[k].exit.None?
    case GraceEnds(k) => k < |s.procs| && s.procs[k].exit.None? && s.procs[k].stopGrace
    case StopFinishes(k) => k < |s.procs| && s.procs[k].exit.None? && s.procs[k].stopping
    case WorkerKilled(k) => k < |s.procs| && s.procs[k].exit.None?
  }

  function SettledIds(settlements: seq<Settlement>): seq<nat> {
    if settlements == [] then [] else SettledIds(settlements[..|settlements| - 1]) + [settlements[|settlements| - 1].id]
  }

  /** A spawned worker comes with its process. */
  function WithPool(s: Sys, p: Pool): Sys {
    Sys(p, s.procs + seq(if |p.spawned| > |s.procs| then |p.spawned| - |s.procs| else 0, _ => NEW_PROC))
  }

  /** The events of the workers' own; the others are the pool's. */
  predicate OfWorker(e: Event) {
    e.WorkerReads? || e.WorkerReadsEnd? || e.WorkerReports? || e.WorkerAnswers? || e.WorkerSignalled? || e.GraceEnds?
    || e.StopFinishes? || e.WorkerKilled?
  }

  /** A worker process after an event of its own, given the pipe it reads. */
  function ProcStep(x: Proc, stdin: seq<Inbound>, e: Event): Proc
    requires OfWorker(e) && (e.WorkerReads? ==> x.consumed < |stdin|)
  {
    match e
    case WorkerReads(_) => ReadInbound(x, stdin[x.consumed])
    case WorkerReadsEnd(_) => ReadEnd(x)
    case WorkerReports(_, id, content) => Send(x, Progress(id, content))
    case WorkerAnswers(_, reply) => FinishJob(x, reply)
    case WorkerSignalled(_) => Signal(x)
    case GraceEnds(_) => StopNow(x)
    case StopFinishes(_) => FinishStop(x)
    case WorkerKilled(_) => x.(exit := Some(Killed))
  }

  function Step(s: Sys, e: Event): Sys
    requires Matched(s) && Enabled(s, e)
  {
    match e
    case Submits(provider, message, aborted, spawnFails, writeFails) =>
      WithPool(s, Submit(s.pool, provider, message, aborted, spawnFails, writeFails))
    case Starts(provider) => WithPool(s, EnsureWorker(s.pool, provider))
    case Cancels(k, id, reason, writeFails) => s.(pool := CancelJob(s.pool, k, id, reason, writeFails))
    case PoolReads(k) => s.(pool := ReadReply(s.pool, k, s.procs[k].stdout[s.pool.spawned[k].delivered]))
    case PoolSeesExit(k) => s.(pool := SeeExit(s.pool, k))
    case PoolRejects(k) => s.(pool := RejectAll(s.pool, k, s.pool.spawned[k].jobs))
    case Stops => s.(pool := Stop(s.pool))
    case _ => s.(procs := s.procs[e.k := ProcStep(s.procs[e.k], s.pool.spawned[e.k].stdin, e)])
  }
}
