/**
 The pool and the worker as they run: objects whose methods update their fields in place, each
 proved to do what the state machines of SearchWorkerProtocol.dfy say. What the protocol modules
 prove of every interleaving then holds of these classes' calls.
 */
module SearchWorkerPool {
  import opened Common
  import opened Wrappers
  import P = SearchWorkerProtocol
  import S = SearchWorkerSafety

  class SearchWorkerPool {
    const maxJobs: nat
    var workers: map<string, nat>
    var spawned: seq<P.PooledWorker>
    ghost var home: map<nat, nat>
    ghost var settlements: seq<P.Settlement>

    ghost function Model(): P.Pool
      reads this
    {
      P.Pool(workers, spawned, maxJobs, home, settlements)
    }

    ghost predicate Valid()
      reads this
    {
      S.PoolOk(Model())
    }

    constructor (maxJobs: nat)
      ensures Valid() && Model() == P.Pool(map[], [], maxJobs, map[], [])
    {
      this.maxJobs := maxJobs;
      workers, spawned, home, settlements := map[], [], map[], [];
    }

    method Submit(provider: string, message: P.Inbound, aborted: bool, spawnFails: bool, writeFails: bool)
      requires Valid() && !message.Cancel? && message.id !in home && message.id !in P.SettledIds(settlements)
      modifies this
      ensures Valid() && Model() == P.Submit(old(Model()), provider, message, aborted, spawnFails, writeFails)
    {
      S.SubmitKeepsPoolOk(Model(), provider, message, aborted, spawnFails, writeFails);
      if aborted {
        settlements := settlements + [P.Settlement(message.id, None, P.Rejected(P.Cancelled))];
        return;
      }
      var ready := HasWorker(provider);
      if !ready && spawnFails {
        settlements := settlements + [P.Settlement(message.id, None, P.Rejected(P.SpawnFailed))];
        return;
      }
      var k := EnsureWorker(provider);
      spawned := spawned[k := spawned[k].(jobs := spawned[k].jobs + [message.id])];
      home := home[message.id := k];
      if writeFails {
        SettleJob(k, message.id, P.Rejected(P.WriteFailed));
      } else {
        WriteToWorker(k, message);
      }
    }

    method CancelJob(k: nat, id: nat, reason: P.Reason, writeFails: bool)
      requires Valid() && k < |spawned|
      modifies this
      ensures Valid() && Model() == P.CancelJob(old(Model()), k, id, reason, writeFails)
    {
      S.CancelKeepsPoolOk(Model(), k, id, reason, writeFails);
      if id !in spawned[k].jobs { return; }
      if !spawned[k].retiring && !writeFails { WriteToWorker(k, P.Cancel(id)); }
      SettleJob(k, id, P.Rejected(reason));
    }

    /** The handler of one line of a worker's output. */
    method ReadReply(k: nat, reply: P.Reply)
      requires Valid() && k < |spawned|
      modifies this
      ensures Valid() && Model() == P.ReadReply(old(Model()), k, reply)
    {
      S.ReadKeepsPoolOk(Model(), k, reply);
      spawned := spawned[k := spawned[k].(delivered := spawned[k].delivered + 1)];
      if reply.id in spawned[k].jobs { Deliver(k, reply); }
    }

    method SeeExit(k: nat)
      requires Valid() && k < |spawned|
      modifies this
      ensures Valid() && Model() == P.SeeExit(old(Model()), k)
    {
      S.SeeExitKeepsPoolOk(Model(), k);
      ForgetWorker(k);
      spawned := spawned[k := spawned[k].(exitSeen := true)];
    }

    method RejectPending(k: nat)
      requires Valid() && k < |spawned|
      modifies this
      ensures Valid() && Model() == P.RejectAll(old(Model()), k, old(spawned[k].jobs))
    {
      var pending := spawned[k].jobs;
      S.RejectAllKeepsPoolOk(Model(), k, pending);
      for i := 0 to |pending|
        invariant |spawned| == |old(spawned)|
        invariant P.RejectAll(Model(), k, pending[i..]) == P.RejectAll(old(Model()), k, pending)
      {
        assert pending[i..][1..] == pending[i + 1..];
        SettleJob(k, pending[i], P.Rejected(P.WorkerDied));
      }
    }

    method Stop()
      requires Valid()
      modifies this
      ensures Valid() && Model() == P.Stop(old(Model()))
    {
      S.StopKeepsPoolOk(Model());
      ghost var stopped := P.Stop(Model());
      var left := workers.Values;
      while left != {}
        invariant left <= old(workers).Values && |spawned| == |old(spawned)|
        invariant workers == old(workers) && home == old(home) && settlements == old(settlements)
        invariant forall j :: 0 <= j < |spawned| ==>
            spawned[j] == if j in old(workers).Values - left then stopped.spawned[j] else old(spawned)[j]
        decreases |left|
      {
        var k :| k in left;
        left := left - {k};
        assert k < |spawned|;
        spawned := spawned[k := spawned[k].(retiring := true, stdinEnded := true)];
      }
      workers := map[];
      assert spawned == stopped.spawned;
    }

    // ---- Private ----

    method HasWorker(provider: string) returns (ready: bool)
      ensures ready == P.HasWorker(Model(), provider)
    {
      ready := provider in workers && workers[provider] < |spawned| && !spawned[workers[provider]].retiring;
    }

    method EnsureWorker(provider: string) returns (k: nat)
      modifies this
      ensures Model() == P.EnsureWorker(old(Model()), provider)
      ensures provider in workers && k == workers[provider] && k < |spawned|
    {
      var ready := HasWorker(provider);
      if !ready {
        workers := workers[provider := |spawned|];
        spawned := spawned + [P.NewWorker(provider)];
      }
      k := workers[provider];
    }

    method WriteToWorker(k: nat, message: P.Inbound)
      requires k < |spawned|
      modifies this`spawned
      ensures Model() == P.Write(old(Model()), k, message)
    {
      spawned := spawned[k := spawned[k].(stdin := spawned[k].stdin + [message])];
    }

    method ForgetWorker(k: nat)
      requires k < |spawned|
      modifies this`workers
      ensures Model() == P.ForgetWorker(old(Model()), k)
    {
      var provider := spawned[k].providerId;
      if provider in workers && workers[provider] == k { workers := workers - {provider}; }
    }

    method MaybeRecycle(k: nat)
      requires k < |spawned|
      modifies this
      ensures Model() == P.MaybeRecycle(old(Model()), k)
    {
      var worker := spawned[k];
      if worker.retiring || |worker.jobs| > 0 || worker.completedJobs < maxJobs { return; }
      ForgetWorker(k);
      spawned := spawned[k := worker.(retiring := true, recycled := true, stdinEnded := true)];
    }

    method SettleJob(k: nat, id: nat, outcome: P.Outcome)
      requires k < |spawned|
      modifies this
      ensures Model() == P.SettleJob(old(Model()), k, id, outcome)
    {
      var worker := spawned[k];
      if id !in worker.jobs { return; }
      spawned := spawned[k := worker.(jobs := Without(worker.jobs, id), completedJobs := worker.completedJobs + 1)];
      settlements := settlements + [P.Settlement(id, Some(k), outcome)];
      MaybeRecycle(k);
    }

    method Deliver(k: nat, reply: P.Reply)
      requires k < |spawned|
      modifies this
      ensures Model() == P.Deliver(old(Model()), k, reply)
    {
      if reply.Failure? {
        SettleJob(k, reply.id, P.Rejected(P.WorkerError(reply)));
      } else if reply.Complete? || reply.PrewarmComplete? {
        SettleJob(k, reply.id, P.Resolved(reply));
      }
    }
  }

  /** One worker process. What it writes is appended to `stdout`; prewarms are only counted. */
  class SearchWorker {
    var runningJobs: map<nat, bool>
    var pendingMessages: int
    var stdinEnded: bool
    var stopGrace: bool
    var stopping: bool
    var stdout: seq<P.Reply>
    var exit: Option<P.Exit>
    ghost var consumed: nat
    ghost var prewarming: set<nat>

    ghost function Model(): P.Proc
      reads this
    {
      P.Proc(consumed, stdout, runningJobs, prewarming, pendingMessages, stdinEnded, stopGrace, stopping, exit)
    }

    constructor ()
      ensures Model() == P.NEW_PROC
    {
      runningJobs, pendingMessages, stdinEnded, stopGrace, stopping := map[], 0, false, false, false;
      stdout, exit, consumed, prewarming := [], None, 0, {};
    }

    method HandleInboundMessage(message: P.Inbound)
      modifies this
      ensures Model() == P.ReadInbound(old(Model()), message)
    {
      consumed := consumed + 1;
      match message
      case Request(id) =>
        pendingMessages := pendingMessages + 1;
        runningJobs := runningJobs[id := false];
      case Prewarm(id) =>
        pendingMessages := pendingMessages + 1;
        prewarming := prewarming + {id};
      case Cancel(id) =>
        if id in runningJobs { runningJobs := runningJobs[id := true]; }
    }

    method OnInputEnd()
      modifies this
      ensures Model() == P.ReadEnd(old(Model()))
    {
      stdinEnded := true;
      if stopGrace { StopNow(); } else { MaybeExit(); }
    }

    method OnProgress(id: nat, content: nat)
      modifies this
      ensures Model() == P.Send(old(Model()), P.Progress(id, content))
    {
      Send(P.Progress(id, content));
    }

    /** A search or prewarm ends: its answer goes out, then its place is freed. */
    method OnJobEnd(reply: P.Reply)
      modifies this
      ensures Model() == P.FinishJob(old(Model()), reply)
    {
      Send(reply);
      runningJobs := runningJobs - {reply.id};
      prewarming := prewarming - {reply.id};
      pendingMessages := pendingMessages - 1;
      MaybeExit();
    }

    method StopOnSignal()
      modifies this
      ensures Model() == P.Signal(old(Model()))
    {
      if stopGrace || stdinEnded || |runningJobs| == 0 { StopNow(); } else { stopGrace := true; }
    }

    /** Aborts every job; the caller's process ends once its tabs are closed. */
    method StopNow()
      modifies this
      ensures Model() == P.StopNow(old(Model()))
    {
      if stopping { return; }
      stopping := true;
      var jobs, ids := runningJobs, runningJobs.Keys;
      while ids != {}
        invariant ids <= jobs.Keys == runningJobs.Keys
        invariant forall id :: id in jobs && id !in ids ==> jobs[id]
        decreases |ids|
      {
        var id :| id in ids;
        ids := ids - {id};
        jobs := jobs[id := true];
      }
      runningJobs := jobs;
    }

    method Send(reply: P.Reply)
      modifies this`stdout
      ensures Model() == P.Send(old(Model()), reply)
    {
      if !stopping { stdout := stdout + [reply]; }
    }

    method MaybeExit()
      modifies this`exit
      ensures Model() == P.MaybeExit(old(Model()))
    {
      if stdinEnded && pendingMessages == 0 { exit := Some(if stopping then P.AfterStop else P.OnItsOwn); }
    }
  }
}
