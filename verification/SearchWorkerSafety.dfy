/** What every interleaving of the pool, its workers and the pipes between them keeps. */
module SearchWorkerSafety {
  import opened Common
  import opened Wrappers
  import opened SearchWorkerProtocol

  // ---- Lists of ids ----

  function StartIds(messages: seq<Inbound>): seq<nat> {
    if messages == [] then []
    else
      var last := messages[|messages| - 1];
      var before := StartIds(messages[..|messages| - 1]);
      if last.Cancel? then before else before + [last.id]
  }

  function AnswerIds(replies: seq<Reply>): seq<nat> {
    if replies == [] then []
    else
      var last := replies[|replies| - 1];
      var before := AnswerIds(replies[..|replies| - 1]);
      if IsTerminal(last) then before + [last.id] else before
  }

  lemma StartIdsAppend(messages: seq<Inbound>, m: Inbound)
    ensures StartIds(messages + [m]) == if m.Cancel? then StartIds(messages) else StartIds(messages) + [m.id]
  {
    assert (messages + [m])[..|messages|] == messages;
  }

  lemma AnswerIdsAppend(replies: seq<Reply>, r: Reply)
    ensures AnswerIds(replies + [r]) == if IsTerminal(r) then AnswerIds(replies) + [r.id] else AnswerIds(replies)
  {
    assert (replies + [r])[..|replies|] == replies;
  }

  lemma SettledIdsAppend(settlements: seq<Settlement>, x: Settlement)
    ensures SettledIds(settlements + [x]) == SettledIds(settlements) + [x.id]
  {
    assert (settlements + [x])[..|settlements|] == settlements;
  }

  // ---- The pool's own invariant ----

  ghost predicate WorkerOk(p: Pool, k: nat)
    requires k < |p.spawned|
  {
    var w := p.spawned[k];
    && Distinct(w.jobs)
    && (forall id :: id in w.jobs ==> id in p.home && p.home[id] == k && id in StartIds(w.stdin))
    && (forall id :: id in StartIds(w.stdin) ==> id in p.home && p.home[id] == k)
    && Distinct(StartIds(w.stdin))
    && w.retiring == w.stdinEnded
    && (w.recycled ==> w.retiring && w.jobs == [])
  }

  /** A submission handed to a worker is among its unsettled jobs or has settled, never both. */
  ghost predicate SettlesOnce(p: Pool) {
    && Distinct(SettledIds(p.settlements))
    && (forall id :: id in p.home ==>
          p.home[id] < |p.spawned| && (id in p.spawned[p.home[id]].jobs <==> id !in SettledIds(p.settlements)))
  }

  ghost predicate RegistryOk(p: Pool) {
    forall provider :: provider in p.workers ==>
      var k := p.workers[provider];
      k < |p.spawned| && p.spawned[k].providerId == provider && !p.spawned[k].retiring && !p.spawned[k].exitSeen
  }

  ghost predicate PoolOk(p: Pool) {
    && (forall k :: 0 <= k < |p.spawned| ==> WorkerOk(p, k))
    && SettlesOnce(p) && RegistryOk(p)
  }

  lemma SettledHaveNoJob(p: Pool, k: nat, id: nat)
    requires PoolOk(p) && k < |p.spawned| && id in p.spawned[k].jobs
    ensures id !in SettledIds(p.settlements)
  {
    assert WorkerOk(p, k);
  }

  lemma ForgetKeepsRegistry(p: Pool, k: nat)
    requires RegistryOk(p) && k < |p.spawned|
    ensures RegistryOk(ForgetWorker(p, k)) && k !in ForgetWorker(p, k).workers.Values
    ensures ForgetWorker(p, k) == p.(workers := ForgetWorker(p, k).workers)
  {
    var q := ForgetWorker(p, k);
    forall provider | provider in q.workers ensures q.workers[provider] != k { assert provider in p.workers; }
  }

  /** A worker's record changes, the registry only forgets it. */
  lemma RegistryAfter(p: Pool, k: nat, w: PooledWorker)
    requires RegistryOk(p) && k < |p.spawned|
    ensures RegistryOk(SetWorker(ForgetWorker(p, k), k, w))
  {
    var q := SetWorker(ForgetWorker(p, k), k, w);
    ForgetKeepsRegistry(p, k);
    forall provider | provider in q.workers
      ensures q.workers[provider] < |q.spawned| && q.spawned[q.workers[provider]].providerId == provider
      ensures !q.spawned[q.workers[provider]].retiring && !q.spawned[q.workers[provider]].exitSeen
    {
      assert provider in p.workers;
      assert q.workers[provider] in q.workers.Values;
    }
  }

  /** A record that keeps its jobs and its input keeps everybody in order. */
  lemma RecordKeepsWorkers(p: Pool, k: nat, w: PooledWorker)
    requires PoolOk(p) && k < |p.spawned| && w.jobs == p.spawned[k].jobs && w.stdin == p.spawned[k].stdin
    requires w.retiring == w.stdinEnded && (w.recycled ==> w.retiring && w.jobs == [])
    ensures var q := SetWorker(ForgetWorker(p, k), k, w);
      SettlesOnce(q) && forall j :: 0 <= j < |q.spawned| ==> WorkerOk(q, j)
  {
    var q := SetWorker(ForgetWorker(p, k), k, w);
    ForgetKeepsRegistry(p, k);
    forall j | 0 <= j < |q.spawned| ensures WorkerOk(q, j) { assert WorkerOk(p, j); }
  }

  lemma RecycleKeepsPoolOk(p: Pool, k: nat)
    requires PoolOk(p) && k < |p.spawned|
    ensures PoolOk(MaybeRecycle(p, k))
  {
    var w := p.spawned[k].(retiring := true, recycled := true, stdinEnded := true);
    if MaybeRecycle(p, k) != p {
      RegistryAfter(p, k, w);
      RecordKeepsWorkers(p, k, w);
    }
  }

  /** The job leaves the list and its outcome enters the history. */
  function Settled(p: Pool, k: nat, id: nat, outcome: Outcome): Pool
    requires k < |p.spawned|
  {
    var w := p.spawned[k];
    SetWorker(p, k, w.(jobs := Without(w.jobs, id), completedJobs := w.completedJobs + 1))
      .(settlements := p.settlements + [Settlement(id, Some(k), outcome)])
  }

  lemma SettledKeepsWorkers(p: Pool, k: nat, id: nat, outcome: Outcome)
    requires PoolOk(p) && k < |p.spawned| && id in p.spawned[k].jobs
    ensures forall j :: 0 <= j < |p.spawned| ==> WorkerOk(Settled(p, k, id, outcome), j)
  {
    var q := Settled(p, k, id, outcome);
    WithoutRemoves(p.spawned[k].jobs, id);
    forall j | 0 <= j < |q.spawned| ensures WorkerOk(q, j) { assert WorkerOk(p, j); }
  }

  lemma SettledSettlesOnce(p: Pool, k: nat, id: nat, outcome: Outcome)
    requires PoolOk(p) && k < |p.spawned| && id in p.spawned[k].jobs
    ensures SettlesOnce(Settled(p, k, id, outcome))
  {
    assert WorkerOk(p, k);
    WithoutRemoves(p.spawned[k].jobs, id);
    SettledIdsAppend(p.settlements, Settlement(id, Some(k), outcome));
    DistinctAppend(SettledIds(p.settlements), id);
    SettledHaveNoJob(p, k, id);
  }

  lemma SettledKeepsPoolOk(p: Pool, k: nat, id: nat, outcome: Outcome)
    requires PoolOk(p) && k < |p.spawned| && id in p.spawned[k].jobs
    ensures PoolOk(Settled(p, k, id, outcome))
  {
    SettledKeepsWorkers(p, k, id, outcome);
    SettledSettlesOnce(p, k, id, outcome);
  }

  lemma SettleKeepsPoolOk(p: Pool, k: nat, id: nat, outcome: Outcome)
    requires PoolOk(p) && k < |p.spawned|
    ensures PoolOk(SettleJob(p, k, id, outcome))
  {
    if id in p.spawned[k].jobs {
      SettledKeepsPoolOk(p, k, id, outcome);
      RecycleKeepsPoolOk(Settled(p, k, id, outcome), k);
    }
  }

  lemma CancelLineKeepsPoolOk(p: Pool, k: nat, id: nat)
    requires PoolOk(p) && k < |p.spawned|
    ensures PoolOk(Write(p, k, Cancel(id)))
  {
    var q := Write(p, k, Cancel(id));
    StartIdsAppend(p.spawned[k].stdin, Cancel(id));
    forall j | 0 <= j < |q.spawned| ensures WorkerOk(q, j) { assert WorkerOk(p, j); }
  }

  lemma CancelKeepsPoolOk(p: Pool, k: nat, id: nat, reason: Reason, writeFails: bool)
    requires PoolOk(p) && k < |p.spawned|
    ensures PoolOk(CancelJob(p, k, id, reason, writeFails))
  {
    CancelLineKeepsPoolOk(p, k, id);
    SettleKeepsPoolOk(p, k, id, Rejected(reason));
    SettleKeepsPoolOk(Write(p, k, Cancel(id)), k, id, Rejected(reason));
  }

  lemma AdvanceKeepsPoolOk(p: Pool, k: nat)
    requires PoolOk(p) && k < |p.spawned|
    ensures PoolOk(SetWorker(p, k, p.spawned[k].(delivered := p.spawned[k].delivered + 1)))
  {
    var q := SetWorker(p, k, p.spawned[k].(delivered := p.spawned[k].delivered + 1));
    forall j | 0 <= j < |q.spawned| ensures WorkerOk(q, j) { assert WorkerOk(p, j); }
  }

  lemma ReadKeepsPoolOk(p: Pool, k: nat, reply: Reply)
    requires PoolOk(p) && k < |p.spawned|
    ensures PoolOk(ReadReply(p, k, reply))
  {
    var q := SetWorker(p, k, p.spawned[k].(delivered := p.spawned[k].delivered + 1));
    AdvanceKeepsPoolOk(p, k);
    match reply
    case Failure(id, _) => SettleKeepsPoolOk(q, k, id, Rejected(WorkerError(reply)));
    case Complete(id, _) => SettleKeepsPoolOk(q, k, id, Resolved(reply));
    case PrewarmComplete(id) => SettleKeepsPoolOk(q, k, id, Resolved(reply));
    case Progress(_, _) =>
  }

  lemma EnsureKeepsPoolOk(p: Pool, provider: string)
    requires PoolOk(p)
    ensures PoolOk(EnsureWorker(p, provider))
    ensures |p.spawned| <= |EnsureWorker(p, provider).spawned| <= |p.spawned| + 1
  {
    var q := EnsureWorker(p, provider);
    forall j | 0 <= j < |q.spawned| ensures WorkerOk(q, j) { if j < |p.spawned| { assert WorkerOk(p, j); } }
  }

  lemma RefuseKeepsPoolOk(p: Pool, id: nat, reason: Reason)
    requires PoolOk(p) && id !in p.home && id !in SettledIds(p.settlements)
    ensures PoolOk(Refuse(p, id, reason))
  {
    var q := Refuse(p, id, reason);
    SettledIdsAppend(p.settlements, Settlement(id, None, Rejected(reason)));
    DistinctAppend(SettledIds(p.settlements), id);
    forall j | 0 <= j < |q.spawned| ensures WorkerOk(q, j) { assert WorkerOk(p, j); }
  }

  /** A submission whose line was written. */
  function Accepted(p: Pool, k: nat, message: Inbound): Pool
    requires k < |p.spawned|
  {
    var w := p.spawned[k];
    SetWorker(p, k, w.(jobs := w.jobs + [message.id], stdin := w.stdin + [message])).(home := p.home[message.id := k])
  }

  lemma AcceptedKeepsItsWorker(p: Pool, k: nat, message: Inbound)
    requires k < |p.spawned| && WorkerOk(p, k) && !p.spawned[k].retiring && !message.Cancel? && message.id !in p.home
    ensures WorkerOk(Accepted(p, k, message), k)
  {
    var w := p.spawned[k];
    StartIdsAppend(w.stdin, message);
    DistinctAppend(StartIds(w.stdin), message.id);
    DistinctAppend(w.jobs, message.id);
  }

  lemma AcceptedKeepsWorkers(p: Pool, k: nat, message: Inbound)
    requires PoolOk(p) && k < |p.spawned| && !p.spawned[k].retiring && !message.Cancel? && message.id !in p.home
    ensures forall j :: 0 <= j < |p.spawned| ==> WorkerOk(Accepted(p, k, message), j)
  {
    var q := Accepted(p, k, message);
    forall j | 0 <= j < |p.spawned| ensures WorkerOk(q, j) {
      assert WorkerOk(p, j);
      if j == k { AcceptedKeepsItsWorker(p, k, message); }
    }
  }

  lemma AcceptedKeepsPoolOk(p: Pool, k: nat, message: Inbound)
    requires PoolOk(p) && k < |p.spawned| && !p.spawned[k].retiring && !message.Cancel?
    requires message.id !in p.home && message.id !in SettledIds(p.settlements)
    ensures PoolOk(Accepted(p, k, message))
  {
    AcceptedKeepsWorkers(p, k, message);
    var q := Accepted(p, k, message);
    assert RegistryOk(q);
    assert SettlesOnce(q);
  }

  /** A submission whose line could not be written settles at once. */
  function Unwritten(p: Pool, k: nat, id: nat): Pool
    requires k < |p.spawned|
  {
    SetWorker(p, k, p.spawned[k].(completedJobs := p.spawned[k].completedJobs + 1))
      .(home := p.home[id := k], settlements := p.settlements + [Settlement(id, Some(k), Rejected(WriteFailed))])
  }

  lemma UnwrittenKeepsPoolOk(p: Pool, k: nat, id: nat)
    requires PoolOk(p) && k < |p.spawned| && id !in p.home && id !in SettledIds(p.settlements)
    ensures PoolOk(Unwritten(p, k, id))
  {
    var q := Unwritten(p, k, id);
    assert WorkerOk(p, k);
    SettledIdsAppend(p.settlements, Settlement(id, Some(k), Rejected(WriteFailed)));
    DistinctAppend(SettledIds(p.settlements), id);
    forall j | 0 <= j < |q.spawned| ensures WorkerOk(q, j) { assert WorkerOk(p, j); }
  }

  lemma SetTwice(xs: seq<PooledWorker>, k: nat, x: PooledWorker, y: PooledWorker)
    requires k < |xs|
    ensures xs[k := x][k := y] == xs[k := y]
  {
  }

  function Listed(q: Pool, k: nat, id: nat): Pool
    requires k < |q.spawned|
  {
    SetWorker(q, k, q.spawned[k].(jobs := q.spawned[k].jobs + [id])).(home := q.home[id := k])
  }

  lemma WrittenShape(q: Pool, k: nat, message: Inbound)
    requires k < |q.spawned|
    ensures Write(Listed(q, k, message.id), k, message) == Accepted(q, k, message)
  {
    var w := q.spawned[k];
    SetTwice(q.spawned, k, w.(jobs := w.jobs + [message.id]),
        w.(jobs := w.jobs + [message.id], stdin := w.stdin + [message]));
  }

  lemma UnwrittenShape(q: Pool, k: nat, id: nat)
    requires k < |q.spawned| && id !in q.spawned[k].jobs
    ensures SettleJob(Listed(q, k, id), k, id, Rejected(WriteFailed)) == MaybeRecycle(Unwritten(q, k, id), k)
  {
    var w, r := q.spawned[k], Listed(q, k, id);
    WithoutAbsent(w.jobs, id);
    assert id in r.spawned[k].jobs;
    SetTwice(q.spawned, k, r.spawned[k], w.(completedJobs := w.completedJobs + 1));
    assert Settled(r, k, id, Rejected(WriteFailed)) == Unwritten(q, k, id);
  }

  lemma SubmitKeepsPoolOk(p: Pool, provider: string, message: Inbound, aborted: bool, spawnFails: bool,
      writeFails: bool)
    requires PoolOk(p) && !message.Cancel? && message.id !in p.home && message.id !in SettledIds(p.settlements)
    ensures PoolOk(Submit(p, provider, message, aborted, spawnFails, writeFails))
    ensures |p.spawned| <= |Submit(p, provider, message, aborted, spawnFails, writeFails).spawned|
  {
    if aborted {
      RefuseKeepsPoolOk(p, message.id, Cancelled);
    } else if !HasWorker(p, provider) && spawnFails {
      RefuseKeepsPoolOk(p, message.id, SpawnFailed);
    } else {
      var q := EnsureWorker(p, provider);
      var k := q.workers[provider];
      EnsureKeepsPoolOk(p, provider);
      assert WorkerOk(q, k);
      WrittenShape(q, k, message);
      UnwrittenShape(q, k, message.id);
      if writeFails {
        UnwrittenKeepsPoolOk(q, k, message.id);
        RecycleKeepsPoolOk(Unwritten(q, k, message.id), k);
      } else {
        AcceptedKeepsPoolOk(q, k, message);
      }
    }
  }

  lemma SeeExitKeepsPoolOk(p: Pool, k: nat)
    requires PoolOk(p) && k < |p.spawned|
    ensures PoolOk(SeeExit(p, k))
  {
    var w := p.spawned[k].(exitSeen := true);
    assert WorkerOk(p, k);
    ForgetKeepsRegistry(p, k);
    RegistryAfter(p, k, w);
    RecordKeepsWorkers(p, k, w);
  }

  lemma {:induction false} RejectAllKeepsPoolOk(p: Pool, k: nat, ids: seq<nat>)
    requires PoolOk(p) && k < |p.spawned|
    ensures PoolOk(RejectAll(p, k, ids))
    decreases |ids|
  {
    if ids != [] {
      SettleKeepsPoolOk(p, k, ids[0], Rejected(WorkerDied));
      RejectAllKeepsPoolOk(SettleJob(p, k, ids[0], Rejected(WorkerDied)), k, ids[1..]);
    }
  }

  lemma StopKeepsPoolOk(p: Pool)
    requires PoolOk(p)
    ensures PoolOk(Stop(p))
  {
    var q := Stop(p);
    forall j | 0 <= j < |q.spawned| ensures WorkerOk(q, j) { assert WorkerOk(p, j); }
  }
}
