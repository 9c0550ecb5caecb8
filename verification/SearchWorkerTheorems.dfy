/** The protocol's guarantees, for every interleaving of the pool, its workers and their pipes. */
module SearchWorkerTheorems {
  import opened Common
  import opened Wrappers
  import opened SearchWorkerProtocol
  import opened SearchWorkerSafety
  import opened SearchWorkerSystem

  ghost predicate HeldOnlyAtHome(p: Pool) {
    forall k, id :: 0 <= k < |p.spawned| && id in p.spawned[k].jobs ==> id in p.home && p.home[id] == k
  }

  lemma JobsAreHeldAtHome(p: Pool)
    requires PoolOk(p)
    ensures HeldOnlyAtHome(p)
  {
    forall k, id | 0 <= k < |p.spawned| && id in p.spawned[k].jobs ensures id in p.home && p.home[id] == k {
      assert WorkerOk(p, k);
    }
  }

  /** A settlement by an answer used an answer with the job's own id, read from the job's own worker. */
  lemma AnswersSettleTheirOwnJob(maxJobs: nat, events: seq<Event>, t: Settlement)
    requires Possible(Started(maxJobs), events) && t in Run(Started(maxJobs), events).pool.settlements
    ensures Attributed(Run(Started(maxJobs), events).pool, Run(Started(maxJobs), events).procs, t)
  {
    EveryRunKeepsSys(maxJobs, events);
  }

  // ---- Settlements last ----

  lemma {:induction false} RejectAllAppends(p: Pool, k: nat, ids: seq<nat>)
    requires k < |p.spawned|
    ensures p.settlements <= RejectAll(p, k, ids).settlements
    decreases |ids|
  {
    if ids != [] {
      SettleFollows(p, k, ids[0], Rejected(WorkerDied));
      RejectAllAppends(SettleJob(p, k, ids[0], Rejected(WorkerDied)), k, ids[1..]);
    }
  }

  lemma SettleAppends(p: Pool, k: nat, id: nat, outcome: Outcome)
    requires k < |p.spawned|
    ensures p.settlements <= SettleJob(p, k, id, outcome).settlements
  {
    SettleFollows(p, k, id, outcome);
  }

  lemma SubmitAppends(p: Pool, provider: string, message: Inbound, aborted: bool, spawnFails: bool, writeFails: bool)
    ensures p.settlements <= Submit(p, provider, message, aborted, spawnFails, writeFails).settlements
  {
    if !aborted && (HasWorker(p, provider) || !spawnFails) {
      var q := EnsureWorker(p, provider);
      SubmitIsHandOver(p, provider, message, writeFails);
      SettleAppends(Listed(q, q.workers[provider], message.id), q.workers[provider], message.id, Rejected(WriteFailed));
    }
  }

  lemma StepAppends(s: Sys, e: Event)
    requires Matched(s) && Enabled(s, e)
    ensures s.pool.settlements <= Step(s, e).pool.settlements
  {
    match e
    case Submits(provider, message, aborted, spawnFails, writeFails) =>
      SubmitAppends(s.pool, provider, message, aborted, spawnFails, writeFails);
    case Cancels(k, id, reason, writeFails) =>
      SettleAppends(s.pool, k, id, Rejected(reason));
      SettleAppends(Write(s.pool, k, Cancel(id)), k, id, Rejected(reason));
    case PoolReads(k) => ReadShape(s.pool, k, s.procs[k].stdout[s.pool.spawned[k].delivered]);
    case PoolRejects(k) => RejectAllAppends(s.pool, k, s.pool.spawned[k].jobs);
    case _ =>
  }

  lemma {:induction false} RunAppends(s: Sys, events: seq<Event>)
    requires SysOk(s) && Possible(s, events)
    ensures SysOk(Run(s, events)) && s.pool.settlements <= Run(s, events).pool.settlements
    decreases |events|
  {
    if events != [] {
      StepKeepsSys(s, events[0]);
      StepAppends(s, events[0]);
      RunAppends(Step(s, events[0]), events[1..]);
    }
  }

  lemma {:induction false} SettledStays(xs: seq<Settlement>, ys: seq<Settlement>)
    requires xs <= ys
    ensures forall id :: id in SettledIds(xs) ==> id in SettledIds(ys)
    decreases |ys|
  {
    if xs != ys {
      assert xs <= ys[..|ys| - 1];
      SettledStays(xs, ys[..|ys| - 1]);
    }
  }

  /** Once a job is settled, cancelled or not, no later answer with its id changes anything but the
      reading position: a stale answer is dropped. */
  lemma StaleAnswerIsDropped(s: Sys, events: seq<Event>, id: nat, k: nat)
    requires SysOk(s) && id in SettledIds(s.pool.settlements) && Possible(s, events)
    requires var t := Run(s, events);
      k < |t.procs| && t.pool.spawned[k].delivered < |t.procs[k].stdout|
          && t.procs[k].stdout[t.pool.spawned[k].delivered].id == id
    ensures var t := Run(s, events); var w := t.pool.spawned[k];
      Enabled(t, PoolReads(k))
          && Step(t, PoolReads(k)) == t.(pool := SetWorker(t.pool, k, w.(delivered := w.delivered + 1)))
  {
    RunAppends(s, events);
    var t := Run(s, events);
    SettledStays(s.pool.settlements, t.pool.settlements);
    assert WorkerOk(t.pool, k);
    if id in t.pool.spawned[k].jobs { SettledHaveNoJob(t.pool, k, id); }
  }

  // ---- Recycled and dead workers ----

  /** A recycled worker holds no unsettled job, and nothing ever sent to it is unsettled. */
  lemma RecycledHoldsNothing(maxJobs: nat, events: seq<Event>, k: nat)
    requires Possible(Started(maxJobs), events)
    requires var s := Run(Started(maxJobs), events); k < |s.pool.spawned| && s.pool.spawned[k].recycled
    ensures var s := Run(Started(maxJobs), events);
      && s.pool.spawned[k].jobs == [] && s.pool.spawned[k].stdinEnded && k !in s.pool.workers.Values
      && forall id :: id in StartIds(s.pool.spawned[k].stdin) ==> id in SettledIds(s.pool.settlements)
  {
    EveryRunKeepsSys(maxJobs, events);
    var s := Run(Started(maxJobs), events);
    assert WorkerOk(s.pool, k);
    forall provider | provider in s.pool.workers ensures s.pool.workers[provider] != k {}
  }

  /** A worker that was retired or whose exit was seen gets no further job. */
  ghost predicate Gone(w: PooledWorker) { w.retiring || w.exitSeen }

  lemma SettleOnlyTakes(p: Pool, k: nat, id: nat, outcome: Outcome, j: nat)
    requires k < |p.spawned| && j < |p.spawned|
    ensures var v, w := p.spawned[j], SettleJob(p, k, id, outcome).spawned[j];
      (forall x :: x in w.jobs ==> x in v.jobs) && (Gone(v) ==> Gone(w))
  {
    WithoutRemoves(p.spawned[k].jobs, id);
  }

  lemma {:induction false} RejectAllOnlyTakes(p: Pool, k: nat, ids: seq<nat>, j: nat)
    requires k < |p.spawned| && j < |p.spawned|
    ensures var v, w := p.spawned[j], RejectAll(p, k, ids).spawned[j];
      (forall x :: x in w.jobs ==> x in v.jobs) && (Gone(v) ==> Gone(w))
    decreases |ids|
  {
    if ids != [] {
      SettleOnlyTakes(p, k, ids[0], Rejected(WorkerDied), j);
      RejectAllOnlyTakes(SettleJob(p, k, ids[0], Rejected(WorkerDied)), k, ids[1..], j);
    }
  }

  lemma SubmitSparesTheGone(s: Sys, provider: string, message: Inbound, aborted: bool, spawnFails: bool,
      writeFails: bool, j: nat)
    requires SysOk(s) && j < |s.pool.spawned| && Gone(s.pool.spawned[j])
    ensures var p := Submit(s.pool, provider, message, aborted, spawnFails, writeFails);
      && j < |p.spawned| && Gone(p.spawned[j]) && forall x :: x in p.spawned[j].jobs ==> x in s.pool.spawned[j].jobs
  {
    if !aborted && (HasWorker(s.pool, provider) || !spawnFails) {
      var q := EnsureWorker(s.pool, provider);
      var k := q.workers[provider];
      EnsureKeepsPoolOk(s.pool, provider);
      assert k != j;
      SubmitIsHandOver(s.pool, provider, message, writeFails);
      SettleOnlyTakes(Listed(q, k, message.id), k, message.id, Rejected(WriteFailed), j);
    }
  }

  lemma CancelSparesTheGone(p: Pool, k: nat, id: nat, reason: Reason, writeFails: bool, j: nat)
    requires k < |p.spawned| && j < |p.spawned| && Gone(p.spawned[j])
    ensures var q := CancelJob(p, k, id, reason, writeFails);
      Gone(q.spawned[j]) && forall x :: x in q.spawned[j].jobs ==> x in p.spawned[j].jobs
  {
    SettleOnlyTakes(p, k, id, Rejected(reason), j);
    SettleOnlyTakes(Write(p, k, Cancel(id)), k, id, Rejected(reason), j);
  }

  lemma ReadSparesTheGone(p: Pool, k: nat, reply: Reply, j: nat)
    requires k < |p.spawned| && j < |p.spawned| && Gone(p.spawned[j])
    ensures var q := ReadReply(p, k, reply);
      Gone(q.spawned[j]) && forall x :: x in q.spawned[j].jobs ==> x in p.spawned[j].jobs
  {
    SettleOnlyTakes(SetWorker(p, k, p.spawned[k].(delivered := p.spawned[k].delivered + 1)), k, reply.id,
        AnswerOutcome(reply), j);
  }

  lemma StepSparesTheGone(s: Sys, e: Event, j: nat)
    requires SysOk(s) && Enabled(s, e) && j < |s.pool.spawned| && Gone(s.pool.spawned[j])
    ensures var t := Step(s, e);
      && j < |t.pool.spawned| && Gone(t.pool.spawned[j])
      && forall x :: x in t.pool.spawned[j].jobs ==> x in s.pool.spawned[j].jobs
  {
    match e
    case Submits(provider, message, aborted, spawnFails, writeFails) =>
      SubmitSparesTheGone(s, provider, message, aborted, spawnFails, writeFails, j);
    case Cancels(k, id, reason, writeFails) => CancelSparesTheGone(s.pool, k, id, reason, writeFails, j);
    case PoolReads(k) => ReadSparesTheGone(s.pool, k, s.procs[k].stdout[s.pool.spawned[k].delivered], j);
    case PoolRejects(k) => RejectAllOnlyTakes(s.pool, k, s.pool.spawned[k].jobs, j);
    case _ =>
  }

  lemma {:induction false} RunSparesTheGone(s: Sys, events: seq<Event>, j: nat)
    requires SysOk(s) && Possible(s, events) && j < |s.pool.spawned| && Gone(s.pool.spawned[j])
    ensures var t := Run(s, events);
      && j < |t.pool.spawned| && Gone(t.pool.spawned[j])
      && forall x :: x in t.pool.spawned[j].jobs ==> x in s.pool.spawned[j].jobs
    decreases |events|
  {
    if events != [] {
      StepKeepsSys(s, events[0]);
      StepSparesTheGone(s, events[0], j);
      RunSparesTheGone(Step(s, events[0]), events[1..], j);
    }
  }

  lemma FirstIsListed(ids: seq<nat>)
    ensures ids != [] ==> exists id :: id in ids
  {
    if ids != [] { assert ids[0] in ids; }
  }

  /** Once a dead worker's output is read to the end, every job it still holds is rejected, and it
      never holds one again. */
  lemma DeadWorkerKeepsNoJob(s: Sys, k: nat, events: seq<Event>)
    requires SysOk(s) && Enabled(s, PoolRejects(k)) && Possible(Step(s, PoolRejects(k)), events)
    ensures var t := Step(s, PoolRejects(k));
      && t.pool.spawned[k].jobs == []
      && (forall id :: id in s.pool.spawned[k].jobs ==> id in SettledIds(t.pool.settlements))
      && (forall x :: x in t.pool.settlements ==>
            x in s.pool.settlements || (x.worker == Some(k) && x.outcome == Rejected(WorkerDied)))
      && k < |Run(t, events).pool.spawned| && Run(t, events).pool.spawned[k].jobs == []
  {
    var jobs := s.pool.spawned[k].jobs;
    var t := Step(s, PoolRejects(k));
    RejectAllFollows(s.pool, k, jobs);
    StepKeepsSys(s, PoolRejects(k));
    FirstIsListed(t.pool.spawned[k].jobs);
    assert WorkerOk(s.pool, k);
    RejectAllOnlyTakes(s.pool, k, jobs, k);
    RunSparesTheGone(t, events, k);
    FirstIsListed(Run(t, events).pool.spawned[k].jobs);
  }

  // ---- No answer is lost ----

  lemma {:induction false} StartsSplit(messages: seq<Inbound>, n: nat)
    requires n <= |messages|
    ensures StartIds(messages) == StartIds(messages[..n]) + StartIds(messages[n..])
  {
    if n == |messages| {
      assert messages[..n] == messages;
    } else {
      var front, last := messages[..|messages| - 1], messages[|messages| - 1];
      StartsSplit(front, n);
      assert front[..n] == messages[..n] && messages[n..] == front[n..] + [last];
      StartIdsAppend(front[n..], last);
    }
  }

  lemma {:induction false} AnswersSplit(replies: seq<Reply>, n: nat)
    requires n <= |replies|
    ensures AnswerIds(replies) == AnswerIds(replies[..n]) + AnswerIds(replies[n..])
  {
    if n == |replies| {
      assert replies[..n] == replies;
    } else {
      var front, last := replies[..|replies| - 1], replies[|replies| - 1];
      AnswersSplit(front, n);
      assert front[..n] == replies[..n] && replies[n..] == front[n..] + [last];
      AnswerIdsAppend(front[n..], last);
    }
  }

  /** As long as a worker is not stopping, each of its unsettled jobs has its answer on the way: its
      line is still in the worker's input, the worker is working on it, or its answer is in the
      worker's output, unread. */
  lemma AnswerIsOnTheWay(maxJobs: nat, events: seq<Event>, k: nat, id: nat)
    requires Possible(Started(maxJobs), events)
    requires var s := Run(Started(maxJobs), events);
      k < |s.procs| && id in s.pool.spawned[k].jobs && !s.procs[k].stopping
    ensures var s := Run(Started(maxJobs), events); var w, x := s.pool.spawned[k], s.procs[k];
      && x.consumed <= |w.stdin| && w.delivered <= |x.stdout|
      && (id in StartIds(w.stdin[x.consumed..]) || id in x.runningJobs || id in x.prewarming
          || id in AnswerIds(x.stdout[w.delivered..]))
  {
    EveryRunKeepsSys(maxJobs, events);
    var s := Run(Started(maxJobs), events);
    var w, x := s.pool.spawned[k], s.procs[k];
    assert WorkerOk(s.pool, k) && PairOk(w, x);
    StartsSplit(w.stdin, x.consumed);
    AnswersSplit(x.stdout, w.delivered);
  }

  /** A worker that exits on its own has taken everything it was sent and answered all of it; once its
      output is read, none of its jobs is left to be rejected for its death. */
  lemma OwnExitLeavesNoJob(maxJobs: nat, events: seq<Event>, k: nat)
    requires Possible(Started(maxJobs), events)
    requires var s := Run(Started(maxJobs), events); k < |s.procs| && s.procs[k].exit == Some(OnItsOwn)
    ensures var s := Run(Started(maxJobs), events); var w, x := s.pool.spawned[k], s.procs[k];
      && (forall id :: id in StartIds(w.stdin) ==> id in AnswerIds(x.stdout)) && Distinct(AnswerIds(x.stdout))
      && (w.delivered == |x.stdout| ==> w.jobs == [])
  {
    EveryRunKeepsSys(maxJobs, events);
    var s := Run(Started(maxJobs), events);
    var w, x := s.pool.spawned[k], s.procs[k];
    assert WorkerOk(s.pool, k) && PairOk(w, x);
    assert w.stdin[..x.consumed] == w.stdin;
    assert x.runningJobs.Keys == {} && x.prewarming == {};
    if w.delivered == |x.stdout| {
      assert x.stdout[..w.delivered] == x.stdout;
      FirstIsListed(w.jobs);
    }
  }
}
