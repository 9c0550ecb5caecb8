/**
 What each event of the protocol does, in terms of lines, jobs and settlements alone: where a submission
 goes, what a cancel tells the worker and what the worker makes of it, what an answer settles, when a
 worker is recycled, and how one that is signalled stops.
 */
module SearchWorkerPromises {
  import opened Common
  import opened Wrappers
  import opened SearchWorkerProtocol
  import opened SearchWorkerSafety
  import opened SearchWorkerSystem
  import opened SearchWorkerTheorems

  // ---- The lines a worker is sent ----

  /** A record that got one line at most, and a cancel only for a job it held. */
  ghost predicate LineAdded(v: PooledWorker, w: PooledWorker) {
    w.stdin == v.stdin
    || exists m :: w.stdin == v.stdin + [m] && (m.Cancel? ==> m.id in v.jobs)
  }

  ghost predicate LinesAdded(p: Pool, q: Pool) {
    |p.spawned| <= |q.spawned| && forall k :: 0 <= k < |p.spawned| ==> LineAdded(p.spawned[k], q.spawned[k])
  }

  ghost predicate NewOnesSilent(p: Pool, q: Pool) {
    forall k :: |p.spawned| <= k < |q.spawned| ==>
      q.spawned[k].stdin == [] || exists m :: q.spawned[k].stdin == [m] && !m.Cancel?
  }

  lemma CancelAddsLine(p: Pool, k: nat, id: nat, reason: Reason, writeFails: bool)
    requires k < |p.spawned|
    ensures LinesAdded(p, CancelJob(p, k, id, reason, writeFails))
  {
    var told := Write(p, k, Cancel(id));
    if id in p.spawned[k].jobs {
      assert told.spawned[k].stdin == p.spawned[k].stdin + [Cancel(id)];
      SettleFollows(p, k, id, Rejected(reason));
      SettleFollows(told, k, id, Rejected(reason));
    }
  }

  lemma HandOverAddsLine(q: Pool, k: nat, message: Inbound, writeFails: bool)
    requires k < |q.spawned| && !message.Cancel? && message.id !in q.spawned[k].jobs
    ensures var r := HandOver(q, k, message, writeFails);
      && |r.spawned| == |q.spawned|
      && (forall j :: 0 <= j < |q.spawned| && j != k ==> r.spawned[j].stdin == q.spawned[j].stdin)
      && (r.spawned[k].stdin == q.spawned[k].stdin || r.spawned[k].stdin == q.spawned[k].stdin + [message])
  {
    UnwrittenShape(q, k, message.id);
    RecycleFollows(Unwritten(q, k, message.id), k);
  }

  lemma SubmitAddsLine(p: Pool, provider: string, message: Inbound, aborted: bool, spawnFails: bool, writeFails: bool)
    requires PoolOk(p) && !message.Cancel? && message.id !in p.home
    ensures var q := Submit(p, provider, message, aborted, spawnFails, writeFails);
      LinesAdded(p, q) && NewOnesSilent(p, q)
  {
    if !aborted && (HasWorker(p, provider) || !spawnFails) {
      var q := EnsureWorker(p, provider);
      var k := q.workers[provider];
      EnsureKeepsPoolOk(p, provider);
      assert WorkerOk(q, k);
      SubmitIsHandOver(p, provider, message, writeFails);
      HandOverAddsLine(q, k, message, writeFails);
      var r := HandOver(q, k, message, writeFails);
      if k >= |p.spawned| && r.spawned[k].stdin != [] { assert r.spawned[k].stdin == [] + [message] == [message]; }
    }
  }

  lemma PoolEventAddsLines(s: Sys, e: Event)
    requires SysOk(s) && Enabled(s, e) && !OfWorker(e)
    ensures LinesAdded(s.pool, Step(s, e).pool) && NewOnesSilent(s.pool, Step(s, e).pool)
  {
    match e
    case Submits(provider, message, aborted, spawnFails, writeFails) =>
      SubmitAddsLine(s.pool, provider, message, aborted, spawnFails, writeFails);
    case Cancels(k, id, reason, writeFails) => CancelAddsLine(s.pool, k, id, reason, writeFails);
    case PoolReads(k) => ReadShape(s.pool, k, s.procs[k].stdout[s.pool.spawned[k].delivered]);
    case PoolRejects(k) => RejectAllFollows(s.pool, k, s.pool.spawned[k].jobs);
    case _ =>
  }

  // ---- What a worker makes of them ----

  ghost predicate CancelFollows(stdin: seq<Inbound>, n: nat) {
    n < |stdin| && stdin[n].Cancel? ==> stdin[n].id in StartIds(stdin[..n])
  }

  /** A cancel comes after the line of the job it cancels. */
  ghost predicate CancelsFollow(stdin: seq<Inbound>) {
    forall n: nat :: CancelFollows(stdin, n)
  }

  ghost predicate CancelHeard(stdin: seq<Inbound>, x: Proc, n: nat) {
    n < x.consumed && n < |stdin| && stdin[n].Cancel? && stdin[n].id in x.runningJobs ==> x.runningJobs[stdin[n].id]
  }

  ghost predicate CancelsHeard(stdin: seq<Inbound>, x: Proc) {
    forall n: nat :: CancelHeard(stdin, x, n)
  }

  ghost predicate AbortsExplained(stdin: seq<Inbound>, x: Proc) {
    && x.consumed <= |stdin|
    && forall id :: id in x.runningJobs && x.runningJobs[id] ==> x.stopping || Cancel(id) in stdin[..x.consumed]
  }

  ghost predicate WorkWasAsked(stdin: seq<Inbound>, x: Proc) {
    && x.consumed <= |stdin|
    && (forall id :: id in x.runningJobs ==> Request(id) in stdin[..x.consumed])
    && (forall id :: id in x.prewarming ==> Prewarm(id) in stdin[..x.consumed])
  }

  /** A job whose cancel was read is aborted, if it still runs; no job is aborted but for its cancel or
      because the worker is stopping; and a worker runs requests it read, and prewarms what it was asked to. */
  ghost predicate Heard(stdin: seq<Inbound>, x: Proc) {
    CancelsHeard(stdin, x) && AbortsExplained(stdin, x) && WorkWasAsked(stdin, x)
  }

  ghost predicate AllHeard(s: Sys) {
    Matched(s) && forall k :: 0 <= k < |s.procs| ==>
      CancelsFollow(s.pool.spawned[k].stdin) && Heard(s.pool.spawned[k].stdin, s.procs[k])
  }

  lemma CancelsFollowAfter(stdin: seq<Inbound>, m: Inbound)
    requires CancelsFollow(stdin) && (m.Cancel? ==> m.id in StartIds(stdin))
    ensures CancelsFollow(stdin + [m])
  {
    forall n: nat ensures CancelFollows(stdin + [m], n) {
      assert CancelFollows(stdin, n);
      if n <= |stdin| { assert (stdin + [m])[..n] == stdin[..n]; }
      assert stdin[..|stdin|] == stdin;
    }
  }

  lemma HeardAfterLine(stdin: seq<Inbound>, more: seq<Inbound>, x: Proc)
    requires Heard(stdin, x) && stdin <= more
    ensures Heard(more, x)
  {
    assert more[..x.consumed] == stdin[..x.consumed];
    forall n: nat ensures CancelHeard(more, x, n) { assert CancelHeard(stdin, x, n); }
  }

  lemma {:induction false} StartsGrow(messages: seq<Inbound>, n: nat, m: nat, id: nat)
    requires n <= m <= |messages| && id in StartIds(messages[..n])
    ensures id in StartIds(messages[..m])
    decreases m - n
  {
    if n < m {
      assert messages[..n + 1] == messages[..n] + [messages[n]];
      StartIdsAppend(messages[..n], messages[n]);
      StartsGrow(messages, n + 1, m, id);
    }
  }

  lemma {:induction false} StartIsNew(stdin: seq<Inbound>, at: nat)
    requires Distinct(StartIds(stdin)) && at < |stdin| && !stdin[at].Cancel?
    ensures stdin[at].id !in StartIds(stdin[..at])
  {
    var front, last := stdin[..|stdin| - 1], stdin[|stdin| - 1];
    if !last.Cancel? { DistinctAppend(StartIds(front), last.id); }
    if at < |front| {
      StartIsNew(front, at);
      assert front[..at] == stdin[..at];
    }
  }

  ghost predicate CancelsAnother(stdin: seq<Inbound>, n: nat, at: nat) {
    n < at < |stdin| && stdin[n].Cancel? && !stdin[at].Cancel? ==> stdin[n].id != stdin[at].id
  }

  /** A job that starts now had no cancel yet. */
  lemma NoCancelBeforeTheStart(stdin: seq<Inbound>, at: nat, n: nat)
    requires CancelFollows(stdin, n) && Distinct(StartIds(stdin))
    ensures CancelsAnother(stdin, n, at)
  {
    if n < at < |stdin| && stdin[n].Cancel? && !stdin[at].Cancel? {
      StartIsNew(stdin, at);
      StartsGrow(stdin, n, at, stdin[n].id);
    }
  }

  lemma CancelStaysHeard(stdin: seq<Inbound>, x: Proc, n: nat)
    requires CancelsAnother(stdin, n, x.consumed) && CancelHeard(stdin, x, n) && x.consumed < |stdin|
    ensures CancelHeard(stdin, ReadInbound(x, stdin[x.consumed]), n)
  {
  }

  lemma ReadIsExplained(stdin: seq<Inbound>, x: Proc)
    requires AbortsExplained(stdin, x) && x.consumed < |stdin|
    ensures AbortsExplained(stdin, ReadInbound(x, stdin[x.consumed]))
  {
    assert stdin[..x.consumed + 1] == stdin[..x.consumed] + [stdin[x.consumed]];
  }

  lemma ReadWasAsked(stdin: seq<Inbound>, x: Proc)
    requires WorkWasAsked(stdin, x) && x.consumed < |stdin|
    ensures WorkWasAsked(stdin, ReadInbound(x, stdin[x.consumed]))
  {
    assert stdin[..x.consumed + 1] == stdin[..x.consumed] + [stdin[x.consumed]];
  }

  lemma ReadHearsCancels(stdin: seq<Inbound>, x: Proc)
    requires CancelsFollow(stdin) && Distinct(StartIds(stdin)) && CancelsHeard(stdin, x) && x.consumed < |stdin|
    ensures CancelsHeard(stdin, ReadInbound(x, stdin[x.consumed]))
  {
    forall n: nat ensures CancelHeard(stdin, ReadInbound(x, stdin[x.consumed]), n) {
      assert CancelHeard(stdin, x, n) && CancelFollows(stdin, n);
      NoCancelBeforeTheStart(stdin, x.consumed, n);
      CancelStaysHeard(stdin, x, n);
    }
  }

  lemma ReadIsHeard(stdin: seq<Inbound>, x: Proc)
    requires CancelsFollow(stdin) && Distinct(StartIds(stdin)) && Heard(stdin, x) && x.consumed < |stdin|
    ensures Heard(stdin, ReadInbound(x, stdin[x.consumed]))
  {
    ReadHearsCancels(stdin, x);
    ReadIsExplained(stdin, x);
    ReadWasAsked(stdin, x);
  }

  lemma OtherEventIsHeard(stdin: seq<Inbound>, x: Proc, y: Proc)
    requires Heard(stdin, x) && y.consumed == x.consumed && (x.stopping ==> y.stopping)
    requires y.prewarming <= x.prewarming
    requires forall id :: id in y.runningJobs ==>
      && id in x.runningJobs && (x.runningJobs[id] ==> y.runningJobs[id])
      && (y.runningJobs[id] ==> x.runningJobs[id] || y.stopping)
    ensures Heard(stdin, y)
  {
    forall n: nat ensures CancelHeard(stdin, y, n) { assert CancelHeard(stdin, x, n); }
  }

  lemma OwnEventIsHeard(stdin: seq<Inbound>, x: Proc, e: Event)
    requires CancelsFollow(stdin) && Distinct(StartIds(stdin)) && Heard(stdin, x) && OfWorker(e)
    requires e.WorkerReads? ==> x.consumed < |stdin|
    ensures Heard(stdin, ProcStep(x, stdin, e))
  {
    if e.WorkerReads? {
      ReadIsHeard(stdin, x);
    } else {
      OtherEventIsHeard(stdin, x, ProcStep(x, stdin, e));
    }
  }

  lemma PoolEventIsHeard(s: Sys, e: Event, k: nat)
    requires SysOk(s) && AllHeard(s) && Enabled(s, e) && !OfWorker(e)
    requires SysOk(Step(s, e)) && k < |Step(s, e).procs|
    ensures CancelsFollow(Step(s, e).pool.spawned[k].stdin)
    ensures Heard(Step(s, e).pool.spawned[k].stdin, Step(s, e).procs[k])
  {
    var t := Step(s, e);
    PoolEventAddsLines(s, e);
    ProcAfter(s, e, k);
    if k < |s.procs| {
      assert WorkerOk(s.pool, k);
      LineIsHeard(s.pool.spawned[k], t.pool.spawned[k], s.procs[k]);
    }
  }

  lemma LineIsHeard(v: PooledWorker, w: PooledWorker, x: Proc)
    requires LineAdded(v, w) && CancelsFollow(v.stdin) && Heard(v.stdin, x)
    requires forall id :: id in v.jobs ==> id in StartIds(v.stdin)
    ensures CancelsFollow(w.stdin) && Heard(w.stdin, x)
  {
    if w.stdin != v.stdin {
      var m :| w.stdin == v.stdin + [m] && (m.Cancel? ==> m.id in v.jobs);
      CancelsFollowAfter(v.stdin, m);
    }
    HeardAfterLine(v.stdin, w.stdin, x);
  }

  lemma OwnStepIsHeardAt(s: Sys, e: Event, k: nat)
    requires PoolOk(s.pool) && AllHeard(s) && Enabled(s, e) && OfWorker(e) && k < |s.procs|
    ensures k < |Step(s, e).procs| && Heard(s.pool.spawned[k].stdin, Step(s, e).procs[k])
  {
    ProcsRemain(s, e);
    ProcAfter(s, e, k);
    if k == e.k {
      assert WorkerOk(s.pool, k);
      OwnEventIsHeard(s.pool.spawned[k].stdin, s.procs[k], e);
    }
  }

  lemma OwnStepKeepsPool(s: Sys, e: Event)
    requires Matched(s) && Enabled(s, e) && OfWorker(e)
    ensures Step(s, e).pool == s.pool && |Step(s, e).procs| == |s.procs|
  {
  }

  lemma StepIsHeardAt(s: Sys, e: Event, k: nat)
    requires SysOk(s) && AllHeard(s) && Enabled(s, e) && SysOk(Step(s, e)) && k < |Step(s, e).procs|
    ensures CancelsFollow(Step(s, e).pool.spawned[k].stdin)
    ensures Heard(Step(s, e).pool.spawned[k].stdin, Step(s, e).procs[k])
  {
    if !OfWorker(e) {
      PoolEventIsHeard(s, e, k);
    } else {
      OwnStepKeepsPool(s, e);
      OwnStepIsHeardAt(s, e, k);
    }
  }

  lemma StepIsHeard(s: Sys, e: Event)
    requires SysOk(s) && AllHeard(s) && Enabled(s, e) && SysOk(Step(s, e))
    ensures AllHeard(Step(s, e))
  {
    forall k | 0 <= k < |Step(s, e).procs|
      ensures CancelsFollow(Step(s, e).pool.spawned[k].stdin)
      ensures Heard(Step(s, e).pool.spawned[k].stdin, Step(s, e).procs[k])
    {
      StepIsHeardAt(s, e, k);
    }
  }

  lemma {:induction false} RunIsHeard(s: Sys, events: seq<Event>)
    requires SysOk(s) && AllHeard(s) && Possible(s, events)
    ensures AllHeard(Run(s, events))
    decreases |events|
  {
    if events != [] {
      StepKeepsSys(s, events[0]);
      StepIsHeard(s, events[0]);
      RunIsHeard(Step(s, events[0]), events[1..]);
    }
  }

  /** In every run, a cancelled job's worker is told: as long as its input is open and takes the line, the
      cancel is the last line of it, and the job is rejected for the reason given. */
  lemma CancelTellsTheWorker(maxJobs: nat, events: seq<Event>, k: nat, id: nat, reason: Reason)
    requires Possible(Started(maxJobs), events)
    requires var s := Run(Started(maxJobs), events);
      && Enabled(s, Cancels(k, id, reason, false)) && id in s.pool.spawned[k].jobs && !s.pool.spawned[k].retiring
    ensures var s := Run(Started(maxJobs), events); var t := Step(s, Cancels(k, id, reason, false));
      && t.pool.spawned[k].stdin == s.pool.spawned[k].stdin + [Cancel(id)]
      && t.pool.settlements == s.pool.settlements + [Settlement(id, Some(k), Rejected(reason))]
      && id !in t.pool.spawned[k].jobs
  {
    var s := Run(Started(maxJobs), events);
    var told := Write(s.pool, k, Cancel(id));
    SettleFollows(told, k, id, Rejected(reason));
    SettleRemoves(told, k, id, Rejected(reason));
  }

  /** And a worker that has read a job's cancel has aborted it, or no longer runs it; it aborts no other
      job unless it is stopping. */
  lemma CancelledJobIsAborted(maxJobs: nat, events: seq<Event>, k: nat)
    requires Possible(Started(maxJobs), events) && k < |Run(Started(maxJobs), events).procs|
    ensures var s := Run(Started(maxJobs), events); var w, x := s.pool.spawned[k], s.procs[k];
      && x.consumed <= |w.stdin|
      && forall id :: id in x.runningJobs ==>
           && (Cancel(id) in w.stdin[..x.consumed] ==> x.runningJobs[id])
           && (x.runningJobs[id] ==> x.stopping || Cancel(id) in w.stdin[..x.consumed])
  {
    EveryRunKeepsSys(maxJobs, []);
    RunIsHeard(Started(maxJobs), events);
    var s := Run(Started(maxJobs), events);
    HeardMeansAborted(s.pool.spawned[k].stdin, s.procs[k]);
  }

  /** A worker runs only requests it was sent and has read, and prewarms only what it was asked to: a prewarm
      is no job to be aborted or waited for. */
  lemma WorksOnlyOnWhatItRead(maxJobs: nat, events: seq<Event>, k: nat)
    requires Possible(Started(maxJobs), events) && k < |Run(Started(maxJobs), events).procs|
    ensures var s := Run(Started(maxJobs), events); var w, x := s.pool.spawned[k], s.procs[k];
      && x.consumed <= |w.stdin|
      && (forall id :: id in x.runningJobs ==> Request(id) in w.stdin[..x.consumed])
      && (forall id :: id in x.prewarming ==> Prewarm(id) in w.stdin[..x.consumed])
  {
    EveryRunKeepsSys(maxJobs, []);
    RunIsHeard(Started(maxJobs), events);
  }

  /** A cancel that finds the worker's input closed or not taking the line writes nothing and rejects the job
      all the same; a cancel of a job settled before does nothing. */
  lemma CancelWithoutALine(maxJobs: nat, events: seq<Event>, k: nat, id: nat, reason: Reason, writeFails: bool)
    requires Possible(Started(maxJobs), events)
    requires Enabled(Run(Started(maxJobs), events), Cancels(k, id, reason, writeFails))
    ensures var s := Run(Started(maxJobs), events); var t := Step(s, Cancels(k, id, reason, writeFails));
      && (id !in s.pool.spawned[k].jobs ==> t == s)
      && (id in s.pool.spawned[k].jobs && (s.pool.spawned[k].stdinEnded || writeFails) ==>
            && t.pool.spawned[k].stdin == s.pool.spawned[k].stdin
            && t.pool.settlements == s.pool.settlements + [Settlement(id, Some(k), Rejected(reason))]
            && id !in t.pool.spawned[k].jobs)
  {
    EveryRunKeepsSys(maxJobs, events);
    var s := Run(Started(maxJobs), events);
    assert WorkerOk(s.pool, k);
    SettleFollows(s.pool, k, id, Rejected(reason));
    SettleRemoves(s.pool, k, id, Rejected(reason));
  }

  /** Nothing is written to a worker whose input was closed. */
  lemma ClosedInputGrowsNoMore(maxJobs: nat, events: seq<Event>, e: Event, k: nat)
    requires Possible(Started(maxJobs), events) && Enabled(Run(Started(maxJobs), events), e)
    requires var s := Run(Started(maxJobs), events); k < |s.pool.spawned| && s.pool.spawned[k].stdinEnded
    ensures var s := Run(Started(maxJobs), events); var t := Step(s, e);
      |s.pool.spawned| <= |t.pool.spawned| && t.pool.spawned[k].stdin == s.pool.spawned[k].stdin
  {
    EveryRunKeepsSys(maxJobs, events);
    StepLeavesClosed(Run(Started(maxJobs), events), e, k);
  }

  lemma StepLeavesClosed(s: Sys, e: Event, k: nat)
    requires SysOk(s) && Enabled(s, e) && k < |s.pool.spawned| && s.pool.spawned[k].stdinEnded
    ensures |s.pool.spawned| <= |Step(s, e).pool.spawned|
    ensures Step(s, e).pool.spawned[k].stdin == s.pool.spawned[k].stdin
  {
    assert WorkerOk(s.pool, k);
    match e
    case Submits(provider, message, aborted, spawnFails, writeFails) =>
      SubmitLeavesClosed(s.pool, provider, message, aborted, spawnFails, writeFails, k);
    case Cancels(j, id, reason, writeFails) => CancelLeavesClosed(s.pool, j, id, reason, writeFails, k);
    case PoolReads(j) => ReadShape(s.pool, j, s.procs[j].stdout[s.pool.spawned[j].delivered]);
    case PoolRejects(j) => RejectAllFollows(s.pool, j, s.pool.spawned[j].jobs);
    case _ =>
  }

  lemma SubmitLeavesClosed(p: Pool, provider: string, message: Inbound, aborted: bool, spawnFails: bool,
      writeFails: bool, k: nat)
    requires PoolOk(p) && !message.Cancel? && message.id !in p.home && k < |p.spawned| && p.spawned[k].retiring
    ensures var q := Submit(p, provider, message, aborted, spawnFails, writeFails);
      |p.spawned| <= |q.spawned| && q.spawned[k].stdin == p.spawned[k].stdin
  {
    if !aborted && (HasWorker(p, provider) || !spawnFails) {
      var q := EnsureWorker(p, provider);
      EnsureKeepsPoolOk(p, provider);
      assert WorkerOk(q, q.workers[provider]);
      SubmitIsHandOver(p, provider, message, writeFails);
      HandOverAddsLine(q, q.workers[provider], message, writeFails);
    }
  }

  lemma CancelLeavesClosed(p: Pool, j: nat, id: nat, reason: Reason, writeFails: bool, k: nat)
    requires j < |p.spawned| && k < |p.spawned| && p.spawned[k].retiring
    ensures CancelJob(p, j, id, reason, writeFails).spawned[k].stdin == p.spawned[k].stdin
  {
    var told := Write(p, j, Cancel(id));
    SettleFollows(p, j, id, Rejected(reason));
    SettleFollows(told, j, id, Rejected(reason));
  }

  lemma HeardMeansAborted(stdin: seq<Inbound>, x: Proc)
    requires Heard(stdin, x)
    ensures forall id :: id in x.runningJobs && Cancel(id) in stdin[..x.consumed] ==> x.runningJobs[id]
  {
    forall id | id in x.runningJobs && Cancel(id) in stdin[..x.consumed] ensures x.runningJobs[id] {
      var n: nat :| n < x.consumed && stdin[..x.consumed][n] == Cancel(id);
      assert stdin[n] == Cancel(id) && CancelHeard(stdin, x, n);
    }
  }

  // ---- One worker a provider ----

  ghost predicate Live(w: PooledWorker) {
    !w.retiring && !w.exitSeen
  }

  /** Whoever can still be given work is the registered worker of its provider, so there is one at most. */
  ghost predicate LiveAreRegistered(p: Pool) {
    forall k :: 0 <= k < |p.spawned| && Live(p.spawned[k]) ==>
      p.spawned[k].providerId in p.workers && p.workers[p.spawned[k].providerId] == k
  }

  lemma SettleKeepsRegistered(p: Pool, k: nat, id: nat, outcome: Outcome)
    requires LiveAreRegistered(p) && k < |p.spawned|
    ensures LiveAreRegistered(SettleJob(p, k, id, outcome))
  {
  }

  lemma {:induction false} RejectAllKeepsRegistered(p: Pool, k: nat, ids: seq<nat>)
    requires LiveAreRegistered(p) && k < |p.spawned|
    ensures LiveAreRegistered(RejectAll(p, k, ids))
    decreases |ids|
  {
    if ids != [] {
      SettleKeepsRegistered(p, k, ids[0], Rejected(WorkerDied));
      RejectAllKeepsRegistered(SettleJob(p, k, ids[0], Rejected(WorkerDied)), k, ids[1..]);
    }
  }

  lemma EnsureKeepsRegistered(p: Pool, provider: string)
    requires LiveAreRegistered(p) && RegistryOk(p)
    ensures LiveAreRegistered(EnsureWorker(p, provider))
  {
  }

  lemma SubmitKeepsRegistered(p: Pool, provider: string, message: Inbound, aborted: bool, spawnFails: bool,
      writeFails: bool)
    requires LiveAreRegistered(p) && RegistryOk(p)
    ensures LiveAreRegistered(Submit(p, provider, message, aborted, spawnFails, writeFails))
  {
    if !aborted && (HasWorker(p, provider) || !spawnFails) {
      var q := EnsureWorker(p, provider);
      EnsureKeepsRegistered(p, provider);
      SubmitIsHandOver(p, provider, message, writeFails);
      HandOverKeepsRegistered(q, q.workers[provider], message, writeFails);
    }
  }

  lemma HandOverKeepsRegistered(q: Pool, k: nat, message: Inbound, writeFails: bool)
    requires LiveAreRegistered(q) && k < |q.spawned|
    ensures LiveAreRegistered(HandOver(q, k, message, writeFails))
  {
    SettleKeepsRegistered(Listed(q, k, message.id), k, message.id, Rejected(WriteFailed));
  }

  lemma CancelKeepsRegistered(p: Pool, k: nat, id: nat, reason: Reason, writeFails: bool)
    requires LiveAreRegistered(p) && k < |p.spawned|
    ensures LiveAreRegistered(CancelJob(p, k, id, reason, writeFails))
  {
    SettleKeepsRegistered(p, k, id, Rejected(reason));
    SettleKeepsRegistered(Write(p, k, Cancel(id)), k, id, Rejected(reason));
  }

  lemma SeeExitKeepsRegistered(p: Pool, k: nat)
    requires LiveAreRegistered(p) && k < |p.spawned|
    ensures LiveAreRegistered(SeeExit(p, k))
  {
  }

  lemma StopKeepsRegistered(p: Pool)
    requires LiveAreRegistered(p)
    ensures LiveAreRegistered(Stop(p))
  {
    forall k | 0 <= k < |p.spawned| && Live(p.spawned[k]) ensures k in p.workers.Values {
      assert p.workers[p.spawned[k].providerId] in p.workers.Values;
    }
  }

  lemma StepKeepsRegistered(s: Sys, e: Event)
    requires PoolOk(s.pool) && Matched(s) && LiveAreRegistered(s.pool) && Enabled(s, e)
    ensures LiveAreRegistered(Step(s, e).pool)
  {
    match e
    case Submits(provider, message, aborted, spawnFails, writeFails) =>
      SubmitKeepsRegistered(s.pool, provider, message, aborted, spawnFails, writeFails);
    case Starts(provider) => EnsureKeepsRegistered(s.pool, provider);
    case Cancels(k, id, reason, writeFails) => CancelKeepsRegistered(s.pool, k, id, reason, writeFails);
    case PoolReads(k) => ReadKeepsRegistered(s.pool, k, s.procs[k].stdout[s.pool.spawned[k].delivered]);
    case PoolSeesExit(k) => SeeExitKeepsRegistered(s.pool, k);
    case PoolRejects(k) => RejectAllKeepsRegistered(s.pool, k, s.pool.spawned[k].jobs);
    case Stops => StopKeepsRegistered(s.pool);
    case _ =>
  }

  lemma ReadKeepsRegistered(p: Pool, k: nat, reply: Reply)
    requires LiveAreRegistered(p) && k < |p.spawned|
    ensures LiveAreRegistered(ReadReply(p, k, reply))
  {
    var q := SetWorker(p, k, p.spawned[k].(delivered := p.spawned[k].delivered + 1));
    SettleKeepsRegistered(q, k, reply.id, AnswerOutcome(reply));
  }

  lemma {:induction false} RunKeepsRegistered(s: Sys, events: seq<Event>)
    requires SysOk(s) && LiveAreRegistered(s.pool) && Possible(s, events)
    ensures LiveAreRegistered(Run(s, events).pool)
    decreases |events|
  {
    if events != [] {
      StepKeepsSys(s, events[0]);
      StepKeepsRegistered(s, events[0]);
      RunKeepsRegistered(Step(s, events[0]), events[1..]);
    }
  }

  /** In every run a provider has one worker at most that can be given work. */
  lemma OneLiveWorkerAProvider(maxJobs: nat, events: seq<Event>, j: nat, k: nat)
    requires Possible(Started(maxJobs), events)
    requires var p := Run(Started(maxJobs), events).pool;
      j < |p.spawned| && k < |p.spawned| && Live(p.spawned[j]) && Live(p.spawned[k])
      && p.spawned[j].providerId == p.spawned[k].providerId
    ensures j == k
  {
    EveryRunKeepsSys(maxJobs, []);
    RunKeepsRegistered(Started(maxJobs), events);
  }

  // ---- Where a submission goes ----

  ghost predicate HasLive(p: Pool, provider: string) {
    exists k :: 0 <= k < |p.spawned| && Live(p.spawned[k]) && p.spawned[k].providerId == provider
  }

  lemma LiveIsTheWorker(p: Pool, provider: string)
    requires RegistryOk(p) && LiveAreRegistered(p)
    ensures HasLive(p, provider) <==> HasWorker(p, provider)
  {
    if HasWorker(p, provider) { assert Live(p.spawned[p.workers[provider]]); }
  }

  /** A submission whose line went out: it is held by its provider's worker, the live one if there was
      one and else a new one, and its line is the last that worker was sent. */
  ghost predicate WentOut(p: Pool, q: Pool, provider: string, message: Inbound) {
    && message.id in q.home && q.home[message.id] < |q.spawned| && q.settlements == p.settlements
    && var k := q.home[message.id];
       && q.spawned[k].providerId == provider && Live(q.spawned[k])
       && (if HasLive(p, provider) then k < |p.spawned| && Live(p.spawned[k]) && |q.spawned| == |p.spawned|
           else k == |p.spawned| && |q.spawned| == |p.spawned| + 1)
       && q.spawned[k].stdin == (if k < |p.spawned| then p.spawned[k].stdin else []) + [message]
       && q.spawned[k].jobs == (if k < |p.spawned| then p.spawned[k].jobs else []) + [message.id]
  }

  /** What becomes of a submission, by what happened to it. */
  ghost predicate SubmittedAs(p: Pool, q: Pool, provider: string, message: Inbound, aborted: bool, spawnFails: bool,
      writeFails: bool)
  {
    if aborted then
      q.settlements == p.settlements + [Settlement(message.id, None, Rejected(Cancelled))] && q.spawned == p.spawned
    else if spawnFails && !HasLive(p, provider) then
      q.settlements == p.settlements + [Settlement(message.id, None, Rejected(SpawnFailed))] && q.spawned == p.spawned
    else if writeFails then
      && message.id in q.home && q.home[message.id] < |q.spawned|
      && q.spawned[q.home[message.id]].providerId == provider
      && q.settlements == p.settlements + [Settlement(message.id, Some(q.home[message.id]), Rejected(WriteFailed))]
    else WentOut(p, q, provider, message)
  }

  lemma WrittenAs(p: Pool, q: Pool, k: nat, provider: string, message: Inbound)
    requires k < |q.spawned| && q.spawned[k].providerId == provider && Live(q.spawned[k])
    requires if HasLive(p, provider) then q == p
             else q.spawned == p.spawned + [NewWorker(provider)] && k == |p.spawned|
    requires q.settlements == p.settlements
    ensures WentOut(p, Accepted(q, k, message), provider, message)
  {
    assert [] + [message] == [message] && [] + [message.id] == [message.id];
  }

  lemma RejectedAs(p: Pool, q: Pool, k: nat, provider: string, message: Inbound)
    requires k < |q.spawned| && q.spawned[k].providerId == provider && q.settlements == p.settlements
    ensures SubmittedAs(p, MaybeRecycle(Unwritten(q, k, message.id), k), provider, message, false, false, true)
  {
    RecycleFollows(Unwritten(q, k, message.id), k);
  }

  lemma HandedOverAs(p: Pool, provider: string, message: Inbound, writeFails: bool)
    requires PoolOk(p) && LiveAreRegistered(p) && message.id !in p.home && !message.Cancel?
    ensures var q := EnsureWorker(p, provider);
      SubmittedAs(p, HandOver(q, q.workers[provider], message, writeFails), provider, message, false, false, writeFails)
  {
    var q := EnsureWorker(p, provider);
    var k := q.workers[provider];
    LiveIsTheWorker(p, provider);
    EnsureKeepsPoolOk(p, provider);
    assert WorkerOk(q, k);
    if writeFails {
      UnwrittenShape(q, k, message.id);
      RejectedAs(p, q, k, provider, message);
    } else {
      WrittenShape(q, k, message);
      WrittenAs(p, q, k, provider, message);
    }
  }

  /** In every run, every submission is refused, goes out, or is rejected at once, exactly as the caller's
      abort, a failed start or a failed write would have it. */
  lemma SubmissionsGoOut(maxJobs: nat, events: seq<Event>, provider: string, message: Inbound, aborted: bool,
      spawnFails: bool, writeFails: bool)
    requires Possible(Started(maxJobs), events)
    requires Enabled(Run(Started(maxJobs), events), Submits(provider, message, aborted, spawnFails, writeFails))
    ensures var s := Run(Started(maxJobs), events);
      SubmittedAs(s.pool, Step(s, Submits(provider, message, aborted, spawnFails, writeFails)).pool, provider, message,
          aborted, spawnFails, writeFails)
  {
    var s := Run(Started(maxJobs), events);
    EveryRunKeepsSys(maxJobs, []);
    EveryRunKeepsSys(maxJobs, events);
    RunKeepsRegistered(Started(maxJobs), events);
    LiveIsTheWorker(s.pool, provider);
    if !aborted && (HasWorker(s.pool, provider) || !spawnFails) {
      SubmitIsHandOver(s.pool, provider, message, writeFails);
      HandedOverAs(s.pool, provider, message, writeFails);
    }
  }

  // ---- What an answer settles ----

  /** Reading a line: an answer of a job that waits for it settles the job, an error by rejecting it; any
      other line settles nothing. */
  ghost predicate ReadAs(p: Pool, q: Pool, k: nat, r: Reply) {
    && k < |p.spawned| && k < |q.spawned| && q.spawned[k].delivered == p.spawned[k].delivered + 1
    && if r.Progress? || r.id !in p.spawned[k].jobs then
         q.settlements == p.settlements && q.spawned[k].jobs == p.spawned[k].jobs
       else
         && r.id !in q.spawned[k].jobs
         && q.settlements == p.settlements +
              [Settlement(r.id, Some(k), if r.Failure? then Rejected(WorkerError(r)) else Resolved(r))]
  }

  lemma ReadSettles(p: Pool, k: nat, r: Reply)
    requires k < |p.spawned|
    ensures ReadAs(p, ReadReply(p, k, r), k, r)
  {
    var advanced := SetWorker(p, k, p.spawned[k].(delivered := p.spawned[k].delivered + 1));
    SettleFollows(advanced, k, r.id, AnswerOutcome(r));
    SettleRemoves(advanced, k, r.id, AnswerOutcome(r));
  }

  lemma AnswersSettleAsTheySay(maxJobs: nat, events: seq<Event>, k: nat)
    requires Possible(Started(maxJobs), events) && Enabled(Run(Started(maxJobs), events), PoolReads(k))
    ensures var s := Run(Started(maxJobs), events);
      ReadAs(s.pool, Step(s, PoolReads(k)).pool, k, s.procs[k].stdout[s.pool.spawned[k].delivered])
  {
    var s := Run(Started(maxJobs), events);
    ReadSettles(s.pool, k, s.procs[k].stdout[s.pool.spawned[k].delivered]);
  }

  // ---- Recycling ----

  function SettledBy(settlements: seq<Settlement>, k: nat): nat {
    if settlements == [] then 0
    else
      SettledBy(settlements[..|settlements| - 1], k)
      + if settlements[|settlements| - 1].worker == Some(k) then 1 else 0
  }

  lemma SettledByAppend(settlements: seq<Settlement>, x: Settlement, k: nat)
    ensures SettledBy(settlements + [x], k) == SettledBy(settlements, k) + if x.worker == Some(k) then 1 else 0
  {
    assert (settlements + [x])[..|settlements|] == settlements;
  }

  /** The worker's count is of its settled jobs; it was recycled only with its quota done, and idle with
      its quota done it is retired. */
  ghost predicate QuotaOk(p: Pool, k: nat)
    requires k < |p.spawned|
  {
    var w := p.spawned[k];
    && w.completedJobs == SettledBy(p.settlements, k)
    && (w.recycled ==> w.completedJobs >= p.maxJobs)
    && (w.jobs == [] && w.completedJobs > 0 && w.completedJobs >= p.maxJobs ==> w.retiring)
  }

  ghost predicate QuotasOk(p: Pool) {
    && (forall k :: 0 <= k < |p.spawned| ==> QuotaOk(p, k))
    && (forall x :: x in p.settlements && x.worker.Some? ==> x.worker.value < |p.spawned|)
  }

  /** Every other worker as it was. */
  lemma OthersKeepQuota(p: Pool, q: Pool, k: nat, j: nat)
    requires j < |p.spawned| && j < |q.spawned| && j != k && q.spawned[j] == p.spawned[j] && QuotaOk(p, j)
    requires q.maxJobs == p.maxJobs
    requires q.settlements == p.settlements
      || exists x :: q.settlements == p.settlements + [x] && x.worker != Some(j)
    ensures QuotaOk(q, j)
  {
    if q.settlements != p.settlements {
      var x :| q.settlements == p.settlements + [x] && x.worker != Some(j);
      SettledByAppend(p.settlements, x, j);
    }
  }

  lemma SettleKeepsQuotas(p: Pool, k: nat, id: nat, outcome: Outcome)
    requires QuotasOk(p) && k < |p.spawned|
    ensures QuotasOk(SettleJob(p, k, id, outcome)) && SettleJob(p, k, id, outcome).maxJobs == p.maxJobs
  {
    if id in p.spawned[k].jobs {
      var q, x := SettleJob(p, k, id, outcome), Settlement(id, Some(k), outcome);
      assert q.settlements == p.settlements + [x];
      SettledByAppend(p.settlements, x, k);
      forall j | 0 <= j < |q.spawned| ensures QuotaOk(q, j) {
        assert QuotaOk(p, j);
        if j != k { OthersKeepQuota(p, q, k, j); }
      }
    }
  }

  lemma {:induction false} RejectAllKeepsQuotas(p: Pool, k: nat, ids: seq<nat>)
    requires QuotasOk(p) && k < |p.spawned|
    ensures QuotasOk(RejectAll(p, k, ids))
    decreases |ids|
  {
    if ids != [] {
      SettleKeepsQuotas(p, k, ids[0], Rejected(WorkerDied));
      RejectAllKeepsQuotas(SettleJob(p, k, ids[0], Rejected(WorkerDied)), k, ids[1..]);
    }
  }

  /** Records that keep their jobs, counts and settlements. */
  lemma SameCountsKeepQuotas(p: Pool, q: Pool)
    requires QuotasOk(p) && |q.spawned| == |p.spawned| && q.settlements == p.settlements && q.maxJobs == p.maxJobs
    requires forall k :: 0 <= k < |p.spawned| ==>
      && q.spawned[k].jobs == p.spawned[k].jobs && q.spawned[k].completedJobs == p.spawned[k].completedJobs
      && q.spawned[k].recycled == p.spawned[k].recycled && (p.spawned[k].retiring ==> q.spawned[k].retiring)
    ensures QuotasOk(q)
  {
    forall k | 0 <= k < |q.spawned| ensures QuotaOk(q, k) { assert QuotaOk(p, k); }
  }

  lemma {:induction false} NobodySettledBy(settlements: seq<Settlement>, k: nat)
    requires forall x :: x in settlements ==> x.worker != Some(k)
    ensures SettledBy(settlements, k) == 0
  {
    if settlements != [] {
      assert settlements[|settlements| - 1] in settlements;
      NobodySettledBy(settlements[..|settlements| - 1], k);
    }
  }

  lemma EnsureKeepsQuotas(p: Pool, provider: string)
    requires QuotasOk(p)
    ensures QuotasOk(EnsureWorker(p, provider)) && EnsureWorker(p, provider).maxJobs == p.maxJobs
  {
    var q := EnsureWorker(p, provider);
    NobodySettledBy(p.settlements, |p.spawned|);
    forall k | 0 <= k < |q.spawned| ensures QuotaOk(q, k) {
      if k < |p.spawned| { assert QuotaOk(p, k); }
    }
  }

  lemma RefuseKeepsQuotas(p: Pool, id: nat, reason: Reason)
    requires QuotasOk(p)
    ensures QuotasOk(Refuse(p, id, reason))
  {
    var q := Refuse(p, id, reason);
    forall k | 0 <= k < |q.spawned| ensures QuotaOk(q, k) {
      assert QuotaOk(p, k);
      SettledByAppend(p.settlements, Settlement(id, None, Rejected(reason)), k);
    }
  }

  lemma ListedKeepsQuotas(q: Pool, k: nat, id: nat)
    requires QuotasOk(q) && k < |q.spawned|
    ensures QuotasOk(Listed(q, k, id))
  {
    forall j | 0 <= j < |q.spawned| ensures QuotaOk(Listed(q, k, id), j) { assert QuotaOk(q, j); }
  }

  lemma SubmitKeepsQuotas(p: Pool, provider: string, message: Inbound, aborted: bool, spawnFails: bool,
      writeFails: bool)
    requires QuotasOk(p)
    ensures QuotasOk(Submit(p, provider, message, aborted, spawnFails, writeFails))
  {
    if aborted {
      RefuseKeepsQuotas(p, message.id, Cancelled);
    } else if !HasWorker(p, provider) && spawnFails {
      RefuseKeepsQuotas(p, message.id, SpawnFailed);
    } else {
      var q := EnsureWorker(p, provider);
      var k := q.workers[provider];
      EnsureKeepsQuotas(p, provider);
      SubmitIsHandOver(p, provider, message, writeFails);
      HandOverKeepsQuotas(q, k, message, writeFails);
    }
  }

  lemma HandOverKeepsQuotas(q: Pool, k: nat, message: Inbound, writeFails: bool)
    requires QuotasOk(q) && k < |q.spawned|
    ensures QuotasOk(HandOver(q, k, message, writeFails))
  {
    var r := Listed(q, k, message.id);
    ListedKeepsQuotas(q, k, message.id);
    if writeFails {
      SettleKeepsQuotas(r, k, message.id, Rejected(WriteFailed));
    } else {
      SameCountsKeepQuotas(r, Write(r, k, message));
    }
  }

  lemma CancelKeepsQuotas(p: Pool, k: nat, id: nat, reason: Reason, writeFails: bool)
    requires QuotasOk(p) && k < |p.spawned|
    ensures QuotasOk(CancelJob(p, k, id, reason, writeFails))
  {
    SameCountsKeepQuotas(p, Write(p, k, Cancel(id)));
    SettleKeepsQuotas(p, k, id, Rejected(reason));
    SettleKeepsQuotas(Write(p, k, Cancel(id)), k, id, Rejected(reason));
  }

  lemma ReadKeepsQuotas(p: Pool, k: nat, reply: Reply)
    requires QuotasOk(p) && k < |p.spawned|
    ensures QuotasOk(ReadReply(p, k, reply))
  {
    var q := SetWorker(p, k, p.spawned[k].(delivered := p.spawned[k].delivered + 1));
    SameCountsKeepQuotas(p, q);
    SettleKeepsQuotas(q, k, reply.id, AnswerOutcome(reply));
  }

  lemma StepKeepsQuotas(s: Sys, e: Event)
    requires SysOk(s) && QuotasOk(s.pool) && Enabled(s, e)
    ensures QuotasOk(Step(s, e).pool)
  {
    match e
    case Submits(provider, message, aborted, spawnFails, writeFails) =>
      SubmitKeepsQuotas(s.pool, provider, message, aborted, spawnFails, writeFails);
    case Starts(provider) => EnsureKeepsQuotas(s.pool, provider);
    case Cancels(k, id, reason, writeFails) => CancelKeepsQuotas(s.pool, k, id, reason, writeFails);
    case PoolReads(k) => ReadKeepsQuotas(s.pool, k, s.procs[k].stdout[s.pool.spawned[k].delivered]);
    case PoolSeesExit(k) => SameCountsKeepQuotas(s.pool, SeeExit(s.pool, k));
    case PoolRejects(k) => RejectAllKeepsQuotas(s.pool, k, s.pool.spawned[k].jobs);
    case Stops => SameCountsKeepQuotas(s.pool, Stop(s.pool));
    case _ =>
  }

  lemma {:induction false} RunKeepsQuotas(s: Sys, events: seq<Event>)
    requires SysOk(s) && QuotasOk(s.pool) && Possible(s, events)
    ensures QuotasOk(Run(s, events).pool) && Run(s, events).pool.maxJobs == s.pool.maxJobs
    decreases |events|
  {
    if events != [] {
      StepKeepsSys(s, events[0]);
      StepKeepsQuotas(s, events[0]);
      StepKeepsMaxJobs(s, events[0]);
      RunKeepsQuotas(Step(s, events[0]), events[1..]);
    }
  }

  lemma SettleKeepsMaxJobs(p: Pool, k: nat, id: nat, outcome: Outcome)
    requires k < |p.spawned|
    ensures SettleJob(p, k, id, outcome).maxJobs == p.maxJobs
  {
  }

  lemma ReadKeepsMaxJobs(p: Pool, k: nat, reply: Reply)
    requires k < |p.spawned|
    ensures ReadReply(p, k, reply).maxJobs == p.maxJobs
  {
  }

  lemma StepKeepsMaxJobs(s: Sys, e: Event)
    requires Matched(s) && Enabled(s, e)
    ensures Step(s, e).pool.maxJobs == s.pool.maxJobs
  {
    match e
    case Cancels(k, id, reason, _) =>
      SettleKeepsMaxJobs(s.pool, k, id, Rejected(reason));
      SettleKeepsMaxJobs(Write(s.pool, k, Cancel(id)), k, id, Rejected(reason));
    case PoolReads(k) => ReadKeepsMaxJobs(s.pool, k, s.procs[k].stdout[s.pool.spawned[k].delivered]);
    case PoolRejects(k) => RejectAllKeepsMaxJobs(s.pool, k, s.pool.spawned[k].jobs);
    case _ =>
  }

  lemma {:induction false} RejectAllKeepsMaxJobs(p: Pool, k: nat, ids: seq<nat>)
    requires k < |p.spawned|
    ensures RejectAll(p, k, ids).maxJobs == p.maxJobs
    decreases |ids|
  {
    if ids != [] { RejectAllKeepsMaxJobs(SettleJob(p, k, ids[0], Rejected(WorkerDied)), k, ids[1..]); }
  }

  /** In every run: a worker is recycled only when `maxJobs` of its jobs have settled, and one that is idle
      after so many has been retired. */
  lemma RecycledAtTheQuota(maxJobs: nat, events: seq<Event>, k: nat)
    requires Possible(Started(maxJobs), events) && k < |Run(Started(maxJobs), events).pool.spawned|
    ensures var p := Run(Started(maxJobs), events).pool; var done := SettledBy(p.settlements, k);
      && (p.spawned[k].recycled ==> done >= maxJobs)
      && (p.spawned[k].jobs == [] && done > 0 && done >= maxJobs ==> p.spawned[k].retiring)
  {
    EveryRunKeepsSys(maxJobs, []);
    RunKeepsQuotas(Started(maxJobs), events);
    assert QuotaOk(Run(Started(maxJobs), events).pool, k);
  }

  ghost predicate RetiredBy(v: PooledWorker, w: PooledWorker) {
    !Live(w) && (Live(v) ==> w.stdinEnded) && w.jobs == v.jobs
  }

  lemma EveryRunIsRegistered(maxJobs: nat, events: seq<Event>)
    requires Possible(Started(maxJobs), events)
    ensures PoolOk(Run(Started(maxJobs), events).pool) && LiveAreRegistered(Run(Started(maxJobs), events).pool)
  {
    EveryRunKeepsSys(maxJobs, []);
    EveryRunKeepsSys(maxJobs, events);
    RunKeepsRegistered(Started(maxJobs), events);
  }

  ghost predicate AllRetired(p: Pool, q: Pool) {
    && q.settlements == p.settlements && |q.spawned| == |p.spawned|
    && forall k :: 0 <= k < |p.spawned| ==> RetiredBy(p.spawned[k], q.spawned[k])
  }

  lemma StopStep(s: Sys)
    requires Matched(s) && PoolOk(s.pool) && LiveAreRegistered(s.pool)
    ensures AllRetired(s.pool, Step(s, Stops).pool)
  {
    forall k | 0 <= k < |s.pool.spawned| ensures RetiredBy(s.pool.spawned[k], Stop(s.pool).spawned[k]) {
      StopRetires(s.pool, k);
    }
  }

  /** Stopping the pool retires every worker it could still use and closes its input; it settles nothing. */
  lemma StopRetiresAll(maxJobs: nat, events: seq<Event>)
    requires Possible(Started(maxJobs), events)
    ensures AllRetired(Run(Started(maxJobs), events).pool, Step(Run(Started(maxJobs), events), Stops).pool)
  {
    EveryRunIsRegistered(maxJobs, events);
    StopStep(Run(Started(maxJobs), events));
  }

  lemma StopRetires(p: Pool, k: nat)
    requires PoolOk(p) && LiveAreRegistered(p) && k < |p.spawned|
    ensures RetiredBy(p.spawned[k], Stop(p).spawned[k])
  {
    if Live(p.spawned[k]) { assert p.workers[p.spawned[k].providerId] in p.workers.Values; }
  }

  // ---- Signals and the end ----

  /** The first signal to a worker with jobs and an open input only starts its grace: it changes nothing
      else. Any other makes it stop, every running job aborted. */
  lemma SignalGrantsAGrace(s: Sys, k: nat)
    requires Matched(s) && Enabled(s, WorkerSignalled(k))
    ensures var x, y := s.procs[k], Step(s, WorkerSignalled(k)).procs[k];
      if !x.stopGrace && !x.stdinEnded && x.runningJobs != map[] then
        && y.stopGrace && y.runningJobs == x.runningJobs && y.stopping == x.stopping && y.stdout == x.stdout
        && y.exit.None?
      else
        && y.stopping && y.exit.None? && y.stdout == x.stdout && y.runningJobs.Keys == x.runningJobs.Keys
        && (!x.stopping ==> forall id :: id in y.runningJobs ==> y.runningJobs[id])
  {
  }

  /** When the grace ends, or the input of a signalled worker, every running job is aborted. */
  lemma GraceEndsInAStop(s: Sys, k: nat, e: Event)
    requires Matched(s) && Enabled(s, e) && (e == GraceEnds(k) || (e == WorkerReadsEnd(k) && s.procs[k].stopGrace))
    ensures var x, y := s.procs[k], Step(s, e).procs[k];
      && y.stopping && y.exit.None? && y.stdout == x.stdout && y.runningJobs.Keys == x.runningJobs.Keys
      && (!x.stopping ==> forall id :: id in y.runningJobs ==> y.runningJobs[id])
  {
  }

  /** What a worker reports goes out in order, until it is stopping. */
  lemma ReportsGoOut(s: Sys, k: nat, id: nat, content: nat)
    requires Matched(s) && Enabled(s, WorkerReports(k, id, content))
    ensures var x, y := s.procs[k], Step(s, WorkerReports(k, id, content)).procs[k];
      y.stdout == if x.stopping then x.stdout else x.stdout + [Progress(id, content)]
  {
  }

  /** A worker stops only when it was signalled; stopping, it writes nothing more; and its input ended and
      everything answered, it has exited. */
  ghost predicate EndsWell(x: Proc, signalled: bool) {
    && (x.stopGrace || x.stopping ==> signalled)
    && (x.exit.None? && x.stdinEnded && !x.stopping ==> x.pendingMessages > 0)
  }

  lemma OwnEventEndsWell(w: PooledWorker, x: Proc, e: Event, signalled: bool)
    requires PairOk(w, x) && EndsWell(x, signalled) && OfWorker(e) && x.exit.None?
    requires e.WorkerReads? ==> x.consumed < |w.stdin|
    requires e.WorkerReads? ==> !x.stdinEnded
    ensures EndsWell(ProcStep(x, w.stdin, e), signalled || e.WorkerSignalled?)
    requires e.GraceEnds? ==> x.stopGrace
  {
  }

  /** A process changes by its own events only. */
  lemma ProcAfter(s: Sys, e: Event, k: nat)
    requires Matched(s) && Enabled(s, e) && k < |Step(s, e).procs|
    ensures Step(s, e).procs[k] ==
      if k >= |s.procs| then NEW_PROC
      else if OfWorker(e) && e.k == k then ProcStep(s.procs[k], s.pool.spawned[k].stdin, e)
      else s.procs[k]
  {
  }

  ghost predicate AllEndWell(s: Sys, signalled: set<nat>) {
    forall k :: 0 <= k < |s.procs| ==> EndsWell(s.procs[k], k in signalled)
  }

  function Signalled(e: Event): set<nat> {
    if e.WorkerSignalled? then {e.k} else {}
  }

  function AllSignalled(events: seq<Event>): (signalled: set<nat>)
    ensures forall k :: k in signalled <==> WorkerSignalled(k) in events
    decreases |events|
  {
    if events == [] then {}
    else
      assert events == [events[0]] + events[1..];
      Signalled(events[0]) + AllSignalled(events[1..])
  }

  lemma StepEndsWellAt(s: Sys, e: Event, k: nat, signalled: set<nat>)
    requires SysOk(s) && Enabled(s, e) && k < |Step(s, e).procs| && AllEndWell(s, signalled)
    ensures EndsWell(Step(s, e).procs[k], k in signalled + Signalled(e))
  {
    ProcAfter(s, e, k);
    if k < |s.procs| && OfWorker(e) && e.k == k {
      assert PairOk(s.pool.spawned[k], s.procs[k]);
      OwnEventEndsWell(s.pool.spawned[k], s.procs[k], e, k in signalled);
    }
  }

  lemma StepEndsWell(s: Sys, e: Event, signalled: set<nat>)
    requires SysOk(s) && Enabled(s, e) && AllEndWell(s, signalled)
    ensures AllEndWell(Step(s, e), signalled + Signalled(e))
  {
    forall k | 0 <= k < |Step(s, e).procs| ensures EndsWell(Step(s, e).procs[k], k in signalled + Signalled(e)) {
      StepEndsWellAt(s, e, k, signalled);
    }
  }

  lemma {:induction false} RunEndsWell(s: Sys, events: seq<Event>, signalled: set<nat>)
    requires SysOk(s) && Possible(s, events) && AllEndWell(s, signalled)
    ensures AllEndWell(Run(s, events), signalled + AllSignalled(events))
    decreases |events|
  {
    if events == [] {
      assert signalled + AllSignalled(events) == signalled;
    } else {
      StepKeepsSys(s, events[0]);
      StepEndsWell(s, events[0], signalled);
      RunEndsWell(Step(s, events[0]), events[1..], signalled + Signalled(events[0]));
      assert signalled + AllSignalled(events) == signalled + Signalled(events[0]) + AllSignalled(events[1..]);
    }
  }

  /** In every run: a worker never stops unless it was signalled, and one whose input has ended and that has
      answered everything has exited or is stopping. */
  lemma StopsOnlyWhenSignalled(maxJobs: nat, events: seq<Event>, k: nat)
    requires Possible(Started(maxJobs), events) && k < |Run(Started(maxJobs), events).procs|
    ensures var x := Run(Started(maxJobs), events).procs[k];
      && (x.stopGrace || x.stopping ==> WorkerSignalled(k) in events)
      && (x.exit.None? && x.stdinEnded && !x.stopping ==> x.runningJobs != map[] || x.prewarming != {})
  {
    EveryRunKeepsSys(maxJobs, []);
    EveryRunKeepsSys(maxJobs, events);
    RunEndsWell(Started(maxJobs), events, {});
    var s := Run(Started(maxJobs), events);
    assert EndsWell(s.procs[k], k in AllSignalled(events)) by {
      assert {} + AllSignalled(events) == AllSignalled(events);
    }
    assert PairOk(s.pool.spawned[k], s.procs[k]);
    if s.procs[k].runningJobs == map[] { assert s.procs[k].runningJobs.Keys == {}; }
  }

  lemma OwnEventIsSilent(x: Proc, stdin: seq<Inbound>, e: Event)
    requires x.stopping && OfWorker(e) && (e.WorkerReads? ==> x.consumed < |stdin|)
    ensures ProcStep(x, stdin, e).stopping && ProcStep(x, stdin, e).stdout == x.stdout
  {
  }

  lemma ProcsRemain(s: Sys, e: Event)
    requires Matched(s) && Enabled(s, e)
    ensures |s.procs| <= |Step(s, e).procs|
  {
  }

  lemma StepKeepsSilence(s: Sys, e: Event, k: nat)
    requires Matched(s) && Enabled(s, e) && k < |s.procs| && s.procs[k].stopping
    ensures k < |Step(s, e).procs| && Step(s, e).procs[k].stopping && Step(s, e).procs[k].stdout == s.procs[k].stdout
  {
    ProcsRemain(s, e);
    ProcAfter(s, e, k);
    if OfWorker(e) && e.k == k { OwnEventIsSilent(s.procs[k], s.pool.spawned[k].stdin, e); }
  }

  /** A stopping worker writes nothing more, whatever it had running. */
  lemma {:induction false} StoppingIsSilent(s: Sys, events: seq<Event>, k: nat)
    requires SysOk(s) && Possible(s, events) && k < |s.procs| && s.procs[k].stopping
    ensures k < |Run(s, events).procs| && Run(s, events).procs[k].stopping
    ensures Run(s, events).procs[k].stdout == s.procs[k].stdout
    decreases |events|
  {
    if events != [] {
      StepKeepsSys(s, events[0]);
      StepKeepsSilence(s, events[0], k);
      StoppingIsSilent(Step(s, events[0]), events[1..], k);
    }
  }
}
