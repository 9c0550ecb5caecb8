/**
 Every submission settles exactly once. What a run has settled was submitted in it, what it submitted
 is unsettled in one worker or settled once; while something is unsettled some party can move, and every
 run can be finished so that everything is settled.
 */
module SearchWorkerSettling {
  import opened Common
  import opened Wrappers
  import opened SearchWorkerProtocol
  import opened SearchWorkerSafety
  import opened SearchWorkerSystem
  import opened SearchWorkerTheorems

  // ---- Submissions ----

  /** The ids submitted in a run, in order. */
  function SubmittedIds(events: seq<Event>): seq<nat>
    decreases |events|
  {
    if events == [] then []
    else if events[0].Submits? then [events[0].message.id] + SubmittedIds(events[1..])
    else SubmittedIds(events[1..])
  }

  /** The pool has heard of the id: it handed it to a worker, or it settled it. */
  ghost predicate Known(p: Pool, id: nat) {
    id in p.home || id in SettledIds(p.settlements)
  }

  ghost predicate SameKnown(p: Pool, q: Pool) {
    forall id :: Known(p, id) <==> Known(q, id)
  }

  lemma SettleKnows(p: Pool, k: nat, id: nat, outcome: Outcome)
    requires PoolOk(p) && k < |p.spawned|
    ensures SameKnown(p, SettleJob(p, k, id, outcome))
  {
    assert WorkerOk(p, k);
    SettleFollows(p, k, id, outcome);
    SettledIdsAppend(p.settlements, Settlement(id, Some(k), outcome));
  }

  lemma {:induction false} RejectAllKnows(p: Pool, k: nat, ids: seq<nat>)
    requires PoolOk(p) && k < |p.spawned|
    ensures SameKnown(p, RejectAll(p, k, ids))
    decreases |ids|
  {
    if ids != [] {
      SettleKnows(p, k, ids[0], Rejected(WorkerDied));
      SettleKeepsPoolOk(p, k, ids[0], Rejected(WorkerDied));
      RejectAllKnows(SettleJob(p, k, ids[0], Rejected(WorkerDied)), k, ids[1..]);
    }
  }

  lemma CancelKnows(p: Pool, k: nat, id: nat, reason: Reason, writeFails: bool)
    requires PoolOk(p) && k < |p.spawned|
    ensures SameKnown(p, CancelJob(p, k, id, reason, writeFails))
  {
    CancelLineKeepsPoolOk(p, k, id);
    SettleKnows(p, k, id, Rejected(reason));
    SettleKnows(Write(p, k, Cancel(id)), k, id, Rejected(reason));
  }

  lemma ReadKnows(p: Pool, k: nat, reply: Reply)
    requires PoolOk(p) && k < |p.spawned|
    ensures SameKnown(p, ReadReply(p, k, reply))
  {
    assert WorkerOk(p, k);
    ReadShape(p, k, reply);
    SettledIdsAppend(p.settlements, Settlement(reply.id, Some(k), AnswerOutcome(reply)));
  }

  lemma HandOverKnows(q: Pool, k: nat, message: Inbound, writeFails: bool)
    requires PoolOk(q) && k < |q.spawned| && message.id !in q.home
    ensures forall id :: Known(HandOver(q, k, message, writeFails), id) <==> Known(q, id) || id == message.id
  {
    var r := HandOver(q, k, message, writeFails);
    assert WorkerOk(q, k);
    if writeFails {
      UnwrittenShape(q, k, message.id);
      RecycleFollows(Unwritten(q, k, message.id), k);
      SettledIdsAppend(q.settlements, Settlement(message.id, Some(k), Rejected(WriteFailed)));
    } else {
      assert r.settlements == q.settlements && r.home == q.home[message.id := k];
    }
  }

  lemma SubmitKnows(p: Pool, provider: string, message: Inbound, aborted: bool, spawnFails: bool, writeFails: bool)
    requires PoolOk(p) && message.id !in p.home
    ensures forall id ::
      Known(Submit(p, provider, message, aborted, spawnFails, writeFails), id) <==> Known(p, id) || id == message.id
  {
    if aborted {
      SettledIdsAppend(p.settlements, Settlement(message.id, None, Rejected(Cancelled)));
    } else if !HasWorker(p, provider) && spawnFails {
      SettledIdsAppend(p.settlements, Settlement(message.id, None, Rejected(SpawnFailed)));
    } else {
      var q := EnsureWorker(p, provider);
      EnsureKeepsPoolOk(p, provider);
      SubmitIsHandOver(p, provider, message, writeFails);
      HandOverKnows(q, q.workers[provider], message, writeFails);
    }
  }

  lemma StepKnows(s: Sys, e: Event)
    requires SysOk(s) && Enabled(s, e)
    ensures forall id :: Known(Step(s, e).pool, id) <==> Known(s.pool, id) || (e.Submits? && id == e.message.id)
  {
    match e
    case Submits(provider, message, aborted, spawnFails, writeFails) =>
      SubmitKnows(s.pool, provider, message, aborted, spawnFails, writeFails);
    case Cancels(k, id, reason, writeFails) => CancelKnows(s.pool, k, id, reason, writeFails);
    case PoolReads(k) => ReadKnows(s.pool, k, s.procs[k].stdout[s.pool.spawned[k].delivered]);
    case PoolRejects(k) => RejectAllKnows(s.pool, k, s.pool.spawned[k].jobs);
    case _ =>
  }

  lemma {:induction false} DistinctPrepend(id: nat, ids: seq<nat>)
    requires Distinct(ids) && id !in ids
    ensures Distinct([id] + ids)
  {
    if ids == [] {
      assert [id][..0] == [];
    } else {
      var all, front := [id] + ids, ids[..|ids| - 1];
      DistinctPrepend(id, front);
      assert all[..|all| - 1] == [id] + front;
    }
  }

  /** The ids a pool came to know: those of a run's submissions, each of them new. */
  ghost predicate Learnt(p: Pool, q: Pool, submitted: seq<nat>) {
    && (forall id :: Known(q, id) <==> Known(p, id) || id in submitted)
    && Distinct(submitted) && forall id :: id in submitted ==> !Known(p, id)
  }

  lemma LearntFirst(p: Pool, q: Pool, r: Pool, e: Event, rest: seq<nat>)
    requires forall id :: Known(q, id) <==> Known(p, id) || (e.Submits? && id == e.message.id)
    requires Learnt(q, r, rest) && (e.Submits? ==> !Known(p, e.message.id))
    ensures Learnt(p, r, if e.Submits? then [e.message.id] + rest else rest)
  {
    if e.Submits? { DistinctPrepend(e.message.id, rest); }
  }

  lemma {:induction false} RunKnows(s: Sys, events: seq<Event>)
    requires SysOk(s) && Possible(s, events)
    ensures Learnt(s.pool, Run(s, events).pool, SubmittedIds(events))
    decreases |events|
  {
    if events != [] {
      StepKeepsSys(s, events[0]);
      StepKnows(s, events[0]);
      RunKnows(Step(s, events[0]), events[1..]);
      LearntFirst(s.pool, Step(s, events[0]).pool, Run(s, events).pool, events[0], SubmittedIds(events[1..]));
    }
  }

  ghost predicate Held(p: Pool, id: nat) {
    exists k :: 0 <= k < |p.spawned| && id in p.spawned[k].jobs
  }

  /** A known id has settled or is held, never both. */
  lemma KnownIsSettledOrHeld(p: Pool, id: nat)
    requires PoolOk(p) && Known(p, id)
    ensures id in SettledIds(p.settlements) <==> !Held(p, id)
  {
    if Held(p, id) {
      var k :| 0 <= k < |p.spawned| && id in p.spawned[k].jobs;
      SettledHaveNoJob(p, k, id);
    }
  }

  /**
   In every interleaving: no id is submitted twice and none settles twice, only submissions settle, and
   each submission has settled or is among the unsettled jobs of one worker, never both.
   */
  lemma JobsSettleExactlyOnce(maxJobs: nat, events: seq<Event>)
    requires Possible(Started(maxJobs), events)
    ensures var p := Run(Started(maxJobs), events).pool; var settled := SettledIds(p.settlements);
      && Distinct(SubmittedIds(events)) && Distinct(settled)
      && (forall id :: id in settled ==> id in SubmittedIds(events))
      && (forall id :: id in SubmittedIds(events) ==> (id in settled <==> !Held(p, id)))
      && HeldOnlyAtHome(p)
  {
    var s := Started(maxJobs);
    EveryRunKeepsSys(maxJobs, events);
    EveryRunKeepsSys(maxJobs, []);
    RunKnows(s, events);
    SettledIsKnown(s.pool, Run(s, events).pool, SubmittedIds(events));
    JobsAreHeldAtHome(Run(s, events).pool);
  }

  lemma SettledIsKnown(p: Pool, q: Pool, submitted: seq<nat>)
    requires PoolOk(q) && Learnt(p, q, submitted) && p.home == map[] && p.settlements == []
    ensures forall id :: id in SettledIds(q.settlements) ==> id in submitted
    ensures forall id :: id in submitted ==> (id in SettledIds(q.settlements) <==> !Held(q, id))
  {
    forall id ensures Known(q, id) <==> id in submitted { assert !Known(p, id); }
    forall id | id in SettledIds(q.settlements) ensures id in submitted { assert Known(q, id); }
    forall id | id in submitted ensures id in SettledIds(q.settlements) <==> !Held(q, id) {
      KnownIsSettledOrHeld(q, id);
    }
  }

  // ---- Nothing stays unsettled ----

  /** The parties going on by themselves, with nothing new submitted, cancelled or signalled. */
  predicate GoesOn(e: Event) {
    e.PoolReads? || e.PoolSeesExit? || e.PoolRejects? || e.WorkerReads? || e.WorkerAnswers? || e.StopFinishes?
  }

  function Unread(written: nat, taken: nat): nat {
    if taken <= written then written - taken else 0
  }

  /** What is left to do for one worker: lines to read, jobs to answer, answers to read, an end to see. */
  function LeftOf(w: PooledWorker, x: Proc): nat {
    3 * Unread(|w.stdin|, x.consumed) + 2 * |x.runningJobs.Keys| + 2 * |x.prewarming| + Unread(|x.stdout|, w.delivered)
    + |w.jobs| + (if w.exitSeen then 0 else 1) + (if x.exit.Some? then 0 else 1)
  }

  function Left(ws: seq<PooledWorker>, xs: seq<Proc>): nat
    requires |ws| == |xs|
  {
    if ws == [] then 0
    else Left(ws[..|ws| - 1], xs[..|xs| - 1]) + LeftOf(ws[|ws| - 1], xs[|xs| - 1])
  }

  lemma {:induction false} LessIsLeft(ws: seq<PooledWorker>, xs: seq<Proc>, k: nat, w: PooledWorker, x: Proc)
    requires |ws| == |xs| && k < |ws| && LeftOf(w, x) < LeftOf(ws[k], xs[k])
    ensures Left(ws[k := w], xs[k := x]) < Left(ws, xs)
  {
    var n := |ws| - 1;
    if k < n {
      LessIsLeft(ws[..n], xs[..n], k, w, x);
      assert ws[k := w][..n] == ws[..n][k := w] && xs[k := x][..n] == xs[..n][k := x];
    } else {
      assert ws[k := w][..n] == ws[..n] && xs[k := x][..n] == xs[..n];
    }
  }

  /** Nothing changed but one worker, and there less is left to do. */
  ghost predicate OneMovesOn(s: Sys, t: Sys, k: nat) {
    && Matched(s) && Matched(t) && |t.procs| == |s.procs| && k < |s.procs|
    && (forall j :: 0 <= j < |s.procs| && j != k ==> t.procs[j] == s.procs[j] && t.pool.spawned[j] == s.pool.spawned[j])
    && LeftOf(t.pool.spawned[k], t.procs[k]) < LeftOf(s.pool.spawned[k], s.procs[k])
  }

  lemma MovingOnLeavesLess(s: Sys, t: Sys, k: nat)
    requires OneMovesOn(s, t, k)
    ensures Left(t.pool.spawned, t.procs) < Left(s.pool.spawned, s.procs)
  {
    LessIsLeft(s.pool.spawned, s.procs, k, t.pool.spawned[k], t.procs[k]);
    assert t.pool.spawned == s.pool.spawned[k := t.pool.spawned[k]] && t.procs == s.procs[k := t.procs[k]];
  }

  lemma SettleMovesOn(p: Pool, k: nat, id: nat, outcome: Outcome)
    requires k < |p.spawned|
    ensures var q := SettleJob(p, k, id, outcome);
      && |q.spawned[k].jobs| <= |p.spawned[k].jobs|
      && forall j :: 0 <= j < |p.spawned| && j != k ==> q.spawned[j] == p.spawned[j]
  {
    WithoutIsNoLonger(p.spawned[k].jobs, id);
  }

  lemma {:induction false} RejectAllMovesOn(p: Pool, k: nat, ids: seq<nat>)
    requires k < |p.spawned|
    ensures forall j :: 0 <= j < |p.spawned| && j != k ==> RejectAll(p, k, ids).spawned[j] == p.spawned[j]
    decreases |ids|
  {
    if ids != [] {
      SettleMovesOn(p, k, ids[0], Rejected(WorkerDied));
      RejectAllMovesOn(SettleJob(p, k, ids[0], Rejected(WorkerDied)), k, ids[1..]);
    }
  }

  lemma ReadAddsNoJob(p: Pool, k: nat, reply: Reply)
    requires k < |p.spawned|
    ensures |ReadReply(p, k, reply).spawned[k].jobs| <= |p.spawned[k].jobs|
  {
    SettleMovesOn(SetWorker(p, k, p.spawned[k].(delivered := p.spawned[k].delivered + 1)), k, reply.id,
        AnswerOutcome(reply));
  }

  lemma PoolReadMovesOn(s: Sys, k: nat)
    requires SysOk(s) && Enabled(s, PoolReads(k))
    ensures OneMovesOn(s, Step(s, PoolReads(k)), k)
  {
    var reply := s.procs[k].stdout[s.pool.spawned[k].delivered];
    ReadShape(s.pool, k, reply);
    ReadAddsNoJob(s.pool, k, reply);
  }

  lemma PoolSeesMovesOn(s: Sys, k: nat)
    requires SysOk(s) && Enabled(s, PoolSeesExit(k)) && !s.pool.spawned[k].exitSeen
    ensures OneMovesOn(s, Step(s, PoolSeesExit(k)), k)
  {
    assert PairOk(s.pool.spawned[k], s.procs[k]);
  }

  lemma PoolRejectMovesOn(s: Sys, k: nat)
    requires SysOk(s) && Enabled(s, PoolRejects(k)) && s.pool.spawned[k].jobs != []
    ensures OneMovesOn(s, Step(s, PoolRejects(k)), k)
  {
    var jobs, t := s.pool.spawned[k].jobs, Step(s, PoolRejects(k));
    RejectAllFollows(s.pool, k, jobs);
    RejectAllMovesOn(s.pool, k, jobs);
    FirstIsListed(t.pool.spawned[k].jobs);
    assert t.pool.spawned[k].jobs == [];
    assert Follows(s.pool.spawned[k], t.pool.spawned[k]);
  }

  lemma KeysAfterRequest(x: Proc, id: nat)
    ensures |x.runningJobs[id := false].Keys| <= |x.runningJobs.Keys| + 1
    ensures |x.runningJobs[id := true].Keys| <= |x.runningJobs.Keys| + 1
    ensures id in x.runningJobs ==> |x.runningJobs[id := true].Keys| == |x.runningJobs.Keys|
  {
    assert x.runningJobs[id := false].Keys == x.runningJobs.Keys + {id};
    assert x.runningJobs[id := true].Keys == x.runningJobs.Keys + {id};
    if id in x.runningJobs { assert x.runningJobs.Keys + {id} == x.runningJobs.Keys; }
  }

  lemma WorkerReadMovesOn(s: Sys, k: nat)
    requires SysOk(s) && Enabled(s, WorkerReads(k))
    ensures OneMovesOn(s, Step(s, WorkerReads(k)), k)
  {
    var x := s.procs[k];
    KeysAfterRequest(x, s.pool.spawned[k].stdin[x.consumed].id);
    assert PairOk(s.pool.spawned[k], s.procs[k]);
  }

  lemma OneFewer(running: set<nat>, prewarming: set<nat>, id: nat)
    requires id in running || id in prewarming
    ensures |running - {id}| + |prewarming - {id}| < |running| + |prewarming|
  {
    if id !in running { assert running - {id} == running; }
    if id !in prewarming { assert prewarming - {id} == prewarming; }
  }

  lemma AnswerLeavesLess(w: PooledWorker, x: Proc, reply: Reply)
    requires w.delivered <= |x.stdout| && x.exit.None? && (reply.id in x.runningJobs || reply.id in x.prewarming)
    ensures LeftOf(w, FinishJob(x, reply)) < LeftOf(w, x)
  {
    OneFewer(x.runningJobs.Keys, x.prewarming, reply.id);
    assert FinishJob(x, reply).runningJobs.Keys == x.runningJobs.Keys - {reply.id};
  }

  lemma WorkerAnswerMovesOn(s: Sys, k: nat, reply: Reply)
    requires SysOk(s) && Enabled(s, WorkerAnswers(k, reply))
    ensures OneMovesOn(s, Step(s, WorkerAnswers(k, reply)), k)
  {
    assert PairOk(s.pool.spawned[k], s.procs[k]);
    AnswerLeavesLess(s.pool.spawned[k], s.procs[k], reply);
  }

  lemma StopFinishMovesOn(s: Sys, k: nat)
    requires SysOk(s) && Enabled(s, StopFinishes(k))
    ensures OneMovesOn(s, Step(s, StopFinishes(k)), k)
  {
    assert PairOk(s.pool.spawned[k], s.procs[k]);
  }

  /** Where an unsettled job of a live worker stands, when the worker is not stopping. */
  lemma OnTheWay(w: PooledWorker, x: Proc, id: nat)
    requires PairOk(w, x) && id in w.jobs && id in StartIds(w.stdin) && !x.stopping
    ensures x.consumed < |w.stdin| || w.delivered < |x.stdout| || id in x.runningJobs || id in x.prewarming
  {
    if x.consumed == |w.stdin| && w.delivered == |x.stdout| {
      assert w.stdin[..x.consumed] == w.stdin && x.stdout[..w.delivered] == x.stdout;
    }
  }

  /** What happens next to a worker that holds an unsettled job. */
  function NextOf(s: Sys, k: nat, id: nat): Event
    requires Matched(s) && k < |s.procs|
  {
    var w, x := s.pool.spawned[k], s.procs[k];
    if w.delivered < |x.stdout| then PoolReads(k)
    else if x.exit.Some? then if w.exitSeen then PoolRejects(k) else PoolSeesExit(k)
    else if x.stopping then StopFinishes(k)
    else if x.consumed < |w.stdin| then WorkerReads(k)
    else WorkerAnswers(k, Complete(id, 0))
  }

  lemma NextIsEnabled(s: Sys, k: nat, id: nat)
    requires SysOk(s) && k < |s.procs| && id in s.pool.spawned[k].jobs
    ensures Enabled(s, NextOf(s, k, id)) && GoesOn(NextOf(s, k, id))
  {
    var w, x := s.pool.spawned[k], s.procs[k];
    assert PairOk(w, x) && WorkerOk(s.pool, k);
    if x.exit.None? && !x.stopping { OnTheWay(w, x, id); }
  }

  lemma NextMovesOn(s: Sys, k: nat, id: nat)
    requires SysOk(s) && k < |s.procs| && id in s.pool.spawned[k].jobs
    requires Enabled(s, NextOf(s, k, id))
    ensures OneMovesOn(s, Step(s, NextOf(s, k, id)), k)
  {
    match NextOf(s, k, id)
    case PoolReads(_) => PoolReadMovesOn(s, k);
    case PoolSeesExit(_) => PoolSeesMovesOn(s, k);
    case PoolRejects(_) => PoolRejectMovesOn(s, k);
    case StopFinishes(_) => StopFinishMovesOn(s, k);
    case WorkerReads(_) => WorkerReadMovesOn(s, k);
    case WorkerAnswers(_, reply) => WorkerAnswerMovesOn(s, k, reply);
  }

  /** While a job is unsettled, some party can go on by itself, and then less is left to do. */
  lemma SomePartyCanGoOn(s: Sys, id: nat) returns (e: Event)
    requires SysOk(s) && Held(s.pool, id)
    ensures GoesOn(e) && Enabled(s, e) && SysOk(Step(s, e))
    ensures var t := Step(s, e); Left(t.pool.spawned, t.procs) < Left(s.pool.spawned, s.procs)
  {
    var k :| 0 <= k < |s.pool.spawned| && id in s.pool.spawned[k].jobs;
    e := NextOf(s, k, id);
    NextIsEnabled(s, k, id);
    StepKeepsSys(s, e);
    NextMovesOn(s, k, id);
    MovingOnLeavesLess(s, Step(s, e), k);
  }

  /** All the parties have come to rest: whatever could go on by itself changes nothing. */
  ghost predicate AtRest(s: Sys)
    requires Matched(s)
  {
    forall e :: GoesOn(e) && Enabled(s, e) ==> Step(s, e) == s
  }

  /** The settled ids are the submitted ones, each once. */
  ghost predicate AllSettled(events: seq<Event>, p: Pool) {
    && Distinct(SettledIds(p.settlements))
    && forall id :: id in SubmittedIds(events) <==> id in SettledIds(p.settlements)
  }

  /** When all parties have come to rest, every submission of the run has settled exactly once. */
  lemma RestMeansAllSettled(maxJobs: nat, events: seq<Event>)
    requires Possible(Started(maxJobs), events) && AtRest(Run(Started(maxJobs), events))
    ensures AllSettled(events, Run(Started(maxJobs), events).pool)
  {
    var s := Run(Started(maxJobs), events);
    EveryRunKeepsSys(maxJobs, events);
    JobsSettleExactlyOnce(maxJobs, events);
    forall id | id in SubmittedIds(events) ensures id in SettledIds(s.pool.settlements) {
      if Held(s.pool, id) {
        var e := SomePartyCanGoOn(s, id);
        assert false;
      }
    }
  }

  lemma RunUnfolds(s: Sys, e: Event, rest: seq<Event>)
    requires Matched(s) && Enabled(s, e) && Matched(Step(s, e)) && Possible(Step(s, e), rest)
    ensures Possible(s, [e] + rest) && Run(s, [e] + rest) == Run(Step(s, e), rest)
    ensures SubmittedIds([e] + rest) == (if e.Submits? then [e.message.id] else []) + SubmittedIds(rest)
  {
    assert ([e] + rest)[1..] == rest;
  }

  /** Going on until no job is unsettled. */
  lemma {:induction false} GoOn(s: Sys) returns (rest: seq<Event>)
    requires SysOk(s)
    ensures Possible(s, rest) && SubmittedIds(rest) == [] && forall e :: e in rest ==> GoesOn(e)
    ensures forall id :: !Held(Run(s, rest).pool, id)
    decreases Left(s.pool.spawned, s.procs)
  {
    if exists id :: Held(s.pool, id) {
      var id :| Held(s.pool, id);
      var e := SomePartyCanGoOn(s, id);
      var more := GoOn(Step(s, e));
      rest := [e] + more;
      RunUnfolds(s, e, more);
    } else {
      rest := [];
    }
  }

  /** Every run can be finished by its parties alone so that each of its submissions has settled,
      exactly once. */
  lemma EveryRunCanSettleEverything(maxJobs: nat, events: seq<Event>) returns (rest: seq<Event>)
    requires Possible(Started(maxJobs), events)
    ensures forall e :: e in rest ==> GoesOn(e)
    ensures Possible(Run(Started(maxJobs), events), rest)
    ensures AllSettled(events, Run(Run(Started(maxJobs), events), rest).pool)
  {
    var s := Run(Started(maxJobs), events);
    EveryRunKeepsSys(maxJobs, []);
    EveryRunKeepsSys(maxJobs, events);
    RunKnows(Started(maxJobs), events);
    rest := GoOn(s);
    RunKeepsSys(s, rest);
    RunKnows(s, rest);
    NothingHeldMeansAllSettled(Started(maxJobs).pool, s.pool, Run(s, rest).pool, events);
  }

  lemma NothingHeldMeansAllSettled(p: Pool, q: Pool, r: Pool, events: seq<Event>)
    requires PoolOk(r) && p.home == map[] && p.settlements == []
    requires Learnt(p, q, SubmittedIds(events)) && Learnt(q, r, []) && forall id :: !Held(r, id)
    ensures AllSettled(events, r)
  {
    forall id ensures id in SubmittedIds(events) <==> id in SettledIds(r.settlements) {
      assert !Known(p, id) && (Known(q, id) <==> id in SubmittedIds(events));
      assert Known(r, id) <==> Known(q, id);
      if Known(r, id) { KnownIsSettledOrHeld(r, id); }
    }
  }
}
