/** The pool and its workers together: the protocol's guarantees in every run. */
module SearchWorkerSystem {
  import opened Common
  import opened Wrappers
  import opened SearchWorkerProtocol
  import opened SearchWorkerSafety

  // ---- One worker and its two pipes ----

  /** The jobs a worker has taken from its input. */
  function Taken(w: PooledWorker, x: Proc): seq<nat>
    requires x.consumed <= |w.stdin|
  {
    StartIds(w.stdin[..x.consumed])
  }

  ghost predicate PipesOk(w: PooledWorker, x: Proc) {
    && x.consumed <= |w.stdin| && w.delivered <= |x.stdout|
    && (x.stdinEnded ==> w.stdinEnded && x.consumed == |w.stdin|)
    && (w.exitSeen ==> x.exit.Some?)
  }

  /** Everything taken is being worked on or has its one answer; a stopping worker may drop answers. */
  ghost predicate WorkOk(taken: seq<nat>, x: Proc) {
    var answers := AnswerIds(x.stdout);
    && Distinct(answers)
    && (forall id :: id in answers ==> id in taken && id !in x.runningJobs && id !in x.prewarming)
    && (forall id :: id in x.runningJobs || id in x.prewarming ==> id in taken)
    && x.runningJobs.Keys !! x.prewarming
    && (forall r :: r in x.stdout ==> r.id in taken)
    && (!x.stopping ==> forall id :: id in taken ==> id in answers || id in x.runningJobs || id in x.prewarming)
  }

  ghost predicate CountOk(x: Proc) {
    && x.pendingMessages == |x.runningJobs.Keys| + |x.prewarming|
    && (x.exit == Some(OnItsOwn) ==> x.stdinEnded && x.pendingMessages == 0 && !x.stopping)
  }

  /** An answer the pool has read has settled its job. */
  ghost predicate ReadOk(w: PooledWorker, x: Proc)
    requires w.delivered <= |x.stdout|
  {
    forall id :: id in AnswerIds(x.stdout[..w.delivered]) ==> id !in w.jobs
  }

  ghost predicate PairOk(w: PooledWorker, x: Proc) {
    PipesOk(w, x) && WorkOk(Taken(w, x), x) && CountOk(x) && ReadOk(w, x)
  }

  /** A settlement by an answer used an answer with its own id, read from the job's own worker. */
  ghost predicate Attributed(p: Pool, procs: seq<Proc>, t: Settlement) {
    (t.outcome.Resolved? || t.outcome.reason.WorkerError?) ==>
      var r := if t.outcome.Resolved? then t.outcome.reply else t.outcome.reason.reply;
      && r.id == t.id && IsTerminal(r) && t.id in p.home && t.worker == Some(p.home[t.id])
      && p.home[t.id] < |procs| && p.home[t.id] < |p.spawned|
      && p.spawned[p.home[t.id]].delivered <= |procs[p.home[t.id]].stdout|
      && r in procs[p.home[t.id]].stdout[..p.spawned[p.home[t.id]].delivered]
  }

  ghost predicate SysOk(s: Sys) {
    && Matched(s) && PoolOk(s.pool)
    && (forall k :: 0 <= k < |s.procs| ==> PairOk(s.pool.spawned[k], s.procs[k]))
    && (forall t :: t in s.pool.settlements ==> Attributed(s.pool, s.procs, t))
  }

  // ---- The worker's steps ----

  lemma TakenAfter(w: PooledWorker, x: Proc)
    requires x.consumed < |w.stdin|
    ensures var m := w.stdin[x.consumed];
      StartIds(w.stdin[..x.consumed + 1]) == if m.Cancel? then Taken(w, x) else Taken(w, x) + [m.id]
  {
    assert w.stdin[..x.consumed + 1] == w.stdin[..x.consumed] + [w.stdin[x.consumed]];
    StartIdsAppend(w.stdin[..x.consumed], w.stdin[x.consumed]);
  }

  lemma {:induction false} PrefixIsDistinct(messages: seq<Inbound>, n: nat)
    requires n <= |messages| && Distinct(StartIds(messages))
    ensures Distinct(StartIds(messages[..n]))
    ensures forall id :: id in StartIds(messages[..n]) ==> id in StartIds(messages)
  {
    if n < |messages| {
      PrefixIsDistinct(messages[..|messages| - 1], n);
      assert messages[..|messages| - 1][..n] == messages[..n];
      var before, last := StartIds(messages[..|messages| - 1]), messages[|messages| - 1];
      if !last.Cancel? { DistinctAppend(before, last.id); }
    } else {
      assert messages[..n] == messages;
    }
  }

  lemma StartKeepsWork(taken: seq<nat>, x: Proc, m: Inbound)
    requires WorkOk(taken, x) && !m.Cancel? && m.id !in taken
    ensures WorkOk(taken + [m.id], ReadInbound(x, m))
  {
    assert m.id in taken + [m.id];
    assert forall id :: id in taken ==> id in taken + [m.id];
  }

  lemma CancelLineKeepsWork(taken: seq<nat>, x: Proc, id: nat)
    requires WorkOk(taken, x)
    ensures WorkOk(taken, ReadInbound(x, Cancel(id)))
  {
  }

  lemma ReadInboundKeepsPair(w: PooledWorker, x: Proc)
    requires PairOk(w, x) && x.consumed < |w.stdin| && Distinct(StartIds(w.stdin)) && x.exit.None?
    ensures PairOk(w, ReadInbound(x, w.stdin[x.consumed]))
  {
    var m := w.stdin[x.consumed];
    TakenAfter(w, x);
    PrefixIsDistinct(w.stdin, x.consumed + 1);
    if m.Cancel? {
      CancelLineKeepsWork(Taken(w, x), x, m.id);
    } else {
      DistinctAppend(Taken(w, x), m.id);
      StartKeepsWork(Taken(w, x), x, m);
    }
    ReadInboundKeepsCount(x, m);
  }

  lemma ReadInboundKeepsCount(x: Proc, m: Inbound)
    requires CountOk(x) && x.exit.None? && (!m.Cancel? ==> m.id !in x.runningJobs && m.id !in x.prewarming)
    ensures CountOk(ReadInbound(x, m))
  {
    var y := ReadInbound(x, m);
    match m
    case Request(id) => assert y.runningJobs.Keys == x.runningJobs.Keys + {id};
    case Prewarm(id) =>
    case Cancel(id) => assert y.runningJobs.Keys == x.runningJobs.Keys;
  }

  lemma StopNowKeepsPair(w: PooledWorker, x: Proc)
    requires PairOk(w, x) && x.exit.None?
    ensures PairOk(w, StopNow(x))
  {
    if !x.stopping { assert StopNow(x).runningJobs.Keys == x.runningJobs.Keys; }
  }

  lemma ReadEndKeepsPair(w: PooledWorker, x: Proc)
    requires PairOk(w, x) && x.exit.None? && w.stdinEnded && x.consumed == |w.stdin|
    ensures PairOk(w, ReadEnd(x))
  {
    if x.stopGrace { StopNowKeepsPair(w, x.(stdinEnded := true)); }
  }

  lemma SendKeepsReadOk(w: PooledWorker, x: Proc, reply: Reply)
    requires w.delivered <= |x.stdout| && ReadOk(w, x)
    ensures w.delivered <= |Send(x, reply).stdout| && ReadOk(w, Send(x, reply))
    ensures Send(x, reply).stdout[..w.delivered] == x.stdout[..w.delivered]
  {
    assert Send(x, reply).stdout[..w.delivered] == x.stdout[..w.delivered];
  }

  lemma ReportKeepsPair(w: PooledWorker, x: Proc, id: nat, content: nat)
    requires PairOk(w, x) && x.exit.None? && id in x.runningJobs
    ensures PairOk(w, Send(x, Progress(id, content)))
  {
    SendKeepsReadOk(w, x, Progress(id, content));
    AnswerIdsAppend(x.stdout, Progress(id, content));
  }

  /** The answered job, out of the worker's books. */
  function Answered(x: Proc, reply: Reply): Proc {
    Send(x, reply).(runningJobs := x.runningJobs - {reply.id}, prewarming := x.prewarming - {reply.id},
                    pendingMessages := x.pendingMessages - 1)
  }

  lemma AnswerKeepsCount(x: Proc, reply: Reply)
    requires CountOk(x) && x.exit.None?
    requires x.runningJobs.Keys !! x.prewarming && (reply.id in x.runningJobs || reply.id in x.prewarming)
    ensures CountOk(Answered(x, reply))
  {
    assert Answered(x, reply).runningJobs.Keys == x.runningJobs.Keys - {reply.id};
  }

  lemma AnswerKeepsWork(taken: seq<nat>, x: Proc, reply: Reply)
    requires WorkOk(taken, x) && IsTerminal(reply) && (reply.id in x.runningJobs || reply.id in x.prewarming)
    ensures WorkOk(taken, Answered(x, reply))
  {
    AnswerIdsAppend(x.stdout, reply);
    DistinctAppend(AnswerIds(x.stdout), reply.id);
  }

  lemma AnsweredKeepsPair(w: PooledWorker, x: Proc, reply: Reply)
    requires PairOk(w, x) && x.exit.None? && IsTerminal(reply)
    requires reply.id in x.runningJobs || reply.id in x.prewarming
    ensures PairOk(w, Answered(x, reply))
  {
    SendKeepsReadOk(w, x, reply);
    AnswerKeepsWork(Taken(w, x), x, reply);
    AnswerKeepsCount(x, reply);
  }

  lemma AnswerKeepsPair(w: PooledWorker, x: Proc, reply: Reply)
    requires PairOk(w, x) && x.exit.None? && IsTerminal(reply)
    requires reply.id in x.runningJobs || reply.id in x.prewarming
    ensures PairOk(w, FinishJob(x, reply))
  {
    AnsweredKeepsPair(w, x, reply);
    ExitKeepsPair(w, Answered(x, reply));
  }

  lemma ExitKeepsPair(w: PooledWorker, x: Proc)
    requires PairOk(w, x) && x.exit.None?
    ensures PairOk(w, MaybeExit(x))
  {
  }

  // ---- The pool's steps ----

  /** The pool's record moved on without touching the pipes: jobs only left. */
  ghost predicate Follows(v: PooledWorker, w: PooledWorker) {
    && w.stdin == v.stdin && w.delivered == v.delivered && w.exitSeen == v.exitSeen
    && (v.stdinEnded ==> w.stdinEnded) && (forall id :: id in w.jobs ==> id in v.jobs)
  }

  ghost predicate AllFollow(p: Pool, q: Pool) {
    && |p.spawned| == |q.spawned| && p.home == q.home
    && forall k :: 0 <= k < |p.spawned| ==> Follows(p.spawned[k], q.spawned[k])
  }

  lemma FollowsKeepsPair(v: PooledWorker, w: PooledWorker, x: Proc)
    requires PairOk(v, x) && Follows(v, w)
    ensures PairOk(w, x)
  {
  }

  lemma SettleFollows(p: Pool, k: nat, id: nat, outcome: Outcome)
    requires k < |p.spawned|
    ensures var q := SettleJob(p, k, id, outcome);
      && AllFollow(p, q)
      && q.settlements ==
          (if id in p.spawned[k].jobs then p.settlements + [Settlement(id, Some(k), outcome)] else p.settlements)
  {
    WithoutRemoves(p.spawned[k].jobs, id);
  }

  lemma {:induction false} RejectAllFollows(p: Pool, k: nat, ids: seq<nat>)
    requires k < |p.spawned|
    ensures AllFollow(p, RejectAll(p, k, ids))
    ensures forall id :: id in ids ==> id !in RejectAll(p, k, ids).spawned[k].jobs
    ensures forall t :: t in RejectAll(p, k, ids).settlements ==>
      t in p.settlements || (t.worker == Some(k) && t.outcome == Rejected(WorkerDied))
    decreases |ids|
  {
    if ids != [] {
      var q := SettleJob(p, k, ids[0], Rejected(WorkerDied));
      SettleFollows(p, k, ids[0], Rejected(WorkerDied));
      SettleRemoves(p, k, ids[0], Rejected(WorkerDied));
      RejectAllFollows(q, k, ids[1..]);
      assert ids == [ids[0]] + ids[1..];
    }
  }

  lemma SettleRemoves(p: Pool, k: nat, id: nat, outcome: Outcome)
    requires k < |p.spawned|
    ensures id !in SettleJob(p, k, id, outcome).spawned[k].jobs
  {
    WithoutRemoves(p.spawned[k].jobs, id);
  }

  /** A line written to a worker whose input is open. */
  lemma LineKeepsPair(w: PooledWorker, x: Proc, m: Inbound)
    requires PairOk(w, x) && !w.stdinEnded
    requires !m.Cancel? ==> m.id !in StartIds(w.stdin) && Distinct(StartIds(w.stdin))
    ensures PairOk(w.(stdin := w.stdin + [m], jobs := if m.Cancel? then w.jobs else w.jobs + [m.id]), x)
  {
    var v := w.(stdin := w.stdin + [m], jobs := if m.Cancel? then w.jobs else w.jobs + [m.id]);
    assert v.stdin[..x.consumed] == w.stdin[..x.consumed];
    if !m.Cancel? {
      PrefixIsDistinct(w.stdin, x.consumed);
      AnswersArePrefixed(x.stdout, w.delivered);
    }
  }

  lemma {:induction false} AnswersArePrefixed(replies: seq<Reply>, n: nat)
    requires n <= |replies|
    ensures forall id :: id in AnswerIds(replies[..n]) ==> id in AnswerIds(replies)
  {
    if n < |replies| {
      AnswersArePrefixed(replies[..|replies| - 1], n);
      assert replies[..|replies| - 1][..n] == replies[..n];
    } else {
      assert replies[..n] == replies;
    }
  }

  lemma ReadPair(v: PooledWorker, w: PooledWorker, x: Proc)
    requires PairOk(v, x) && v.delivered < |x.stdout| && Follows(v.(delivered := v.delivered + 1), w)
    requires IsTerminal(x.stdout[v.delivered]) ==> x.stdout[v.delivered].id !in w.jobs
    ensures PairOk(w, x)
  {
    assert x.stdout[..w.delivered] == x.stdout[..v.delivered] + [x.stdout[v.delivered]];
    AnswerIdsAppend(x.stdout[..v.delivered], x.stdout[v.delivered]);
  }

  /** What delivering a line does to the pool's records. */
  lemma DeliverFollows(p: Pool, k: nat, reply: Reply)
    requires k < |p.spawned|
    ensures var q := Deliver(p, k, reply);
      && AllFollow(p, q) && (IsTerminal(reply) ==> reply.id !in q.spawned[k].jobs)
      && (q.settlements == p.settlements
          || (reply.id in p.spawned[k].jobs && IsTerminal(reply)
              && q.settlements == p.settlements + [Settlement(reply.id, Some(k), AnswerOutcome(reply))]))
  {
    if IsTerminal(reply) {
      SettleFollows(p, k, reply.id, AnswerOutcome(reply));
      SettleRemoves(p, k, reply.id, AnswerOutcome(reply));
    }
  }

  function AnswerOutcome(reply: Reply): Outcome {
    if reply.Failure? then Rejected(WorkerError(reply)) else Resolved(reply)
  }

  // ---- Attribution ----

  /** Later in a run: homes stay, pipes only grow, reading only advances. */
  ghost predicate Later(s: Sys, t: Sys) {
    && Matched(s) && Matched(t) && |s.procs| <= |t.procs|
    && (forall id :: id in s.pool.home ==> id in t.pool.home && t.pool.home[id] == s.pool.home[id])
    && (forall k :: 0 <= k < |s.procs| ==> s.procs[k].stdout <= t.procs[k].stdout)
    && (forall k :: 0 <= k < |s.procs| ==>
        s.pool.spawned[k].delivered <= t.pool.spawned[k].delivered <= |t.procs[k].stdout|)
  }

  lemma AttributionLasts(s: Sys, t: Sys, x: Settlement)
    requires Later(s, t) && Attributed(s.pool, s.procs, x)
    ensures Attributed(t.pool, t.procs, x)
  {
    if x.outcome.Resolved? || x.outcome.reason.WorkerError? {
      var k := s.pool.home[x.id];
      var n, m := s.pool.spawned[k].delivered, t.pool.spawned[k].delivered;
      assert t.procs[k].stdout[..m][..n] == s.procs[k].stdout[..n];
    }
  }

  ghost predicate AllPaired(s: Sys) {
    Matched(s) && forall k :: 0 <= k < |s.procs| ==> PairOk(s.pool.spawned[k], s.procs[k])
  }

  lemma SysFollows(s: Sys, t: Sys)
    requires SysOk(s) && PoolOk(t.pool) && AllPaired(t) && Later(s, t)
    requires forall x :: x in t.pool.settlements ==> x in s.pool.settlements || Attributed(t.pool, t.procs, x)
    ensures SysOk(t)
  {
    forall x | x in t.pool.settlements ensures Attributed(t.pool, t.procs, x) {
      if x in s.pool.settlements { AttributionLasts(s, t, x); }
    }
  }

  // ---- Every event ----

  /** An event that only touches the pool's records and adds no settlement by answer. */
  lemma PoolEventKeepsSys(s: Sys, q: Pool)
    requires SysOk(s) && PoolOk(q) && AllFollow(s.pool, q)
    requires forall x :: x in q.settlements ==> x in s.pool.settlements || Attributed(q, s.procs, x)
    ensures SysOk(s.(pool := q))
  {
    var t := s.(pool := q);
    forall k | 0 <= k < |t.procs| ensures PairOk(t.pool.spawned[k], t.procs[k]) {
      FollowsKeepsPair(s.pool.spawned[k], q.spawned[k], s.procs[k]);
    }
    SysFollows(s, t);
  }

  /** An event inside one worker process. */
  lemma ProcEventKeepsSys(s: Sys, k: nat, x: Proc)
    requires SysOk(s) && k < |s.procs| && PairOk(s.pool.spawned[k], x) && s.procs[k].stdout <= x.stdout
    ensures SysOk(s.(procs := s.procs[k := x]))
  {
    SysFollows(s, s.(procs := s.procs[k := x]));
  }

  /** An event that changes one worker's record, and perhaps its reading position. */
  lemma OneWorkerKeepsSys(s: Sys, q: Pool, k: nat)
    requires SysOk(s) && PoolOk(q) && k < |s.procs| && |q.spawned| == |s.pool.spawned|
    requires forall j :: 0 <= j < |q.spawned| && j != k ==> q.spawned[j] == s.pool.spawned[j]
    requires forall id :: id in s.pool.home ==> id in q.home && q.home[id] == s.pool.home[id]
    requires PairOk(q.spawned[k], s.procs[k]) && s.pool.spawned[k].delivered <= q.spawned[k].delivered
    requires forall x :: x in q.settlements ==> x in s.pool.settlements || Attributed(q, s.procs, x)
    ensures SysOk(s.(pool := q))
  {
    var t := s.(pool := q);
    assert AllPaired(t) by {
      forall j | 0 <= j < |t.procs| ensures PairOk(t.pool.spawned[j], t.procs[j]) {}
    }
    assert Later(s, t) by {
      forall j | 0 <= j < |s.procs|
        ensures s.pool.spawned[j].delivered <= q.spawned[j].delivered <= |s.procs[j].stdout|
      {
        assert PairOk(q.spawned[j], s.procs[j]);
      }
    }
    SysFollows(s, t);
  }

  lemma CancelLineKeepsSys(s: Sys, k: nat, id: nat)
    requires SysOk(s) && k < |s.procs| && !s.pool.spawned[k].retiring
    ensures SysOk(s.(pool := Write(s.pool, k, Cancel(id))))
  {
    assert WorkerOk(s.pool, k);
    CancelLineKeepsPoolOk(s.pool, k, id);
    LineKeepsPair(s.pool.spawned[k], s.procs[k], Cancel(id));
    OneWorkerKeepsSys(s, Write(s.pool, k, Cancel(id)), k);
  }

  /** A job settled without an answer. */
  lemma SettleKeepsSys(s: Sys, k: nat, id: nat, reason: Reason)
    requires SysOk(s) && k < |s.procs| && !reason.WorkerError?
    ensures SysOk(s.(pool := SettleJob(s.pool, k, id, Rejected(reason))))
  {
    SettleKeepsPoolOk(s.pool, k, id, Rejected(reason));
    SettleFollows(s.pool, k, id, Rejected(reason));
    PoolEventKeepsSys(s, SettleJob(s.pool, k, id, Rejected(reason)));
  }

  lemma CancelKeepsSys(s: Sys, k: nat, id: nat, reason: Reason, writeFails: bool)
    requires SysOk(s) && k < |s.procs| && (reason.Cancelled? || reason.DeadlineExceeded?)
    ensures SysOk(s.(pool := CancelJob(s.pool, k, id, reason, writeFails)))
  {
    if id in s.pool.spawned[k].jobs {
      if s.pool.spawned[k].retiring || writeFails {
        SettleKeepsSys(s, k, id, reason);
      } else {
        CancelLineKeepsSys(s, k, id);
        SettleKeepsSys(s.(pool := Write(s.pool, k, Cancel(id))), k, id, reason);
      }
    }
  }

  lemma DeliverIsAttributed(s: Sys, k: nat, q: Pool)
    requires SysOk(s) && k < |s.procs| && s.pool.spawned[k].delivered < |s.procs[k].stdout|
    requires |q.spawned| == |s.pool.spawned| && q.home == s.pool.home
        && q.spawned[k].delivered == s.pool.spawned[k].delivered + 1
    ensures var reply := s.procs[k].stdout[s.pool.spawned[k].delivered];
      IsTerminal(reply) && reply.id in s.pool.spawned[k].jobs ==>
        Attributed(q, s.procs, Settlement(reply.id, Some(k), AnswerOutcome(reply)))
  {
    var n := s.pool.spawned[k].delivered;
    assert WorkerOk(s.pool, k);
    assert s.procs[k].stdout[n] == s.procs[k].stdout[..n + 1][n];
  }

  lemma DeliverTouchesOne(p: Pool, k: nat, reply: Reply)
    requires k < |p.spawned|
    ensures forall j :: 0 <= j < |p.spawned| && j != k ==> Deliver(p, k, reply).spawned[j] == p.spawned[j]
  {
  }

  /** What reading a line leaves as it was, and what it may settle. */
  lemma ReadShape(p: Pool, k: nat, reply: Reply)
    requires k < |p.spawned|
    ensures var q := ReadReply(p, k, reply);
      && (forall j :: 0 <= j < |p.spawned| && j != k ==> q.spawned[j] == p.spawned[j])
      && q.home == p.home && Follows(p.spawned[k].(delivered := p.spawned[k].delivered + 1), q.spawned[k])
      && (IsTerminal(reply) ==> reply.id !in q.spawned[k].jobs)
      && (q.settlements == p.settlements
          || (reply.id in p.spawned[k].jobs && IsTerminal(reply)
              && q.settlements == p.settlements + [Settlement(reply.id, Some(k), AnswerOutcome(reply))]))
  {
    var r := SetWorker(p, k, p.spawned[k].(delivered := p.spawned[k].delivered + 1));
    DeliverFollows(r, k, reply);
    DeliverTouchesOne(r, k, reply);
  }

  lemma ReadKeepsSys(s: Sys, k: nat)
    requires SysOk(s) && k < |s.procs| && s.pool.spawned[k].delivered < |s.procs[k].stdout|
    ensures SysOk(s.(pool := ReadReply(s.pool, k, s.procs[k].stdout[s.pool.spawned[k].delivered])))
  {
    var reply := s.procs[k].stdout[s.pool.spawned[k].delivered];
    ReadKeepsPoolOk(s.pool, k, reply);
    ReadShape(s.pool, k, reply);
    AfterRead(s, k, ReadReply(s.pool, k, reply));
  }

  lemma AfterRead(s: Sys, k: nat, q: Pool)
    requires SysOk(s) && k < |s.procs| && s.pool.spawned[k].delivered < |s.procs[k].stdout|
    requires PoolOk(q) && |q.spawned| == |s.pool.spawned| && q.home == s.pool.home
    requires forall j :: 0 <= j < |q.spawned| && j != k ==> q.spawned[j] == s.pool.spawned[j]
    requires Follows(s.pool.spawned[k].(delivered := s.pool.spawned[k].delivered + 1), q.spawned[k])
    requires var reply := s.procs[k].stdout[s.pool.spawned[k].delivered];
      && (IsTerminal(reply) ==> reply.id !in q.spawned[k].jobs)
      && (q.settlements == s.pool.settlements
          || (reply.id in s.pool.spawned[k].jobs && IsTerminal(reply)
              && q.settlements == s.pool.settlements + [Settlement(reply.id, Some(k), AnswerOutcome(reply))]))
    ensures SysOk(s.(pool := q))
  {
    ReadPair(s.pool.spawned[k], q.spawned[k], s.procs[k]);
    DeliverIsAttributed(s, k, q);
    OneWorkerKeepsSys(s, q, k);
  }

  lemma SeeExitKeepsSys(s: Sys, k: nat)
    requires SysOk(s) && k < |s.procs| && s.procs[k].exit.Some?
    ensures SysOk(s.(pool := SeeExit(s.pool, k)))
  {
    var q := SeeExit(s.pool, k);
    SeeExitKeepsPoolOk(s.pool, k);
    ExitSeenKeepsPair(s.pool.spawned[k], s.procs[k]);
    OneWorkerKeepsSys(s, q, k);
  }

  lemma ExitSeenKeepsPair(w: PooledWorker, x: Proc)
    requires PairOk(w, x) && x.exit.Some?
    ensures PairOk(w.(exitSeen := true), x)
  {
  }

  lemma RejectsKeepsSys(s: Sys, k: nat)
    requires SysOk(s) && k < |s.procs|
    ensures SysOk(s.(pool := RejectAll(s.pool, k, s.pool.spawned[k].jobs)))
  {
    RejectAllKeepsPoolOk(s.pool, k, s.pool.spawned[k].jobs);
    RejectAllFollows(s.pool, k, s.pool.spawned[k].jobs);
    PoolEventKeepsSys(s, RejectAll(s.pool, k, s.pool.spawned[k].jobs));
  }

  lemma EnsureKeepsSys(s: Sys, provider: string)
    requires SysOk(s)
    ensures SysOk(WithPool(s, EnsureWorker(s.pool, provider)))
  {
    var t := WithPool(s, EnsureWorker(s.pool, provider));
    EnsureKeepsPoolOk(s.pool, provider);
    NewPairIsOk(provider);
    assert AllPaired(t) by {
      forall k | 0 <= k < |t.procs| ensures PairOk(t.pool.spawned[k], t.procs[k]) {
        if k < |s.procs| { assert PairOk(s.pool.spawned[k], s.procs[k]); }
      }
    }
    SysFollows(s, t);
  }

  lemma NewPairIsOk(provider: string)
    ensures PairOk(NewWorker(provider), NEW_PROC)
  {
  }

  lemma AcceptedKeepsSys(s: Sys, k: nat, message: Inbound)
    requires SysOk(s) && k < |s.procs| && !s.pool.spawned[k].retiring && !message.Cancel?
    requires message.id !in s.pool.home && message.id !in SettledIds(s.pool.settlements)
    ensures SysOk(s.(pool := Accepted(s.pool, k, message)))
  {
    assert WorkerOk(s.pool, k);
    AcceptedKeepsPoolOk(s.pool, k, message);
    LineKeepsPair(s.pool.spawned[k], s.procs[k], message);
    OneWorkerKeepsSys(s, Accepted(s.pool, k, message), k);
  }

  lemma UnwrittenKeepsSys(s: Sys, k: nat, id: nat)
    requires SysOk(s) && k < |s.procs| && id !in s.pool.home && id !in SettledIds(s.pool.settlements)
    ensures SysOk(s.(pool := Unwritten(s.pool, k, id)))
  {
    UnwrittenKeepsPoolOk(s.pool, k, id);
    FollowsKeepsPair(s.pool.spawned[k], Unwritten(s.pool, k, id).spawned[k], s.procs[k]);
    OneWorkerKeepsSys(s, Unwritten(s.pool, k, id), k);
  }

  lemma RecycleFollows(p: Pool, k: nat)
    requires k < |p.spawned|
    ensures AllFollow(p, MaybeRecycle(p, k)) && MaybeRecycle(p, k).settlements == p.settlements
  {
  }

  lemma RecycleKeepsSys(s: Sys, k: nat)
    requires SysOk(s) && k < |s.procs|
    ensures SysOk(s.(pool := MaybeRecycle(s.pool, k)))
  {
    RecycleKeepsPoolOk(s.pool, k);
    RecycleFollows(s.pool, k);
    PoolEventKeepsSys(s, MaybeRecycle(s.pool, k));
  }

  lemma RefuseKeepsSys(s: Sys, id: nat, reason: Reason)
    requires SysOk(s) && id !in s.pool.home && id !in SettledIds(s.pool.settlements) && !reason.WorkerError?
    ensures SysOk(s.(pool := Refuse(s.pool, id, reason)))
  {
    RefuseKeepsPoolOk(s.pool, id, reason);
    PoolEventKeepsSys(s, Refuse(s.pool, id, reason));
  }

  /** A submission to worker `k`, whether or not its line gets through. */
  lemma HandOverKeepsSys(s: Sys, k: nat, message: Inbound, writeFails: bool)
    requires SysOk(s) && k < |s.procs| && !s.pool.spawned[k].retiring && !message.Cancel?
    requires message.id !in s.pool.home && message.id !in SettledIds(s.pool.settlements)
    ensures var r := Listed(s.pool, k, message.id);
      SysOk(s.(pool := if writeFails then SettleJob(r, k, message.id, Rejected(WriteFailed)) else Write(r, k, message)))
  {
    if writeFails {
      assert WorkerOk(s.pool, k);
      UnwrittenShape(s.pool, k, message.id);
      UnwrittenKeepsSys(s, k, message.id);
      RecycleKeepsSys(s.(pool := Unwritten(s.pool, k, message.id)), k);
    } else {
      WrittenShape(s.pool, k, message);
      AcceptedKeepsSys(s, k, message);
    }
  }

  function HandOver(q: Pool, k: nat, message: Inbound, writeFails: bool): Pool
    requires k < |q.spawned|
  {
    var r := Listed(q, k, message.id);
    if writeFails then SettleJob(r, k, message.id, Rejected(WriteFailed)) else Write(r, k, message)
  }

  lemma SubmitIsHandOver(p: Pool, provider: string, message: Inbound, writeFails: bool)
    ensures var q := EnsureWorker(p, provider);
      && Submit(p, provider, message, false, false, writeFails) == HandOver(q, q.workers[provider], message, writeFails)
      && |HandOver(q, q.workers[provider], message, writeFails).spawned| == |q.spawned|
  {
  }

  /** A submission that reaches a worker, started for it if need be. */
  lemma HandedOverKeepsSys(s: Sys, provider: string, message: Inbound, writeFails: bool)
    requires SysOk(s) && !message.Cancel? && message.id !in s.pool.home && message.id !in SettledIds(s.pool.settlements)
    ensures SysOk(WithPool(s, Submit(s.pool, provider, message, false, false, writeFails)))
  {
    var q := EnsureWorker(s.pool, provider);
    var k, t := q.workers[provider], WithPool(s, q);
    EnsureKeepsSys(s, provider);
    EnsureKeepsPoolOk(s.pool, provider);
    SubmitIsHandOver(s.pool, provider, message, writeFails);
    HandOverKeepsSys(t, k, message, writeFails);
    assert t.(pool := HandOver(q, k, message, writeFails)) == WithPool(s, HandOver(q, k, message, writeFails));
  }

  lemma RefusedKeepsSys(s: Sys, id: nat, reason: Reason)
    requires SysOk(s) && id !in s.pool.home && id !in SettledIds(s.pool.settlements) && !reason.WorkerError?
    ensures SysOk(WithPool(s, Refuse(s.pool, id, reason)))
  {
    RefuseKeepsSys(s, id, reason);
    assert WithPool(s, Refuse(s.pool, id, reason)) == s.(pool := Refuse(s.pool, id, reason));
  }

  lemma SubmitKeepsSys(s: Sys, provider: string, message: Inbound, aborted: bool, spawnFails: bool, writeFails: bool)
    requires SysOk(s) && !message.Cancel? && message.id !in s.pool.home && message.id !in SettledIds(s.pool.settlements)
    ensures SysOk(WithPool(s, Submit(s.pool, provider, message, aborted, spawnFails, writeFails)))
  {
    var p := Submit(s.pool, provider, message, aborted, spawnFails, writeFails);
    if aborted {
      RefusedKeepsSys(s, message.id, Cancelled);
    } else if !HasWorker(s.pool, provider) && spawnFails {
      RefusedKeepsSys(s, message.id, SpawnFailed);
    } else {
      assert p == Submit(s.pool, provider, message, false, false, writeFails);
      HandedOverKeepsSys(s, provider, message, writeFails);
    }
  }

  lemma PoolStepKeepsSys(s: Sys, e: Event)
    requires SysOk(s) && Enabled(s, e) && !OfWorker(e)
    ensures SysOk(Step(s, e))
  {
    match e
    case Submits(provider, message, aborted, spawnFails, writeFails) =>
      SubmitKeepsSys(s, provider, message, aborted, spawnFails, writeFails);
    case Starts(provider) => EnsureKeepsSys(s, provider);
    case Cancels(k, id, reason, writeFails) => CancelKeepsSys(s, k, id, reason, writeFails);
    case PoolReads(k) => ReadKeepsSys(s, k);
    case PoolSeesExit(k) => SeeExitKeepsSys(s, k);
    case PoolRejects(k) => RejectsKeepsSys(s, k);
    case Stops => StopKeepsPoolOk(s.pool); PoolEventKeepsSys(s, Stop(s.pool));
  }

  /** The worker's books after an event of its own. */
  lemma ProcStepKeepsPair(w: PooledWorker, x: Proc, e: Event)
    requires PairOk(w, x) && x.exit.None? && Distinct(StartIds(w.stdin)) && OfWorker(e)
    requires e.WorkerReads? ==> x.consumed < |w.stdin|
    requires e.WorkerReadsEnd? ==> w.stdinEnded && x.consumed == |w.stdin|
    requires e.WorkerReports? ==> e.id in x.runningJobs
    requires e.WorkerAnswers? ==> IsTerminal(e.reply) && (e.reply.id in x.runningJobs || e.reply.id in x.prewarming)
    ensures PairOk(w, ProcStep(x, w.stdin, e))
  {
    match e
    case WorkerReads(_) => ReadInboundKeepsPair(w, x);
    case WorkerReadsEnd(_) => ReadEndKeepsPair(w, x);
    case WorkerReports(_, id, content) => ReportKeepsPair(w, x, id, content);
    case WorkerAnswers(_, reply) => AnswerKeepsPair(w, x, reply);
    case WorkerSignalled(_) => SignalKeepsPair(w, x);
    case GraceEnds(_) => StopNowKeepsPair(w, x);
    case StopFinishes(_) => ExitedKeepsPair(w, x, AfterStop);
    case WorkerKilled(_) => ExitedKeepsPair(w, x, Killed);
  }

  lemma SignalKeepsPair(w: PooledWorker, x: Proc)
    requires PairOk(w, x) && x.exit.None?
    ensures PairOk(w, Signal(x))
  {
    StopNowKeepsPair(w, x);
  }

  lemma ExitedKeepsPair(w: PooledWorker, x: Proc, exit: Exit)
    requires PairOk(w, x) && exit != OnItsOwn
    ensures PairOk(w, x.(exit := Some(exit)))
  {
  }

  lemma OutputOnlyGrows(x: Proc, stdin: seq<Inbound>, e: Event)
    requires OfWorker(e) && (e.WorkerReads? ==> x.consumed < |stdin|)
    ensures x.stdout <= ProcStep(x, stdin, e).stdout
  {
  }

  lemma StepKeepsSys(s: Sys, e: Event)
    requires SysOk(s) && Enabled(s, e)
    ensures SysOk(Step(s, e))
  {
    if !OfWorker(e) {
      PoolStepKeepsSys(s, e);
    } else {
      var w, x := s.pool.spawned[e.k], s.procs[e.k];
      assert WorkerOk(s.pool, e.k);
      ProcStepKeepsPair(w, x, e);
      OutputOnlyGrows(x, w.stdin, e);
      ProcEventKeepsSys(s, e.k, ProcStep(x, w.stdin, e));
    }
  }

  // ---- Runs ----

  function Started(maxJobs: nat): Sys { Sys(Pool(map[], [], maxJobs, map[], []), []) }

  ghost predicate Possible(s: Sys, events: seq<Event>)
    requires Matched(s)
    decreases |events|
  {
    events == [] || (Enabled(s, events[0]) && Matched(Step(s, events[0])) && Possible(Step(s, events[0]), events[1..]))
  }

  ghost function Run(s: Sys, events: seq<Event>): (t: Sys)
    requires Matched(s) && Possible(s, events)
    ensures Matched(t)
    decreases |events|
  {
    if events == [] then s else Run(Step(s, events[0]), events[1..])
  }

  lemma {:induction false} RunKeepsSys(s: Sys, events: seq<Event>)
    requires SysOk(s) && Possible(s, events)
    ensures SysOk(Run(s, events))
    decreases |events|
  {
    if events != [] {
      StepKeepsSys(s, events[0]);
      RunKeepsSys(Step(s, events[0]), events[1..]);
    }
  }

  lemma EveryRunKeepsSys(maxJobs: nat, events: seq<Event>)
    requires Possible(Started(maxJobs), events)
    ensures SysOk(Run(Started(maxJobs), events))
  {
    RunKeepsSys(Started(maxJobs), events);
  }
}
