/**
 The router's table of live jobs around the admission controller: a job enters the table when it asks
 for capacity and leaves it when its run has settled or its refusal was delivered. The promise callbacks,
 the start delay and the end of a run are separate events, in any order.
 */
module LiveJobs {
  import opened Wrappers
  import opened SearchAdmission
  import opened SearchAdmissionRequests
  import opened SearchAdmissionSafety
  import opened SearchAdmissionTheorems

  /** Jobs are named by their admission tickets. `begun` are the jobs whose start delay has passed,
      `ran` those whose run was called then, `told` those whose refusal was delivered. */
  datatype System = System(admission: State, live: set<nat>, aborted: set<nat>, begun: set<nat>, ran: set<nat>,
      told: set<nat>)

  const EMPTY: System := System(INITIAL, {}, {}, {}, {}, {})

  datatype Event =
    | Submit(request: Request, now: int, reading: Option<Reading>)
    | Refused(id: nat)
    | Begin(id: nat)
    | Settle(id: nat, reading: Option<Reading>)
    | Stop(id: nat, reading: Option<Reading>)
    | MemoryTimer(reading: Option<Reading>)
    | ShutDown(message: string)

  /** What the event asks of admission; a stop of a job that does not wait asks nothing. */
  function AdmissionOp(s: System, e: Event): Option<Op> {
    match e
    case Submit(request, now, reading) => Some(OpAcquire(request, false, now, reading))
    case Settle(id, reading) =>
      if id in s.begun && IsActive(s.admission, id) then Some(OpRelease(id, reading)) else None
    case Stop(id, reading) => if id in s.live && id !in s.aborted then Some(OpAbort(id, reading)) else None
    case MemoryTimer(reading) => Some(OpRecheck(reading))
    case ShutDown(message) => Some(OpStopAccepting(message))
    case _ => None
  }

  function Admission(s: System, e: Event): State {
    match AdmissionOp(s, e)
    case Some(op) => Step(s.admission, op)
    case None => s.admission
  }

  predicate BeginsNow(s: System, id: nat) {
    IsActive(s.admission, id) && id !in s.begun
  }

  function StepSystem(s: System, e: Event): System {
    Moved(s, e, Admission(s, e))
  }

  /** The table after an event, given what became of admission. */
  function Moved(s: System, e: Event, admission: State): System {
    var t := s.(admission := admission);
    match e
    case Submit(_, _, _) => t.(live := s.live + {s.admission.issued})
    case Refused(id) =>
      if id in s.live && id in s.admission.turnedAway then t.(live := s.live - {id}, told := s.told + {id}) else t
    case Begin(id) =>
      if BeginsNow(s, id) then t.(begun := s.begun + {id}, ran := if id in s.aborted then s.ran else s.ran + {id})
      else t
    case Settle(id, _) => if AdmissionOp(s, e).Some? then t.(live := s.live - {id}) else t
    case Stop(id, _) => if AdmissionOp(s, e).Some? then t.(aborted := s.aborted + {id}) else t
    case _ => t
  }

  function RunSystem(s: System, events: seq<Event>): System {
    if events == [] then s else StepSystem(RunSystem(s, events[..|events| - 1]), events[|events| - 1])
  }

  ghost predicate Open(s: System, id: nat) {
    id < s.admission.issued && id !in s.admission.released && id !in s.told
  }

  ghost predicate SystemInv(s: System) {
    && Inv(s.admission)
    && (forall id: nat :: id in s.live <==> Open(s, id))
    && s.told <= s.admission.turnedAway
    && BegunOk(s)
  }

  // ---- What a step of admission does to tickets ----

  /** What runs goes on running until it is released. */
  lemma ActiveStays(s: State, op: Op, id: nat)
    requires IsActive(s, id) && !(op.OpRelease? && op.id == id)
    ensures IsActive(Step(s, op), id)
  {
    var e :| e in s.active && e.id == id;
    StepIsPreparedPass(s, op);
    if op.OpRelease? {
      WithoutKeeps(s.active, op.id);
    }
    assert e in Prepare(s, op).active;
    if HasReading(op) {
      DrainStarts(Prepare(s, op), op.reading);
    }
    assert e in Step(s, op).active;
  }

  ghost predicate Placed(s: State, id: nat) {
    && (id < s.issued <==> IsActive(s, id) || IsQueued(s, id) || id in s.released || id in s.turnedAway)
    && (id in s.released ==> !IsActive(s, id) && !IsQueued(s, id) && id !in s.turnedAway)
    && (id in s.turnedAway ==> !IsActive(s, id) && !IsQueued(s, id))
    && (IsActive(s, id) ==> !IsQueued(s, id))
    && (IsActive(s, id) <==> id in Ids(s.active))
    && (IsQueued(s, id) <==> id in Ids(s.queued))
  }

  /** An issued ticket is in one place. */
  lemma OnePlace(s: State, id: nat)
    requires Inv(s)
    ensures Placed(s, id)
  {
    assert id < s.issued <==> id in TicketsIn(s.active, s.queued, s.released, s.turnedAway);
  }

  // ---- Every run ----

  ghost predicate Follows(s: System, e: Event, t: State) {
    && s.admission.turnedAway <= t.turnedAway
    && t.issued == s.admission.issued + (if e.Submit? then 1 else 0)
    && t.released == s.admission.released + (if e.Settle? && AdmissionOp(s, e).Some? then {e.id} else {})
    && forall id :: IsActive(s.admission, id) && !(e.Settle? && e.id == id) ==> IsActive(t, id)
  }

  lemma AdmissionFacts(s: System, e: Event)
    requires Inv(s.admission)
    ensures Inv(Admission(s, e)) && Follows(s, e, Admission(s, e))
  {
    if AdmissionOp(s, e).Some? {
      var op := AdmissionOp(s, e).value;
      StepKeepsInv(s.admission, op);
      TicketEffects(s.admission, op);
      forall id | IsActive(s.admission, id) && !(e.Settle? && e.id == id) ensures IsActive(Step(s.admission, op), id) {
        ActiveStays(s.admission, op, id);
      }
    }
  }

  lemma LiveIdAfter(s: System, e: Event, t: State, id: nat)
    requires Follows(s, e, t) && (id in s.live <==> Open(s, id))
    requires e.Submit? ==> Placed(s.admission, s.admission.issued)
    requires e.Settle? && AdmissionOp(s, e).Some? ==> Placed(s.admission, e.id)
    requires s.told <= s.admission.turnedAway
    ensures id in Moved(s, e, t).live <==> Open(Moved(s, e, t), id)
  {
  }

  lemma StepKeepsLive(s: System, e: Event)
    requires SystemInv(s)
    ensures forall id: nat :: id in StepSystem(s, e).live <==> Open(StepSystem(s, e), id)
  {
    var t := Admission(s, e);
    AdmissionFacts(s, e);
    OnePlace(s.admission, if e.Submit? then s.admission.issued else if e.Settle? then e.id else 0);
    forall id: nat ensures id in Moved(s, e, t).live <==> Open(Moved(s, e, t), id) {
      LiveIdAfter(s, e, t, id);
    }
  }

  lemma StepKeepsTold(s: System, e: Event)
    requires SystemInv(s)
    ensures StepSystem(s, e).told <= StepSystem(s, e).admission.turnedAway
  {
    AdmissionFacts(s, e);
  }

  ghost predicate BegunOk(s: System) {
    s.ran <= s.begun && forall id :: id in s.begun ==> IsActive(s.admission, id) || id in s.admission.released
  }

  lemma BegunAfter(s: System, e: Event, t: State)
    requires Follows(s, e, t) && BegunOk(s)
    ensures BegunOk(Moved(s, e, t))
  {
    var u := Moved(s, e, t);
    forall id | id in u.begun ensures IsActive(u.admission, id) || id in u.admission.released {
      assert IsActive(s.admission, id) || id in s.admission.released;
    }
  }

  lemma StepKeepsBegun(s: System, e: Event)
    requires SystemInv(s)
    ensures BegunOk(StepSystem(s, e))
  {
    AdmissionFacts(s, e);
    BegunAfter(s, e, Admission(s, e));
  }

  lemma StepKeepsSystem(s: System, e: Event)
    requires SystemInv(s)
    ensures SystemInv(StepSystem(s, e))
  {
    AdmissionFacts(s, e);
    StepKeepsLive(s, e);
    StepKeepsTold(s, e);
    StepKeepsBegun(s, e);
  }

  lemma {:induction false} EveryRunKeepsSystem(events: seq<Event>)
    ensures SystemInv(RunSystem(EMPTY, events))
  {
    if events != [] {
      EveryRunKeepsSystem(events[..|events| - 1]);
      StepKeepsSystem(RunSystem(EMPTY, events[..|events| - 1]), events[|events| - 1]);
    } else {
      EveryRunKeepsInv([]);
    }
  }

  lemma {:induction false} RunSystemSplits(s: System, xs: seq<Event>, ys: seq<Event>)
    ensures RunSystem(s, xs + ys) == RunSystem(RunSystem(s, xs), ys)
  {
    if ys == [] {
      assert xs + ys == xs;
    } else {
      assert (xs + ys)[..|xs + ys| - 1] == xs + ys[..|ys| - 1];
      RunSystemSplits(s, xs, ys[..|ys| - 1]);
    }
  }

  // ---- The theorems ----

  /** The table holds exactly the jobs that wait, that run, or whose refusal is still on its way. */
  lemma LiveTableIsExact(events: seq<Event>)
    ensures var s := RunSystem(EMPTY, events);
      s.live == Ids(s.admission.queued) + Ids(s.admission.active) + (s.admission.turnedAway - s.told)
  {
    var s := RunSystem(EMPTY, events);
    EveryRunKeepsSystem(events);
    forall id: nat ensures id in s.live <==>
      id in Ids(s.admission.queued) + Ids(s.admission.active) + (s.admission.turnedAway - s.told) {
      OnePlace(s.admission, id);
    }
  }

  ghost predicate Doomed(s: System, id: nat) {
    id in s.aborted && id !in s.ran
  }

  lemma StepKeepsDoomed(s: System, e: Event, id: nat)
    requires Doomed(s, id)
    ensures Doomed(StepSystem(s, e), id)
  {
  }

  lemma {:induction false} RunKeepsDoomed(s: System, events: seq<Event>, id: nat)
    requires Doomed(s, id)
    ensures Doomed(RunSystem(s, events), id)
  {
    if events != [] {
      RunKeepsDoomed(s, events[..|events| - 1], id);
      StepKeepsDoomed(RunSystem(s, events[..|events| - 1]), events[|events| - 1], id);
    }
  }

  /** A job stopped before it began, whether it waited for capacity or for its start delay, never runs. */
  lemma StoppedBeforeBeginningNeverRuns(events: seq<Event>, id: nat, reading: Option<Reading>, rest: seq<Event>)
    requires var s := RunSystem(EMPTY, events); id in s.live && id !in s.begun
    ensures id !in RunSystem(EMPTY, events + [Stop(id, reading)] + rest).ran
  {
    var s := RunSystem(EMPTY, events);
    var upTo := events + [Stop(id, reading)];
    EveryRunKeepsSystem(events);
    assert upTo[..|events|] == events;
    assert Doomed(RunSystem(EMPTY, upTo), id);
    RunSystemSplits(EMPTY, upTo, rest);
    RunKeepsDoomed(RunSystem(EMPTY, upTo), rest, id);
  }

  /** A stop that found the job in the table. */
  ghost predicate StoppedAt(events: seq<Event>, m: nat, id: nat) {
    m < |events| && events[m].Stop? && events[m].id == id && id in RunSystem(EMPTY, events[..m]).live
  }

  ghost predicate StoppedBeforeItBegan(events: seq<Event>, id: nat) {
    exists m: nat :: StoppedAt(events, m, id) && id !in RunSystem(EMPTY, events[..m]).begun
  }

  lemma StoppedAtPrefix(front: seq<Event>, e: Event, m: nat, id: nat)
    ensures StoppedAt(front + [e], m, id) <==>
      if m < |front| then StoppedAt(front, m, id)
      else m == |front| && e.Stop? && e.id == id && id in RunSystem(EMPTY, front).live
    ensures m <= |front| ==> (front + [e])[..m] == front[..m]
  {
    if m <= |front| { assert (front + [e])[..m] == front[..m]; }
    assert front[..|front|] == front;
  }

  lemma {:induction false} BegunStays(events: seq<Event>, m: nat)
    requires m <= |events|
    ensures RunSystem(EMPTY, events[..m]).begun <= RunSystem(EMPTY, events).begun
    decreases |events|
  {
    if m == |events| {
      assert events[..m] == events;
    } else {
      var front := events[..|events| - 1];
      BegunStays(front, m);
      assert front[..m] == events[..m];
    }
  }

  ghost predicate Stopped(events: seq<Event>, id: nat) {
    exists m: nat :: StoppedAt(events, m, id)
  }

  lemma StoppedAfter(front: seq<Event>, e: Event, id: nat)
    ensures Stopped(front + [e], id) <==>
      Stopped(front, id) || (e.Stop? && e.id == id && id in RunSystem(EMPTY, front).live)
  {
    if Stopped(front, id) {
      var m: nat :| StoppedAt(front, m, id);
      StoppedAtPrefix(front, e, m, id);
    }
    StoppedAtPrefix(front, e, |front|, id);
    if Stopped(front + [e], id) {
      var m: nat :| StoppedAt(front + [e], m, id);
      StoppedAtPrefix(front, e, m, id);
    }
  }

  /** The jobs marked as stopped are those a stop found in the table. */
  lemma {:induction false} AbortedExactlyWhenStopped(events: seq<Event>, id: nat)
    ensures id in RunSystem(EMPTY, events).aborted <==> Stopped(events, id)
  {
    if events != [] {
      var front, e := events[..|events| - 1], events[|events| - 1];
      assert events == front + [e];
      AbortedExactlyWhenStopped(front, id);
      StoppedAfter(front, e, id);
    }
  }

  /** What was stopped before it began, after one more event. */
  lemma StoppedFirstAfter(front: seq<Event>, e: Event, id: nat)
    ensures StoppedBeforeItBegan(front + [e], id) <==>
      || StoppedBeforeItBegan(front, id)
      || (e.Stop? && e.id == id && id in RunSystem(EMPTY, front).live && id !in RunSystem(EMPTY, front).begun)
  {
    forall m: nat ensures StoppedAt(front + [e], m, id) && id !in RunSystem(EMPTY, (front + [e])[..m]).begun <==>
      if m < |front| then StoppedAt(front, m, id) && id !in RunSystem(EMPTY, front[..m]).begun
      else m == |front| && e.Stop? && e.id == id && id in RunSystem(EMPTY, front).live
           && id !in RunSystem(EMPTY, front).begun
    {
      StoppedAtPrefix(front, e, m, id);
      assert front[..|front|] == front;
    }
    if e.Stop? && e.id == id && id in RunSystem(EMPTY, front).live && id !in RunSystem(EMPTY, front).begun {
      assert StoppedAt(front + [e], |front|, id) by { StoppedAtPrefix(front, e, |front|, id); }
      assert (front + [e])[..|front|] == front;
    }
    if StoppedBeforeItBegan(front, id) {
      var m: nat :| StoppedAt(front, m, id) && id !in RunSystem(EMPTY, front[..m]).begun;
      StoppedAtPrefix(front, e, m, id);
      assert (front + [e])[..m] == front[..m];
    }
  }

  /** Before it began, a job was stopped exactly when some stop had found it. */
  lemma NotBegunYet(events: seq<Event>, id: nat)
    requires id !in RunSystem(EMPTY, events).begun
    ensures StoppedBeforeItBegan(events, id) <==> id in RunSystem(EMPTY, events).aborted
  {
    AbortedExactlyWhenStopped(events, id);
    if id in RunSystem(EMPTY, events).aborted {
      var m: nat :| StoppedAt(events, m, id);
      BegunStays(events, m);
    }
  }

  /** Exactly which jobs are run: a job that began was run if and only if no stop had found it before. */
  lemma {:induction false} RunExactlyUnlessStoppedFirst(events: seq<Event>, id: nat)
    ensures var s := RunSystem(EMPTY, events);
      id in s.ran <==> id in s.begun && !StoppedBeforeItBegan(events, id)
  {
    if events != [] {
      var front, e := events[..|events| - 1], events[|events| - 1];
      assert events == front + [e];
      RunExactlyUnlessStoppedFirst(front, id);
      StoppedFirstAfter(front, e, id);
      if id !in RunSystem(EMPTY, front).begun { NotBegunYet(front, id); }
    }
  }

  lemma AbortTurnsAway(s: State, id: nat, reading: Option<Reading>)
    requires Inv(s) && IsQueued(s, id)
    ensures id in Abort(s, id, reading).turnedAway && Inv(Abort(s, id, reading))
  {
    AbortKeepsInv(s, id, reading);
    DrainStarts(Withdrawn(s, id), reading);
  }

  ghost predicate LeftTheQueue(s: State, id: nat) {
    !IsQueued(s, id) && !IsActive(s, id) && id in s.turnedAway
  }

  lemma AbortLeavesTheQueue(s: State, id: nat, reading: Option<Reading>)
    requires Inv(s) && IsQueued(s, id)
    ensures LeftTheQueue(Abort(s, id, reading), id)
  {
    AbortTurnsAway(s, id, reading);
    OnePlace(Abort(s, id, reading), id);
  }

  lemma WaitingIsLive(s: System, id: nat)
    requires SystemInv(s) && IsQueued(s.admission, id)
    ensures id in s.live
  {
    OnePlace(s.admission, id);
    assert Open(s, id);
  }

  /** Stopping a job that waits for capacity takes it out of the queue at once. */
  lemma StopFreesTheQueue(events: seq<Event>, id: nat, reading: Option<Reading>)
    requires var s := RunSystem(EMPTY, events); IsQueued(s.admission, id) && id !in s.aborted
    ensures LeftTheQueue(RunSystem(EMPTY, events + [Stop(id, reading)]).admission, id)
  {
    EveryRunKeepsSystem(events);
    assert (events + [Stop(id, reading)])[..|events|] == events;
    StopTakesOut(RunSystem(EMPTY, events), id, reading);
  }

  lemma StopTakesOut(s: System, id: nat, reading: Option<Reading>)
    requires SystemInv(s) && IsQueued(s.admission, id) && id !in s.aborted
    ensures LeftTheQueue(StepSystem(s, Stop(id, reading)).admission, id)
  {
    WaitingIsLive(s, id);
    AbortLeavesTheQueue(s.admission, id, reading);
  }

  /** Shutting down leaves no job waiting. */
  lemma ShutDownEmptiesTheQueue(events: seq<Event>, message: string)
    ensures RunSystem(EMPTY, events + [ShutDown(message)]).admission.queued == []
    ensures RunSystem(EMPTY, events + [ShutDown(message)]).admission.stoppingMessage == Some(message)
  {
    assert (events + [ShutDown(message)])[..|events|] == events;
  }

  // ---- What admission is asked ----

  /** The steps of admission the events amount to. */
  function OpsOf(events: seq<Event>): seq<Op> {
    if events == [] then []
    else
      var front, e := events[..|events| - 1], events[|events| - 1];
      var op := AdmissionOp(RunSystem(EMPTY, front), e);
      OpsOf(front) + if op.Some? then [op.value] else []
  }

  /** The searches submitted, in order. */
  function Submitted(events: seq<Event>): seq<Request> {
    if events == [] then []
    else
      var last := events[|events| - 1];
      Submitted(events[..|events| - 1]) + if last.Submit? then [last.request] else []
  }

  /** Around the table admission goes through a run of its own, in which it is asked for exactly what was
      submitted: whatever holds of every run of admission holds here. */
  lemma {:induction false} AdmissionRunsAsSubmitted(events: seq<Event>)
    ensures RunSystem(EMPTY, events).admission == Run(INITIAL, OpsOf(events))
    ensures Asked(OpsOf(events)) == Submitted(events)
  {
    if events != [] {
      var front, e := events[..|events| - 1], events[|events| - 1];
      AdmissionRunsAsSubmitted(front);
      var op := AdmissionOp(RunSystem(EMPTY, front), e);
      if op.Some? {
        assert OpsOf(events)[..|OpsOf(front)|] == OpsOf(front);
      } else {
        assert OpsOf(events) == OpsOf(front);
      }
    }
  }

  /** A job submitted takes the next ticket: it runs or waits from then on, or is turned away when the
      service is shutting down. */
  lemma SubmittedRunsOrWaits(events: seq<Event>, request: Request, now: int, reading: Option<Reading>)
    ensures var id := |Submitted(events)|; var s := RunSystem(EMPTY, events);
      var t := RunSystem(EMPTY, events + [Submit(request, now, reading)]);
      && id !in s.live && id in t.live
      && (if s.admission.stoppingMessage.Some? then id in t.admission.turnedAway
          else IsActive(t.admission, id) || IsQueued(t.admission, id))
  {
    var s := RunSystem(EMPTY, events);
    assert (events + [Submit(request, now, reading)])[..|events|] == events;
    AdmissionRunsAsSubmitted(events);
    SearchesAreAsAsked(OpsOf(events));
    EveryRunKeepsSystem(events);
    AcquiredRunsOrWaits(s.admission, request, now, reading);
  }

  lemma AcquiredRunsOrWaits(s: State, request: Request, now: int, reading: Option<Reading>)
    requires Inv(s)
    ensures var t := Acquire(s, request, false, now, reading);
      if s.stoppingMessage.Some? then s.issued in t.turnedAway else IsActive(t, s.issued) || IsQueued(t, s.issued)
  {
    var op := OpAcquire(request, false, now, reading);
    var t := Step(s, op);
    StepKeepsInv(s, op);
    TicketEffects(s, op);
    OnePlace(t, s.issued);
    OnePlace(s, s.issued);
    if s.stoppingMessage.None? { DrainStarts(Enqueue(s, NewEntry(s.issued, request, now)), reading); }
  }

  /** The memory timer looks again: after it nothing more can start under the reading it took. */
  lemma TimerStartsWhatFits(events: seq<Event>, reading: Option<Reading>)
    requires var s := RunSystem(EMPTY, events).admission; s.memoryRecheck && s.stoppingMessage.None?
    ensures PickNext(RunSystem(EMPTY, events + [MemoryTimer(reading)]).admission, reading).None?
  {
    assert (events + [MemoryTimer(reading)])[..|events|] == events;
    AdmissionRunsAsSubmitted(events);
    EveryLookSettles(OpsOf(events), OpRecheck(reading));
    assert (OpsOf(events) + [OpRecheck(reading)])[..|OpsOf(events)|] == OpsOf(events);
  }

  lemma StepKeepsReleased(s: System, e: Event)
    requires Inv(s.admission)
    ensures s.admission.released <= StepSystem(s, e).admission.released
  {
    AdmissionFacts(s, e);
  }

  lemma {:induction false} RunKeepsReleased(s: System, events: seq<Event>)
    requires SystemInv(s)
    ensures SystemInv(RunSystem(s, events)) && s.admission.released <= RunSystem(s, events).admission.released
  {
    if events != [] {
      var front := RunSystem(s, events[..|events| - 1]);
      RunKeepsReleased(s, events[..|events| - 1]);
      StepKeepsReleased(front, events[|events| - 1]);
      StepKeepsSystem(front, events[|events| - 1]);
    }
  }

  /** When a run settles its units are given back and the job leaves the table, however it ended; the
      same job settling again, whenever, changes nothing. */
  lemma SettlesOnce(events: seq<Event>, id: nat, reading: Option<Reading>, rest: seq<Event>, again: Option<Reading>)
    requires var s := RunSystem(EMPTY, events); id in s.begun && IsActive(s.admission, id)
    ensures var t := RunSystem(EMPTY, events + [Settle(id, reading)] + rest);
      id in t.admission.released && id !in t.live && StepSystem(t, Settle(id, again)) == t
  {
    var upTo := events + [Settle(id, reading)];
    var s, u := RunSystem(EMPTY, events), RunSystem(EMPTY, upTo);
    EveryRunKeepsSystem(events);
    EveryRunKeepsSystem(upTo);
    assert upTo[..|events|] == events;
    AdmissionFacts(s, Settle(id, reading));
    assert id in u.admission.released;
    RunSystemSplits(EMPTY, upTo, rest);
    RunKeepsReleased(u, rest);
    var t := RunSystem(u, rest);
    OnePlace(t.admission, id);
    assert id in t.live <==> Open(t, id);
  }

  /** While the table is not empty, some job in it can move: a refusal can be delivered, a start delay
      can pass, or a run can settle. Jobs never wait for each other in vain. */
  lemma SomeJobCanMove(events: seq<Event>) returns (e: Event)
    requires RunSystem(EMPTY, events).live != {}
    ensures (e.Refused? || e.Begin? || e.Settle?) && StepSystem(RunSystem(EMPTY, events), e) != RunSystem(EMPTY, events)
  {
    var s := RunSystem(EMPTY, events);
    EveryRunKeepsSystem(events);
    LiveTableIsExact(events);
    var id :| id in s.live;
    if id in s.admission.turnedAway {
      e := Refused(id);
      assert id in StepSystem(s, e).told && id !in s.told;
    } else {
      QueuedMeansActive(s.admission);
      OnePlace(s.admission, id);
      assert s.admission.active != [];
      var job := s.admission.active[0];
      assert job in s.admission.active && IsActive(s.admission, job.id);
      e := ActiveCanMove(s, job.id);
    }
  }

  lemma ActiveCanMove(s: System, id: nat) returns (e: Event)
    requires SystemInv(s) && IsActive(s.admission, id)
    ensures (e.Begin? || e.Settle?) && StepSystem(s, e) != s
  {
    if id in s.begun {
      e := Settle(id, None);
      AdmissionFacts(s, e);
      OnePlace(s.admission, id);
      assert id in StepSystem(s, e).admission.released;
    } else {
      e := Begin(id);
      assert id in StepSystem(s, e).begun;
    }
  }

  /** Nobody waits while nothing runs. */
  lemma QueuedMeansActive(s: State)
    requires Inv(s)
    ensures s.queued != [] ==> s.active != []
  {
    FirstExactIsExact(s.queued);
    if s.queued != [] && FirstExact(s.queued).None? {
      assert s.queued[0] in s.queued;
    }
  }
}
