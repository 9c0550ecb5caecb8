/** The main results about every run of the search admission controller, fairness aside. */
module SearchAdmissionTheorems {
  import opened Wrappers
  import opened SearchAdmission
  import opened SearchAdmissionSafety

  // ---- Capacity ----

  lemma {:induction false} PairFits(es: seq<Entry>, a: Entry, b: Entry, m: Measure)
    requires Distinct(es) && a in es && b in es && a != b
    ensures Weight(a, m) + Weight(b, m) <= Sum(es, m)
  {
    var front, last := es[..|es| - 1], es[|es| - 1];
    assert es == front + [last];
    if a in front && b in front { PairFits(front, a, b, m); }
    else if a in front { SumCovers(front, a, m); }
    else { SumCovers(front, b, m); }
  }

  /** Heavy work never holds more than 5 units and exact searches never more than 7; only exact
      searches past their reserve take the total over the budget. Two heavy searches share the
      5 units, so no two month ranges run together and a longer range runs beside no heavy search. */
  lemma CapacityInEveryRun(ops: seq<Op>)
    ensures var s := Run(INITIAL, ops);
      && Sum(s.active, HeavyUnits) <= HEAVY_LIMIT_UNITS
      && Sum(s.active, ExactUnits) <= CAPACITY_UNITS
      && Sum(s.active, AllUnits) <= CAPACITY_UNITS + HEAVY_LIMIT_UNITS
      && (Sum(s.active, ExactUnits) <= EXACT_RESERVED_UNITS ==> Sum(s.active, AllUnits) <= CAPACITY_UNITS)
      && (forall a, b :: a in s.active && b in s.active && a != b && a.heavy && b.heavy ==>
            a.costUnits + b.costUnits <= HEAVY_LIMIT_UNITS && a.costUnits != HEAVY_LIMIT_UNITS
                && !(a.costUnits == 3 && b.costUnits == 3))
  {
    var s := Run(INITIAL, ops);
    EveryRunKeepsInv(ops);
    SumSplitsByKind(s.active);
    forall a, b | a in s.active && b in s.active && a != b && a.heavy && b.heavy
      ensures a.costUnits + b.costUnits <= HEAVY_LIMIT_UNITS && a.costUnits >= 2 && b.costUnits >= 2
    {
      PairFits(s.active, a, b, HeavyUnits);
    }
  }

  const EXACT_REQUEST := Request(Exact, None, None)
  const LONG_RANGE_REQUEST := Request(Range, Some(32), None)

  function Repeat(op: Op, n: nat): seq<Op> {
    if n == 0 then [] else Repeat(op, n - 1) + [op]
  }

  lemma AllExact(es: seq<Entry>)
    requires forall e :: e in es ==> !e.heavy
    ensures Sum(es, HeavyUnits) == 0
  {
    if es != [] { AllExact(es[..|es| - 1]); }
  }

  /** Only exact searches run, and nobody waits. */
  ghost predicate OnlyExactRun(s: State, n: nat) {
    && s.queued == [] && s.stoppingMessage.None? && Sum(s.active, AllUnits) == n
    && forall e :: e in s.active ==> !e.heavy
  }

  lemma ExactJoins(s: State, n: nat, request: Request)
    requires OnlyExactRun(s, n) && n < CAPACITY_UNITS && request.kind == Exact
    ensures OnlyExactRun(Acquire(s, request, false, 0, None), n + 1)
  {
    AcquireAlone(s, request, 0);
  }

  lemma {:induction false} ExactSearchesFillTheBudget(n: nat)
    requires n <= CAPACITY_UNITS
    ensures OnlyExactRun(Run(INITIAL, Repeat(OpAcquire(EXACT_REQUEST, false, 0, None), n)), n)
  {
    if n > 0 {
      var op := OpAcquire(EXACT_REQUEST, false, 0, None);
      var ops := Repeat(op, n - 1);
      ExactSearchesFillTheBudget(n - 1);
      assert (ops + [op])[..|ops|] == ops;
      ExactJoins(Run(INITIAL, ops), n - 1, EXACT_REQUEST);
    }
  }

  lemma LongRangeJoins(s: State, n: nat, request: Request)
    requires OnlyExactRun(s, n) && request.kind == Range && request.daySearches == Some(32)
    ensures var t := Acquire(s, request, false, 0, None);
      Sum(t.active, ExactUnits) == n && Sum(t.active, AllUnits) == n + HEAVY_LIMIT_UNITS
  {
    AllExact(s.active);
    SumSplitsByKind(s.active);
    AcquireAlone(s, request, 0);
    SumAppend(s.active, NewEntry(s.issued, request, 0), ExactUnits);
  }

  /** With `n` exact searches running, a longer range starts beside them. */
  lemma LongRangeStartsBeside(n: nat) returns (ops: seq<Op>)
    requires n <= CAPACITY_UNITS
    ensures Sum(Run(INITIAL, ops).active, ExactUnits) == n
    ensures Sum(Run(INITIAL, ops).active, AllUnits) == n + HEAVY_LIMIT_UNITS
  {
    var before := Repeat(OpAcquire(EXACT_REQUEST, false, 0, None), n);
    ExactSearchesFillTheBudget(n);
    var last := OpAcquire(LONG_RANGE_REQUEST, false, 0, None);
    ops := before + [last];
    assert ops[..|before|] == before;
    LongRangeJoins(Run(INITIAL, before), n, LONG_RANGE_REQUEST);
  }

  /** The bound of 12 is met: seven exact searches, then a longer range. */
  lemma TwelveUnitsAreReached()
    ensures exists ops :: Sum(Run(INITIAL, ops).active, AllUnits) == CAPACITY_UNITS + HEAVY_LIMIT_UNITS
  {
    var ops := LongRangeStartsBeside(CAPACITY_UNITS);
  }

  ghost predicate WithinBudget(s: State) {
    Sum(s.active, AllUnits) <= CAPACITY_UNITS
  }

  /** For each number of exact units that can run: the budget of seven holds in every run that has so
      many if and only if they are within the reserve. */
  lemma BudgetHoldsExactlyWithinReserve(exactUnits: nat)
    requires exactUnits <= CAPACITY_UNITS
    ensures
      (forall ops :: Sum(Run(INITIAL, ops).active, ExactUnits) == exactUnits ==> WithinBudget(Run(INITIAL, ops)))
      <==> exactUnits <= EXACT_RESERVED_UNITS
  {
    if exactUnits <= EXACT_RESERVED_UNITS {
      forall ops | Sum(Run(INITIAL, ops).active, ExactUnits) == exactUnits ensures WithinBudget(Run(INITIAL, ops)) {
        CapacityInEveryRun(ops);
      }
    } else {
      var ops := LongRangeStartsBeside(exactUnits);
      assert !WithinBudget(Run(INITIAL, ops));
    }
  }

  // ---- Memory ----

  ghost predicate ReadsLimit(op: Op, limit: nat) {
    (op.OpAcquire? || op.OpRelease? || op.OpAbort? || op.OpRecheck?) ==>
      op.reading.Some? && op.reading.value.limitBytes == limit
  }

  /** Two or more heavy searches together expect at most 90% of the limit. */
  ghost predicate WithinMemory(s: State, limit: nat) {
    |HeavyOnly(s.active)| >= 2 ==> 10 * Sum(s.active, HeavyPeakBytes) <= 9 * limit
  }

  lemma {:induction false} HeavyHoldsUnits(es: seq<Entry>)
    requires forall e :: e in es ==> EntryOk(e)
    ensures HeavyOnly(es) != [] <==> Sum(es, HeavyUnits) > 0
  {
    if es != [] {
      assert forall e :: e in es[..|es| - 1] ==> e in es;
      assert EntryOk(es[|es| - 1]);
      HeavyHoldsUnits(es[..|es| - 1]);
    }
  }

  lemma StartKeepsMemory(s: State, e: Entry, reading: Option<Reading>, limit: nat)
    requires EntriesOk(s) && WithinMemory(s, limit) && reading.Some? && reading.value.limitBytes == limit
    requires PickNext(s, reading) == Some(e)
    ensures WithinMemory(Start(s, e), limit)
  {
    FirstExactIsExact(s.queued);
    FairestIsQueued(s, s.queued);
    HeavyHoldsUnits(s.active);
    SumAppend(s.active, e, HeavyPeakBytes);
    assert (s.active + [e])[..|s.active|] == s.active;
  }

  lemma {:induction false} DrainKeepsMemory(s: State, reading: Option<Reading>, limit: nat)
    requires Core(s) && ServiceOk(s) && WithinMemory(s, limit) && reading.Some? && reading.value.limitBytes == limit
    ensures WithinMemory(Drain(s, reading), limit)
    decreases |s.queued|
  {
    var next := PickNext(s, reading);
    if next.Some? {
      PickNextIsQueued(s, reading);
      StartKeepsMemory(s, next.value, reading, limit);
      StartKeepsCore(s, next.value, reading);
      StartKeepsService(s, next.value);
      var started := Start(s, next.value);
      DrainKeepsMemory(started, reading, limit);
      assert Drain(s, reading) == Drain(started, reading);
    }
  }

  lemma {:induction false} HeavyOnlyWithoutShrinks(es: seq<Entry>, id: nat)
    ensures |HeavyOnly(Without(es, id))| <= |HeavyOnly(es)|
  {
    if es != [] {
      var rest := Without(es[..|es| - 1], id);
      HeavyOnlyWithoutShrinks(es[..|es| - 1], id);
      assert (rest + [es[|es| - 1]])[..|rest|] == rest;
    }
  }

  lemma PrepareKeepsMemory(s: State, op: Op, limit: nat)
    requires WithinMemory(s, limit)
    ensures WithinMemory(Prepare(s, op), limit)
  {
    if op.OpRelease? {
      HeavyOnlyWithoutShrinks(s.active, op.id);
      SumWithoutShrinks(s.active, op.id, HeavyPeakBytes);
    }
  }

  lemma StepKeepsMemory(s: State, op: Op, limit: nat)
    requires Inv(s) && WithinMemory(s, limit) && ReadsLimit(op, limit)
    ensures WithinMemory(Step(s, op), limit)
  {
    PrepareKeepsCore(s, op);
    PrepareKeepsMemory(s, op, limit);
    StepIsPreparedPass(s, op);
    if HasReading(op) { DrainKeepsMemory(Prepare(s, op), op.reading, limit); }
  }

  /** With memory always readable and a constant limit, two or more heavy searches running together
      are expected to peak at no more than 90% of that limit. */
  lemma {:induction false} MemoryInEveryRun(ops: seq<Op>, limit: nat)
    requires forall op :: op in ops ==> ReadsLimit(op, limit)
    ensures WithinMemory(Run(INITIAL, ops), limit)
  {
    if ops != [] {
      var front, last := ops[..|ops| - 1], ops[|ops| - 1];
      assert ops == front + [last];
      MemoryInEveryRun(front, limit);
      EveryRunKeepsInv(front);
      assert ReadsLimit(last, limit);
      StepKeepsMemory(Run(INITIAL, front), last, limit);
    }
  }

  // ---- Quiescence ----

  /** After every step nothing that waits could start: a waiting exact search finds the reserve in
      use, or the whole budget when no heavy search waits; a waiting heavy search finds heavy work
      running, and if only memory holds the fairest heavy search back the recheck is armed. So nobody
      waits while nothing runs. */
  lemma QuiescenceInEveryRun(ops: seq<Op>)
    ensures var s := Run(INITIAL, ops);
      && (s.queued != [] ==> s.active != [])
      && (FirstExact(s.queued).Some? ==> Sum(s.active, ExactUnits) >= EXACT_RESERVED_UNITS)
      && (FirstExact(s.queued).Some? && !HeavyWaiting(s.queued) ==> Sum(s.active, AllUnits) >= CAPACITY_UNITS)
      && (HeavyWaiting(s.queued) ==> Sum(s.active, HeavyUnits) > 0)
      && (HeavyWaiting(s.queued) && !s.memoryRecheck ==>
            Fairest(s, s.queued).Some? && !HeavyFitsUnits(s, Fairest(s, s.queued).value))
  {
    var s := Run(INITIAL, ops);
    EveryRunKeepsInv(ops);
    FirstExactIsExact(s.queued);
    if s.queued != [] && FirstExact(s.queued).None? { assert s.queued[0] in s.queued; }
  }

  /** What one pass leaves waiting cannot start under the reading it was made with. */
  lemma PassLeavesNothingToStart(ops: seq<Op>, reading: Option<Reading>)
    ensures var s := Run(INITIAL, ops);
      s.stoppingMessage.None? ==> PickNext(StartQueued(s, reading), reading).None?
  {
    EveryRunKeepsInv(ops);
    StartQueuedSettles(Run(INITIAL, ops), reading);
  }

  // ---- Conservation ----

  lemma StartAppends(s: State, e: Entry)
    ensures Start(s, e).active == s.active + [e] && Entries(Start(s, e).log) == Entries(s.log) + [e]
    ensures Start(s, e).released == s.released && Start(s, e).turnedAway == s.turnedAway
  {
    EntriesAppend(s.log, Admission(e, Without(s.queued, e.id)));
  }

  lemma Associative(xs: seq<Entry>, e: Entry, ys: seq<Entry>)
    ensures xs + [e] + ys == xs + ([e] + ys)
  {
  }

  lemma {:induction false} DrainStarts(s: State, reading: Option<Reading>)
    ensures Drain(s, reading).active == s.active + Admits(s, reading)
    ensures Entries(Drain(s, reading).log) == Entries(s.log) + Admits(s, reading)
    ensures Drain(s, reading).released == s.released && Drain(s, reading).turnedAway == s.turnedAway
    decreases |s.queued|
  {
    var next := PickNext(s, reading);
    if next.Some? {
      PickNextIsQueued(s, reading);
      var t := Start(s, next.value);
      StartAppends(s, next.value);
      DrainStarts(t, reading);
      Associative(s.active, next.value, Admits(t, reading));
      Associative(Entries(s.log), next.value, Admits(t, reading));
    }
  }

  /** In every run each search asked for is in exactly one place: waiting, running, released or
      turned away; and the searches ever started are exactly the running and the released ones. */
  lemma ConservationInEveryRun(ops: seq<Op>)
    ensures var s := Run(INITIAL, ops);
      && Ids(s.active) !! Ids(s.queued) !! s.released !! s.turnedAway
      && (forall id: nat :: id < s.issued <==> id in TicketsIn(s.active, s.queued, s.released, s.turnedAway))
      && Ids(Entries(s.log)) == Ids(s.active) + s.released
      && Distinct(Entries(s.log))
  {
    var s := Run(INITIAL, ops);
    EveryRunKeepsInv(ops);
  }

  lemma ReleaseStarts(s: State, e: Entry, reading: Option<Reading>) returns (started: seq<Entry>)
    requires Inv(s) && e in s.active
    ensures Release(s, e.id, reading).active == Without(s.active, e.id) + started
    ensures Entries(Release(s, e.id, reading).log) == Entries(s.log) + started
  {
    assert IsActive(s, e.id);
    started := if s.stoppingMessage.Some? then [] else Admits(Retired(s, e.id), reading);
    DrainStarts(Retired(s, e.id), reading);
  }

  /** Releasing a lease frees exactly its own search's units, whatever starts in their place. */
  lemma ReleaseFreesItsUnits(ops: seq<Op>, e: Entry, reading: Option<Reading>, m: Measure)
    requires e in Run(INITIAL, ops).active
    ensures var s := Run(INITIAL, ops); var t := Release(s, e.id, reading);
      exists started :: t.active == Without(s.active, e.id) + started
        && Sum(t.active, m) + Weight(e, m) == Sum(s.active, m) + Sum(started, m)
        && Entries(t.log) == Entries(s.log) + started
  {
    var s := Run(INITIAL, ops);
    EveryRunKeepsInv(ops);
    var started := ReleaseStarts(s, e, reading);
    SumWithout(s.active, e, m);
    SumOfParts(Without(s.active, e.id), started, m);
  }

  /** Releasing it again, at any later time, changes nothing. */
  lemma ReleasesOnce(ops: seq<Op>, id: nat, reading: Option<Reading>, rest: seq<Op>, again: Option<Reading>)
    requires IsActive(Run(INITIAL, ops), id)
    ensures var t := Run(INITIAL, ops + [OpRelease(id, reading)] + rest);
      Release(t, id, again) == t
  {
    var upTo := ops + [OpRelease(id, reading)];
    var s, t := Run(INITIAL, upTo), Run(INITIAL, upTo + rest);
    assert upTo[..|upTo| - 1] == ops;
    EveryRunKeepsInv(upTo);
    DrainStarts(Retired(Run(INITIAL, ops), id), reading);
    assert id in s.released;
    RunSplits(INITIAL, upTo, rest);
    RunKeepsGone(s, rest);
    EveryRunKeepsInv(upTo + rest);
    assert forall x :: x in t.active ==> x.id in Ids(t.active);
  }

  lemma StepKeepsGone(s: State, op: Op)
    ensures s.released <= Step(s, op).released && s.turnedAway <= Step(s, op).turnedAway
  {
    PreparationOnlyTakesAway(s, op);
    StepIsPreparedPass(s, op);
    if HasReading(op) { DrainStarts(Prepare(s, op), op.reading); }
  }

  lemma {:induction false} RunKeepsGone(s: State, ops: seq<Op>)
    ensures s.released <= Run(s, ops).released && s.turnedAway <= Run(s, ops).turnedAway
  {
    if ops != [] {
      RunKeepsGone(s, ops[..|ops| - 1]);
      StepKeepsGone(Run(s, ops[..|ops| - 1]), ops[|ops| - 1]);
    }
  }

  /** A step issues a ticket to who asks, and releases whom it is told to. */
  lemma TicketEffects(s: State, op: Op)
    ensures var t := Step(s, op);
      && t.issued == s.issued + (if op.OpAcquire? then 1 else 0)
      && t.released == s.released + (if op.OpRelease? && IsActive(s, op.id) then {op.id} else {})
      && s.turnedAway <= t.turnedAway
  {
    StepKeepsGone(s, op);
    PrepareTickets(s, op);
    StepIsPreparedPass(s, op);
    if HasReading(op) {
      DrainStarts(Prepare(s, op), op.reading);
      DrainIssues(Prepare(s, op), op.reading);
    }
  }

  lemma PrepareTickets(s: State, op: Op)
    ensures Prepare(s, op).issued == s.issued + (if op.OpAcquire? then 1 else 0)
    ensures Prepare(s, op).released == s.released + (if op.OpRelease? && IsActive(s, op.id) then {op.id} else {})
  {
  }

  lemma {:induction false} DrainIssues(s: State, reading: Option<Reading>)
    ensures Drain(s, reading).issued == s.issued
    decreases |s.queued|
  {
    var next := PickNext(s, reading);
    if next.Some? {
      PickNextIsQueued(s, reading);
      DrainIssues(Start(s, next.value), reading);
    }
  }

  /** A search stopped while it waits never starts, however the run goes on. */
  lemma StoppedWhileWaitingNeverStarts(ops: seq<Op>, id: nat, reading: Option<Reading>, rest: seq<Op>)
    requires IsQueued(Run(INITIAL, ops), id)
    ensures var t := Run(INITIAL, ops + [OpAbort(id, reading)] + rest);
      id in t.turnedAway && id !in Ids(Entries(t.log))
  {
    var upTo := ops + [OpAbort(id, reading)];
    var s := Run(INITIAL, upTo);
    assert upTo[..|upTo| - 1] == ops;
    EveryRunKeepsInv(upTo);
    DrainStarts(Withdrawn(Run(INITIAL, ops), id), reading);
    assert id in s.turnedAway;
    RunSplits(INITIAL, upTo, rest);
    RunKeepsGone(s, rest);
    ConservationInEveryRun(upTo + rest);
  }

  // ---- Versions ----

  lemma PassVersions(s: State, reading: Option<Reading>)
    requires Core(s) && ServiceOk(s)
    ensures var t := StartQueued(s, reading);
      s.revision <= t.revision && (s.revision == t.revision ==> s.active == t.active && s.queued == t.queued)
  {
    if s.stoppingMessage.None? { DrainKeeps(s, reading); }
  }

  lemma AcquireVersions(s: State, request: Request, now: int, reading: Option<Reading>)
    requires Inv(s) && s.stoppingMessage.None?
    ensures Acquire(s, request, false, now, reading).revision > s.revision
  {
    var e := NewEntry(s.issued, request, now);
    EnqueueKeeps(s, e);
    PassVersions(Enqueue(s, e), reading);
    assert e in Enqueue(s, e).queued;
  }

  lemma ReleaseVersions(s: State, id: nat, reading: Option<Reading>)
    requires Inv(s) && IsActive(s, id)
    ensures Release(s, id, reading).revision > s.revision
  {
    RetiredKeepsCore(s, id);
    PassVersions(Retired(s, id), reading);
  }

  lemma AbortVersions(s: State, id: nat, reading: Option<Reading>)
    requires Inv(s) && IsQueued(s, id)
    ensures Abort(s, id, reading).revision > s.revision
  {
    WithdrawnKeepsCore(s, id);
    PassVersions(Withdrawn(s, id), reading);
  }

  lemma StepVersions(s: State, op: Op)
    requires Inv(s)
    ensures var t := Step(s, op);
      s.revision <= t.revision && (s.revision == t.revision ==> s.active == t.active && s.queued == t.queued)
  {
    match op
    case OpAcquire(request, aborted, now, reading) =>
      if s.stoppingMessage.None? && !aborted { AcquireVersions(s, request, now, reading); }
    case OpRelease(id, reading) => if IsActive(s, id) { ReleaseVersions(s, id, reading); }
    case OpAbort(id, reading) => if IsQueued(s, id) { AbortVersions(s, id, reading); }
    case OpRecheck(reading) => PassVersions(s.(memoryRecheck := false), reading);
    case _ =>
  }

  lemma {:induction false} RunVersions(s: State, ops: seq<Op>)
    requires Inv(s)
    ensures var t := Run(s, ops);
      s.revision <= t.revision && (s.revision == t.revision ==> s.active == t.active && s.queued == t.queued)
  {
    if ops != [] {
      RunVersions(s, ops[..|ops| - 1]);
      RunKeepsInv(s, ops[..|ops| - 1]);
      StepVersions(Run(s, ops[..|ops| - 1]), ops[|ops| - 1]);
    }
  }

  /** Two states of a run with the same version show the same searches and the same snapshot, and a
      poll is only ever parked on the version in force: no change is missed. */
  lemma SameVersionSameSnapshot(ops: seq<Op>, later: seq<Op>)
    ensures var s := Run(INITIAL, ops); var t := Run(INITIAL, ops + later);
      && (s.revision == t.revision ==> SnapshotOf(s) == SnapshotOf(t) && s.active == t.active && s.queued == t.queued)
      && s.revision <= t.revision
      && forall w :: w in t.changeWaiters ==> w.version == t.revision
  {
    EveryRunKeepsInv(ops);
    EveryRunKeepsInv(ops + later);
    RunSplits(INITIAL, ops, later);
    RunVersions(Run(INITIAL, ops), later);
  }

  // ---- Exact traffic and heavy work ----

  /** `t` is `s` with every exact search erased. */
  ghost predicate SameHeavy(s: State, t: State) {
    && t.active == HeavyOnly(s.active) && t.queued == HeavyOnly(s.queued)
    && t.lastHeavyAdmission == s.lastHeavyAdmission && t.heavyAdmissions == s.heavyAdmissions
  }

  lemma {:induction false} HeavyOnlyKeeps(es: seq<Entry>)
    ensures forall e :: e in HeavyOnly(es) <==> e in es && e.heavy
    ensures Distinct(es) ==> Distinct(HeavyOnly(es))
  {
    if es != [] {
      var front, last := es[..|es| - 1], es[|es| - 1];
      assert es == front + [last];
      HeavyOnlyKeeps(front);
      assert (HeavyOnly(front) + [last])[..|HeavyOnly(front)|] == HeavyOnly(front);
    }
  }

  lemma {:induction false} HeavyOnlySum(es: seq<Entry>, m: Measure)
    requires m.HeavyUnits? || m.SessionHeavyUnits? || m.HeavyPeakBytes?
    ensures Sum(HeavyOnly(es), m) == Sum(es, m)
  {
    if es != [] {
      var front := es[..|es| - 1];
      HeavyOnlySum(front, m);
      assert (HeavyOnly(front) + [es[|es| - 1]])[..|HeavyOnly(front)|] == HeavyOnly(front);
    }
  }

  lemma HeavyOnlyAppend(es: seq<Entry>, e: Entry)
    ensures HeavyOnly(es + [e]) == if e.heavy then HeavyOnly(es) + [e] else HeavyOnly(es)
  {
    assert (es + [e])[..|es|] == es;
  }

  lemma WithoutAppend(es: seq<Entry>, e: Entry, id: nat)
    ensures Without(es + [e], id) == if e.id == id then Without(es, id) else Without(es, id) + [e]
  {
    assert (es + [e])[..|es|] == es;
  }

  lemma {:induction false} HeavyOnlyWithout(es: seq<Entry>, e: Entry)
    requires Distinct(es) && e in es
    ensures HeavyOnly(Without(es, e.id)) == if e.heavy then Without(HeavyOnly(es), e.id) else HeavyOnly(es)
  {
    var front, last := es[..|es| - 1], es[|es| - 1];
    assert es == front + [last];
    HeavyOnlyAppend(front, last);
    WithoutAppend(front, last, e.id);
    WithoutAppend(HeavyOnly(front), last, e.id);
    HeavyOnlyKeeps(front);
    if last.id == e.id {
      WithoutAbsent(front, e.id);
      WithoutAbsent(HeavyOnly(front), e.id);
    } else {
      HeavyOnlyWithout(front, e);
      HeavyOnlyAppend(Without(front, e.id), last);
    }
  }

  lemma {:induction false} FairestIgnoresExact(s: State, t: State, queued: seq<Entry>)
    requires SameHeavy(s, t)
    ensures Fairest(t, HeavyOnly(queued)) == Fairest(s, queued)
  {
    if queued != [] {
      var front, e := queued[..|queued| - 1], queued[|queued| - 1];
      FairestIgnoresExact(s, t, front);
      HeavyOnlyKeeps(front);
      assert SessionSeen(HeavyOnly(front), e.sessionKey) == SessionSeen(front, e.sessionKey);
      assert (HeavyOnly(front) + [e])[..|HeavyOnly(front)|] == HeavyOnly(front);
      var best := Fairest(s, front);
      if best.Some? {
        HeavyOnlySum(s.active, SessionHeavyUnits(e.sessionKey));
        HeavyOnlySum(s.active, SessionHeavyUnits(best.value.sessionKey));
      }
    }
  }

  lemma NoExactLeft(es: seq<Entry>)
    ensures FirstExact(HeavyOnly(es)).None?
  {
    HeavyOnlyKeeps(es);
    FirstExactIsExact(HeavyOnly(es));
  }

  lemma PickIgnoresExact(s: State, t: State, reading: Option<Reading>)
    requires SameHeavy(s, t)
    ensures PickNext(t, reading) == PickHeavy(s, reading)
  {
    NoExactLeft(s.queued);
    FairestIgnoresExact(s, t, s.queued);
    HeavyOnlySum(s.active, HeavyUnits);
    HeavyOnlySum(s.active, HeavyPeakBytes);
  }

  lemma StartKeepsSameHeavy(s: State, t: State, e: Entry)
    requires SameHeavy(s, t) && e in s.queued && Distinct(s.queued)
    ensures SameHeavy(Start(s, e), if e.heavy then Start(t, e) else t)
  {
    HeavyOnlyWithout(s.queued, e);
    assert (s.active + [e])[..|s.active|] == s.active;
  }

  /** One pass starts the same heavy searches, in the same order, as it would with no exact search
      running or waiting. */
  lemma {:induction false} ExactNeverHoldsHeavyBack(s: State, t: State, reading: Option<Reading>)
    requires SameHeavy(s, t) && Ascending(s.queued)
    ensures HeavyOnly(Admits(s, reading)) == Admits(t, reading)
    decreases |s.queued|
  {
    var next := PickNext(s, reading);
    PickIgnoresExact(s, t, reading);
    if next.Some? {
      var e := next.value;
      PickNextIsQueued(s, reading);
      FirstExactIsExact(s.queued);
      FairestIsQueued(s, s.queued);
      AscendingIsDistinct(s.queued);
      StartKeepsSameHeavy(s, t, e);
      WithoutKeepsAscending(s.queued, e.id);
      ExactNeverHoldsHeavyBack(Start(s, e), if e.heavy then Start(t, e) else t, reading);
      HeavyOnlyOfParts([e], Admits(Start(s, e), reading));
      assert HeavyOnly([e]) == if e.heavy then [e] else [] by { assert [e][..0] == []; }
    }
  }

  lemma {:induction false} HeavyOnlyOfParts(xs: seq<Entry>, ys: seq<Entry>)
    ensures HeavyOnly(xs + ys) == HeavyOnly(xs) + HeavyOnly(ys)
  {
    if ys == [] {
      assert xs + ys == xs;
    } else {
      assert (xs + ys)[..|xs + ys| - 1] == xs + ys[..|ys| - 1];
      HeavyOnlyOfParts(xs, ys[..|ys| - 1]);
    }
  }

  /** The same for every state of every run, with the pass's effect on the history of starts. */
  lemma ExactNeverHoldsHeavyBackInAnyRun(ops: seq<Op>, reading: Option<Reading>)
    ensures var s := Run(INITIAL, ops);
      var erased := s.(active := HeavyOnly(s.active), queued := HeavyOnly(s.queued));
      && HeavyOnly(Admits(s, reading)) == Admits(erased, reading)
      && Entries(Drain(s, reading).log) == Entries(s.log) + Admits(s, reading)
  {
    var s := Run(INITIAL, ops);
    EveryRunKeepsInv(ops);
    ExactNeverHoldsHeavyBack(s, s.(active := HeavyOnly(s.active), queued := HeavyOnly(s.queued)), reading);
    DrainStarts(s, reading);
  }
}
