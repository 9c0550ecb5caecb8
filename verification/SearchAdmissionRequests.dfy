/**
 What runs together, in terms of what was asked for: the requests of a run, by ticket, with the days and
 bytes written out. And what starts when: in order, within the reserve, under the gate, at every pass, and
 not after the end.
 */
module SearchAdmissionRequests {
  import opened Wrappers
  import opened SearchAdmission
  import opened SearchAdmissionSafety
  import opened SearchAdmissionTheorems

  // ---- The requests of a run ----

  /** What was asked for, ticket by ticket. */
  function Asked(ops: seq<Op>): seq<Request> {
    if ops == [] then []
    else
      var last := ops[|ops| - 1];
      Asked(ops[..|ops| - 1]) + if last.OpAcquire? then [last.request] else []
  }

  /** A range without a number of days counts as one day. */
  predicate RangeOf(r: Request, fewest: nat, most: nat) {
    r.kind == Range && fewest <= r.daySearches.GetOr(1) <= most
  }

  predicate LongerThanAMonth(r: Request) {
    r.kind == Range && r.daySearches.GetOr(1) > 31
  }

  predicate MonthRange(r: Request) {
    RangeOf(r, 11, 31)
  }

  predicate ShortRange(r: Request) {
    RangeOf(r, 0, 10)
  }

  /** What a search is expected to use at its peak, in MiB. */
  function ExpectedMiB(r: Request): nat {
    match r.kind
    case Exact => 0
    case Matrix => 60
    case Range => 20 * r.daySearches.GetOr(1)
  }

  /** Units by kind and days, the expected peak in MiB, and the session, one for all that name none. */
  ghost predicate AsAsked(e: Entry, r: Request) {
    && e.kind == r.kind && (e.heavy <==> r.kind != Exact)
    && e.costUnits == (if r.kind == Exact then 1 else if LongerThanAMonth(r) then 5 else if MonthRange(r) then 3 else 2)
    && e.peakBytes == ExpectedMiB(r) * 1_048_576
    && e.sessionKey == (if r.sessionKey in {None, Some("")} then "unsigned" else r.sessionKey.value)
  }

  ghost predicate FromRequests(es: seq<Entry>, asked: seq<Request>) {
    forall e :: e in es ==> e.id < |asked| && AsAsked(e, asked[e.id])
  }

  lemma NewEntryIsAsAsked(id: nat, request: Request, now: int)
    ensures AsAsked(NewEntry(id, request, now), request)
  {
    assert MIB == 1_048_576;
  }

  lemma StepKeepsRequests(s: State, op: Op, asked: seq<Request>)
    requires s.issued == |asked| && FromRequests(s.active, asked) && FromRequests(s.queued, asked)
    ensures var now := asked + if op.OpAcquire? then [op.request] else [];
      && Step(s, op).issued == |now|
      && FromRequests(Step(s, op).active, now) && FromRequests(Step(s, op).queued, now)
  {
    var now := asked + if op.OpAcquire? then [op.request] else [];
    TicketEffects(s, op);
    PreparationOnlyTakesAway(s, op);
    StepIsPreparedPass(s, op);
    if op.OpAcquire? { NewEntryIsAsAsked(s.issued, op.request, op.now); }
    assert FromRequests(Prepare(s, op).active, now) && FromRequests(Prepare(s, op).queued, now);
    if HasReading(op) { DrainMovesOnly(Prepare(s, op), op.reading); }
  }

  /** Every search of a run is the one its ticket's request asked for. */
  lemma {:induction false} SearchesAreAsAsked(ops: seq<Op>)
    ensures var s := Run(INITIAL, ops);
      s.issued == |Asked(ops)| && FromRequests(s.active, Asked(ops)) && FromRequests(s.queued, Asked(ops))
  {
    if ops != [] {
      SearchesAreAsAsked(ops[..|ops| - 1]);
      StepKeepsRequests(Run(INITIAL, ops[..|ops| - 1]), ops[|ops| - 1], Asked(ops[..|ops| - 1]));
    }
  }

  lemma ActiveTicket(ops: seq<Op>, id: nat) returns (e: Entry)
    requires IsActive(Run(INITIAL, ops), id)
    ensures e in Run(INITIAL, ops).active && e.id == id && id < |Asked(ops)| && AsAsked(e, Asked(ops)[id])
  {
    SearchesAreAsAsked(ops);
    e :| e in Run(INITIAL, ops).active && e.id == id;
  }

  /** Two searches running together: no two month ranges, and beside more than a month no other heavy
      search. */
  lemma WhatRunsTogether(ops: seq<Op>, i: nat, j: nat)
    requires i != j && IsActive(Run(INITIAL, ops), i) && IsActive(Run(INITIAL, ops), j)
    ensures i < |Asked(ops)| && j < |Asked(ops)|
    ensures !(MonthRange(Asked(ops)[i]) && MonthRange(Asked(ops)[j]))
    ensures LongerThanAMonth(Asked(ops)[i]) ==> Asked(ops)[j].kind == Exact
  {
    var a := ActiveTicket(ops, i);
    var b := ActiveTicket(ops, j);
    EveryRunKeepsInv(ops);
    PairFits(Run(INITIAL, ops).active, a, b, HeavyUnits);
  }

  lemma {:induction false} ThreeFit(es: seq<Entry>, a: Entry, b: Entry, c: Entry, m: Measure)
    requires Distinct(es) && a in es && b in es && c in es && a != b && b != c && a != c
    ensures Weight(a, m) + Weight(b, m) + Weight(c, m) <= Sum(es, m)
  {
    var front, last := es[..|es| - 1], es[|es| - 1];
    assert es == front + [last];
    if a in front && b in front && c in front { ThreeFit(front, a, b, c, m); }
    else if a in front && b in front { PairFits(front, a, b, m); }
    else if a in front { PairFits(front, a, c, m); }
    else { PairFits(front, b, c, m); }
  }

  /** Never three heavy searches. */
  lemma NeverThreeHeavy(ops: seq<Op>, i: nat, j: nat, k: nat)
    requires i != j && j != k && i != k
    requires IsActive(Run(INITIAL, ops), i) && IsActive(Run(INITIAL, ops), j) && IsActive(Run(INITIAL, ops), k)
    ensures i < |Asked(ops)| && j < |Asked(ops)| && k < |Asked(ops)|
    ensures Asked(ops)[i].kind == Exact || Asked(ops)[j].kind == Exact || Asked(ops)[k].kind == Exact
  {
    var a := ActiveTicket(ops, i);
    var b := ActiveTicket(ops, j);
    var c := ActiveTicket(ops, k);
    EveryRunKeepsInv(ops);
    ThreeFit(Run(INITIAL, ops).active, a, b, c, HeavyUnits);
  }

  /** Beside one heavy search alone, another fits exactly as the days say. */
  lemma FitsBeside(u: State, a: Entry, first: Request, second: Request)
    requires u.active == [a] && AsAsked(a, first) && first.kind != Exact && second.kind != Exact
    ensures FitsUnits(u, second) <==>
      !LongerThanAMonth(first) && !LongerThanAMonth(second) && !(MonthRange(first) && MonthRange(second))
  {
    assert [a][..0] == [];
    assert Sum(u.active, HeavyUnits) == Sum([], HeavyUnits) + a.costUnits;
  }

  lemma SecondJoins(u: State, a: Entry, second: Request, now: int)
    requires u.active == [a] && u.queued == [] && u.stoppingMessage.None? && a.id != u.issued
    ensures IsActive(Acquire(u, second, false, now, None), a.id)
    ensures IsActive(Acquire(u, second, false, now, None), u.issued) <==> FitsUnits(u, second)
  {
    var b, t := NewEntry(u.issued, second, now), Acquire(u, second, false, now, None);
    if FitsUnits(u, second) {
      AcquireAlone(u, second, now);
      assert t.active == [a, b] && b in t.active && a in t.active;
    } else {
      AcquireWaitsAlone(u, second, now);
      assert a in t.active;
    }
  }

  lemma FirstStarts(s: State, first: Request, now: int) returns (a: Entry)
    requires s.active == [] && s.queued == [] && s.stoppingMessage.None?
    ensures var u := Acquire(s, first, false, now, None);
      && u.active == [a] && u.queued == [] && u.stoppingMessage.None? && u.issued == s.issued + 1
      && a.id == s.issued && AsAsked(a, first)
  {
    a := NewEntry(s.issued, first, now);
    AcquireAlone(s, first, now);
    assert [] + [a] == [a];
  }

  lemma RunTwoMore(ops: seq<Op>, one: Op, two: Op)
    ensures Run(INITIAL, ops + [one, two]) == Step(Step(Run(INITIAL, ops), one), two)
  {
    assert (ops + [one, two])[..|ops| + 1] == ops + [one] && (ops + [one])[..|ops|] == ops;
  }

  ghost predicate StartTogether(s: State, t: State, first: Request, second: Request) {
    && IsActive(t, s.issued)
    && (IsActive(t, s.issued + 1) <==>
          !LongerThanAMonth(first) && !LongerThanAMonth(second) && !(MonthRange(first) && MonthRange(second)))
  }

  lemma WhoJoins(s: State, first: Request, second: Request, now: int)
    requires s.active == [] && s.queued == [] && s.stoppingMessage.None?
    requires first.kind != Exact && second.kind != Exact
    ensures StartTogether(s, Acquire(Acquire(s, first, false, now, None), second, false, now, None), first, second)
  {
    var a := FirstStarts(s, first, now);
    FitsBeside(Acquire(s, first, false, now, None), a, first, second);
    SecondJoins(Acquire(s, first, false, now, None), a, second, now);
  }

  /** With nothing running or waiting and memory unreadable: of two heavy searches asked for in a row the
      first starts, and the second starts beside it exactly unless one of them asks for more than a month
      or both ask for a month. So two short ranges, or a month and a matrix, run together. */
  lemma WhoStartsTogether(ops: seq<Op>, first: Request, second: Request, now: int)
    requires var s := Run(INITIAL, ops); s.active == [] && s.queued == [] && s.stoppingMessage.None?
    requires first.kind != Exact && second.kind != Exact
    ensures var asks := [OpAcquire(first, false, now, None), OpAcquire(second, false, now, None)];
      StartTogether(Run(INITIAL, ops), Run(INITIAL, ops + asks), first, second)
  {
    RunTwoMore(ops, OpAcquire(first, false, now, None), OpAcquire(second, false, now, None));
    WhoJoins(Run(INITIAL, ops), first, second, now);
  }

  // ---- Memory ----

  const BYTES_IN_A_MIB: nat := 1_048_576

  lemma PeakAsAsked(e: Entry, r: Request)
    requires AsAsked(e, r)
    ensures e.peakBytes == BYTES_IN_A_MIB * ExpectedMiB(r) && e.heavy == (r.kind != Exact)
  {
    if r.kind == Range {
      var days := r.daySearches.GetOr(1);
      assert days * (20 * BYTES_IN_A_MIB) == BYTES_IN_A_MIB * (20 * days);
    }
  }

  lemma TwoHeavy(es: seq<Entry>, a: Entry, b: Entry)
    requires a in es && b in es && a != b && a.heavy && b.heavy
    ensures |HeavyOnly(es)| >= 2
  {
    HeavyOnlyKeeps(es);
    var i :| 0 <= i < |HeavyOnly(es)| && HeavyOnly(es)[i] == a;
    var j :| 0 <= j < |HeavyOnly(es)| && HeavyOnly(es)[j] == b;
    assert i != j;
  }

  /** With memory always readable and a constant limit, two heavy searches running together were expected
      to use no more than nine tenths of it. */
  lemma TogetherWithinNineTenths(ops: seq<Op>, limit: nat, i: nat, j: nat)
    requires forall op :: op in ops ==> ReadsLimit(op, limit)
    requires i != j && IsActive(Run(INITIAL, ops), i) && IsActive(Run(INITIAL, ops), j)
    ensures i < |Asked(ops)| && j < |Asked(ops)|
    ensures var a, b := Asked(ops)[i], Asked(ops)[j]; a.kind != Exact && b.kind != Exact ==>
      10 * BYTES_IN_A_MIB * (ExpectedMiB(a) + ExpectedMiB(b)) <= 9 * limit
  {
    var a := ActiveTicket(ops, i);
    var b := ActiveTicket(ops, j);
    EveryRunKeepsInv(ops);
    MemoryInEveryRun(ops, limit);
    PeakAsAsked(a, Asked(ops)[i]);
    PeakAsAsked(b, Asked(ops)[j]);
    if a.heavy && b.heavy {
      TwoHeavy(Run(INITIAL, ops).active, a, b);
      PairFits(Run(INITIAL, ops).active, a, b, HeavyPeakBytes);
    }
  }

  /** The search in that place started under the gate, if heavy work ran before it. */
  ghost predicate Gated(es: seq<Entry>, i: nat, reading: Reading)
    requires i < |es|
  {
    es[i].heavy && (exists j :: 0 <= j < i && es[j].heavy) ==>
      && 10 * (reading.usedBytes + es[i].peakBytes) <= 9 * reading.limitBytes
      && 10 * (Sum(es[..i], HeavyPeakBytes) + es[i].peakBytes) <= 9 * reading.limitBytes
  }

  lemma {:induction false} DrainIsGated(s: State, reading: Reading, i: nat)
    requires EntriesOk(s) && Conserved(s) && |s.active| <= i < |Drain(s, Some(reading)).active|
    ensures Gated(Drain(s, Some(reading)).active, i, reading)
    decreases |s.queued|
  {
    var next := PickNext(s, Some(reading));
    DrainStarts(s, Some(reading));
    if next.Some? {
      var e := next.value;
      PickNextIsQueued(s, Some(reading));
      StartKeepsEntries(s, e);
      StartKeepsConserved(s, e);
      DrainStarts(Start(s, e), Some(reading));
      if i > |s.active| {
        DrainIsGated(Start(s, e), reading, i);
      } else {
        StartIsGated(s, reading, e, Drain(s, Some(reading)).active);
      }
    }
  }

  lemma StartIsGated(s: State, reading: Reading, e: Entry, es: seq<Entry>)
    requires EntriesOk(s) && PickNext(s, Some(reading)) == Some(e) && s.active + [e] <= es
    ensures Gated(es, |s.active|, reading)
  {
    FirstExactIsExact(s.queued);
    FairestIsQueued(s, s.queued);
    assert es[..|s.active|] == s.active && es[|s.active|] == e;
    if e.heavy && exists j :: 0 <= j < |s.active| && es[j].heavy {
      var j :| 0 <= j < |s.active| && es[j].heavy;
      assert es[j] == s.active[j] && EntryOk(s.active[j]);
      SumCovers(s.active, s.active[j], HeavyUnits);
    }
  }

  /** In every run, a heavy search that starts in a step beside other heavy work does so with the reading's
      used bytes, and with what the running heavy searches expect, within nine tenths of its limit. */
  lemma GateAtEveryStart(ops: seq<Op>, op: Op, reading: Reading, i: nat)
    requires HasReading(op) && op.reading == Some(reading)
    requires var s, t := Run(INITIAL, ops), Run(INITIAL, ops + [op]); i < |t.active| && t.active[i] !in s.active
    ensures Gated(Run(INITIAL, ops + [op]).active, i, reading)
  {
    var s, t := Run(INITIAL, ops), Run(INITIAL, ops + [op]);
    assert (ops + [op])[..|ops|] == ops;
    EveryRunKeepsInv(ops);
    PrepareKeepsCore(s, op);
    PreparationOnlyTakesAway(s, op);
    StepIsPreparedPass(s, op);
    var p := Prepare(s, op);
    assert t.active[i] !in p.active;
    DrainStarts(p, Some(reading));
    if i >= |p.active| {
      DrainIsGated(p, reading, i);
    } else {
      assert false;
    }
  }

  // ---- Every pass ----

  /** The operations that look at who can start: an arrival, a lease or a waiter that was there and is
      gone, and the timer when it was armed. */
  ghost predicate LooksAgain(s: State, op: Op) {
    s.stoppingMessage.None? &&
    match op
    case OpAcquire(_, aborted, _, _) => !aborted
    case OpRelease(id, _) => IsActive(s, id)
    case OpAbort(id, _) => IsQueued(s, id)
    case OpRecheck(_) => s.memoryRecheck
    case _ => false
  }

  /** After each of these nothing can start under the reading it was made with. */
  lemma EveryLookSettles(ops: seq<Op>, op: Op)
    requires LooksAgain(Run(INITIAL, ops), op)
    ensures PickNext(Run(INITIAL, ops + [op]), op.reading).None?
  {
    var s := Run(INITIAL, ops);
    assert (ops + [op])[..|ops|] == ops;
    EveryRunKeepsInv(ops);
    PrepareKeepsCore(s, op);
    LookIsAPass(s, op);
    StartQueuedSettles(StartingPoint(s, op), op.reading);
    PickNextFrame(StartQueued(StartingPoint(s, op), op.reading), Step(s, op), op.reading);
  }

  function StartingPoint(s: State, op: Op): State {
    Prepare(s, op)
  }

  lemma LookIsAPass(s: State, op: Op)
    requires LooksAgain(s, op)
    ensures StartingPoint(s, op).stoppingMessage.None?
    ensures SameWork(Step(s, op), StartQueued(StartingPoint(s, op), op.reading))
  {
  }

  lemma PickNextFrame(s: State, t: State, reading: Option<Reading>)
    requires SameWork(s, t)
    ensures PickNext(s, reading) == PickNext(t, reading)
  {
    FairestFrame(s, t, s.queued);
  }

  /** So a heavy search waits for units, or for memory above nine tenths of the limit with heavy work
      running, and for nothing else. */
  lemma HeavyWaitsForUnitsOrMemory(ops: seq<Op>, op: Op)
    requires LooksAgain(Run(INITIAL, ops), op) && HeavyWaiting(Run(INITIAL, ops + [op]).queued)
    ensures var t := Run(INITIAL, ops + [op]);
      && Fairest(t, t.queued).Some?
      && var f := Fairest(t, t.queued).value;
         || Sum(t.active, HeavyUnits) + f.costUnits > 5
         || (op.reading.Some? && Sum(t.active, HeavyUnits) > 0
             && (10 * (op.reading.value.usedBytes + f.peakBytes) > 9 * op.reading.value.limitBytes
                 || 10 * (Sum(t.active, HeavyPeakBytes) + f.peakBytes) > 9 * op.reading.value.limitBytes))
  {
    var t := Run(INITIAL, ops + [op]);
    EveryLookSettles(ops, op);
    FairestIsQueued(t, t.queued);
  }

  /** The timer, when it fires, is armed again exactly if memory alone still holds the next one back. */
  lemma TimerArmsItselfAgain(ops: seq<Op>, reading: Option<Reading>)
    requires LooksAgain(Run(INITIAL, ops), OpRecheck(reading))
    ensures var t := Run(INITIAL, ops + [OpRecheck(reading)]);
      t.memoryRecheck <==> HeldByMemory(t, reading)
  {
    var s := Run(INITIAL, ops);
    assert (ops + [OpRecheck(reading)])[..|ops|] == ops;
    DrainArms(s.(memoryRecheck := false), reading);
    HeldFrame(Drain(s.(memoryRecheck := false), reading), Step(s, OpRecheck(reading)), reading);
  }

  lemma HeldFrame(s: State, t: State, reading: Option<Reading>)
    requires SameWork(s, t)
    ensures HeldByMemory(s, reading) <==> HeldByMemory(t, reading)
  {
    FairestFrame(s, t, s.queued);
  }

  lemma {:induction false} DrainArms(s: State, reading: Option<Reading>)
    requires !s.memoryRecheck
    ensures Drain(s, reading).memoryRecheck <==> HeldByMemory(Drain(s, reading), reading)
    decreases |s.queued|
  {
    var next := PickNext(s, reading);
    if next.Some? {
      PickNextIsQueued(s, reading);
      DrainArms(Start(s, next.value), reading);
    } else {
      HeldFrame(s, Drain(s, reading), reading);
    }
  }

  // ---- Exact searches ----

  /** Each exact search that started had arrived before every exact search it left waiting. */
  ghost predicate ExactInOrder(log: seq<Admission>) {
    forall i, x :: 0 <= i < |log| && !log[i].entry.heavy && x in log[i].waiting && !x.heavy ==> log[i].entry.id < x.id
  }

  lemma {:induction false} DrainKeepsExactInOrder(s: State, reading: Option<Reading>)
    requires Ascending(s.queued) && ExactInOrder(s.log)
    ensures ExactInOrder(Drain(s, reading).log)
    decreases |s.queued|
  {
    var next := PickNext(s, reading);
    if next.Some? {
      var e := next.value;
      PickNextIsQueued(s, reading);
      WithoutKeepsAscending(s.queued, e.id);
      LeavesLaterExact(s, reading, e);
      DrainKeepsExactInOrder(Start(s, e), reading);
    }
  }

  lemma LeavesLaterExact(s: State, reading: Option<Reading>, e: Entry)
    requires Ascending(s.queued) && PickNext(s, reading) == Some(e)
    ensures forall x :: x in Without(s.queued, e.id) && !x.heavy && !e.heavy ==> e.id < x.id
  {
    FairestIsQueued(s, s.queued);
    WithoutKeeps(s.queued, e.id);
    forall x | x in Without(s.queued, e.id) && !x.heavy && !e.heavy ensures e.id < x.id {
      FirstExactIsEarliest(s.queued, x);
    }
  }

  /** Exact searches start in the order they arrived. */
  lemma {:induction false} ExactStartInOrder(ops: seq<Op>)
    ensures ExactInOrder(Run(INITIAL, ops).log)
  {
    if ops != [] {
      var s, op := Run(INITIAL, ops[..|ops| - 1]), ops[|ops| - 1];
      ExactStartInOrder(ops[..|ops| - 1]);
      EveryRunKeepsInv(ops[..|ops| - 1]);
      PrepareKeepsCore(s, op);
      PreparationOnlyTakesAway(s, op);
      StepIsPreparedPass(s, op);
      if HasReading(op) { DrainKeepsExactInOrder(Prepare(s, op), op.reading); }
    }
  }

  ghost predicate StartedExact(before: seq<Entry>, after: seq<Entry>) {
    exists e :: e in after && e !in before && !e.heavy
  }

  lemma {:induction false} DrainHoldsReserve(s: State, reading: Option<Reading>)
    requires EntriesOk(s) && Conserved(s)
    ensures var t := Drain(s, reading);
      HeavyWaiting(t.queued) && StartedExact(s.active, t.active) ==> Sum(t.active, ExactUnits) <= 2
    ensures EntriesOk(Drain(s, reading)) && s.active <= Drain(s, reading).active
    decreases |s.queued|
  {
    var next := PickNext(s, reading);
    if next.Some? {
      var e, t := next.value, Drain(s, reading);
      PickNextIsQueued(s, reading);
      StartKeepsEntries(s, e);
      StartKeepsConserved(s, e);
      DrainHoldsReserve(Start(s, e), reading);
      if HeavyWaiting(t.queued) && StartedExact(s.active, t.active) && !StartedExact(Start(s, e).active, t.active) {
        DrainMovesOnly(s, reading);
        NoMoreExact(Start(s, e).active, t.active);
        OnlyTheFirst(s, e, t.active);
        FitsInReserve(s, reading, e);
      }
    }
  }

  /** What started is `e` alone, so `e` is the exact search. */
  lemma OnlyTheFirst(s: State, e: Entry, after: seq<Entry>)
    requires StartedExact(s.active, after) && !StartedExact(Start(s, e).active, after)
    ensures !e.heavy
  {
    var x :| x in after && x !in s.active && !x.heavy;
    assert x in Start(s, e).active;
  }

  lemma FitsInReserve(s: State, reading: Option<Reading>, e: Entry)
    requires EntriesOk(s) && PickNext(s, reading) == Some(e) && !e.heavy && HeavyWaiting(s.queued)
    ensures Sum(Start(s, e).active, ExactUnits) <= 2
  {
    FairestIsQueued(s, s.queued);
    SumAppend(s.active, e, ExactUnits);
  }

  /** If no exact search started, the exact units stay as they were. */
  lemma NoMoreExact(before: seq<Entry>, after: seq<Entry>)
    requires before <= after && Distinct(after) && !StartedExact(before, after)
    ensures Sum(after, ExactUnits) == Sum(before, ExactUnits)
  {
    var more := after[|before|..];
    assert after == before + more;
    SumOfParts(before, more, ExactUnits);
    forall x | x in more ensures x.heavy {
      NewOnesAreNew(before, more, x);
    }
    OnlyHeavyHoldNoExact(more);
  }

  lemma {:induction false} NewOnesAreNew(xs: seq<Entry>, more: seq<Entry>, x: Entry)
    requires Distinct(xs + more) && x in more
    ensures x in xs + more && x !in xs
  {
    var front := more[..|more| - 1];
    assert (xs + more)[..|xs + more| - 1] == xs + front;
    if x in front {
      NewOnesAreNew(xs, front, x);
    } else {
      assert x == more[|more| - 1];
      assert forall y :: y in xs ==> y in xs + front;
    }
  }

  lemma {:induction false} OnlyHeavyHoldNoExact(es: seq<Entry>)
    requires forall e :: e in es ==> e.heavy
    ensures Sum(es, ExactUnits) == 0
  {
    if es != [] {
      assert es[|es| - 1] in es;
      OnlyHeavyHoldNoExact(es[..|es| - 1]);
    }
  }

  /** A step after which heavy work waits started exact searches only within the two reserved units. */
  lemma ReserveIsHeld(ops: seq<Op>, op: Op)
    ensures var s, t := Run(INITIAL, ops), Run(INITIAL, ops + [op]);
      HeavyWaiting(t.queued) && StartedExact(s.active, t.active) ==> Sum(t.active, ExactUnits) <= 2
  {
    var s := Run(INITIAL, ops);
    assert (ops + [op])[..|ops|] == ops;
    EveryRunKeepsInv(ops);
    PrepareKeepsCore(s, op);
    PreparationOnlyTakesAway(s, op);
    StepIsPreparedPass(s, op);
    if HasReading(op) { DrainHoldsReserve(Prepare(s, op), op.reading); }
  }

  // ---- The end ----

  /** Shutting down: nobody waits, and the history of starts is closed. */
  ghost predicate Closed(s: State, log: seq<Admission>, from: nat) {
    && s.stoppingMessage.Some? && s.queued == [] && s.log == log
    && forall id: nat :: from <= id < s.issued ==> id in s.turnedAway
  }

  lemma {:induction false} ClosedStaysClosed(s: State, rest: seq<Op>, log: seq<Admission>, from: nat)
    requires Closed(s, log, from)
    ensures Closed(Run(s, rest), log, from)
  {
    if rest != [] { ClosedStaysClosed(s, rest[..|rest| - 1], log, from); }
  }

  /** Once searches are no longer accepted nobody waits and nothing starts, whatever happens: who waited,
      and whoever asks later, is turned away. */
  lemma NothingStartsAfterStop(ops: seq<Op>, message: string, rest: seq<Op>)
    ensures var s, t := Run(INITIAL, ops), Run(INITIAL, ops + [OpStopAccepting(message)] + rest);
      && Closed(t, s.log, s.issued) && Ids(s.queued) <= t.turnedAway
  {
    var upTo := ops + [OpStopAccepting(message)];
    assert upTo[..|ops|] == ops;
    RunSplits(INITIAL, upTo, rest);
    ClosedStaysClosed(Run(INITIAL, upTo), rest, Run(INITIAL, ops).log, Run(INITIAL, ops).issued);
    RunKeepsGone(Run(INITIAL, upTo), rest);
  }

  // ---- Polls ----

  ghost predicate LeavesAlone(rest: seq<Op>, w: Waiter) {
    OpStopWaiting(w) !in rest
  }

  lemma StepOnlyAnswers(s: State, op: Op, w: Waiter)
    requires Inv(s) && w in s.changeWaiters && op != OpStopWaiting(w)
    ensures Step(s, op).revision == s.revision ==> w in Step(s, op).changeWaiters
  {
    StepVersions(s, op);
    match op
    case OpAcquire(request, aborted, now, reading) =>
      if s.stoppingMessage.None? && !aborted { AcquireVersions(s, request, now, reading); }
    case OpRelease(id, reading) => if IsActive(s, id) { ReleaseVersions(s, id, reading); }
    case OpAbort(id, reading) => if IsQueued(s, id) { AbortVersions(s, id, reading); }
    case OpRecheck(reading) => PassOnlyAnswers(s.(memoryRecheck := false), reading, w);
    case _ =>
  }

  lemma PassOnlyAnswers(s: State, reading: Option<Reading>, w: Waiter)
    requires Core(s) && ServiceOk(s) && w in s.changeWaiters
    ensures StartQueued(s, reading).revision == s.revision ==> w in StartQueued(s, reading).changeWaiters
  {
    DrainKeeps(s, reading);
    DrainKeepsPolls(s, reading);
  }

  lemma {:induction false} DrainKeepsPolls(s: State, reading: Option<Reading>)
    ensures Drain(s, reading).changeWaiters == s.changeWaiters
    decreases |s.queued|
  {
    var next := PickNext(s, reading);
    if next.Some? {
      PickNextIsQueued(s, reading);
      DrainKeepsPolls(Start(s, next.value), reading);
    }
  }

  lemma {:induction false} RunOnlyAnswers(s: State, rest: seq<Op>, w: Waiter)
    requires Inv(s) && w in s.changeWaiters && LeavesAlone(rest, w)
    ensures Run(s, rest).revision == s.revision ==> w in Run(s, rest).changeWaiters
  {
    if rest != [] {
      var front, last := rest[..|rest| - 1], rest[|rest| - 1];
      assert rest == front + [last];
      assert last in rest && forall op :: op in front ==> op in rest;
      RunOnlyAnswers(s, front, w);
      RunKeepsInv(s, front);
      RunVersions(s, front);
      StepVersions(Run(s, front), last);
      if Run(s, front).revision == s.revision { StepOnlyAnswers(Run(s, front), last, w); }
    }
  }

  /** A poll that asks with the version in force, and is not given up, is parked exactly until the version
      moves; one that asks with another version never is. */
  lemma PollIsAnsweredByTheNextChange(ops: seq<Op>, w: Waiter, rest: seq<Op>)
    requires LeavesAlone(rest, w) && w !in Run(INITIAL, ops).changeWaiters && OpWait(w, false) !in rest
    ensures var s, t := Run(INITIAL, ops), Run(INITIAL, ops + [OpWait(w, false)] + rest);
      w.version == s.revision ==> (w in t.changeWaiters <==> t.revision == s.revision)
    ensures var s, t := Run(INITIAL, ops), Run(INITIAL, ops + [OpWait(w, false)]);
      w.version != s.revision ==> w !in t.changeWaiters
  {
    var upTo := ops + [OpWait(w, false)];
    var s, u := Run(INITIAL, ops), Run(INITIAL, upTo);
    assert upTo[..|ops|] == ops;
    EveryRunKeepsInv(ops);
    EveryRunKeepsInv(upTo);
    EveryRunKeepsInv(upTo + rest);
    RunSplits(INITIAL, upTo, rest);
    if w.version == s.revision { RunOnlyAnswers(u, rest, w); }
  }

  /** Who is parked after a step: whoever was and did not go, and whoever asks now with the version in force
      and does not give up at once; nobody once the version moved. */
  lemma ParkedExactly(ops: seq<Op>, op: Op, w: Waiter)
    ensures var s, t := Run(INITIAL, ops), Run(INITIAL, ops + [op]);
      w in t.changeWaiters <==>
        && t.revision == s.revision && op != OpStopWaiting(w)
        && (w in s.changeWaiters || (op == OpWait(w, false) && w.version == s.revision))
  {
    var s := Run(INITIAL, ops);
    assert (ops + [op])[..|ops|] == ops;
    EveryRunKeepsInv(ops);
    EveryRunKeepsInv(ops + [op]);
    StepVersions(s, op);
    StepParksOnly(s, op, w);
    if w in s.changeWaiters && op != OpStopWaiting(w) { StepOnlyAnswers(s, op, w); }
  }

  lemma StepParksOnly(s: State, op: Op, w: Waiter)
    ensures w in Step(s, op).changeWaiters ==>
      op != OpStopWaiting(w) && (w in s.changeWaiters || (op == OpWait(w, false) && w.version == s.revision))
    ensures op == OpWait(w, false) && w.version == s.revision ==> w in Step(s, op).changeWaiters
  {
    match op
    case OpAcquire(request, aborted, now, reading) =>
      if s.stoppingMessage.None? && !aborted { DrainKeepsPolls(Enqueue(s, NewEntry(s.issued, request, now)), reading); }
    case OpRelease(id, reading) => if IsActive(s, id) { DrainKeepsPolls(Retired(s, id), reading); }
    case OpAbort(id, reading) => if IsQueued(s, id) { DrainKeepsPolls(Withdrawn(s, id), reading); }
    case OpRecheck(reading) => DrainKeepsPolls(s.(memoryRecheck := false), reading);
    case _ =>
  }

  // ---- What is shown ----

  /** The snapshot of every run: the searches shown are those neither ended nor turned away, each running one
      holds from one to five units and each waiting one asks for as many, at most twelve are held, at most
      seven when no exact search runs, and while somebody waits somebody runs. */
  lemma SnapshotInEveryRun(ops: seq<Op>, shown: Snapshot)
    requires shown == SnapshotOf(Run(INITIAL, ops))
    ensures var s := Run(INITIAL, ops);
      && shown.activeSearches + shown.queuedSearches + |s.released| + |s.turnedAway| == |Asked(ops)|
      && shown.activeSearches <= shown.activeUnits <= 5 * shown.activeSearches
      && shown.queuedSearches <= shown.queuedUnits <= 5 * shown.queuedSearches
      && shown.activeUnits <= 12 && shown.capacityUnits == 7
      && (shown.queuedSearches > 0 ==> shown.activeUnits >= 2)
      && (forall id: nat :: IsActive(s, id) ==> shown.activeSearches > 0)
      && (forall id: nat :: IsQueued(s, id) ==> shown.queuedSearches > 0)
  {
    var s := Run(INITIAL, ops);
    EveryRunKeepsInv(ops);
    CapacityInEveryRun(ops);
    SearchesAreAsAsked(ops);
    UnitsBySearch(s.active, Asked(ops));
    UnitsBySearch(s.queued, Asked(ops));
    WaitingMeansRunning(s);
    TicketsAreCounted(s);
  }

  lemma {:induction false} UnitsBySearch(es: seq<Entry>, asked: seq<Request>)
    requires FromRequests(es, asked)
    ensures |es| <= Sum(es, AllUnits) <= 5 * |es|
  {
    if es != [] {
      assert forall e :: e in es[..|es| - 1] ==> e in es;
      UnitsBySearch(es[..|es| - 1], asked);
      assert es[|es| - 1] in es;
    }
  }

  lemma {:induction false} HeavyUnitsOfSome(es: seq<Entry>)
    requires forall e :: e in es ==> EntryOk(e)
    ensures Sum(es, HeavyUnits) > 0 ==> Sum(es, HeavyUnits) >= 2
  {
    if es != [] {
      assert forall e :: e in es[..|es| - 1] ==> e in es;
      HeavyUnitsOfSome(es[..|es| - 1]);
      assert EntryOk(es[|es| - 1]);
    }
  }

  lemma WaitingMeansRunning(s: State)
    requires Inv(s)
    ensures s.queued != [] ==> Sum(s.active, AllUnits) >= 2
  {
    SumSplitsByKind(s.active);
    HeavyUnitsOfSome(s.active);
    if s.queued != [] && !HeavyWaiting(s.queued) {
      var e := s.queued[0];
      assert e in s.queued && !e.heavy;
      FirstExactIsEarliest(s.queued, e);
    }
  }

  lemma {:induction false} IdsAreCounted(es: seq<Entry>)
    requires Distinct(es)
    ensures |Ids(es)| == |es|
  {
    if es != [] {
      var front, last := es[..|es| - 1], es[|es| - 1];
      IdsAreCounted(front);
      assert es == front + [last];
      assert Ids(es) == Ids(front) + {last.id};
      assert last.id !in Ids(front);
    }
  }

  lemma {:induction false} FirstNumbers(n: nat, ids: set<nat>)
    requires forall id: nat :: id in ids <==> id < n
    ensures |ids| == n
  {
    if n == 0 {
      assert ids == {};
    } else {
      FirstNumbers(n - 1, ids - {n - 1});
    }
  }

  lemma TicketsAreCounted(s: State)
    requires Inv(s)
    ensures |s.active| + |s.queued| + |s.released| + |s.turnedAway| == s.issued
  {
    AscendingIsDistinct(s.queued);
    IdsAreCounted(s.active);
    IdsAreCounted(s.queued);
    var tickets := TicketsIn(s.active, s.queued, s.released, s.turnedAway);
    FirstNumbers(s.issued, tickets);
    FourParts(Ids(s.active), Ids(s.queued), s.released, s.turnedAway);
  }

  lemma FourParts(a: set<nat>, b: set<nat>, c: set<nat>, d: set<nat>)
    requires a !! b !! c !! d
    ensures |a + b + c + d| == |a| + |b| + |c| + |d|
  {
    assert |a + b| == |a| + |b|;
    assert |a + b + c| == |a + b| + |c|;
  }
}
