/**
 What every run of the search admission controller keeps: capacity, conservation of searches,
 the fairness book-keeping, quiescence and the versioned snapshot.
 */
module SearchAdmissionSafety {
  import opened Wrappers
  import opened SearchAdmission

  // ---- The invariant ----

  ghost predicate EntryOk(e: Entry) {
    && e.heavy == (e.kind != Exact)
    && (e.kind == Exact ==> e.costUnits == 1)
    && (e.kind == Matrix ==> e.costUnits == 2)
    && (e.kind == Range ==> e.costUnits in {2, 3, 5})
  }

  /** No two entries share an id. */
  ghost predicate Distinct(es: seq<Entry>) {
    es == [] || (Distinct(es[..|es| - 1]) && forall e :: e in es[..|es| - 1] ==> e.id != es[|es| - 1].id)
  }

  /** In order of arrival. */
  ghost predicate Ascending(es: seq<Entry>) {
    es == [] || (Ascending(es[..|es| - 1]) && forall e :: e in es[..|es| - 1] ==> e.id < es[|es| - 1].id)
  }

  ghost predicate EntriesOk(s: State) {
    && (forall e :: e in s.active || e in s.queued ==> EntryOk(e))
    && Distinct(s.active) && Ascending(s.queued)
  }

  /** Every ticket issued is in exactly one of the four places. */
  ghost predicate Conserved(s: State) {
    && Ids(s.active) !! Ids(s.queued) !! s.released !! s.turnedAway
    && (forall id: nat :: id < s.issued <==> id in TicketsIn(s.active, s.queued, s.released, s.turnedAway))
  }

  /** The searches that ever started are the running and the released ones, each started once. */
  ghost predicate StartedOnce(s: State) {
    Ids(Entries(s.log)) == Ids(s.active) + s.released && Distinct(Entries(s.log))
  }

  ghost function TicketsIn(active: seq<Entry>, queued: seq<Entry>, released: set<nat>, turnedAway: set<nat>): set<nat> {
    Ids(active) + Ids(queued) + released + turnedAway
  }

  ghost predicate WithinCapacity(s: State) {
    Sum(s.active, HeavyUnits) <= HEAVY_LIMIT_UNITS && Sum(s.active, ExactUnits) <= CAPACITY_UNITS
  }

  ghost predicate ServiceOk(s: State) {
    && (forall k :: k in s.lastHeavyAdmission ==> 1 <= s.lastHeavyAdmission[k] <= s.heavyAdmissions)
    && s.lastHeavyAdmission.Keys <= WorkingSessions(s)
  }

  ghost predicate WaitersOk(s: State) {
    forall w :: w in s.changeWaiters ==> w.version == s.revision
  }

  /** No search waits for something it no longer has to wait for. */
  ghost predicate Settled(s: State) {
    && (s.stoppingMessage.Some? ==> s.queued == [])
    && (HeavyWaiting(s.queued) ==> Sum(s.active, HeavyUnits) > 0)
    && (FirstExact(s.queued).Some? ==> Sum(s.active, ExactUnits) >= EXACT_RESERVED_UNITS)
    && (FirstExact(s.queued).Some? && !HeavyWaiting(s.queued) ==> Sum(s.active, AllUnits) >= CAPACITY_UNITS)
    && (HeavyWaiting(s.queued) && !s.memoryRecheck ==>
          var fairest := Fairest(s, s.queued); fairest.Some? && !HeavyFitsUnits(s, fairest.value))
  }

  /** The exact search chosen is the one that arrived first. */
  lemma {:induction false} FirstExactIsEarliest(queued: seq<Entry>, x: Entry)
    requires Ascending(queued) && x in queued && !x.heavy
    ensures FirstExact(queued).Some? && FirstExact(queued).value.id <= x.id
    decreases |queued|
  {
    if queued[0].heavy {
      TailIsAscending(queued);
      assert queued == [queued[0]] + queued[1..];
      FirstExactIsEarliest(queued[1..], x);
    } else {
      FirstIsLeast(queued, x);
    }
  }

  lemma {:induction false} FirstIsLeast(es: seq<Entry>, x: Entry)
    requires Ascending(es) && x in es
    ensures es[0].id <= x.id
  {
    var front := es[..|es| - 1];
    assert es == front + [es[|es| - 1]];
    if x in front {
      FirstIsLeast(front, x);
    } else if |es| > 1 {
      assert front[0] in front;
    }
  }

  lemma {:induction false} TailIsAscending(es: seq<Entry>)
    requires Ascending(es) && es != []
    ensures Ascending(es[1..])
  {
    if |es| > 1 {
      var front := es[..|es| - 1];
      TailIsAscending(front);
      assert es[1..][..|es| - 2] == front[1..];
      assert forall e :: e in front[1..] ==> e in front;
    }
  }

  /** What holds even in the middle of a step. */
  ghost predicate Core(s: State) {
    EntriesOk(s) && Conserved(s) && StartedOnce(s) && WithinCapacity(s) && WaitersOk(s)
  }

  ghost predicate Inv(s: State) {
    Core(s) && ServiceOk(s) && Settled(s)
  }

  // ---- Removal ----

  lemma {:induction false} AscendingIsDistinct(es: seq<Entry>)
    requires Ascending(es)
    ensures Distinct(es)
  {
    if es != [] { AscendingIsDistinct(es[..|es| - 1]); }
  }

  lemma {:induction false} IdNamesEntry(es: seq<Entry>, x: Entry, y: Entry)
    requires Distinct(es) && x in es && y in es && x.id == y.id
    ensures x == y
  {
    assert es == es[..|es| - 1] + [es[|es| - 1]];
    if x in es[..|es| - 1] && y in es[..|es| - 1] { IdNamesEntry(es[..|es| - 1], x, y); }
  }

  lemma {:induction false} WithoutAbsent(es: seq<Entry>, id: nat)
    requires forall e :: e in es ==> e.id != id
    ensures Without(es, id) == es
  {
    if es != [] {
      WithoutAbsent(es[..|es| - 1], id);
      assert es == es[..|es| - 1] + [es[|es| - 1]];
    }
  }

  lemma {:induction false} WithoutKeepsDistinct(es: seq<Entry>, id: nat)
    requires Distinct(es)
    ensures Distinct(Without(es, id))
  {
    if es != [] {
      var rest := Without(es[..|es| - 1], id);
      WithoutKeepsDistinct(es[..|es| - 1], id);
      WithoutKeeps(es[..|es| - 1], id);
      assert (rest + [es[|es| - 1]])[..|rest|] == rest;
    }
  }

  lemma {:induction false} WithoutKeepsAscending(es: seq<Entry>, id: nat)
    requires Ascending(es)
    ensures Ascending(Without(es, id))
  {
    if es != [] {
      var rest := Without(es[..|es| - 1], id);
      WithoutKeepsAscending(es[..|es| - 1], id);
      WithoutKeeps(es[..|es| - 1], id);
      assert (rest + [es[|es| - 1]])[..|rest|] == rest;
    }
  }

  lemma {:induction false} SumWithout(es: seq<Entry>, e: Entry, m: Measure)
    requires e in es && Distinct(es)
    ensures Sum(es, m) == Sum(Without(es, e.id), m) + Weight(e, m)
  {
    var front, last := es[..|es| - 1], es[|es| - 1];
    assert es == front + [last];
    if last.id == e.id {
      assert last == e;
      WithoutAbsent(front, e.id);
    } else {
      SumWithout(front, e, m);
      var rest := Without(front, e.id);
      assert (rest + [last])[..|rest|] == rest;
    }
  }

  lemma {:induction false} SumWithoutShrinks(es: seq<Entry>, id: nat, m: Measure)
    ensures Sum(Without(es, id), m) <= Sum(es, m)
  {
    if es != [] {
      var rest := Without(es[..|es| - 1], id);
      SumWithoutShrinks(es[..|es| - 1], id, m);
      assert (rest + [es[|es| - 1]])[..|rest|] == rest;
    }
  }

  lemma SumAppend(es: seq<Entry>, e: Entry, m: Measure)
    ensures Sum(es + [e], m) == Sum(es, m) + Weight(e, m)
  {
    assert (es + [e])[..|es|] == es;
  }

  lemma {:induction false} SumCovers(es: seq<Entry>, e: Entry, m: Measure)
    requires e in es
    ensures Sum(es, m) >= Weight(e, m)
  {
    assert es == es[..|es| - 1] + [es[|es| - 1]];
    if e != es[|es| - 1] { SumCovers(es[..|es| - 1], e, m); }
  }

  // ---- One start ----

  lemma StartKeepsEntries(s: State, e: Entry)
    requires EntriesOk(s) && Conserved(s) && e in s.queued
    ensures EntriesOk(Start(s, e))
  {
    WithoutKeeps(s.queued, e.id);
    WithoutKeepsAscending(s.queued, e.id);
    assert (s.active + [e])[..|s.active|] == s.active;
    assert e.id in Ids(s.queued);
    forall x | x in s.active ensures x.id != e.id { assert x.id in Ids(s.active); }
  }

  lemma StartKeepsConserved(s: State, e: Entry)
    requires EntriesOk(s) && Conserved(s) && e in s.queued
    ensures Conserved(Start(s, e))
  {
    WithoutKeeps(s.queued, e.id);
    var t := Start(s, e);
    assert e.id in Ids(s.queued);
    AppendIds(s.active, e);
    assert Ids(t.queued) == Ids(s.queued) - {e.id};
    assert TicketsIn(t.active, t.queued, t.released, t.turnedAway) ==
        TicketsIn(s.active, s.queued, s.released, s.turnedAway);
  }

  lemma StartKeepsStartedOnce(s: State, e: Entry)
    requires Conserved(s) && StartedOnce(s) && e in s.queued
    ensures StartedOnce(Start(s, e))
  {
    var started := Entries(s.log);
    EntriesAppend(s.log, Admission(e, Without(s.queued, e.id)));
    assert e.id in Ids(s.queued);
    AppendIds(started, e);
    AppendIds(s.active, e);
    AppendKeepsDistinct(started, e);
  }

  lemma EntriesAppend(log: seq<Admission>, a: Admission)
    ensures Entries(log + [a]) == Entries(log) + [a.entry]
  {
    assert (log + [a])[..|log|] == log;
  }

  lemma AppendKeepsDistinct(es: seq<Entry>, e: Entry)
    requires Distinct(es) && e.id !in Ids(es)
    ensures Distinct(es + [e])
  {
    assert (es + [e])[..|es|] == es;
  }

  lemma AppendIds(es: seq<Entry>, e: Entry)
    ensures Ids(es + [e]) == Ids(es) + {e.id}
  {
    forall x | x in es ensures x in es + [e] {}
    assert e in es + [e];
    forall id | id in Ids(es) + {e.id} ensures id in Ids(es + [e]) {
      if id != e.id { var x :| x in es && x.id == id; assert x in es + [e]; }
    }
  }

  lemma StartKeepsCapacity(s: State, e: Entry, reading: Option<Reading>)
    requires WithinCapacity(s) && PickNext(s, reading) == Some(e)
    ensures WithinCapacity(Start(s, e))
  {
    FirstExactIsExact(s.queued);
    FairestIsQueued(s, s.queued);
    SumSplitsByKind(s.active);
    SumAppend(s.active, e, HeavyUnits);
    SumAppend(s.active, e, ExactUnits);
  }

  lemma StartKeepsCore(s: State, e: Entry, reading: Option<Reading>)
    requires Core(s) && PickNext(s, reading) == Some(e)
    ensures Core(Start(s, e))
  {
    PickNextIsQueued(s, reading);
    StartKeepsEntries(s, e);
    StartKeepsConserved(s, e);
    StartKeepsStartedOnce(s, e);
    StartKeepsCapacity(s, e, reading);
  }

  lemma StartKeepsService(s: State, e: Entry)
    requires ServiceOk(s) && EntriesOk(s) && e in s.queued
    ensures ServiceOk(Start(s, e))
  {
    AscendingIsDistinct(s.queued);
    WithoutKeeps(s.queued, e.id);
    var t := Start(s, e);
    assert e in t.active;
    forall k | k in WorkingSessions(s) ensures k in WorkingSessions(t) {
      var x :| (x in s.active || x in s.queued) && x.sessionKey == k;
      if x in s.active { assert x in t.active; }
      else if x.id == e.id { IdNamesEntry(s.queued, x, e); }
      else { assert x in t.queued; }
    }
  }

  // ---- One pass of startQueued ----

  /** The choice of the fairest looks at the running searches and the service record only. */
  lemma {:induction false} FairestFrame(s: State, t: State, queued: seq<Entry>)
    requires s.active == t.active && s.lastHeavyAdmission == t.lastHeavyAdmission
    ensures Fairest(s, queued) == Fairest(t, queued)
  {
    if queued != [] { FairestFrame(s, t, queued[..|queued| - 1]); }
  }

  lemma {:induction false} DrainKeeps(s: State, reading: Option<Reading>)
    requires Core(s) && ServiceOk(s)
    ensures Core(Drain(s, reading)) && ServiceOk(Drain(s, reading))
    ensures Drain(s, reading).stoppingMessage == s.stoppingMessage && Drain(s, reading).revision == s.revision
    ensures PickNext(Drain(s, reading), reading).None?
    ensures HeldByMemory(Drain(s, reading), reading) ==> Drain(s, reading).memoryRecheck
    decreases |s.queued|
  {
    var next := PickNext(s, reading);
    if next.None? {
      FairestFrame(s, Drain(s, reading), s.queued);
    } else {
      PickNextIsQueued(s, reading);
      StartKeepsCore(s, next.value, reading);
      StartKeepsService(s, next.value);
      DrainKeeps(Start(s, next.value), reading);
    }
  }

  /** A heavy search with no other heavy work running is never held back, whatever memory says. */
  lemma HeavyAloneStarts(s: State, reading: Option<Reading>)
    requires EntriesOk(s) && HeavyWaiting(s.queued) && Sum(s.active, HeavyUnits) == 0
    ensures PickHeavy(s, reading).Some? && PickNext(s, reading).Some?
  {
    FairestIsQueued(s, s.queued);
  }

  /** When nothing can start, every search that waits has its reason. */
  lemma NothingToStartIsSettled(s: State, reading: Option<Reading>)
    requires Core(s) && s.stoppingMessage.None?
    requires PickNext(s, reading).None? && (HeldByMemory(s, reading) ==> s.memoryRecheck)
    ensures Settled(s)
  {
    FairestIsQueued(s, s.queued);
    FirstExactIsExact(s.queued);
    SumSplitsByKind(s.active);
    if HeavyWaiting(s.queued) && Sum(s.active, HeavyUnits) == 0 { HeavyAloneStarts(s, reading); }
  }

  lemma ChangedFrame(s: State, reading: Option<Reading>)
    requires Core(s) && ServiceOk(s)
    ensures Core(Changed(s)) && ServiceOk(Changed(s))
    ensures PickNext(Changed(s), reading) == PickNext(s, reading)
    ensures HeldByMemory(Changed(s), reading) == HeldByMemory(s, reading)
  {
    FairestFrame(s, Changed(s), s.queued);
  }

  lemma StartQueuedSettles(s: State, reading: Option<Reading>)
    requires Core(s) && ServiceOk(s)
    requires s.stoppingMessage.Some? ==> s.queued == []
    ensures Inv(StartQueued(s, reading))
    ensures s.stoppingMessage.None? ==> PickNext(StartQueued(s, reading), reading).None?
    ensures StartQueued(s, reading).stoppingMessage == s.stoppingMessage
  {
    if s.stoppingMessage.None? {
      DrainKeeps(s, reading);
      ChangedFrame(Drain(s, reading), reading);
      NothingToStartIsSettled(StartQueued(s, reading), reading);
    } else {
      FirstExactIsExact(s.queued);
    }
  }

  // ---- Every step ----

  lemma ForgetKeepsService(s: State)
    requires forall k :: k in s.lastHeavyAdmission ==> 1 <= s.lastHeavyAdmission[k] <= s.heavyAdmissions
    ensures ServiceOk(ForgetIdleSessions(s))
  {
    assert WorkingSessions(ForgetIdleSessions(s)) == WorkingSessions(s);
  }

  lemma TicketsAreFresh(s: State)
    requires Conserved(s)
    ensures forall e :: e in s.queued || e in s.active ==> e.id < s.issued
  {
    forall e | e in s.queued || e in s.active ensures e.id < s.issued {
      assert e.id in TicketsIn(s.active, s.queued, s.released, s.turnedAway);
    }
  }

  function Enqueue(s: State, e: Entry): State {
    s.(issued := s.issued + 1, queued := s.queued + [e])
  }

  lemma EnqueueKeepsEntries(s: State, e: Entry)
    requires EntriesOk(s) && Conserved(s) && EntryOk(e) && e.id == s.issued
    ensures EntriesOk(Enqueue(s, e))
  {
    TicketsAreFresh(s);
    assert (s.queued + [e])[..|s.queued|] == s.queued;
  }

  lemma ReleasedIsGone(s: State, id: nat)
    requires Inv(s) && id in s.released
    ensures !IsActive(s, id)
  {
    assert forall e :: e in s.active ==> e.id in Ids(s.active);
  }

  /** The order of the two lists, for those who need no more of the invariant. */
  lemma InvKeepsOrder(s: State)
    requires Inv(s)
    ensures Ascending(s.queued) && Distinct(s.queued) && Distinct(s.active)
  {
    AscendingIsDistinct(s.queued);
  }

  lemma ArrivalKeepsOrder(s: State, e: Entry)
    requires Inv(s) && EntryOk(e) && e.id == s.issued
    ensures Ascending(s.queued + [e])
  {
    EnqueueKeepsEntries(s, e);
  }

  lemma EnqueueKeepsTickets(s: State, e: Entry)
    requires Conserved(s) && e.id == s.issued
    ensures Conserved(Enqueue(s, e))
  {
    var u := Enqueue(s, e);
    AppendIds(s.queued, e);
    assert TicketsIn(u.active, u.queued, u.released, u.turnedAway)
        == TicketsIn(s.active, s.queued, s.released, s.turnedAway) + {e.id};
    assert e.id !in TicketsIn(s.active, s.queued, s.released, s.turnedAway);
  }

  lemma EnqueueKeeps(s: State, e: Entry)
    requires Core(s) && ServiceOk(s) && EntryOk(e) && e.id == s.issued
    ensures Core(Enqueue(s, e)) && ServiceOk(Enqueue(s, e))
  {
    EnqueueKeepsEntries(s, e);
    EnqueueKeepsTickets(s, e);
    assert WorkingSessions(s) <= WorkingSessions(Enqueue(s, e)) by {
      assert forall x :: x in s.queued ==> x in Enqueue(s, e).queued;
    }
  }

  lemma ChangedKeepsInv(s: State)
    requires Inv(s)
    ensures Inv(Changed(s))
  {
    FairestFrame(s, Changed(s), s.queued);
  }

  lemma RefusalKeepsInv(s: State)
    requires Inv(s)
    ensures Inv(s.(issued := s.issued + 1, turnedAway := s.turnedAway + {s.issued}))
  {
    var t := s.(issued := s.issued + 1, turnedAway := s.turnedAway + {s.issued});
    FairestFrame(s, t, s.queued);
    assert s.issued !in TicketsIn(s.active, s.queued, s.released, s.turnedAway);
    assert TicketsIn(t.active, t.queued, t.released, t.turnedAway)
        == TicketsIn(s.active, s.queued, s.released, s.turnedAway) + {s.issued};
  }

  lemma AcquireKeepsInv(s: State, request: Request, aborted: bool, now: int, reading: Option<Reading>)
    requires Inv(s)
    ensures Inv(Acquire(s, request, aborted, now, reading))
  {
    if s.stoppingMessage.Some? || aborted {
      RefusalKeepsInv(s);
    } else {
      var e := NewEntry(s.issued, request, now);
      EnqueueKeeps(s, e);
      StartQueuedSettles(Enqueue(s, e), reading);
      ChangedKeepsInv(StartQueued(Enqueue(s, e), reading));
    }
  }

  function Retire(s: State, id: nat): State {
    s.(active := Without(s.active, id), released := s.released + {id})
  }

  lemma RetireKeepsCore(s: State, id: nat)
    requires Core(s) && IsActive(s, id)
    ensures Core(Retire(s, id))
  {
    WithoutKeeps(s.active, id);
    WithoutKeepsDistinct(s.active, id);
    SumWithoutShrinks(s.active, id, HeavyUnits);
    SumWithoutShrinks(s.active, id, ExactUnits);
    assert id in Ids(s.active);
    RetireKeepsTickets(s, id);
  }

  lemma RetireKeepsTickets(s: State, id: nat)
    requires Conserved(s) && StartedOnce(s) && id in Ids(s.active)
    ensures Conserved(Retire(s, id)) && StartedOnce(Retire(s, id))
  {
    var t := Retire(s, id);
    WithoutKeeps(s.active, id);
    assert Ids(t.active) == Ids(s.active) - {id};
    assert Ids(t.active) + t.released == Ids(s.active) + s.released;
    assert TicketsIn(t.active, t.queued, t.released, t.turnedAway) ==
        TicketsIn(s.active, s.queued, s.released, s.turnedAway);
  }

  lemma ForgetKeepsCore(s: State)
    requires Core(s)
    ensures Core(Changed(ForgetIdleSessions(s)))
  {
  }

  /** The state in which `release` calls `startQueued`. */
  function Retired(s: State, id: nat): State {
    Changed(ForgetIdleSessions(Retire(s, id)))
  }

  ghost predicate RecordsOk(s: State) {
    forall k :: k in s.lastHeavyAdmission ==> 1 <= s.lastHeavyAdmission[k] <= s.heavyAdmissions
  }

  lemma ForgetKeeps(s: State)
    requires Core(s) && RecordsOk(s)
    ensures Core(Changed(ForgetIdleSessions(s))) && ServiceOk(Changed(ForgetIdleSessions(s)))
  {
    ForgetKeepsCore(s);
    ForgetKeepsService(s);
    ChangedKeepsService(ForgetIdleSessions(s));
  }

  lemma ChangedKeepsService(s: State)
    requires ServiceOk(s)
    ensures ServiceOk(Changed(s))
  {
  }

  lemma RetireKeepsRecords(s: State, id: nat)
    requires ServiceOk(s)
    ensures RecordsOk(Retire(s, id))
  {
  }

  lemma RetiredKeepsCore(s: State, id: nat)
    requires Core(s) && ServiceOk(s) && IsActive(s, id)
    ensures Core(Retired(s, id)) && ServiceOk(Retired(s, id))
  {
    RetireKeepsCore(s, id);
    RetireKeepsRecords(s, id);
    ForgetKeeps(Retire(s, id));
  }

  lemma ReleaseKeepsInv(s: State, id: nat, reading: Option<Reading>)
    requires Inv(s)
    ensures Inv(Release(s, id, reading))
  {
    if IsActive(s, id) {
      RetiredKeepsCore(s, id);
      StartQueuedSettles(Retired(s, id), reading);
    }
  }

  function Withdraw(s: State, id: nat): State {
    s.(queued := Without(s.queued, id), turnedAway := s.turnedAway + {id})
  }

  lemma WithdrawKeepsTickets(s: State, id: nat)
    requires Conserved(s) && id in Ids(s.queued)
    ensures Conserved(Withdraw(s, id))
  {
    var t := Withdraw(s, id);
    WithoutKeeps(s.queued, id);
    assert Ids(t.queued) == Ids(s.queued) - {id};
    assert TicketsIn(t.active, t.queued, t.released, t.turnedAway) ==
        TicketsIn(s.active, s.queued, s.released, s.turnedAway);
  }

  lemma WithdrawKeepsCore(s: State, id: nat)
    requires Core(s) && IsQueued(s, id)
    ensures Core(Withdraw(s, id))
  {
    WithoutKeeps(s.queued, id);
    WithoutKeepsAscending(s.queued, id);
    assert id in Ids(s.queued);
    WithdrawKeepsTickets(s, id);
  }

  /** The state in which `removeQueued` calls `startQueued`. */
  function Withdrawn(s: State, id: nat): State {
    Changed(ForgetIdleSessions(Withdraw(s, id)))
  }

  lemma WithdrawnKeepsCore(s: State, id: nat)
    requires Core(s) && ServiceOk(s) && IsQueued(s, id)
    ensures Core(Withdrawn(s, id)) && ServiceOk(Withdrawn(s, id))
  {
    WithdrawKeepsCore(s, id);
    ForgetKeepsCore(Withdraw(s, id));
    ForgetKeepsService(Withdraw(s, id));
  }

  lemma AbortKeepsInv(s: State, id: nat, reading: Option<Reading>)
    requires Inv(s)
    ensures Inv(Abort(s, id, reading))
  {
    if IsQueued(s, id) {
      WithdrawnKeepsCore(s, id);
      StartQueuedSettles(Withdrawn(s, id), reading);
    }
  }

  lemma StopKeepsInv(s: State, message: string)
    requires Inv(s)
    ensures Inv(StopAccepting(s, message))
  {
    var t := s.(stoppingMessage := Some(message), queued := [], turnedAway := s.turnedAway + Ids(s.queued));
    assert Ids(t.queued) == {};
    assert TicketsIn(t.active, t.queued, t.released, t.turnedAway) ==
        TicketsIn(s.active, s.queued, s.released, s.turnedAway);
    ForgetKeepsService(t);
  }

  lemma RecheckKeepsInv(s: State, reading: Option<Reading>)
    requires Inv(s)
    ensures Inv(Recheck(s, reading))
  {
    if s.memoryRecheck && s.stoppingMessage.None? { StartQueuedSettles(s.(memoryRecheck := false), reading); }
  }

  lemma WaitKeepsInv(s: State, waiter: Waiter, givesUpAtOnce: bool)
    requires Inv(s)
    ensures Inv(WaitForChange(s, waiter, givesUpAtOnce))
  {
    FairestFrame(s, WaitForChange(s, waiter, givesUpAtOnce), s.queued);
  }

  lemma StopWaitingKeepsInv(s: State, waiter: Waiter)
    requires Inv(s)
    ensures Inv(StopWaiting(s, waiter))
  {
    FairestFrame(s, StopWaiting(s, waiter), s.queued);
  }

  lemma StepKeepsInv(s: State, op: Op)
    requires Inv(s)
    ensures Inv(Step(s, op))
  {
    match op
    case OpAcquire(request, aborted, now, reading) => AcquireKeepsInv(s, request, aborted, now, reading);
    case OpRelease(id, reading) => ReleaseKeepsInv(s, id, reading);
    case OpAbort(id, reading) => AbortKeepsInv(s, id, reading);
    case OpRecheck(reading) => RecheckKeepsInv(s, reading);
    case OpStopAccepting(message) => StopKeepsInv(s, message);
    case OpWait(waiter, givesUpAtOnce) => WaitKeepsInv(s, waiter, givesUpAtOnce);
    case OpStopWaiting(waiter) => StopWaitingKeepsInv(s, waiter);
  }

  lemma {:induction false} RunKeepsInv(s: State, ops: seq<Op>)
    requires Inv(s)
    ensures Inv(Run(s, ops))
  {
    if ops != [] {
      RunKeepsInv(s, ops[..|ops| - 1]);
      StepKeepsInv(Run(s, ops[..|ops| - 1]), ops[|ops| - 1]);
    }
  }

  lemma EveryRunKeepsInv(ops: seq<Op>)
    ensures Inv(Run(INITIAL, ops))
  {
    assert Inv(INITIAL) by {
      assert FirstExact(INITIAL.queued).None?;
      assert Ids(INITIAL.active) == Ids(INITIAL.queued) == {};
    }
    RunKeepsInv(INITIAL, ops);
  }

  // ---- A step as a preparation and a pass ----

  /** The state in which the step calls `startQueued`, or its whole effect when it does not. */
  function Prepare(s: State, op: Op): State {
    match op
    case OpAcquire(request, aborted, now, _) =>
      if s.stoppingMessage.Some? || aborted then Step(s, op) else Enqueue(s, NewEntry(s.issued, request, now))
    case OpRelease(id, _) => if IsActive(s, id) then Retired(s, id) else s
    case OpAbort(id, _) => if IsQueued(s, id) then Withdrawn(s, id) else s
    case OpRecheck(_) => if s.memoryRecheck && s.stoppingMessage.None? then s.(memoryRecheck := false) else s
    case _ => Step(s, op)
  }

  ghost predicate HasReading(op: Op) {
    op.OpAcquire? || op.OpRelease? || op.OpAbort? || op.OpRecheck?
  }

  /** Equal in everything but the version, the parked polls and the recheck timer. */
  ghost predicate SameWork(s: State, t: State) {
    && s.released == t.released && s.turnedAway == t.turnedAway
    && s.active == t.active && s.queued == t.queued && s.lastHeavyAdmission == t.lastHeavyAdmission
    && s.heavyAdmissions == t.heavyAdmissions && s.issued == t.issued && s.log == t.log
        && s.stoppingMessage == t.stoppingMessage
  }

  lemma PrepareKeepsCore(s: State, op: Op)
    requires Inv(s)
    ensures Core(Prepare(s, op)) && ServiceOk(Prepare(s, op))
  {
    match op
    case OpAcquire(request, aborted, now, reading) =>
      if s.stoppingMessage.Some? || aborted {
        RefusalKeepsInv(s);
      } else {
        EnqueueKeeps(s, NewEntry(s.issued, request, now));
      }
    case OpRelease(id, _) => if IsActive(s, id) { RetiredKeepsCore(s, id); }
    case OpAbort(id, _) => if IsQueued(s, id) { WithdrawnKeepsCore(s, id); }
    case OpRecheck(_) =>
    case OpStopAccepting(message) => StopKeepsInv(s, message);
    case _ =>
  }

  lemma PassIsDrain(s: State, reading: Option<Reading>)
    ensures if s.stoppingMessage.Some? then StartQueued(s, reading) == s
      else SameWork(StartQueued(s, reading), Drain(s, reading))
  {
  }

  lemma StepIsPreparedPass(s: State, op: Op)
    ensures var p := Prepare(s, op);
      SameWork(Step(s, op), p)
          || (HasReading(op) && p.stoppingMessage.None? && SameWork(Step(s, op), Drain(p, op.reading)))
  {
    if HasReading(op) { PassIsDrain(Prepare(s, op), op.reading); }
  }

  /** A preparation starts nothing: it only adds the new arrival, or takes searches and records away. */
  lemma PreparationOnlyTakesAway(s: State, op: Op)
    ensures var p := Prepare(s, op);
      && s.released <= p.released && s.turnedAway <= p.turnedAway
      && p.log == s.log && p.heavyAdmissions == s.heavyAdmissions && s.issued <= p.issued
      && (forall e :: e in p.queued ==> e in s.queued || (op.OpAcquire? && e == NewEntry(s.issued, op.request, op.now)))
      && (forall e :: e in p.active ==> e in s.active)
      && (forall m :: Sum(p.active, m) <= Sum(s.active, m))
      && (forall k :: k in p.lastHeavyAdmission ==>
            k in s.lastHeavyAdmission && p.lastHeavyAdmission[k] == s.lastHeavyAdmission[k])
  {
    match op
    case OpRelease(id, _) =>
      WithoutKeeps(s.active, id);
      forall m ensures Sum(Without(s.active, id), m) <= Sum(s.active, m) { SumWithoutShrinks(s.active, id, m); }
    case OpAbort(id, _) => WithoutKeeps(s.queued, id);
    case _ =>
  }

  lemma {:induction false} DrainMovesOnly(s: State, reading: Option<Reading>)
    ensures forall e :: e in Drain(s, reading).queued ==> e in s.queued
    ensures forall e :: e in Drain(s, reading).active ==> e in s.queued || e in s.active
    decreases |s.queued|
  {
    var next := PickNext(s, reading);
    if next.Some? {
      PickNextIsQueued(s, reading);
      WithoutKeeps(s.queued, next.value.id);
      DrainMovesOnly(Start(s, next.value), reading);
    }
  }

  predicate FitsUnits(s: State, request: Request) {
    if request.kind == Exact then Sum(s.active, AllUnits) + 1 <= CAPACITY_UNITS
    else Sum(s.active, HeavyUnits) + CostUnits(request.kind, request.daySearches.GetOr(1)) <= HEAVY_LIMIT_UNITS
  }

  lemma OnlyOneWaits(u: State, e: Entry)
    requires u.queued == [e]
    ensures FirstExact(u.queued) == (if e.heavy then None else Some(e)) && HeavyWaiting(u.queued) == e.heavy
    ensures Fairest(u, u.queued) == (if e.heavy then Some(e) else None)
  {
    assert u.queued[..0] == [] && u.queued[1..] == [];
    assert Fairest(u, []).None? && FirstExact([]).None?;
    assert e in u.queued;
  }

  /** A search that asks while nobody waits, with memory unreadable, starts at once if its units fit. */
  lemma AcquireAlone(s: State, request: Request, now: int)
    requires s.queued == [] && s.stoppingMessage.None? && FitsUnits(s, request)
    ensures var e := NewEntry(s.issued, request, now);
      var t := Acquire(s, request, false, now, None);
      && t.active == s.active + [e] && t.queued == [] && t.stoppingMessage.None? && t.issued == s.issued + 1
      && Sum(t.active, AllUnits) == Sum(s.active, AllUnits) + e.costUnits
      && t.lastHeavyAdmission == Start(Enqueue(s, e), e).lastHeavyAdmission
      && t.heavyAdmissions == Start(Enqueue(s, e), e).heavyAdmissions
      && t.log == s.log + [Admission(e, [])]
  {
    var e := NewEntry(s.issued, request, now);
    var u := Enqueue(s, e);
    assert u.queued == [e] && u.queued[..0] == [];
    OnlyOneWaits(u, e);
    assert PickNext(u, None) == Some(e);
    assert Without(u.queued, e.id) == [];
    var v := Start(u, e);
    assert PickNext(v, None).None? && SameWork(Drain(v, None), v);
    assert Drain(u, None) == Drain(v, None);
    SumAppend(s.active, e, AllUnits);
  }

  /** And waits if they do not. */
  lemma AcquireWaitsAlone(s: State, request: Request, now: int)
    requires s.queued == [] && s.stoppingMessage.None? && !FitsUnits(s, request)
    ensures var e := NewEntry(s.issued, request, now);
      var t := Acquire(s, request, false, now, None);
      t.active == s.active && t.queued == [e]
  {
    var e := NewEntry(s.issued, request, now);
    var u := Enqueue(s, e);
    assert u.queued == [e];
    OnlyOneWaits(u, e);
    assert PickNext(u, None).None?;
  }
}
