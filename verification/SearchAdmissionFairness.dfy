/**
 Who may overtake whom among heavy searches.

 The choice puts the session holding the fewest heavy units first, then the one served longest ago,
 then the earlier arrival. `ForgetIdleSessions` makes a session that goes idle and returns count as
 never served, and that decides everything here: a waiting search is safe from later arrivals for
 good exactly when it is its session's oldest and the session has not been served since it came to
 work.
 */
module SearchAdmissionFairness {
  import opened Wrappers
  import opened SearchAdmission
  import opened SearchAdmissionSafety

  // ---- What the choice means ----

  /** The oldest heavy search of its session. */
  ghost predicate Head(queued: seq<Entry>, e: Entry) {
    e in queued && e.heavy && forall x :: x in queued && x.heavy && x.sessionKey == e.sessionKey ==> e.id <= x.id
  }

  /** Its session holds fewer heavy units; or as many and was served longer ago, or never; or that is alike
      too and it came earlier, by the clock and then by its place. */
  ghost predicate Ahead(s: State, f: Entry, e: Entry) {
    var held := Sum(s.active, SessionHeavyUnits(f.sessionKey));
    var heldOther := Sum(s.active, SessionHeavyUnits(e.sessionKey));
    var served: int := if f.sessionKey in s.lastHeavyAdmission then s.lastHeavyAdmission[f.sessionKey] else -1;
    var servedOther: int := if e.sessionKey in s.lastHeavyAdmission then s.lastHeavyAdmission[e.sessionKey] else -1;
    || f == e || held < heldOther || (held == heldOther && served < servedOther)
    || (held == heldOther && served == servedOther && f.enqueuedAtMs < e.enqueuedAtMs)
    || (held == heldOther && served == servedOther && f.enqueuedAtMs == e.enqueuedAtMs && f.id < e.id)
  }

  /** The fairest search is a session's oldest one and is ahead of every other session's oldest. */
  lemma {:induction false} FairestIsAhead(s: State, queued: seq<Entry>)
    requires Ascending(queued)
    ensures Fairest(s, queued).Some? ==> Head(queued, Fairest(s, queued).value)
    ensures forall e :: Head(queued, e) ==> Fairest(s, queued).Some? && Ahead(s, Fairest(s, queued).value, e)
  {
    if queued != [] {
      var front, last := queued[..|queued| - 1], queued[|queued| - 1];
      assert queued == front + [last];
      FairestIsAhead(s, front);
      FairestIsQueued(s, front);
      forall e | Head(queued, e)
        ensures Fairest(s, queued).Some? && Ahead(s, Fairest(s, queued).value, e)
      {
        if e in front { assert Head(front, e); }
      }
    }
  }

  /** Two oldest searches of one session are the same search. */
  lemma HeadsDiffer(queued: seq<Entry>, e: Entry, w: Entry)
    requires Ascending(queued) && Head(queued, e) && Head(queued, w) && e.sessionKey == w.sessionKey
    ensures e == w
  {
    AscendingIsDistinct(queued);
    IdNamesEntry(queued, e, w);
  }

  /** What a pick of `e` means for another session's oldest search `w`. */
  lemma PickIsFair(s: State, reading: Option<Reading>, e: Entry, w: Entry)
    requires Ascending(s.queued) && PickNext(s, reading) == Some(e)
    ensures e in s.queued
    ensures e.heavy ==> Head(s.queued, e) && HeavyFitsUnits(s, e)
    ensures e.heavy && Head(s.queued, w) ==> Ahead(s, e, w) && (e.sessionKey == w.sessionKey ==> e == w)
  {
    PickNextIsQueued(s, reading);
    FirstExactIsExact(s.queued);
    FairestIsAhead(s, s.queued);
    if e.heavy && Head(s.queued, w) && e.sessionKey == w.sessionKey { HeadsDiffer(s.queued, e, w); }
  }

  // ---- Overtaking ----

  /** The heavy searches started since the history was `from` long while `w` waited. */
  function Overtakers(log: seq<Admission>, from: nat, w: Entry): seq<Entry> {
    if |log| <= from then []
    else
      var a := log[|log| - 1];
      Overtakers(log[..|log| - 1], from, w) + (if a.entry.heavy && w in a.waiting then [a.entry] else [])
  }

  /** Those among them that arrived after `w`. */
  function LaterOvertakers(log: seq<Admission>, from: nat, w: Entry): seq<Entry> {
    if |log| <= from then []
    else
      var a := log[|log| - 1];
      LaterOvertakers(log[..|log| - 1], from, w) +
      (if a.entry.heavy && w in a.waiting && w.id < a.entry.id then [a.entry] else [])
  }

  lemma StartOvertakers(s: State, e: Entry, from: nat, w: Entry)
    requires from <= |s.log|
    ensures Overtakers(Start(s, e).log, from, w) ==
        Overtakers(s.log, from, w) + (if e.heavy && w in Without(s.queued, e.id) then [e] else [])
    ensures LaterOvertakers(Start(s, e).log, from, w)
         == LaterOvertakers(s.log, from, w) +
            (if e.heavy && w in Without(s.queued, e.id) && w.id < e.id then [e] else [])
  {
    assert Start(s, e).log[..|s.log|] == s.log;
  }

  // ---- The clock ----

  function ClockAfter(ops: seq<Op>, t: int): int {
    if ops == [] then t
    else if ops[|ops| - 1].OpAcquire? then ops[|ops| - 1].now
    else ClockAfter(ops[..|ops| - 1], t)
  }

  /** The clock never goes back over the run. */
  ghost predicate Monotone(ops: seq<Op>, t: int) {
    ops == []
        || (Monotone(ops[..|ops| - 1], t)
            && (ops[|ops| - 1].OpAcquire? ==> ClockAfter(ops[..|ops| - 1], t) <= ops[|ops| - 1].now))
  }

  lemma {:induction false} MonotoneSplits(xs: seq<Op>, ys: seq<Op>, t: int)
    ensures ClockAfter(xs + ys, t) == ClockAfter(ys, ClockAfter(xs, t))
    ensures Monotone(xs + ys, t) <==> Monotone(xs, t) && Monotone(ys, ClockAfter(xs, t))
  {
    if ys == [] {
      assert xs + ys == xs;
    } else {
      assert (xs + ys)[..|xs + ys| - 1] == xs + ys[..|ys| - 1];
      MonotoneSplits(xs, ys[..|ys| - 1], t);
    }
  }

  /** Arrival times follow the queue and are not in the future. */
  ghost predicate ByClock(queued: seq<Entry>, t: int) {
    (forall e :: e in queued ==> e.enqueuedAtMs <= t)
    && (forall x, y :: x in queued && y in queued && x.id < y.id ==> x.enqueuedAtMs <= y.enqueuedAtMs)
  }

  // ---- Waiting empty-handed ----

  /** A session's oldest heavy search waits while the session holds nothing. */
  ghost predicate WaitsEmptyHanded(s: State, w: Entry) {
    Head(s.queued, w) && Sum(s.active, SessionHeavyUnits(w.sessionKey)) == 0
  }

  lemma DifferentIds(queued: seq<Entry>, e: Entry, w: Entry)
    requires Ascending(queued) && e in queued && w in queued && e != w
    ensures e.id != w.id
  {
    AscendingIsDistinct(queued);
    if e.id == w.id { IdNamesEntry(queued, e, w); }
  }

  lemma StartKeepsEmptyHanded(s: State, e: Entry, w: Entry)
    requires Ascending(s.queued) && WaitsEmptyHanded(s, w) && e in s.queued && e != w
        && (e.heavy ==> e.sessionKey != w.sessionKey)
    ensures WaitsEmptyHanded(Start(s, e), w)
  {
    DifferentIds(s.queued, e, w);
    WithoutKeeps(s.queued, e.id);
    SumAppend(s.active, e, SessionHeavyUnits(w.sessionKey));
  }

  // ---- (a) An unserved session's oldest search ----

  /** As long as `w` waits its session holds nothing and has not been served since it came to work. */
  ghost predicate Unserved(s: State, w: Entry, t: int) {
    && w.id < s.issued
    && ByClock(s.queued, t)
    && (w in s.queued ==>
          Head(s.queued, w) && Sum(s.active, SessionHeavyUnits(w.sessionKey)) == 0
          && w.sessionKey !in s.lastHeavyAdmission)
  }

  /** No later arrival is picked before such a search. */
  lemma NoLaterPick(s: State, reading: Option<Reading>, e: Entry, w: Entry, t: int)
    requires Ascending(s.queued) && Unserved(s, w, t) && PickNext(s, reading) == Some(e)
    requires w in s.queued && e.heavy
    ensures e == w || (e.id < w.id && e.sessionKey != w.sessionKey)
  {
    PickIsFair(s, reading, e, w);
    if e != w { DifferentIds(s.queued, e, w); }
  }

  lemma StartKeepsUnserved(s: State, e: Entry, reading: Option<Reading>, w: Entry, t: int, from: nat)
    requires Ascending(s.queued) && Unserved(s, w, t) && PickNext(s, reading) == Some(e) && from <= |s.log|
    requires LaterOvertakers(s.log, from, w) == []
    ensures Unserved(Start(s, e), w, t) && LaterOvertakers(Start(s, e).log, from, w) == []
  {
    PickNextIsQueued(s, reading);
    WithoutKeeps(s.queued, e.id);
    StartOvertakers(s, e, from, w);
    if w in s.queued {
      if e.heavy { NoLaterPick(s, reading, e, w, t); }
      if e != w { StartKeepsEmptyHanded(s, e, w); }
    }
  }

  lemma {:induction false} DrainKeepsUnserved(s: State, reading: Option<Reading>, w: Entry, t: int, from: nat)
    requires Core(s) && Unserved(s, w, t) && from <= |s.log|
    requires LaterOvertakers(s.log, from, w) == []
    ensures Unserved(Drain(s, reading), w, t) && LaterOvertakers(Drain(s, reading).log, from, w) == []
    ensures |s.log| <= |Drain(s, reading).log|
    decreases |s.queued|
  {
    var next := PickNext(s, reading);
    if next.Some? {
      PickNextIsQueued(s, reading);
      StartKeepsCore(s, next.value, reading);
      StartKeepsUnserved(s, next.value, reading, w, t, from);
      var started := Start(s, next.value);
      DrainKeepsUnserved(started, reading, w, t, from);
      assert Drain(s, reading) == Drain(started, reading);
    }
  }

  lemma PreparationKeepsUnserved(s: State, op: Op, w: Entry, t: int)
    requires Inv(s) && Unserved(s, w, t) && (op.OpAcquire? ==> t <= op.now)
    ensures Unserved(Prepare(s, op), w, if op.OpAcquire? then op.now else t)
  {
    PreparationOnlyTakesAway(s, op);
    forall x | x in s.queued ensures x.id < s.issued {
      assert x.id in TicketsIn(s.active, s.queued, s.released, s.turnedAway);
    }
  }

  lemma StepKeepsUnserved(s: State, op: Op, w: Entry, t: int, from: nat)
    requires Inv(s) && Unserved(s, w, t) && from <= |s.log| && (op.OpAcquire? ==> t <= op.now)
    requires LaterOvertakers(s.log, from, w) == []
    ensures Unserved(Step(s, op), w, if op.OpAcquire? then op.now else t)
    ensures LaterOvertakers(Step(s, op).log, from, w) == [] && |s.log| <= |Step(s, op).log|
  {
    var p := Prepare(s, op);
    PrepareKeepsCore(s, op);
    PreparationOnlyTakesAway(s, op);
    PreparationKeepsUnserved(s, op, w, t);
    StepIsPreparedPass(s, op);
    if HasReading(op) { DrainKeepsUnserved(p, op.reading, w, if op.OpAcquire? then op.now else t, from); }
  }

  lemma {:induction false} RunKeepsUnserved(s: State, ops: seq<Op>, w: Entry, t: int, from: nat)
    requires Inv(s) && Unserved(s, w, t) && from <= |s.log| && Monotone(ops, t)
    requires LaterOvertakers(s.log, from, w) == []
    ensures Unserved(Run(s, ops), w, ClockAfter(ops, t))
    ensures LaterOvertakers(Run(s, ops).log, from, w) == [] && |s.log| <= |Run(s, ops).log|
  {
    if ops != [] {
      var front := ops[..|ops| - 1];
      RunKeepsUnserved(s, front, w, t, from);
      RunKeepsInv(s, front);
      StepKeepsUnserved(Run(s, front), ops[|ops| - 1], w, ClockAfter(front, t), from);
    }
  }

  lemma {:induction false} EveryRunIsByClock(ops: seq<Op>, t: int)
    requires Monotone(ops, t)
    ensures ByClock(Run(INITIAL, ops).queued, ClockAfter(ops, t))
  {
    if ops != [] {
      var front, op := ops[..|ops| - 1], ops[|ops| - 1];
      var s := Run(INITIAL, front);
      EveryRunIsByClock(front, t);
      EveryRunKeepsInv(front);
      PreparationOnlyTakesAway(s, op);
      forall x | x in s.queued ensures x.id < s.issued {
        assert x.id in TicketsIn(s.active, s.queued, s.released, s.turnedAway);
      }
      StepIsPreparedPass(s, op);
      if HasReading(op) { DrainMovesOnly(Prepare(s, op), op.reading); }
    }
  }

  /** A session that holds heavy units has been served since it came to work. */
  ghost predicate HoldersServed(s: State) {
    forall e :: e in s.active && e.heavy ==> e.sessionKey in s.lastHeavyAdmission
  }

  lemma {:induction false} DrainKeepsHoldersServed(s: State, reading: Option<Reading>)
    requires HoldersServed(s)
    ensures HoldersServed(Drain(s, reading))
    decreases |s.queued|
  {
    var next := PickNext(s, reading);
    if next.Some? {
      PickNextIsQueued(s, reading);
      DrainKeepsHoldersServed(Start(s, next.value), reading);
    }
  }

  lemma PreparationKeepsHoldersServed(s: State, op: Op)
    requires HoldersServed(s)
    ensures HoldersServed(Prepare(s, op))
  {
    PreparationOnlyTakesAway(s, op);
    forall e | e in Prepare(s, op).active && e.heavy ensures e.sessionKey in Prepare(s, op).lastHeavyAdmission {
      assert e in s.active && e.sessionKey in WorkingSessions(Prepare(s, op));
    }
  }

  lemma {:induction false} EveryRunServesHolders(ops: seq<Op>)
    ensures HoldersServed(Run(INITIAL, ops))
  {
    if ops != [] {
      var s, op := Run(INITIAL, ops[..|ops| - 1]), ops[|ops| - 1];
      EveryRunServesHolders(ops[..|ops| - 1]);
      PreparationKeepsHoldersServed(s, op);
      StepIsPreparedPass(s, op);
      if HasReading(op) { DrainKeepsHoldersServed(Prepare(s, op), op.reading); }
    }
  }

  lemma {:induction false} NoHeavyOf(es: seq<Entry>, a: string)
    requires forall e :: e in es && e.heavy ==> e.sessionKey != a
    ensures Sum(es, SessionHeavyUnits(a)) == 0
  {
    if es != [] {
      assert es[|es| - 1] in es;
      NoHeavyOf(es[..|es| - 1], a);
    }
  }

  /** (a) For any number of sessions: the oldest heavy search of a session that has not been served
      since it came to work, and so holds nothing, is never overtaken by a later arrival, however the
      run goes on. */
  lemma UnservedIsNeverOvertakenByLaterArrivals(ops: seq<Op>, w: Entry, rest: seq<Op>, t: int)
    requires Monotone(ops + rest, t)
    requires Head(Run(INITIAL, ops).queued, w) && w.sessionKey !in Run(INITIAL, ops).lastHeavyAdmission
    ensures WaitsEmptyHanded(Run(INITIAL, ops), w)
    ensures LaterOvertakers(Run(INITIAL, ops + rest).log, |Run(INITIAL, ops).log|, w) == []
  {
    var s := Run(INITIAL, ops);
    MonotoneSplits(ops, rest, t);
    EveryRunKeepsInv(ops);
    EveryRunIsByClock(ops, t);
    EveryRunServesHolders(ops);
    NoHeavyOf(s.active, w.sessionKey);
    assert w.id in TicketsIn(s.active, s.queued, s.released, s.turnedAway);
    RunSplits(INITIAL, ops, rest);
    RunKeepsUnserved(s, rest, w, ClockAfter(ops, t), |s.log|);
  }

  // ---- (b) Two sessions ----

  ghost predicate HeavyOf(es: seq<Entry>, a: string, b: string) {
    forall e :: e in es && e.heavy ==> e.sessionKey == a || e.sessionKey == b
  }

  ghost predicate AsksFor(op: Op, a: string, b: string) {
    op.OpAcquire? ==> HeavyOf([NewEntry(0, op.request, 0)], a, b)
  }

  lemma {:induction false} TwoSessionsHoldAll(es: seq<Entry>, a: string, b: string)
    requires a != b && HeavyOf(es, a, b)
    ensures Sum(es, HeavyUnits) == Sum(es, SessionHeavyUnits(a)) + Sum(es, SessionHeavyUnits(b))
  {
    if es != [] {
      assert forall e :: e in es[..|es| - 1] ==> e in es;
      assert es[|es| - 1] in es;
      TwoSessionsHoldAll(es[..|es| - 1], a, b);
    }
  }

  /** Session `a` was served after `w`'s session, and the record says so. */
  ghost predicate ServedAfter(s: State, a: string, w: Entry) {
    a in s.lastHeavyAdmission && s.lastHeavyAdmission[a] > LastServed(s, w.sessionKey)
  }

  /** Session `a` has no heavy work here at all. */
  ghost predicate NoHeavyWork(s: State, a: string) {
    Sum(s.active, SessionHeavyUnits(a)) == 0 && forall e :: e in s.queued && e.heavy ==> e.sessionKey != a
  }

  /** While `w` waits: at most one overtaker, and after it session `a` is behind `w`. */
  ghost predicate AtMostOne(s: State, a: string, w: Entry, from: nat) {
    && w.id < s.issued && w.sessionKey != a && from <= |s.log|
    && HeavyOf(s.active, a, w.sessionKey) && HeavyOf(s.queued, a, w.sessionKey)
    && |Overtakers(s.log, from, w)| <= 1
    && (w in s.queued ==> WaitsEmptyHanded(s, w))
    && (w in s.queued && |Overtakers(s.log, from, w)| == 1 ==> ServedAfter(s, a, w) || NoHeavyWork(s, a))
  }

  /** After one overtaker the next heavy search to start is `w`. */
  lemma NextHeavyIsTheWaiter(s: State, e: Entry, reading: Option<Reading>, a: string, w: Entry, from: nat)
    requires Ascending(s.queued) && AtMostOne(s, a, w, from) && PickNext(s, reading) == Some(e)
    requires w in s.queued && e.heavy && |Overtakers(s.log, from, w)| == 1
    ensures e == w
  {
    PickIsFair(s, reading, e, w);
  }

  lemma StartKeepsSessions(s: State, e: Entry, a: string, w: Entry, from: nat)
    requires AtMostOne(s, a, w, from) && e in s.queued
    ensures HeavyOf(Start(s, e).active, a, w.sessionKey) && HeavyOf(Start(s, e).queued, a, w.sessionKey)
  {
    WithoutKeeps(s.queued, e.id);
  }

  lemma StartServesAfter(s: State, e: Entry, w: Entry)
    requires ServiceOk(s) && e.heavy && e.sessionKey != w.sessionKey
    ensures ServedAfter(Start(s, e), e.sessionKey, w)
  {
  }

  lemma HeavyStartKeepsAtMostOne(s: State, e: Entry, reading: Option<Reading>, a: string, w: Entry, from: nat)
    requires Ascending(s.queued) && ServiceOk(s) && AtMostOne(s, a, w, from) && PickNext(s, reading) == Some(e)
    requires w in s.queued && e.heavy && e != w
    ensures AtMostOne(Start(s, e), a, w, from)
  {
    PickIsFair(s, reading, e, w);
    if |Overtakers(s.log, from, w)| == 1 { NextHeavyIsTheWaiter(s, e, reading, a, w, from); }
    assert e.sessionKey == a;
    StartKeepsSessions(s, e, a, w, from);
    StartOvertakers(s, e, from, w);
    StartServesAfter(s, e, w);
    StartKeepsEmptyHanded(s, e, w);
  }

  /** An exact start, or `w`'s own, or one after it left. */
  lemma OtherStartKeepsAtMostOne(s: State, e: Entry, a: string, w: Entry, from: nat)
    requires Ascending(s.queued) && AtMostOne(s, a, w, from) && e in s.queued
    requires !e.heavy || e == w || w !in s.queued
    ensures AtMostOne(Start(s, e), a, w, from)
  {
    StartKeepsSessions(s, e, a, w, from);
    WithoutKeeps(s.queued, e.id);
    StartOvertakers(s, e, from, w);
    if !e.heavy {
      SumAppend(s.active, e, SessionHeavyUnits(w.sessionKey));
      SumAppend(s.active, e, SessionHeavyUnits(a));
    }
  }

  lemma StartKeepsAtMostOne(s: State, e: Entry, reading: Option<Reading>, a: string, w: Entry, from: nat)
    requires Ascending(s.queued) && ServiceOk(s) && AtMostOne(s, a, w, from) && PickNext(s, reading) == Some(e)
    ensures AtMostOne(Start(s, e), a, w, from)
  {
    PickNextIsQueued(s, reading);
    if w in s.queued && e.heavy && e != w {
      HeavyStartKeepsAtMostOne(s, e, reading, a, w, from);
    } else {
      OtherStartKeepsAtMostOne(s, e, a, w, from);
    }
  }

  lemma {:induction false} DrainKeepsAtMostOne(s: State, reading: Option<Reading>, a: string, w: Entry, from: nat)
    requires Core(s) && ServiceOk(s) && AtMostOne(s, a, w, from)
    ensures AtMostOne(Drain(s, reading), a, w, from)
    decreases |s.queued|
  {
    var next := PickNext(s, reading);
    if next.Some? {
      PickNextIsQueued(s, reading);
      StartKeepsCore(s, next.value, reading);
      StartKeepsService(s, next.value);
      StartKeepsAtMostOne(s, next.value, reading, a, w, from);
      DrainKeepsAtMostOne(Start(s, next.value), reading, a, w, from);
    }
  }

  /** Between steps a waiting `w` means that `a` holds units, so its service record is still there. */
  lemma SettledMeansServedAfter(s: State, a: string, w: Entry, from: nat)
    requires Inv(s) && AtMostOne(s, a, w, from) && w in s.queued
    ensures Sum(s.active, SessionHeavyUnits(a)) > 0
    ensures |Overtakers(s.log, from, w)| == 1 ==> ServedAfter(s, a, w)
  {
    TwoSessionsHoldAll(s.active, a, w.sessionKey);
  }

  lemma PreparationKeepsAtMostOne(s: State, op: Op, a: string, w: Entry, from: nat)
    requires Inv(s) && AtMostOne(s, a, w, from) && AsksFor(op, a, w.sessionKey)
    ensures AtMostOne(Prepare(s, op), a, w, from)
  {
    var p := Prepare(s, op);
    PreparationOnlyTakesAway(s, op);
    PrepareKeepsCore(s, op);
    if op.OpAcquire? {
      var e := NewEntry(0, op.request, 0);
      assert e in [e];
      assert NewEntry(s.issued, op.request, op.now).sessionKey == e.sessionKey;
    }
    if w in p.queued {
      assert w in s.queued;
      SettledMeansServedAfter(s, a, w, from);
      PreparationKeepsHead(s, op, w);
      if |Overtakers(s.log, from, w)| == 1 { PreparationKeepsServedAfter(s, op, a, w); }
    }
  }

  lemma PreparationKeepsHead(s: State, op: Op, w: Entry)
    requires Inv(s) && w in Prepare(s, op).queued && WaitsEmptyHanded(s, w)
    ensures WaitsEmptyHanded(Prepare(s, op), w)
  {
    PreparationOnlyTakesAway(s, op);
    assert w.id in TicketsIn(s.active, s.queued, s.released, s.turnedAway);
  }

  /** A session's record goes only with the session: one left with no work has no search waiting. */
  lemma PreparationKeepsServedAfter(s: State, op: Op, a: string, w: Entry)
    requires Inv(s) && w in Prepare(s, op).queued && w in s.queued && ServedAfter(s, a, w)
        && Sum(s.active, SessionHeavyUnits(a)) > 0
    ensures ServedAfter(Prepare(s, op), a, w) || NoHeavyWork(Prepare(s, op), a)
  {
    var p := Prepare(s, op);
    PreparationOnlyTakesAway(s, op);
    PrepareKeepsCore(s, op);
    assert w.sessionKey in WorkingSessions(p);
    if a !in p.lastHeavyAdmission {
      assert op.OpRelease? || op.OpAbort?;
      assert a !in WorkingSessions(p);
      NoHeavyOf(p.active, a);
    }
  }

  lemma SameWorkAtMostOne(s: State, t: State, a: string, w: Entry, from: nat)
    requires SameWork(s, t) && AtMostOne(s, a, w, from)
    ensures AtMostOne(t, a, w, from)
  {
  }

  lemma StepKeepsAtMostOne(s: State, op: Op, a: string, w: Entry, from: nat)
    requires Inv(s) && AtMostOne(s, a, w, from) && AsksFor(op, a, w.sessionKey)
    ensures AtMostOne(Step(s, op), a, w, from)
  {
    var p := Prepare(s, op);
    PrepareKeepsCore(s, op);
    PreparationKeepsAtMostOne(s, op, a, w, from);
    StepIsPreparedPass(s, op);
    if SameWork(p, Step(s, op)) {
      SameWorkAtMostOne(p, Step(s, op), a, w, from);
    } else {
      DrainKeepsAtMostOne(p, op.reading, a, w, from);
      SameWorkAtMostOne(Drain(p, op.reading), Step(s, op), a, w, from);
    }
  }

  lemma {:induction false} RunKeepsAtMostOne(s: State, ops: seq<Op>, a: string, w: Entry, from: nat)
    requires Inv(s) && AtMostOne(s, a, w, from) && forall op :: op in ops ==> AsksFor(op, a, w.sessionKey)
    ensures AtMostOne(Run(s, ops), a, w, from)
  {
    if ops != [] {
      var front := ops[..|ops| - 1];
      assert ops == front + [ops[|ops| - 1]];
      RunKeepsAtMostOne(s, front, a, w, from);
      RunKeepsInv(s, front);
      StepKeepsAtMostOne(Run(s, front), ops[|ops| - 1], a, w, from);
    }
  }

  lemma {:induction false} RunAsksFor(ops: seq<Op>, a: string, b: string)
    requires forall op :: op in ops ==> AsksFor(op, a, b)
    ensures HeavyOf(Run(INITIAL, ops).active, a, b) && HeavyOf(Run(INITIAL, ops).queued, a, b)
  {
    if ops != [] {
      var front, op := ops[..|ops| - 1], ops[|ops| - 1];
      assert ops == front + [op];
      var s := Run(INITIAL, front);
      RunAsksFor(front, a, b);
      PreparationOnlyTakesAway(s, op);
      StepIsPreparedPass(s, op);
      assert AsksFor(op, a, b);
      if op.OpAcquire? {
        var e := NewEntry(0, op.request, 0);
        assert e in [e];
        assert NewEntry(s.issued, op.request, op.now).sessionKey == e.sessionKey;
      }
      if HasReading(op) { DrainMovesOnly(Prepare(s, op), op.reading); }
    }
  }

  /** (b) When only two sessions ask for heavy searches: once a session holds no heavy units, at most
      one heavy search of the other starts before its oldest waiting one starts or leaves, wherever
      the run is joined and however it goes on. */
  lemma TwoSessionsOvertakeAtMostOnce(ops: seq<Op>, rest: seq<Op>, a: string, w: Entry)
    requires a != w.sessionKey && forall op :: op in ops + rest ==> AsksFor(op, a, w.sessionKey)
    requires WaitsEmptyHanded(Run(INITIAL, ops), w)
    ensures |Overtakers(Run(INITIAL, ops + rest).log, |Run(INITIAL, ops).log|, w)| <= 1
  {
    var s := Run(INITIAL, ops);
    EveryRunKeepsInv(ops);
    forall op | op in ops ensures AsksFor(op, a, w.sessionKey) { assert op in ops + rest; }
    forall op | op in rest ensures AsksFor(op, a, w.sessionKey) { assert op in ops + rest; }
    RunAsksFor(ops, a, w.sessionKey);
    assert w.id in TicketsIn(s.active, s.queued, s.released, s.turnedAway);
    RunSplits(INITIAL, ops, rest);
    RunKeepsAtMostOne(s, rest, a, w, |s.log|);
  }
}
