/**
 The other half of fairness. A waiting search is safe from later arrivals when it is its session's
 oldest and the session has not been served since it came to work; any other waiting search can be
 overtaken by later arrivals without bound, in some continuation of every run.
 */
module SearchAdmissionStarvation {
  import opened Wrappers
  import opened SearchAdmission
  import opened SearchAdmissionSafety
  import opened SearchAdmissionFairness

  /** `w` waits, and its session was served since it came to work or will be before `w` is. */
  ghost predicate Exposed(s: State, w: Entry) {
    && w in s.queued && w.heavy && s.stoppingMessage.None?
    && (w.sessionKey in s.lastHeavyAdmission || !Head(s.queued, w))
  }

  /** A newcomer `f` of an unserved session, asking for all heavy capacity, waits behind `w`. */
  ghost predicate Chasing(s: State, w: Entry, f: Entry, from: nat, n: nat) {
    && Exposed(s, w) && from <= |s.log| && |LaterOvertakers(s.log, from, w)| >= n
    && WaitsEmptyHanded(s, f) && f.sessionKey !in s.lastHeavyAdmission && w.id < f.id && w.sessionKey != f.sessionKey
    && f.costUnits == HEAVY_LIMIT_UNITS
  }

  /** The newcomer runs, `w` still waits. */
  ghost predicate Passed(s: State, w: Entry, from: nat, n: nat) {
    && Exposed(s, w) && from <= |s.log| && |LaterOvertakers(s.log, from, w)| >= n
    && Sum(s.active, HeavyUnits) == HEAVY_LIMIT_UNITS
  }

  /** While the newcomer waits, no pick is `w`. */
  lemma NewcomerIsFairer(s: State, e: Entry, reading: Option<Reading>, w: Entry, f: Entry, from: nat, n: nat)
    requires Ascending(s.queued) && Chasing(s, w, f, from, n) && PickNext(s, reading) == Some(e)
    ensures e in s.queued && e != w && (e.heavy ==> HeavyFitsUnits(s, e))
    ensures e != f && e.heavy ==> e.sessionKey != f.sessionKey
  {
    PickIsFair(s, reading, e, w);
    PickIsFair(s, reading, e, f);
    if w.sessionKey in s.lastHeavyAdmission { assert IsFairer(s, f, w); }
  }

  /** Another search's start leaves `w` exposed: if it is of `w`'s session, the session is now served. */
  lemma StartKeepsExposed(s: State, e: Entry, w: Entry)
    requires Ascending(s.queued) && Exposed(s, w) && e in s.queued && e != w
    ensures Exposed(Start(s, e), w)
  {
    DifferentIds(s.queued, e, w);
    WithoutKeeps(s.queued, e.id);
    if w.sessionKey !in Start(s, e).lastHeavyAdmission {
      var x :| x in s.queued && x.heavy && x.sessionKey == w.sessionKey && x.id < w.id;
      if x.id == e.id {
        AscendingIsDistinct(s.queued);
        IdNamesEntry(s.queued, x, e);
        assert false;
      }
      assert x in Start(s, e).queued;
    }
  }

  lemma NewcomerStarts(s: State, f: Entry, reading: Option<Reading>, w: Entry, from: nat, n: nat)
    requires Ascending(s.queued) && Chasing(s, w, f, from, n) && PickNext(s, reading) == Some(f)
    ensures Passed(Start(s, f), w, from, n + 1)
  {
    NewcomerIsFairer(s, f, reading, w, f, from, n);
    StartOvertakers(s, f, from, w);
    StartKeepsExposed(s, f, w);
    SumAppend(s.active, f, HeavyUnits);
  }

  lemma StartWhileChasing(s: State, e: Entry, reading: Option<Reading>, w: Entry, f: Entry, from: nat, n: nat)
    requires Ascending(s.queued) && Chasing(s, w, f, from, n) && PickNext(s, reading) == Some(e) && e != f
    ensures Chasing(Start(s, e), w, f, from, n)
  {
    NewcomerIsFairer(s, e, reading, w, f, from, n);
    StartOvertakers(s, e, from, w);
    StartKeepsExposed(s, e, w);
    StartKeepsEmptyHanded(s, e, f);
  }

  lemma StartWhilePassed(s: State, e: Entry, reading: Option<Reading>, w: Entry, from: nat, n: nat)
    requires EntriesOk(s) && Passed(s, w, from, n) && PickNext(s, reading) == Some(e)
    ensures Passed(Start(s, e), w, from, n)
  {
    PickIsFair(s, reading, e, w);
    assert EntryOk(e);
    assert !e.heavy;
    StartOvertakers(s, e, from, w);
    StartKeepsExposed(s, e, w);
    SumAppend(s.active, e, HeavyUnits);
  }

  function Measured(s: State): nat {
    2 * |s.queued| + |s.active|
  }

  lemma {:induction false} DrainWhilePassed(s: State, reading: Option<Reading>, w: Entry, from: nat, n: nat)
    requires Core(s) && Passed(s, w, from, n)
    ensures Passed(Drain(s, reading), w, from, n)
    decreases |s.queued|
  {
    var next := PickNext(s, reading);
    if next.Some? {
      PickNextIsQueued(s, reading);
      StartKeepsCore(s, next.value, reading);
      StartWhilePassed(s, next.value, reading, w, from, n);
      DrainWhilePassed(Start(s, next.value), reading, w, from, n);
    }
  }

  lemma {:induction false} DrainWhileChasing(s: State, reading: Option<Reading>, w: Entry, f: Entry, from: nat, n: nat)
    requires Core(s) && Chasing(s, w, f, from, n)
    ensures var t := Drain(s, reading);
      Passed(t, w, from, n + 1) || (Chasing(t, w, f, from, n) && Measured(t) <= Measured(s))
    decreases |s.queued|
  {
    var next := PickNext(s, reading);
    if next.Some? {
      PickNextIsQueued(s, reading);
      StartKeepsCore(s, next.value, reading);
      if next.value == f {
        NewcomerStarts(s, f, reading, w, from, n);
        DrainWhilePassed(Start(s, f), reading, w, from, n + 1);
      } else {
        StartWhileChasing(s, next.value, reading, w, f, from, n);
        WithoutShrinks(s.queued, next.value);
        DrainWhileChasing(Start(s, next.value), reading, w, f, from, n);
      }
    }
  }

  lemma RetiredKeepsChasing(s: State, id: nat, w: Entry, f: Entry, from: nat, n: nat)
    requires Inv(s) && Chasing(s, w, f, from, n) && IsActive(s, id)
    ensures Chasing(Retired(s, id), w, f, from, n) && Measured(Retired(s, id)) < Measured(s)
  {
    var e :| e in s.active && e.id == id;
    SumWithoutShrinks(s.active, id, SessionHeavyUnits(f.sessionKey));
    WithoutShrinks(s.active, e);
    assert w.sessionKey in WorkingSessions(Retire(s, id));
  }

  lemma ReleaseWhileChasing(s: State, id: nat, w: Entry, f: Entry, from: nat, n: nat)
    requires Inv(s) && Chasing(s, w, f, from, n) && IsActive(s, id)
    ensures var t := Release(s, id, None);
      Passed(t, w, from, n + 1) || (Chasing(t, w, f, from, n) && Measured(t) < Measured(s))
  {
    RetiredKeepsCore(s, id);
    RetiredKeepsChasing(s, id, w, f, from, n);
    DrainWhileChasing(Retired(s, id), None, w, f, from, n);
  }

  /** Releasing what runs, one search after the other, lets the newcomer past `w`. */
  lemma {:induction false} ReleasesLetNewcomerPass(s: State, w: Entry, f: Entry, from: nat, n: nat)
      returns (rest: seq<Op>)
    requires Inv(s) && Chasing(s, w, f, from, n)
    ensures Passed(Run(s, rest), w, from, n + 1)
    ensures forall op :: op in rest ==> op.OpRelease?
    decreases Measured(s)
  {
    assert s.active != [];
    var id := s.active[0].id;
    var op := OpRelease(id, None);
    assert IsActive(s, id) by { assert s.active[0] in s.active; }
    ReleaseWhileChasing(s, id, w, f, from, n);
    StepKeepsInv(s, op);
    var t := Step(s, op);
    assert Run(s, [op]) == t by { assert [op][..0] == []; }
    if Passed(t, w, from, n + 1) {
      rest := [op];
    } else {
      var more := ReleasesLetNewcomerPass(t, w, f, from, n);
      rest := [op] + more;
      RunSplits(s, [op], more);
    }
  }

  // ---- The newcomer ----

  function FreshKey(es: seq<Entry>): string {
    if es == [] then "x" else FreshKey(es[..|es| - 1]) + es[|es| - 1].sessionKey
  }

  lemma {:induction false} FreshKeyIsLonger(es: seq<Entry>)
    ensures |FreshKey(es)| > 0 && forall e :: e in es ==> |e.sessionKey| < |FreshKey(es)|
  {
    if es != [] {
      assert es == es[..|es| - 1] + [es[|es| - 1]];
      FreshKeyIsLonger(es[..|es| - 1]);
    }
  }

  function NewcomerOp(s: State, now: int): Op {
    OpAcquire(Request(Range, Some(32), Some(FreshKey(s.active + s.queued))), false, now, None)
  }

  lemma NewcomerChases(s: State, w: Entry, from: nat, n: nat, now: int)
    requires Inv(s) && Exposed(s, w) && from <= |s.log| && |LaterOvertakers(s.log, from, w)| >= n
    ensures var op := NewcomerOp(s, now); var f := NewEntry(s.issued, op.request, now);
      Chasing(Enqueue(s, f), w, f, from, n)
  {
    var f := NewEntry(s.issued, NewcomerOp(s, now).request, now);
    FreshKeyIsLonger(s.active + s.queued);
    forall e | e in s.active || e in s.queued ensures e.sessionKey != f.sessionKey { assert e in s.active + s.queued; }
    NoHeavyOf(s.active, f.sessionKey);
    assert f.sessionKey !in WorkingSessions(s);
    forall x | x in s.queued ensures x.id < s.issued {
      assert x.id in TicketsIn(s.active, s.queued, s.released, s.turnedAway);
    }
  }

  lemma {:induction false} ReleasesKeepClock(op: Op, releases: seq<Op>)
    requires op.OpAcquire? && forall x :: x in releases ==> x.OpRelease?
    ensures Monotone([op] + releases, op.now) && ClockAfter([op] + releases, op.now) == op.now
  {
    var ops := [op] + releases;
    if releases != [] {
      var last := releases[|releases| - 1];
      assert last in releases;
      assert ops[..|ops| - 1] == [op] + releases[..|releases| - 1];
      ReleasesKeepClock(op, releases[..|releases| - 1]);
    }
  }

  /** One more later arrival starts before `w`, and `w` waits as before. */
  lemma OneMoreOvertakes(s: State, w: Entry, from: nat, n: nat, now: int) returns (rest: seq<Op>)
    requires Inv(s) && Exposed(s, w) && from <= |s.log| && |LaterOvertakers(s.log, from, w)| >= n
    ensures Exposed(Run(s, rest), w) && from <= |Run(s, rest).log|
        && |LaterOvertakers(Run(s, rest).log, from, w)| >= n + 1
    ensures Monotone(rest, now)
  {
    var op := NewcomerOp(s, now);
    var f := NewEntry(s.issued, op.request, now);
    NewcomerChases(s, w, from, n, now);
    PrepareKeepsCore(s, op);
    StepKeepsInv(s, op);
    StepIsPreparedPass(s, op);
    DrainWhileChasing(Enqueue(s, f), None, w, f, from, n);
    var t := Step(s, op);
    assert Run(s, [op]) == t by { assert [op][..0] == []; }
    var more := [];
    if !Passed(t, w, from, n + 1) { more := ReleasesLetNewcomerPass(t, w, f, from, n); }
    rest := [op] + more;
    RunSplits(s, [op], more);
    ReleasesKeepClock(op, more);
  }

  lemma {:induction false} ManyOvertake(s: State, w: Entry, from: nat, n: nat, t: int) returns (rest: seq<Op>)
    requires Inv(s) && Exposed(s, w) && from <= |s.log|
    ensures Monotone(rest, t) && Exposed(Run(s, rest), w) && from <= |Run(s, rest).log|
    ensures |LaterOvertakers(Run(s, rest).log, from, w)| >= n
  {
    if n == 0 {
      rest := [];
    } else {
      var before := ManyOvertake(s, w, from, n - 1, t);
      RunKeepsInv(s, before);
      var more := OneMoreOvertakes(Run(s, before), w, from, n - 1, ClockAfter(before, t));
      rest := before + more;
      RunSplits(s, before, more);
      MonotoneSplits(before, more, t);
    }
  }

  lemma WaitingMeansAccepting(ops: seq<Op>, w: Entry)
    requires w in Run(INITIAL, ops).queued
    ensures Run(INITIAL, ops).stoppingMessage.None?
  {
    EveryRunKeepsInv(ops);
  }

  /** From every state of every run: a waiting heavy search that is not its session's oldest, or whose
      session was served since it came to work, can be overtaken by any number of later arrivals, and
      waits on. */
  lemma ExposedCanBeOvertakenWithoutBound(ops: seq<Op>, w: Entry, n: nat, t: int)
    requires Monotone(ops, t) && w in Run(INITIAL, ops).queued && w.heavy
    requires w.sessionKey in Run(INITIAL, ops).lastHeavyAdmission || !Head(Run(INITIAL, ops).queued, w)
    ensures exists rest ::
      && Monotone(ops + rest, t) && w in Run(INITIAL, ops + rest).queued
      && |LaterOvertakers(Run(INITIAL, ops + rest).log, |Run(INITIAL, ops).log|, w)| >= n
  {
    EveryRunKeepsInv(ops);
    WaitingMeansAccepting(ops, w);
    var s := Run(INITIAL, ops);
    var rest := ManyOvertake(s, w, |s.log|, n, ClockAfter(ops, t));
    MonotoneSplits(ops, rest, t);
    RunSplits(INITIAL, ops, rest);
  }

  /** Exactly which waiting heavy searches are safe: in every continuation no later arrival overtakes
      it if and only if it is its session's oldest and the session has no service record. */
  lemma SafeExactlyWhenFirstAndUnserved(ops: seq<Op>, w: Entry, t: int)
    requires Monotone(ops, t) && w in Run(INITIAL, ops).queued && w.heavy
    ensures Head(Run(INITIAL, ops).queued, w) && w.sessionKey !in Run(INITIAL, ops).lastHeavyAdmission <==>
      forall rest :: Monotone(ops + rest, t) ==>
        LaterOvertakers(Run(INITIAL, ops + rest).log, |Run(INITIAL, ops).log|, w) == []
  {
    var s := Run(INITIAL, ops);
    if Head(s.queued, w) && w.sessionKey !in s.lastHeavyAdmission {
      forall rest | Monotone(ops + rest, t)
        ensures LaterOvertakers(Run(INITIAL, ops + rest).log, |s.log|, w) == []
      {
        UnservedIsNeverOvertakenByLaterArrivals(ops, w, rest, t);
      }
    } else {
      ExposedCanBeOvertakenWithoutBound(ops, w, 1, t);
    }
  }
}
