/**
 Three sessions are enough to starve a search: two of them take turns, each going idle and coming
 back as never served, while the third, served once and kept at work by an exact search, waits on.
 */
module SearchAdmissionThreeSessions {
  import opened Wrappers
  import opened SearchAdmission
  import opened SearchAdmissionSafety
  import opened SearchAdmissionFairness

  const SERVED := "served"

  function Longer(session: string): Request { Request(Range, Some(32), Some(session)) }

  /** `w` waits; its session runs one exact search, and `running`'s session holds all heavy units. */
  ghost predicate Turn(s: State, w: Entry, running: Entry, idle: string) {
    && ServiceOk(s) && s.stoppingMessage.None? && w.id < s.issued
    && s.queued == [w] && w.heavy && w.sessionKey == SERVED && w.costUnits >= 2
    && |s.active| == 2 && !s.active[0].heavy && s.active[0].sessionKey == SERVED && s.active[0].costUnits == 1
    && s.active[0].id != running.id && s.active[0].id < s.issued
    && s.active[1] == running && running.heavy && running.costUnits == HEAVY_LIMIT_UNITS
    && SERVED in s.lastHeavyAdmission && idle !in s.lastHeavyAdmission
    && running.sessionKey != SERVED && idle != SERVED && idle != running.sessionKey
    && idle != "" && running.sessionKey != ""
  }

  lemma SumOfTwo(es: seq<Entry>, m: Measure)
    requires |es| == 2
    ensures Sum(es, m) == Weight(es[0], m) + Weight(es[1], m)
  {
    assert es[..1][..0] == [];
    assert Sum(es[..1], m) == Weight(es[0], m);
  }

  lemma SumOfOne(es: seq<Entry>, m: Measure)
    requires |es| == 1
    ensures Sum(es, m) == Weight(es[0], m)
  {
    assert es[..0] == [];
  }

  /** With all heavy units taken, a pass over heavy searches starts none. */
  lemma NothingFits(s: State)
    requires forall e :: e in s.queued ==> e.heavy && e.costUnits >= 2
    requires Sum(s.active, HeavyUnits) == HEAVY_LIMIT_UNITS
    ensures PickNext(s, None).None?
  {
    FirstExactIsExact(s.queued);
    FairestIsQueued(s, s.queued);
  }

  lemma OtherArrives(s: State, w: Entry, running: Entry, idle: string)
    requires Turn(s, w, running, idle)
    ensures var t := Acquire(s, Longer(idle), false, 0, None);
      && t.queued == [w, NewEntry(s.issued, Longer(idle), 0)] && t.active == s.active
      && t.lastHeavyAdmission == s.lastHeavyAdmission && t.heavyAdmissions == s.heavyAdmissions
      && t.stoppingMessage.None? && t.log == s.log && t.issued == s.issued + 1
  {
    var f := NewEntry(s.issued, Longer(idle), 0);
    SumOfTwo(s.active, HeavyUnits);
    NothingFits(s.(issued := s.issued + 1, queued := s.queued + [f]));
  }

  lemma NewcomerIsPicked(r: State, exact: Entry, w: Entry, f: Entry)
    requires r.active == [exact] && !exact.heavy && r.queued == [w, f] && w.heavy && f.heavy
    requires ServiceOk(r) && w.sessionKey in r.lastHeavyAdmission && f.sessionKey !in r.lastHeavyAdmission
    requires w.sessionKey != f.sessionKey && f.costUnits <= HEAVY_LIMIT_UNITS
    ensures PickNext(r, None) == Some(f)
  {
    SumOfOne(r.active, SessionHeavyUnits(w.sessionKey));
    SumOfOne(r.active, SessionHeavyUnits(f.sessionKey));
    SumOfOne(r.active, HeavyUnits);
    FirstExactIsExact(r.queued);
    assert r.queued[..1] == [w] && [w][..0] == [];
    assert Fairest(r, [w]) == Some(w);
    assert !SessionSeen([w], f.sessionKey);
    assert IsFairer(r, f, w);
    assert Fairest(r, r.queued) == Some(f);
  }

  lemma WithoutLastOfTwo(x: Entry, y: Entry)
    requires x.id != y.id
    ensures Without([x, y], y.id) == [x]
  {
    assert [x, y][..1] == [x] && [x][..0] == [];
    assert Without([x], y.id) == [x];
  }

  lemma RunnerLeaves(u: State, exact: Entry, running: Entry, w: Entry, f: Entry)
    requires ServiceOk(u) && u.active == [exact, running] && u.queued == [w, f] && exact.id != running.id
    requires exact.sessionKey == w.sessionKey && running.sessionKey !in {w.sessionKey, f.sessionKey}
    requires w.sessionKey in u.lastHeavyAdmission && f.sessionKey !in u.lastHeavyAdmission
    ensures var r := Retired(u, running.id);
      && r.active == [exact] && r.queued == u.queued && r.log == u.log && r.stoppingMessage == u.stoppingMessage
      && w.sessionKey in r.lastHeavyAdmission && f.sessionKey !in r.lastHeavyAdmission
          && running.sessionKey !in r.lastHeavyAdmission
      && ServiceOk(r)
  {
    WithoutLastOfTwo(exact, running);
    ForgetKeepsService(Retire(u, running.id));
    var r := Retire(u, running.id);
    assert w in r.queued;
    assert forall e :: e in r.active || e in r.queued ==> e.sessionKey in {w.sessionKey, f.sessionKey};
  }

  lemma NewcomerTakesOver(r: State, exact: Entry, w: Entry, f: Entry)
    requires r.active == [exact] && !exact.heavy && r.queued == [w, f] && w.heavy && f.heavy && w.id != f.id
    requires ServiceOk(r) && w.sessionKey in r.lastHeavyAdmission && f.sessionKey !in r.lastHeavyAdmission
    requires w.sessionKey != f.sessionKey && f.costUnits == HEAVY_LIMIT_UNITS && w.costUnits >= 2
    ensures var t := Drain(r, None);
      && t.active == [exact, f] && t.queued == [w] && t.stoppingMessage == r.stoppingMessage && t.issued == r.issued
      && t.lastHeavyAdmission == r.lastHeavyAdmission[f.sessionKey := r.heavyAdmissions + 1]
          && t.heavyAdmissions == r.heavyAdmissions + 1
      && t.log == r.log + [Admission(f, [w])]
  {
    NewcomerIsPicked(r, exact, w, f);
    WithoutLastOfTwo(w, f);
    var v := Start(r, f);
    SumOfTwo(v.active, HeavyUnits);
    NothingFits(v);
    assert Drain(r, None) == Drain(v, None);
  }

  /** The running search leaves and its session is forgotten: the newcomer starts. */
  lemma RunnerHandsOver(u: State, exact: Entry, running: Entry, w: Entry, f: Entry)
    requires ServiceOk(u) && u.active == [exact, running] && u.queued == [w, f] && exact.id != running.id
        && w.id != f.id
    requires exact.sessionKey == w.sessionKey && running.sessionKey !in {w.sessionKey, f.sessionKey}
        && w.sessionKey != f.sessionKey
    requires w.sessionKey in u.lastHeavyAdmission && f.sessionKey !in u.lastHeavyAdmission
    requires !exact.heavy && w.heavy && f.heavy && f.costUnits == HEAVY_LIMIT_UNITS && w.costUnits >= 2
        && u.stoppingMessage.None?
    ensures var t := Release(u, running.id, None);
      && t.active == [exact, f] && t.queued == [w] && t.stoppingMessage.None? && t.issued == u.issued
      && t.log == u.log + [Admission(f, [w])]
      && w.sessionKey in t.lastHeavyAdmission && running.sessionKey !in t.lastHeavyAdmission && ServiceOk(t)
  {
    assert running in u.active && IsActive(u, running.id);
    RunnerLeaves(u, exact, running, w, f);
    var r := Retired(u, running.id);
    NewcomerTakesOver(r, exact, w, f);
    var t := Release(u, running.id, None);
    assert t.lastHeavyAdmission == r.lastHeavyAdmission[f.sessionKey := r.heavyAdmissions + 1];
    assert f in t.active && w in t.queued;
    forall k | k in t.lastHeavyAdmission ensures k in WorkingSessions(t) {
      if k != f.sessionKey {
        assert k in WorkingSessions(r);
        assert r.queued == [w, f];
      }
    }
  }

  /** The idle session arrives, and the running one leaves. */
  lemma TurnPasses(s: State, w: Entry, running: Entry, idle: string, from: nat) returns (t: State)
    requires Turn(s, w, running, idle) && from <= |s.log|
    ensures t == Release(Acquire(s, Longer(idle), false, 0, None), running.id, None)
    ensures Turn(t, w, NewEntry(s.issued, Longer(idle), 0), running.sessionKey)
    ensures from <= |t.log| && |LaterOvertakers(t.log, from, w)| == |LaterOvertakers(s.log, from, w)| + 1
  {
    var u := Acquire(s, Longer(idle), false, 0, None);
    OtherArrives(s, w, running, idle);
    t := FinishTurn(s, u, w, running, idle, from);
  }

  lemma FinishTurn(s: State, u: State, w: Entry, running: Entry, idle: string, from: nat) returns (t: State)
    requires Turn(s, w, running, idle) && from <= |s.log|
    requires u.queued == [w, NewEntry(s.issued, Longer(idle), 0)] && u.active == s.active
    requires u.lastHeavyAdmission == s.lastHeavyAdmission && u.heavyAdmissions == s.heavyAdmissions
    requires u.stoppingMessage.None? && u.log == s.log && u.issued == s.issued + 1
    ensures t == Release(u, running.id, None)
    ensures Turn(t, w, NewEntry(s.issued, Longer(idle), 0), running.sessionKey)
    ensures from <= |t.log| && |LaterOvertakers(t.log, from, w)| == |LaterOvertakers(s.log, from, w)| + 1
  {
    var f := NewEntry(s.issued, Longer(idle), 0);
    t := Release(u, running.id, None);
    assert s.active == [s.active[0], running];
    assert ServiceOk(u) by {
      assert w in s.queued && w in u.queued;
      assert forall e :: e in s.active ==> e in u.active;
    }
    RunnerHandsOver(u, s.active[0], running, w, f);
    OneMoreLater(s.log, f, w, from);
  }

  lemma OneMoreLater(log: seq<Admission>, f: Entry, w: Entry, from: nat)
    requires from <= |log| && f.heavy && w.id < f.id
    ensures |LaterOvertakers(log + [Admission(f, [w])], from, w)| == |LaterOvertakers(log, from, w)| + 1
  {
    assert (log + [Admission(f, [w])])[..|log|] == log;
  }

  lemma TurnIsEmptyHanded(s: State, w: Entry, running: Entry, idle: string)
    requires Turn(s, w, running, idle)
    ensures WaitsEmptyHanded(s, w)
  {
    SumOfTwo(s.active, SessionHeavyUnits(SERVED));
  }

  /** Only three sessions ask. */
  ghost predicate OfThree(op: Op, a: string, b: string) {
    op.OpAcquire? ==> op.now == 0 && op.request.sessionKey.Some? && op.request.sessionKey.value in {SERVED, a, b}
  }

  lemma {:induction false} TurnsGoOn(s: State, w: Entry, running: Entry, idle: string, from: nat, n: nat)
      returns (ops: seq<Op>)
    requires Turn(s, w, running, idle) && from <= |s.log|
    ensures WaitsEmptyHanded(Run(s, ops), w)
    ensures |LaterOvertakers(Run(s, ops).log, from, w)| == |LaterOvertakers(s.log, from, w)| + n
    ensures forall op :: op in ops ==> OfThree(op, running.sessionKey, idle)
    decreases n
  {
    ops := [];
    TurnIsEmptyHanded(s, w, running, idle);
    if n > 0 {
      var first, second := OpAcquire(Longer(idle), false, 0, None), OpRelease(running.id, None);
      var t := TurnPasses(s, w, running, idle, from);
      RunTwo(s, first, second);
      var more := TurnsGoOn(t, w, NewEntry(s.issued, Longer(idle), 0), running.sessionKey, from, n - 1);
      ops := [first, second] + more;
      RunSplits(s, [first, second], more);
      assert forall op :: op in [first, second] ==> OfThree(op, running.sessionKey, idle);
    }
  }

  lemma RunOne(s: State, op: Op)
    ensures Run(s, [op]) == Step(s, op)
  {
    assert [op][..0] == [];
  }

  lemma RunTwo(s: State, first: Op, second: Op)
    ensures Run(s, [first, second]) == Step(Step(s, first), second)
  {
    RunOne(s, first);
    RunOne(Step(s, first), second);
    RunSplits(s, [first], [second]);
  }

  // ---- The opening ----

  lemma StartsAlone(s: State, request: Request) returns (t: State, e: Entry)
    requires s.queued == [] && s.stoppingMessage.None?
    requires request.kind != Exact ==> Sum(s.active, HeavyUnits) == 0
    requires request.kind == Exact ==> Sum(s.active, AllUnits) + 1 <= CAPACITY_UNITS
    ensures e == NewEntry(s.issued, request, 0) && t == Step(s, OpAcquire(request, false, 0, None))
    ensures t.active == s.active + [e] && t.queued == [] && t.stoppingMessage.None? && t.issued == s.issued + 1
    ensures t.lastHeavyAdmission.Keys == s.lastHeavyAdmission.Keys + (if e.heavy then {e.sessionKey} else {})
    ensures ServiceOk(s) ==> ServiceOk(t)
  {
    e := NewEntry(s.issued, request, 0);
    t := Acquire(s, request, false, 0, None);
    AcquireAlone(s, request, 0);
    if ServiceOk(s) { AloneKeepsService(s, t, e); }
  }

  lemma AloneKeepsService(s: State, t: State, e: Entry)
    requires ServiceOk(s) && t.active == s.active + [e] && s.queued == []
    requires t.lastHeavyAdmission == Start(Enqueue(s, e), e).lastHeavyAdmission
    requires t.heavyAdmissions == Start(Enqueue(s, e), e).heavyAdmissions
    ensures ServiceOk(t)
  {
    assert e in t.active && forall x :: x in s.active ==> x in t.active;
    assert WorkingSessions(s) <= WorkingSessions(t);
  }

  lemma MatrixEnds(s: State, m: Entry, x: Entry) returns (t: State)
    requires ServiceOk(s) && s.active == [m, x] && s.queued == [] && s.stoppingMessage.None? && m.id != x.id
    requires s.lastHeavyAdmission.Keys == {x.sessionKey}
    ensures t == Step(s, OpRelease(m.id, None))
    ensures t.active == [x] && t.queued == [] && t.stoppingMessage.None? && t.issued == s.issued
    ensures t.lastHeavyAdmission.Keys == {x.sessionKey} && ServiceOk(t)
  {
    t := Release(s, m.id, None);
    assert m in s.active && IsActive(s, m.id);
    assert Without(s.active, m.id) == [x] by {
      assert [m, x][..1] == [m] && [m][..0] == [];
      assert Without([m], m.id) == [];
    }
    var r := Retired(s, m.id);
    ForgetKeepsService(Retire(s, m.id));
    assert x in r.active;
    assert PickNext(r, None).None?;
  }

  lemma WaiterArrives(s: State, request: Request, x: Entry, h: Entry) returns (t: State, w: Entry)
    requires ServiceOk(s) && s.active == [x, h] && s.queued == [] && s.stoppingMessage.None?
    requires !x.heavy && h.heavy && h.costUnits == HEAVY_LIMIT_UNITS && request.kind == Matrix
    ensures t == Step(s, OpAcquire(request, false, 0, None)) && w == NewEntry(s.issued, request, 0)
    ensures t.active == s.active && t.queued == [w] && t.stoppingMessage.None? && t.issued == s.issued + 1
    ensures t.lastHeavyAdmission == s.lastHeavyAdmission && ServiceOk(t)
  {
    w := NewEntry(s.issued, request, 0);
    t := Acquire(s, request, false, 0, None);
    SumOfTwo(s.active, HeavyUnits);
    NothingFits(s.(issued := s.issued + 1, queued := s.queued + [w]));
    assert WorkingSessions(s) <= WorkingSessions(t);
  }

  function Asks(request: Request): Op { OpAcquire(request, false, 0, None) }

  function Opening(s: State, matrix: Request, keeper: Request, longer: Request): seq<Op> {
    [Asks(matrix), Asks(keeper)] + [OpRelease(s.issued, None), Asks(longer)] + [Asks(matrix)]
  }

  /** A matrix of the served session starts, and an exact search keeps the session at work. */
  lemma SessionIsServed(s: State, matrix: Request, keeper: Request) returns (t: State, m: Entry, x: Entry)
    requires ServiceOk(s) && s.active == [] && s.queued == [] && s.stoppingMessage.None?
        && s.lastHeavyAdmission == map[]
    requires matrix.kind == Matrix && matrix.sessionKey == Some(SERVED) && keeper.kind == Exact
        && keeper.sessionKey == Some(SERVED)
    ensures t == Run(s, [Asks(matrix), Asks(keeper)])
    ensures t.active == [m, x] && t.queued == [] && t.stoppingMessage.None? && t.issued == s.issued + 2
    ensures t.lastHeavyAdmission.Keys == {SERVED} && ServiceOk(t)
    ensures m.id == s.issued && x.id == s.issued + 1 && !x.heavy && x.costUnits == 1 && x.sessionKey == SERVED
  {
    var s1;
    s1, m := StartsAlone(s, matrix);
    assert s1.active == [m];
    SumOfOne(s1.active, AllUnits);
    t, x := StartsAlone(s1, keeper);
    assert t.active == [m, x];
    RunTwo(s, Asks(matrix), Asks(keeper));
  }

  /** The matrix ends, and a longer range takes all heavy units. */
  lemma RivalTakesOver(s: State, m: Entry, x: Entry, longer: Request) returns (t: State, h: Entry)
    requires ServiceOk(s) && s.active == [m, x] && s.queued == [] && s.stoppingMessage.None? && m.id != x.id
    requires s.lastHeavyAdmission.Keys == {x.sessionKey} && !x.heavy && longer.kind == Range
        && longer.daySearches == Some(32)
    ensures t == Run(s, [OpRelease(m.id, None), Asks(longer)])
    ensures t.active == [x, h] && t.queued == [] && t.stoppingMessage.None? && t.issued == s.issued + 1
    ensures h == NewEntry(s.issued, longer, 0)
    ensures t.lastHeavyAdmission.Keys == {x.sessionKey, h.sessionKey} && ServiceOk(t)
  {
    var s3 := MatrixEnds(s, m, x);
    SumOfOne(s3.active, HeavyUnits);
    t, h := StartsAlone(s3, longer);
    assert t.active == [x, h];
    RunTwo(s, OpRelease(m.id, None), Asks(longer));
  }

  /** A second matrix of the served session then waits: the first turn is on. */
  lemma OpeningIsATurn(s: State, matrix: Request, keeper: Request, longer: Request) returns (w: Entry, h: Entry)
    requires ServiceOk(s) && s.active == [] && s.queued == [] && s.stoppingMessage.None?
        && s.lastHeavyAdmission == map[]
    requires matrix.kind == Matrix && matrix.sessionKey == Some(SERVED) && keeper.kind == Exact
        && keeper.sessionKey == Some(SERVED)
    requires longer.kind == Range && longer.daySearches == Some(32) && longer.sessionKey == Some("first")
    ensures Turn(Run(s, Opening(s, matrix, keeper, longer)), w, h, "second") && h.sessionKey == "first"
  {
    var two, next := [Asks(matrix), Asks(keeper)], [OpRelease(s.issued, None), Asks(longer)];
    var s2, m, x := SessionIsServed(s, matrix, keeper);
    var s4, s5;
    s4, s5, w, h := ServedSessionWaits(s2, m, x, matrix, longer);
    RunInParts(s, s2, s4, s5, two, next, Asks(matrix));
  }

  lemma ServedSessionWaits(s: State, m: Entry, x: Entry, matrix: Request, longer: Request)
      returns (s4: State, s5: State, w: Entry, h: Entry)
    requires ServiceOk(s) && s.active == [m, x] && s.queued == [] && s.stoppingMessage.None? && m.id != x.id
        && x.id < s.issued
    requires s.lastHeavyAdmission.Keys == {SERVED} && !x.heavy && x.costUnits == 1 && x.sessionKey == SERVED
    requires matrix.kind == Matrix && matrix.sessionKey == Some(SERVED)
    requires longer.kind == Range && longer.daySearches == Some(32) && longer.sessionKey == Some("first")
    ensures s4 == Run(s, [OpRelease(m.id, None), Asks(longer)]) && s5 == Step(s4, Asks(matrix))
    ensures Turn(s5, w, h, "second") && h.sessionKey == "first"
  {
    s4, h := RivalTakesOver(s, m, x, longer);
    s5, w := WaiterArrives(s4, matrix, x, h);
  }

  lemma RunInParts(s: State, s2: State, s4: State, s5: State, two: seq<Op>, next: seq<Op>, last: Op)
    requires s2 == Run(s, two) && s4 == Run(s2, next) && s5 == Step(s4, last)
    ensures Run(s, two + next + [last]) == s5
  {
    RunOne(s4, last);
    RunSplits(s, two, next);
    RunSplits(s, two + next, [last]);
  }

  /** Three sessions ask; `w`'s session holds nothing, and `n` later arrivals start while `w` waits on. */
  ghost predicate Starves(before: seq<Op>, rest: seq<Op>, w: Entry, n: nat) {
    && (forall op :: op in before + rest ==> OfThree(op, "first", "second"))
    && WaitsEmptyHanded(Run(INITIAL, before), w) && WaitsEmptyHanded(Run(INITIAL, before + rest), w)
    && |LaterOvertakers(Run(INITIAL, before + rest).log, |Run(INITIAL, before).log|, w)| >= n
  }

  lemma ContinueFrom(before: seq<Op>, w: Entry, h: Entry, n: nat) returns (rest: seq<Op>)
    requires Turn(Run(INITIAL, before), w, h, "second") && h.sessionKey == "first"
    requires forall op :: op in before ==> OfThree(op, "first", "second")
    ensures Starves(before, rest, w, n)
  {
    var s := Run(INITIAL, before);
    TurnIsEmptyHanded(s, w, h, "second");
    rest := TurnsGoOn(s, w, h, "second", |s.log|, n);
    RunSplits(INITIAL, before, rest);
  }

  lemma OpeningIsOfThree(s: State, matrix: Request, keeper: Request, longer: Request)
    requires matrix.sessionKey == Some(SERVED) && keeper.sessionKey == Some(SERVED)
        && longer.sessionKey == Some("first")
    ensures forall op :: op in Opening(s, matrix, keeper, longer) ==> OfThree(op, "first", "second")
  {
  }

  /** With three sessions the bound of two does not hold for any number: for every `n` there is a run
      of three sessions, on a clock that stands still, in which `n` later arrivals start before a
      search whose session holds nothing, and it waits still. */
  lemma ThreeSessionsStarve(n: nat)
    ensures exists before, rest, w :: Starves(before, rest, w, n)
  {
    var matrix, keeper := Request(Matrix, None, Some(SERVED)), Request(Exact, None, Some(SERVED));
    var w, h := OpeningIsATurn(INITIAL, matrix, keeper, Longer("first"));
    OpeningIsOfThree(INITIAL, matrix, keeper, Longer("first"));
    var rest := ContinueFrom(Opening(INITIAL, matrix, keeper, Longer("first")), w, h, n);
  }
}
