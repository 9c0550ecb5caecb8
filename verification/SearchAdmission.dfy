/**
 The search admission controller as a state machine: which searches run now, and who starts next.

 A state holds everything `SearchAdmissionController` keeps, plus a history of what became of each
 search. Every controller method is one step. The class in SearchAdmissionController.dfy is proved
 against these functions; the other SearchAdmission modules prove what all runs of them satisfy.
 */
module SearchAdmission {
  import opened Wrappers

  const CAPACITY_UNITS: nat := 7
  const EXACT_RESERVED_UNITS: nat := 2
  const HEAVY_LIMIT_UNITS: nat := CAPACITY_UNITS - EXACT_RESERVED_UNITS
  const SHORT_RANGE_MAX_DAY_SEARCHES: nat := 10
  const MONTH_RANGE_MAX_DAY_SEARCHES: nat := 31
  const UNSIGNED_SESSION_KEY := "unsigned"
  const MIB: nat := 1024 * 1024
  const RANGE_DAY_PEAK_BYTES: nat := 20 * MIB
  const MATRIX_PEAK_BYTES: nat := 60 * MIB

  datatype Kind = Exact | Range | Matrix

  datatype Request = Request(kind: Kind, daySearches: Option<nat>, sessionKey: Option<string>)

  /** The unit's memory, where it can be read. */
  datatype Reading = Reading(usedBytes: nat, limitBytes: nat)

  function CostUnits(kind: Kind, daySearches: nat): nat {
    match kind
    case Exact => 1
    case Matrix => 2
    case Range =>
      if daySearches <= SHORT_RANGE_MAX_DAY_SEARCHES then 2
      else if daySearches <= MONTH_RANGE_MAX_DAY_SEARCHES then 3
      else HEAVY_LIMIT_UNITS
  }

  function PeakBytes(kind: Kind, daySearches: nat): nat {
    match kind
    case Exact => 0
    case Matrix => MATRIX_PEAK_BYTES
    case Range => daySearches * RANGE_DAY_PEAK_BYTES
  }

  /** A search waiting or running. `id` stands for the identity of its queue object. */
  datatype Entry = Entry(id: nat, kind: Kind, sessionKey: string, costUnits: nat, peakBytes: nat, heavy: bool,
      enqueuedAtMs: int)

  function NewEntry(id: nat, request: Request, now: int): Entry {
    var days := request.daySearches.GetOr(1);
    var session :=
      if request.sessionKey.None? || request.sessionKey.value == "" then UNSIGNED_SESSION_KEY
      else request.sessionKey.value;
    Entry(id, request.kind, session, CostUnits(request.kind, days), PeakBytes(request.kind, days),
        request.kind != Exact, now)
  }

  // ---- Sums and selections over the running and the waiting searches ----

  /** What is being added up. */
  datatype Measure = AllUnits | ExactUnits | HeavyUnits | SessionHeavyUnits(sessionKey: string) | HeavyPeakBytes

  function Weight(e: Entry, m: Measure): nat {
    match m
    case AllUnits => e.costUnits
    case ExactUnits => if e.heavy then 0 else e.costUnits
    case HeavyUnits => if e.heavy then e.costUnits else 0
    case SessionHeavyUnits(k) => if e.heavy && e.sessionKey == k then e.costUnits else 0
    case HeavyPeakBytes => if e.heavy then e.peakBytes else 0
  }

  function Sum(es: seq<Entry>, m: Measure): nat {
    if es == [] then 0 else Sum(es[..|es| - 1], m) + Weight(es[|es| - 1], m)
  }

  function Without(es: seq<Entry>, id: nat): seq<Entry> {
    if es == [] then []
    else if es[|es| - 1].id == id then Without(es[..|es| - 1], id)
    else Without(es[..|es| - 1], id) + [es[|es| - 1]]
  }

  function HeavyOnly(es: seq<Entry>): seq<Entry> {
    if es == [] then []
    else if es[|es| - 1].heavy then HeavyOnly(es[..|es| - 1]) + [es[|es| - 1]]
    else HeavyOnly(es[..|es| - 1])
  }

  predicate HeavyWaiting(queued: seq<Entry>) {
    exists e :: e in queued && e.heavy
  }

  predicate SessionSeen(queued: seq<Entry>, sessionKey: string) {
    exists e :: e in queued && e.heavy && e.sessionKey == sessionKey
  }

  function FirstExact(queued: seq<Entry>): Option<Entry> {
    if queued == [] then None
    else if !queued[0].heavy then Some(queued[0])
    else FirstExact(queued[1..])
  }

  // ---- State ----

  /** A search that started, with the searches it left waiting. */
  datatype Admission = Admission(entry: Entry, waiting: seq<Entry>)

  function Entries(log: seq<Admission>): seq<Entry> {
    if log == [] then [] else Entries(log[..|log| - 1]) + [log[|log| - 1].entry]
  }

  /** A parked long poll: the version it was asked to wait on. */
  datatype Waiter = Waiter(id: nat, version: nat)

  /** `active` lists the JS map's values in insertion order. The last four fields are the history:
      tickets issued, leases released, searches turned away, and searches started in order. */
  datatype State = State(
    active: seq<Entry>,
    queued: seq<Entry>,
    lastHeavyAdmission: map<string, nat>,
    heavyAdmissions: nat,
    revision: nat,
    changeWaiters: set<Waiter>,
    stoppingMessage: Option<string>,
    memoryRecheck: bool,
    issued: nat,
    released: set<nat>,
    turnedAway: set<nat>,
    log: seq<Admission>)

  const INITIAL := State([], [], map[], 0, 0, {}, None, false, 0, {}, {}, [])

  /** What a caller is shown. The version stands for the revision after the start's own prefix. */
  datatype Snapshot = Snapshot(
    version: nat,
    capacityUnits: nat,
    activeUnits: nat,
    queuedUnits: nat,
    activeSearches: nat,
    queuedSearches: nat)

  function SnapshotOf(s: State): Snapshot {
    Snapshot(s.revision, CAPACITY_UNITS, Sum(s.active, AllUnits), Sum(s.queued, AllUnits), |s.active|, |s.queued|)
  }

  // ---- Choosing who starts next ----

  function LastServed(s: State, sessionKey: string): int {
    if sessionKey in s.lastHeavyAdmission then s.lastHeavyAdmission[sessionKey] else -1
  }

  predicate IsFairer(s: State, candidate: Entry, current: Entry) {
    var held :=
      Sum(s.active, SessionHeavyUnits(candidate.sessionKey)) - Sum(s.active, SessionHeavyUnits(current.sessionKey));
    if held != 0 then held < 0
    else
      var served := LastServed(s, candidate.sessionKey) - LastServed(s, current.sessionKey);
      if served != 0 then served < 0 else candidate.enqueuedAtMs < current.enqueuedAtMs
  }

  /** The best of each session's oldest heavy search among the first ones of the queue. */
  function Fairest(s: State, queued: seq<Entry>): Option<Entry> {
    if queued == [] then None
    else
      var e, front := queued[|queued| - 1], queued[..|queued| - 1];
      var best := Fairest(s, front);
      if !e.heavy || SessionSeen(front, e.sessionKey) then best
      else if best.None? || IsFairer(s, e, best.value) then Some(e)
      else best
  }

  /** `max(used, expected) + peak <= 0.9 * limit`, without the fraction. */
  predicate MemoryAllows(s: State, e: Entry, reading: Option<Reading>) {
    reading.None? ||
    var expected := Sum(s.active, HeavyPeakBytes);
    var base := if reading.value.usedBytes < expected then expected else reading.value.usedBytes;
    10 * (base + e.peakBytes) <= 9 * reading.value.limitBytes
  }

  predicate ExactFits(s: State, e: Entry) {
    && Sum(s.active, AllUnits) + e.costUnits <= CAPACITY_UNITS
    && (!HeavyWaiting(s.queued) || Sum(s.active, ExactUnits) + e.costUnits <= EXACT_RESERVED_UNITS)
  }

  predicate HeavyFitsUnits(s: State, e: Entry) {
    Sum(s.active, HeavyUnits) + e.costUnits <= HEAVY_LIMIT_UNITS
  }

  predicate MemoryRefuses(s: State, e: Entry, reading: Option<Reading>) {
    Sum(s.active, HeavyUnits) > 0 && !MemoryAllows(s, e, reading)
  }

  function PickHeavy(s: State, reading: Option<Reading>): Option<Entry> {
    var fairest := Fairest(s, s.queued);
    if fairest.None? || !HeavyFitsUnits(s, fairest.value) || MemoryRefuses(s, fairest.value, reading) then None
    else fairest
  }

  function PickNext(s: State, reading: Option<Reading>): Option<Entry> {
    var exact := FirstExact(s.queued);
    if exact.Some? && ExactFits(s, exact.value) then exact else PickHeavy(s, reading)
  }

  /** Whether `pickNext` answers "none" because of memory, which is when it arms the recheck. */
  predicate HeldByMemory(s: State, reading: Option<Reading>) {
    var exact, fairest := FirstExact(s.queued), Fairest(s, s.queued);
    && !(exact.Some? && ExactFits(s, exact.value))
    && fairest.Some? && HeavyFitsUnits(s, fairest.value) && MemoryRefuses(s, fairest.value, reading)
  }

  // ---- Steps ----

  function Changed(s: State): State {
    s.(revision := s.revision + 1, changeWaiters := {})
  }

  function WorkingSessions(s: State): set<string> {
    (set e | e in s.active :: e.sessionKey) + (set e | e in s.queued :: e.sessionKey)
  }

  function ForgetIdleSessions(s: State): State {
    s.(lastHeavyAdmission := map k | k in s.lastHeavyAdmission && k in WorkingSessions(s) :: s.lastHeavyAdmission[k])
  }

  function Start(s: State, e: Entry): State {
    var waiting := Without(s.queued, e.id);
    var t := s.(queued := waiting, active := s.active + [e], log := s.log + [Admission(e, waiting)]);
    if e.heavy then
      t.(heavyAdmissions := s.heavyAdmissions + 1,
         lastHeavyAdmission := s.lastHeavyAdmission[e.sessionKey := s.heavyAdmissions + 1])
    else t
  }

  lemma PickNextIsQueued(s: State, reading: Option<Reading>)
    requires PickNext(s, reading).Some?
    ensures PickNext(s, reading).value in s.queued
    ensures |Without(s.queued, PickNext(s, reading).value.id)| < |s.queued|
  {
    FirstExactIsExact(s.queued);
    FairestIsQueued(s, s.queued);
    WithoutShrinks(s.queued, PickNext(s, reading).value);
  }

  /** The loop of `startQueued`. */
  function Drain(s: State, reading: Option<Reading>): State
    decreases |s.queued|
  {
    var next := PickNext(s, reading);
    if next.None? then s.(memoryRecheck := s.memoryRecheck || HeldByMemory(s, reading))
    else
      PickNextIsQueued(s, reading);
      Drain(Start(s, next.value), reading)
  }

  /** The searches that loop starts, in order. */
  function Admits(s: State, reading: Option<Reading>): seq<Entry>
    decreases |s.queued|
  {
    var next := PickNext(s, reading);
    if next.None? then []
    else
      PickNextIsQueued(s, reading);
      [next.value] + Admits(Start(s, next.value), reading)
  }

  function StartQueued(s: State, reading: Option<Reading>): State {
    if s.stoppingMessage.Some? then s
    else
      var t := Drain(s, reading);
      if PickNext(s, reading).Some? then Changed(t) else t
  }

  function Acquire(s: State, request: Request, aborted: bool, now: int, reading: Option<Reading>): State {
    var id := s.issued;
    if s.stoppingMessage.Some? || aborted then s.(issued := id + 1, turnedAway := s.turnedAway + {id})
    else
      var entry := NewEntry(id, request, now);
      var t := StartQueued(s.(issued := id + 1, queued := s.queued + [entry]), reading);
      if entry in t.queued then Changed(t) else t
  }

  function Release(s: State, id: nat, reading: Option<Reading>): State {
    if !IsActive(s, id) then s
    else
      var t := s.(active := Without(s.active, id), released := s.released + {id});
      StartQueued(Changed(ForgetIdleSessions(t)), reading)
  }

  /** The job's own stop reaching a search that waits. */
  function Abort(s: State, id: nat, reading: Option<Reading>): State {
    if !IsQueued(s, id) then s
    else
      var t := s.(queued := Without(s.queued, id), turnedAway := s.turnedAway + {id});
      StartQueued(Changed(ForgetIdleSessions(t)), reading)
  }

  function Recheck(s: State, reading: Option<Reading>): State {
    if !s.memoryRecheck || s.stoppingMessage.Some? then s else StartQueued(s.(memoryRecheck := false), reading)
  }

  function StopAccepting(s: State, message: string): State {
    var t := s.(stoppingMessage := Some(message), queued := [], turnedAway := s.turnedAway + Ids(s.queued));
    if s.queued == [] then t else Changed(ForgetIdleSessions(t))
  }

  function WaitForChange(s: State, waiter: Waiter, givesUpAtOnce: bool): State {
    if waiter.version != s.revision || givesUpAtOnce then s else s.(changeWaiters := s.changeWaiters + {waiter})
  }

  /** A parked poll's own timeout or abort. */
  function StopWaiting(s: State, waiter: Waiter): State {
    s.(changeWaiters := s.changeWaiters - {waiter})
  }

  predicate IsActive(s: State, id: nat) { exists e :: e in s.active && e.id == id }

  predicate IsQueued(s: State, id: nat) { exists e :: e in s.queued && e.id == id }

  function Ids(es: seq<Entry>): set<nat> { set e | e in es :: e.id }

  datatype Op =
    | OpAcquire(request: Request, aborted: bool, now: int, reading: Option<Reading>)
    | OpRelease(id: nat, reading: Option<Reading>)
    | OpAbort(id: nat, reading: Option<Reading>)
    | OpRecheck(reading: Option<Reading>)
    | OpStopAccepting(message: string)
    | OpWait(waiter: Waiter, givesUpAtOnce: bool)
    | OpStopWaiting(waiter: Waiter)

  function Step(s: State, op: Op): State {
    match op
    case OpAcquire(request, aborted, now, reading) => Acquire(s, request, aborted, now, reading)
    case OpRelease(id, reading) => Release(s, id, reading)
    case OpAbort(id, reading) => Abort(s, id, reading)
    case OpRecheck(reading) => Recheck(s, reading)
    case OpStopAccepting(message) => StopAccepting(s, message)
    case OpWait(waiter, givesUpAtOnce) => WaitForChange(s, waiter, givesUpAtOnce)
    case OpStopWaiting(waiter) => StopWaiting(s, waiter)
  }

  function Run(s: State, ops: seq<Op>): State {
    if ops == [] then s else Step(Run(s, ops[..|ops| - 1]), ops[|ops| - 1])
  }

  // ---- Facts about the helpers ----

  lemma {:induction false} SumOfParts(xs: seq<Entry>, ys: seq<Entry>, m: Measure)
    ensures Sum(xs + ys, m) == Sum(xs, m) + Sum(ys, m)
  {
    if ys == [] {
      assert xs + ys == xs;
    } else {
      assert (xs + ys)[..|xs + ys| - 1] == xs + ys[..|ys| - 1];
      SumOfParts(xs, ys[..|ys| - 1], m);
    }
  }

  lemma {:induction false} RunSplits(s: State, xs: seq<Op>, ys: seq<Op>)
    ensures Run(s, xs + ys) == Run(Run(s, xs), ys)
  {
    if ys == [] {
      assert xs + ys == xs;
    } else {
      assert (xs + ys)[..|xs + ys| - 1] == xs + ys[..|ys| - 1];
      RunSplits(s, xs, ys[..|ys| - 1]);
    }
  }

  lemma {:induction false} SumSplitsByKind(es: seq<Entry>)
    ensures Sum(es, AllUnits) == Sum(es, ExactUnits) + Sum(es, HeavyUnits)
  {
    if es != [] { SumSplitsByKind(es[..|es| - 1]); }
  }

  lemma {:induction false} FirstExactIsExact(queued: seq<Entry>)
    ensures match FirstExact(queued)
            case Some(e) => e in queued && !e.heavy
            case None => forall e :: e in queued ==> e.heavy
  {
    if queued != [] { FirstExactIsExact(queued[1..]); }
  }

  lemma {:induction false} FairestIsQueued(s: State, queued: seq<Entry>)
    ensures match Fairest(s, queued)
            case Some(e) => e in queued && e.heavy
            case None => !HeavyWaiting(queued)
  {
    if queued != [] { FairestIsQueued(s, queued[..|queued| - 1]); }
  }

  lemma {:induction false} WithoutKeeps(es: seq<Entry>, id: nat)
    ensures |Without(es, id)| <= |es|
    ensures forall e :: e in Without(es, id) <==> e in es && e.id != id
  {
    if es != [] {
      WithoutKeeps(es[..|es| - 1], id);
      assert es == es[..|es| - 1] + [es[|es| - 1]];
    }
  }

  lemma {:induction false} WithoutShrinks(es: seq<Entry>, e: Entry)
    requires e in es
    ensures |Without(es, e.id)| < |es|
  {
    WithoutKeeps(es[..|es| - 1], e.id);
    if es[|es| - 1].id != e.id {
      assert e in es[..|es| - 1];
      WithoutShrinks(es[..|es| - 1], e);
    }
  }
}
