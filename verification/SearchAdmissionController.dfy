/**
 `SearchAdmissionController` as it runs: its methods update its fields in place. Each is proved to
 do what the state machine of SearchAdmission.dfy says, so that what is proved about every run of
 that machine holds of every use of this class. The unit's memory gauge is read once per call and
 handed in; a promise's outcome is a place in the history fields.
 */
module SearchAdmissionController {
  import opened Wrappers
  import A = SearchAdmission
  import S = SearchAdmissionSafety

  type Entry = A.Entry

  /** Taking one entry out of the array leaves the others in order. */
  lemma {:induction false} SpliceIsWithout(es: seq<Entry>, i: nat)
    requires i < |es| && S.Distinct(es)
    ensures es[..i] + es[i + 1..] == A.Without(es, es[i].id)
  {
    var front, last := es[..|es| - 1], es[|es| - 1];
    assert es == front + [last];
    if i == |es| - 1 {
      S.WithoutAbsent(front, last.id);
    } else {
      SpliceIsWithout(front, i);
      assert front[i] in front;
      assert es[i + 1..] == front[i + 1..] + [last];
    }
  }

  lemma PrefixStep<T>(xs: seq<T>, i: nat)
    requires i < |xs|
    ensures xs[..i + 1][..i] == xs[..i] && xs[..i + 1][i] == xs[i]
  {
  }

  method UnitsOf(entries: seq<Entry>, m: A.Measure) returns (units: nat)
    ensures units == A.Sum(entries, m)
  {
    units := 0;
    for i := 0 to |entries|
      invariant units == A.Sum(entries[..i], m)
    {
      PrefixStep(entries, i);
      units := units + A.Weight(entries[i], m);
    }
    assert entries[..|entries|] == entries;
  }

  function GetOr(m: map<string, nat>, k: string, default: int): int {
    if k in m then m[k] else default
  }

  /** Heavy units by session; a session absent from the map holds none. */
  method HeavyUnitsBySession(active: seq<Entry>) returns (units: map<string, nat>)
    ensures forall k :: GetOr(units, k, 0) == A.Sum(active, A.SessionHeavyUnits(k))
  {
    units := map[];
    for i := 0 to |active|
      invariant forall k :: GetOr(units, k, 0) == A.Sum(active[..i], A.SessionHeavyUnits(k))
    {
      PrefixStep(active, i);
      var entry := active[i];
      if entry.heavy {
        units := units[entry.sessionKey := GetOr(units, entry.sessionKey, 0) + entry.costUnits];
      }
    }
    assert active[..|active|] == active;
  }

  class SearchAdmissionController {
    var active: seq<Entry>
    var queued: seq<Entry>
    var lastHeavyAdmission: map<string, nat>
    var heavyAdmissions: nat
    var revision: nat
    var changeWaiters: set<A.Waiter>
    var stoppingMessage: Option<string>
    var memoryRecheck: bool
    var issued: nat
    var released: set<nat>
    ghost var turnedAway: set<nat>
    ghost var log: seq<A.Admission>

    ghost function Model(): A.State
      reads this
    {
      A.State(active, queued, lastHeavyAdmission, heavyAdmissions, revision, changeWaiters, stoppingMessage,
              memoryRecheck, issued, released, turnedAway, log)
    }

    ghost predicate Valid()
      reads this
    {
      S.Inv(Model())
    }

    constructor ()
      ensures Valid() && Model() == A.INITIAL
    {
      active, queued, lastHeavyAdmission, heavyAdmissions := [], [], map[], 0;
      revision, changeWaiters, stoppingMessage, memoryRecheck := 0, {}, None, false;
      issued, released, turnedAway, log := 0, {}, {}, [];
      new;
      S.EveryRunKeepsInv([]);
    }

    method Acquire(request: A.Request, aborted: bool, now: int, reading: Option<A.Reading>)
        returns (id: nat, waits: bool)
      requires Valid()
      modifies this
      ensures Valid() && Model() == A.Acquire(old(Model()), request, aborted, now, reading)
      ensures id == old(issued) && (waits <==> A.NewEntry(id, request, now) in queued)
    {
      S.AcquireKeepsInv(Model(), request, aborted, now, reading);
      S.TicketsAreFresh(Model());
      id, waits := issued, false;
      if stoppingMessage.Some? || aborted {
        Refuse();
      } else {
        waits := Enqueue(A.NewEntry(id, request, now), reading);
      }
    }

    method Refuse()
      modifies this`issued, this`turnedAway
      ensures Model() == old(Model()).(issued := old(issued) + 1, turnedAway := old(turnedAway) + {old(issued)})
    {
      turnedAway := turnedAway + {issued};
      issued := issued + 1;
    }

    method Enqueue(entry: Entry, reading: Option<A.Reading>) returns (waits: bool)
      requires Valid() && stoppingMessage.None? && entry.id == issued && S.EntryOk(entry)
      modifies this
      ensures waits <==> entry in queued
      ensures var t := A.StartQueued(S.Enqueue(old(Model()), entry), reading);
        Model() == if entry in t.queued then A.Changed(t) else t
    {
      S.ArrivalKeepsOrder(Model(), entry);
      issued := issued + 1;
      queued := queued + [entry];
      StartQueued(reading);
      waits := entry in queued;
      if waits { Changed(); }
    }

    method Release(id: nat, reading: Option<A.Reading>)
      requires Valid() && (A.IsActive(Model(), id) || id in released)
      modifies this
      ensures Valid() && Model() == A.Release(old(Model()), id, reading)
    {
      S.ReleaseKeepsInv(Model(), id, reading);
      if id in released {
        S.ReleasedIsGone(Model(), id);
        return;
      }
      S.InvKeepsOrder(Model());
      released := released + {id};
      var i := IndexOf(active, id);
      SpliceIsWithout(active, i);
      active := active[..i] + active[i + 1..];
      Reconsider(reading);
    }

    /** What follows when a search is gone, from the queue or from the running ones. */
    method Reconsider(reading: Option<A.Reading>)
      requires S.Ascending(queued)
      modifies this
      ensures Model() == A.StartQueued(A.Changed(A.ForgetIdleSessions(old(Model()))), reading)
    {
      ForgetIdleSessions();
      Changed();
      StartQueued(reading);
    }

    /** The job's stop reaching its waiting search: `leave`, through `removeQueued`. */
    method RemoveQueued(id: nat, reading: Option<A.Reading>) returns (removed: bool)
      requires Valid()
      modifies this
      ensures Valid() && Model() == A.Abort(old(Model()), id, reading)
      ensures removed <==> A.IsQueued(old(Model()), id)
    {
      S.AbortKeepsInv(Model(), id, reading);
      var i := IndexOf(queued, id);
      if i == |queued| { return false; }
      assert queued[i] in queued;
      S.InvKeepsOrder(Model());
      S.WithoutKeepsAscending(queued, id);
      SpliceIsWithout(queued, i);
      queued := queued[..i] + queued[i + 1..];
      turnedAway := turnedAway + {id};
      Reconsider(reading);
      removed := true;
    }

    /** The timer armed by `recheckMemoryLater`. Stopping clears it. */
    method RecheckMemory(reading: Option<A.Reading>)
      requires Valid()
      modifies this
      ensures Valid() && Model() == A.Recheck(old(Model()), reading)
    {
      S.StepKeepsInv(Model(), A.OpRecheck(reading));
      if memoryRecheck && stoppingMessage.None? {
        memoryRecheck := false;
        StartQueued(reading);
      }
    }

    method StopAccepting(message: string)
      requires Valid()
      modifies this
      ensures Valid() && Model() == A.StopAccepting(old(Model()), message)
    {
      S.StopKeepsInv(Model(), message);
      stoppingMessage := Some(message);
      var leaving := queued;
      queued := [];
      turnedAway := turnedAway + A.Ids(leaving);
      if |leaving| > 0 {
        ForgetIdleSessions();
        Changed();
      }
    }

    method Snapshot() returns (snapshot: A.Snapshot)
      ensures snapshot == A.SnapshotOf(Model())
    {
      var activeUnits := UnitsOf(active, A.AllUnits);
      var queuedUnits := UnitsOf(queued, A.AllUnits);
      snapshot := A.Snapshot(revision, A.CAPACITY_UNITS, activeUnits, queuedUnits, |active|, |queued|);
    }

    /** Parks a poll unless it has its answer already. */
    method WaitForChange(waiter: A.Waiter, givesUpAtOnce: bool) returns (parked: bool)
      requires Valid()
      modifies this
      ensures Valid() && Model() == A.WaitForChange(old(Model()), waiter, givesUpAtOnce)
      ensures parked <==> waiter.version == revision && !givesUpAtOnce
    {
      S.StepKeepsInv(Model(), A.OpWait(waiter, givesUpAtOnce));
      parked := waiter.version == revision && !givesUpAtOnce;
      if parked { changeWaiters := changeWaiters + {waiter}; }
    }

    // ---- Private ----

    method IndexOf(es: seq<Entry>, id: nat) returns (i: nat)
      ensures i <= |es|
      ensures i < |es| ==> es[i].id == id
      ensures i == |es| <==> forall e :: e in es ==> e.id != id
    {
      i := 0;
      while i < |es| && es[i].id != id
        invariant i <= |es| && forall j :: 0 <= j < i ==> es[j].id != id
      {
        i := i + 1;
      }
      if i < |es| { assert es[i] in es; }
    }

    function IsFairer(candidate: Entry, current: Entry, units: map<string, nat>): (r: bool)
      requires forall k :: GetOr(units, k, 0) == A.Sum(active, A.SessionHeavyUnits(k))
      reads this
      ensures r == A.IsFairer(Model(), candidate, current)
    {
      var held := GetOr(units, candidate.sessionKey, 0) - GetOr(units, current.sessionKey, 0);
      if held != 0 then held < 0
      else
        var served :=
          GetOr(lastHeavyAdmission, candidate.sessionKey, -1) - GetOr(lastHeavyAdmission, current.sessionKey, -1);
        if served != 0 then served < 0 else candidate.enqueuedAtMs < current.enqueuedAtMs
    }

    method PickFairest(units: map<string, nat>) returns (fairest: Option<Entry>)
      requires forall k :: GetOr(units, k, 0) == A.Sum(active, A.SessionHeavyUnits(k))
      ensures fairest == A.Fairest(Model(), queued)
    {
      fairest := None;
      var seenSessions: set<string> := {};
      for i := 0 to |queued|
        invariant fairest == A.Fairest(Model(), queued[..i])
        invariant forall k :: k in seenSessions <==> A.SessionSeen(queued[..i], k)
      {
        PrefixStep(queued, i);
        var entry := queued[i];
        assert queued[..i + 1] == queued[..i] + [entry];
        if entry.heavy && entry.sessionKey !in seenSessions {
          seenSessions := seenSessions + {entry.sessionKey};
          if fairest.None? || IsFairer(entry, fairest.value, units) {
            fairest := Some(entry);
          }
        }
        SeenGrows(queued[..i], entry);
      }
      assert queued[..|queued|] == queued;
    }

    method MemoryAllows(entry: Entry, reading: Option<A.Reading>) returns (allowed: bool)
      ensures allowed == A.MemoryAllows(Model(), entry, reading)
    {
      if reading.None? { return true; }
      var expected := UnitsOf(active, A.HeavyPeakBytes);
      var base := if reading.value.usedBytes < expected then expected else reading.value.usedBytes;
      allowed := 10 * (base + entry.peakBytes) <= 9 * reading.value.limitBytes;
    }

    method PickNext(reading: Option<A.Reading>) returns (next: Option<Entry>)
      modifies this`memoryRecheck
      ensures next == A.PickNext(old(Model()), reading)
      ensures Model() == old(Model()).(memoryRecheck := old(memoryRecheck) || A.HeldByMemory(old(Model()), reading))
    {
      var totalUnits := UnitsOf(active, A.AllUnits);
      var exactUnits := UnitsOf(active, A.ExactUnits);
      A.SumSplitsByKind(active);
      var heavyUnits := totalUnits - exactUnits;
      var exact := A.FirstExact(queued);
      if exact.Some?
         && totalUnits + exact.value.costUnits <= A.CAPACITY_UNITS
         && (!A.HeavyWaiting(queued) || exactUnits + exact.value.costUnits <= A.EXACT_RESERVED_UNITS)
      {
        return exact;
      }
      var units := HeavyUnitsBySession(active);
      var fairest := PickFairest(units);
      if fairest.None? || heavyUnits + fairest.value.costUnits > A.HEAVY_LIMIT_UNITS { return None; }
      if heavyUnits > 0 {
        var allowed := MemoryAllows(fairest.value, reading);
        if !allowed {
          memoryRecheck := true;
          return None;
        }
      }
      return fairest;
    }

    method Start(entry: Entry)
      requires entry in queued && S.Ascending(queued)
      modifies this
      ensures Model() == A.Start(old(Model()), entry)
    {
      var i := IndexOf(queued, entry.id);
      S.AscendingIsDistinct(queued);
      SpliceIsWithout(queued, i);
      queued := queued[..i] + queued[i + 1..];
      active := active + [entry];
      if entry.heavy {
        heavyAdmissions := heavyAdmissions + 1;
        lastHeavyAdmission := lastHeavyAdmission[entry.sessionKey := heavyAdmissions];
      }
      log := log + [A.Admission(entry, queued)];
    }

    method StartQueued(reading: Option<A.Reading>)
      requires S.Ascending(queued)
      modifies this
      ensures Model() == A.StartQueued(old(Model()), reading)
    {
      if stoppingMessage.Some? { return; }
      var started := false;
      ghost var passed := Model();
      var next := PickNext(reading);
      while next.Some?
        invariant S.Ascending(queued) && stoppingMessage == old(stoppingMessage)
        invariant next == A.PickNext(passed, reading)
        invariant A.Drain(passed, reading) == A.Drain(old(Model()), reading)
        invariant Model() == if next.Some? then passed else A.Drain(passed, reading)
        invariant next.None? ==> started == A.PickNext(old(Model()), reading).Some?
        invariant next.Some? ==> A.PickNext(old(Model()), reading).Some?
        decreases |passed.queued|, next.Some?
      {
        A.PickNextIsQueued(passed, reading);
        S.WithoutKeepsAscending(queued, next.value.id);
        Start(next.value);
        started := true;
        passed := Model();
        next := PickNext(reading);
      }
      if started { Changed(); }
    }

    method WorkingSessions() returns (working: set<string>)
      ensures working == A.WorkingSessions(Model())
    {
      working := {};
      for i := 0 to |active|
        invariant working == set e | e in active[..i] :: e.sessionKey
      {
        assert active[..i + 1] == active[..i] + [active[i]];
        working := working + {active[i].sessionKey};
      }
      assert active[..|active|] == active;
      for i := 0 to |queued|
        invariant working == (set e | e in active :: e.sessionKey) + (set e | e in queued[..i] :: e.sessionKey)
      {
        assert queued[..i + 1] == queued[..i] + [queued[i]];
        working := working + {queued[i].sessionKey};
      }
      assert queued[..|queued|] == queued;
    }

    method ForgetIdleSessions()
      modifies this`lastHeavyAdmission
      ensures Model() == A.ForgetIdleSessions(old(Model()))
    {
      var working := WorkingSessions();
      var keys := lastHeavyAdmission.Keys;
      ghost var before := lastHeavyAdmission;
      while keys != {}
        invariant keys <= lastHeavyAdmission.Keys
        invariant forall k :: k in lastHeavyAdmission <==> k in before && (k in keys || k in working)
        invariant forall k :: k in lastHeavyAdmission ==> lastHeavyAdmission[k] == before[k]
        decreases |keys|
      {
        var key :| key in keys;
        keys := keys - {key};
        if key !in working { lastHeavyAdmission := lastHeavyAdmission - {key}; }
      }
    }

    method Changed()
      modifies this`revision, this`changeWaiters
      ensures Model() == A.Changed(old(Model()))
    {
      revision := revision + 1;
      changeWaiters := {};
    }
  }

  lemma SeenGrows(front: seq<Entry>, e: Entry)
    ensures forall k :: A.SessionSeen(front + [e], k) <==> A.SessionSeen(front, k) || (e.heavy && e.sessionKey == k)
  {
    assert e in front + [e];
    assert forall x :: x in front ==> x in front + [e];
  }
}
