/**
 Publishing a running job's progress: at most one publish an interval, only when the number of marks has
 doubled since the last one, and never a due publish forgotten. The snapshots persisted from those
 publishes double in size in the same way.
 */
module ProgressPublisher {
  import opened Common
  import opened Wrappers

  /** A publish: when, after how many marks, and whether somebody forced it. */
  datatype Publish = Publish(at: int, count: nat, forced: bool)

  function Max(a: int, b: int): (m: int)
    ensures m >= a && m >= b && (m == a || m == b)
  {
    if a > b then a else b
  }

  function Unforced(log: seq<Publish>): nat {
    if log == [] then 0 else Unforced(log[..|log| - 1]) + if log[|log| - 1].forced then 0 else 1
  }

  /** When the publish before the last one happened, or the job began. */
  function LastAt(log: seq<Publish>, began: int): int {
    if log == [] then began else log[|log| - 1].at
  }

  function LastCount(log: seq<Publish>): nat {
    if log == [] then 0 else log[|log| - 1].count
  }

  function NextCount(log: seq<Publish>): nat {
    if log == [] then 1
    else Max(LastCount(log) + 1, LastCount(log) * 2)
  }

  /** Every publish has something new; an unforced one is due by count and by time. */
  ghost predicate Scheduled(log: seq<Publish>, began: int, interval: int) {
    log == [] ||
    (var front, last := log[..|log| - 1], log[|log| - 1];
     && Scheduled(front, began, interval)
     && last.count > LastCount(front)
     && (!last.forced ==> last.count >= NextCount(front) && last.at >= LastAt(front, began) + interval))
  }

  /** A mark is due by its number: the first of all, then whoever doubles what the last publish counted. */
  ghost predicate Doubled(log: seq<Publish>, count: nat) {
    count >= 1 && (log != [] ==> count >= 2 * log[|log| - 1].count)
  }

  ghost predicate LongEnough(log: seq<Publish>, began: int, interval: int, now: int) {
    now >= (if log == [] then began else log[|log| - 1].at) + interval
  }

  /** The number counted with is the doubled one, no less and no more. */
  lemma DueWhenDoubled(log: seq<Publish>, began: int, interval: int, count: nat)
    requires Scheduled(log, began, interval)
    ensures count >= NextCount(log) <==> Doubled(log, count)
  {
  }

  lemma PublishIsScheduled(log: seq<Publish>, p: Publish, began: int, interval: int)
    requires Scheduled(log, began, interval) && p.count > LastCount(log)
    requires !p.forced ==> p.count >= NextCount(log) && p.at >= LastAt(log, began) + interval
    ensures Scheduled(log + [p], began, interval)
  {
    assert (log + [p])[..|log|] == log;
  }

  lemma {:induction false} PublishesAreFew(log: seq<Publish>, began: int, interval: int)
    requires Scheduled(log, began, interval) && log != []
    ensures Power2(Unforced(log)) <= 2 * log[|log| - 1].count
  {
    var front := log[..|log| - 1];
    if front != [] {
      PublishesAreFew(front, began, interval);
    } else {
      assert Unforced(front) == 0;
      assert Power2(1) == 2;
    }
  }

  /** After n marks, p unforced publishes satisfy 2^(p-1) <= n. */
  lemma PublishesAreLogarithmic(log: seq<Publish>, began: int, interval: int, marks: nat)
    requires Scheduled(log, began, interval) && (log != [] ==> log[|log| - 1].count <= marks)
    ensures Unforced(log) >= 1 ==> Power2(Unforced(log) - 1) <= marks
  {
    if log != [] {
      PublishesAreFew(log, began, interval);
    }
  }

  /** Two unforced publishes in a row are at least the interval apart, the first that far from the start. */
  lemma {:induction false} PublishesAreApart(log: seq<Publish>, began: int, interval: int, i: nat)
    requires Scheduled(log, began, interval) && i < |log| && !log[i].forced
    ensures log[i].at >= (if i == 0 then began else log[i - 1].at) + interval
  {
    if i < |log| - 1 {
      PublishesAreApart(log[..|log| - 1], began, interval, i);
    }
  }

  class ProgressSync {
    const interval: int
    var dirty: bool
    var lastSyncAt: int
    var progressCount: nat
    var nextPublishCount: nat
    /** When the armed timer is due. */
    var timer: Option<int>
    ghost const began: int
    ghost var log: seq<Publish>

    /** What the fields say about the publishes so far, whatever the timer. */
    ghost predicate Booked() reads this {
      && lastSyncAt == LastAt(log, began) && nextPublishCount == NextCount(log)
      && Scheduled(log, began, interval)
      && (log != [] ==> log[|log| - 1].count <= progressCount)
      && (dirty ==> progressCount > LastCount(log))
    }

    /** A due unpublished mark has its timer armed, and only that has. */
    ghost predicate Valid() reads this {
      && Booked()
      && (timer.Some? <==> dirty && progressCount >= nextPublishCount)
      && (timer.Some? ==> timer.value >= lastSyncAt + interval)
    }

    constructor (interval: int, now: int)
      ensures Valid() && this.interval == interval && began == now && log == [] && progressCount == 0 && !dirty
    {
      this.interval := interval;
      dirty, lastSyncAt, progressCount, nextPublishCount, timer := false, now, 0, 1, None;
      began, log := now, [];
    }

    /** `flush`: publishes what is unpublished, whoever asks. Unforced, it must be due. */
    method Flush(now: int, ghost forced: bool)
      requires Booked()
      requires !forced ==> dirty && progressCount >= nextPublishCount && now >= lastSyncAt + interval
      modifies this
      ensures Valid() && !dirty && timer.None? && progressCount == old(progressCount)
      ensures log == if old(dirty) then old(log) + [Publish(now, progressCount, forced)] else old(log)
    {
      timer := None;
      if !dirty {
        return;
      }
      dirty := false;
      lastSyncAt := now;
      PublishIsScheduled(log, Publish(now, progressCount, forced), began, interval);
      log := log + [Publish(now, progressCount, forced)];
      nextPublishCount := Max(progressCount + 1, progressCount * 2);
    }

    /** `mark`: publishes at once when due, arms the timer when due but too soon, waits otherwise. */
    method Mark(now: int)
      requires Valid()
      modifies this
      ensures Valid() && progressCount == old(progressCount) + 1
      ensures Doubled(old(log), progressCount) && LongEnough(old(log), began, interval, now) ==>
        log == old(log) + [Publish(now, progressCount, false)] && !dirty
      ensures !Doubled(old(log), progressCount) || !LongEnough(old(log), began, interval, now) ==>
        log == old(log) && dirty && (timer.Some? <==> Doubled(log, progressCount))
      ensures old(progressCount) + 1 >= old(nextPublishCount) && now - old(lastSyncAt) >= interval ==>
        log == old(log) + [Publish(now, progressCount, false)] && !dirty
      ensures old(progressCount) + 1 < old(nextPublishCount) || now - old(lastSyncAt) < interval ==>
        log == old(log) && dirty
      ensures old(timer).Some? && timer.Some? ==> timer == old(timer)
      ensures old(timer).None? && timer.Some? ==> timer.value == old(lastSyncAt) + interval
    {
      DueWhenDoubled(log, began, interval, progressCount + 1);
      progressCount := progressCount + 1;
      dirty := true;
      if progressCount < nextPublishCount {
        return;
      }
      var remaining := Max(0, interval - (now - lastSyncAt));
      if remaining == 0 {
        Flush(now, false);
        return;
      }
      if timer.Some? {
        return;
      }
      timer := Some(now + remaining);
    }

    /** The armed timer fires, never before it is due. */
    method TimerFires(now: int)
      requires Valid() && timer.Some? && now >= timer.value
      modifies this
      ensures Valid() && !dirty && log == old(log) + [Publish(now, progressCount, false)]
          && progressCount == old(progressCount)
    {
      Flush(now, false);
    }

    method Dispose()
      requires Valid()
      modifies this
      ensures Valid() && !dirty && timer.None? && log == old(log) && progressCount == old(progressCount)
    {
      dirty := false;
      timer := None;
    }
  }

  // ---- Persisted snapshots ----

  function ShouldPersistSnapshot(lastPersisted: int, current: int): bool {
    current > 0 && (lastPersisted <= 0 || current >= lastPersisted * 2)
  }

  ghost predicate Doubling(sizes: seq<nat>) {
    sizes == [] ||
    (var front, last := sizes[..|sizes| - 1], sizes[|sizes| - 1];
     Doubling(front) && last >= 1 && (front != [] ==> last >= 2 * front[|front| - 1]))
  }

  lemma {:induction false} SnapshotsAreFew(sizes: seq<nat>)
    requires Doubling(sizes) && sizes != []
    ensures Power2(|sizes| - 1) <= sizes[|sizes| - 1]
  {
    if |sizes| > 1 {
      SnapshotsAreFew(sizes[..|sizes| - 1]);
    }
  }

  class SnapshotWriter {
    var lastPersisted: nat
    /** The sizes of the running snapshots persisted, and the largest size ever seen. */
    ghost var persisted: seq<nat>
    ghost var peak: nat

    ghost predicate Valid() reads this {
      && Doubling(persisted)
      && lastPersisted == (if persisted == [] then 0 else persisted[|persisted| - 1]) <= peak
    }

    constructor ()
      ensures Valid() && persisted == [] && peak == 0
    {
      lastPersisted, persisted, peak := 0, [], 0;
    }

    /** One publish of a job: whether it goes to disk. The count may fall between publishes. */
    method Sync(completed: bool, count: nat) returns (persist: bool)
      requires Valid()
      modifies this
      ensures Valid() && peak == (if count > old(peak) then count else old(peak))
      ensures persist <==> completed || (count > 0 && (old(lastPersisted) == 0 || count >= 2 * old(lastPersisted)))
      ensures persisted == if persist && !completed then old(persisted) + [count] else old(persisted)
      ensures persisted != [] ==> Power2(|persisted| - 1) <= peak
    {
      persist := completed || ShouldPersistSnapshot(lastPersisted, count);
      peak := if count > peak then count else peak;
      if !completed && persist {
        lastPersisted := count;
        assert (persisted + [count])[..|persisted|] == persisted;
        persisted := persisted + [count];
      }
      if persisted != [] {
        SnapshotsAreFew(persisted);
      }
    }
  }
}
