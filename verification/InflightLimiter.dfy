/**
 The ceiling on Agil searches in flight: a first-in first-out semaphore whose waiters may leave. Tickets
 number the calls of `acquire`; a lease is the release function a granted call receives.
 */
module InflightLimiter {
  import opened Common

  type Ticket = nat

  ghost predicate AllBelow(tickets: seq<Ticket>, t: Ticket) {
    forall x :: x in tickets ==> x < t
  }

  ghost predicate Ascending(tickets: seq<Ticket>) {
    tickets == [] || (Ascending(tickets[..|tickets| - 1]) && AllBelow(tickets[..|tickets| - 1], tickets[|tickets| - 1]))
  }

  lemma Appended(tickets: seq<Ticket>, t: Ticket)
    requires Ascending(tickets) && AllBelow(tickets, t)
    ensures Ascending(tickets + [t])
  {
    assert (tickets + [t])[..|tickets|] == tickets;
  }

  lemma {:induction false} WithoutKeeps(tickets: seq<Ticket>, t: Ticket)
    requires Ascending(tickets)
    ensures Ascending(Without(tickets, t))
    ensures forall x :: x in Without(tickets, t) <==> x in tickets && x != t
  {
    if tickets != [] {
      var front, last := tickets[..|tickets| - 1], tickets[|tickets| - 1];
      WithoutKeeps(front, t);
      assert tickets == front + [last];
      if last != t {
        Appended(Without(front, t), last);
      }
    }
  }

  lemma HeadAndTail(tickets: seq<Ticket>)
    requires tickets != []
    ensures tickets[0] in tickets && forall t :: t in tickets <==> t == tickets[0] || t in tickets[1..]
  {
    assert tickets == [tickets[0]] + tickets[1..];
  }

  lemma {:induction false} FirstIsLeast(tickets: seq<Ticket>)
    requires Ascending(tickets) && tickets != []
    ensures Ascending(tickets[1..]) && forall t :: t in tickets[1..] ==> tickets[0] < t
  {
    if |tickets| > 1 {
      var front, last := tickets[..|tickets| - 1], tickets[|tickets| - 1];
      FirstIsLeast(front);
      HeadAndTail(front);
      assert tickets[1..] == front[1..] + [last];
      Appended(front[1..], last);
    }
  }

  lemma {:induction false} Indexed(tickets: seq<Ticket>, i: nat, j: nat)
    requires Ascending(tickets) && i < |tickets| && j < |tickets|
    ensures tickets[i] < tickets[j] <==> i < j
  {
    var n := |tickets| - 1;
    if i < n && j < n {
      Indexed(tickets[..n], i, j);
    } else if i < n {
      assert tickets[..n][i] in tickets[..n];
    } else if j < n {
      assert tickets[..n][j] in tickets[..n];
    }
  }

  /** Granted in the order of arrival, the waiting ones behind them; every call was granted, or waits,
      or left, and only one of these. */
  ghost predicate Orderly(issued: nat, granted: seq<Ticket>, waiters: seq<Ticket>, left: set<Ticket>) {
    && Ascending(granted) && Ascending(waiters)
    && (forall g, w :: g in granted && w in waiters ==> g < w)
    && (forall t: Ticket :: t < issued <==> t in granted || t in waiters || t in left)
    && (forall t :: t in left ==> t !in granted && t !in waiters)
  }

  lemma OrderlyRefused(issued: nat, granted: seq<Ticket>, waiters: seq<Ticket>, left: set<Ticket>)
    requires Orderly(issued, granted, waiters, left)
    ensures Orderly(issued + 1, granted, waiters, left + {issued})
  {
  }

  lemma OrderlyWaits(issued: nat, granted: seq<Ticket>, waiters: seq<Ticket>, left: set<Ticket>)
    requires Orderly(issued, granted, waiters, left)
    ensures Orderly(issued + 1, granted, waiters + [issued], left)
  {
    Appended(waiters, issued);
  }

  lemma OrderlyGranted(issued: nat, granted: seq<Ticket>, left: set<Ticket>)
    requires Orderly(issued, granted, [], left)
    ensures Orderly(issued + 1, granted + [issued], [], left) && issued !in granted
  {
    Appended(granted, issued);
  }

  lemma OrderlyServed(issued: nat, granted: seq<Ticket>, waiters: seq<Ticket>, left: set<Ticket>)
    requires Orderly(issued, granted, waiters, left) && waiters != []
    ensures Orderly(issued, granted + [waiters[0]], waiters[1..], left) && waiters[0] !in granted
  {
    FirstIsLeast(waiters);
    HeadAndTail(waiters);
    Appended(granted, waiters[0]);
  }

  lemma OrderlyLeft(issued: nat, granted: seq<Ticket>, waiters: seq<Ticket>, left: set<Ticket>, t: Ticket)
    requires Orderly(issued, granted, waiters, left)
    ensures Orderly(issued, granted, Without(waiters, t), if t in waiters then left + {t} else left)
  {
    WithoutKeeps(waiters, t);
  }

  ghost function Members(tickets: seq<Ticket>): set<Ticket> {
    set t | t in tickets
  }

  /** The slots granted and not given back. */
  ghost function Held(granted: seq<Ticket>, released: set<Ticket>): set<Ticket> {
    Members(granted) - released
  }

  datatype Answer = Granted | Waiting | Rejected

  class InflightLimiter {
    const limit: nat
    var inFlight: nat
    var waiters: seq<Ticket>
    /** Leases given back, and calls so far: the identities of the closures. */
    var released: set<Ticket>
    var issued: nat
    /** The granted calls in the order they were granted; the ones that left or were refused. */
    ghost var granted: seq<Ticket>
    ghost var left: set<Ticket>

    /** Slots granted and not given back. */
    ghost function Outstanding(): set<Ticket> reads this {
      Held(granted, released)
    }

    ghost predicate Valid() reads this {
      && inFlight == |Outstanding()| && inFlight <= limit
      && (waiters != [] ==> inFlight == limit)
      && released <= Members(granted)
      && Orderly(issued, granted, waiters, left)
    }

    constructor (limit: nat)
      ensures Valid() && this.limit == limit && inFlight == 0 && waiters == [] && issued == 0 && granted == []
    {
      this.limit := limit;
      inFlight, waiters, released, issued, granted, left := 0, [], {}, 0, [], {};
    }

    /** A free slot is only ever found when nobody waits for one. */
    method Acquire(aborted: bool) returns (t: Ticket, answer: Answer)
      requires Valid()
      modifies this
      ensures Valid() && t == old(issued) && issued == t + 1 && released == old(released)
      ensures answer.Rejected? <==> aborted
      ensures aborted ==>
        left == old(left) + {t} && waiters == old(waiters) && granted == old(granted) && inFlight == old(inFlight)
      ensures !aborted ==> (answer.Granted? <==> old(inFlight) < limit)
      ensures answer.Granted? ==> granted == old(granted) + [t] && waiters == [] == old(waiters) && left == old(left)
      ensures answer.Waiting? ==> waiters == old(waiters) + [t] && granted == old(granted) && left == old(left)
    {
      t := issued;
      issued := issued + 1;
      if aborted {
        OrderlyRefused(t, granted, waiters, left);
        left := left + {t};
        return t, Rejected;
      }
      if waiters == [] && inFlight < limit {
        OrderlyGranted(t, granted, left);
        OneMoreOutstanding(granted, released, t);
        inFlight := inFlight + 1;
        granted := granted + [t];
        return t, Granted;
      }
      OrderlyWaits(t, granted, waiters, left);
      waiters := waiters + [t];
      return t, Waiting;
    }

    /** Gives the slot back once, and hands it to the one who has waited longest. */
    method Release(t: Ticket)
      requires Valid() && t in granted
      modifies this
      ensures Valid() && issued == old(issued) && left == old(left)
      ensures t in old(released) ==>
        inFlight == old(inFlight) && waiters == old(waiters) && granted == old(granted) && released == old(released)
      ensures t !in old(released) ==> released == old(released) + {t}
      ensures t !in old(released) && old(waiters) == [] ==> granted == old(granted) && inFlight == old(inFlight) - 1
      ensures t !in old(released) && old(waiters) != [] ==>
        granted == old(granted) + [old(waiters)[0]] && waiters == old(waiters)[1..] && inFlight == old(inFlight)
    {
      if t in released {
        return;
      }
      OneFewerOutstanding(granted, released, t);
      released := released + {t};
      inFlight := if inFlight - 1 > 0 then inFlight - 1 else 0;
      Drain();
    }

    /** `drain`: while slots are free, the first waiter gets one. */
    method Drain()
      requires inFlight == |Outstanding()| && inFlight <= limit && released <= Members(granted)
      requires waiters != [] ==> inFlight + 1 == limit
      requires Orderly(issued, granted, waiters, left)
      modifies `inFlight, `waiters, `granted
      ensures Valid()
      ensures old(waiters) == [] ==> granted == old(granted) && inFlight == old(inFlight) && waiters == []
      ensures old(waiters) != [] ==>
        granted == old(granted) + [old(waiters)[0]] && waiters == old(waiters)[1..] && inFlight == old(inFlight) + 1
    {
      while waiters != [] && inFlight < limit
        invariant inFlight == |Outstanding()| && inFlight <= limit && released <= Members(granted)
        invariant Orderly(issued, granted, waiters, left)
        invariant (granted == old(granted) && waiters == old(waiters) && inFlight == old(inFlight))
          || (inFlight == limit && old(waiters) != [] && granted == old(granted) + [old(waiters)[0]]
              && waiters == old(waiters)[1..] && inFlight == old(inFlight) + 1)
        decreases |waiters|
      {
        var next := waiters[0];
        OrderlyServed(issued, granted, waiters, left);
        OneMoreOutstanding(granted, released, next);
        waiters := waiters[1..];
        inFlight := inFlight + 1;
        granted := granted + [next];
      }
    }

    /** A stopped search takes only itself out of the queue; after it was granted nothing happens. */
    method Abort(t: Ticket)
      requires Valid()
      modifies this
      ensures Valid() && issued == old(issued) && inFlight == old(inFlight) && granted == old(granted)
          && released == old(released)
      ensures waiters == Without(old(waiters), t)
      ensures left == if t in old(waiters) then old(left) + {t} else old(left)
    {
      OrderlyLeft(issued, granted, waiters, left, t);
      if t in waiters {
        left := left + {t};
      } else {
        NobodyLeaves(waiters, t);
      }
      waiters := Without(waiters, t);
    }
  }

  lemma {:induction false} NobodyLeaves(tickets: seq<Ticket>, t: Ticket)
    requires t !in tickets
    ensures Without(tickets, t) == tickets
  {
    if tickets != [] {
      assert tickets == tickets[..|tickets| - 1] + [tickets[|tickets| - 1]];
      NobodyLeaves(tickets[..|tickets| - 1], t);
    }
  }

  lemma OneMoreOutstanding(granted: seq<Ticket>, released: set<Ticket>, t: Ticket)
    requires t !in granted && released <= Members(granted)
    ensures |Held(granted + [t], released)| == |Held(granted, released)| + 1 && released <= Members(granted + [t])
  {
    assert Held(granted + [t], released) == Held(granted, released) + {t};
  }

  lemma OneFewerOutstanding(granted: seq<Ticket>, released: set<Ticket>, t: Ticket)
    requires t in granted && t !in released
    ensures |Held(granted, released + {t})| == |Held(granted, released)| - 1
  {
    assert Held(granted, released) == Held(granted, released + {t}) + {t};
  }

  /** Served in order of arrival: of two calls that did not leave, the earlier one is granted first, and
      a later one is only granted once the earlier one was. */
  lemma FirstComeFirstServed(limiter: InflightLimiter, earlier: Ticket, later: Ticket, j: nat)
    requires limiter.Valid() && earlier < later && earlier !in limiter.left
    requires j < |limiter.granted| && limiter.granted[j] == later
    ensures exists i :: 0 <= i < j && limiter.granted[i] == earlier
  {
    var granted := limiter.granted;
    assert later in granted;
    assert later < limiter.issued;
    assert earlier in granted;
    var i :| 0 <= i < |granted| && granted[i] == earlier;
    Indexed(granted, i, j);
  }
}
